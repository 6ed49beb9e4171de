/** What the step of one task does, told from its inputs and the files it finds: which pool it gets, which arm it stops
    at, and every record and audit it leaves. */
module RankerOutcomes {
  import opened Sorting
  import opened Options
  import opened ExperimentStore
  import opened RankerPools

  predicate IsArm(k: Key, task: string, repeats: nat) {
    k.arm.taskId == task && k.arm.protocol == "ranker_component" && k.arm.variant in ["R0", "R1", "R2"]
    && 1 <= k.repeatId <= repeats
  }

  /** The arms are the three ranker variants of the task at every replication, each once: variant by variant, and within
      one by replication. */
  lemma ArmsListed(task: string, repeats: nat)
    ensures var keys := Arms(task, repeats);
      |keys| == 3 * repeats && NoDuplicates(keys) && (forall k :: k in keys <==> IsArm(k, task, repeats))
      && forall i :: 0 <= i < |keys| ==>
        keys[i].arm.variant == (if i < repeats then "R0" else if i < 2 * repeats then "R1" else "R2")
        && keys[i].repeatId == 1 + (if i < repeats then i else if i < 2 * repeats then i - repeats else i - 2 * repeats)
  {
    var keys := Arms(task, repeats);
    forall k | IsArm(k, task, repeats) ensures k in keys {
      var i := k.repeatId - 1;
      assert keys[i] == Key(Arm(task, "ranker_component", "R0"), i + 1);
      assert keys[repeats + i] == Key(Arm(task, "ranker_component", "R1"), i + 1);
      assert keys[2 * repeats + i] == Key(Arm(task, "ranker_component", "R2"), i + 1);
    }
  }

  /** The task was never worked on: no arm has a record and neither file is there. */
  predicate Untouched(s: Store, task: string, repeats: nat) {
    (forall k :: k in s.raw ==> !IsArm(k, task, repeats)) && task !in s.pools && task !in s.setups
  }

  /** A task gets a pool exactly if its two files are there, agree and pass the checks, or it is untouched and a launch
      answers an accepted pool that both files take; only then is anything written, and a launch can fail halfway. */
  lemma PoolExactly(s: Store, repeats: nat, c: TaskCall, hash: string)
    ensures var (s1, p) := PoolFor(s, repeats, c);
      var untouched, t := Untouched(s, c.task, repeats), c.task;
      var accepted := untouched && c.reply.Answers? && c.reply.accepted && c.reply.poolWritten;
      && (p == Pool(hash) <==>
            (t in s.pools && t in s.setups && s.pools[t] == s.setups[t] == hash && c.pairChecks)
            || (accepted && c.reply.setupWritten && c.reply.pool == hash))
      && (p.Escaped? <==> untouched && c.reply.LaunchEscapes?)
      && s1.pools == (if accepted then s.pools[t := c.reply.pool] else s.pools)
      && s1.setups == (if accepted && c.reply.setupWritten then s.setups[t := c.reply.pool] else s.setups)
      && s1.raw == s.raw && s1.audits == s.audits
  {
    AttemptedMeans(s.raw, c.task, repeats);
  }

  lemma AttemptedMeans(raw: map<Key, Run>, task: string, repeats: nat)
    ensures Attempted(raw, task, repeats) <==> exists k :: k in raw && IsArm(k, task, repeats)
  {
    ArmsListed(task, repeats);
  }

  // ----- With a pool -----

  /** The record of a first attempt. */
  function Recorded(key: Key, hash: string, reply: ArmReply): Run
    requires reply.Records?
  {
    Run(key, reply.completed, reply.manifestPath, reply.usage, reply.pricing, Some(hash), reply.error)
  }

  /** The first m arms ran: those without a record got one with the pool's hash, nothing else changed. */
  predicate Ran(before: map<Key, Run>, after: map<Key, Run>, keys: seq<Key>, m: nat, hash: string, arms: Key -> ArmInput) {
    && m <= |keys|
    && (forall i :: 0 <= i < m ==> !ArmRaises(before, keys[i], arms(keys[i])))
    && (m < |keys| ==> ArmRaises(before, keys[m], arms(keys[m])))
    && Kept(before, after) && (forall k :: k in after ==> k in before || k in keys[..m])
    && forall i :: 0 <= i < m ==>
      keys[i] in after && (keys[i] !in before ==> after[keys[i]] == Recorded(keys[i], hash, arms(keys[i]).reply))
  }

  predicate Returns(after: map<Key, Run>, keys: seq<Key>, m: nat, runs: seq<Run>) {
    |runs| == m <= |keys| && forall i :: 0 <= i < m ==> keys[i] in after && runs[i] == after[keys[i]]
  }

  lemma RanFirst(before: map<Key, Run>, middle: map<Key, Run>, after: map<Key, Run>, keys: seq<Key>, m: nat, hash: string,
                 arms: Key -> ArmInput)
    requires NoDuplicates(keys) && keys != [] && (forall k :: k in before ==> before[k].key == k)
    requires RunArm(before, keys[0], hash, arms(keys[0])).1.Returned? && middle == RunArm(before, keys[0], hash, arms(keys[0])).0
    requires Ran(middle, after, keys[1..], m, hash, arms)
    ensures Ran(before, after, keys, m + 1, hash, arms)
  {
    assert forall i :: 0 <= i < |keys| - 1 ==> keys[1..][i] == keys[i + 1] && keys[i + 1] != keys[0];
    forall i | 0 <= i < m + 1 ensures !ArmRaises(before, keys[i], arms(keys[i])) && keys[i] in after
        && (keys[i] !in before ==> after[keys[i]] == Recorded(keys[i], hash, arms(keys[i]).reply)) {
      if i > 0 { assert keys[1..][i - 1] == keys[i]; }
    }
    forall k | k in after ensures k in before || k in keys[..m + 1] {
      if k in keys[1..][..m] {
        var i :| 0 <= i < m && keys[1..][..m][i] == k;
        assert keys[..m + 1][i + 1] == k;
      }
      assert keys[..m + 1][0] == keys[0];
    }
  }

  lemma ReturnsFirst(after: map<Key, Run>, keys: seq<Key>, m: nat, run: Run, rest: seq<Run>)
    requires keys != [] && keys[0] in after && run == after[keys[0]] && Returns(after, keys[1..], m, rest)
    ensures Returns(after, keys, m + 1, [run] + rest)
  {
    assert forall i :: 0 <= i < |keys| - 1 ==> keys[1..][i] == keys[i + 1];
  }

  lemma ArmReturned(raw: map<Key, Run>, key: Key, hash: string, input: ArmInput)
    ensures var (raw1, outcome) := RunArm(raw, key, hash, input);
      && (outcome.Raised? ==> raw1 == raw)
      && (outcome.Returned? ==> key in raw1 && outcome.run == raw1[key])
      && ((forall k :: k in raw ==> raw[k].key == k) ==>
            (outcome.Raised? <==> ArmRaises(raw, key, input)) && forall k :: k in raw1 ==> raw1[k].key == k)
  {
  }

  /** The arms run in order up to the first that raises. */
  lemma {:induction false} ArmsRun(s: Store, keys: seq<Key>, hash: string, arms: Key -> ArmInput) returns (m: nat)
    requires NoDuplicates(keys) && forall k :: k in s.raw ==> s.raw[k].key == k
    ensures var r := RunArms(s, keys, hash, arms);
      Ran(s.raw, r.store.raw, keys, m, hash, arms) && Returns(r.store.raw, keys, m, r.runs) && (r.raised <==> m < |keys|)
      && r.store == s.(raw := r.store.raw)
    decreases |keys|
  {
    m := 0;
    if keys == [] { return; }
    var (raw1, outcome) := RunArm(s.raw, keys[0], hash, arms(keys[0]));
    ArmReturned(s.raw, keys[0], hash, arms(keys[0]));
    if outcome.Returned? {
      var s1 := s.(raw := raw1);
      var rest := ArmsRun(s1, keys[1..], hash, arms);
      var r := RunArms(s1, keys[1..], hash, arms);
      m := rest + 1;
      RanFirst(s.raw, raw1, r.store.raw, keys, rest, hash, arms);
      ReturnsFirst(r.store.raw, keys, rest, outcome.run, r.runs);
    }
  }

  // ----- Without a pool -----

  /** Every arm without a record got the failure, no other record changed. */
  ghost predicate RecordsFailed(before: map<Key, Run>, after: map<Key, Run>, keys: seq<Key>) {
    && Kept(before, after) && (forall k :: k in after <==> k in before || k in keys)
    && forall k :: k in keys && k !in before ==> after[k] == PoolFailure(k)
  }

  /** Every arm with a completed record got the failure as an audit, no other audit changed. */
  ghost predicate Audited(raw: map<Key, Run>, before: map<Key, Run>, after: map<Key, Run>, keys: seq<Key>) {
    && Kept(before, after) && (forall k :: k in after <==> k in before || (k in keys && Done(raw, k)))
    && forall k :: k in after && k !in before ==> after[k] == PoolFailure(k)
  }

  ghost predicate AllFailed(before: Store, after: Store, keys: seq<Key>) {
    RecordsFailed(before.raw, after.raw, keys) && Audited(before.raw, before.audits, after.audits, keys) && SameFiles(before, after)
  }

  lemma {:induction false} ArmsFail(s: Store, keys: seq<Key>)
    requires Sound(s) && NoDuplicates(keys)
    ensures AllFailed(s, FailArms(s, keys).store, keys)
    decreases |keys|
  {
    if keys != [] {
      var s1 := FailArm(s, keys[0]).0;
      FailureAudited(s, keys[0]);
      ArmsFail(s1, keys[1..]);
      assert forall k :: k in keys <==> k == keys[0] || k in keys[1..];
      assert keys[0] !in keys[1..];
      FailOne(s, keys[0]);
      FailedFirst(s, s1, FailArms(s, keys).store, keys);
    }
  }

  lemma FailOne(s: Store, key: Key)
    requires Sound(s)
    ensures AllFailed(s, FailArm(s, key).0, [key])
  {
    var t := FailArm(s, key).0;
    if key !in s.raw {
      assert t == s.(raw := s.raw[key := PoolFailure(key)]);
    } else if s.raw[key].completed {
      assert t == s.(audits := s.audits[key := PoolFailure(key)]);
    } else {
      assert t == s;
    }
  }

  lemma FailedFirst(before: Store, middle: Store, after: Store, keys: seq<Key>)
    requires keys != [] && keys[0] !in keys[1..] && forall k :: k in keys <==> k == keys[0] || k in keys[1..]
    requires AllFailed(before, middle, [keys[0]]) && AllFailed(middle, after, keys[1..])
    ensures AllFailed(before, after, keys)
  {
    RecordsFirst(before.raw, middle.raw, after.raw, keys);
    forall k | k in keys[1..] ensures Done(before.raw, k) <==> Done(middle.raw, k) {
      assert k != keys[0];
    }
    AuditsFirst(before.raw, middle.raw, before.audits, middle.audits, after.audits, keys);
  }

  lemma RecordsFirst(before: map<Key, Run>, middle: map<Key, Run>, after: map<Key, Run>, keys: seq<Key>)
    requires keys != [] && keys[0] !in keys[1..] && forall k :: k in keys <==> k == keys[0] || k in keys[1..]
    requires RecordsFailed(before, middle, [keys[0]]) && RecordsFailed(middle, after, keys[1..])
    ensures RecordsFailed(before, after, keys)
  {
  }

  lemma AuditsFirst(raw: map<Key, Run>, raw': map<Key, Run>, before: map<Key, Run>, middle: map<Key, Run>,
                    after: map<Key, Run>, keys: seq<Key>)
    requires keys != [] && (forall k :: k in keys <==> k == keys[0] || k in keys[1..])
    requires forall k :: k in keys[1..] ==> (Done(raw, k) <==> Done(raw', k))
    requires Audited(raw, before, middle, [keys[0]]) && Audited(raw', middle, after, keys[1..])
    ensures Audited(raw, before, after, keys)
  {
  }

  // ----- The step -----

  /** In any reachable store: without a pool every arm fails and nothing raises; with one the arms run in order up to the
      first that raises, and the runs returned are their records; an escaped launch leaves the records alone. */
  lemma StepExactly(repeats: nat, events: seq<Event>, c: TaskCall) returns (m: nat)
    ensures var s, keys := RunEvents(NEW_STORE, repeats, events), Arms(c.task, repeats);
      var (s1, p) := PoolFor(s, repeats, c);
      var step := TaskStep(s, repeats, c);
      match p
      case NoPool => !step.raised && AllFailed(s1, step.store, keys) && FailuresReported(step.store, keys, step.runs)
      case Pool(hash) =>
        Ran(s.raw, step.store.raw, keys, m, hash, c.arms) && step.store == s1.(raw := step.store.raw)
        && Returns(step.store.raw, keys, m, step.runs) && (step.raised <==> m < |keys|)
      case Escaped => step == Result(s1, [], true) && s1.raw == s.raw && s1.audits == s.audits
  {
    var s, keys := RunEvents(NEW_STORE, repeats, events), Arms(c.task, repeats);
    var (s1, p) := PoolFor(s, repeats, c);
    AlwaysSound(NEW_STORE, repeats, events);
    PoolForSound(s, repeats, c);
    PoolForRecords(s, repeats, c);
    ArmsListed(c.task, repeats);
    m := 0;
    match p {
      case NoPool =>
        ArmsFail(s1, keys);
        FailuresAudited(s1, keys);
      case Pool(hash) => m := ArmsRun(s1, keys, hash, c.arms);
      case Escaped =>
    }
  }

  // ----- The call -----

  lemma CallNext(s: Store, repeats: nat, c: TaskCall, calls: seq<TaskCall>)
    ensures var step, all := TaskStep(s, repeats, c), RankerCall(s, repeats, [c] + calls);
      var rest := RankerCall(step.store, repeats, calls);
      all == if step.raised then Result(step.store, [], true)
             else Result(rest.store, if rest.raised then [] else step.runs + rest.runs, rest.raised)
  {
    assert ([c] + calls)[1..] == calls;
  }

  /** A ranker call over more tasks is the call over the first ones continued by the call over the others, unless a task
      raises; the runs stand in the order of the tasks, and a call that raises returns none. */
  lemma {:induction false} CallsContinue(s: Store, repeats: nat, first: seq<TaskCall>, others: seq<TaskCall>)
    ensures var all, one := RankerCall(s, repeats, first + others), RankerCall(s, repeats, first);
      var rest := RankerCall(one.store, repeats, others);
      && (all.raised <==> one.raised || rest.raised)
      && all.store == (if one.raised then one.store else rest.store)
      && all.runs == if all.raised then [] else one.runs + rest.runs
    decreases |first|
  {
    if first == [] {
      assert first + others == others;
      JoinRuns([], [], RankerCall(s, repeats, others).runs);
    } else {
      var c, tail := first[0], first[1..];
      var step := TaskStep(s, repeats, c);
      assert first == [c] + tail && first + others == [c] + (tail + others);
      CallNext(s, repeats, c, tail);
      CallNext(s, repeats, c, tail + others);
      if !step.raised {
        CallsContinue(step.store, repeats, tail, others);
        var one := RankerCall(step.store, repeats, tail);
        JoinRuns(step.runs, one.runs, RankerCall(one.store, repeats, others).runs);
      }
    }
  }

  lemma JoinRuns(a: seq<Run>, b: seq<Run>, c: seq<Run>)
    ensures (a + b) + c == a + (b + c) && [] + c == c
  {
  }

  /** A ranker call over one task is the step of that task. */
  lemma OneTaskCall(s: Store, repeats: nat, c: TaskCall)
    ensures var call, step := RankerCall(s, repeats, [c]), TaskStep(s, repeats, c);
      call.store == step.store && call.raised == step.raised && call.runs == if step.raised then [] else step.runs
  {
    assert RankerCall(TaskStep(s, repeats, c).store, repeats, [c][1..]).runs == [];
  }
}
