/** Ranker runs over a shared candidate pool: the pool is set up once per task, its two files may vanish between calls,
    and each arm's record is written once. A hash is represented by the bytes it was taken of. */
module RankerPools {
  import opened Sorting
  import opened Options
  import opened ExperimentStore

  /** `pools` and `setups` hold the pool file and its accounting file of each task; a setup file holds the pool's hash.
      `audits` holds the failures kept outside the raw records, and `launches` counts the setups paid for. */
  datatype Store = Store(
    raw: map<Key, Run>, pools: map<string, string>, setups: map<string, string>,
    audits: map<Key, Run>, launches: map<string, nat>)

  const NEW_STORE: Store := Store(map[], map[], map[], map[], map[])

  /** How setting up a pool goes: the request cannot be staged, the launcher raises, it raises something that is not
      caught, or it answers; an answer is checked and then promoted by writing the pool file and the setup file. */
  datatype PoolReply =
    StageFails | LaunchRaises | LaunchEscapes | Answers(pool: string, accepted: bool, poolWritten: bool, setupWritten: bool)

  /** How running one arm goes when it has no record yet: cut off before recording, or recorded. */
  datatype ArmReply = CutOff | Records(completed: bool, manifestPath: Path, usage: int, pricing: seq<string>, error: ErrorCode)

  /** One arm's surroundings: whether a completed record passes the reuse checks, and how a first attempt goes. */
  datatype ArmInput = ArmInput(reusable: bool, reply: ArmReply)

  /** One task of a ranker call; `pairChecks` is whether an existing pair of files passes the checks beyond the hash. */
  datatype TaskCall = TaskCall(task: string, pairChecks: bool, reply: PoolReply, arms: Key -> ArmInput)

  datatype PoolResult = NoPool | Pool(hash: string) | Escaped

  datatype Result = Result(store: Store, runs: seq<Run>, raised: bool)

  // ----- The arms of a task -----

  function ArmsOf(task: string, variant: string, repeats: nat): (keys: seq<Key>)
    ensures forall i :: 0 <= i < |keys| ==> keys[i].arm.taskId == task
  {
    seq(repeats, i => Key(Arm(task, "ranker_component", variant), i + 1))
  }

  /** Every variant, every replication, in the order they are run. */
  function Arms(task: string, repeats: nat): (keys: seq<Key>)
    ensures forall i :: 0 <= i < |keys| ==> keys[i].arm.taskId == task
  {
    ArmsOf(task, "R0", repeats) + ArmsOf(task, "R1", repeats) + ArmsOf(task, "R2", repeats)
  }

  /** Some arm of the task has a record. */
  predicate Attempted(raw: map<Key, Run>, task: string, repeats: nat) {
    exists k :: k in Arms(task, repeats) && k in raw
  }

  // ----- The pieces -----

  function SetupsPaid(s: Store, task: string): nat {
    if task in s.launches then s.launches[task] else 0
  }

  function Paid(s: Store, task: string): Store {
    s.(launches := s.launches[task := SetupsPaid(s, task) + 1])
  }

  /** Reuse the pair of files, or launch when there is neither. */
  function CandidatePool(s: Store, c: TaskCall): (Store, PoolResult) {
    if c.task in s.pools || c.task in s.setups then
      (s, if c.task in s.pools && c.task in s.setups && s.setups[c.task] == s.pools[c.task] && c.pairChecks
          then Pool(s.pools[c.task]) else NoPool)
    else match c.reply
      case StageFails => (s, NoPool)
      case LaunchRaises => (Paid(s, c.task), NoPool)
      case LaunchEscapes => (Paid(s, c.task), Escaped)
      case Answers(pool, accepted, poolWritten, setupWritten) =>
        if !accepted || !poolWritten then (Paid(s, c.task), NoPool)
        else if !setupWritten then (Paid(s, c.task).(pools := s.pools[c.task := pool]), NoPool)
        else (Paid(s, c.task).(pools := s.pools[c.task := pool], setups := s.setups[c.task := pool]), Pool(pool))
  }

  /** Once an arm was attempted, missing files do not permit another launch. */
  function PoolFor(s: Store, repeats: nat, c: TaskCall): (Store, PoolResult) {
    if Attempted(s.raw, c.task, repeats) && c.task !in s.pools && c.task !in s.setups then (s, NoPool) else CandidatePool(s, c)
  }

  function PoolFailure(key: Key): Run {
    FailureRun(key, None, CandidatePoolInvalid)
  }

  /** One arm without a pool: a first failure is recorded, an earlier failure stands, and beside a completed record the
      failure is kept as an audit. */
  function FailArm(s: Store, key: Key): (Store, Outcome) {
    if key !in s.raw then (s.(raw := s.raw[key := PoolFailure(key)]), Returned(PoolFailure(key)))
    else if s.raw[key].key != key then (s, Raised)
    else if !s.raw[key].completed then (s, Returned(s.raw[key]))
    else if !Writable(s.audits, key, PoolFailure(key)) then (s, Raised)
    else (s.(audits := s.audits[key := PoolFailure(key)]), Returned(PoolFailure(key)))
  }

  function FailArms(s: Store, keys: seq<Key>): Result
    decreases |keys|
  {
    if |keys| == 0 then Result(s, [], false)
    else
      var (s1, outcome) := FailArm(s, keys[0]);
      if outcome.Raised? then Result(s1, [], true)
      else
        var rest := FailArms(s1, keys[1..]);
        Result(rest.store, [outcome.run] + rest.runs, rest.raised)
  }

  /** One arm with a pool, without a resume: a completed record is returned if it may be reused, a failed one raises, and
      a first attempt is recorded with the pool's hash unless it is cut off. */
  function RunArm(raw: map<Key, Run>, key: Key, hash: string, input: ArmInput): (map<Key, Run>, Outcome) {
    if key in raw then
      (raw, if raw[key].key == key && raw[key].completed && input.reusable then Returned(raw[key]) else Raised)
    else match input.reply
      case CutOff => (raw, Raised)
      case Records(completed, manifestPath, usage, pricing, error) =>
        var run := Run(key, completed, manifestPath, usage, pricing, Some(hash), error);
        (raw[key := run], Returned(run))
  }

  function RunArms(s: Store, keys: seq<Key>, hash: string, arms: Key -> ArmInput): Result
    decreases |keys|
  {
    if |keys| == 0 then Result(s, [], false)
    else
      var (raw1, outcome) := RunArm(s.raw, keys[0], hash, arms(keys[0]));
      var s1 := s.(raw := raw1);
      if outcome.Raised? then Result(s1, [], true)
      else
        var rest := RunArms(s1, keys[1..], hash, arms);
        Result(rest.store, [outcome.run] + rest.runs, rest.raised)
  }

  /** One task of a ranker call. */
  function TaskStep(s: Store, repeats: nat, c: TaskCall): Result {
    var (s1, result) := PoolFor(s, repeats, c);
    match result
    case NoPool => FailArms(s1, Arms(c.task, repeats))
    case Pool(hash) => RunArms(s1, Arms(c.task, repeats), hash, c.arms)
    case Escaped => Result(s1, [], true)
  }

  // ----- Runs -----

  /** A step of a run: one task of some ranker call, or the loss of a task's pool file, setup file or both. */
  datatype Event = Task(call: TaskCall) | Vanish(task: string, pool: bool, setup: bool)

  function Step(s: Store, repeats: nat, e: Event): Store {
    match e
    case Task(c) => TaskStep(s, repeats, c).store
    case Vanish(task, pool, setup) =>
      s.(pools := if pool then s.pools - {task} else s.pools, setups := if setup then s.setups - {task} else s.setups)
  }

  function RunEvents(s: Store, repeats: nat, events: seq<Event>): Store
    decreases |events|
  {
    if |events| == 0 then s else RunEvents(Step(s, repeats, events[0]), repeats, events[1..])
  }

  /** The guard of the launching branch: the step works on the task, finds it without a record and without either file,
      and its request can be staged. */
  predicate Pays(s: Store, repeats: nat, e: Event, task: string) {
    e.Task? && e.call.task == task && !e.call.reply.StageFails?
    && !Attempted(s.raw, task, repeats) && task !in s.pools && task !in s.setups
  }

  /** How many steps of the run meet the guard. */
  function Payments(s: Store, repeats: nat, events: seq<Event>, task: string): nat
    decreases |events|
  {
    if |events| == 0 then 0
    else (if Pays(s, repeats, events[0], task) then 1 else 0) + Payments(Step(s, repeats, events[0]), repeats, events[1..], task)
  }

  // ----- What single steps keep -----

  /** Every entry is still there, unchanged. */
  predicate Kept<K, V(==)>(before: map<K, V>, after: map<K, V>) {
    forall k :: k in before ==> k in after && after[k] == before[k]
  }

  /** The records added are of the task, under their own keys, and completed ones carry the hash. */
  predicate Added(before: map<Key, Run>, after: map<Key, Run>, task: string, hash: string) {
    forall k :: k in after && k !in before ==>
      k.arm.taskId == task && after[k].key == k && (after[k].completed ==> after[k].pool == Some(hash))
  }

  predicate SameFiles(s: Store, t: Store) {
    s.pools == t.pools && s.setups == t.setups && s.launches == t.launches
  }

  predicate OfTask(keys: seq<Key>, task: string) {
    forall i :: 0 <= i < |keys| ==> keys[i].arm.taskId == task
  }

  predicate NoneCompleted(before: map<Key, Run>, after: map<Key, Run>) {
    forall k :: k in after && k !in before ==> !after[k].completed
  }

  /** The records grew by failures of the task's arms only. */
  predicate Failed(before: map<Key, Run>, after: map<Key, Run>, task: string) {
    Kept(before, after) && forall k :: k in after && k !in before ==> k.arm.taskId == task && after[k].key == k && !after[k].completed
  }

  lemma FailArmFrame(s: Store, key: Key)
    ensures var t := FailArm(s, key).0; SameFiles(s, t) && Failed(s.raw, t.raw, key.arm.taskId) && key in t.raw
  {
  }

  lemma {:induction false} FailArmsFrame(s: Store, keys: seq<Key>, task: string, hash: string)
    requires OfTask(keys, task)
    ensures var t := FailArms(s, keys).store;
      SameFiles(s, t) && Failed(s.raw, t.raw, task) && NoneCompleted(s.raw, t.raw) && Added(s.raw, t.raw, task, hash)
    ensures |keys| > 0 ==> keys[0] in FailArms(s, keys).store.raw
    decreases |keys|
  {
    if |keys| > 0 {
      var (s1, outcome) := FailArm(s, keys[0]);
      FailArmFrame(s, keys[0]);
      FailArmsFrame(s1, keys[1..], task, hash);
      var t := FailArms(s, keys).store;
      assert t == s1 || t == FailArms(s1, keys[1..]).store;
      assert Failed(s.raw, t.raw, task);
    }
  }

  lemma {:induction false} RunArmsFrame(s: Store, keys: seq<Key>, hash: string, arms: Key -> ArmInput, task: string)
    requires OfTask(keys, task)
    ensures var r := RunArms(s, keys, hash, arms);
      SameFiles(s, r.store) && Kept(s.raw, r.store.raw) && Added(s.raw, r.store.raw, task, hash)
    ensures |keys| > 0 && !arms(keys[0]).reply.CutOff? ==> keys[0] in RunArms(s, keys, hash, arms).store.raw
    decreases |keys|
  {
    if |keys| > 0 {
      var (raw1, outcome) := RunArm(s.raw, keys[0], hash, arms(keys[0]));
      RunArmsFrame(s.(raw := raw1), keys[1..], hash, arms, task);
    }
  }

  /** What setting up the pool leaves alone, and when it pays. */
  lemma PoolForFrame(s: Store, repeats: nat, c: TaskCall, task: string)
    ensures var (s1, p) := PoolFor(s, repeats, c);
      && s1.raw == s.raw
      && (task != c.task ==>
            SetupsPaid(s1, task) == SetupsPaid(s, task) && (task in s1.pools <==> task in s.pools)
            && (task in s1.setups <==> task in s.setups)
            && (task in s1.pools ==> s1.pools[task] == s.pools[task]))
      && (Attempted(s.raw, task, repeats) && task == c.task ==> SameFiles(s, s1))
      && SetupsPaid(s1, task) <= SetupsPaid(s, task) + 1
      && (p.Pool? ==> c.task in s1.pools && s1.pools[c.task] == p.hash)
  {
  }

  /** The hash that a step's new completed records carry. */
  function HashOf(s: Store, repeats: nat, c: TaskCall): string {
    var p := PoolFor(s, repeats, c).1;
    if p.Pool? then p.hash else ""
  }

  lemma TaskStepFrame(s: Store, repeats: nat, c: TaskCall)
    ensures var s1, t := PoolFor(s, repeats, c).0, TaskStep(s, repeats, c).store;
      SameFiles(s1, t) && Kept(s.raw, t.raw) && Added(s.raw, t.raw, c.task, HashOf(s, repeats, c))
      && (PoolFor(s, repeats, c).1.Pool? || NoneCompleted(s.raw, t.raw))
  {
    var (s1, p) := PoolFor(s, repeats, c);
    PoolForFrame(s, repeats, c, c.task);
    match p {
      case NoPool => FailArmsFrame(s1, Arms(c.task, repeats), c.task, HashOf(s, repeats, c));
      case Pool(hash) => RunArmsFrame(s1, Arms(c.task, repeats), hash, c.arms, c.task);
      case Escaped =>
    }
  }

  // ----- Over whole runs -----

  lemma {:induction false} RecordsGrow(s: Store, repeats: nat, events: seq<Event>)
    ensures Kept(s.raw, RunEvents(s, repeats, events).raw)
    decreases |events|
  {
    if |events| > 0 {
      if events[0].Task? { TaskStepFrame(s, repeats, events[0].call); }
      RecordsGrow(Step(s, repeats, events[0]), repeats, events[1..]);
    }
  }

  lemma PoolPays(s: Store, repeats: nat, c: TaskCall, task: string)
    ensures SetupsPaid(PoolFor(s, repeats, c).0, task) == SetupsPaid(s, task) + if Pays(s, repeats, Task(c), task) then 1 else 0
  {
  }

  lemma StepPays(s: Store, repeats: nat, e: Event, task: string)
    ensures SetupsPaid(Step(s, repeats, e), task) == SetupsPaid(s, task) + if Pays(s, repeats, e, task) then 1 else 0
  {
    if e.Task? {
      TaskStepFrame(s, repeats, e.call);
      PoolPays(s, repeats, e.call, task);
      var s1, t := PoolFor(s, repeats, e.call).0, Step(s, repeats, e);
      assert s1.launches == t.launches;
    }
  }

  /** In any run, cut off or not, a task's setup launches exactly as often as a step meets the guard. */
  lemma {:induction false} LaunchesExactly(s: Store, repeats: nat, events: seq<Event>, task: string)
    ensures SetupsPaid(RunEvents(s, repeats, events), task) == SetupsPaid(s, task) + Payments(s, repeats, events, task)
    decreases |events|
  {
    if |events| > 0 {
      StepPays(s, repeats, events[0], task);
      LaunchesExactly(Step(s, repeats, events[0]), repeats, events[1..], task);
    }
  }

  /** A task's pool is paid for at most once exactly when at most one step meets the guard. */
  lemma PaidOnceExactlyWhen(repeats: nat, events: seq<Event>, task: string)
    ensures SetupsPaid(RunEvents(NEW_STORE, repeats, events), task) <= 1 <==> Payments(NEW_STORE, repeats, events, task) <= 1
  {
    LaunchesExactly(NEW_STORE, repeats, events, task);
  }

  /** The step returns or raises through the program's own paths only. */
  ghost predicate Modelled(e: Event) {
    e.Task? ==> !e.call.reply.LaunchEscapes? && forall k :: !e.call.arms(k).reply.CutOff?
  }

  lemma ModelledAttempts(s: Store, repeats: nat, c: TaskCall)
    requires Modelled(Task(c)) && repeats >= 1
    ensures Attempted(TaskStep(s, repeats, c).store.raw, c.task, repeats)
  {
    var (s1, p) := PoolFor(s, repeats, c);
    var keys := Arms(c.task, repeats);
    match p {
      case NoPool => FailArmsFrame(s1, keys, c.task, "");
      case Pool(hash) => RunArmsFrame(s1, keys, hash, c.arms, c.task);
      case Escaped =>
    }
    assert keys[0] in TaskStep(s, repeats, c).store.raw && keys[0] in keys;
  }

  /** An attempted task is never paid for again. */
  lemma {:induction false} AttemptedPaysNothing(s: Store, repeats: nat, events: seq<Event>, task: string)
    requires Attempted(s.raw, task, repeats)
    ensures Payments(s, repeats, events, task) == 0
    decreases |events|
  {
    if |events| > 0 {
      var t := Step(s, repeats, events[0]);
      if events[0].Task? { TaskStepFrame(s, repeats, events[0].call); }
      AttemptedPaysNothing(t, repeats, events[1..], task);
    }
  }

  lemma {:induction false} ModelledPaysOnce(s: Store, repeats: nat, events: seq<Event>, task: string)
    requires repeats >= 1 && forall i :: 0 <= i < |events| ==> Modelled(events[i])
    ensures Payments(s, repeats, events, task) <= 1
    decreases |events|
  {
    if |events| > 0 {
      var t := Step(s, repeats, events[0]);
      if Pays(s, repeats, events[0], task) {
        ModelledAttempts(s, repeats, events[0].call);
        AttemptedPaysNothing(t, repeats, events[1..], task);
      } else {
        ModelledPaysOnce(t, repeats, events[1..], task);
      }
    }
  }

  /** Whatever files vanish in between, the ranker calls of a run pay at most once for a task's pool. */
  lemma SetupPaidOnce(repeats: nat, events: seq<Event>, task: string)
    requires repeats >= 1 && forall i :: 0 <= i < |events| ==> Modelled(events[i])
    ensures SetupsPaid(RunEvents(NEW_STORE, repeats, events), task) <= 1
  {
    LaunchesExactly(NEW_STORE, repeats, events, task);
    ModelledPaysOnce(NEW_STORE, repeats, events, task);
  }

  /** The program's own paths are needed: a call cut off before its first record lets a later call pay again. */
  lemma CutOffCallPaysAgain(task: string, pool: string)
    ensures exists events :: SetupsPaid(RunEvents(NEW_STORE, 1, events), task) == 2
  {
    var c := TaskCall(task, true, Answers(pool, true, true, true), k => ArmInput(true, CutOff));
    var keys := Arms(task, 1);
    var once := Paid(NEW_STORE, task).(pools := map[task := pool], setups := map[task := pool]);
    var lost := Paid(NEW_STORE, task);
    var twice := Paid(lost, task).(pools := map[task := pool], setups := map[task := pool]);
    assert Step(NEW_STORE, 1, Task(c)) == once;
    assert Step(once, 1, Vanish(task, true, true)) == lost by {
      assert once.pools - {task} == map[] && once.setups - {task} == map[];
    }
    assert Step(lost, 1, Task(c)) == twice;
    var events := [Task(c), Vanish(task, true, true), Task(c)];
    assert events[1..] == [Vanish(task, true, true), Task(c)] && events[1..][1..] == [Task(c)] && events[1..][1..][1..] == [];
    assert RunEvents(lost, 1, [Task(c)]) == twice;
    assert RunEvents(once, 1, events[1..]) == twice;
    assert RunEvents(NEW_STORE, 1, events) == twice;
  }

  predicate Done(raw: map<Key, Run>, k: Key) {
    k in raw && raw[k].completed
  }

  /** All completed arms of the task carry one hash, which is that of the pool file while there is one. */
  predicate OneHash(s: Store, repeats: nat, task: string) {
    && (forall j, k :: j in Arms(task, repeats) && k in Arms(task, repeats) && Done(s.raw, j) && Done(s.raw, k) ==>
          s.raw[j].pool == s.raw[k].pool)
    && (task in s.pools ==> forall k :: k in Arms(task, repeats) && Done(s.raw, k) ==> s.raw[k].pool == Some(s.pools[task]))
  }

  lemma StepOneHash(s: Store, repeats: nat, e: Event, task: string)
    requires OneHash(s, repeats, task)
    ensures OneHash(Step(s, repeats, e), repeats, task)
  {
    if e.Task? {
      var t := TaskStep(s, repeats, e.call).store;
      TaskStepFrame(s, repeats, e.call);
      PoolForFrame(s, repeats, e.call, task);
      if e.call.task != task {
      } else {
        SameTaskHash(s, repeats, e.call, t);
      }
    }
  }

  lemma SameTaskHash(s: Store, repeats: nat, c: TaskCall, t: Store)
    requires OneHash(s, repeats, c.task) && t == TaskStep(s, repeats, c).store
    ensures OneHash(t, repeats, c.task)
  {
    TaskStepFrame(s, repeats, c);
    PoolForFrame(s, repeats, c, c.task);
    var (s1, p) := PoolFor(s, repeats, c);
    forall k | k in Arms(c.task, repeats) && Done(s.raw, k) && c.task in s1.pools
      ensures s.raw[k].pool == Some(s1.pools[c.task])
    {
      assert Attempted(s.raw, c.task, repeats);
    }
    if p.Pool? {
      forall k | k in Arms(c.task, repeats) && Done(t.raw, k) ensures t.raw[k].pool == Some(p.hash) {
      }
    }
  }

  lemma {:induction false} RunOneHash(s: Store, repeats: nat, events: seq<Event>, task: string)
    requires OneHash(s, repeats, task)
    ensures OneHash(RunEvents(s, repeats, events), repeats, task)
    decreases |events|
  {
    if |events| > 0 {
      StepOneHash(s, repeats, events[0], task);
      RunOneHash(Step(s, repeats, events[0]), repeats, events[1..], task);
    }
  }

  /** In every run, cut off or not, all completed ranker records of a task carry the same pool hash. */
  lemma CompletedShareOnePool(repeats: nat, events: seq<Event>, task: string, j: Key, k: Key)
    requires j in Arms(task, repeats) && k in Arms(task, repeats)
    requires var s := RunEvents(NEW_STORE, repeats, events); Done(s.raw, j) && Done(s.raw, k)
    ensures var s := RunEvents(NEW_STORE, repeats, events); s.raw[j].pool == s.raw[k].pool
  {
    assert OneHash(NEW_STORE, repeats, task);
    RunOneHash(NEW_STORE, repeats, events, task);
  }

  /** An attempted task that lost a pool file. */
  predicate Lost(s: Store, repeats: nat, task: string) {
    Attempted(s.raw, task, repeats) && !(task in s.pools && task in s.setups)
  }

  predicate SameCompleted(before: map<Key, Run>, after: map<Key, Run>, keys: seq<Key>) {
    forall k :: k in keys && Done(after, k) ==> k in before && after[k] == before[k]
  }

  lemma StepLost(s: Store, repeats: nat, e: Event, task: string)
    requires Lost(s, repeats, task)
    ensures Lost(Step(s, repeats, e), repeats, task) && SameCompleted(s.raw, Step(s, repeats, e).raw, Arms(task, repeats))
  {
    if e.Task? {
      var t := TaskStep(s, repeats, e.call).store;
      TaskStepFrame(s, repeats, e.call);
      PoolForFrame(s, repeats, e.call, task);
      if e.call.task != task {
      }
    }
  }

  /** A lost pool is never replaced and none of the task's arms is ever completed again. */
  lemma {:induction false} LostPoolNeverCompletes(s: Store, repeats: nat, events: seq<Event>, task: string)
    requires Lost(s, repeats, task)
    ensures var t := RunEvents(s, repeats, events);
      Lost(t, repeats, task) && SameCompleted(s.raw, t.raw, Arms(task, repeats)) && SetupsPaid(t, task) == SetupsPaid(s, task)
    decreases |events|
  {
    if |events| > 0 {
      var s1 := Step(s, repeats, events[0]);
      StepLost(s, repeats, events[0], task);
      if events[0].Task? {
        TaskStepFrame(s, repeats, events[0].call);
        PoolForFrame(s, repeats, events[0].call, task);
      }
      RecordsGrow(s1, repeats, events[1..]);
      LostPoolNeverCompletes(s1, repeats, events[1..], task);
    }
  }

  // ----- What a call returns -----

  predicate Sound(s: Store) {
    (forall k :: k in s.raw ==> s.raw[k].key == k) && forall k :: k in s.audits ==> s.audits[k] == PoolFailure(k)
  }

  lemma {:induction false} SoundRuns(s: Store, keys: seq<Key>, hash: string, arms: Key -> ArmInput)
    requires Sound(s)
    ensures Sound(RunArms(s, keys, hash, arms).store)
    decreases |keys|
  {
    if |keys| > 0 { SoundRuns(s.(raw := RunArm(s.raw, keys[0], hash, arms(keys[0])).0), keys[1..], hash, arms); }
  }

  lemma {:induction false} SoundFailures(s: Store, keys: seq<Key>)
    requires Sound(s)
    ensures Sound(FailArms(s, keys).store)
    decreases |keys|
  {
    if |keys| > 0 {
      FailureAudited(s, keys[0]);
      SoundFailures(FailArm(s, keys[0]).0, keys[1..]);
    }
  }

  lemma SoundStep(s: Store, repeats: nat, e: Event)
    requires Sound(s)
    ensures Sound(Step(s, repeats, e))
  {
    if e.Task? {
      var (s1, p) := PoolFor(s, repeats, e.call);
      PoolForSound(s, repeats, e.call);
      if p.Pool? { SoundRuns(s1, Arms(e.call.task, repeats), p.hash, e.call.arms); }
      SoundFailures(s1, Arms(e.call.task, repeats));
    }
  }

  lemma {:induction false} AlwaysSound(s: Store, repeats: nat, events: seq<Event>)
    requires Sound(s)
    ensures Sound(RunEvents(s, repeats, events))
    decreases |events|
  {
    if |events| > 0 {
      SoundStep(s, repeats, events[0]);
      AlwaysSound(Step(s, repeats, events[0]), repeats, events[1..]);
    }
  }

  /** What an arm reports when there is no pool: a failure, which stands in the audits if the record is completed. */
  predicate FailureReported(t: Store, key: Key, run: Run) {
    && run.key == key && !run.completed && key in t.raw
    && (if t.raw[key].completed then key in t.audits && t.audits[key] == run && run == PoolFailure(key) else run == t.raw[key])
  }

  predicate FailuresReported(t: Store, keys: seq<Key>, runs: seq<Run>) {
    |runs| == |keys| && forall i :: 0 <= i < |keys| ==> FailureReported(t, keys[i], runs[i])
  }

  lemma FailureAudited(s: Store, key: Key)
    requires Sound(s)
    ensures var (t, outcome) := FailArm(s, key); Sound(t) && outcome.Returned? && FailureReported(t, key, outcome.run)
  {
  }

  lemma {:induction false} ReportStands(s: Store, keys: seq<Key>, key: Key, run: Run)
    requires Sound(s) && FailureReported(s, key, run)
    ensures FailureReported(FailArms(s, keys).store, key, run)
    decreases |keys|
  {
    if |keys| > 0 {
      FailureAudited(s, keys[0]);
      ReportStands(FailArm(s, keys[0]).0, keys[1..], key, run);
    }
  }

  /** Without a pool nothing raises, and every arm reports a failure; a completed record stays and gets an audit. */
  lemma {:induction false} FailuresAudited(s: Store, keys: seq<Key>)
    requires Sound(s)
    ensures var r := FailArms(s, keys); !r.raised && FailuresReported(r.store, keys, r.runs)
    decreases |keys|
  {
    if |keys| > 0 {
      var (s1, outcome) := FailArm(s, keys[0]);
      FailureAudited(s, keys[0]);
      FailuresAudited(s1, keys[1..]);
      ReportStands(s1, keys[1..], keys[0], outcome.run);
    }
  }

  /** With a pool, a call that does not raise reports the records of all arms, in order. */
  lemma {:induction false} RecordsReported(s: Store, keys: seq<Key>, hash: string, arms: Key -> ArmInput, task: string)
    requires OfTask(keys, task) && !RunArms(s, keys, hash, arms).raised
    ensures var r := RunArms(s, keys, hash, arms);
      |r.runs| == |keys| && forall i :: 0 <= i < |keys| ==> keys[i] in r.store.raw && r.runs[i] == r.store.raw[keys[i]]
    decreases |keys|
  {
    if |keys| > 0 {
      var s1 := s.(raw := RunArm(s.raw, keys[0], hash, arms(keys[0])).0);
      RecordsReported(s1, keys[1..], hash, arms, task);
      RunArmsFrame(s1, keys[1..], hash, arms, task);
    }
  }

  lemma PoolForSound(s: Store, repeats: nat, c: TaskCall)
    requires Sound(s)
    ensures Sound(PoolFor(s, repeats, c).0) && PoolFor(s, repeats, c).0.raw == s.raw
  {
    PoolForRecords(s, repeats, c);
  }

  lemma PoolForRecords(s: Store, repeats: nat, c: TaskCall)
    ensures PoolFor(s, repeats, c).0.raw == s.raw && PoolFor(s, repeats, c).0.audits == s.audits
  {
  }

  /** Without a pool, the step of a task in a reachable store never raises, and every arm reports a failure: a completed
      record stays and gets an audit, any other is the record itself. */
  lemma LostPoolReports(repeats: nat, events: seq<Event>, c: TaskCall)
    requires PoolFor(RunEvents(NEW_STORE, repeats, events), repeats, c).1.NoPool?
    ensures var step := TaskStep(RunEvents(NEW_STORE, repeats, events), repeats, c);
      !step.raised && FailuresReported(step.store, Arms(c.task, repeats), step.runs)
  {
    var s := RunEvents(NEW_STORE, repeats, events);
    AlwaysSound(NEW_STORE, repeats, events);
    PoolForSound(s, repeats, c);
    FailuresAudited(PoolFor(s, repeats, c).0, Arms(c.task, repeats));
  }

  /** With a pool, a step that does not raise reports the records of all arms in order. */
  lemma PoolReports(repeats: nat, events: seq<Event>, c: TaskCall)
    requires PoolFor(RunEvents(NEW_STORE, repeats, events), repeats, c).1.Pool?
    requires !TaskStep(RunEvents(NEW_STORE, repeats, events), repeats, c).raised
    ensures var step, keys := TaskStep(RunEvents(NEW_STORE, repeats, events), repeats, c), Arms(c.task, repeats);
      |step.runs| == |keys| && forall i :: 0 <= i < |keys| ==>
        keys[i] in step.store.raw && step.runs[i] == step.store.raw[keys[i]]
  {
    var (s1, p) := PoolFor(RunEvents(NEW_STORE, repeats, events), repeats, c);
    RecordsReported(s1, Arms(c.task, repeats), p.hash, c.arms, c.task);
  }

  /** An arm that raises when its turn comes: recorded and not reusable, or cut off. */
  predicate ArmRaises(raw: map<Key, Run>, key: Key, input: ArmInput) {
    if key in raw then !(raw[key].completed && input.reusable) else input.reply.CutOff?
  }

  lemma {:induction false} ArmsRaiseWhen(s: Store, keys: seq<Key>, hash: string, arms: Key -> ArmInput)
    requires Sound(s) && NoDuplicates(keys)
    ensures RunArms(s, keys, hash, arms).raised <==> exists k :: k in keys && ArmRaises(s.raw, k, arms(k))
    decreases |keys|
  {
    if |keys| > 0 {
      var (raw1, outcome) := RunArm(s.raw, keys[0], hash, arms(keys[0]));
      assert outcome.Raised? <==> ArmRaises(s.raw, keys[0], arms(keys[0]));
      assert forall k :: k in keys <==> k == keys[0] || k in keys[1..];
      if outcome.Returned? {
        ArmsRaiseWhen(s.(raw := raw1), keys[1..], hash, arms);
        forall k | k in keys[1..] ensures ArmRaises(raw1, k, arms(k)) <==> ArmRaises(s.raw, k, arms(k)) {
          assert k != keys[0];
        }
      }
    }
  }

  /** With a pool, the step of a task raises exactly when one of its arms failed earlier, is not reusable, or is cut off. */
  lemma StepRaisesWhen(repeats: nat, events: seq<Event>, c: TaskCall)
    requires PoolFor(RunEvents(NEW_STORE, repeats, events), repeats, c).1.Pool?
    ensures var s := RunEvents(NEW_STORE, repeats, events);
      TaskStep(s, repeats, c).raised <==> exists k :: k in Arms(c.task, repeats) && ArmRaises(s.raw, k, c.arms(k))
  {
    var s := RunEvents(NEW_STORE, repeats, events);
    AlwaysSound(NEW_STORE, repeats, events);
    var (s1, p) := PoolFor(s, repeats, c);
    assert s1.raw == s.raw && Sound(s1);
    ArmsRaiseWhen(s1, Arms(c.task, repeats), p.hash, c.arms);
  }

  /** An arm of a ranker call does to the records exactly what one unseeded call of the record store does. */
  lemma ArmIsOneCall(g: Group, repeats: nat, c: Call, hash: string) returns (input: ArmInput)
    requires RawNamed(g) && !c.resume && c.pool == Some(hash) && 1 <= c.key.repeatId <= repeats
    ensures RunArm(g.raw, c.key, hash, input) == (RunOne(g, repeats, c).0.raw, RunOne(g, repeats, c).1)
  {
    if c.key in g.raw {
      input := ArmInput(ExistingAccepted(g, repeats, c.key), CutOff);
    } else {
      FirstCallRecords(g, repeats, c);
      var run := RunOne(g, repeats, c).1.run;
      input := ArmInput(true, Records(run.completed, run.manifestPath, run.usage, run.pricing, run.error));
    }
  }

  lemma FirstCallRecords(g: Group, repeats: nat, c: Call)
    requires !c.resume && 1 <= c.key.repeatId <= repeats && c.key !in g.raw
    ensures var (h, outcome) := RunOne(g, repeats, c);
      outcome.Returned? && outcome.run.key == c.key && outcome.run.pool == c.pool && h.raw == g.raw[c.key := outcome.run]
  {
  }

  // ----- The runner over its directory -----

  function TaskEvents(calls: seq<TaskCall>): seq<Event> {
    seq(|calls|, i requires 0 <= i < |calls| => Task(calls[i]))
  }

  /** A ranker call: its tasks in order, ending at the first that raises. */
  function RankerCall(s: Store, repeats: nat, calls: seq<TaskCall>): Result
    decreases |calls|
  {
    if |calls| == 0 then Result(s, [], false)
    else
      var first := TaskStep(s, repeats, calls[0]);
      if first.raised then Result(first.store, [], true)
      else
        var rest := RankerCall(first.store, repeats, calls[1..]);
        Result(rest.store, if rest.raised then [] else first.runs + rest.runs, rest.raised)
  }

  /** So a ranker call is a run of steps: all of its tasks, or those up to the one that raised. */
  lemma {:induction false} RankerCallIsRun(s: Store, repeats: nat, calls: seq<TaskCall>) returns (m: nat)
    ensures m <= |calls| && RankerCall(s, repeats, calls).store == RunEvents(s, repeats, TaskEvents(calls[..m]))
    ensures !RankerCall(s, repeats, calls).raised ==> m == |calls|
    decreases |calls|
  {
    if |calls| == 0 { return 0; }
    var first := TaskStep(s, repeats, calls[0]);
    if first.raised {
      m := 1;
      var one := TaskEvents(calls[..1]);
      assert one[1..] == [] && one[0] == Task(calls[0]);
      assert RunEvents(first.store, repeats, one[1..]) == first.store;
    } else {
      var rest := RankerCallIsRun(first.store, repeats, calls[1..]);
      m := rest + 1;
      assert TaskEvents(calls[..m])[1..] == TaskEvents(calls[1..][..rest]);
    }
  }

  /** The result of a run whose first arms returned `runs`. */
  function Continued(runs: seq<Run>, r: Result): Result {
    Result(r.store, runs + r.runs, r.raised)
  }

  lemma RunNext(s: Store, keys: seq<Key>, i: nat, hash: string, arms: Key -> ArmInput, runs: seq<Run>)
    requires i < |keys|
    ensures var (raw1, outcome) := RunArm(s.raw, keys[i], hash, arms(keys[i]));
      var s1 := s.(raw := raw1);
      Continued(runs, RunArms(s, keys[i..], hash, arms)) ==
        if outcome.Raised? then Result(s1, runs, true) else Continued(runs + [outcome.run], RunArms(s1, keys[i + 1..], hash, arms))
  {
    assert keys[i..][0] == keys[i] && keys[i..][1..] == keys[i + 1..];
    var (raw1, outcome) := RunArm(s.raw, keys[i], hash, arms(keys[i]));
    if outcome.Returned? {
      var rest := RunArms(s.(raw := raw1), keys[i + 1..], hash, arms);
      assert runs + ([outcome.run] + rest.runs) == (runs + [outcome.run]) + rest.runs;
    }
  }

  class RankerRunner {
    var raw: map<Key, Run>
    var pools: map<string, string>
    var setups: map<string, string>
    var audits: map<Key, Run>
    var launches: map<string, nat>

    constructor ()
      ensures Contents() == NEW_STORE
    {
      raw, pools, setups, audits, launches := map[], map[], map[], map[], map[];
    }

    function Contents(): Store
      reads this
    {
      Store(raw, pools, setups, audits, launches)
    }

    /** Reuse or set up the pool. A launch happens only when neither file exists, and only one; a pool is reported only
        if both files hold it; files that exist are not touched, and neither are those of other tasks. */
    method SetUpPool(c: TaskCall) returns (result: PoolResult)
      modifies `pools, `setups, `launches
      ensures (Contents(), result) == CandidatePool(old(Contents()), c)
      ensures var launched := c.task !in old(pools) && c.task !in old(setups) && !c.reply.StageFails?;
        SetupsPaid(Contents(), c.task) == SetupsPaid(old(Contents()), c.task) + if launched then 1 else 0
      ensures result.Pool? ==>
        c.task in pools && c.task in setups && pools[c.task] == setups[c.task] == result.hash
      ensures Kept(old(pools), pools) && Kept(old(setups), setups)
      ensures forall t :: t != c.task ==> SetupsPaid(Contents(), t) == SetupsPaid(old(Contents()), t)
      ensures c.task in setups ==> c.task in pools || c.task in old(setups)
    {
      if c.task in pools || c.task in setups {
        if c.task !in pools || c.task !in setups { return NoPool; }
        if setups[c.task] != pools[c.task] || !c.pairChecks { return NoPool; }
        return Pool(pools[c.task]);
      }
      if c.reply.StageFails? { return NoPool; }
      launches := launches[c.task := SetupsPaid(Contents(), c.task) + 1];
      match c.reply {
        case LaunchEscapes => return Escaped;
        case Answers(pool, accepted, poolWritten, setupWritten) =>
          if !accepted || !poolWritten { return NoPool; }
          pools := pools[c.task := pool];
          if !setupWritten { return NoPool; }
          setups := setups[c.task := pool];
          return Pool(pool);
        case _ => return NoPool;
      }
    }

    /** Report that the pool is missing. No existing record or audit is changed; only a missing record is added, and only
        beside a completed record an audit, and what is returned is never completed. */
    method RecordPoolFailure(key: Key) returns (outcome: Outcome)
      modifies `raw, `audits
      ensures (Contents(), outcome) == FailArm(old(Contents()), key)
      ensures Kept(old(raw), raw) && Kept(old(audits), audits)
      ensures raw.Keys == old(raw).Keys + {key} && (raw[key].completed ==> key in old(raw))
      ensures outcome.Returned? ==>
        !outcome.run.completed && audits.Keys == old(audits).Keys + if raw[key].completed then {key} else {}
    {
      var failed := PoolFailure(key);
      if key in raw {
        var existing := raw[key];
        if existing.key != key { return Raised; }
        if existing.completed {
          if !Writable(audits, key, failed) { return Raised; }
          audits := audits[key := failed];
          return Returned(failed);
        }
        return Returned(existing);
      }
      raw := raw[key := failed];
      return Returned(failed);
    }

    /** One arm, as far as it concerns the records. */
    method RunOneArm(key: Key, hash: string, input: ArmInput) returns (outcome: Outcome)
      modifies `raw
      ensures (raw, outcome) == RunArm(old(raw), key, hash, input)
    {
      if key in raw {
        if raw[key].key != key || !raw[key].completed || !input.reusable { return Raised; }
        return Returned(raw[key]);
      }
      match input.reply {
        case CutOff => return Raised;
        case Records(completed, manifestPath, usage, pricing, error) =>
          var run := Run(key, completed, manifestPath, usage, pricing, Some(hash), error);
          raw := raw[key := run];
          return Returned(run);
      }
    }

    method FailAll(keys: seq<Key>) returns (runs: seq<Run>, raised: bool)
      modifies `raw, `audits
      ensures Result(Contents(), runs, raised) == FailArms(old(Contents()), keys)
    {
      runs, raised := [], false;
      ghost var start := Contents();
      for i := 0 to |keys|
        invariant pools == start.pools && setups == start.setups && launches == start.launches
        invariant FailArms(start, keys) == Continued(runs, FailArms(Contents(), keys[i..]))
      {
        var outcome := RecordPoolFailure(keys[i]);
        if outcome.Raised? { return runs, true; }
        runs := runs + [outcome.run];
      }
    }

    method RunAllArms(keys: seq<Key>, hash: string, arms: Key -> ArmInput) returns (runs: seq<Run>, raised: bool)
      modifies `raw
      ensures Result(Contents(), runs, raised) == RunArms(old(Contents()), keys, hash, arms)
    {
      runs, raised := [], false;
      ghost var start := Contents();
      for i := 0 to |keys|
        invariant SameFiles(start, Contents()) && audits == start.audits
        invariant RunArms(start, keys, hash, arms) == Continued(runs, RunArms(Contents(), keys[i..], hash, arms))
      {
        RunNext(Contents(), keys, i, hash, arms, runs);
        var outcome := RunOneArm(keys[i], hash, arms(keys[i]));
        if outcome.Raised? { return runs, true; }
        runs := runs + [outcome.run];
      }
    }

    method RunTask(repeats: nat, c: TaskCall) returns (runs: seq<Run>, raised: bool)
      modifies this
      ensures Result(Contents(), runs, raised) == TaskStep(old(Contents()), repeats, c)
    {
      var result := NoPool;
      if !(Attempted(raw, c.task, repeats) && c.task !in pools && c.task !in setups) { result := SetUpPool(c); }
      match result {
        case NoPool => runs, raised := FailAll(Arms(c.task, repeats));
        case Pool(hash) => runs, raised := RunAllArms(Arms(c.task, repeats), hash, c.arms);
        case Escaped => runs, raised := [], true;
      }
    }

    /** A ranker call over its tasks. */
    method RunVariants(repeats: nat, calls: seq<TaskCall>) returns (runs: seq<Run>, raised: bool)
      modifies this
      ensures var r := RankerCall(old(Contents()), repeats, calls);
        Contents() == r.store && raised == r.raised && (!raised ==> runs == r.runs)
    {
      runs, raised := [], false;
      ghost var start := Contents();
      for i := 0 to |calls|
        invariant !raised
        invariant var r, rest := RankerCall(start, repeats, calls), RankerCall(Contents(), repeats, calls[i..]);
          r.store == rest.store && r.raised == rest.raised && (!r.raised ==> r.runs == runs + rest.runs)
      {
        assert calls[i..][0] == calls[i] && calls[i..][1..] == calls[i + 1..];
        var more, failed := RunTask(repeats, calls[i]);
        if failed { return [], true; }
        runs := runs + more;
      }
    }
  }
}
