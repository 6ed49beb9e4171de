/** The record store of one unseeded experiment group: raw records, staged requests, receipt-binding sidecars.
    Hashes are injective, so a hash is represented by what was hashed. The budget is the group's preset throughout. */
module ExperimentStore {
  import opened Sorting
  import opened Options

  /** One arm of the experiment, and one repeat of it: the idempotency key. */
  datatype Arm = Arm(taskId: string, protocol: string, variant: string)
  datatype Key = Key(arm: Arm, repeatId: int)

  /** A path under the group directory: directly in artifacts/, or anywhere else. */
  datatype Path = InArtifacts(name: string) | Elsewhere(name: string)

  datatype Manifest = Manifest(
    runId: string, threadId: string, seed: Option<int>, seedSupported: bool, usage: int, pricing: seq<string>)

  /** The staged request; `resumeFrom` is the staged checkpoint of a resumed attempt. */
  datatype Request = Request(key: Key, pool: Option<string>, resumeFrom: Option<string>)

  /** What the child process reports; `manifest` stands for the manifest hash. */
  datatype Receipt = Receipt(taskId: string, completed: bool, manifestPath: Path, manifest: Manifest, rest: string)

  datatype ErrorCode =
    NoError | AgentFailed | AgentLaunchFailed | AgentReceiptInvalid | AgentRequestStageFailed | ResumeCheckpointInvalid
    | EvaluatorValidationFailed | CandidatePoolInvalid

  /** A raw record; a completed record is valid, any other is invalid. */
  datatype Run = Run(
    key: Key, completed: bool, manifestPath: Path, usage: int, pricing: seq<string>, pool: Option<string>, error: ErrorCode)

  /** A sidecar, stored under its request hash. */
  datatype Binding = Binding(key: Key, request: Request, receipt: Receipt, manifest: Manifest, runId: string, threadId: string)

  datatype Group = Group(
    raw: map<Key, Run>, requests: map<(Key, bool), Request>, checkpoints: map<Key, string>,
    bindings: map<Request, Binding>, artifacts: map<Path, Manifest>)

  /** How the launcher ends: it raises, or answers with something that may not parse. Either way it may have added,
      changed or removed any artifact: `artifacts` is what it leaves. */
  datatype Reply =
    LaunchFailed(artifacts: map<Path, Manifest>) | Launched(parsed: Option<Receipt>, artifacts: map<Path, Manifest>)

  /** One call of run_one with everything its surroundings decide: whether staging succeeds, what the launcher does,
      whether the receipt passes the component, configuration, code, result and pricing checks, and whether the
      evaluator returns acceptable metrics. */
  datatype Call = Call(
    key: Key, resume: bool, pool: Option<string>, checkpoint: Option<string>, checkpointGenuine: bool,
    stages: bool, reply: Reply, coreAccepts: bool, evaluatorAccepts: bool)

  datatype Outcome = Raised | Returned(run: Run)

  // ----- The pieces -----

  function FailureRun(key: Key, pool: Option<string>, error: ErrorCode): Run {
    Run(key, false, InArtifacts(""), 0, [], pool, error)
  }

  function RunFrom(key: Key, pool: Option<string>, r: Receipt): Run {
    Run(key, r.completed, r.manifestPath, r.manifest.usage, r.manifest.pricing, pool, if r.completed then NoError else AgentFailed)
  }

  /** Write a raw record: a failed one is replaced, a completed one refuses. */
  function Recorded(g: Group, run: Run): (Group, Outcome) {
    if run.key in g.raw && g.raw[run.key].completed then (g, Raised)
    else (g.(raw := g.raw[run.key := run]), Returned(run))
  }

  /** Everything checked about a receipt before it is bound. */
  predicate ReceiptAccepted(artifacts: map<Path, Manifest>, c: Call, r: Receipt) {
    && r.taskId == c.key.arm.taskId
    && r.manifestPath in artifacts && artifacts[r.manifestPath] == r.manifest
    && c.coreAccepts && !r.manifest.seedSupported && r.manifest.seed.None?
  }

  function BindingFor(request: Request, r: Receipt): Binding {
    Binding(request.key, request, r, r.manifest, r.manifest.runId, r.manifest.threadId)
  }

  /** A sidecar may be added: no sidecar of another arm, none with this receipt, none under this request. */
  predicate Bindable(bindings: map<Request, Binding>, request: Request, r: Receipt) {
    && (forall q :: q in bindings ==> bindings[q].key.arm == request.key.arm && bindings[q].receipt != r)
    && request !in bindings
  }

  function RequestOf(c: Call): Request {
    Request(c.key, c.pool, if c.resume then c.checkpoint else None)
  }

  /** An immutable write succeeds on a free place or on equal content. */
  predicate Writable<K, V(==)>(m: map<K, V>, k: K, v: V) {
    k in m ==> m[k] == v
  }

  /** After the request is staged: launch, validate, bind, evaluate, record. */
  function Launch(g: Group, c: Call): (Group, Outcome) {
    var g1 := g.(artifacts := c.reply.artifacts);
    match c.reply
    case LaunchFailed(_) => Recorded(g1, FailureRun(c.key, c.pool, AgentLaunchFailed))
    case Launched(parsed, _) =>
      if parsed.None? || !ReceiptAccepted(g1.artifacts, c, parsed.value) || !Bindable(g1.bindings, RequestOf(c), parsed.value)
      then Recorded(g1, FailureRun(c.key, c.pool, AgentReceiptInvalid))
      else
        var g2 := g1.(bindings := g1.bindings[RequestOf(c) := BindingFor(RequestOf(c), parsed.value)]);
        if c.evaluatorAccepts then Recorded(g2, RunFrom(c.key, c.pool, parsed.value))
        else Recorded(g2.(bindings := g2.bindings - {RequestOf(c)}), FailureRun(c.key, c.pool, EvaluatorValidationFailed))
  }

  function Stage(g: Group, c: Call): (Group, Outcome) {
    var place := (c.key, c.resume);
    if !c.stages || !Writable(g.requests, place, RequestOf(c))
    then Recorded(g, FailureRun(c.key, c.pool, AgentRequestStageFailed))
    else Launch(g.(requests := g.requests[place := RequestOf(c)]), c)
  }

  /** One call; `repeats` is the sealed number of repeats. */
  function RunOne(g: Group, repeats: nat, c: Call): (Group, Outcome) {
    if !(1 <= c.key.repeatId <= repeats) then (g, Raised)
    else if c.key in g.raw then
      var existing := g.raw[c.key];
      if existing.key != c.key then (g, Raised)
      else if existing.completed then (g, if ExistingAccepted(g, repeats, c.key) then Returned(existing) else Raised)
      else if !c.resume then (g, Raised)
      else Resume(g, c)
    else if c.resume then Recorded(g, FailureRun(c.key, c.pool, ResumeCheckpointInvalid))
    else Stage(g, c)
  }

  function Resume(g: Group, c: Call): (Group, Outcome) {
    if c.checkpoint.None? || !c.checkpointGenuine || !Writable(g.checkpoints, c.key, c.checkpoint.value)
    then Recorded(g, FailureRun(c.key, c.pool, ResumeCheckpointInvalid))
    else Stage(g.(checkpoints := g.checkpoints[c.key := c.checkpoint.value]), c)
  }

  // ----- The validator that a completed record's reuse goes through -----

  /** One sidecar against the raw records, manifests and requests. */
  predicate SidecarAccepted(g: Group, repeats: nat, q: Request)
    requires q in g.bindings
  {
    var b := g.bindings[q];
    && b.request == q && 1 <= b.key.repeatId <= repeats
    && b.key in g.raw && g.raw[b.key].completed
    && (var run := g.raw[b.key];
        && run.manifestPath.InArtifacts? && run.manifestPath in g.artifacts
        && (var m := g.artifacts[run.manifestPath];
            m == b.manifest && m.runId == b.runId && m.threadId == b.threadId && m.seed.None? && !m.seedSupported
            && m.usage == run.usage && m.pricing == run.pricing))
    && RequestMatches(g, b.key, q) == 1
  }

  /** How many of the key's two request files hold the bound request. */
  function RequestMatches(g: Group, key: Key, q: Request): nat {
    (if (key, false) in g.requests && g.requests[(key, false)] == q then 1 else 0)
    + (if (key, true) in g.requests && g.requests[(key, true)] == q then 1 else 0)
  }

  predicate RawNamed(g: Group) {
    forall k :: k in g.raw ==> g.raw[k].key == k
  }

  predicate SidecarsAccepted(g: Group, repeats: nat) {
    forall q :: q in g.bindings ==> SidecarAccepted(g, repeats, q)
  }

  predicate DistinctReceipts(bindings: map<Request, Binding>, names: set<Request>)
    requires names <= bindings.Keys
  {
    forall p, q :: p in names && q in names && p != q ==> bindings[p].receipt != bindings[q].receipt
  }

  /** Every completed record has its sidecar. */
  predicate CompletedBound(g: Group) {
    forall k :: k in g.raw && g.raw[k].completed ==> exists q :: q in g.bindings && g.bindings[q].key == k
  }

  /** The validator's verdict, free of the order in which the sidecars are listed. */
  predicate ExistingAccepted(g: Group, repeats: nat, key: Key) {
    && RawNamed(g) && SidecarsAccepted(g, repeats) && DistinctReceipts(g.bindings, g.bindings.Keys) && CompletedBound(g)
    && |BoundTo(g, key)| == 1
  }

  /** The sidecars of one key. */
  function BoundTo(g: Group, key: Key): set<Request> {
    set q | q in g.bindings && g.bindings[q].key == key
  }

  // ----- When a call completes, and how it fails otherwise -----

  /** A failed key is resumed from a genuine checkpoint that was not staged differently before; a new key is not resumed. */
  predicate StartGuard(g: Group, c: Call) {
    if c.key in g.raw then
      c.checkpoint.Some? && c.checkpointGenuine && (c.key in g.checkpoints ==> g.checkpoints[c.key] == c.checkpoint.value)
    else !c.resume
  }

  /** The request is staged, and was not staged differently before. */
  predicate StagingGuard(g: Group, c: Call) {
    && c.stages
    && ((c.key, c.resume) in g.requests ==>
          g.requests[(c.key, c.resume)] == Request(c.key, c.pool, if c.resume then c.checkpoint else None))
  }

  /** The launcher answers with a receipt of this task, whose manifest is there as reported, without a seed; it passes the
      component, configuration, code and result checks, and no sidecar is of another arm, has the receipt or the request. */
  predicate ReceiptGuard(g: Group, c: Call) {
    && c.reply.Launched? && c.reply.parsed.Some?
    && (var r := c.reply.parsed.value;
        && r.taskId == c.key.arm.taskId && c.coreAccepts
        && r.manifestPath in c.reply.artifacts && c.reply.artifacts[r.manifestPath] == r.manifest
        && r.manifest.seed == None && r.manifest.seedSupported == false
        && (forall q :: q in g.bindings ==> g.bindings[q].key.arm == c.key.arm && g.bindings[q].receipt != r))
    && Request(c.key, c.pool, if c.resume then c.checkpoint else None) !in g.bindings
  }

  /** The error of a staged call: that of the first guard it fails. */
  predicate LaunchError(g: Group, c: Call, error: ErrorCode) {
    error ==
      if c.reply.LaunchFailed? then AgentLaunchFailed
      else if !ReceiptGuard(g, c) then AgentReceiptInvalid
      else if !c.evaluatorAccepts then EvaluatorValidationFailed
      else if !c.reply.parsed.value.completed then AgentFailed
      else NoError
  }

  lemma GuardIsAccepted(g: Group, c: Call)
    ensures ReceiptGuard(g, c) <==>
      c.reply.Launched? && c.reply.parsed.Some? && ReceiptAccepted(c.reply.artifacts, c, c.reply.parsed.value)
      && Bindable(g.bindings, RequestOf(c), c.reply.parsed.value)
  {
  }

  lemma LaunchAnswers(g: Group, c: Call)
    requires Unfinished(g, c.key)
    ensures var outcome := Launch(g, c).1;
      outcome.Returned? && outcome.run.key == c.key && outcome.run.pool == c.pool && LaunchError(g, c, outcome.run.error)
  {
    GuardIsAccepted(g, c);
    var g1 := g.(artifacts := c.reply.artifacts);
    if c.reply.LaunchFailed? {
      assert Launch(g, c) == Recorded(g1, FailureRun(c.key, c.pool, AgentLaunchFailed));
    } else if !ReceiptGuard(g, c) {
      assert Launch(g, c) == Recorded(g1, FailureRun(c.key, c.pool, AgentReceiptInvalid));
    }
  }

  lemma StageAnswers(g: Group, c: Call)
    requires Unfinished(g, c.key)
    ensures var outcome := Stage(g, c).1;
      && outcome.Returned? && outcome.run.key == c.key && outcome.run.pool == c.pool
      && (if !StagingGuard(g, c) then outcome.run.error == AgentRequestStageFailed else LaunchError(g, c, outcome.run.error))
  {
    var staged := g.(requests := g.requests[(c.key, c.resume) := RequestOf(c)]);
    LaunchAnswers(staged, c);
    assert ReceiptGuard(staged, c) <==> ReceiptGuard(g, c);
  }

  /** A call on an unfinished key raises exactly out of range, on a record of another key, or without a resume on a failed
      one. Otherwise it returns a record of the key, and the first failed guard gives the error. */
  lemma CallAnswers(g: Group, repeats: nat, c: Call)
    requires Unfinished(g, c.key)
    ensures var outcome := RunOne(g, repeats, c).1;
      && (outcome.Raised? <==>
            !(1 <= c.key.repeatId <= repeats) || (c.key in g.raw && (g.raw[c.key].key != c.key || !c.resume)))
      && (outcome.Returned? ==>
            outcome.run.key == c.key && outcome.run.pool == c.pool
            && outcome.run.error ==
                 if !StartGuard(g, c) then ResumeCheckpointInvalid
                 else if !StagingGuard(g, c) then AgentRequestStageFailed
                 else if c.reply.LaunchFailed? then AgentLaunchFailed
                 else if !ReceiptGuard(g, c) then AgentReceiptInvalid
                 else if !c.evaluatorAccepts then EvaluatorValidationFailed
                 else if !c.reply.parsed.value.completed then AgentFailed
                 else NoError)
  {
    StageAnswers(g, c);
    if c.key in g.raw && c.checkpoint.Some? {
      var resumed := g.(checkpoints := g.checkpoints[c.key := c.checkpoint.value]);
      StageAnswers(resumed, c);
      assert ReceiptGuard(resumed, c) <==> ReceiptGuard(g, c);
    }
  }

  /** A call on a completed key changes nothing: it returns the record if it may be reused, and raises otherwise. */
  lemma CompletedAnswers(g: Group, repeats: nat, c: Call)
    requires c.key in g.raw && g.raw[c.key].completed
    ensures RunOne(g, repeats, c) == (g,
      if 1 <= c.key.repeatId <= repeats && g.raw[c.key].key == c.key && ExistingAccepted(g, repeats, c.key)
      then Returned(g.raw[c.key]) else Raised)
  {
  }

  /** A new completed record appears if and only if every guard holds and the receipt reports completion. */
  lemma CompletesExactly(g: Group, repeats: nat, c: Call)
    requires Unfinished(g, c.key)
    ensures var (h, outcome) := RunOne(g, repeats, c);
      && (outcome.Returned? && outcome.run.completed <==>
            && 1 <= c.key.repeatId <= repeats && (c.key in g.raw ==> g.raw[c.key].key == c.key && c.resume)
            && StartGuard(g, c) && StagingGuard(g, c) && ReceiptGuard(g, c)
            && c.reply.parsed.value.completed && c.evaluatorAccepts)
      && (c.key in h.raw && h.raw[c.key].completed <==> outcome.Returned? && outcome.run.completed)
      && (outcome.Returned? && outcome.run.completed ==>
            var r := c.reply.parsed.value;
            outcome.run == Run(c.key, true, r.manifestPath, r.manifest.usage, r.manifest.pricing, c.pool, NoError))
      && (outcome.Returned? ==> h.raw == g.raw[c.key := outcome.run]) && (outcome.Raised? ==> h == g)
  {
    CallAnswers(g, repeats, c);
    if RunOne(g, repeats, c).1.Returned? { NewRecord(g, repeats, c); }
    AnswerRecorded(g, repeats, c);
  }

  lemma NewRecord(g: Group, repeats: nat, c: Call)
    requires Unfinished(g, c.key) && RunOne(g, repeats, c).1.Returned?
    ensures var run := RunOne(g, repeats, c).1.run;
      && (run.completed <==> run.error.NoError?)
      && (run.completed ==>
            c.reply.Launched? && c.reply.parsed.Some? && var r := c.reply.parsed.value;
            run == Run(c.key, true, r.manifestPath, r.manifest.usage, r.manifest.pricing, c.pool, NoError))
  {
  }

  lemma AnswerRecorded(g: Group, repeats: nat, c: Call)
    requires Unfinished(g, c.key)
    ensures var (h, outcome) := RunOne(g, repeats, c);
      (outcome.Returned? ==> h.raw == g.raw[c.key := outcome.run]) && (outcome.Raised? ==> h == g)
  {
  }

  // ----- What every benign run keeps -----

  predicate RequestsNamed(g: Group) {
    forall p :: p in g.requests ==> g.requests[p].key == p.0 && (g.requests[p].resumeFrom.Some? <==> p.1)
  }

  /** No receipt and no key is bound twice, and all sidecars are of one arm. */
  predicate SidecarsDistinct(bindings: map<Request, Binding>) {
    && (forall p, q :: p in bindings && q in bindings && p != q ==>
          bindings[p].receipt != bindings[q].receipt && bindings[p].key != bindings[q].key)
    && (forall p, q :: p in bindings && q in bindings ==> bindings[p].key.arm == bindings[q].key.arm)
  }

  /** The sidecars correspond one to one to the completed records, each consistent with its record, manifest and
      request; no receipt is bound twice; all sidecars are of one arm. */
  ghost predicate Consistent(g: Group, repeats: nat) {
    RawNamed(g) && RequestsNamed(g) && SidecarsAccepted(g, repeats) && SidecarsDistinct(g.bindings) && CompletedBound(g)
  }

  /** The call gets as far as launching. */
  predicate Launches(g: Group, repeats: nat, c: Call) {
    && 1 <= c.key.repeatId <= repeats
    && (if c.key in g.raw then
          g.raw[c.key].key == c.key && !g.raw[c.key].completed && c.resume
          && c.checkpoint.Some? && c.checkpointGenuine && Writable(g.checkpoints, c.key, c.checkpoint.value)
        else !c.resume)
    && c.stages && Writable(g.requests, (c.key, c.resume), RequestOf(c))
  }

  /** The call binds a receipt that the evaluator then accepts. */
  predicate Promotes(g: Group, repeats: nat, c: Call) {
    && Launches(g, repeats, c)
    && c.reply.Launched? && c.reply.parsed.Some?
    && ReceiptAccepted(c.reply.artifacts, c, c.reply.parsed.value)
    && Bindable(g.bindings, RequestOf(c), c.reply.parsed.value)
    && c.evaluatorAccepts
  }

  /** The launcher left the manifest of every completed record as it was. */
  predicate Intact(g: Group, artifacts: map<Path, Manifest>) {
    forall k :: k in g.raw && g.raw[k].completed && g.raw[k].manifestPath in g.artifacts ==>
      var p := g.raw[k].manifestPath; p in artifacts && artifacts[p] == g.artifacts[p]
  }

  /** A receipt that reports completion and keeps its manifest directly under artifacts/. */
  predicate Benign(r: Receipt) {
    r.completed && r.manifestPath.InArtifacts?
  }

  /** The call's launcher damages no completed record's manifest, and the call promotes a benign receipt if any. */
  predicate BenignCall(g: Group, repeats: nat, c: Call) {
    && (Launches(g, repeats, c) ==> Intact(g, c.reply.artifacts))
    && (Promotes(g, repeats, c) ==> Benign(c.reply.parsed.value))
  }

  // ----- Single steps -----

  predicate Unfinished(g: Group, key: Key) {
    key in g.raw ==> !g.raw[key].completed
  }

  lemma NoSidecarYet(g: Group, repeats: nat, key: Key)
    requires Consistent(g, repeats) && Unfinished(g, key)
    ensures forall q :: q in g.bindings ==> g.bindings[q].key != key
  {
    forall q | q in g.bindings ensures g.bindings[q].key != key { assert SidecarAccepted(g, repeats, q); }
  }

  lemma FailureKeeps(g: Group, repeats: nat, run: Run)
    requires Consistent(g, repeats) && !run.completed
    ensures Consistent(Recorded(g, run).0, repeats)
  {
    if Unfinished(g, run.key) {
      NoSidecarYet(g, repeats, run.key);
      var h := Recorded(g, run).0;
      forall q | q in h.bindings ensures SidecarAccepted(h, repeats, q) { assert SidecarAccepted(g, repeats, q); }
    }
  }

  lemma ArtifactsKeep(g: Group, repeats: nat, artifacts: map<Path, Manifest>)
    requires Consistent(g, repeats) && Intact(g, artifacts)
    ensures Consistent(g.(artifacts := artifacts), repeats)
  {
    var h := g.(artifacts := artifacts);
    forall q | q in h.bindings ensures SidecarAccepted(h, repeats, q) { assert SidecarAccepted(g, repeats, q); }
  }

  lemma StagingKeeps(g: Group, repeats: nat, c: Call)
    requires Consistent(g, repeats) && Unfinished(g, c.key) && (c.resume ==> c.checkpoint.Some?)
    ensures Consistent(g.(requests := g.requests[(c.key, c.resume) := RequestOf(c)]), repeats)
  {
    var h := g.(requests := g.requests[(c.key, c.resume) := RequestOf(c)]);
    NoSidecarYet(g, repeats, c.key);
    forall q | q in h.bindings ensures SidecarAccepted(h, repeats, q) {
      assert SidecarAccepted(g, repeats, q);
      assert RequestMatches(h, g.bindings[q].key, q) == RequestMatches(g, g.bindings[q].key, q);
    }
    assert RequestsNamed(h);
  }

  lemma CheckpointKeeps(g: Group, repeats: nat, key: Key, checkpoint: string)
    requires Consistent(g, repeats)
    ensures Consistent(g.(checkpoints := g.checkpoints[key := checkpoint]), repeats)
  {
    var h := g.(checkpoints := g.checkpoints[key := checkpoint]);
    forall q | q in h.bindings ensures SidecarAccepted(h, repeats, q) { assert SidecarAccepted(g, repeats, q); }
  }

  /** The state after a promotion. */
  function Promoted(g: Group, c: Call, r: Receipt): Group {
    g.(bindings := g.bindings[RequestOf(c) := BindingFor(RequestOf(c), r)], raw := g.raw[c.key := RunFrom(c.key, c.pool, r)])
  }

  /** The new sidecar itself is accepted exactly for a benign receipt. */
  lemma NewSidecar(g: Group, repeats: nat, c: Call, r: Receipt)
    requires RequestsNamed(g) && 1 <= c.key.repeatId <= repeats && (c.resume ==> c.checkpoint.Some?)
    requires (c.key, c.resume) in g.requests && g.requests[(c.key, c.resume)] == RequestOf(c)
    requires ReceiptAccepted(g.artifacts, c, r)
    ensures SidecarAccepted(Promoted(g, c, r), repeats, RequestOf(c)) <==> Benign(r)
  {
    var h, q := Promoted(g, c, r), RequestOf(c);
    assert RequestMatches(h, c.key, q) == 1 by {
      assert (c.key, !c.resume) in g.requests ==> g.requests[(c.key, !c.resume)].resumeFrom.Some? == !c.resume;
    }
    assert h.bindings[q] == BindingFor(q, r) && h.raw[c.key] == RunFrom(c.key, c.pool, r);
  }

  lemma OtherSidecars(g: Group, repeats: nat, c: Call, r: Receipt)
    requires Consistent(g, repeats) && Unfinished(g, c.key)
    ensures forall q :: q in g.bindings && q != RequestOf(c) ==> SidecarAccepted(Promoted(g, c, r), repeats, q)
  {
    NoSidecarYet(g, repeats, c.key);
    forall q | q in g.bindings && q != RequestOf(c) ensures SidecarAccepted(Promoted(g, c, r), repeats, q) {
      assert SidecarAccepted(g, repeats, q);
    }
  }

  /** Binding and recording a benign receipt adds one sidecar and its completed record together;
      binding any other leaves a sidecar that its own validator refuses. */
  lemma PromotionKeeps(g: Group, repeats: nat, c: Call, r: Receipt)
    requires Consistent(g, repeats) && Unfinished(g, c.key) && 1 <= c.key.repeatId <= repeats && (c.resume ==> c.checkpoint.Some?)
    requires (c.key, c.resume) in g.requests && g.requests[(c.key, c.resume)] == RequestOf(c)
    requires ReceiptAccepted(g.artifacts, c, r) && Bindable(g.bindings, RequestOf(c), r)
    ensures Consistent(Promoted(g, c, r), repeats) <==> Benign(r)
    ensures !Benign(r) ==> !SidecarsAccepted(Promoted(g, c, r), repeats)
  {
    var h, q0 := Promoted(g, c, r), RequestOf(c);
    NewSidecar(g, repeats, c, r);
    assert q0 in h.bindings;
    if Benign(r) {
      OtherSidecars(g, repeats, c, r);
      NoSidecarYet(g, repeats, c.key);
      assert SidecarsDistinct(h.bindings);
      PromotedBound(g, c, r);
    }
  }

  lemma PromotedBound(g: Group, c: Call, r: Receipt)
    requires CompletedBound(g) && RequestOf(c) !in g.bindings
    ensures CompletedBound(Promoted(g, c, r))
  {
    var h, q0 := Promoted(g, c, r), RequestOf(c);
    forall k | k in h.raw && h.raw[k].completed ensures exists q :: q in h.bindings && h.bindings[q].key == k {
      if k == c.key {
        assert q0 in h.bindings && h.bindings[q0].key == k;
      } else {
        var q :| q in g.bindings && g.bindings[q].key == k;
        assert q in h.bindings && h.bindings[q].key == k;
      }
    }
  }

  // ----- Whole calls -----

  /** From launch on, existing sidecars and completed records stay, over whatever artifacts the launcher left. */
  lemma LaunchFacts(g: Group, c: Call)
    ensures var h := Launch(g, c).0;
      && h.artifacts == c.reply.artifacts
      && (forall q :: q in g.bindings ==> q in h.bindings && h.bindings[q] == g.bindings[q])
      && forall k :: k in g.raw && g.raw[k].completed ==> k in h.raw && h.raw[k] == g.raw[k]
  {
  }

  /** A damaged manifest is found out: its sidecar is refused whatever else the call does. */
  lemma DamageFound(g: Group, repeats: nat, c: Call)
    requires Consistent(g, repeats) && !Intact(g, c.reply.artifacts)
    ensures !SidecarsAccepted(Launch(g, c).0, repeats)
  {
    var k :| k in g.raw && g.raw[k].completed && g.raw[k].manifestPath in g.artifacts
      && !(g.raw[k].manifestPath in c.reply.artifacts
           && c.reply.artifacts[g.raw[k].manifestPath] == g.artifacts[g.raw[k].manifestPath]);
    var q :| q in g.bindings && g.bindings[q].key == k;
    assert SidecarAccepted(g, repeats, q);
    LaunchFacts(g, c);
    assert !SidecarAccepted(Launch(g, c).0, repeats, q);
  }

  lemma RejectionKeeps(g: Group, repeats: nat, c: Call, r: Receipt)
    requires Consistent(g, repeats) && Bindable(g.bindings, RequestOf(c), r)
    ensures var bound := g.bindings[RequestOf(c) := BindingFor(RequestOf(c), r)];
      Consistent(Recorded(g.(bindings := bound - {RequestOf(c)}), FailureRun(c.key, c.pool, EvaluatorValidationFailed)).0, repeats)
  {
    assert g.bindings[RequestOf(c) := BindingFor(RequestOf(c), r)] - {RequestOf(c)} == g.bindings;
    FailureKeeps(g, repeats, FailureRun(c.key, c.pool, EvaluatorValidationFailed));
  }

  /** From an intact launch on: consistent exactly unless a receipt that is not benign is promoted. */
  lemma IntactLaunch(g: Group, repeats: nat, c: Call)
    requires Consistent(g, repeats) && Unfinished(g, c.key) && 1 <= c.key.repeatId <= repeats && (c.resume ==> c.checkpoint.Some?)
    requires (c.key, c.resume) in g.requests && g.requests[(c.key, c.resume)] == RequestOf(c)
    requires Intact(g, c.reply.artifacts)
    ensures var promotes := c.reply.Launched? && c.reply.parsed.Some?
        && ReceiptAccepted(c.reply.artifacts, c, c.reply.parsed.value)
        && Bindable(g.bindings, RequestOf(c), c.reply.parsed.value) && c.evaluatorAccepts;
      if promotes && !Benign(c.reply.parsed.value) then !SidecarsAccepted(Launch(g, c).0, repeats)
      else Consistent(Launch(g, c).0, repeats)
  {
    var g1 := g.(artifacts := c.reply.artifacts);
    ArtifactsKeep(g, repeats, c.reply.artifacts);
    match c.reply {
      case LaunchFailed(_) =>
        FailureKeeps(g1, repeats, FailureRun(c.key, c.pool, AgentLaunchFailed));
      case Launched(parsed, _) =>
        if parsed.None? || !ReceiptAccepted(g1.artifacts, c, parsed.value) || !Bindable(g1.bindings, RequestOf(c), parsed.value) {
          FailureKeeps(g1, repeats, FailureRun(c.key, c.pool, AgentReceiptInvalid));
        } else if c.evaluatorAccepts {
          PromotionKeeps(g1, repeats, c, parsed.value);
        } else {
          RejectionKeeps(g1, repeats, c, parsed.value);
        }
    }
  }

  /** The group in which a call launches: its checkpoint and request staged. */
  function Staged(g: Group, c: Call): Group
    requires c.resume ==> c.checkpoint.Some?
  {
    g.(checkpoints := if c.resume then g.checkpoints[c.key := c.checkpoint.value] else g.checkpoints,
       requests := g.requests[(c.key, c.resume) := RequestOf(c)])
  }

  lemma StagedLaunch(g: Group, repeats: nat, c: Call)
    requires Consistent(g, repeats) && Launches(g, repeats, c)
    ensures Consistent(Staged(g, c), repeats) && RunOne(g, repeats, c) == Launch(Staged(g, c), c)
  {
    var g1 := if c.resume then g.(checkpoints := g.checkpoints[c.key := c.checkpoint.value]) else g;
    if c.resume { CheckpointKeeps(g, repeats, c.key, c.checkpoint.value); }
    StagingKeeps(g1, repeats, c);
  }

  /** From a consistent group, a benign call leaves a consistent group, and after any other call the sidecars are refused. */
  lemma OneCall(g: Group, repeats: nat, c: Call)
    requires Consistent(g, repeats)
    ensures if BenignCall(g, repeats, c) then Consistent(RunOne(g, repeats, c).0, repeats)
      else !SidecarsAccepted(RunOne(g, repeats, c).0, repeats)
  {
    if Launches(g, repeats, c) {
      StagedLaunch(g, repeats, c);
      var h := Staged(g, c);
      if Intact(h, c.reply.artifacts) { IntactLaunch(h, repeats, c); } else { DamageFound(h, repeats, c); }
    } else {
      NotLaunched(g, repeats, c);
    }
  }

  /** From a consistent group, one call leaves a consistent group exactly unless its launcher damages the manifest of a
      completed record, or it promotes a receipt that does not report completion or keeps its manifest elsewhere. */
  lemma RunOneConsistency(g: Group, repeats: nat, c: Call)
    requires Consistent(g, repeats)
    ensures Consistent(RunOne(g, repeats, c).0, repeats) <==> BenignCall(g, repeats, c)
  {
    OneCall(g, repeats, c);
  }

  /** A call whose evaluator rejects leaves the sidecars of any group exactly as they were. */
  lemma RejectionLeavesNoOrphan(g: Group, repeats: nat, c: Call)
    requires !c.evaluatorAccepts
    ensures RunOne(g, repeats, c).0.bindings == g.bindings
  {
    RejectedStage(g, c);
    if c.checkpoint.Some? { RejectedStage(g.(checkpoints := g.checkpoints[c.key := c.checkpoint.value]), c); }
  }

  lemma RejectedStage(g: Group, c: Call)
    requires !c.evaluatorAccepts
    ensures Stage(g, c).0.bindings == g.bindings
  {
    RejectedLaunch(g.(requests := g.requests[(c.key, c.resume) := RequestOf(c)]), c);
  }

  lemma RejectedLaunch(g: Group, c: Call)
    requires !c.evaluatorAccepts
    ensures Launch(g, c).0.bindings == g.bindings
  {
    if c.reply.Launched? && c.reply.parsed.Some? && Bindable(g.bindings, RequestOf(c), c.reply.parsed.value) {
      assert g.bindings[RequestOf(c) := BindingFor(RequestOf(c), c.reply.parsed.value)] - {RequestOf(c)} == g.bindings;
    }
  }

  lemma NotLaunched(g: Group, repeats: nat, c: Call)
    requires Consistent(g, repeats) && !Launches(g, repeats, c)
    ensures Consistent(RunOne(g, repeats, c).0, repeats)
  {
    if 1 <= c.key.repeatId <= repeats && Unfinished(g, c.key) {
      FailureKeeps(g, repeats, FailureRun(c.key, c.pool, ResumeCheckpointInvalid));
      FailureKeeps(g, repeats, FailureRun(c.key, c.pool, AgentRequestStageFailed));
      if c.resume && c.checkpoint.Some? {
        var h := g.(checkpoints := g.checkpoints[c.key := c.checkpoint.value]);
        CheckpointKeeps(g, repeats, c.key, c.checkpoint.value);
        FailureKeeps(h, repeats, FailureRun(c.key, c.pool, AgentRequestStageFailed));
      }
    }
  }

  function RunAll(g: Group, repeats: nat, calls: seq<Call>): Group
    decreases |calls|
  {
    if calls == [] then g else RunAll(RunOne(g, repeats, calls[0]).0, repeats, calls[1..])
  }

  /** Every call is benign where it stands. */
  predicate AllBenign(g: Group, repeats: nat, calls: seq<Call>)
    decreases |calls|
  {
    calls == [] || (BenignCall(g, repeats, calls[0]) && AllBenign(RunOne(g, repeats, calls[0]).0, repeats, calls[1..]))
  }

  const NEW_GROUP: Group := Group(map[], map[], map[], map[], map[])

  lemma {:induction false} RunAllConsistent(g: Group, repeats: nat, calls: seq<Call>)
    requires Consistent(g, repeats) && AllBenign(g, repeats, calls)
    ensures Consistent(RunAll(g, repeats, calls), repeats)
    decreases |calls|
  {
    if calls != [] {
      RunOneConsistency(g, repeats, calls[0]);
      RunAllConsistent(RunOne(g, repeats, calls[0]).0, repeats, calls[1..]);
    }
  }

  lemma OneSidecarEach(g: Group, repeats: nat, key: Key)
    requires Consistent(g, repeats)
    ensures |BoundTo(g, key)| == if key in g.raw && g.raw[key].completed then 1 else 0
  {
    if key in g.raw && g.raw[key].completed {
      var q :| q in g.bindings && g.bindings[q].key == key;
      assert BoundTo(g, key) == {q};
    } else {
      NoSidecarYet(g, repeats, key);
      assert BoundTo(g, key) == {};
    }
  }

  function CompletedKeys(raw: map<Key, Run>): set<Key> {
    set k | k in raw && raw[k].completed
  }

  /** An injection of a set of sidecars onto a set of owners makes the two equally large. */
  lemma {:induction false} OwnersCount(bindings: map<Request, Binding>, names: set<Request>)
    requires names <= bindings.Keys
    requires forall p, q :: p in names && q in names && p != q ==> bindings[p].key != bindings[q].key
    ensures |OwnersOf(bindings, names)| == |names|
    decreases |names|
  {
    if names == {} {
      assert OwnersOf(bindings, names) == {};
    } else {
      var q :| q in names;
      OwnersCount(bindings, names - {q});
      assert OwnersOf(bindings, names) == OwnersOf(bindings, names - {q}) + {bindings[q].key};
    }
  }

  lemma ConsistentCount(g: Group, repeats: nat)
    requires Consistent(g, repeats)
    ensures |g.bindings| == |CompletedKeys(g.raw)|
  {
    OwnersCount(g.bindings, g.bindings.Keys);
    forall k ensures k in OwnersOf(g.bindings, g.bindings.Keys) <==> k in CompletedKeys(g.raw) {
      if k in OwnersOf(g.bindings, g.bindings.Keys) {
        var q :| q in g.bindings && g.bindings[q].key == k;
        assert SidecarAccepted(g, repeats, q);
      }
    }
    assert OwnersOf(g.bindings, g.bindings.Keys) == CompletedKeys(g.raw);
    assert |g.bindings| == |g.bindings.Keys|;
  }

  /** Over any sequence of benign calls: each completed record has exactly one sidecar and no
      other record has any, no receipt is bound twice, and the reuse validator accepts every completed record. */
  lemma BindingBijection(repeats: nat, calls: seq<Call>)
    requires AllBenign(NEW_GROUP, repeats, calls)
    ensures var g := RunAll(NEW_GROUP, repeats, calls);
      && (forall k :: |BoundTo(g, k)| == if k in g.raw && g.raw[k].completed then 1 else 0)
      && (forall p, q :: p in g.bindings && q in g.bindings && p != q ==> g.bindings[p].receipt != g.bindings[q].receipt)
      && (forall k :: k in g.raw && g.raw[k].completed ==> ExistingAccepted(g, repeats, k))
      && |g.bindings| == |CompletedKeys(g.raw)|
  {
    assert Consistent(NEW_GROUP, repeats);
    RunAllConsistent(NEW_GROUP, repeats, calls);
    var g := RunAll(NEW_GROUP, repeats, calls);
    ConsistentCount(g, repeats);
    forall k ensures |BoundTo(g, k)| == if k in g.raw && g.raw[k].completed then 1 else 0 {
      OneSidecarEach(g, repeats, k);
    }
  }

  /** A call that is not benign poisons the whole group: right after it no completed record is accepted for reuse. */
  lemma OrphanPoisonsGroup(g: Group, repeats: nat, c: Call, key: Key)
    requires Consistent(g, repeats) && !BenignCall(g, repeats, c)
    ensures !ExistingAccepted(RunOne(g, repeats, c).0, repeats, key)
  {
    OneCall(g, repeats, c);
  }

  /** A plain first call that launches, with a benign receipt over one manifest path. */
  function PlainCall(arm: Arm, repeatId: int, p: Path, m: Manifest): Call {
    var reply := Launched(Some(Receipt(arm.taskId, true, p, m, "")), map[p := m]);
    Call(Key(arm, repeatId), false, None, None, false, true, reply, true, true)
  }

  lemma FirstAccepted(arm: Arm, p: Path, m: Manifest)
    requires m.seed.None? && !m.seedSupported && p.InArtifacts?
    ensures var g := RunOne(NEW_GROUP, 2, PlainCall(arm, 1, p, m)).0;
      Consistent(g, 2) && ExistingAccepted(g, 2, Key(arm, 1))
  {
    var c := PlainCall(arm, 1, p, m);
    PromotingCall(NEW_GROUP, 2, c);
    assert Consistent(NEW_GROUP, 2);
    OneCall(NEW_GROUP, 2, c);
    OneSidecarEach(RunOne(NEW_GROUP, 2, c).0, 2, c.key);
  }

  /** A plain second call over the same path binds, but damages the first call's manifest. */
  lemma PlainSecond(arm: Arm, p: Path, m1: Manifest, m2: Manifest)
    requires m1 != m2 && m1.seed.None? && m2.seed.None? && !m1.seedSupported && !m2.seedSupported && p.InArtifacts?
    ensures var g, c := RunOne(NEW_GROUP, 2, PlainCall(arm, 1, p, m1)).0, PlainCall(arm, 2, p, m2);
      Promotes(g, 2, c) && !BenignCall(g, 2, c)
  {
    var g, c1 := RunOne(NEW_GROUP, 2, PlainCall(arm, 1, p, m1)).0, PlainCall(arm, 1, p, m1);
    assert c1.key in g.raw && g.raw[c1.key].completed && g.artifacts[p] == m1;
    assert !Intact(g, map[p := m2]);
  }

  /** Benign receipts are not enough: when the second repeat's launcher overwrites the first repeat's manifest and answers
      with a benign receipt, the first repeat's completed record is refused. */
  lemma OverwritingRefusesEarlier(arm: Arm, name: string, m1: Manifest, m2: Manifest)
    requires m1 != m2 && m1.seed.None? && m2.seed.None? && !m1.seedSupported && !m2.seedSupported
    ensures var p := InArtifacts(name);
      var c1, c2 := PlainCall(arm, 1, p, m1), PlainCall(arm, 2, p, m2);
      var g := RunOne(NEW_GROUP, 2, c1).0;
      && Benign(c2.reply.parsed.value) && Promotes(g, 2, c2)
      && ExistingAccepted(g, 2, c1.key) && !ExistingAccepted(RunOne(g, 2, c2).0, 2, c1.key)
  {
    var p := InArtifacts(name);
    var c1, c2 := PlainCall(arm, 1, p, m1), PlainCall(arm, 2, p, m2);
    var g := RunOne(NEW_GROUP, 2, c1).0;
    FirstAccepted(arm, p, m1);
    PlainSecond(arm, p, m1, m2);
    OrphanPoisonsGroup(g, 2, c2, c1.key);
  }

  // ----- Spoiled keys -----

  /** From one group to a later one: sidecars stay, and a newly completed record has a new sidecar. */
  ghost predicate Advances(g: Group, h: Group) {
    && (forall q :: q in g.bindings ==> q in h.bindings && h.bindings[q] == g.bindings[q])
    && (forall k :: k in h.raw && h.raw[k].completed && Unfinished(g, k) ==>
          exists q :: q in h.bindings && q !in g.bindings && h.bindings[q].key == k)
  }

  lemma FailureAdvances(g: Group, run: Run)
    requires !run.completed
    ensures Advances(g, Recorded(g, run).0)
  {
  }

  lemma PromotionAdvances(g: Group, c: Call, r: Receipt)
    requires Unfinished(g, c.key) && RequestOf(c) !in g.bindings
    ensures Advances(g, Promoted(g, c, r))
  {
    assert Promoted(g, c, r).bindings[RequestOf(c)].key == c.key;
  }

  lemma LaunchAdvances(g: Group, c: Call)
    requires Unfinished(g, c.key)
    ensures Advances(g, Launch(g, c).0)
  {
    var g1, h := g.(artifacts := c.reply.artifacts), Launch(g, c).0;
    if c.reply.Launched? && c.reply.parsed.Some? && ReceiptAccepted(g1.artifacts, c, c.reply.parsed.value)
       && Bindable(g.bindings, RequestOf(c), c.reply.parsed.value) && c.evaluatorAccepts {
      PromotionAdvances(g1, c, c.reply.parsed.value);
      assert h == Promoted(g1, c, c.reply.parsed.value);
    } else {
      UnpromotedLaunch(g, c);
    }
  }

  /** A launch that promotes nothing leaves the sidecars and completes nothing. */
  lemma UnpromotedLaunch(g: Group, c: Call)
    requires Unfinished(g, c.key)
    requires !(c.reply.Launched? && c.reply.parsed.Some? && ReceiptAccepted(c.reply.artifacts, c, c.reply.parsed.value)
               && Bindable(g.bindings, RequestOf(c), c.reply.parsed.value) && c.evaluatorAccepts)
    ensures var h := Launch(g, c).0;
      h.bindings == g.bindings && c.key in h.raw && !h.raw[c.key].completed && h.raw == g.raw[c.key := h.raw[c.key]]
  {
    if c.reply.LaunchFailed? {
      assert Launch(g, c).0.raw == g.raw[c.key := FailureRun(c.key, c.pool, AgentLaunchFailed)];
    } else if c.reply.parsed.None? || !ReceiptAccepted(c.reply.artifacts, c, c.reply.parsed.value)
              || !Bindable(g.bindings, RequestOf(c), c.reply.parsed.value) {
      assert Launch(g, c).0.raw == g.raw[c.key := FailureRun(c.key, c.pool, AgentReceiptInvalid)];
    } else {
      RejectedLaunch(g, c);
      assert Launch(g, c).0.raw == g.raw[c.key := FailureRun(c.key, c.pool, EvaluatorValidationFailed)];
    }
  }

  lemma StageAdvances(g: Group, c: Call)
    requires Unfinished(g, c.key)
    ensures Advances(g, Stage(g, c).0)
  {
    FailureAdvances(g, FailureRun(c.key, c.pool, AgentRequestStageFailed));
    var staged := g.(requests := g.requests[(c.key, c.resume) := RequestOf(c)]);
    LaunchAdvances(staged, c);
    SameAdvances(g, staged, Launch(staged, c).0);
    assert Stage(g, c).0 == Launch(staged, c).0 || Stage(g, c).0 == Recorded(g, FailureRun(c.key, c.pool, AgentRequestStageFailed)).0;
  }

  lemma SameAdvances(g: Group, g': Group, h: Group)
    requires g.raw == g'.raw && g.bindings == g'.bindings && Advances(g', h)
    ensures Advances(g, h)
  {
  }

  lemma ResumeAdvances(g: Group, c: Call)
    requires Unfinished(g, c.key)
    ensures Advances(g, Resume(g, c).0)
  {
    FailureAdvances(g, FailureRun(c.key, c.pool, ResumeCheckpointInvalid));
    if c.checkpoint.Some? {
      var staged := g.(checkpoints := g.checkpoints[c.key := c.checkpoint.value]);
      StageAdvances(staged, c);
      SameAdvances(g, staged, Stage(staged, c).0);
      assert Resume(g, c).0 == Stage(staged, c).0 || Resume(g, c).0 == Recorded(g, FailureRun(c.key, c.pool, ResumeCheckpointInvalid)).0;
    }
  }

  lemma RunOneAdvances(g: Group, repeats: nat, c: Call)
    ensures Advances(g, RunOne(g, repeats, c).0)
  {
    if Unfinished(g, c.key) {
      FailureAdvances(g, FailureRun(c.key, c.pool, ResumeCheckpointInvalid));
      StageAdvances(g, c);
      ResumeAdvances(g, c);
    }
  }

  /** A key with a sidecar but no completed record, or with two sidecars. */
  ghost predicate Spoiled(g: Group, k: Key) {
    exists q :: q in g.bindings && g.bindings[q].key == k && (Unfinished(g, k) || SecondSidecar(g, k, q))
  }

  ghost predicate SecondSidecar(g: Group, k: Key, q: Request) {
    exists p :: p in g.bindings && p != q && g.bindings[p].key == k
  }

  lemma SpoiledStays(g: Group, h: Group, k: Key)
    requires Advances(g, h) && Spoiled(g, k)
    ensures Spoiled(h, k)
  {
    var q :| q in g.bindings && g.bindings[q].key == k && (Unfinished(g, k) || SecondSidecar(g, k, q));
    assert q in h.bindings && h.bindings[q].key == k;
    if SecondSidecar(g, k, q) {
      var p :| p in g.bindings && p != q && g.bindings[p].key == k;
      assert p in h.bindings && SecondSidecar(h, k, q);
    } else if k in h.raw && h.raw[k].completed {
      var p :| p in h.bindings && p !in g.bindings && h.bindings[p].key == k;
      assert p != q && SecondSidecar(h, k, q);
    }
  }

  lemma SpoiledRefused(g: Group, repeats: nat, k: Key)
    requires Spoiled(g, k)
    ensures !ExistingAccepted(g, repeats, k)
  {
    var q :| q in g.bindings && g.bindings[q].key == k && (Unfinished(g, k) || SecondSidecar(g, k, q));
    if Unfinished(g, k) {
      assert !SidecarAccepted(g, repeats, q);
    } else {
      var p :| p in g.bindings && p != q && g.bindings[p].key == k;
      TwoBound(g, k, p, q);
    }
  }

  lemma TwoBound(g: Group, key: Key, p: Request, q: Request)
    requires p in BoundTo(g, key) && q in BoundTo(g, key) && p != q
    ensures |BoundTo(g, key)| != 1
  {
    assert q in BoundTo(g, key) - {p};
    assert |BoundTo(g, key) - {p}| == |BoundTo(g, key)| - 1;
  }

  /** What is spoiled stays spoiled: whatever calls follow, in whatever group, the key is never accepted for reuse. */
  lemma {:induction false} SpoiledForever(g: Group, repeats: nat, calls: seq<Call>, k: Key)
    requires Spoiled(g, k)
    ensures Spoiled(RunAll(g, repeats, calls), k) && !ExistingAccepted(RunAll(g, repeats, calls), repeats, k)
    decreases |calls|
  {
    SpoiledRefused(g, repeats, k);
    if calls != [] {
      var h := RunOne(g, repeats, calls[0]).0;
      RunOneAdvances(g, repeats, calls[0]);
      SpoiledStays(g, h, k);
      SpoiledForever(h, repeats, calls[1..], k);
    }
  }

  /** Promoting an incomplete receipt spoils its key for good. */
  lemma IncompleteSpoils(g: Group, repeats: nat, c: Call)
    requires Promotes(g, repeats, c) && !c.reply.parsed.value.completed
    ensures Spoiled(RunOne(g, repeats, c).0, c.key)
  {
    var h := RunOne(g, repeats, c).0;
    assert h.raw == g.raw[c.key := RunFrom(c.key, c.pool, c.reply.parsed.value)];
    assert RequestOf(c) in h.bindings && h.bindings[RequestOf(c)].key == c.key;
  }

  /** A plain call whose launcher reports an incomplete attempt over one manifest path. */
  function IncompleteCall(arm: Arm, repeatId: int, p: Path, m: Manifest): Call {
    var reply := Launched(Some(Receipt(arm.taskId, false, p, m, "")), map[p := m]);
    Call(Key(arm, repeatId), false, None, None, false, true, reply, true, true)
  }

  /** The incomplete receipt alone is enough: a first call in an empty group that binds and is not benign. */
  lemma IncompleteBreaks(arm: Arm, name: string, m: Manifest)
    requires m.seed.None? && !m.seedSupported
    ensures var c := IncompleteCall(arm, 2, InArtifacts(name), m);
      Promotes(NEW_GROUP, 2, c) && !BenignCall(NEW_GROUP, 2, c) && Spoiled(RunOne(NEW_GROUP, 2, c).0, c.key)
  {
    IncompleteSpoils(NEW_GROUP, 2, IncompleteCall(arm, 2, InArtifacts(name), m));
  }

  /** Resuming that attempt from a checkpoint, now with a completed receipt over the same manifest. */
  function ResumedCall(arm: Arm, repeatId: int, p: Path, m: Manifest, checkpoint: string): Call {
    var reply := Launched(Some(Receipt(arm.taskId, true, p, m, checkpoint)), map[p := m]);
    Call(Key(arm, repeatId), true, None, Some(checkpoint), true, true, reply, true, true)
  }

  /** What a promoting call leaves. */
  lemma PromotingCall(g: Group, repeats: nat, c: Call)
    requires Promotes(g, repeats, c)
    ensures RunOne(g, repeats, c).0 == Promoted(Staged(g, c).(artifacts := c.reply.artifacts), c, c.reply.parsed.value)
  {
  }

  /** The group after a first repeat completed, a second was reported incomplete, and the second was resumed. */
  function Restored(arm: Arm, p: Path, m: Manifest, checkpoint: string): Group {
    var c1, c2, c3 := PlainCall(arm, 1, p, m), IncompleteCall(arm, 2, p, m), ResumedCall(arm, 2, p, m, checkpoint);
    RunOne(RunOne(RunOne(NEW_GROUP, 2, c1).0, 2, c2).0, 2, c3).0
  }

  predicate IsRestored(g: Group, c1: Call, c2: Call, c3: Call, p: Path, m: Manifest)
    requires c1.reply.Launched? && c1.reply.parsed.Some? && c2.reply.Launched? && c2.reply.parsed.Some?
    requires c3.reply.Launched? && c3.reply.parsed.Some?
  {
    var q1, q2, q3 := RequestOf(c1), RequestOf(c2), RequestOf(c3);
    var r1, r2, r3 := c1.reply.parsed.value, c2.reply.parsed.value, c3.reply.parsed.value;
    && g.raw == map[c1.key := RunFrom(c1.key, None, r1), c2.key := RunFrom(c3.key, None, r3)]
    && g.requests == map[(c1.key, false) := q1, (c2.key, false) := q2, (c2.key, true) := q3] && g.artifacts == map[p := m]
    && g.bindings == map[q1 := BindingFor(q1, r1), q2 := BindingFor(q2, r2), q3 := BindingFor(q3, r3)]
  }

  lemma RestoredGroup(arm: Arm, p: Path, m: Manifest, checkpoint: string)
    requires m.seed.None? && !m.seedSupported && p.InArtifacts? && checkpoint != ""
    ensures IsRestored(Restored(arm, p, m, checkpoint),
      PlainCall(arm, 1, p, m), IncompleteCall(arm, 2, p, m), ResumedCall(arm, 2, p, m, checkpoint), p, m)
  {
    var c1, c2, c3 := PlainCall(arm, 1, p, m), IncompleteCall(arm, 2, p, m), ResumedCall(arm, 2, p, m, checkpoint);
    PromotingCall(NEW_GROUP, 2, c1);
    var g1 := RunOne(NEW_GROUP, 2, c1).0;
    PromotingCall(g1, 2, c2);
    var g2 := RunOne(g1, 2, c2).0;
    PromotingCall(g2, 2, c3);
  }

  lemma RestoredSidecars(g: Group, arm: Arm, p: Path, m: Manifest, checkpoint: string)
    requires m.seed.None? && !m.seedSupported && p.InArtifacts? && checkpoint != ""
    requires IsRestored(g, PlainCall(arm, 1, p, m), IncompleteCall(arm, 2, p, m), ResumedCall(arm, 2, p, m, checkpoint), p, m)
    ensures SidecarsAccepted(g, 2)
  {
    var c1, c2, c3 := PlainCall(arm, 1, p, m), IncompleteCall(arm, 2, p, m), ResumedCall(arm, 2, p, m, checkpoint);
    var q1, q2, q3 := RequestOf(c1), RequestOf(c2), RequestOf(c3);
    assert g.bindings.Keys == {q1, q2, q3};
    assert SidecarAccepted(g, 2, q1);
    assert SidecarAccepted(g, 2, q2);
    assert SidecarAccepted(g, 2, q3);
  }

  lemma RestoredReceipts(g: Group, arm: Arm, p: Path, m: Manifest, checkpoint: string)
    requires m.seed.None? && !m.seedSupported && p.InArtifacts? && checkpoint != ""
    requires IsRestored(g, PlainCall(arm, 1, p, m), IncompleteCall(arm, 2, p, m), ResumedCall(arm, 2, p, m, checkpoint), p, m)
    ensures DistinctReceipts(g.bindings, g.bindings.Keys)
  {
  }

  lemma RestoredBound(g: Group, arm: Arm, p: Path, m: Manifest, checkpoint: string)
    requires m.seed.None? && !m.seedSupported && p.InArtifacts? && checkpoint != ""
    requires IsRestored(g, PlainCall(arm, 1, p, m), IncompleteCall(arm, 2, p, m), ResumedCall(arm, 2, p, m, checkpoint), p, m)
    ensures RawNamed(g) && CompletedBound(g) && BoundTo(g, Key(arm, 1)) == {RequestOf(PlainCall(arm, 1, p, m))}
  {
    var q1, q3 := RequestOf(PlainCall(arm, 1, p, m)), RequestOf(ResumedCall(arm, 2, p, m, checkpoint));
    assert q1 in g.bindings && g.bindings[q1].key == Key(arm, 1) && q3 in g.bindings && g.bindings[q3].key == Key(arm, 2);
  }

  lemma RestoredAccepted(g: Group, arm: Arm, p: Path, m: Manifest, checkpoint: string)
    requires m.seed.None? && !m.seedSupported && p.InArtifacts? && checkpoint != ""
    requires IsRestored(g, PlainCall(arm, 1, p, m), IncompleteCall(arm, 2, p, m), ResumedCall(arm, 2, p, m, checkpoint), p, m)
    ensures ExistingAccepted(g, 2, Key(arm, 1))
  {
    RestoredSidecars(g, arm, p, m, checkpoint);
    RestoredReceipts(g, arm, p, m, checkpoint);
    RestoredBound(g, arm, p, m, checkpoint);
  }

  lemma IncompleteAfterFirst(arm: Arm, p: Path, m: Manifest)
    requires m.seed.None? && !m.seedSupported && p.InArtifacts?
    ensures var g1, c2 := RunOne(NEW_GROUP, 2, PlainCall(arm, 1, p, m)).0, IncompleteCall(arm, 2, p, m);
      Promotes(g1, 2, c2)
  {
    PromotingCall(NEW_GROUP, 2, PlainCall(arm, 1, p, m));
  }

  /** The refusal of the other records can end again: after a completed resume of the incomplete repeat the first record
      is accepted as before, while the second stays refused. */
  lemma ResumeRestoresOthers(arm: Arm, name: string, m: Manifest, checkpoint: string)
    requires m.seed.None? && !m.seedSupported && checkpoint != ""
    ensures var p := InArtifacts(name);
      var g1 := RunOne(NEW_GROUP, 2, PlainCall(arm, 1, p, m)).0;
      var g2, g3 := RunOne(g1, 2, IncompleteCall(arm, 2, p, m)).0, Restored(arm, p, m, checkpoint);
      && ExistingAccepted(g1, 2, Key(arm, 1)) && !ExistingAccepted(g2, 2, Key(arm, 1)) && ExistingAccepted(g3, 2, Key(arm, 1))
      && !ExistingAccepted(g3, 2, Key(arm, 2))
  {
    var p := InArtifacts(name);
    var g1, c2, c3 := RunOne(NEW_GROUP, 2, PlainCall(arm, 1, p, m)).0, IncompleteCall(arm, 2, p, m), ResumedCall(arm, 2, p, m, checkpoint);
    var g2 := RunOne(g1, 2, c2).0;
    FirstAccepted(arm, p, m);
    IncompleteAfterFirst(arm, p, m);
    OrphanPoisonsGroup(g1, 2, c2, Key(arm, 1));
    IncompleteSpoils(g1, 2, c2);
    RunOneAdvances(g2, 2, c3);
    SpoiledStays(g2, RunOne(g2, 2, c3).0, c2.key);
    SpoiledRefused(RunOne(g2, 2, c3).0, 2, c2.key);
    RestoredGroup(arm, p, m, checkpoint);
    RestoredAccepted(Restored(arm, p, m, checkpoint), arm, p, m, checkpoint);
  }

  // ----- One arm -----

  /** All sidecars are of one arm, and every completed record has one under its key. */
  ghost predicate OneArm(g: Group) {
    (forall p, q :: p in g.bindings && q in g.bindings ==> g.bindings[p].key.arm == g.bindings[q].key.arm) && CompletedBound(g)
  }

  lemma FailureKeepsArm(g: Group, run: Run)
    requires OneArm(g) && !run.completed
    ensures OneArm(Recorded(g, run).0)
  {
    var h := Recorded(g, run).0;
    forall k | k in h.raw && h.raw[k].completed ensures exists q :: q in h.bindings && h.bindings[q].key == k {
      assert k in g.raw && g.raw[k].completed;
    }
  }

  lemma PromotionKeepsArm(g: Group, c: Call, r: Receipt)
    requires OneArm(g) && Unfinished(g, c.key) && Bindable(g.bindings, RequestOf(c), r)
    ensures OneArm(Promoted(g, c, r))
  {
    PromotedBound(g, c, r);
  }

  lemma LaunchKeepsArm(g: Group, c: Call)
    requires OneArm(g) && Unfinished(g, c.key)
    ensures OneArm(Launch(g, c).0)
  {
    var g1 := g.(artifacts := c.reply.artifacts);
    assert OneArm(g1);
    if c.reply.Launched? && c.reply.parsed.Some? && ReceiptAccepted(g1.artifacts, c, c.reply.parsed.value)
       && Bindable(g.bindings, RequestOf(c), c.reply.parsed.value) {
      if c.evaluatorAccepts {
        PromotionKeepsArm(g1, c, c.reply.parsed.value);
        assert Launch(g, c).0 == Promoted(g1, c, c.reply.parsed.value);
      } else {
        RejectedLaunch(g, c);
        var failure := FailureRun(c.key, c.pool, EvaluatorValidationFailed);
        FailureKeepsArm(g1, failure);
        assert Launch(g, c).0.raw == Recorded(g1, failure).0.raw;
      }
    } else {
      FailureKeepsArm(g1, FailureRun(c.key, c.pool, AgentLaunchFailed));
      FailureKeepsArm(g1, FailureRun(c.key, c.pool, AgentReceiptInvalid));
    }
  }

  lemma StageKeepsArm(g: Group, c: Call)
    requires OneArm(g) && Unfinished(g, c.key)
    ensures OneArm(Stage(g, c).0)
  {
    FailureKeepsArm(g, FailureRun(c.key, c.pool, AgentRequestStageFailed));
    LaunchKeepsArm(g.(requests := g.requests[(c.key, c.resume) := RequestOf(c)]), c);
  }

  lemma RunOneKeepsArm(g: Group, repeats: nat, c: Call)
    requires OneArm(g)
    ensures OneArm(RunOne(g, repeats, c).0)
  {
    if Unfinished(g, c.key) {
      FailureKeepsArm(g, FailureRun(c.key, c.pool, ResumeCheckpointInvalid));
      StageKeepsArm(g, c);
      if c.checkpoint.Some? { StageKeepsArm(g.(checkpoints := g.checkpoints[c.key := c.checkpoint.value]), c); }
    }
  }

  lemma {:induction false} RunAllKeepsArm(g: Group, repeats: nat, calls: seq<Call>)
    requires OneArm(g)
    ensures OneArm(RunAll(g, repeats, calls))
    decreases |calls|
  {
    if calls != [] {
      RunOneKeepsArm(g, repeats, calls[0]);
      RunAllKeepsArm(RunOne(g, repeats, calls[0]).0, repeats, calls[1..]);
    }
  }

  /** Because binding refuses sidecars of another arm, all completed records of an unseeded group are repeats of one arm,
      after any calls whatever. */
  lemma CompletedShareOneArm(repeats: nat, calls: seq<Call>, j: Key, k: Key)
    requires var g := RunAll(NEW_GROUP, repeats, calls); j in g.raw && g.raw[j].completed && k in g.raw && g.raw[k].completed
    ensures j.arm == k.arm
  {
    RunAllKeepsArm(NEW_GROUP, repeats, calls);
    var g := RunAll(NEW_GROUP, repeats, calls);
    var p, q :| p in g.bindings && q in g.bindings && g.bindings[p].key == j && g.bindings[q].key == k;
  }

  /** So, after any calls, a call for a second arm can only fail or raise, whatever its launcher and evaluator do. */
  lemma SecondArmNeverCompletes(repeats: nat, calls: seq<Call>, c: Call, k: Key)
    requires var g := RunAll(NEW_GROUP, repeats, calls); k in g.raw && g.raw[k].completed && c.key.arm != k.arm
    ensures var r := RunOne(RunAll(NEW_GROUP, repeats, calls), repeats, c); r.1.Returned? ==> !r.1.run.completed
  {
    RunAllKeepsArm(NEW_GROUP, repeats, calls);
  }

  // ----- Completed records stay -----

  lemma StagingImmutable(g: Group, c: Call, k: Key)
    requires k in g.raw && g.raw[k].completed
    ensures var h := Stage(g, c).0; k in h.raw && h.raw[k] == g.raw[k]
  {
  }

  /** A completed record is never changed, by any call in any group. */
  lemma CompletedImmutable(g: Group, repeats: nat, c: Call, k: Key)
    requires k in g.raw && g.raw[k].completed
    ensures var h := RunOne(g, repeats, c).0; k in h.raw && h.raw[k] == g.raw[k]
  {
    StagingImmutable(g, c, k);
    var failure := FailureRun(c.key, c.pool, ResumeCheckpointInvalid);
    if c.checkpoint.Some? { StagingImmutable(g.(checkpoints := g.checkpoints[c.key := c.checkpoint.value]), c, k); }
    var resumed := Resume(g, c).0;
    assert k in resumed.raw && resumed.raw[k] == g.raw[k];
    var h := RunOne(g, repeats, c).0;
    assert h == g || h == Recorded(g, failure).0 || h == resumed || h == Stage(g, c).0;
  }

  lemma {:induction false} CompletedForever(g: Group, repeats: nat, calls: seq<Call>, k: Key)
    requires k in g.raw && g.raw[k].completed
    ensures var h := RunAll(g, repeats, calls); k in h.raw && h.raw[k] == g.raw[k]
    decreases |calls|
  {
    if calls != [] {
      CompletedImmutable(g, repeats, calls[0], k);
      CompletedForever(RunOne(g, repeats, calls[0]).0, repeats, calls[1..], k);
    }
  }

  // ----- The runner over its directory -----

  /** A listing of the sidecar directory: every name once, in whatever order. */
  predicate Listing(names: seq<Request>, bindings: map<Request, Binding>) {
    && (forall q :: q in bindings ==> q in names)
    && (forall i :: 0 <= i < |names| ==> names[i] in bindings) && NoDuplicates(names)
  }

  function ReceiptsOf(bindings: map<Request, Binding>, names: set<Request>): set<Receipt>
    requires names <= bindings.Keys
  {
    set q | q in names :: bindings[q].receipt
  }

  function OwnersOf(bindings: map<Request, Binding>, names: set<Request>): set<Key>
    requires names <= bindings.Keys
  {
    set q | q in names :: bindings[q].key
  }

  /** The sidecars listed before position i. */
  ghost predicate SeenSoFar(names: seq<Request>, i: nat, seen: set<Request>)
    requires i <= |names|
  {
    forall q :: q in seen <==> q in names[..i]
  }

  lemma SeeNext(names: seq<Request>, i: nat, seen: set<Request>)
    requires i < |names| && SeenSoFar(names, i, seen)
    ensures SeenSoFar(names, i + 1, seen + {names[i]})
  {
    assert names[..i + 1] == names[..i] + [names[i]];
  }

  lemma SeenAll(names: seq<Request>, bindings: map<Request, Binding>, seen: set<Request>)
    requires Listing(names, bindings) && SeenSoFar(names, |names|, seen)
    ensures seen == bindings.Keys
  {
    assert names[..|names|] == names;
  }

  /** What the validator's pass knows of the sidecars it has seen. */
  ghost predicate Checked(g: Group, repeats: nat, key: Key, seen: set<Request>, receipts: set<Receipt>, owners: set<Key>,
                          matches: set<Request>)
  {
    && seen <= g.bindings.Keys
    && (forall q :: q in seen ==> SidecarAccepted(g, repeats, q))
    && DistinctReceipts(g.bindings, seen)
    && receipts == ReceiptsOf(g.bindings, seen) && owners == OwnersOf(g.bindings, seen)
    && matches == set q | q in seen && g.bindings[q].key == key
  }

  lemma CheckNext(g: Group, repeats: nat, key: Key, seen: set<Request>, receipts: set<Receipt>, owners: set<Key>,
                  matches: set<Request>, q: Request)
    requires Checked(g, repeats, key, seen, receipts, owners, matches)
    requires q in g.bindings && SidecarAccepted(g, repeats, q) && g.bindings[q].receipt !in receipts
    ensures Checked(g, repeats, key, seen + {q}, receipts + {g.bindings[q].receipt}, owners + {g.bindings[q].key},
      if g.bindings[q].key == key then matches + {q} else matches)
  {
    var more := seen + {q};
    assert ReceiptsOf(g.bindings, more) == receipts + {g.bindings[q].receipt};
    assert OwnersOf(g.bindings, more) == owners + {g.bindings[q].key};
  }

  class Runner {
    var raw: map<Key, Run>
    var requests: map<(Key, bool), Request>
    var checkpoints: map<Key, string>
    var bindings: map<Request, Binding>
    var artifacts: map<Path, Manifest>

    constructor ()
      ensures Directory() == NEW_GROUP
    {
      raw, requests, checkpoints, bindings, artifacts := map[], map[], map[], map[], map[];
    }

    function Directory(): Group
      reads this
    {
      Group(raw, requests, checkpoints, bindings, artifacts)
    }

    /** Add a sidecar unless the listed ones forbid it. */
    method Bind(names: seq<Request>, request: Request, r: Receipt) returns (ok: bool)
      requires Listing(names, bindings)
      modifies `bindings
      ensures ok <==> Bindable(old(bindings), request, r)
      ensures bindings == if ok then old(bindings)[request := BindingFor(request, r)] else old(bindings)
    {
      for i := 0 to |names|
        invariant forall j :: 0 <= j < i ==>
          bindings[names[j]].key.arm == request.key.arm && bindings[names[j]].receipt != r
      {
        var existing := bindings[names[i]];
        if existing.key.arm != request.key.arm { return false; }
        if existing.receipt == r { return false; }
      }
      if request in bindings { return false; }
      bindings := bindings[request := BindingFor(request, r)];
      return true;
    }

    /** Retire the sidecar of a rejected attempt. */
    method RemoveBinding(request: Request, r: Receipt) returns (ok: bool)
      modifies `bindings
      ensures ok <==> (request in old(bindings) ==> old(bindings)[request].request == request && old(bindings)[request].receipt == r)
      ensures bindings == if ok then old(bindings) - {request} else old(bindings)
    {
      if request !in bindings { return true; }
      if bindings[request].request != request || bindings[request].receipt != r { return false; }
      bindings := bindings - {request};
      return true;
    }

    /** Write the raw record, replacing a failed one and refusing to overwrite a completed one. */
    method Record(run: Run) returns (outcome: Outcome)
      modifies `raw
      ensures (Directory(), outcome) == Recorded(old(Directory()), run)
      ensures outcome.Raised? <==> run.key in old(raw) && old(raw)[run.key].completed
      ensures outcome.Returned? ==> run.key in raw && outcome.run == raw[run.key] == run
      ensures forall k :: k in old(raw) && (k != run.key || old(raw)[k].completed) ==> k in raw && raw[k] == old(raw)[k]
    {
      if run.key in raw {
        if raw[run.key].completed { return Raised; }
        raw := raw - {run.key};
        assert raw[run.key := run] == old(raw)[run.key := run];
      }
      raw := raw[run.key := run];
      return Returned(run);
    }

    /** The pass over the sidecars: check each, refuse a repeated receipt, collect the owners and the key's own sidecars. */
    method ScanSidecars(names: seq<Request>, repeats: nat, key: Key) returns (ok: bool, owners: set<Key>, matches: set<Request>)
      requires Listing(names, bindings)
      ensures ok <==> SidecarsAccepted(Directory(), repeats) && DistinctReceipts(bindings, bindings.Keys)
      ensures ok ==> owners == OwnersOf(bindings, bindings.Keys) && matches == BoundTo(Directory(), key)
    {
      owners, matches := {}, {};
      var receipts: set<Receipt> := {};
      ghost var seen: set<Request> := {};
      for i := 0 to |names|
        invariant SeenSoFar(names, i, seen)
        invariant Checked(Directory(), repeats, key, seen, receipts, owners, matches)
      {
        var q := names[i];
        if !SidecarAccepted(Directory(), repeats, q) { return false, owners, matches; }
        if bindings[q].receipt in receipts {
          return false, owners, matches;
        }
        SeeNext(names, i, seen);
        CheckNext(Directory(), repeats, key, seen, receipts, owners, matches, q);
        receipts := receipts + {bindings[q].receipt};
        owners := owners + {bindings[q].key};
        if bindings[q].key == key { matches := matches + {q}; }
        seen := seen + {q};
      }
      SeenAll(names, bindings, seen);
      return true, owners, matches;
    }

    /** The reuse validator. */
    method ValidateExisting(names: seq<Request>, repeats: nat, key: Key) returns (ok: bool)
      requires Listing(names, bindings)
      ensures ok <==> ExistingAccepted(Directory(), repeats, key)
    {
      if !RawNamed(Directory()) { return false; }
      var scanned, owners, matches := ScanSidecars(names, repeats, key);
      if !scanned { return false; }
      if exists k :: k in raw && raw[k].completed && k !in owners { return false; }
      return |matches| == 1;
    }

    /** One call, as the runner performs it on its directory. */
    method Execute(names: seq<Request>, repeats: nat, c: Call) returns (outcome: Outcome)
      requires Listing(names, bindings)
      modifies this
      ensures (Directory(), outcome) == RunOne(old(Directory()), repeats, c)
    {
      if !(1 <= c.key.repeatId <= repeats) { return Raised; }
      if c.key in raw {
        var existing := raw[c.key];
        if existing.key != c.key { return Raised; }
        if existing.completed {
          var ok := ValidateExisting(names, repeats, c.key);
          return if ok then Returned(existing) else Raised;
        }
        if !c.resume { return Raised; }
        if c.checkpoint.None? || !c.checkpointGenuine || !Writable(checkpoints, c.key, c.checkpoint.value) {
          outcome := Record(FailureRun(c.key, c.pool, ResumeCheckpointInvalid));
          return;
        }
        checkpoints := checkpoints[c.key := c.checkpoint.value];
      } else if c.resume {
        outcome := Record(FailureRun(c.key, c.pool, ResumeCheckpointInvalid));
        return;
      }
      var request := RequestOf(c);
      if !c.stages || !Writable(requests, (c.key, c.resume), request) {
        outcome := Record(FailureRun(c.key, c.pool, AgentRequestStageFailed));
        return;
      }
      requests := requests[(c.key, c.resume) := request];
      outcome := LaunchAndRecord(names, c);
    }

    /** From the staged request on. */
    method LaunchAndRecord(names: seq<Request>, c: Call) returns (outcome: Outcome)
      requires Listing(names, bindings)
      modifies `raw, `bindings, `artifacts
      ensures (Directory(), outcome) == Launch(old(Directory()), c)
    {
      var request := RequestOf(c);
      artifacts := c.reply.artifacts;
      match c.reply {
        case LaunchFailed(_) =>
          outcome := Record(FailureRun(c.key, c.pool, AgentLaunchFailed));
        case Launched(parsed, _) =>
          var bound := false;
          if parsed.Some? && ReceiptAccepted(artifacts, c, parsed.value) {
            bound := Bind(names, request, parsed.value);
          }
          if !bound {
            outcome := Record(FailureRun(c.key, c.pool, AgentReceiptInvalid));
          } else if c.evaluatorAccepts {
            outcome := Record(RunFrom(c.key, c.pool, parsed.value));
          } else {
            var removed := RemoveBinding(request, parsed.value);
            assert removed;
            outcome := Record(FailureRun(c.key, c.pool, EvaluatorValidationFailed));
          }
      }
    }
  }
}
