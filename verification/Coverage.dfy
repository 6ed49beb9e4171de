/** Whether a summary's runs are exactly the sealed experiment: every protocol's tasks, variants, budgets and
    replications, and the extra budgets of the cost subset. */
module Coverage {
  import opened Options
  import opened Sorting
  import opened Sequences

  /** What tells one replication from another. */
  datatype Unit = Seed(value: int) | Repeat(id: int)

  datatype Replication = Seeds(supported: bool, values: seq<int>) | Repeats(supported: bool, ids: seq<int>) | Unknown

  /** Names as they occur in the metadata: the known ones, or any other. */
  datatype Protocol = RankerComponent | PlannerPolicy | EndToEnd | Reference | OtherProtocol(name: string)
  datatype Variant = R0 | R1 | R2 | A | B | C | D | P0 | OtherVariant(name: string)
  datatype Budget = Low | Medium | High | OtherBudget(name: string)

  datatype Metadata = Metadata(
    groupId: string, protocols: seq<Protocol>, tasks: map<Protocol, seq<string>>, variants: map<Protocol, seq<Variant>>,
    required: map<Protocol, seq<Budget>>, budgets: seq<Budget>, costSubset: seq<string>, replication: Replication)

  datatype Run = Run(protocol: Protocol, variant: Variant, task: string, budget: Budget, seed: Option<int>, repeatId: Option<int>)

  datatype Identity = Identity(protocol: Protocol, variant: Variant, task: string, budget: Budget, unit: Unit)

  const PROTOCOLS: seq<Protocol> := [RankerComponent, PlannerPolicy, EndToEnd, Reference]

  function SealedVariants(protocol: Protocol): seq<Variant> {
    match protocol
    case RankerComponent => [R0, R1, R2]
    case Reference => [P0]
    case _ => [A, B, C, D]
  }

  // ----- The metadata -----

  /** A list of nonempty strings with at least one entry. */
  predicate Names(s: seq<string>) {
    s != [] && forall i :: 0 <= i < |s| ==> s[i] != ""
  }

  predicate Within<T(==)>(s: seq<T>, all: seq<T>) {
    forall i :: 0 <= i < |s| ==> s[i] in all
  }

  predicate ProtocolSealed(m: Metadata, p: Protocol)
    requires p in m.tasks && p in m.variants && p in m.required
  {
    && Names(m.tasks[p]) && m.required[p] != []
    && NoDuplicates(m.tasks[p]) && NoDuplicates(m.variants[p]) && Within(m.required[p], m.budgets)
    && m.variants[p] == SealedVariants(p)
  }

  predicate ReplicationSealed(r: Replication) {
    match r
    case Seeds(supported, values) => supported && values != [] && NoDuplicates(values)
    case Repeats(supported, ids) => !supported && ids != [] && NoDuplicates(ids) && forall i :: 0 <= i < |ids| ==> ids[i] >= 1
    case Unknown => false
  }

  /** The tables have the same protocols, the known ones among them. */
  predicate Tabled(m: Metadata) {
    && (forall i :: 0 <= i < |PROTOCOLS| ==> PROTOCOLS[i] in m.tasks)
    && m.variants.Keys == m.tasks.Keys && m.required.Keys == m.tasks.Keys
  }

  predicate WellFormed(m: Metadata) {
    && m.protocols == PROTOCOLS
    && Tabled(m) && m.tasks.Keys == Elements(PROTOCOLS)
    && m.budgets != [] && NoDuplicates(m.budgets) && Within(m.budgets, [Low, Medium, High])
    && (forall p :: p in m.tasks ==> ProtocolSealed(m, p))
    && Names(m.costSubset) && NoDuplicates(m.costSubset) && EndToEnd in m.tasks && Within(m.costSubset, m.tasks[EndToEnd])
    && ReplicationSealed(m.replication)
    && m.groupId != ""
  }

  function Units(r: Replication): set<Unit> {
    match r
    case Seeds(_, values) => set v | v in values :: Seed(v)
    case Repeats(_, ids) => set i | i in ids :: Repeat(i)
    case Unknown => {}
  }

  // ----- The runs -----

  function UnitOf(run: Run): Option<Unit> {
    if run.seed.Some? then Some(Seed(run.seed.value))
    else if run.repeatId.Some? then Some(Repeat(run.repeatId.value))
    else None
  }

  function IdentityOf(run: Run): Identity
    requires UnitOf(run).Some?
  {
    Identity(run.protocol, run.variant, run.task, run.budget, UnitOf(run).value)
  }

  /** The checks that a run passes one after the other. */
  predicate RunCovered(m: Metadata, run: Run)
    requires Tabled(m)
  {
    && run.protocol in PROTOCOLS
    && run.task in m.tasks[run.protocol] && run.variant in m.variants[run.protocol] && run.budget in m.budgets
    && (run.budget in m.required[run.protocol]
        || (run.protocol == EndToEnd && run.variant == D && run.task in m.costSubset))
    && UnitOf(run).Some? && UnitOf(run).value in Units(m.replication)
  }

  // ----- The sealed product -----

  /** Everything the protocol requires. */
  function ProtocolProduct(p: Protocol, tasks: set<string>, variants: set<Variant>, budgets: set<Budget>, units: set<Unit>)
    : set<Identity>
  {
    set t, v, b, u | t in tasks && v in variants && b in budgets && u in units :: Identity(p, v, t, b, u)
  }

  function Required(m: Metadata, p: Protocol): set<Identity>
    requires p in m.tasks && p in m.variants && p in m.required
  {
    ProtocolProduct(p, Elements(m.tasks[p]), Elements(m.variants[p]), Elements(m.required[p]), Units(m.replication))
  }

  /** The budgets beyond the required ones, of the cost subset under variant D. */
  function ExtraBudgets(m: Metadata): set<Budget>
    requires EndToEnd in m.required
  {
    Elements(m.budgets) - Elements(m.required[EndToEnd])
  }

  function Sensitivity(m: Metadata): set<Identity>
    requires EndToEnd in m.required
  {
    ProtocolProduct(EndToEnd, Elements(m.costSubset), {D}, ExtraBudgets(m), Units(m.replication))
  }

  function Sealed(m: Metadata): set<Identity>
    requires WellFormed(m)
  {
    Required(m, RankerComponent) + Required(m, PlannerPolicy) + Required(m, EndToEnd) + Required(m, Reference)
    + Sensitivity(m)
  }

  // ----- The check itself -----

  /** All replications of one task, variant and budget are present. */
  predicate UnitsPresent(identities: set<Identity>, p: Protocol, v: Variant, t: string, b: Budget, units: set<Unit>) {
    forall u :: u in units ==> Identity(p, v, t, b, u) in identities
  }

  method CheckUnits(identities: set<Identity>, p: Protocol, v: Variant, t: string, b: Budget, units: set<Unit>) returns (ok: bool)
    ensures ok <==> UnitsPresent(identities, p, v, t, b, units)
  {
    var left := units;
    while left != {}
      invariant left <= units && forall u :: u in units && u !in left ==> Identity(p, v, t, b, u) in identities
      decreases |left|
    {
      var u :| u in left;
      if Identity(p, v, t, b, u) !in identities { return false; }
      left := left - {u};
    }
    return true;
  }

  predicate CellsPresent(identities: set<Identity>, p: Protocol, t: string, variants: seq<Variant>, budgets: seq<Budget>,
                         units: set<Unit>)
  {
    forall v, b :: v in variants && b in budgets ==> UnitsPresent(identities, p, v, t, b, units)
  }

  method CheckTask(identities: set<Identity>, p: Protocol, t: string, variants: seq<Variant>, budgets: seq<Budget>, units: set<Unit>)
    returns (ok: bool)
    ensures ok <==> CellsPresent(identities, p, t, variants, budgets, units)
  {
    for i := 0 to |variants|
      invariant CellsPresent(identities, p, t, variants[..i], budgets, units)
    {
      for j := 0 to |budgets|
        invariant forall b :: b in budgets[..j] ==> UnitsPresent(identities, p, variants[i], t, b, units)
      {
        ok := CheckUnits(identities, p, variants[i], t, budgets[j], units);
        if !ok { return; }
        assert budgets[..j + 1] == budgets[..j] + [budgets[j]];
      }
      assert budgets[..|budgets|] == budgets && variants[..i + 1] == variants[..i] + [variants[i]];
    }
    assert variants[..|variants|] == variants;
    return true;
  }

  lemma RequiredCells(m: Metadata, identities: set<Identity>, p: Protocol)
    requires p in m.tasks && p in m.variants && p in m.required
    ensures Required(m, p) <= identities <==>
      forall t :: t in m.tasks[p] ==> CellsPresent(identities, p, t, m.variants[p], m.required[p], Units(m.replication))
  {
    if Required(m, p) <= identities {
      forall t, v, b, u | t in m.tasks[p] && v in m.variants[p] && b in m.required[p] && u in Units(m.replication)
        ensures Identity(p, v, t, b, u) in identities
      {
        assert Identity(p, v, t, b, u) in Required(m, p);
      }
    }
  }

  method CheckProtocol(m: Metadata, identities: set<Identity>, p: Protocol) returns (ok: bool)
    requires p in m.tasks && p in m.variants && p in m.required
    ensures ok <==> Required(m, p) <= identities
  {
    RequiredCells(m, identities, p);
    for i := 0 to |m.tasks[p]|
      invariant forall t :: t in m.tasks[p][..i] ==>
        CellsPresent(identities, p, t, m.variants[p], m.required[p], Units(m.replication))
    {
      ok := CheckTask(identities, p, m.tasks[p][i], m.variants[p], m.required[p], Units(m.replication));
      if !ok { return; }
    }
    return true;
  }

  lemma SensitivityCells(m: Metadata, identities: set<Identity>)
    requires EndToEnd in m.required
    ensures Sensitivity(m) <= identities <==>
      forall t, b :: t in m.costSubset && b in ExtraBudgets(m) ==> UnitsPresent(identities, EndToEnd, D, t, b, Units(m.replication))
  {
    if Sensitivity(m) <= identities {
      forall t, b, u | t in m.costSubset && b in ExtraBudgets(m) && u in Units(m.replication)
        ensures Identity(EndToEnd, D, t, b, u) in identities
      {
        assert Identity(EndToEnd, D, t, b, u) in Sensitivity(m);
      }
    }
  }

  method CheckSensitivity(m: Metadata, identities: set<Identity>) returns (ok: bool)
    requires EndToEnd in m.required
    ensures ok <==> Sensitivity(m) <= identities
  {
    SensitivityCells(m, identities);
    var units := Units(m.replication);
    for i := 0 to |m.costSubset|
      invariant forall t, b :: t in m.costSubset[..i] && b in ExtraBudgets(m) ==> UnitsPresent(identities, EndToEnd, D, t, b, units)
    {
      for j := 0 to |m.budgets|
        invariant forall b :: b in m.budgets[..j] && b in ExtraBudgets(m) ==>
          UnitsPresent(identities, EndToEnd, D, m.costSubset[i], b, units)
      {
        if m.budgets[j] in m.required[EndToEnd] { continue; }
        ok := CheckUnits(identities, EndToEnd, D, m.costSubset[i], m.budgets[j], units);
        if !ok { return; }
      }
    }
    return true;
  }

  predicate Identified(runs: seq<Run>) {
    forall i :: 0 <= i < |runs| ==> UnitOf(runs[i]).Some?
  }

  predicate DistinctRuns(runs: seq<Run>)
    requires Identified(runs)
  {
    forall i, j :: 0 <= i < j < |runs| ==> IdentityOf(runs[i]) != IdentityOf(runs[j])
  }

  function Identities(runs: seq<Run>): set<Identity>
    requires Identified(runs)
  {
    set i | 0 <= i < |runs| :: IdentityOf(runs[i])
  }

  predicate EachCovered(m: Metadata, runs: seq<Run>)
    requires Tabled(m)
  {
    forall i :: 0 <= i < |runs| ==> RunCovered(m, runs[i])
  }

  /** The runs pass the checks one by one and no identity repeats. */
  predicate RunsCovered(m: Metadata, runs: seq<Run>)
    requires Tabled(m)
  {
    EachCovered(m, runs) && DistinctRuns(runs)
  }

  /** What the pass over the runs has collected. */
  ghost predicate Collected(seen: seq<Run>, identities: set<Identity>) {
    Identified(seen) && DistinctRuns(seen) && identities == Identities(seen) && |identities| == |seen|
  }

  lemma AnotherRun(seen: seq<Run>, run: Run, identities: set<Identity>)
    requires Collected(seen, identities) && UnitOf(run).Some? && IdentityOf(run) !in identities
    ensures Collected(seen + [run], identities + {IdentityOf(run)})
  {
    var more := seen + [run];
    forall j, k | 0 <= j < k < |more| ensures IdentityOf(more[j]) != IdentityOf(more[k]) {
      assert IdentityOf(seen[j]) in Identities(seen);
    }
    IdentitiesGrow(seen, run);
  }

  lemma NextRun(runs: seq<Run>, i: nat, identities: set<Identity>)
    requires i < |runs| && Collected(runs[..i], identities) && UnitOf(runs[i]).Some?
    ensures IdentityOf(runs[i]) !in identities ==> Collected(runs[..i + 1], identities + {IdentityOf(runs[i])})
    ensures IdentityOf(runs[i]) in identities ==> !(Identified(runs) && DistinctRuns(runs))
  {
    if IdentityOf(runs[i]) in identities {
      var j :| 0 <= j < i && IdentityOf(runs[..i][j]) == IdentityOf(runs[i]);
      assert runs[..i][j] == runs[j];
    } else {
      AnotherRun(runs[..i], runs[i], identities);
      assert runs[..i + 1] == runs[..i] + [runs[i]];
    }
  }

  lemma NextCovered(m: Metadata, runs: seq<Run>, i: nat)
    requires Tabled(m) && i < |runs| && EachCovered(m, runs[..i])
    ensures RunCovered(m, runs[i]) ==> EachCovered(m, runs[..i + 1])
    ensures !RunCovered(m, runs[i]) ==> !EachCovered(m, runs)
  {
    assert runs[..i + 1] == runs[..i] + [runs[i]];
  }

  /** The pass over the runs: check each and refuse a repeated identity. */
  method CollectIdentities(m: Metadata, runs: seq<Run>) returns (ok: bool, identities: set<Identity>)
    requires Tabled(m)
    ensures ok <==> RunsCovered(m, runs)
    ensures ok ==> identities == Identities(runs) && |identities| == |runs|
  {
    identities := {};
    for i := 0 to |runs|
      invariant EachCovered(m, runs[..i]) && Collected(runs[..i], identities)
    {
      NextCovered(m, runs, i);
      if !RunCovered(m, runs[i]) { return false, identities; }
      NextRun(runs, i, identities);
      if IdentityOf(runs[i]) in identities { return false, identities; }
      identities := identities + {IdentityOf(runs[i])};
    }
    return true, identities;
  }

  lemma IdentitiesGrow(seen: seq<Run>, run: Run)
    requires Identified(seen) && UnitOf(run).Some?
    ensures Identities(seen + [run]) == Identities(seen) + {IdentityOf(run)}
  {
    var more := seen + [run];
    assert more[|seen|] == run;
    forall x | x in Identities(seen) ensures x in Identities(more) {
      var j :| 0 <= j < |seen| && IdentityOf(seen[j]) == x;
      assert more[j] == seen[j];
    }
  }

  /** The runs have distinct identities, and together these are the sealed product. */
  predicate Covers(m: Metadata, runs: seq<Run>)
    requires WellFormed(m)
  {
    Identified(runs) && DistinctRuns(runs) && Identities(runs) == Sealed(m)
  }

  predicate InPart(m: Metadata, x: Identity, p: Protocol)
    requires p in m.tasks && p in m.variants && p in m.required && EndToEnd in m.required
  {
    x in Required(m, p) || (p == EndToEnd && x in Sensitivity(m))
  }

  lemma SealedParts(m: Metadata, x: Identity)
    requires WellFormed(m)
    ensures x in Sealed(m) <==> x.protocol in PROTOCOLS && InPart(m, x, x.protocol)
  {
    SealedMembers(m, x);
    PartProtocol(m, x, RankerComponent);
    PartProtocol(m, x, PlannerPolicy);
    PartProtocol(m, x, EndToEnd);
    PartProtocol(m, x, Reference);
  }

  lemma SealedMembers(m: Metadata, x: Identity)
    requires WellFormed(m)
    ensures x in Sealed(m) <==>
      InPart(m, x, RankerComponent) || InPart(m, x, PlannerPolicy) || InPart(m, x, EndToEnd) || InPart(m, x, Reference)
  {
  }

  lemma PartProtocol(m: Metadata, x: Identity, p: Protocol)
    requires WellFormed(m) && p in PROTOCOLS
    ensures InPart(m, x, p) ==> x.protocol == p
  {
  }

  /** A run passes its checks exactly when its identity is in the sealed product. */
  lemma RunCoveredIsSealed(m: Metadata, run: Run)
    requires WellFormed(m)
    ensures RunCovered(m, run) <==> UnitOf(run).Some? && IdentityOf(run) in Sealed(m)
  {
    if UnitOf(run).Some? {
      SealedParts(m, IdentityOf(run));
    }
  }

  /** All identities of the sealed product are present when those of each protocol and the sensitivity runs are. */
  predicate AllPresent(m: Metadata, identities: set<Identity>)
    requires WellFormed(m)
  {
    (forall i :: 0 <= i < |PROTOCOLS| ==> Required(m, PROTOCOLS[i]) <= identities) && Sensitivity(m) <= identities
  }

  lemma AllPresentIsSealed(m: Metadata, identities: set<Identity>)
    requires WellFormed(m)
    ensures AllPresent(m, identities) <==> Sealed(m) <= identities
  {
    assert PROTOCOLS[0] == RankerComponent && PROTOCOLS[1] == PlannerPolicy && PROTOCOLS[2] == EndToEnd && PROTOCOLS[3] == Reference;
  }

  /** The passes together decide whether the runs are the sealed product. */
  lemma PassesDecide(m: Metadata, runs: seq<Run>)
    requires WellFormed(m)
    ensures RunsCovered(m, runs) && AllPresent(m, Identities(runs)) <==> Covers(m, runs)
  {
    forall i | 0 <= i < |runs| ensures RunCovered(m, runs[i]) <==> UnitOf(runs[i]).Some? && IdentityOf(runs[i]) in Sealed(m) {
      RunCoveredIsSealed(m, runs[i]);
    }
    if RunsCovered(m, runs) {
      AllPresentIsSealed(m, Identities(runs));
      assert Identities(runs) <= Sealed(m);
    }
    if Covers(m, runs) {
      AllPresentIsSealed(m, Identities(runs));
      forall i | 0 <= i < |runs| ensures RunCovered(m, runs[i]) {
        assert IdentityOf(runs[i]) in Identities(runs);
      }
    }
  }

  /** Validate the coverage: it is accepted exactly when the metadata is well formed and the runs are the sealed product,
      each member once. */
  method ValidateCoverage(m: Metadata, runs: seq<Run>) returns (ok: bool)
    ensures ok <==> WellFormed(m) && Covers(m, runs)
  {
    if !WellFormed(m) { return false; }
    PassesDecide(m, runs);
    var collected, identities := CollectIdentities(m, runs);
    if !collected { return false; }
    ok := CheckPresence(m, identities);
  }

  method CheckPresence(m: Metadata, identities: set<Identity>) returns (ok: bool)
    requires WellFormed(m)
    ensures ok <==> AllPresent(m, identities)
  {
    for i := 0 to |PROTOCOLS|
      invariant forall j :: 0 <= j < i ==> Required(m, PROTOCOLS[j]) <= identities
    {
      ok := CheckProtocol(m, identities, PROTOCOLS[i]);
      if !ok { return; }
    }
    ok := CheckSensitivity(m, identities);
  }

  // ----- How many runs that is -----

  function Cross<S, T>(a: set<S>, b: set<T>): set<(S, T)> {
    set x, y | x in a && y in b :: (x, y)
  }

  lemma {:induction false} CrossSize<S, T>(a: set<S>, b: set<T>)
    ensures |Cross(a, b)| == |a| * |b|
    decreases |a|
  {
    if a == {} {
      assert Cross(a, b) == {};
    } else {
      var x :| x in a;
      var rest := a - {x};
      CrossSize(rest, b);
      RowSize(x, b);
      CrossSplit(a, b, x);
      assert |a| * |b| == |rest| * |b| + |b|;
    }
  }

  lemma CrossSplit<S, T>(a: set<S>, b: set<T>, x: S)
    requires x in a
    ensures |Cross(a, b)| == |Cross(a - {x}, b)| + |Cross({x}, b)|
  {
    assert Cross(a, b) == Cross(a - {x}, b) + Cross({x}, b);
    assert Cross(a - {x}, b) !! Cross({x}, b);
  }

  lemma {:induction false} RowSize<S, T>(x: S, b: set<T>)
    ensures |Cross({x}, b)| == |b|
    decreases |b|
  {
    if b == {} {
      assert Cross({x}, b) == {};
    } else {
      var y :| y in b;
      RowSize(x, b - {y});
      assert Cross({x}, b) == Cross({x}, b - {y}) + {(x, y)};
    }
  }

  type Cell = ((string, Variant), (Budget, Unit))

  function CellIdentity(p: Protocol, c: Cell): Identity {
    Identity(p, c.0.1, c.0.0, c.1.0, c.1.1)
  }

  lemma {:induction false} CellIdentitiesSize(p: Protocol, cells: set<Cell>)
    ensures |set c | c in cells :: CellIdentity(p, c)| == |cells|
    decreases |cells|
  {
    var image := set c | c in cells :: CellIdentity(p, c);
    if cells == {} {
      assert image == {};
    } else {
      var c :| c in cells;
      var rest := cells - {c};
      CellIdentitiesSize(p, rest);
      var restImage := set d | d in rest :: CellIdentity(p, d);
      assert image == restImage + {CellIdentity(p, c)};
      assert CellIdentity(p, c) !in restImage;
    }
  }

  lemma ProductSize(p: Protocol, tasks: set<string>, variants: set<Variant>, budgets: set<Budget>, units: set<Unit>)
    ensures |ProtocolProduct(p, tasks, variants, budgets, units)| == (|tasks| * |variants|) * (|budgets| * |units|)
  {
    var cells: set<Cell> := Cross(Cross(tasks, variants), Cross(budgets, units));
    var image := set c | c in cells :: CellIdentity(p, c);
    CrossSize(tasks, variants);
    CrossSize(budgets, units);
    CrossSize(Cross(tasks, variants), Cross(budgets, units));
    CellIdentitiesSize(p, cells);
    forall x | x in ProtocolProduct(p, tasks, variants, budgets, units) ensures x in image {
      assert ((x.task, x.variant), (x.budget, x.unit)) in cells;
      assert x == CellIdentity(p, ((x.task, x.variant), (x.budget, x.unit)));
    }
    assert ProtocolProduct(p, tasks, variants, budgets, units) == image;
  }

  /** The number of distinct elements of a list. */
  function DistinctCount<T(==)>(s: seq<T>): nat {
    |Elements(s)|
  }

  /** Replications listed in the metadata. */
  function UnitCount(r: Replication): nat {
    match r
    case Seeds(_, values) => |values|
    case Repeats(_, ids) => |ids|
    case Unknown => 0
  }

  lemma {:induction false} UnitsSize(values: seq<int>)
    requires NoDuplicates(values)
    ensures |set v | v in values :: Seed(v)| == |values| && |set v | v in values :: Repeat(v)| == |values|
  {
    var seeds, repeats := set v | v in values :: Seed(v), set v | v in values :: Repeat(v);
    if values == [] {
      assert seeds == {} && repeats == {};
    } else {
      UnitsSize(values[1..]);
      assert seeds == (set v | v in values[1..] :: Seed(v)) + {Seed(values[0])};
      assert repeats == (set v | v in values[1..] :: Repeat(v)) + {Repeat(values[0])};
    }
  }

  /** Required runs of one protocol; its budgets may be listed more than once, its tasks and variants may not. */
  function RequiredCount(m: Metadata, p: Protocol): nat
    requires p in m.tasks && p in m.variants && p in m.required
  {
    (|m.tasks[p]| * |m.variants[p]|) * (DistinctCount(m.required[p]) * UnitCount(m.replication))
  }

  /** Sensitivity runs: the cost subset's tasks under the budgets beyond the required ones. */
  function SensitivityCount(m: Metadata): int
    requires EndToEnd in m.required
  {
    |m.costSubset| * ((|m.budgets| - DistinctCount(m.required[EndToEnd])) * UnitCount(m.replication))
  }

  function SealedCount(m: Metadata): int
    requires WellFormed(m)
  {
    RequiredCount(m, RankerComponent) + RequiredCount(m, PlannerPolicy) + RequiredCount(m, EndToEnd) + RequiredCount(m, Reference)
    + SensitivityCount(m)
  }

  lemma RequiredSize(m: Metadata, p: Protocol)
    requires WellFormed(m) && p in m.tasks
    ensures |Required(m, p)| == RequiredCount(m, p)
  {
    assert ProtocolSealed(m, p);
    ProductSize(p, Elements(m.tasks[p]), Elements(m.variants[p]), Elements(m.required[p]), Units(m.replication));
    ElementsSize(m.tasks[p]);
    ElementsSize(m.variants[p]);
    ReplicationSize(m.replication);
  }

  lemma ReplicationSize(r: Replication)
    requires ReplicationSealed(r)
    ensures |Units(r)| == UnitCount(r)
  {
    match r {
      case Seeds(_, values) => UnitsSize(values);
      case Repeats(_, ids) => UnitsSize(ids);
    }
  }

  lemma ExtraSize(m: Metadata)
    requires EndToEnd in m.required && NoDuplicates(m.budgets) && Within(m.required[EndToEnd], m.budgets)
    ensures |ExtraBudgets(m)| == |m.budgets| - DistinctCount(m.required[EndToEnd])
  {
    ElementsSize(m.budgets);
    assert Elements(m.required[EndToEnd]) <= Elements(m.budgets);
  }

  lemma SensitivityProduct(m: Metadata)
    requires EndToEnd in m.required && NoDuplicates(m.budgets) && Within(m.required[EndToEnd], m.budgets)
    requires NoDuplicates(m.costSubset) && ReplicationSealed(m.replication)
    ensures |Sensitivity(m)| == SensitivityCount(m)
  {
    ExtraSize(m);
    ElementsSize(m.costSubset);
    ReplicationSize(m.replication);
    var tasks := Elements(m.costSubset);
    ProductSize(EndToEnd, tasks, {D}, ExtraBudgets(m), Units(m.replication));
    assert |tasks| * |{D}| == |tasks|;
  }

  lemma SensitivitySize(m: Metadata)
    requires WellFormed(m)
    ensures |Sensitivity(m)| == SensitivityCount(m)
  {
    assert ProtocolSealed(m, EndToEnd);
    SensitivityProduct(m);
  }

  lemma IdentitiesSize(runs: seq<Run>)
    requires Identified(runs) && DistinctRuns(runs)
    ensures |Identities(runs)| == |runs|
  {
    var keys := seq(|runs|, i requires 0 <= i < |runs| => IdentityOf(runs[i]));
    ElementsSize(keys);
    assert forall i :: 0 <= i < |runs| ==> keys[i] == IdentityOf(runs[i]);
    assert Elements(keys) == Identities(runs);
  }

  predicate OfProtocol(s: set<Identity>, p: Protocol) {
    forall x :: x in s ==> x.protocol == p
  }

  lemma UnionSize(a: set<Identity>, b: set<Identity>, c: set<Identity>, d: set<Identity>, e: set<Identity>)
    requires OfProtocol(a, RankerComponent) && OfProtocol(b, PlannerPolicy) && OfProtocol(c, EndToEnd) && OfProtocol(d, Reference)
    requires OfProtocol(e, EndToEnd) && c !! e
    ensures |a + b + c + d + e| == |a| + |b| + |c| + |d| + |e|
  {
    assert a !! b && (a + b) !! c && (a + b + c) !! d && (a + b + c + d) !! e;
  }

  /** The protocols' products and the sensitivity runs share no identity. */
  lemma ProductsDisjoint(m: Metadata)
    requires WellFormed(m)
    ensures |Sealed(m)| == |Required(m, RankerComponent)| + |Required(m, PlannerPolicy)| + |Required(m, EndToEnd)|
        + |Required(m, Reference)| + |Sensitivity(m)|
  {
    UnionSize(Required(m, RankerComponent), Required(m, PlannerPolicy), Required(m, EndToEnd), Required(m, Reference), Sensitivity(m));
  }

  lemma SealedSize(m: Metadata)
    requires WellFormed(m)
    ensures |Sealed(m)| == SealedCount(m)
  {
    RequiredSize(m, RankerComponent);
    RequiredSize(m, PlannerPolicy);
    RequiredSize(m, EndToEnd);
    RequiredSize(m, Reference);
    SensitivitySize(m);
    ProductsDisjoint(m);
  }

  /** Accepted runs are as many as the closed form says. */
  lemma AcceptedCount(m: Metadata, runs: seq<Run>)
    requires WellFormed(m) && Covers(m, runs)
    ensures |runs| == SealedCount(m)
  {
    IdentitiesSize(runs);
    SealedSize(m);
  }

  // ----- Consequences for the runs -----

  function RunFor(x: Identity): Run {
    Run(x.protocol, x.variant, x.task, x.budget,
      if x.unit.Seed? then Some(x.unit.value) else None, if x.unit.Repeat? then Some(x.unit.id) else None)
  }

  lemma {:induction false} EnumerateRuns(ids: set<Identity>) returns (runs: seq<Run>)
    ensures Identified(runs) && DistinctRuns(runs)
    ensures Identities(runs) == ids
    decreases |ids|
  {
    if ids == {} {
      runs := [];
    } else {
      var x :| x in ids;
      var rest := EnumerateRuns(ids - {x});
      runs := rest + [RunFor(x)];
      assert IdentityOf(RunFor(x)) == x;
      forall i | 0 <= i < |rest| ensures IdentityOf(rest[i]) != x {
        assert IdentityOf(rest[i]) in Identities(rest);
      }
      IdentitiesGrow(rest, RunFor(x));
    }
  }

  /** Well-formed metadata is never unsatisfiable: some runs are accepted. */
  lemma SealedAcceptable(m: Metadata) returns (runs: seq<Run>)
    requires WellFormed(m)
    ensures Covers(m, runs)
  {
    runs := EnumerateRuns(Sealed(m));
  }

  /** Nothing can be left out: an accepted list without one of its runs is refused. */
  lemma EveryRunNeeded(m: Metadata, runs: seq<Run>, i: nat)
    requires WellFormed(m) && Covers(m, runs) && i < |runs|
    ensures !Covers(m, runs[..i] + runs[i + 1..])
  {
    var fewer := runs[..i] + runs[i + 1..];
    if Covers(m, fewer) {
      AcceptedCount(m, runs);
      AcceptedCount(m, fewer);
      assert false;
    }
  }

  lemma ReorderedRuns(runs: seq<Run>, other: seq<Run>)
    requires multiset(runs) == multiset(other)
    requires Identified(runs)
    ensures |runs| == |other| && Identified(other)
    ensures Identities(runs) == Identities(other)
  {
    assert |multiset(runs)| == |runs| && |multiset(other)| == |other|;
    forall i | 0 <= i < |other| ensures other[i] in runs { assert other[i] in multiset(other); }
    forall i | 0 <= i < |runs| ensures runs[i] in other { assert runs[i] in multiset(runs); }
  }

  lemma ReorderedDistinct(runs: seq<Run>, other: seq<Run>)
    requires multiset(runs) == multiset(other)
    requires Identified(runs) && DistinctRuns(runs) && Identified(other)
    ensures DistinctRuns(other)
  {
    NoDuplicatesPermuted(runs, other);
    forall i, j | 0 <= i < j < |other| ensures IdentityOf(other[i]) != IdentityOf(other[j]) {
      assert other[i] in multiset(other) && other[j] in multiset(other);
      var k :| 0 <= k < |runs| && runs[k] == other[i];
      var l :| 0 <= l < |runs| && runs[l] == other[j];
      assert k != l;
    }
  }

  /** The order of the runs does not matter. */
  lemma OrderIrrelevant(m: Metadata, runs: seq<Run>, other: seq<Run>)
    requires WellFormed(m) && multiset(runs) == multiset(other)
    ensures Covers(m, runs) ==> Covers(m, other)
  {
    if Covers(m, runs) {
      ReorderedRuns(runs, other);
      ReorderedDistinct(runs, other);
    }
  }
}
