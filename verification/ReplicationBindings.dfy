/** The summary's own check of the receipt-binding sidecars, written separately from the runner's. */
module ReplicationBindings {
  import opened Sorting
  import opened Sequences
  import opened ExperimentStore

  datatype Result<T> = Ok(value: T) | Rejected

  /** The sealed replication metadata. */
  datatype Replication = Seeded | Repeats(ids: seq<int>)

  predicate ValidIds(ids: seq<int>) {
    (forall i :: 0 <= i < |ids| ==> ids[i] >= 1) && NoDuplicates(ids)
  }

  /** The first run with the key, or the number of runs. */
  function FirstMatch(runs: seq<Run>, key: Key): (i: nat)
    ensures i <= |runs| && (i < |runs| ==> runs[i].key == key) && forall j :: 0 <= j < i ==> runs[j].key != key
  {
    if runs == [] || runs[0].key == key then 0 else 1 + FirstMatch(runs[1..], key)
  }

  predicate Completed(runs: seq<Run>, i: int) {
    0 <= i < |runs| && runs[i].completed
  }

  /** One sidecar against the summary's runs, the manifests and the request files. */
  predicate SidecarMatches(g: Group, runs: seq<Run>, ids: seq<int>, q: Request)
    requires q in g.bindings
  {
    var b := g.bindings[q];
    var i := FirstMatch(runs, b.key);
    && b.request == q && b.key.repeatId in ids
    && i < |runs| && runs[i].completed
    && runs[i].manifestPath.InArtifacts? && runs[i].manifestPath in g.artifacts
    && (var m := g.artifacts[runs[i].manifestPath];
        m == b.manifest && m.runId == b.runId && m.threadId == b.threadId && m.seed.None? && !m.seedSupported
        && m.usage == runs[i].usage && m.pricing == runs[i].pricing)
    && RequestMatches(g, b.key, q) == 1
  }

  /** The index a sidecar is matched with. */
  function MatchOf(g: Group, runs: seq<Run>, q: Request): nat
    requires q in g.bindings
  {
    FirstMatch(runs, g.bindings[q].key)
  }

  predicate SidecarsMatch(g: Group, runs: seq<Run>, ids: seq<int>) {
    forall q :: q in g.bindings ==> SidecarMatches(g, runs, ids, q)
  }

  predicate DistinctMatches(g: Group, runs: seq<Run>, names: set<Request>)
    requires names <= g.bindings.Keys
  {
    forall p, q :: p in names && q in names && p != q ==> MatchOf(g, runs, p) != MatchOf(g, runs, q)
  }

  predicate CompletedMatched(g: Group, runs: seq<Run>) {
    forall i :: 0 <= i < |runs| && runs[i].completed ==> exists q :: q in g.bindings && MatchOf(g, runs, q) == i
  }

  /** Every sidecar matches, no two the same run, and no receipt is bound twice. */
  predicate SidecarsFit(g: Group, runs: seq<Run>, ids: seq<int>) {
    SidecarsMatch(g, runs, ids) && DistinctMatches(g, runs, g.bindings.Keys) && DistinctReceipts(g.bindings, g.bindings.Keys)
  }

  /** The verdict, free of the order of the sidecars. */
  predicate BindingsAccepted(g: Group, runs: seq<Run>, replication: Replication) {
    match replication
    case Seeded => g.bindings == map[]
    case Repeats(ids) =>
      ValidIds(ids) && SidecarsFit(g, runs, ids) && CompletedMatched(g, runs)
  }

  function Payloads(bindings: map<Request, Binding>, names: seq<Request>): seq<Binding>
    requires forall i :: 0 <= i < |names| ==> names[i] in bindings
  {
    seq(|names|, i requires 0 <= i < |names| => bindings[names[i]])
  }

  function MatchesOf(g: Group, runs: seq<Run>, names: set<Request>): set<nat>
    requires names <= g.bindings.Keys
  {
    set q | q in names :: MatchOf(g, runs, q)
  }

  /** What the pass knows of the sidecars it has seen. */
  ghost predicate Scanned(g: Group, runs: seq<Run>, ids: seq<int>, seen: set<Request>, matched: set<nat>, receipts: set<Receipt>) {
    && seen <= g.bindings.Keys
    && (forall q :: q in seen ==> SidecarMatches(g, runs, ids, q))
    && DistinctMatches(g, runs, seen) && DistinctReceipts(g.bindings, seen)
    && matched == MatchesOf(g, runs, seen) && receipts == ReceiptsOf(g.bindings, seen)
  }

  lemma ScanStep(g: Group, runs: seq<Run>, ids: seq<int>, seen: set<Request>, matched: set<nat>, receipts: set<Receipt>, q: Request)
    requires Scanned(g, runs, ids, seen, matched, receipts) && q in g.bindings && SidecarMatches(g, runs, ids, q)
    requires MatchOf(g, runs, q) !in matched && g.bindings[q].receipt !in receipts
    ensures Scanned(g, runs, ids, seen + {q}, matched + {MatchOf(g, runs, q)}, receipts + {g.bindings[q].receipt})
  {
    assert ReceiptsOf(g.bindings, seen + {q}) == receipts + {g.bindings[q].receipt};
  }

  /** The pass over the listed sidecars. */
  method MatchSidecars(g: Group, runs: seq<Run>, ids: seq<int>, names: seq<Request>)
    returns (ok: bool, rows: seq<Binding>, matched: set<nat>)
    requires Listing(names, g.bindings)
    ensures ok <==> SidecarsFit(g, runs, ids)
    ensures ok ==> rows == Payloads(g.bindings, names) && matched == MatchesOf(g, runs, g.bindings.Keys)
  {
    rows, matched := [], {};
    var receipts: set<Receipt> := {};
    ghost var seen: set<Request> := {};
    for i := 0 to |names|
      invariant SeenSoFar(names, i, seen)
      invariant Scanned(g, runs, ids, seen, matched, receipts)
      invariant rows == Payloads(g.bindings, names[..i])
    {
      var q := names[i];
      if !SidecarMatches(g, runs, ids, q) || MatchOf(g, runs, q) in matched || g.bindings[q].receipt in receipts {
        ScanRefuses(g, runs, ids, names, i, seen, matched, receipts);
      }
      if !SidecarMatches(g, runs, ids, q) { return false, rows, matched; }
      if MatchOf(g, runs, q) in matched { return false, rows, matched; }
      if g.bindings[q].receipt in receipts { return false, rows, matched; }
      ScanStep(g, runs, ids, seen, matched, receipts, q);
      SeeNext(names, i, seen);
      receipts := receipts + {g.bindings[q].receipt};
      matched := matched + {MatchOf(g, runs, q)};
      PayloadsGrow(g.bindings, names, i);
      rows := rows + [g.bindings[q]];
      seen := seen + {q};
    }
    SeenAll(names, g.bindings, seen);
    ScanEnds(g, runs, ids, seen, matched, receipts);
    assert names[..|names|] == names;
    return true, rows, matched;
  }

  lemma PayloadsGrow(bindings: map<Request, Binding>, names: seq<Request>, i: nat)
    requires i < |names| && forall j :: 0 <= j < |names| ==> names[j] in bindings
    ensures Payloads(bindings, names[..i + 1]) == Payloads(bindings, names[..i]) + [bindings[names[i]]]
  {
  }

  lemma ScanEnds(g: Group, runs: seq<Run>, ids: seq<int>, seen: set<Request>, matched: set<nat>, receipts: set<Receipt>)
    requires Scanned(g, runs, ids, seen, matched, receipts) && seen == g.bindings.Keys
    ensures SidecarsFit(g, runs, ids) && matched == MatchesOf(g, runs, g.bindings.Keys)
  {
  }

  /** A sidecar that does not match, or repeats a match or a receipt, spoils the whole listing. */
  lemma ScanRefuses(g: Group, runs: seq<Run>, ids: seq<int>, names: seq<Request>, i: nat,
                    seen: set<Request>, matched: set<nat>, receipts: set<Receipt>)
    requires Listing(names, g.bindings) && i < |names| && SeenSoFar(names, i, seen)
    requires Scanned(g, runs, ids, seen, matched, receipts)
    requires !SidecarMatches(g, runs, ids, names[i]) || MatchOf(g, runs, names[i]) in matched
      || g.bindings[names[i]].receipt in receipts
    ensures !SidecarsFit(g, runs, ids)
  {
    var q := names[i];
    assert q !in seen;
    if SidecarMatches(g, runs, ids, q) {
      if MatchOf(g, runs, q) in matched {
        RepeatedMatch(g, runs, seen, q);
      } else {
        var p :| p in seen && g.bindings[p].receipt == g.bindings[q].receipt;
      }
    }
  }

  lemma RepeatedMatch(g: Group, runs: seq<Run>, names: set<Request>, q: Request)
    requires names <= g.bindings.Keys && q in g.bindings && q !in names && MatchOf(g, runs, q) in MatchesOf(g, runs, names)
    ensures !DistinctMatches(g, runs, g.bindings.Keys)
  {
    var p :| p in names && MatchOf(g, runs, p) == MatchOf(g, runs, q);
  }

  /** The rows and the completed runs are in one-to-one correspondence: each row is matched with a completed run and has
      exactly one request file, no two rows share a run or a receipt, and each completed run has its row. */
  ghost predicate OneToOne(g: Group, runs: seq<Run>, rows: seq<Binding>) {
    && (forall i :: 0 <= i < |rows| ==>
          Completed(runs, FirstMatch(runs, rows[i].key)) && RequestMatches(g, rows[i].key, rows[i].request) == 1)
    && (forall i, j :: 0 <= i < j < |rows| ==>
          FirstMatch(runs, rows[i].key) != FirstMatch(runs, rows[j].key) && rows[i].receipt != rows[j].receipt)
    && forall k :: Completed(runs, k) ==> exists i :: 0 <= i < |rows| && FirstMatch(runs, rows[i].key) == k
  }

  /** Load the sidecars of a summary; the listing's order only orders the rows. */
  method LoadReplicationBindings(g: Group, runs: seq<Run>, replication: Replication, names: seq<Request>)
    returns (r: Result<seq<Binding>>)
    requires Listing(names, g.bindings)
    ensures r.Ok? <==> BindingsAccepted(g, runs, replication)
    ensures r.Ok? ==> r.value == Payloads(g.bindings, names)
    ensures r.Ok? && replication.Repeats? ==> OneToOne(g, runs, r.value) && |r.value| == |CompletedIndices(runs)|
  {
    match replication {
      case Seeded =>
        if names != [] { assert names[0] in g.bindings; return Rejected; }
        assert g.bindings.Keys == {};
        return Ok([]);
      case Repeats(ids) =>
        if !ValidIds(ids) { return Rejected; }
        var ok, rows, matched := MatchSidecars(g, runs, ids, names);
        if !ok { return Rejected; }
        if exists i :: 0 <= i < |runs| && runs[i].completed && i !in matched { return Rejected; }
        RowsOneToOne(g, runs, ids, names);
        AcceptedCount(g, runs, ids);
        ListingSize(names, g.bindings);
        return Ok(rows);
    }
  }

  lemma ListingSize(names: seq<Request>, bindings: map<Request, Binding>)
    requires Listing(names, bindings)
    ensures |names| == |bindings|
  {
    ElementsSize(names);
    assert Elements(names) == bindings.Keys;
    assert |bindings| == |bindings.Keys|;
  }

  lemma RowsOneToOne(g: Group, runs: seq<Run>, ids: seq<int>, names: seq<Request>)
    requires Listing(names, g.bindings) && SidecarsMatch(g, runs, ids) && CompletedMatched(g, runs)
    requires DistinctMatches(g, runs, g.bindings.Keys) && DistinctReceipts(g.bindings, g.bindings.Keys)
    ensures OneToOne(g, runs, Payloads(g.bindings, names))
  {
    var rows := Payloads(g.bindings, names);
    forall i | 0 <= i < |rows|
      ensures Completed(runs, FirstMatch(runs, rows[i].key)) && RequestMatches(g, rows[i].key, rows[i].request) == 1
    {
    }
    forall i, j | 0 <= i < j < |rows|
      ensures FirstMatch(runs, rows[i].key) != FirstMatch(runs, rows[j].key) && rows[i].receipt != rows[j].receipt
    {
      assert MatchOf(g, runs, names[i]) != MatchOf(g, runs, names[j]);
    }
    forall k | Completed(runs, k) ensures exists i :: 0 <= i < |rows| && FirstMatch(runs, rows[i].key) == k {
      RowOf(g, runs, names, k);
    }
  }

  lemma RowOf(g: Group, runs: seq<Run>, names: seq<Request>, k: nat)
    requires Listing(names, g.bindings) && CompletedMatched(g, runs) && Completed(runs, k)
    ensures exists i :: 0 <= i < |names| && FirstMatch(runs, Payloads(g.bindings, names)[i].key) == k
  {
    var q :| q in g.bindings && MatchOf(g, runs, q) == k;
    var i :| 0 <= i < |names| && names[i] == q;
    assert FirstMatch(runs, Payloads(g.bindings, names)[i].key) == k;
  }

  function CompletedIndices(runs: seq<Run>): set<nat> {
    set i | 0 <= i < |runs| && runs[i].completed
  }

  lemma {:induction false} MatchesCount(g: Group, runs: seq<Run>, names: set<Request>)
    requires names <= g.bindings.Keys && DistinctMatches(g, runs, names)
    ensures |MatchesOf(g, runs, names)| == |names|
    decreases |names|
  {
    if names == {} {
      assert MatchesOf(g, runs, names) == {};
    } else {
      var q :| q in names;
      MatchesCount(g, runs, names - {q});
      assert MatchesOf(g, runs, names) == MatchesOf(g, runs, names - {q}) + {MatchOf(g, runs, q)};
    }
  }

  /** So an accepted summary has exactly as many sidecars as completed runs. */
  lemma AcceptedCount(g: Group, runs: seq<Run>, ids: seq<int>)
    requires BindingsAccepted(g, runs, Repeats(ids))
    ensures |g.bindings| == |CompletedIndices(runs)|
  {
    MatchesCount(g, runs, g.bindings.Keys);
    assert MatchesOf(g, runs, g.bindings.Keys) == CompletedIndices(runs);
    assert |g.bindings| == |g.bindings.Keys|;
  }

  /** Although a sidecar is compared with the first matching run only, acceptance leaves no two completed runs with one key. */
  lemma AcceptedRunsDistinct(g: Group, runs: seq<Run>, ids: seq<int>, i: nat, j: nat)
    requires BindingsAccepted(g, runs, Repeats(ids))
    requires Completed(runs, i) && Completed(runs, j) && runs[i].key == runs[j].key
    ensures i == j
  {
    var p :| p in g.bindings && MatchOf(g, runs, p) == i;
    var q :| q in g.bindings && MatchOf(g, runs, q) == j;
    assert g.bindings[p].key == runs[i].key && g.bindings[q].key == runs[j].key;
  }

  /** The summary's runs are the raw records, each once. */
  ghost predicate ListsRaw(runs: seq<Run>, raw: map<Key, Run>) {
    && (forall i :: 0 <= i < |runs| ==> runs[i].key in raw && raw[runs[i].key] == runs[i])
    && (forall k :: k in raw ==> exists i :: 0 <= i < |runs| && runs[i].key == k)
    && forall i, j :: 0 <= i < j < |runs| ==> runs[i].key != runs[j].key
  }

  predicate FirstIds(ids: seq<int>, repeats: nat) {
    ValidIds(ids) && (forall i :: 0 <= i < |ids| ==> 1 <= ids[i] <= repeats) && forall r :: 1 <= r <= repeats ==> r in ids
  }

  /** Over the raw records, the two sidecar checks agree one sidecar at a time. */
  lemma SidecarChecksAgree(g: Group, runs: seq<Run>, ids: seq<int>, repeats: nat, q: Request)
    requires ListsRaw(runs, g.raw) && FirstIds(ids, repeats) && q in g.bindings
    ensures SidecarMatches(g, runs, ids, q) <==> SidecarAccepted(g, repeats, q)
  {
  }

  /** The summary accepts exactly the groups whose completed records the runner's validator would all reuse,
      provided there is a completed record. */
  lemma CheckersAgree(g: Group, runs: seq<Run>, ids: seq<int>, repeats: nat)
    requires RawNamed(g) && ListsRaw(runs, g.raw) && FirstIds(ids, repeats)
    requires exists k :: k in g.raw && g.raw[k].completed
    ensures BindingsAccepted(g, runs, Repeats(ids)) <==>
      forall k :: k in g.raw && g.raw[k].completed ==> ExistingAccepted(g, repeats, k)
  {
    if BindingsAccepted(g, runs, Repeats(ids)) {
      forall k | k in g.raw && g.raw[k].completed ensures ExistingAccepted(g, repeats, k) {
        AcceptedForKey(g, runs, ids, repeats, k);
      }
    }
    if forall k :: k in g.raw && g.raw[k].completed ==> ExistingAccepted(g, repeats, k) {
      ReusableAccepted(g, runs, ids, repeats);
    }
  }

  lemma SidecarsAgree(g: Group, runs: seq<Run>, ids: seq<int>, repeats: nat)
    requires ListsRaw(runs, g.raw) && FirstIds(ids, repeats)
    ensures SidecarsMatch(g, runs, ids) <==> SidecarsAccepted(g, repeats)
  {
    forall q | q in g.bindings ensures SidecarMatches(g, runs, ids, q) <==> SidecarAccepted(g, repeats, q) {
      SidecarChecksAgree(g, runs, ids, repeats, q);
    }
  }

  predicate OwnersRecorded(g: Group) {
    forall q :: q in g.bindings ==> g.bindings[q].key in g.raw
  }

  lemma MatchedIsBound(g: Group, runs: seq<Run>)
    requires ListsRaw(runs, g.raw) && OwnersRecorded(g) && CompletedMatched(g, runs)
    ensures CompletedBound(g)
  {
    forall k | k in g.raw && g.raw[k].completed ensures exists q :: q in g.bindings && g.bindings[q].key == k {
      var i := FirstMatch(runs, k);
      var q :| q in g.bindings && MatchOf(g, runs, q) == i;
    }
  }

  lemma CoverageAgrees(g: Group, runs: seq<Run>, repeats: nat)
    requires ListsRaw(runs, g.raw) && SidecarsAccepted(g, repeats)
    ensures CompletedMatched(g, runs) <==> CompletedBound(g)
  {
    assert OwnersRecorded(g) by {
      forall q | q in g.bindings ensures g.bindings[q].key in g.raw { assert SidecarAccepted(g, repeats, q); }
    }
    if CompletedMatched(g, runs) { MatchedIsBound(g, runs); }
  }

  lemma OneBound(g: Group, runs: seq<Run>, key: Key)
    requires DistinctMatches(g, runs, g.bindings.Keys) && CompletedBound(g) && key in g.raw && g.raw[key].completed
    ensures |BoundTo(g, key)| == 1
  {
    var q :| q in g.bindings && g.bindings[q].key == key;
    forall p | p in BoundTo(g, key) ensures p == q {
      assert MatchOf(g, runs, p) == MatchOf(g, runs, q);
    }
    assert BoundTo(g, key) == {q};
  }

  lemma AcceptedForKey(g: Group, runs: seq<Run>, ids: seq<int>, repeats: nat, key: Key)
    requires RawNamed(g) && ListsRaw(runs, g.raw) && FirstIds(ids, repeats)
    requires BindingsAccepted(g, runs, Repeats(ids)) && key in g.raw && g.raw[key].completed
    ensures ExistingAccepted(g, repeats, key)
  {
    SidecarsAgree(g, runs, ids, repeats);
    CoverageAgrees(g, runs, repeats);
    OneBound(g, runs, key);
  }

  lemma ReusableAccepted(g: Group, runs: seq<Run>, ids: seq<int>, repeats: nat)
    requires RawNamed(g) && ListsRaw(runs, g.raw) && FirstIds(ids, repeats)
    requires exists k :: k in g.raw && g.raw[k].completed
    requires forall k :: k in g.raw && g.raw[k].completed ==> ExistingAccepted(g, repeats, k)
    ensures BindingsAccepted(g, runs, Repeats(ids))
  {
    var k0 :| k0 in g.raw && g.raw[k0].completed;
    assert ExistingAccepted(g, repeats, k0);
    SidecarsAgree(g, runs, ids, repeats);
    CoverageAgrees(g, runs, repeats);
    forall p, q | p in g.bindings && q in g.bindings && p != q ensures MatchOf(g, runs, p) != MatchOf(g, runs, q) {
      var k := g.bindings[p].key;
      assert SidecarAccepted(g, repeats, p) && SidecarAccepted(g, repeats, q) && ExistingAccepted(g, repeats, k);
      if g.bindings[q].key == k { TwoBound(g, k, p, q); }
    }
  }

  /** So the summary accepts every group built by calls that promote only benign receipts. */
  lemma BenignGroupSummarizes(repeats: nat, calls: seq<Call>, runs: seq<Run>, ids: seq<int>)
    requires AllBenign(NEW_GROUP, repeats, calls)
    requires ListsRaw(runs, RunAll(NEW_GROUP, repeats, calls).raw) && FirstIds(ids, repeats)
    ensures BindingsAccepted(RunAll(NEW_GROUP, repeats, calls), runs, Repeats(ids))
  {
    assert Consistent(NEW_GROUP, repeats);
    RunAllConsistent(NEW_GROUP, repeats, calls);
    ConsistentSummarizes(RunAll(NEW_GROUP, repeats, calls), repeats, runs, ids);
  }

  lemma ConsistentSummarizes(g: Group, repeats: nat, runs: seq<Run>, ids: seq<int>)
    requires Consistent(g, repeats) && ListsRaw(runs, g.raw) && FirstIds(ids, repeats)
    ensures BindingsAccepted(g, runs, Repeats(ids))
  {
    SidecarsAgree(g, runs, ids, repeats);
    CoverageAgrees(g, runs, repeats);
    forall p, q | p in g.bindings && q in g.bindings && p != q ensures MatchOf(g, runs, p) != MatchOf(g, runs, q) {
      assert SidecarMatches(g, runs, ids, p) && SidecarMatches(g, runs, ids, q);
      assert runs[MatchOf(g, runs, p)].key == g.bindings[p].key && runs[MatchOf(g, runs, q)].key == g.bindings[q].key;
    }
  }
}
