/** Publishing a frozen dataset version file by file, never replacing, sealed by a commit marker,
    with the process allowed to die between any two publications. */
module Finalization {
  import opened Options

  type Path = string
  type Bytes = seq<int>
  type Tree = map<Path, Bytes>

  /** Everything an attempt reads: batches, snapshots and parameters. */
  type Inputs = string

  /** The bytes an attempt wants at each target, in publication order, and its commit marker. */
  datatype Version = Version(payload: seq<Bytes>, commit: Bytes)

  /** The builder's computations, left abstract: whether the inputs pass the checks on records, the version they
      determine, the validator's verdict on a set of files, and whether bytes parse as a manifest. */
  datatype Builder = Builder(
    usable: Inputs -> bool,
    version: Inputs -> Version,
    valid: (Inputs, seq<Option<Bytes>>) -> bool,
    parses: Bytes -> bool)

  /** Where a version goes: the runtime files, then the private and the public manifest; and the commit marker. */
  datatype Layout = Layout(targets: seq<Path>, marker: Path)

  predicate GoodLayout(l: Layout) {
    && |l.targets| >= 2 && l.marker !in l.targets
    && forall i, j :: 0 <= i < j < |l.targets| ==> l.targets[i] != l.targets[j]
  }

  /** A builder produces one payload per target, and manifests it can read back. */
  ghost predicate GoodBuilder(b: Builder, l: Layout) {
    forall i: Inputs ::
      && |b.version(i).payload| == |l.targets| >= 2
      && b.parses(b.version(i).payload[|l.targets| - 2]) && b.parses(b.version(i).payload[|l.targets| - 1])
  }

  datatype Outcome = Committed | Frozen | Invalid | Crashed

  function PrivateManifest(l: Layout): Path requires |l.targets| >= 2 { l.targets[|l.targets| - 2] }

  function PublicManifest(l: Layout): Path requires |l.targets| >= 2 { l.targets[|l.targets| - 1] }

  /** What the validator finds at the targets. */
  function Contents(files: Tree, targets: seq<Path>): seq<Option<Bytes>> {
    seq(|targets|, i requires 0 <= i < |targets| => if targets[i] in files then Some(files[targets[i]]) else None)
  }

  function Wanted(payload: seq<Bytes>): seq<Option<Bytes>> {
    seq(|payload|, i requires 0 <= i < |payload| => Some(payload[i]))
  }

  /** The checks made before anything is staged, in order; None means go ahead. */
  function Preflight(b: Builder, l: Layout, files: Tree, i: Inputs): (r: Option<Outcome>)
    requires GoodLayout(l) && GoodBuilder(b, l)
    ensures r.Some? ==> r.value in {Frozen, Invalid}
  {
    var v := b.version(i);
    var n := |l.targets|;
    var private, public := PrivateManifest(l), PublicManifest(l);
    if private in files && !b.parses(files[private]) then Some(Frozen)
    else if public in files && !b.parses(files[public]) then Some(Frozen)
    else if !b.usable(i) then Some(Invalid)
    else if private in files && files[private] != v.payload[n - 2] then Some(Frozen)
    else if public in files && files[public] != v.payload[n - 1] then Some(Frozen)
    else if l.marker in files && files[l.marker] != v.commit then Some(Frozen)
    else if l.marker in files && !(private in files && public in files) then Some(Frozen)
    else if private in files && public in files && (!b.valid(i, Contents(files, l.targets)) || l.marker in files) then Some(Frozen)
    else if !b.valid(i, Wanted(v.payload)) then Some(Invalid)
    else None
  }

  /** Publish the targets from position k on. An existing file is accepted only if it already holds the bytes;
      `crash` counts the publications completed before the process dies. */
  function PublishFrom(files: Tree, targets: seq<Path>, payload: seq<Bytes>, k: nat, crash: Option<nat>): (r: (Tree, Option<Outcome>))
    requires k <= |targets| == |payload|
    ensures r.1.Some? ==> r.1.value in {Crashed, Frozen}
    decreases |targets| - k
  {
    if k == |targets| then (files, None)
    else if crash == Some(k) then (files, Some(Crashed))
    else if targets[k] in files then
      if files[targets[k]] == payload[k] then PublishFrom(files, targets, payload, k + 1, crash) else (files, Some(Frozen))
    else PublishFrom(files[targets[k] := payload[k]], targets, payload, k + 1, crash)
  }

  /** One call of finalize. */
  function Attempt(b: Builder, l: Layout, files: Tree, i: Inputs, crash: Option<nat>): (Tree, Outcome)
    requires GoodLayout(l) && GoodBuilder(b, l)
  {
    var v := b.version(i);
    var preflight := Preflight(b, l, files, i);
    if preflight.Some? then (files, preflight.value)
    else
      var (published, stop) := PublishFrom(files, l.targets, v.payload, 0, crash);
      if stop.Some? then (published, stop.value)
      else if !b.valid(i, Contents(published, l.targets)) then (published, Invalid)
      else if crash == Some(|l.targets|) then (published, Crashed)
      else if l.marker in published then (published, if published[l.marker] == v.commit then Committed else Frozen)
      else (published[l.marker := v.commit], Committed)
  }

  /** A sequence of calls: each with its inputs and the point where it dies, if it does. */
  function Run(b: Builder, l: Layout, files: Tree, calls: seq<(Inputs, Option<nat>)>): Tree
    requires GoodLayout(l) && GoodBuilder(b, l)
    decreases |calls|
  {
    if calls == [] then files
    else Run(b, l, Attempt(b, l, files, calls[0].0, calls[0].1).0, calls[1..])
  }

  // ----- Nothing is replaced -----

  predicate Keeps(before: Tree, after: Tree) {
    forall p :: p in before ==> p in after && after[p] == before[p]
  }

  lemma {:induction false} PublishFacts(files: Tree, targets: seq<Path>, payload: seq<Bytes>, k: nat, crash: Option<nat>)
    requires k <= |targets| == |payload|
    ensures var (after, stop) := PublishFrom(files, targets, payload, k, crash);
      && Keeps(files, after)
      && (forall p :: p in after && p !in files ==> exists j :: k <= j < |targets| && targets[j] == p && after[p] == payload[j])
      && (stop.None? ==> forall j :: k <= j < |targets| ==> targets[j] in after && after[targets[j]] == payload[j])
    decreases |targets| - k
  {
    if k < |targets| && crash != Some(k) {
      if targets[k] in files {
        if files[targets[k]] == payload[k] { PublishFacts(files, targets, payload, k + 1, crash); }
      } else {
        PublishFacts(files[targets[k] := payload[k]], targets, payload, k + 1, crash);
      }
    }
  }

  lemma AttemptKeeps(b: Builder, l: Layout, files: Tree, i: Inputs, crash: Option<nat>)
    requires GoodLayout(l) && GoodBuilder(b, l)
    ensures Keeps(files, Attempt(b, l, files, i, crash).0)
  {
    PublishFacts(files, l.targets, b.version(i).payload, 0, crash);
  }

  /** Whatever the inputs and wherever the calls die, a file once published keeps its bytes. */
  lemma {:induction false} NeverReplaced(b: Builder, l: Layout, files: Tree, calls: seq<(Inputs, Option<nat>)>)
    requires GoodLayout(l) && GoodBuilder(b, l)
    ensures Keeps(files, Run(b, l, files, calls))
    decreases |calls|
  {
    if calls != [] {
      AttemptKeeps(b, l, files, calls[0].0, calls[0].1);
      NeverReplaced(b, l, Attempt(b, l, files, calls[0].0, calls[0].1).0, calls[1..]);
    }
  }

  // ----- The marker seals -----

  /** Every target holds the version's bytes. */
  predicate Complete(files: Tree, l: Layout, v: Version) {
    |v.payload| == |l.targets| && forall j :: 0 <= j < |l.targets| ==> l.targets[j] in files && files[l.targets[j]] == v.payload[j]
  }

  /** No existing target holds anything else than the version's bytes. */
  predicate Compatible(files: Tree, l: Layout, v: Version) {
    |v.payload| == |l.targets| && forall j :: 0 <= j < |l.targets| && l.targets[j] in files ==> files[l.targets[j]] == v.payload[j]
  }

  /** The files present are the first n targets. */
  predicate IsPrefix(files: Tree, l: Layout, n: nat) {
    n <= |l.targets| && forall j :: 0 <= j < |l.targets| ==> (l.targets[j] in files <==> j < n)
  }

  /** Published files form a prefix of the publication order, and a marker means some inputs' version is complete. */
  ghost predicate Inv(b: Builder, l: Layout, files: Tree) {
    && (exists n :: IsPrefix(files, l, n))
    && (l.marker in files ==> exists i: Inputs :: b.version(i).commit == files[l.marker] && Complete(files, l, b.version(i)))
  }

  /** Once the marker exists the whole tree is fixed forever. */
  lemma {:induction false} SealedForever(b: Builder, l: Layout, files: Tree, calls: seq<(Inputs, Option<nat>)>)
    requires GoodLayout(l) && GoodBuilder(b, l) && l.marker in files
    ensures Run(b, l, files, calls) == files
  {
    if calls != [] {
      SealedForever(b, l, files, calls[1..]);
    }
  }

  lemma {:induction false} PublishPrefix(files: Tree, l: Layout, payload: seq<Bytes>, k: nat, n: nat, crash: Option<nat>)
    returns (m: nat)
    requires GoodLayout(l) && k <= |l.targets| == |payload| && IsPrefix(files, l, n) && k <= n
    ensures IsPrefix(PublishFrom(files, l.targets, payload, k, crash).0, l, m) && m >= n
    decreases |l.targets| - k
  {
    m := n;
    if k < |l.targets| && crash != Some(k) {
      if l.targets[k] in files {
        if files[l.targets[k]] == payload[k] { m := PublishPrefix(files, l, payload, k + 1, n, crash); }
      } else {
        m := PublishPrefix(files[l.targets[k] := payload[k]], l, payload, k + 1, n + 1, crash);
      }
    }
  }

  lemma AttemptInv(b: Builder, l: Layout, files: Tree, i: Inputs, crash: Option<nat>)
    requires GoodLayout(l) && GoodBuilder(b, l) && Inv(b, l, files)
    ensures Inv(b, l, Attempt(b, l, files, i, crash).0)
  {
    if Preflight(b, l, files, i).None? {
      var v := b.version(i);
      var n :| IsPrefix(files, l, n);
      var m := PublishPrefix(files, l, v.payload, 0, n, crash);
      PublishFacts(files, l.targets, v.payload, 0, crash);
      var after := Attempt(b, l, files, i, crash).0;
      assert IsPrefix(after, l, m);
      if l.marker in after {
        assert Complete(after, l, v) && v.commit == after[l.marker];
      }
    }
  }

  lemma {:induction false} RunInv(b: Builder, l: Layout, files: Tree, calls: seq<(Inputs, Option<nat>)>)
    requires GoodLayout(l) && GoodBuilder(b, l) && Inv(b, l, files)
    ensures Inv(b, l, Run(b, l, files, calls))
    decreases |calls|
  {
    if calls != [] {
      AttemptInv(b, l, files, calls[0].0, calls[0].1);
      RunInv(b, l, Attempt(b, l, files, calls[0].0, calls[0].1).0, calls[1..]);
    }
  }

  lemma {:induction false} RunSplit(b: Builder, l: Layout, files: Tree, first: seq<(Inputs, Option<nat>)>,
                                    rest: seq<(Inputs, Option<nat>)>)
    requires GoodLayout(l) && GoodBuilder(b, l)
    ensures Run(b, l, files, first + rest) == Run(b, l, Run(b, l, files, first), rest)
    decreases |first|
  {
    if first == [] {
      assert first + rest == rest;
    } else {
      assert (first + rest)[1..] == first[1..] + rest;
      RunSplit(b, l, Attempt(b, l, files, first[0].0, first[0].1).0, first[1..], rest);
    }
  }

  /** From an empty tree: if a marker exists after some calls, then every runtime file and manifest holds the bytes of
      the version whose marker it is, and still does after any further calls. */
  lemma CommitSealsVersion(b: Builder, l: Layout, first: seq<(Inputs, Option<nat>)>, later: seq<(Inputs, Option<nat>)>)
    requires GoodLayout(l) && GoodBuilder(b, l) && l.marker in Run(b, l, map[], first)
    ensures var sealed := Run(b, l, map[], first);
      && Run(b, l, map[], first + later) == sealed
      && exists i: Inputs :: b.version(i).commit == sealed[l.marker] && Complete(sealed, l, b.version(i))
  {
    assert IsPrefix(map[], l, 0);
    RunInv(b, l, map[], first);
    SealedForever(b, l, Run(b, l, map[], first), later);
    RunSplit(b, l, map[], first, later);
  }

  // ----- Completing an interrupted publication -----

  lemma {:induction false} PublishCompatible(files: Tree, l: Layout, v: Version, k: nat, crash: Option<nat>)
    requires GoodLayout(l) && Compatible(files, l, v) && k <= |l.targets|
    ensures var (after, stop) := PublishFrom(files, l.targets, v.payload, k, crash);
      Compatible(after, l, v) && (stop.Some? ==> stop == Some(Crashed) && crash.Some?) && (l.marker in after <==> l.marker in files)
    decreases |l.targets| - k
  {
    if k < |l.targets| && crash != Some(k) {
      if l.targets[k] in files {
        PublishCompatible(files, l, v, k + 1, crash);
      } else {
        PublishCompatible(files[l.targets[k] := v.payload[k]], l, v, k + 1, crash);
      }
    }
  }

  /** Usable inputs whose own version the validator accepts. */
  predicate Acceptable(b: Builder, i: Inputs) {
    b.usable(i) && b.valid(i, Wanted(b.version(i).payload))
  }

  lemma CompleteContents(files: Tree, l: Layout, v: Version)
    requires Complete(files, l, v)
    ensures Contents(files, l.targets) == Wanted(v.payload)
  {
  }

  lemma CompatiblePreflight(b: Builder, l: Layout, files: Tree, i: Inputs)
    requires GoodLayout(l) && GoodBuilder(b, l) && Acceptable(b, i)
    requires (exists n :: IsPrefix(files, l, n)) && l.marker !in files && Compatible(files, l, b.version(i))
    ensures Preflight(b, l, files, i).None?
  {
    var n :| IsPrefix(files, l, n);
    if PrivateManifest(l) in files && PublicManifest(l) in files {
      assert l.targets[|l.targets| - 1] in files && n == |l.targets|;
      CompleteContents(files, l, b.version(i));
    }
  }

  /** A committed call had acceptable inputs, found nothing different and leaves its version complete under its marker. */
  lemma CommittedMeans(b: Builder, l: Layout, files: Tree, i: Inputs, crash: Option<nat>)
    requires GoodLayout(l) && GoodBuilder(b, l) && Attempt(b, l, files, i, crash).1.Committed?
    ensures var after := Attempt(b, l, files, i, crash).0;
      Acceptable(b, i) && Compatible(files, l, b.version(i)) && Complete(after, l, b.version(i))
      && l.marker in after && after[l.marker] == b.version(i).commit
  {
    var v := b.version(i);
    PublishFacts(files, l.targets, v.payload, 0, crash);
    var published := PublishFrom(files, l.targets, v.payload, 0, crash).0;
    forall j | 0 <= j < |l.targets| && l.targets[j] in files ensures files[l.targets[j]] == v.payload[j] {
      assert published[l.targets[j]] == files[l.targets[j]];
    }
    forall j | 0 <= j < |l.targets| ensures l.targets[j] != l.marker { assert l.targets[j] in l.targets; }
  }

  /** In any reachable uncommitted tree, a call that does not die commits exactly when its inputs are acceptable and every
      file already published holds its version's bytes. */
  lemma CompletesExactlyWhenCompatible(b: Builder, l: Layout, calls: seq<(Inputs, Option<nat>)>, i: Inputs)
    requires GoodLayout(l) && GoodBuilder(b, l)
    requires l.marker !in Run(b, l, map[], calls)
    ensures var files := Run(b, l, map[], calls);
      Attempt(b, l, files, i, None).1.Committed? <==> Acceptable(b, i) && Compatible(files, l, b.version(i))
  {
    assert IsPrefix(map[], l, 0);
    RunInv(b, l, map[], calls);
    var files, v := Run(b, l, map[], calls), b.version(i);
    PublishFacts(files, l.targets, v.payload, 0, None);
    if Attempt(b, l, files, i, None).1.Committed? { CommittedMeans(b, l, files, i, None); }
    if Acceptable(b, i) && Compatible(files, l, v) {
      CompatiblePreflight(b, l, files, i);
      PublishCompatible(files, l, v, 0, None);
      CompleteContents(PublishFrom(files, l.targets, v.payload, 0, None).0, l, v);
    }
  }

  /** A file of another version at one target locks a version out for good, whatever calls follow. */
  lemma ConflictIsPermanent(b: Builder, l: Layout, files: Tree, calls: seq<(Inputs, Option<nat>)>, i: Inputs, crash: Option<nat>)
    requires GoodLayout(l) && GoodBuilder(b, l) && !Compatible(files, l, b.version(i))
    ensures !Attempt(b, l, Run(b, l, files, calls), i, crash).1.Committed?
  {
    NeverReplaced(b, l, files, calls);
    var after := Run(b, l, files, calls);
    var v := b.version(i);
    var j :| 0 <= j < |l.targets| && l.targets[j] in files && files[l.targets[j]] != v.payload[j];
    assert l.targets[j] in after && after[l.targets[j]] != v.payload[j];
    if Attempt(b, l, after, i, crash).1.Committed? { CommittedMeans(b, l, after, i, crash); }
  }

  /** Calls that all bring the same inputs. */
  predicate Only(calls: seq<(Inputs, Option<nat>)>, i: Inputs) {
    forall k :: 0 <= k < |calls| ==> calls[k].0 == i
  }

  lemma {:induction false} SameInputsCompatible(b: Builder, l: Layout, files: Tree, calls: seq<(Inputs, Option<nat>)>, i: Inputs)
    requires GoodLayout(l) && GoodBuilder(b, l) && Only(calls, i) && Compatible(files, l, b.version(i))
    ensures Compatible(Run(b, l, files, calls), l, b.version(i))
    decreases |calls|
  {
    if calls != [] {
      PublishCompatible(files, l, b.version(i), 0, calls[0].1);
      SameInputsCompatible(b, l, Attempt(b, l, files, i, calls[0].1).0, calls[1..], i);
    }
  }

  /** However often and wherever the same acceptable inputs died uncommitted, one more call with them commits. */
  lemma CrashesAreRecoverable(b: Builder, l: Layout, calls: seq<(Inputs, Option<nat>)>, i: Inputs)
    requires GoodLayout(l) && GoodBuilder(b, l) && Acceptable(b, i) && Only(calls, i)
    requires l.marker !in Run(b, l, map[], calls)
    ensures var r := Attempt(b, l, Run(b, l, map[], calls), i, None);
      r.1.Committed? && Complete(r.0, l, b.version(i)) && l.marker in r.0 && r.0[l.marker] == b.version(i).commit
  {
    SameInputsCompatible(b, l, map[], calls, i);
    CompletesExactlyWhenCompatible(b, l, calls, i);
    CommittedMeans(b, l, Run(b, l, map[], calls), i, None);
  }

  // ----- What a call does to a reachable tree -----

  /** Every file is a commit marker or holds, at its target, the bytes of some version. */
  ghost predicate Sourced(b: Builder, l: Layout, files: Tree) {
    forall p :: p in files ==> p == l.marker || exists j: nat, i: Inputs :: IsPayload(b, l, p, files[p], j, i)
  }

  ghost predicate IsPayload(b: Builder, l: Layout, p: Path, bytes: Bytes, j: nat, i: Inputs) {
    j < |l.targets| && l.targets[j] == p && |b.version(i).payload| == |l.targets| && b.version(i).payload[j] == bytes
  }

  lemma AttemptSourced(b: Builder, l: Layout, files: Tree, i: Inputs, crash: Option<nat>)
    requires GoodLayout(l) && GoodBuilder(b, l) && Sourced(b, l, files)
    ensures Sourced(b, l, Attempt(b, l, files, i, crash).0)
  {
    var v := b.version(i);
    var after, published := Attempt(b, l, files, i, crash).0, PublishFrom(files, l.targets, v.payload, 0, crash).0;
    PublishFacts(files, l.targets, v.payload, 0, crash);
    forall p | p in after && p != l.marker ensures exists j: nat, i: Inputs :: IsPayload(b, l, p, after[p], j, i) {
      if p !in files {
        assert p in published && after[p] == published[p];
        var j: nat :| j < |l.targets| && l.targets[j] == p && published[p] == v.payload[j];
        assert IsPayload(b, l, p, after[p], j, i);
      }
    }
  }

  lemma {:induction false} RunSourced(b: Builder, l: Layout, files: Tree, calls: seq<(Inputs, Option<nat>)>)
    requires GoodLayout(l) && GoodBuilder(b, l) && Sourced(b, l, files)
    ensures Sourced(b, l, Run(b, l, files, calls))
    decreases |calls|
  {
    if calls != [] {
      AttemptSourced(b, l, files, calls[0].0, calls[0].1);
      RunSourced(b, l, Attempt(b, l, files, calls[0].0, calls[0].1).0, calls[1..]);
    }
  }

  /** A published manifest parses. */
  lemma ManifestsParse(b: Builder, l: Layout, files: Tree)
    requires GoodLayout(l) && GoodBuilder(b, l) && Sourced(b, l, files)
    ensures PrivateManifest(l) in files ==> b.parses(files[PrivateManifest(l)])
    ensures PublicManifest(l) in files ==> b.parses(files[PublicManifest(l)])
  {
    forall k | |l.targets| - 2 <= k < |l.targets| && l.targets[k] in files ensures b.parses(files[l.targets[k]]) {
      var p := l.targets[k];
      assert p in l.targets;
      var j: nat, i :| IsPayload(b, l, p, files[p], j, i);
      assert j == k;
    }
  }

  /** Trees that calls from an empty tree can leave. */
  ghost predicate Reachable(b: Builder, l: Layout, files: Tree) {
    Inv(b, l, files) && Sourced(b, l, files)
  }

  lemma RunReachable(b: Builder, l: Layout, calls: seq<(Inputs, Option<nat>)>)
    requires GoodLayout(l) && GoodBuilder(b, l)
    ensures Reachable(b, l, Run(b, l, map[], calls))
  {
    assert IsPrefix(map[], l, 0);
    RunInv(b, l, map[], calls);
    RunSourced(b, l, map[], calls);
  }

  /** The manifests already published are the version's, and if both are there the files pass the validator. */
  predicate ManifestsAgree(b: Builder, l: Layout, files: Tree, i: Inputs)
    requires |l.targets| >= 2
  {
    && (forall j :: |l.targets| - 2 <= j < |l.targets| && l.targets[j] in files ==>
          j < |b.version(i).payload| && files[l.targets[j]] == b.version(i).payload[j])
    && (PublicManifest(l) in files ==> b.valid(i, Contents(files, l.targets)))
  }

  /** A call is stopped before it publishes anything. */
  lemma PreflightExactly(b: Builder, l: Layout, files: Tree, i: Inputs)
    requires GoodLayout(l) && GoodBuilder(b, l) && Reachable(b, l, files)
    ensures Preflight(b, l, files, i) ==
      if !b.usable(i) then Some(Invalid)
      else if l.marker in files || !ManifestsAgree(b, l, files, i) then Some(Frozen)
      else if !b.valid(i, Wanted(b.version(i).payload)) then Some(Invalid)
      else None
  {
    ManifestsParse(b, l, files);
    var n :| IsPrefix(files, l, n);
    assert PrivateManifest(l) in files <==> |l.targets| - 2 < n;
    assert PublicManifest(l) in files <==> |l.targets| - 1 < n;
    if l.marker in files {
      var w: Inputs :| b.version(w).commit == files[l.marker] && Complete(files, l, b.version(w));
    }
  }

  /** On a prefix a publication that does not finish stops at a file already there, or dies. */
  lemma {:induction false} PublishOnPrefix(files: Tree, l: Layout, v: Version, k: nat, n: nat, crash: Option<nat>)
    requires GoodLayout(l) && |v.payload| == |l.targets| && k <= |l.targets| && IsPrefix(files, l, n)
    requires forall j :: 0 <= j < k ==> l.targets[j] in files && files[l.targets[j]] == v.payload[j]
    ensures var (after, stop) := PublishFrom(files, l.targets, v.payload, k, crash);
      && (stop == Some(Frozen) ==> after == files && !Compatible(files, l, v))
      && (stop.None? ==> Compatible(files, l, v))
    decreases |l.targets| - k
  {
    if k < |l.targets| && crash != Some(k) {
      if l.targets[k] in files {
        if files[l.targets[k]] == v.payload[k] { PublishOnPrefix(files, l, v, k + 1, n, crash); }
      } else {
        FreeFromHere(files, l, v, k, n, crash);
      }
    }
  }

  /** Past the end of the prefix every place is free. */
  lemma FreeFromHere(files: Tree, l: Layout, v: Version, k: nat, n: nat, crash: Option<nat>)
    requires GoodLayout(l) && |v.payload| == |l.targets| && k < |l.targets| && IsPrefix(files, l, n) && l.targets[k] !in files
    requires forall j :: 0 <= j < k ==> l.targets[j] in files && files[l.targets[j]] == v.payload[j]
    ensures Compatible(files, l, v) && PublishFrom(files, l.targets, v.payload, k, crash).1 != Some(Frozen)
  {
    PublishCompatible(files, l, v, k, crash);
  }

  /** In any reachable tree, what a call that does not die answers: unusable inputs are invalid; a marker, another
      version's manifest or files that fail the validator beside both manifests freeze the version; a version the
      validator refuses is invalid; any other file of another version freezes it; otherwise it is committed. */
  lemma OutcomeExactly(b: Builder, l: Layout, calls: seq<(Inputs, Option<nat>)>, i: Inputs)
    requires GoodLayout(l) && GoodBuilder(b, l)
    ensures var files := Run(b, l, map[], calls);
      Attempt(b, l, files, i, None).1 ==
        if !b.usable(i) then Invalid
        else if l.marker in files || !ManifestsAgree(b, l, files, i) then Frozen
        else if !b.valid(i, Wanted(b.version(i).payload)) then Invalid
        else if !Compatible(files, l, b.version(i)) then Frozen
        else Committed
  {
    var files, v := Run(b, l, map[], calls), b.version(i);
    RunReachable(b, l, calls);
    PreflightExactly(b, l, files, i);
    if Preflight(b, l, files, i).None? {
      var n :| IsPrefix(files, l, n);
      PublishOnPrefix(files, l, v, 0, n, None);
      CompletesExactlyWhenCompatible(b, l, calls, i);
      PublishStops(files, l, v, 0);
    }
  }

  /** A publication that does not die ends by being done or by being frozen. */
  lemma {:induction false} PublishStops(files: Tree, l: Layout, v: Version, k: nat)
    requires k <= |l.targets| == |v.payload|
    ensures PublishFrom(files, l.targets, v.payload, k, None).1 in {None, Some(Frozen)}
    decreases |l.targets| - k
  {
    if k < |l.targets| {
      if l.targets[k] in files {
        PublishStops(files, l, v, k + 1);
      } else {
        PublishStops(files[l.targets[k] := v.payload[k]], l, v, k + 1);
      }
    }
  }

  /** A refused call leaves a reachable tree as it was, wherever it would have died. */
  lemma RefusalChangesNothing(b: Builder, l: Layout, calls: seq<(Inputs, Option<nat>)>, i: Inputs, crash: Option<nat>)
    requires GoodLayout(l) && GoodBuilder(b, l)
    ensures var files := Run(b, l, map[], calls);
      var (after, outcome) := Attempt(b, l, files, i, crash);
      outcome.Frozen? || outcome.Invalid? ==> after == files
  {
    var files, v := Run(b, l, map[], calls), b.version(i);
    RunReachable(b, l, calls);
    PreflightExactly(b, l, files, i);
    if Preflight(b, l, files, i).None? {
      var n :| IsPrefix(files, l, n);
      PublishOnPrefix(files, l, v, 0, n, crash);
      PublishFacts(files, l.targets, v.payload, 0, crash);
      var (published, stop) := PublishFrom(files, l.targets, v.payload, 0, crash);
      if stop.None? {
        CompleteContents(published, l, v);
        PublishCompatible(files, l, v, 0, crash);
      }
    }
  }

  /** A call with acceptable inputs on compatible files that dies after k publications leaves the first k targets, and
      those that were there before, with its version's bytes, and nothing else. */
  lemma DyingLeavesPrefix(b: Builder, l: Layout, calls: seq<(Inputs, Option<nat>)>, i: Inputs, k: nat)
    requires GoodLayout(l) && GoodBuilder(b, l) && Acceptable(b, i) && k <= |l.targets|
    requires var files := Run(b, l, map[], calls); l.marker !in files && Compatible(files, l, b.version(i))
    ensures var files, v := Run(b, l, map[], calls), b.version(i);
      var (after, outcome) := Attempt(b, l, files, i, Some(k));
      && outcome == Crashed && Keeps(files, after) && Compatible(after, l, v)
      && forall p :: p in after <==> p in files || exists j :: 0 <= j < k && l.targets[j] == p
  {
    var files, v := Run(b, l, map[], calls), b.version(i);
    RunReachable(b, l, calls);
    CompatiblePreflight(b, l, files, i);
    DyingPublication(files, l, v, k);
    AttemptKeeps(b, l, files, i, Some(k));
  }

  lemma DyingPublication(files: Tree, l: Layout, v: Version, k: nat)
    requires GoodLayout(l) && Compatible(files, l, v) && k <= |l.targets|
    ensures var (after, stop) := PublishFrom(files, l.targets, v.payload, 0, Some(k));
      && stop == (if k < |l.targets| then Some(Crashed) else None) && Compatible(after, l, v)
      && (forall p :: p in after <==> p in files || exists j :: 0 <= j < k && l.targets[j] == p)
      && (stop.None? ==> Contents(after, l.targets) == Wanted(v.payload))
  {
    PublishDying(files, l, v, 0, k);
    PublishFacts(files, l.targets, v.payload, 0, Some(k));
    PublishCompatible(files, l, v, 0, Some(k));
    var (published, stop) := PublishFrom(files, l.targets, v.payload, 0, Some(k));
    if stop.None? { CompleteContents(published, l, v); }
  }

  lemma {:induction false} PublishDying(files: Tree, l: Layout, v: Version, j: nat, k: nat)
    requires GoodLayout(l) && Compatible(files, l, v) && j <= k <= |l.targets|
    ensures var (after, stop) := PublishFrom(files, l.targets, v.payload, j, Some(k));
      && stop == (if k < |l.targets| then Some(Crashed) else None)
      && forall p :: p in after <==> p in files || exists m :: j <= m < k && l.targets[m] == p
    decreases k - j
  {
    if j < k {
      if l.targets[j] in files {
        PublishDying(files, l, v, j + 1, k);
      } else {
        PublishDying(files[l.targets[j] := v.payload[j]], l, v, j + 1, k);
      }
    }
  }

  // ----- The attempt as the builder runs it -----

  class Dataset {
    var files: Tree

    constructor (files: Tree)
      ensures this.files == files
    {
      this.files := files;
    }

    /** Publish one staged file: equal bytes already there are accepted, different bytes refused. */
    method PublishFile(target: Path, bytes: Bytes) returns (ok: bool)
      modifies this
      ensures ok == (target !in old(files) || old(files)[target] == bytes)
      ensures files == if target in old(files) then old(files) else old(files)[target := bytes]
    {
      if target in files { return files[target] == bytes; }
      files := files[target := bytes];
      return true;
    }

    /** The publication loop and the commit. */
    method Finalize(b: Builder, l: Layout, i: Inputs, crash: Option<nat>) returns (outcome: Outcome)
      requires GoodLayout(l) && GoodBuilder(b, l)
      modifies this
      ensures (files, outcome) == Attempt(b, l, old(files), i, crash)
    {
      var preflight := Preflight(b, l, files, i);
      if preflight.Some? { return preflight.value; }
      var v := b.version(i);
      for k := 0 to |l.targets|
        invariant PublishFrom(files, l.targets, v.payload, k, crash) == PublishFrom(old(files), l.targets, v.payload, 0, crash)
      {
        if crash == Some(k) { return Crashed; }
        var ok := PublishFile(l.targets[k], v.payload[k]);
        if !ok { return Frozen; }
      }
      if !b.valid(i, Contents(files, l.targets)) { return Invalid; }
      if crash == Some(|l.targets|) { return Crashed; }
      var ok := PublishFile(l.marker, v.commit);
      return if ok then Committed else Frozen;
    }
  }
}
