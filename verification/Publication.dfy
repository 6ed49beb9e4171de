/** Promoting a rendered publication over the live documents, with every file operation allowed to fail. */
module Publication {
  import opened Sorting
  import opened Sequences

  type Path = string
  type Bytes = seq<int>
  type Tree = map<Path, Bytes>

  datatype Outcome = Published | RendererOmitted | PreparationFailed | PromotionFailed | RollbackIncomplete

  /** The two trees agree on one path: both hold the same bytes there, or neither has a file. */
  predicate SameAt(a: Tree, b: Tree, f: Path) {
    (f in a <==> f in b) && (f in a ==> a[f] == b[f])
  }

  /** The live tree holds the staged bytes at the dirty paths and the original bytes or absence everywhere else. */
  ghost predicate Dirty(live: Tree, before: Tree, staging: Tree, dirty: set<Path>) {
    && (forall f :: f in dirty ==> f in staging && f in live && live[f] == staging[f])
    && (forall f :: f !in dirty ==> SameAt(live, before, f))
  }

  /** The rollback area backs up exactly the pre-existing files among those given. */
  ghost predicate BacksUp(rollback: Tree, before: Tree, files: set<Path>) {
    && (forall f :: f in files ==> (f in rollback <==> f in before))
    && (forall f :: f in rollback ==> f in before && rollback[f] == before[f])
  }

  lemma CleanTree(live: Tree, before: Tree, staging: Tree)
    requires Dirty(live, before, staging, {})
    ensures live == before
  {
    assert forall f :: SameAt(live, before, f);
    assert live.Keys == before.Keys;
  }

  lemma UndoReady(rollback: Tree, before: Tree, files: seq<Path>, k: nat)
    requires k <= |files| && NoDuplicates(files) && BacksUp(rollback, before, Elements(files))
    ensures BacksUp(rollback, before, Elements(files[..k])) && NoDuplicates(files[..k])
    ensures Elements(files[..k]) <= Elements(files)
  {
  }

  lemma ListedStep(files: seq<Path>, i: nat)
    requires i < |files| && NoDuplicates(files)
    ensures Elements(files[..i + 1]) == Elements(files[..i]) + {files[i]}
    ensures files[i] !in Elements(files[..i]) && files[i] in Elements(files)
  {
    assert files[..i + 1] == files[..i] + [files[i]];
  }

  /** How many file operations preparing takes: a copy of each source, and one of each target that exists. */
  function Copies(files: seq<Path>, live: Tree): nat {
    if files == [] then 0
    else Copies(files[..|files| - 1], live) + if files[|files| - 1] in live then 2 else 1
  }

  lemma {:induction false} CopiesGrow(files: seq<Path>, live: Tree, i: nat)
    requires i <= |files|
    ensures Copies(files[..i], live) <= Copies(files, live)
  {
    if i < |files| {
      CopiesGrow(files[..|files| - 1], live, i);
      assert files[..|files| - 1][..i] == files[..i];
    } else {
      assert files[..i] == files;
    }
  }

  /** A fault struck between two readings of the clock. */
  predicate Faulted(faults: nat -> bool, from: nat, to: nat) {
    from < to && (faults(to - 1) || Faulted(faults, from, to - 1))
  }

  lemma {:induction false} FaultedJoin(faults: nat -> bool, a: nat, b: nat, c: nat)
    requires a <= b <= c
    ensures Faulted(faults, a, c) <==> Faulted(faults, a, b) || Faulted(faults, b, c)
  {
    if b < c { FaultedJoin(faults, a, b, c - 1); }
  }

  lemma {:induction false} FaultedMeans(faults: nat -> bool, from: nat, to: nat)
    ensures Faulted(faults, from, to) <==> exists n :: from <= n < to && faults(n)
  {
    if from < to { FaultedMeans(faults, from, to - 1); }
  }

  /** The first fault from then on strikes at this reading. */
  predicate FirstFault(faults: nat -> bool, from: nat, at: nat) {
    from <= at && faults(at) && !Faulted(faults, from, at)
  }

  lemma FirstFaultUnique(faults: nat -> bool, from: nat, at: nat, other: nat)
    requires FirstFault(faults, from, at) && FirstFault(faults, from, other)
    ensures at == other
  {
    FaultedMeans(faults, from, at);
    FaultedMeans(faults, from, other);
  }

  /** The files from position i on whose undoing, starting with the last one at `start`, fails. */
  ghost function Stuck(faults: nat -> bool, promoted: seq<Path>, start: nat, i: nat): set<Path>
    requires i <= |promoted|
    decreases |promoted| - i
  {
    if i == |promoted| then {}
    else
      var rest := Stuck(faults, promoted, start, i + 1);
      if faults(start + (|promoted| - 1 - i)) then rest + {promoted[i]} else rest
  }

  lemma {:induction false} StuckMeans(faults: nat -> bool, promoted: seq<Path>, start: nat, i: nat)
    requires NoDuplicates(promoted) && i <= |promoted|
    ensures forall j :: 0 <= j < |promoted| ==>
      (promoted[j] in Stuck(faults, promoted, start, i) <==> i <= j && faults(start + (|promoted| - 1 - j)))
    ensures Stuck(faults, promoted, start, i) <= Elements(promoted)
    decreases |promoted| - i
  {
    if i < |promoted| { StuckMeans(faults, promoted, start, i + 1); }
  }

  /** How a promotion whose first operation has the number `start` and whose first replacement has the number `replacing`
      ends: it fails preparing if an operation fails before any replacement, publishes if none fails up to the last
      replacement; otherwise the files replaced before the first failing replacement are undone from the last to the
      first, and those are stuck whose turn fails. */
  ghost predicate EndsBy(faults: nat -> bool, start: nat, replacing: nat, files: seq<Path>, outcome: Outcome, stuck: set<Path>) {
    && (outcome.PreparationFailed? <==> Faulted(faults, start, replacing))
    && (outcome.Published? <==> !Faulted(faults, start, replacing + |files|))
    && forall at :: replacing <= at < replacing + |files| && FirstFault(faults, start, at) ==>
      && (outcome.RollbackIncomplete? <==> stuck != {})
      && forall i :: 0 <= i < |files| ==>
        (files[i] in stuck <==> i < at - replacing && faults(at + (at - replacing - i)))
  }

  lemma EndsPrepared(faults: nat -> bool, start: nat, replacing: nat, files: seq<Path>)
    requires start <= replacing
    ensures Faulted(faults, start, replacing) ==> EndsBy(faults, start, replacing, files, PreparationFailed, {})
    ensures !Faulted(faults, start, replacing + |files|) ==> EndsBy(faults, start, replacing, files, Published, {})
  {
    FaultedJoin(faults, start, replacing, replacing + |files|);
    forall at | replacing <= at < replacing + |files| ensures !Faulted(faults, start, replacing + |files|) ==> !faults(at)
      ensures Faulted(faults, start, replacing) ==> Faulted(faults, start, at) {
      FaultedJoin(faults, start, replacing, at);
      FaultedMeans(faults, start, replacing + |files|);
    }
  }

  lemma EndsUndone(faults: nat -> bool, start: nat, replacing: nat, files: seq<Path>, k: nat, stuck: set<Path>)
    requires NoDuplicates(files) && start <= replacing && k < |files| && FirstFault(faults, start, replacing + k)
    requires stuck == Stuck(faults, files[..k], replacing + k + 1, 0)
    ensures EndsBy(faults, start, replacing, files, if stuck != {} then RollbackIncomplete else PromotionFailed, stuck)
  {
    FaultedJoin(faults, start, replacing, replacing + k);
    FaultedMeans(faults, start, replacing + |files|);
    StuckMeans(faults, files[..k], replacing + k + 1, 0);
    forall at | replacing <= at < replacing + |files| && FirstFault(faults, start, at) ensures at == replacing + k {
      FirstFaultUnique(faults, start, at, replacing + k);
    }
    forall i | 0 <= i < |files| ensures files[i] in stuck <==> i < k && faults(replacing + k + (k - i)) {
      if i < k {
        assert files[..k][i] == files[i];
      } else {
        assert files[i] !in files[..k];
      }
    }
  }

  /** Where preparing the i-th file stands among the operations. */
  lemma PreparedOne(faults: nat -> bool, start: nat, files: seq<Path>, live: Tree, i: nat)
    requires i < |files|
    ensures var turn, next := start + Copies(files[..i], live), start + Copies(files[..i + 1], live);
      && next == turn + (if files[i] in live then 2 else 1)
      && (Faulted(faults, start, next) <==> Faulted(faults, start, turn) || Faulted(faults, turn, next))
      && (Faulted(faults, start, next) ==> Faulted(faults, start, start + Copies(files, live)))
  {
    assert files[..i + 1][..i] == files[..i];
    CopiesGrow(files, live, i + 1);
    FaultedJoin(faults, start, start + Copies(files[..i], live), start + Copies(files[..i + 1], live));
    FaultedJoin(faults, start, start + Copies(files[..i + 1], live), start + Copies(files, live));
  }

  class Documents {
    /** The live documents, and the two areas of the transaction directory. */
    var live: Tree
    var prepared: Tree
    var rollback: Tree
    /** Whether the n-th file operation raises an OSError. */
    const faults: nat -> bool
    var clock: nat

    constructor (live: Tree, faults: nat -> bool)
      ensures this.live == live && this.faults == faults && clock == 0 && prepared == map[] && rollback == map[]
    {
      this.live, this.faults, this.clock := live, faults, 0;
      prepared, rollback := map[], map[];
    }

    /** One file operation: it fails when the schedule says so. */
    method Attempt() returns (ok: bool)
      modifies `clock
      ensures clock == old(clock) + 1 && ok == !faults(old(clock))
    {
      ok := !faults(clock);
      clock := clock + 1;
    }

    /** Remove what can be removed of the prepared copies. */
    method ClearPrepared()
      modifies `prepared, `clock
      ensures clock >= old(clock) && (!Faulted(faults, old(clock), clock) ==> prepared == map[])
    {
      var left := prepared.Keys;
      while left != {}
        invariant clock >= old(clock) && (!Faulted(faults, old(clock), clock) ==> prepared.Keys <= left)
        decreases |left|
      {
        var f :| f in left;
        var done := Attempt();
        if done { prepared := prepared - {f}; }
        left := left - {f};
      }
    }

    /** Remove what can be removed of the backups. */
    method ClearRollback()
      modifies `rollback, `clock
      ensures clock >= old(clock) && (!Faulted(faults, old(clock), clock) ==> rollback == map[])
    {
      var left := rollback.Keys;
      while left != {}
        invariant clock >= old(clock) && (!Faulted(faults, old(clock), clock) ==> rollback.Keys <= left)
        decreases |left|
      {
        var f :| f in left;
        var done := Attempt();
        if done { rollback := rollback - {f}; }
        left := left - {f};
      }
    }

    /** Remove what can be removed of the transaction directory, after operations from `start` on; a file that cannot be
        removed is left behind. */
    method Cleanup(ghost start: nat)
      requires start <= clock
      modifies `prepared, `rollback, `clock
      ensures clock >= old(clock) && (!Faulted(faults, start, clock) ==> prepared == map[] && rollback == map[])
      ensures Faulted(faults, start, old(clock)) ==> Faulted(faults, start, clock)
    {
      ClearPrepared();
      FaultedJoin(faults, start, old(clock), clock);
      ghost var middle := clock;
      ClearRollback();
      FaultedJoin(faults, start, middle, clock);
    }

    /** Copy one source, and its target if that exists. */
    method PrepareOne(relative: Path, staging: Tree) returns (ok: bool)
      requires relative in staging
      modifies `prepared, `rollback, `clock
      ensures var after := old(clock) + if relative in live then 2 else 1;
        clock > old(clock) && (ok <==> !Faulted(faults, old(clock), after)) && (ok ==> clock == after)
      ensures !ok ==> Faulted(faults, old(clock), clock)
      ensures ok ==> prepared == old(prepared)[relative := staging[relative]]
      ensures ok ==> rollback == if relative in live then old(rollback)[relative := live[relative]] else old(rollback)
    {
      ok := Attempt();
      assert Faulted(faults, old(clock), old(clock) + 1) <==> faults(old(clock));
      if ok {
        prepared := prepared[relative := staging[relative]];
        if relative in live {
          ok := Attempt();
          if ok { rollback := rollback[relative := live[relative]]; }
        }
      }
    }

    /** The first i files are copied: every source, and every target that exists. */
    ghost predicate Prepared(files: seq<Path>, staging: Tree, i: nat)
      requires i <= |files|
      reads this
    {
      && (forall f :: f in prepared <==> f in files[..i])
      && (forall f :: f in prepared ==> f in staging && prepared[f] == staging[f])
      && BacksUp(rollback, live, Elements(files[..i]))
    }

    method PrepareNext(files: seq<Path>, staging: Tree, i: nat, ghost start: nat) returns (ok: bool)
      requires i < |files| && (forall f :: f in files ==> f in staging) && Prepared(files, staging, i)
      requires clock == start + Copies(files[..i], live) && !Faulted(faults, start, clock)
      modifies `prepared, `rollback, `clock
      ensures ok <==> !Faulted(faults, start, clock)
      ensures if ok then Prepared(files, staging, i + 1) && clock == start + Copies(files[..i + 1], live)
              else clock >= start && Faulted(faults, start, start + Copies(files, live))
    {
      assert files[..i + 1] == files[..i] + [files[i]];
      PreparedOne(faults, start, files, live, i);
      ok := PrepareOne(files[i], staging);
      FaultedJoin(faults, start, old(clock), clock);
    }

    /** Copy every source, and every target that exists, into the transaction directory. */
    method Prepare(files: seq<Path>, staging: Tree) returns (ok: bool)
      requires forall f :: f in files ==> f in staging
      requires prepared == map[] && rollback == map[]
      modifies `prepared, `rollback, `clock
      ensures clock >= old(clock) && (!ok ==> Faulted(faults, old(clock), clock))
      ensures ok <==> !Faulted(faults, old(clock), old(clock) + Copies(files, live))
      ensures ok ==> clock == old(clock) + Copies(files, live)
      ensures ok ==> (forall f :: f in prepared <==> f in files) && forall f :: f in files ==> prepared[f] == staging[f]
      ensures ok ==> BacksUp(rollback, live, Elements(files))
    {
      for i := 0 to |files|
        invariant Prepared(files, staging, i)
        invariant clock == old(clock) + Copies(files[..i], live) && !Faulted(faults, old(clock), clock)
      {
        var done := PrepareNext(files, staging, i, old(clock));
        if !done { return false; }
      }
      assert files[..|files|] == files;
      return true;
    }

    /** Replace one target with its prepared copy. */
    method PromoteOne(target: Path, ghost before: Tree, staging: Tree, ghost dirty: set<Path>) returns (ok: bool)
      requires Dirty(live, before, staging, dirty)
      requires target in prepared && target in staging && prepared[target] == staging[target]
      modifies `live, `prepared, `clock
      ensures clock == old(clock) + 1 && ok == !faults(old(clock))
      ensures Dirty(live, before, staging, if ok then dirty + {target} else dirty)
      ensures prepared == if ok then old(prepared) - {target} else old(prepared)
    {
      ok := Attempt();
      if ok {
        live := live[target := prepared[target]];
        prepared := prepared - {target};
        forall f | f !in dirty + {target} ensures SameAt(live, before, f) {
          assert SameAt(old(live), before, f);
        }
      }
    }

    /** Undo one promoted file: put the backup back, or remove a file that was not there before. */
    method UndoOne(target: Path, ghost before: Tree, staging: Tree, ghost dirty: set<Path>) returns (ok: bool)
      requires Dirty(live, before, staging, dirty + {target}) && target !in dirty && target in live
      requires BacksUp(rollback, before, dirty + {target})
      modifies `live, `rollback, `clock
      ensures clock == old(clock) + 1 && ok == !faults(old(clock))
      ensures Dirty(live, before, staging, if ok then dirty else dirty + {target})
      ensures BacksUp(rollback, before, if ok then dirty else dirty + {target})
    {
      ok := Attempt();
      if ok {
        if target in rollback {
          live := live[target := rollback[target]];
          rollback := rollback - {target};
        } else {
          live := live - {target};
        }
        forall f | f !in dirty ensures SameAt(live, before, f) {
          assert f != target ==> SameAt(old(live), before, f);
        }
      }
    }

    /** The files from position i on are undone, apart from the stuck ones. */
    ghost predicate Undone(promoted: seq<Path>, before: Tree, staging: Tree, i: nat, stuck: set<Path>)
      requires i <= |promoted|
      reads this
    {
      && stuck <= Elements(promoted) && stuck !! Elements(promoted[..i])
      && Dirty(live, before, staging, Elements(promoted[..i]) + stuck)
      && BacksUp(rollback, before, Elements(promoted[..i]) + stuck)
    }

    method UndoNext(promoted: seq<Path>, ghost before: Tree, staging: Tree, i: nat, ghost stuck: set<Path>) returns (ok: bool)
      requires NoDuplicates(promoted) && i < |promoted| && Undone(promoted, before, staging, i + 1, stuck)
      modifies `live, `rollback, `clock
      ensures clock == old(clock) + 1 && ok == !faults(old(clock))
      ensures Undone(promoted, before, staging, i, if ok then stuck else stuck + {promoted[i]})
    {
      ListedStep(promoted, i);
      ghost var dirty := Elements(promoted[..i]) + stuck;
      assert Elements(promoted[..i + 1]) + stuck == dirty + {promoted[i]};
      assert Elements(promoted[..i]) + (stuck + {promoted[i]}) == dirty + {promoted[i]};
      ok := UndoOne(promoted[i], before, staging, dirty);
    }

    /** Undo the promoted files in reverse order; `stuck` collects those whose undo fails. */
    method Undo(promoted: seq<Path>, ghost before: Tree, staging: Tree) returns (failed: bool, ghost stuck: set<Path>)
      requires NoDuplicates(promoted) && Dirty(live, before, staging, Elements(promoted))
      requires BacksUp(rollback, before, Elements(promoted))
      modifies `live, `rollback, `clock
      ensures failed <==> stuck != {}
      ensures stuck <= Elements(promoted) && Dirty(live, before, staging, stuck) && BacksUp(rollback, before, stuck)
      ensures clock == old(clock) + |promoted| && stuck == Stuck(faults, promoted, old(clock), 0)
    {
      failed, stuck := false, {};
      var i := |promoted|;
      assert promoted[..i] == promoted && Elements(promoted) + {} == Elements(promoted);
      while i > 0
        invariant 0 <= i <= |promoted| && clock == old(clock) + (|promoted| - i) && (failed <==> stuck != {})
        invariant Undone(promoted, before, staging, i, stuck) && stuck == Stuck(faults, promoted, old(clock), i)
      {
        i := i - 1;
        var ok := UndoNext(promoted, before, staging, i, stuck);
        if !ok {
          failed := true;
          stuck := stuck + {promoted[i]};
        }
      }
      assert Elements(promoted[..0]) + stuck == stuck;
    }

    /** The first i files are replaced, the others still prepared. */
    ghost predicate Replaced(files: seq<Path>, staging: Tree, before: Tree, i: nat)
      requires i <= |files|
      reads this
    {
      && Dirty(live, before, staging, Elements(files[..i]))
      && forall j :: i <= j < |files| ==> files[j] in staging && files[j] in prepared && prepared[files[j]] == staging[files[j]]
    }

    method ReplaceNext(files: seq<Path>, staging: Tree, ghost before: Tree, i: nat) returns (ok: bool)
      requires NoDuplicates(files) && i < |files| && Replaced(files, staging, before, i)
      modifies `live, `prepared, `clock
      ensures clock == old(clock) + 1 && ok == !faults(old(clock))
      ensures Replaced(files, staging, before, if ok then i + 1 else i)
    {
      ListedStep(files, i);
      ok := PromoteOne(files[i], before, staging, Elements(files[..i]));
    }

    /** Replace the targets one by one until a replacement fails; returns the files replaced. */
    method ReplaceAll(files: seq<Path>, staging: Tree, ghost before: Tree) returns (ok: bool, promoted: seq<Path>)
      requires NoDuplicates(files) && live == before
      requires forall f :: f in files ==> f in staging && f in prepared && prepared[f] == staging[f]
      modifies `live, `prepared, `clock
      ensures promoted <= files && (ok ==> promoted == files) && Dirty(live, before, staging, Elements(promoted))
      ensures !Faulted(faults, old(clock), old(clock) + |promoted|)
      ensures clock == old(clock) + |promoted| + if ok then 0 else 1
      ensures !ok ==> |promoted| < |files| && faults(old(clock) + |promoted|)
    {
      promoted := [];
      for i := 0 to |files|
        invariant promoted == files[..i] && Replaced(files, staging, before, i)
        invariant clock == old(clock) + i && !Faulted(faults, old(clock), clock)
      {
        var done := ReplaceNext(files, staging, before, i);
        if !done { return false, promoted; }
        promoted := promoted + [files[i]];
      }
      return true, promoted;
    }

    /** Replace all targets, and undo what was replaced if that fails. */
    method Exchange(files: seq<Path>, staging: Tree, ghost start: nat) returns (outcome: Outcome, ghost stuck: set<Path>)
      requires NoDuplicates(files) && BacksUp(rollback, live, Elements(files))
      requires forall f :: f in files ==> f in staging && f in prepared && prepared[f] == staging[f]
      requires start <= clock && !Faulted(faults, start, clock)
      modifies `live, `prepared, `rollback, `clock
      ensures outcome in {Published, PromotionFailed, RollbackIncomplete} && clock >= old(clock)
      ensures stuck <= Elements(files) && (outcome.RollbackIncomplete? <==> stuck != {})
      ensures Dirty(live, old(live), staging, if outcome.Published? then Elements(files) else stuck)
      ensures outcome.Published? || BacksUp(rollback, old(live), stuck)
      ensures EndsBy(faults, start, old(clock), files, outcome, stuck)
      ensures outcome.Published? || Faulted(faults, start, clock)
    {
      stuck := {};
      ghost var before, replacing := live, clock;
      EndsPrepared(faults, start, replacing, files);
      var replaced, promoted := ReplaceAll(files, staging, before);
      FaultedJoin(faults, start, replacing, replacing + |promoted|);
      if replaced { return Published, stuck; }
      ghost var k := |promoted|;
      assert promoted == files[..k];
      UndoReady(rollback, before, files, k);
      var failed;
      failed, stuck := Undo(promoted, before, staging);
      EndsUndone(faults, start, replacing, files, k, stuck);
      FaultedJoin(faults, start, replacing + k + 1, clock);
      outcome := if failed then RollbackIncomplete else PromotionFailed;
    }

    /** Publish the files: copy everything aside, replace the targets one by one, and on a failed replacement undo.
        - published: every target holds its staged bytes and nothing else changed;
        - omitted, preparation failed, promotion failed: no live file changed;
        - rollback incomplete: exactly the stuck files hold staged bytes, every other file is as before, and each stuck
          file that existed has its original bytes in the retained rollback area.
        Which of these it is follows from the operations that fail: one of those that prepare, none of those that prepare
        and replace, or a replacement first; after it the replaced files are undone from the last to the first, and the
        stuck ones are those whose turn fails. */
    method Promote(files: seq<Path>, staging: Tree) returns (outcome: Outcome, ghost stuck: set<Path>)
      requires NoDuplicates(files)
      modifies `live, `prepared, `rollback, `clock
      ensures outcome.RendererOmitted? <==> exists f :: f in files && f !in staging
      ensures outcome.Published? ==> Dirty(live, old(live), staging, Elements(files))
      ensures outcome.RendererOmitted? || outcome.PreparationFailed? || outcome.PromotionFailed? ==> live == old(live)
      ensures outcome.RollbackIncomplete? ==>
        {} < stuck <= Elements(files) && Dirty(live, old(live), staging, stuck) && BacksUp(rollback, old(live), stuck)
      ensures !Faulted(faults, old(clock), clock) && !outcome.RendererOmitted? ==> prepared == map[] && rollback == map[]
      ensures !outcome.Published? && !outcome.RendererOmitted? ==> Faulted(faults, old(clock), clock)
      ensures !outcome.RendererOmitted? ==>
        EndsBy(faults, old(clock), old(clock) + Copies(files, old(live)), files, outcome, stuck)
    {
      stuck := {};
      ghost var before := live;
      if exists f :: f in files && f !in staging { return RendererOmitted, stuck; }
      prepared, rollback := map[], map[];
      ghost var start := clock;
      var ok := Prepare(files, staging);
      EndsPrepared(faults, start, start + Copies(files, before), files);
      if !ok {
        Cleanup(start);
        return PreparationFailed, stuck;
      }
      outcome, stuck := Exchange(files, staging, start);
      if outcome.RollbackIncomplete? { return; }
      if outcome.PromotionFailed? { CleanTree(live, before, staging); }
      Cleanup(start);
    }
  }
}
