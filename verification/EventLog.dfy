/** The durable event log of one run and its slices by sequence number. */
module EventLog {

  datatype Event = Event(seqNo: nat, body: string)

  /** The largest sequence number the store's integer column holds. */
  const MAX_STORED_SEQ: nat := 0x7fff_ffff

  /** Appended in increasing order, from 1, within the stored range. */
  predicate Ascending(log: seq<Event>) {
    && (forall i, j :: 0 <= i < j < |log| ==> log[i].seqNo < log[j].seqNo)
    && (forall i :: 0 <= i < |log| ==> 1 <= log[i].seqNo <= MAX_STORED_SEQ)
  }

  /** The events with lo < seq <= hi, in order. */
  function Between(log: seq<Event>, lo: nat, hi: nat): seq<Event> {
    if log == [] then []
    else
      var init, last := Between(log[..|log| - 1], lo, hi), log[|log| - 1];
      if lo < last.seqNo <= hi then init + [last] else init
  }

  /** The store's `list_events_after`. */
  function After(log: seq<Event>, cursor: nat): seq<Event> {
    if log == [] then []
    else
      var init, last := After(log[..|log| - 1], cursor), log[|log| - 1];
      if cursor < last.seqNo then init + [last] else init
  }

  /** A cursor that is where observation began or the number of a logged event. */
  predicate Reached(log: seq<Event>, base: nat, cursor: nat) {
    cursor == base || exists i :: 0 <= i < |log| && log[i].seqNo == cursor
  }

  /** The number of the last event, or `otherwise` for an empty list. */
  function LastSeq(events: seq<Event>, otherwise: nat): nat {
    if events == [] then otherwise else events[|events| - 1].seqNo
  }

  lemma {:induction false} BetweenMembers(log: seq<Event>, lo: nat, hi: nat)
    ensures forall e :: e in Between(log, lo, hi) <==> e in log && lo < e.seqNo <= hi
  {
    if log != [] {
      BetweenMembers(log[..|log| - 1], lo, hi);
      assert log == log[..|log| - 1] + [log[|log| - 1]];
    }
  }

  lemma {:induction false} BetweenEmpty(log: seq<Event>, lo: nat, hi: nat)
    requires forall i :: 0 <= i < |log| ==> !(lo < log[i].seqNo <= hi)
    ensures Between(log, lo, hi) == []
  {
    if log != [] { BetweenEmpty(log[..|log| - 1], lo, hi); }
  }

  /** Adjacent slices join. */
  lemma {:induction false} BetweenJoin(log: seq<Event>, a: nat, b: nat, c: nat)
    requires Ascending(log) && a <= b <= c
    ensures Between(log, a, b) + Between(log, b, c) == Between(log, a, c)
  {
    if log != [] {
      BetweenJoin(log[..|log| - 1], a, b, c);
      if log[|log| - 1].seqNo <= b { BetweenEmpty(log[..|log| - 1], b, c); }
    }
  }

  lemma ReachedAppend(log: seq<Event>, e: Event, base: nat, cursor: nat)
    requires Reached(log, base, cursor)
    ensures Reached(log + [e], base, cursor)
  {
    if cursor != base {
      var i :| 0 <= i < |log| && log[i].seqNo == cursor;
      assert (log + [e])[i].seqNo == cursor;
    }
  }

  lemma {:induction false} BetweenAscending(log: seq<Event>, lo: nat, hi: nat)
    requires Ascending(log)
    ensures Ascending(Between(log, lo, hi))
  {
    if log != [] {
      BetweenAscending(log[..|log| - 1], lo, hi);
      BetweenMembers(log[..|log| - 1], lo, hi);
      AppendAscending(Between(log[..|log| - 1], lo, hi), log);
    }
  }

  lemma AppendAscending(s: seq<Event>, log: seq<Event>)
    requires Ascending(log) && log != [] && Ascending(s) && forall e :: e in s ==> e in log[..|log| - 1]
    ensures Ascending(s + [log[|log| - 1]])
  {
    forall i | 0 <= i < |s| ensures s[i].seqNo < log[|log| - 1].seqNo {
      assert s[i] in s;
    }
  }

  /** What the store lists after a cursor is a slice ending at a reached cursor, whatever the clamping. */
  lemma {:induction false} AfterIsBetween(log: seq<Event>, cursor: nat)
    requires Ascending(log)
    ensures var listed := After(log, if cursor < MAX_STORED_SEQ then cursor else MAX_STORED_SEQ);
      var end := LastSeq(listed, cursor);
      listed == Between(log, cursor, end) && end >= cursor && Reached(log, cursor, end)
  {
    var clamped := if cursor < MAX_STORED_SEQ then cursor else MAX_STORED_SEQ;
    if log == [] {
    } else {
      var init, last := log[..|log| - 1], log[|log| - 1];
      AfterIsBetween(init, cursor);
      assert log == init + [last];
      if cursor < last.seqNo {
        AfterUnbounded(init, cursor, last.seqNo);
        assert log[|log| - 1].seqNo == last.seqNo;
      } else {
        BetweenEmpty(init, cursor, LastSeq(After(init, clamped), cursor));
      }
    }
  }

  /** Nothing follows the last event, so an upper bound beyond it makes no difference. */
  lemma {:induction false} AfterUnbounded(log: seq<Event>, cursor: nat, high: nat)
    requires Ascending(log) && forall i :: 0 <= i < |log| ==> log[i].seqNo <= high
    ensures After(log, if cursor < MAX_STORED_SEQ then cursor else MAX_STORED_SEQ) == Between(log, cursor, high)
    ensures After(log, if cursor < MAX_STORED_SEQ then cursor else MAX_STORED_SEQ) == After(log, cursor)
  {
    if log != [] {
      AfterUnbounded(log[..|log| - 1], cursor, high);
      assert log[|log| - 1].seqNo <= MAX_STORED_SEQ;
    }
  }

  /** The first event of a slice is the very next one after its lower end. */
  lemma BetweenHead(log: seq<Event>, lo: nat, hi: nat)
    requires Ascending(log) && Between(log, lo, hi) != []
    ensures var e := Between(log, lo, hi)[0];
      lo < e.seqNo <= hi && e in log && Between(log, lo, e.seqNo) == [e] && Between(log, lo, hi)[1..] == Between(log, e.seqNo, hi)
  {
    var s := Between(log, lo, hi);
    var e := s[0];
    BetweenMembers(log, lo, hi);
    assert e in s;
    BetweenAscending(log, lo, hi);
    BetweenMembers(log, lo, e.seqNo);
    var first := Between(log, lo, e.seqNo);
    BetweenJoin(log, lo, e.seqNo, hi);
    BetweenAscending(log, lo, e.seqNo);
    assert e in first;
    assert forall i :: 0 < i < |s| ==> s[0].seqNo < s[i].seqNo;
    forall i | 0 <= i < |first| ensures first[i] == e {
      assert first[i] in first && first[i] in s;
    }
    assert |first| == 1;
  }
}
