/** Server stream, reconnecting client and browser session as interleaved steps over one run's log.
    Every step is one thing that happens between two suspension points of the three programs. */
module EventDelivery {
  import opened EventLog

  /** Where the server's stream loop stands. `upto` is the last sequence number of the snapshot being sent;
      `seen` is the length of the log when the stream ended. */
  datatype Phase =
    | Reading
    | Sending(pending: seq<Event>, upto: nat)
    | Checking
    | Confirming
    | Waiting
    | Ended(seen: nat)

  /** One response: the header cursor it began with, its own cursor, and everything it has yielded. */
  datatype Connection = Connection(start: nat, cursor: nat, sent: seq<Event>, phase: Phase)

  datatype OptionalConnection = NoConnection | Open(c: Connection)

  /** Where the client's retry loop stands. */
  datatype ClientPhase =
    | Idle
    | Connecting
    | Streaming
    | AtEof(seen: nat)
    | Finished(seen: nat)
    | Stopped
    | Failed
    | Exhausted

  datatype Client = Client(cursor: nat, attempt: nat, phase: ClientPhase)

  /** The page's side: what it has shown, and the queue its worker thread fills. */
  datatype Session = Session(cursor: nat, events: seq<Event>, queue: seq<Event>)

  /** `base` is the cursor observation began with; `wireEnd` is the number of the last event put on the wire
      that can still arrive. */
  datatype State = State(
    log: seq<Event>, terminal: bool, connection: OptionalConnection,
    wire: seq<Event>, wireEnd: nat, client: Client, session: Session, base: nat)

  datatype StatusReply = Answered | TransportLost | HttpFailed

  datatype Action =
    | Append(e: Event)
    | SetTerminal(to: bool)
    | Connect
    | Refused
    | ServerStep
    | Drop(keep: nat)
    | Receive
    | Lost
    | Eof
    | AskStatus(reply: StatusReply)
    | Stop
    | Fail
    | Drain
    | Watch

  const ATTEMPTS: nat := 6

  // ----- The programs' steps -----

  function Clamped(cursor: nat): nat {
    if cursor < MAX_STORED_SEQ then cursor else MAX_STORED_SEQ
  }

  /** One turn of the server's loop, from one await or yield to the next. */
  function Serve(log: seq<Event>, terminal: bool, c: Connection): (Connection, seq<Event>) {
    match c.phase
    case Reading =>
      var durable := After(log, Clamped(c.cursor));
      (c.(phase := Sending(durable, LastSeq(durable, c.cursor))), [])
    case Sending(pending, upto) =>
      if pending == [] then (c.(phase := Checking), [])
      else if pending[0].seqNo <= c.cursor then (c.(phase := Sending(pending[1..], upto)), [])
      else (Connection(c.start, pending[0].seqNo, c.sent + [pending[0]], Sending(pending[1..], upto)), [pending[0]])
    case Checking =>
      (c.(phase := if terminal then Confirming else Waiting), [])
    case Confirming =>
      (c.(phase := if After(log, Clamped(c.cursor)) != [] then Reading else Ended(|log|)), [])
    case Waiting =>
      (c.(phase := Reading), [])
    case Ended(_) => (c, [])
  }

  predicate Active(p: ClientPhase) {
    p.Connecting? || p.Streaming? || p.AtEof?
  }

  /** A failed attempt: try again until six are used, then give up with the current cursor. */
  function AfterAttempt(c: Client): Client {
    if c.attempt + 1 < ATTEMPTS then Client(c.cursor, c.attempt + 1, Connecting) else c.(phase := Exhausted)
  }

  /** Take one frame: older or repeated numbers are skipped. */
  function Take(cursor: nat, queue: seq<Event>, e: Event): (nat, seq<Event>) {
    if e.seqNo <= cursor then (cursor, queue) else (e.seqNo, queue + [e])
  }

  /** Move the queue into the shown events. */
  function Drained(s: Session): Session
    decreases |s.queue|
  {
    if s.queue == [] then s
    else
      var e := s.queue[0];
      if e.seqNo > s.cursor then Drained(Session(e.seqNo, s.events + [e], s.queue[1..]))
      else Drained(Session(s.cursor, s.events, s.queue[1..]))
  }

  /** Leave the response: the connection and whatever is still on the wire are gone. */
  function Hangup(s: State, client: Client): State {
    s.(connection := NoConnection, wire := [], wireEnd := client.cursor, client := client)
  }

  predicate Enabled(s: State, a: Action) {
    match a
    case Append(e) => Ascending(s.log + [e])
    case SetTerminal(_) => true
    case Connect => s.client.phase.Connecting?
    case Refused => s.client.phase.Connecting?
    case ServerStep => s.connection.Open?
    case Drop(keep) => s.connection.Open? && s.client.phase.Streaming? && keep <= |s.wire|
    case Receive => s.client.phase.Streaming? && s.wire != []
    case Lost => s.client.phase.Streaming? && s.wire == [] && s.connection.NoConnection?
    case Eof => s.client.phase.Streaming? && s.wire == [] && s.connection.Open? && s.connection.c.phase.Ended?
    case AskStatus(_) => s.client.phase.AtEof?
    case Stop => Active(s.client.phase)
    case Fail => Active(s.client.phase)
    case Drain => true
    case Watch => !Active(s.client.phase)
  }

  function Apply(s: State, a: Action): State
    requires Enabled(s, a)
  {
    match a
    case Append(e) => s.(log := s.log + [e])
    case SetTerminal(to) => s.(terminal := to)
    case Connect =>
      s.(connection := Open(Connection(s.client.cursor, s.client.cursor, [], Reading)),
         wire := [], wireEnd := s.client.cursor, client := s.client.(phase := Streaming))
    case Refused => Hangup(s, AfterAttempt(s.client))
    case ServerStep =>
      var (c, frames) := Serve(s.log, s.terminal, s.connection.c);
      s.(connection := Open(c), wire := s.wire + frames, wireEnd := c.cursor)
    case Drop(keep) =>
      s.(connection := NoConnection, wire := s.wire[..keep], wireEnd := LastSeq(s.wire[..keep], s.client.cursor))
    case Receive =>
      var (cursor, queue) := Take(s.client.cursor, s.session.queue, s.wire[0]);
      s.(wire := s.wire[1..], client := s.client.(cursor := cursor), session := s.session.(queue := queue))
    case Lost => Hangup(s, AfterAttempt(s.client))
    case Eof => Hangup(s, s.client.(phase := AtEof(s.connection.c.phase.seen)))
    case AskStatus(reply) =>
      (match reply
       case Answered => s.(client := if s.terminal then s.client.(phase := Finished(s.client.phase.seen)) else AfterAttempt(s.client))
       case TransportLost => s.(client := AfterAttempt(s.client))
       case HttpFailed => s.(client := s.client.(phase := Failed)))
    case Stop => Hangup(s, s.client.(phase := Stopped))
    case Fail => Hangup(s, s.client.(phase := Failed))
    case Drain => s.(session := Drained(s.session))
    case Watch =>
      var session := Drained(s.session);
      s.(session := session, client := Client(session.cursor, 0, Connecting),
         connection := NoConnection, wire := [], wireEnd := session.cursor)
  }

  /** A session that has shown nothing, over whatever the log already holds. */
  function Start(log: seq<Event>, terminal: bool, base: nat): State {
    State(log, terminal, NoConnection, [], base, Client(base, 0, Idle), Session(base, [], []), base)
  }

  /** Perform the actions in order, ignoring any that is not enabled where it stands. */
  function Run(s: State, actions: seq<Action>): State
    decreases |actions|
  {
    if actions == [] then s
    else Run(if Enabled(s, actions[0]) then Apply(s, actions[0]) else s, actions[1..])
  }

  // ----- What every run keeps -----

  ghost predicate ConnectionInv(log: seq<Event>, base: nat, c: Connection) {
    && base <= c.start <= c.cursor && Reached(log, base, c.start) && Reached(log, base, c.cursor)
    && c.sent == Between(log, c.start, c.cursor)
    && (c.phase.Sending? ==>
          && c.cursor <= c.phase.upto && Reached(log, base, c.phase.upto)
          && c.phase.pending == Between(log, c.cursor, c.phase.upto))
    && (c.phase.Ended? ==> SeenAll(log, base, c.phase.seen, c.cursor) && c.sent == After(log[..c.phase.seen], c.start))
  }

  /** Up to the cursor lies exactly what the first `seen` entries of the log hold after base. */
  predicate SeenAll(log: seq<Event>, base: nat, seen: nat, cursor: nat) {
    seen <= |log| && Between(log, base, cursor) == After(log[..seen], base)
  }

  ghost predicate Inv(s: State) {
    && Ascending(s.log)
    && s.base <= s.session.cursor <= s.client.cursor <= s.wireEnd
    && Reached(s.log, s.base, s.session.cursor) && Reached(s.log, s.base, s.client.cursor) && Reached(s.log, s.base, s.wireEnd)
    && s.session.events == Between(s.log, s.base, s.session.cursor)
    && s.session.queue == Between(s.log, s.session.cursor, s.client.cursor)
    && s.wire == Between(s.log, s.client.cursor, s.wireEnd)
    && (s.connection.Open? ==>
          && s.client.phase.Streaming? && s.connection.c.start <= s.client.cursor
          && ConnectionInv(s.log, s.base, s.connection.c) && s.connection.c.cursor == s.wireEnd)
    && (!s.client.phase.Streaming? ==> s.wireEnd == s.client.cursor)
    && (s.client.phase.AtEof? ==> SeenAll(s.log, s.base, s.client.phase.seen, s.client.cursor))
    && (s.client.phase.Finished? ==> SeenAll(s.log, s.base, s.client.phase.seen, s.client.cursor))
    && s.client.attempt < ATTEMPTS
  }

  lemma SlicesSurviveAppend(log: seq<Event>, e: Event, base: nat, lo: nat, hi: nat)
    requires Ascending(log + [e]) && base <= lo <= hi && Reached(log, base, lo) && Reached(log, base, hi)
    ensures Reached(log + [e], base, lo) && Reached(log + [e], base, hi)
    ensures Between(log + [e], lo, hi) == Between(log, lo, hi)
  {
    ReachedAppend(log, e, base, lo);
    ReachedAppend(log, e, base, hi);
  }

  lemma SeenSurvivesAppend(log: seq<Event>, e: Event, base: nat, seen: nat, cursor: nat)
    requires Ascending(log + [e]) && base <= cursor && Reached(log, base, cursor) && SeenAll(log, base, seen, cursor)
    ensures SeenAll(log + [e], base, seen, cursor)
  {
    assert (log + [e])[..seen] == log[..seen];
  }

  lemma ConnectionAppend(log: seq<Event>, e: Event, base: nat, c: Connection)
    requires Ascending(log + [e]) && ConnectionInv(log, base, c)
    ensures ConnectionInv(log + [e], base, c)
  {
    SlicesSurviveAppend(log, e, base, c.start, c.cursor);
    if c.phase.Sending? { SlicesSurviveAppend(log, e, base, c.cursor, c.phase.upto); }
    if c.phase.Ended? {
      SeenSurvivesAppend(log, e, base, c.phase.seen, c.cursor);
      assert (log + [e])[..c.phase.seen] == log[..c.phase.seen];
    }
  }

  lemma AppendKeeps(s: State, e: Event)
    requires Inv(s) && Ascending(s.log + [e])
    ensures Inv(Apply(s, Append(e)))
  {
    assert Ascending(s.log);
    SlicesSurviveAppend(s.log, e, s.base, s.base, s.session.cursor);
    SlicesSurviveAppend(s.log, e, s.base, s.session.cursor, s.client.cursor);
    SlicesSurviveAppend(s.log, e, s.base, s.client.cursor, s.wireEnd);
    if s.connection.Open? { ConnectionAppend(s.log, e, s.base, s.connection.c); }
    if s.client.phase.AtEof? || s.client.phase.Finished? {
      SeenSurvivesAppend(s.log, e, s.base, s.client.phase.seen, s.client.cursor);
    }
  }

  /** One server turn keeps the connection's account: what was sent is the slice from start to cursor,
      and the frame it may add is the very next event. */
  lemma ServeKeeps(log: seq<Event>, terminal: bool, base: nat, c: Connection)
    requires Ascending(log) && ConnectionInv(log, base, c)
    ensures var (c', frames) := Serve(log, terminal, c);
      ConnectionInv(log, base, c') && c'.start == c.start && c.cursor <= c'.cursor && frames == Between(log, c.cursor, c'.cursor)
  {
    BetweenEmpty(log, c.cursor, c.cursor);
    match c.phase {
      case Reading =>
        AfterIsBetween(log, c.cursor);
      case Sending(pending, upto) =>
        if pending != [] {
          BetweenHead(log, c.cursor, upto);
          var next := pending[0].seqNo;
          BetweenJoin(log, c.start, c.cursor, next);
          assert Reached(log, base, next) by {
            var i :| 0 <= i < |log| && log[i] == pending[0];
          }
        }
      case Checking =>
      case Confirming =>
        if After(log, Clamped(c.cursor)) == [] { EndKeeps(log, base, c); }
      case Waiting =>
      case Ended(_) =>
    }
  }

  /** Ending the stream when nothing is listed after the cursor. */
  lemma EndKeeps(log: seq<Event>, base: nat, c: Connection)
    requires Ascending(log) && ConnectionInv(log, base, c) && After(log, Clamped(c.cursor)) == []
    ensures ConnectionInv(log, base, c.(phase := Ended(|log|)))
  {
    AfterUnbounded(log, c.cursor, LastSeq(log, c.cursor) + c.cursor);
    AfterSplits(log, c.start, c.cursor);
    AfterSplits(log, base, c.cursor);
    assert log[..|log|] == log;
  }

  lemma ServerStepKeeps(s: State)
    requires Inv(s) && s.connection.Open?
    ensures Inv(Apply(s, ServerStep))
  {
    ServeKeeps(s.log, s.terminal, s.base, s.connection.c);
    var (c, frames) := Serve(s.log, s.terminal, s.connection.c);
    BetweenJoin(s.log, s.client.cursor, s.wireEnd, c.cursor);
  }

  /** Any prefix of a slice is the slice up to its own last event. */
  lemma {:induction false} SlicePrefix(log: seq<Event>, base: nat, lo: nat, hi: nat, keep: nat)
    requires Ascending(log) && lo <= hi && Reached(log, base, lo) && keep <= |Between(log, lo, hi)|
    ensures var p := Between(log, lo, hi)[..keep]; var end := LastSeq(p, lo);
      lo <= end <= hi && Reached(log, base, end) && p == Between(log, lo, end)
    decreases keep
  {
    if keep == 0 {
      BetweenEmpty(log, lo, lo);
    } else {
      var s := Between(log, lo, hi);
      BetweenHead(log, lo, hi);
      var next := s[0].seqNo;
      assert Reached(log, base, next) by {
        var i :| 0 <= i < |log| && log[i] == s[0];
      }
      SlicePrefix(log, base, next, hi, keep - 1);
      var tail := s[1..][..keep - 1];
      assert s[..keep] == [s[0]] + tail;
      assert LastSeq(s[..keep], lo) == LastSeq(tail, next);
      BetweenJoin(log, lo, next, LastSeq(tail, next));
    }
  }

  lemma ReceiveKeeps(s: State)
    requires Inv(s) && s.client.phase.Streaming? && s.wire != []
    ensures Inv(Apply(s, Receive))
  {
    BetweenHead(s.log, s.client.cursor, s.wireEnd);
    var next := s.wire[0].seqNo;
    BetweenJoin(s.log, s.session.cursor, s.client.cursor, next);
    assert Reached(s.log, s.base, next) by {
      var i :| 0 <= i < |s.log| && s.log[i] == s.wire[0];
    }
  }

  /** Draining shows everything queued, in order, and moves the session's cursor to the client's. */
  lemma {:induction false} DrainedAll(log: seq<Event>, base: nat, s: Session, to: nat)
    requires Ascending(log) && base <= s.cursor <= to && Reached(log, base, s.cursor) && Reached(log, base, to)
    requires s.events == Between(log, base, s.cursor) && s.queue == Between(log, s.cursor, to)
    ensures Drained(s).queue == [] && Drained(s).cursor == LastSeq(s.queue, s.cursor)
    ensures Drained(s).events == Between(log, base, to)
    decreases |s.queue|
  {
    if s.queue == [] {
      BetweenJoin(log, base, s.cursor, to);
    } else {
      BetweenHead(log, s.cursor, to);
      var next := s.queue[0].seqNo;
      BetweenJoin(log, base, s.cursor, next);
      assert Reached(log, base, next) by {
        var i :| 0 <= i < |log| && log[i] == s.queue[0];
      }
      DrainedAll(log, base, Session(next, s.events + [s.queue[0]], s.queue[1..]), to);
    }
  }

  /** The last event of a slice ending at a reached cursor carries that cursor. */
  lemma SliceEnd(log: seq<Event>, base: nat, lo: nat, hi: nat)
    requires Ascending(log) && base <= lo <= hi && Reached(log, base, hi)
    ensures LastSeq(Between(log, lo, hi), lo) == hi
  {
    var s := Between(log, lo, hi);
    BetweenMembers(log, lo, hi);
    if lo < hi {
      var i :| 0 <= i < |log| && log[i].seqNo == hi;
      assert log[i] in s;
      var j :| 0 <= j < |s| && s[j] == log[i];
      BetweenAscending(log, lo, hi);
      assert s[|s| - 1] in s;
      assert s[j].seqNo <= s[|s| - 1].seqNo;
    } else {
      BetweenEmpty(log, lo, hi);
    }
  }

  lemma DrainFacts(s: State)
    requires Inv(s)
    ensures Drained(s.session) == Session(s.client.cursor, Between(s.log, s.base, s.client.cursor), [])
  {
    DrainedAll(s.log, s.base, s.session, s.client.cursor);
    SliceEnd(s.log, s.base, s.session.cursor, s.client.cursor);
  }

  lemma EndingKeeps(s: State, a: Action)
    requires Inv(s) && Enabled(s, a) && (a.Drop? || a.Lost? || a.Eof?)
    ensures Inv(Apply(s, a))
  {
    BetweenEmpty(s.log, s.client.cursor, s.client.cursor);
    if a.Drop? {
      SlicePrefix(s.log, s.base, s.client.cursor, s.wireEnd, a.keep);
    } else {
      SliceEnd(s.log, s.base, s.client.cursor, s.wireEnd);
    }
  }

  lemma ConnectingKeeps(s: State, a: Action)
    requires Inv(s) && Enabled(s, a) && (a.Connect? || a.Refused?)
    ensures Inv(Apply(s, a))
  {
    BetweenEmpty(s.log, s.client.cursor, s.client.cursor);
  }

  lemma LeavingKeeps(s: State, a: Action)
    requires Inv(s) && Enabled(s, a) && (a.Stop? || a.Fail?)
    ensures Inv(Apply(s, a))
  {
    BetweenEmpty(s.log, s.client.cursor, s.client.cursor);
  }

  lemma AskingKeeps(s: State, reply: StatusReply)
    requires Inv(s) && s.client.phase.AtEof?
    ensures Inv(Apply(s, AskStatus(reply)))
  {
  }

  lemma PageKeeps(s: State, a: Action)
    requires Inv(s) && Enabled(s, a) && (a.Drain? || a.Watch?)
    ensures Inv(Apply(s, a))
  {
    BetweenEmpty(s.log, s.client.cursor, s.client.cursor);
    DrainFacts(s);
  }

  /** Every enabled step keeps the invariant. */
  lemma StepKeeps(s: State, a: Action)
    requires Inv(s) && Enabled(s, a)
    ensures Inv(Apply(s, a)) && Apply(s, a).base == s.base
  {
    match a {
      case Append(e) => AppendKeeps(s, e);
      case SetTerminal(_) =>
      case Connect => ConnectingKeeps(s, a);
      case Refused => ConnectingKeeps(s, a);
      case ServerStep => ServerStepKeeps(s);
      case Drop(_) => EndingKeeps(s, a);
      case Receive => ReceiveKeeps(s);
      case Lost => EndingKeeps(s, a);
      case Eof => EndingKeeps(s, a);
      case AskStatus(reply) => AskingKeeps(s, reply);
      case Stop => LeavingKeeps(s, a);
      case Fail => LeavingKeeps(s, a);
      case Drain => PageKeeps(s, a);
      case Watch => PageKeeps(s, a);
    }
  }

  lemma StartKeeps(log: seq<Event>, terminal: bool, base: nat)
    requires Ascending(log)
    ensures Inv(Start(log, terminal, base))
  {
    BetweenEmpty(log, base, base);
  }

  lemma {:induction false} RunKeeps(s: State, actions: seq<Action>)
    requires Inv(s)
    ensures Inv(Run(s, actions)) && Run(s, actions).base == s.base
    decreases |actions|
  {
    if actions != [] {
      if Enabled(s, actions[0]) {
        StepKeeps(s, actions[0]);
        RunKeeps(Apply(s, actions[0]), actions[1..]);
      } else {
        RunKeeps(s, actions[1..]);
      }
    }
  }

  // ----- What the page and the callers see -----

  lemma {:induction false} SliceFromZero(log: seq<Event>, hi: nat)
    requires Ascending(log)
    ensures Between(log, 0, hi) <= log
  {
    if log != [] {
      SliceFromZero(log[..|log| - 1], hi);
      var init := Between(log[..|log| - 1], 0, hi);
      if log[|log| - 1].seqNo <= hi {
        SliceAllOf(log[..|log| - 1], hi);
      }
    }
  }

  lemma {:induction false} SliceAllOf(log: seq<Event>, hi: nat)
    requires Ascending(log) && forall i :: 0 <= i < |log| ==> log[i].seqNo <= hi
    ensures Between(log, 0, hi) == log
  {
    if log != [] {
      SliceAllOf(log[..|log| - 1], hi);
      assert log[|log| - 1].seqNo >= 1;
    }
  }

  /** However appends, disconnections, reconnections, re-watching and draining interleave, the events shown are a
      prefix of the log: no gap, no duplicate, in order, up to the session's cursor. */
  lemma ShownIsPrefix(log: seq<Event>, terminal: bool, actions: seq<Action>)
    requires Ascending(log)
    ensures var s := Run(Start(log, terminal, 0), actions);
      s.session.events <= s.log && Ascending(s.session.events) && s.session.cursor == LastSeq(s.session.events, 0)
  {
    StartKeeps(log, terminal, 0);
    RunKeeps(Start(log, terminal, 0), actions);
    var s := Run(Start(log, terminal, 0), actions);
    SliceFromZero(s.log, s.session.cursor);
    BetweenAscending(s.log, 0, s.session.cursor);
    SliceEnd(s.log, 0, 0, s.session.cursor);
  }

  lemma AfterSplits(log: seq<Event>, base: nat, cursor: nat)
    requires Ascending(log) && base <= cursor
    ensures Between(log, base, cursor) + After(log, cursor) == After(log, base)
  {
    var high := LastSeq(log, cursor) + cursor;
    AfterUnbounded(log, base, high);
    AfterUnbounded(log, cursor, high);
    BetweenJoin(log, base, cursor, high);
  }

  /** Whenever the reader has given up, stopped, failed or finished, draining brings the session to the cursor the
      reader ended with, and what is shown plus what the store lists after that cursor is everything after the
      starting cursor: watching again resumes with no gap and no overlap. In particular for the cursor carried by
      an exhausted reconnection. */
  lemma ResumesWithoutGap(log: seq<Event>, terminal: bool, base: nat, actions: seq<Action>)
    requires Ascending(log)
    ensures var s := Run(Start(log, terminal, base), actions);
      var drained := Drained(s.session);
      drained.cursor == s.client.cursor && drained.queue == []
      && drained.events + After(s.log, s.client.cursor) == After(s.log, base)
    ensures var s := Run(Start(log, terminal, base), actions);
      !Active(s.client.phase) ==> Apply(s, Watch).client == Client(s.client.cursor, 0, Connecting)
  {
    StartKeeps(log, terminal, base);
    RunKeeps(Start(log, terminal, base), actions);
    var s := Run(Start(log, terminal, base), actions);
    DrainFacts(s);
    AfterSplits(s.log, base, s.client.cursor);
  }

  /** For any header cursor: when the server ends the stream, it has sent exactly the events after that cursor that
      the log held at that moment. */
  lemma ServerEofIsComplete(log: seq<Event>, terminal: bool, base: nat, actions: seq<Action>)
    requires Ascending(log)
    ensures var s := Run(Start(log, terminal, base), actions);
      s.connection.Open? && s.connection.c.phase.Ended? ==>
        var c := s.connection.c;
        c.phase.seen <= |s.log| && c.sent == After(s.log[..c.phase.seen], c.start)
  {
    StartKeeps(log, terminal, base);
    RunKeeps(Start(log, terminal, base), actions);
  }

  /** When the reader has finished, what is shown once the queue is drained is exactly what the log held after the
      starting cursor when the server ended the stream; nothing is missing exactly when nothing beyond the starting
      cursor was appended later. */
  lemma FinishedDelivered(log: seq<Event>, terminal: bool, base: nat, actions: seq<Action>)
    requires Ascending(log)
    ensures var s := Run(Start(log, terminal, base), actions);
      s.client.phase.Finished? ==>
        var seen := s.client.phase.seen;
        && seen <= |s.log| && Drained(s.session).events == After(s.log[..seen], base)
        && (Drained(s.session).events == After(s.log, base) <==> forall i :: seen <= i < |s.log| ==> s.log[i].seqNo <= base)
  {
    StartKeeps(log, terminal, base);
    RunKeeps(Start(log, terminal, base), actions);
    var s := Run(Start(log, terminal, base), actions);
    DrainFacts(s);
    if s.client.phase.Finished? { AfterOfPrefix(s.log, s.client.phase.seen, base); }
  }

  /** A prefix of the log lists as much after a cursor as the whole log exactly when the rest lies at or below the cursor. */
  lemma {:induction false} AfterOfPrefix(log: seq<Event>, k: nat, base: nat)
    requires k <= |log|
    ensures |After(log[..k], base)| <= |After(log, base)|
    ensures After(log[..k], base) == After(log, base) <==> forall i :: k <= i < |log| ==> log[i].seqNo <= base
  {
    if k == |log| {
      assert log[..k] == log;
    } else {
      var init := log[..|log| - 1];
      AfterOfPrefix(init, k, base);
      assert init[..k] == log[..k];
      if log[|log| - 1].seqNo <= base { assert After(log, base) == After(init, base); }
    }
  }

  // ----- When the last event commits no later than the terminal status -----

  /** Along the run no event is appended once the status is terminal, and a terminal status is final. */
  predicate Settles(s: State, actions: seq<Action>)
    decreases |actions|
  {
    actions == [] || (
      var a := actions[0];
      && (Enabled(s, a) && s.terminal ==> !a.Append? && (a.SetTerminal? ==> a.to))
      && Settles(if Enabled(s, a) then Apply(s, a) else s, actions[1..]))
  }

  predicate Settled(s: State) {
    && (s.connection.Open? && s.connection.c.phase.Confirming? ==> s.terminal)
    && (s.connection.Open? && s.connection.c.phase.Ended? ==> s.terminal && s.connection.c.phase.seen == |s.log|)
    && (s.client.phase.AtEof? ==> s.terminal && s.client.phase.seen == |s.log|)
    && (s.client.phase.Finished? ==> s.terminal && s.client.phase.seen == |s.log|)
  }

  lemma {:induction false} RunSettles(s: State, actions: seq<Action>)
    requires Settled(s) && Settles(s, actions)
    ensures Settled(Run(s, actions))
    decreases |actions|
  {
    if actions != [] {
      RunSettles(if Enabled(s, actions[0]) then Apply(s, actions[0]) else s, actions[1..]);
    }
  }

  /** Then a server that ended the stream has sent every event after the header cursor. */
  lemma SettledServerSendsAll(log: seq<Event>, terminal: bool, base: nat, actions: seq<Action>)
    requires Ascending(log) && Settles(Start(log, terminal, base), actions)
    ensures var s := Run(Start(log, terminal, base), actions);
      s.connection.Open? && s.connection.c.phase.Ended? ==> s.terminal && s.connection.c.sent == After(s.log, s.connection.c.start)
  {
    RunSettles(Start(log, terminal, base), actions);
    ServerEofIsComplete(log, terminal, base, actions);
    var s := Run(Start(log, terminal, base), actions);
    assert s.log[..|s.log|] == s.log;
  }

  /** And a finished reader has delivered every event after the starting cursor. */
  lemma SettledRunDeliversAll(log: seq<Event>, terminal: bool, base: nat, actions: seq<Action>)
    requires Ascending(log) && Settles(Start(log, terminal, base), actions)
    ensures var s := Run(Start(log, terminal, base), actions);
      s.client.phase.Finished? ==> Drained(s.session).events == After(s.log, base)
  {
    RunSettles(Start(log, terminal, base), actions);
    FinishedDelivered(log, terminal, base, actions);
    var s := Run(Start(log, terminal, base), actions);
    assert s.log[..|s.log|] == s.log;
  }

  lemma RunStep(s: State, actions: seq<Action>, k: nat, s': State)
    requires k < |actions| && Enabled(s, actions[k]) && Apply(s, actions[k]) == s'
    ensures Run(s, actions[k..]) == Run(s', actions[k + 1..])
  {
    assert actions[k..][1..] == actions[k + 1..];
  }

  const LATE: Event := Event(1, "")

  /** Watch an already terminal empty run to the server's end of stream; then resume, append, terminate; then ask. */
  const MISSED_END: seq<Action> := [
    Watch, Connect, ServerStep, ServerStep, ServerStep, ServerStep, Eof,
    SetTerminal(false), Append(LATE), SetTerminal(true), AskStatus(Answered)]

  const QUIET: Connection := Connection(0, 0, [], Reading)

  function Watched(c: Connection): State {
    Start([], true, 0).(client := Client(0, 0, Streaming), connection := Open(c))
  }

  /** A server turn over the empty terminal log that sends nothing. */
  lemma QuietTurn(c: Connection, c': Connection)
    requires Serve([], true, c) == (c', []) && c'.cursor == 0
    ensures Enabled(Watched(c), ServerStep) && Apply(Watched(c), ServerStep) == Watched(c')
  {
  }

  lemma MissedUntilSnapshot()
    ensures Run(Start([], true, 0), MISSED_END) == Run(Watched(QUIET.(phase := Sending([], 0))), MISSED_END[3..])
  {
    var s0 := Start([], true, 0);
    assert MISSED_END[0..] == MISSED_END;
    RunStep(s0, MISSED_END, 0, s0.(client := Client(0, 0, Connecting)));
    RunStep(s0.(client := Client(0, 0, Connecting)), MISSED_END, 1, Watched(QUIET));
    RunStep(Watched(QUIET), MISSED_END, 2, Watched(QUIET.(phase := Sending([], 0))));
  }

  lemma MissedUntilEof()
    ensures Run(Watched(QUIET.(phase := Sending([], 0))), MISSED_END[3..])
         == Run(Start([], true, 0).(client := Client(0, 0, AtEof(0))), MISSED_END[7..])
  {
    var s3 := Watched(QUIET.(phase := Sending([], 0)));
    var s4, s5, s6 := Watched(QUIET.(phase := Checking)), Watched(QUIET.(phase := Confirming)), Watched(QUIET.(phase := Ended(0)));
    QuietTurn(QUIET.(phase := Sending([], 0)), QUIET.(phase := Checking));
    QuietTurn(QUIET.(phase := Checking), QUIET.(phase := Confirming));
    QuietTurn(QUIET.(phase := Confirming), QUIET.(phase := Ended(0)));
    assert MISSED_END[3] == MISSED_END[4] == MISSED_END[5] == ServerStep && MISSED_END[6] == Eof;
    RunStep(s3, MISSED_END, 3, s4);
    RunStep(s4, MISSED_END, 4, s5);
    RunStep(s5, MISSED_END, 5, s6);
    RunStep(s6, MISSED_END, 6, Start([], true, 0).(client := Client(0, 0, AtEof(0))));
  }

  /** The condition is needed: an interrupted run resumed between the server's end of stream and the client's status
      request can append an event the finished reader never asks for. */
  lemma ResumedRunCanMissTheEnd()
    ensures var s := Run(Start([], true, 0), MISSED_END);
      s.client.phase.Finished? && Drained(s.session).events == [] && s.log == [LATE]
  {
    MissedUntilSnapshot();
    MissedUntilEof();
    var s7 := Start([], true, 0).(client := Client(0, 0, AtEof(0)));
    var s8 := s7.(terminal := false);
    var s9 := s8.(log := [LATE]);
    var s10 := s9.(terminal := true);
    var s11 := s10.(client := Client(0, 0, Finished(0)));
    assert [] + [LATE] == [LATE];
    RunStep(s7, MISSED_END, 7, s8);
    RunStep(s8, MISSED_END, 8, s9);
    RunStep(s9, MISSED_END, 9, s10);
    RunStep(s10, MISSED_END, 10, s11);
  }
}
