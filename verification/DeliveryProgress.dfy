/** The delivery moves on: without losses a terminal run is delivered in boundedly many steps, and the reader gives up
    after six failed attempts and not before. */
module DeliveryProgress {
  import opened EventLog
  import opened EventDelivery

  /** Steps that carry the delivery forward: connecting, a server turn before the end of its stream, receiving a frame,
      noticing the end of the stream, and an answered status request. */
  predicate Forward(s: State, a: Action) {
    Enabled(s, a) && (a.Connect? || a.Receive? || a.Eof? || a == AskStatus(Answered)
      || (a.ServerStep? && !s.connection.c.phase.Ended?))
  }

  predicate AllForward(s: State, actions: seq<Action>)
    decreases |actions|
  {
    actions == [] || (Forward(s, actions[0]) && AllForward(Apply(s, actions[0]), actions[1..]))
  }

  /** A reader at work on a terminal run, over a live connection if it streams. */
  ghost predicate Observing(s: State) {
    && Inv(s) && Settled(s) && s.terminal
    && (s.client.phase.Connecting? || s.connection.Open? || s.client.phase.AtEof? || s.client.phase.Finished?)
  }

  /** A server's steps for another round over n events, none if n is 0; sending counts twice, for the receiving. */
  function Round(n: nat): nat {
    if n == 0 then 0 else 2 * n + 4
  }

  function ServerWork(log: seq<Event>, c: Connection): nat {
    var rest := |After(log, c.cursor)|;
    match c.phase
    case Reading => 2 * rest + 4
    case Sending(pending, upto) => 2 * |pending| + 3 + Round(|After(log, upto)|)
    case Checking => 2 + Round(rest)
    case Confirming => 1 + Round(rest)
    case Waiting => 2 * rest + 5
    case Ended(_) => 0
  }

  /** How many forward steps are left at most. */
  function Work(s: State): nat {
    match s.client.phase
    case Connecting => 2 * |After(s.log, s.client.cursor)| + 7
    case Streaming => if s.connection.Open? then ServerWork(s.log, s.connection.c) + |s.wire| + 2 else 0
    case AtEof(_) => 1
    case _ => 0
  }

  lemma ListedAfter(log: seq<Event>, cursor: nat)
    requires Ascending(log)
    ensures var listed := After(log, Clamped(cursor));
      listed == After(log, cursor) && LastSeq(listed, cursor) >= cursor && After(log, LastSeq(listed, cursor)) == []
  {
    var listed := After(log, Clamped(cursor));
    AfterUnbounded(log, cursor, LastSeq(log, cursor) + cursor);
    AfterIsBetween(log, cursor);
    AfterSplits(log, cursor, LastSeq(listed, cursor));
  }

  /** A server turn on a terminal run, before the end of the stream, leaves less work. */
  lemma ServeWorks(log: seq<Event>, base: nat, c: Connection)
    requires Ascending(log) && ConnectionInv(log, base, c) && !c.phase.Ended?
    ensures var (c', frames) := Serve(log, true, c); ServerWork(log, c') + |frames| < ServerWork(log, c)
  {
    ListedAfter(log, c.cursor);
    if c.phase.Sending? && c.phase.pending == [] {
      SliceEnd(log, base, c.cursor, c.phase.upto);
    }
  }

  lemma ServerSteps(s: State)
    requires Observing(s) && Forward(s, ServerStep)
    ensures Work(Apply(s, ServerStep)) < Work(s)
  {
    ServeWorks(s.log, s.base, s.connection.c);
  }

  lemma ClientSteps(s: State, a: Action)
    requires Observing(s) && Forward(s, a) && !a.ServerStep?
    ensures Work(Apply(s, a)) < Work(s)
  {
  }

  lemma StaysObserving(s: State, a: Action)
    requires Observing(s) && Forward(s, a)
    ensures var t := Apply(s, a); (Inv(t) ==> Observing(t)) && t.log == s.log && t.base == s.base
  {
  }

  lemma ForwardSteps(s: State, a: Action)
    requires Observing(s) && Forward(s, a)
    ensures var t := Apply(s, a); Observing(t) && Work(t) < Work(s) && t.log == s.log && t.base == s.base
  {
    StepKeeps(s, a);
    StaysObserving(s, a);
    if a.ServerStep? { ServerSteps(s); } else { ClientSteps(s, a); }
  }

  lemma NextStep(s: State) returns (a: Action)
    requires Observing(s) && !s.client.phase.Finished?
    ensures Forward(s, a)
  {
    if s.client.phase.Connecting? { return Connect; }
    if s.client.phase.AtEof? { return AskStatus(Answered); }
    a := if s.wire != [] then Receive else if s.connection.c.phase.Ended? then Eof else ServerStep;
  }

  lemma WorkBound(s: State)
    requires Observing(s)
    ensures Work(s) <= 2 * |After(s.log, s.client.cursor)| + 9
  {
    if s.connection.Open? {
      var c := s.connection.c;
      AfterSplits(s.log, s.client.cursor, s.wireEnd);
      if c.phase.Sending? { AfterSplits(s.log, c.cursor, c.phase.upto); }
    }
  }

  lemma {:induction false} ForwardRun(s: State, actions: seq<Action>)
    requires Observing(s) && AllForward(s, actions)
    ensures var t := Run(s, actions); Observing(t) && t.log == s.log && t.base == s.base && |actions| + Work(t) <= Work(s)
    decreases |actions|
  {
    if actions != [] {
      ForwardSteps(s, actions[0]);
      ForwardRun(Apply(s, actions[0]), actions[1..]);
    }
  }

  lemma ObservingDelivers(s: State)
    requires Observing(s) && s.client.phase.Finished?
    ensures Drained(s.session).events == After(s.log, s.base)
  {
    DrainFacts(s);
    assert s.log[..|s.log|] == s.log;
  }

  /** A reader that is about to connect to a terminal run, or is being served by a stream not yet ended. */
  predicate Served(s: State) {
    s.terminal && (s.client.phase.Connecting? || (s.connection.Open? && !s.connection.c.phase.Ended?))
  }

  lemma ServedObserves(log: seq<Event>, terminal: bool, base: nat, past: seq<Action>)
    requires Ascending(log) && Served(Run(Start(log, terminal, base), past))
    ensures Observing(Run(Start(log, terminal, base), past)) && Run(Start(log, terminal, base), past).base == base
  {
    StartKeeps(log, terminal, base);
    RunKeeps(Start(log, terminal, base), past);
  }

  /** Whatever happened before: from there every schedule of forward steps ends within two steps for each event after
      the client's cursor and nine more; it can only end with the reader finished; and then everything the log holds
      after the starting cursor is shown. */
  lemma EveryScheduleDelivers(log: seq<Event>, terminal: bool, base: nat, past: seq<Action>, actions: seq<Action>)
    requires Ascending(log)
    requires var s := Run(Start(log, terminal, base), past); Served(s) && AllForward(s, actions)
    ensures var s := Run(Start(log, terminal, base), past);
      var t := Run(s, actions);
      && |actions| <= 2 * |After(s.log, s.client.cursor)| + 9
      && (t.client.phase.Finished? <==> forall a :: !Forward(t, a))
      && (t.client.phase.Finished? ==> Drained(t.session).events == After(s.log, base))
  {
    var s := Run(Start(log, terminal, base), past);
    ServedObserves(log, terminal, base, past);
    ForwardRun(s, actions);
    WorkBound(s);
    var t := Run(s, actions);
    if t.client.phase.Finished? {
      ObservingDelivers(t);
    } else {
      var a := NextStep(t);
    }
  }

  // ----- Giving up -----

  /** A failed attempt: the connection is refused or lost, or the end of the stream is not confirmed by a terminal status. */
  predicate AttemptFails(s: State, a: Action) {
    Enabled(s, a) && (a.Refused? || a.Lost? || a == AskStatus(TransportLost) || (a == AskStatus(Answered) && !s.terminal))
  }

  /** The failed attempts since the last time the reader was started, with `count` of them before the actions. */
  function FailuresSince(s: State, count: nat, actions: seq<Action>): nat
    decreases |actions|
  {
    if actions == [] then count
    else
      var a := actions[0];
      var next := if Enabled(s, a) && a.Watch? then 0 else if AttemptFails(s, a) then count + 1 else count;
      FailuresSince(if Enabled(s, a) then Apply(s, a) else s, next, actions[1..])
  }

  lemma {:induction false} FailuresCounted(s: State, count: nat, actions: seq<Action>)
    requires if s.client.phase.Exhausted? then count == 6 else count == s.client.attempt < 6
    ensures Run(s, actions).client.phase.Exhausted? <==> FailuresSince(s, count, actions) == 6
    ensures FailuresSince(s, count, actions) <= 6
    decreases |actions|
  {
    if actions != [] {
      var a := actions[0];
      var next := if Enabled(s, a) && a.Watch? then 0 else if AttemptFails(s, a) then count + 1 else count;
      FailuresCounted(if Enabled(s, a) then Apply(s, a) else s, next, actions[1..]);
    }
  }

  /** In every run the reader has given up exactly when six attempts have failed since it was last started. */
  lemma GivesUpAfterSix(log: seq<Event>, terminal: bool, base: nat, actions: seq<Action>)
    ensures var failures := FailuresSince(Start(log, terminal, base), 0, actions);
      failures <= 6 && (Run(Start(log, terminal, base), actions).client.phase.Exhausted? <==> failures == 6)
  {
    FailuresCounted(Start(log, terminal, base), 0, actions);
  }
}
