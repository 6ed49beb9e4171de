/** The browser session object: its cursor, its shown events, and the queues its reader and its status request fill. */
module Showcase {
  import opened Options
  import opened EventLog
  import EventDelivery

  /** An event with the run it belongs to. */
  datatype RunEvent = RunEvent(run: string, event: Event)

  /** What the reader thread puts on the queue. */
  datatype Item = Got(e: RunEvent) | Error

  /** The create-run request: its payload and idempotency key. */
  datatype Request = Request(payload: string, key: string)

  /** How the create-run call ends. */
  datatype Reply = Accepted(runId: string) | Refused(status: nat) | NoAnswer

  /** A run's status: queued or running, or over. */
  datatype View = View(run: string, active: bool)

  /** What a status request puts on its queue: a status, or a failure, fatal for 401, 403 and 404. */
  datatype Answer = Status(view: View) | Failure(fatal: bool)

  /** The polling fields: the last view, consecutive failures, whether the last answer was a failure, whether a refresh
      is forced, and whether polling is paused. */
  datatype Poll = Poll(view: Option<View>, failures: nat, error: bool, force: bool, paused: bool)

  const FRESH_POLL: Poll := Poll(None, 0, false, false, false)

  datatype Submitted = Started(runId: string) | Raised | Busy

  /** The whole session. `reader` is the run whose reader thread is alive and `request` the run whose status request is;
      `finished` is set by the last reader, and `observed` once that has been taken note of. */
  datatype Page = Page(
    runId: Option<string>, events: seq<RunEvent>, cursor: nat, queue: seq<Item>, streamError: bool,
    reader: Option<string>, finished: bool, observed: bool,
    request: Option<string>, statusQueue: seq<Answer>, poll: Poll,
    closed: bool, pending: Option<Request>)

  const NEW_PAGE: Page := Page(None, [], 0, [], false, None, false, true, None, [], FRESH_POLL, false, None)

  // ----- Draining -----

  function AfterFailure(p: Poll, fatal: bool): Poll {
    var failures := if fatal then 3 else p.failures + 1;
    Poll(p.view, if failures >= 3 then 3 else failures, true, p.force, p.paused || failures >= 3)
  }

  /** Taking the answers in order: a status clears the failures, a third failure or a fatal one pauses polling. */
  function Polled(p: Poll, answers: seq<Answer>): Poll
    decreases |answers|
  {
    if answers == [] then p
    else match answers[0]
      case Status(view) => Polled(Poll(Some(view), 0, false, false, p.paused), answers[1..])
      case Failure(fatal) => Polled(AfterFailure(p, fatal), answers[1..])
  }

  /** The view is still missing or of an active run. */
  predicate MayBeActive(view: Option<View>) {
    view.None? || view.value.active
  }

  /** A forced refresh stays forced through any failures, until a status answers it. */
  lemma {:induction false} ForcedUntilAnswered(p: Poll, answers: seq<Answer>)
    ensures Polled(p, answers).force <==> p.force && forall a :: a in answers ==> a.Failure?
    ensures (forall a :: a in answers ==> a.Failure?) ==> Polled(p, answers).view == p.view
    decreases |answers|
  {
    if answers != [] {
      assert forall a :: a in answers <==> a == answers[0] || a in answers[1..];
      match answers[0] {
        case Status(view) =>
          assert answers[0] in answers && !answers[0].Failure?;
          ForcedUntilAnswered(Poll(Some(view), 0, false, false, p.paused), answers[1..]);
        case Failure(fatal) =>
          ForcedUntilAnswered(AfterFailure(p, fatal), answers[1..]);
      }
    }
  }

  /** What the page shows, and whether it shows an error. */
  datatype Shown = Shown(events: seq<RunEvent>, cursor: nat, error: bool)

  function TakeItem(s: Shown, item: Item): Shown {
    match item
    case Error => s.(error := true)
    case Got(e) => if e.event.seqNo > s.cursor then Shown(s.events + [e], e.event.seqNo, s.error) else s
  }

  function Taken(s: Shown, queue: seq<Item>): Shown
    decreases |queue|
  {
    if queue == [] then s else Taken(TakeItem(s, queue[0]), queue[1..])
  }

  function EventsOf(events: seq<RunEvent>): seq<Event> {
    seq(|events|, i requires 0 <= i < |events| => events[i].event)
  }

  function EventsIn(queue: seq<Item>): seq<Event> {
    if queue == [] then []
    else (match queue[0] case Got(e) => [e.event] case Error => []) + EventsIn(queue[1..])
  }

  lemma {:induction false} EventsJoin(queue: seq<Item>, item: Item)
    ensures EventsIn(queue + [item]) == EventsIn(queue) + (match item case Got(e) => [e.event] case Error => [])
    decreases |queue|
  {
    if queue == [] {
      assert EventsIn([]) == [];
    } else {
      assert (queue + [item])[0] == queue[0] && (queue + [item])[1..] == queue[1..] + [item];
      EventsJoin(queue[1..], item);
    }
  }

  /** The fields the delivery model speaks about. */
  function Delivery(p: Page): EventDelivery.Session {
    EventDelivery.Session(p.cursor, EventsOf(p.events), EventsIn(p.queue))
  }

  /** Taking the queue is the delivery model's draining, errors aside. */
  lemma {:induction false} TakenIsDrained(s: Shown, queue: seq<Item>)
    ensures var t := Taken(s, queue);
      EventDelivery.Drained(EventDelivery.Session(s.cursor, EventsOf(s.events), EventsIn(queue)))
        == EventDelivery.Session(t.cursor, EventsOf(t.events), [])
    ensures Taken(s, queue).error <==> s.error || Error in queue
    decreases |queue|
  {
    if queue != [] {
      TakenIsDrained(TakeItem(s, queue[0]), queue[1..]);
      assert queue == [queue[0]] + queue[1..];
      match queue[0] {
        case Error =>
          assert EventsIn(queue) == EventsIn(queue[1..]);
        case Got(e) =>
          assert EventsIn(queue)[0] == e.event && EventsIn(queue)[1..] == EventsIn(queue[1..]);
          assert EventsOf(s.events + [e]) == EventsOf(s.events) + [e.event];
      }
    }
  }

  /** Empty both queues; then take note of the reader's end once no status request is running, and force one more refresh
      unless an error is shown or the run is known to be over. */
  function Drained(p: Page): Page {
    var polled := Polled(p.poll, p.statusQueue);
    var shown := Taken(Shown(p.events, p.cursor, p.streamError), p.queue);
    var observed := p.observed || (p.finished && p.request.None?);
    var poll := if observed && !p.observed && !shown.error && MayBeActive(polled.view) then polled.(force := true) else polled;
    p.(events := shown.events, cursor := shown.cursor, queue := [], streamError := shown.error,
       observed := observed, statusQueue := [], poll := poll)
  }

  lemma DrainedDelivery(p: Page)
    ensures Delivery(Drained(p)) == EventDelivery.Drained(Delivery(p))
    ensures Drained(p).streamError <==> p.streamError || Error in p.queue
  {
    TakenIsDrained(Shown(p.events, p.cursor, p.streamError), p.queue);
  }

  predicate PollAllowed(p: Page) {
    && !p.closed && !p.poll.paused && p.runId.Some? && !p.streamError && p.poll.failures < 3
    && (p.poll.force || MayBeActive(p.poll.view))
  }

  // ----- The actions -----

  datatype Action =
    | Submit(payload: string, freshKey: string, reply: Reply)
    | Watch
    | Deliver(event: Event)
    | ReaderEnds(failed: bool)
    | Drain
    | Refresh(due: bool)
    | StatusEnds(active: Option<bool>, fatal: bool)
    | RetryStatus
    | Stop
    | Close

  /** The reader and the status request act only while they run. */
  predicate Enabled(p: Page, a: Action) {
    && (a.Deliver? || a.ReaderEnds? ==> p.reader.Some?)
    && (a.StatusEnds? ==> p.request.Some?)
  }

  predicate IsBusy(p: Page) {
    p.reader.Some? || p.request.Some?
  }

  /** A pending request is sent again unchanged. */
  function ToSend(p: Page, payload: string, freshKey: string): Request {
    if p.pending.Some? then p.pending.value else Request(payload, freshKey)
  }

  /** An answer that settles the request: acceptance, or a refusal below 500. */
  predicate Settles(reply: Reply) {
    reply.Accepted? || (reply.Refused? && reply.status < 500)
  }

  function Submitting(p: Page, request: Request, reply: Reply): Page {
    match reply
    case Accepted(id) =>
      p.(pending := None, runId := Some(id), events := [], cursor := 0, queue := [], streamError := false,
         statusQueue := [], poll := Poll(None, 0, false, true, false))
    case _ => p.(pending := if Settles(reply) then None else Some(request))
  }

  function AnswerOf(p: Page, active: Option<bool>, fatal: bool): Answer
    requires p.request.Some?
  {
    if active.Some? then Status(View(p.request.value, active.value)) else Failure(fatal)
  }

  function Do(p: Page, a: Action): Page
    requires Enabled(p, a)
  {
    match a
    case Submit(payload, freshKey, reply) =>
      if IsBusy(p) then p else Submitting(p, ToSend(p, payload, freshKey), reply)
    case Watch =>
      if p.closed || p.runId.None? || p.reader.Some? then p
      else Drained(p).(streamError := false, observed := false, finished := false, reader := p.runId)
    case Deliver(event) => p.(queue := p.queue + [Got(RunEvent(p.reader.value, event))])
    case ReaderEnds(failed) =>
      p.(queue := if failed then p.queue + [Error] else p.queue, finished := true, reader := None)
    case Drain => Drained(p)
    case Refresh(due) =>
      var q := Drained(p);
      if PollAllowed(q) && due && q.request.None? then q.(request := q.runId) else q
    case StatusEnds(active, fatal) =>
      p.(statusQueue := p.statusQueue + [AnswerOf(p, active, fatal)], request := None)
    case RetryStatus => p.(poll := Poll(p.poll.view, 0, false, true, false), streamError := false)
    case Stop => p.(poll := p.poll.(failures := 3, paused := true))
    case Close => if p.closed then p else p.(closed := true, poll := p.poll.(failures := 3, paused := true))
  }

  /** Perform the actions in order, ignoring any that is not enabled where it stands. */
  function Perform(p: Page, actions: seq<Action>): Page
    decreases |actions|
  {
    if actions == [] then p else Perform(if Enabled(p, actions[0]) then Do(p, actions[0]) else p, actions[1..])
  }

  // ----- Nothing of another run is ever shown -----

  predicate OwnItems(run: Option<string>, queue: seq<Item>) {
    forall i :: 0 <= i < |queue| && queue[i].Got? ==> Some(queue[i].e.run) == run
  }

  predicate OwnEvents(run: Option<string>, events: seq<RunEvent>) {
    forall i :: 0 <= i < |events| ==> Some(events[i].run) == run
  }

  predicate OwnAnswers(run: Option<string>, answers: seq<Answer>) {
    forall i :: 0 <= i < |answers| && answers[i].Status? ==> Some(answers[i].view.run) == run
  }

  predicate OwnView(run: Option<string>, view: Option<View>) {
    view.Some? ==> Some(view.value.run) == run
  }

  /** In increasing order up to the cursor. */
  predicate InSequence(events: seq<RunEvent>, cursor: nat) {
    && (forall i, j :: 0 <= i < j < |events| ==> events[i].event.seqNo < events[j].event.seqNo)
    && (forall i :: 0 <= i < |events| ==> events[i].event.seqNo <= cursor)
    && (events != [] ==> events[|events| - 1].event.seqNo == cursor) && (events == [] ==> cursor == 0)
  }

  /** Everything shown, queued or awaited is of the current run, and the shown events are in sequence. */
  predicate Own(p: Page) {
    && OwnEvents(p.runId, p.events) && OwnItems(p.runId, p.queue) && OwnAnswers(p.runId, p.statusQueue)
    && OwnView(p.runId, p.poll.view) && InSequence(p.events, p.cursor)
    && (p.reader.Some? ==> p.reader == p.runId) && (p.request.Some? ==> p.request == p.runId)
  }

  lemma {:induction false} TakenOwn(run: Option<string>, s: Shown, queue: seq<Item>)
    requires OwnEvents(run, s.events) && OwnItems(run, queue) && InSequence(s.events, s.cursor)
    ensures OwnEvents(run, Taken(s, queue).events) && InSequence(Taken(s, queue).events, Taken(s, queue).cursor)
    decreases |queue|
  {
    if queue != [] {
      assert OwnItems(run, queue[1..]) by {
        assert forall i :: 0 <= i < |queue| - 1 ==> queue[1..][i] == queue[i + 1];
      }
      TakenOwn(run, TakeItem(s, queue[0]), queue[1..]);
    }
  }

  lemma {:induction false} PolledOwn(run: Option<string>, p: Poll, answers: seq<Answer>)
    requires OwnView(run, p.view) && OwnAnswers(run, answers)
    ensures OwnView(run, Polled(p, answers).view)
    decreases |answers|
  {
    if answers != [] {
      assert OwnAnswers(run, answers[1..]) by {
        assert forall i :: 0 <= i < |answers| - 1 ==> answers[1..][i] == answers[i + 1];
      }
      match answers[0] {
        case Status(view) => PolledOwn(run, Poll(Some(view), 0, false, false, p.paused), answers[1..]);
        case Failure(fatal) => PolledOwn(run, AfterFailure(p, fatal), answers[1..]);
      }
    }
  }

  lemma DrainedOwn(p: Page)
    requires Own(p)
    ensures Own(Drained(p)) && Drained(p).runId == p.runId
  {
    TakenOwn(p.runId, Shown(p.events, p.cursor, p.streamError), p.queue);
    PolledOwn(p.runId, p.poll, p.statusQueue);
  }

  /** What the threads hand over is of the run they work for. */
  lemma ThreadOwn(p: Page, a: Action)
    requires Own(p) && Enabled(p, a) && (a.Deliver? || a.ReaderEnds? || a.StatusEnds?)
    ensures Own(Do(p, a))
  {
  }

  lemma PageOwn(p: Page, a: Action)
    requires Own(p) && (a.Submit? || a.RetryStatus? || a.Stop? || a.Close?)
    ensures Own(Do(p, a))
  {
  }

  lemma DoOwn(p: Page, a: Action)
    requires Own(p) && Enabled(p, a)
    ensures Own(Do(p, a))
  {
    if a.Deliver? || a.ReaderEnds? || a.StatusEnds? {
      ThreadOwn(p, a);
    } else if a.Watch? || a.Drain? || a.Refresh? {
      DrainedOwn(p);
    } else {
      PageOwn(p, a);
    }
  }

  /** Whatever the user does and however the threads answer, the page shows, in increasing order and without a repetition,
      events of the run last accepted only, and no status of another run. */
  lemma {:induction false} ShowsOwnRunOnly(p: Page, actions: seq<Action>)
    requires Own(p)
    ensures Own(Perform(p, actions))
    decreases |actions|
  {
    if actions != [] {
      if Enabled(p, actions[0]) { DoOwn(p, actions[0]); }
      ShowsOwnRunOnly(if Enabled(p, actions[0]) then Do(p, actions[0]) else p, actions[1..]);
    }
  }

  // ----- Retries are identical -----

  /** The requests sent along the actions, each with its reply. */
  function Sent(p: Page, actions: seq<Action>): seq<(Request, Reply)>
    decreases |actions|
  {
    if actions == [] then []
    else
      var a := actions[0];
      var rest := Sent(if Enabled(p, a) then Do(p, a) else p, actions[1..]);
      if a.Submit? && !IsBusy(p) then [(ToSend(p, a.payload, a.freshKey), a.reply)] + rest else rest
  }

  lemma PendingStays(p: Page, a: Action)
    requires Enabled(p, a) && !(a.Submit? && !IsBusy(p))
    ensures Do(p, a).pending == p.pending
  {
  }

  /** A pending request is what is sent next. */
  lemma {:induction false} PendingSentNext(p: Page, actions: seq<Action>)
    requires p.pending.Some?
    ensures Sent(p, actions) != [] ==> Sent(p, actions)[0].0 == p.pending.value
    decreases |actions|
  {
    if actions != [] {
      var a := actions[0];
      if !(a.Submit? && !IsBusy(p)) {
        if Enabled(p, a) { PendingStays(p, a); }
        PendingSentNext(if Enabled(p, a) then Do(p, a) else p, actions[1..]);
      }
    }
  }

  /** Along any actions, a request whose reply did not settle it is the very next request sent, payload and key unchanged. */
  lemma {:induction false} RetriesIdentical(p: Page, actions: seq<Action>)
    ensures forall i :: 0 <= i < |Sent(p, actions)| - 1 && !Settles(Sent(p, actions)[i].1) ==>
      Sent(p, actions)[i + 1].0 == Sent(p, actions)[i].0
    decreases |actions|
  {
    if actions != [] {
      var a := actions[0];
      var q := if Enabled(p, a) then Do(p, a) else p;
      RetriesIdentical(q, actions[1..]);
      if a.Submit? && !IsBusy(p) && !Settles(a.reply) { PendingSentNext(q, actions[1..]); }
      var rest := Sent(q, actions[1..]);
      if a.Submit? && !IsBusy(p) {
        assert forall i :: 1 <= i < |Sent(p, actions)| ==> Sent(p, actions)[i] == rest[i - 1];
      }
    }
  }

  // ----- The session object -----

  class ShowcaseSession {
    var runId: Option<string>
    var events: seq<RunEvent>
    var cursor: nat
    var queue: seq<Item>
    var streamError: bool
    var reader: Option<string>
    var finished: bool
    var observed: bool
    var request: Option<string>
    var statusQueue: seq<Answer>
    var poll: Poll
    var closed: bool
    var pending: Option<Request>

    constructor ()
      ensures Contents() == NEW_PAGE
    {
      runId, events, cursor, queue, streamError := None, [], 0, [], false;
      reader, finished, observed := None, false, true;
      request, statusQueue, poll := None, [], FRESH_POLL;
      closed, pending := false, None;
    }

    function Contents(): Page
      reads this
    {
      Page(runId, events, cursor, queue, streamError, reader, finished, observed, request, statusQueue, poll, closed, pending)
    }

    /** The reader thread hands over an event of its stream. */
    method Deliver(event: Event)
      requires reader.Some?
      modifies `queue
      ensures Contents() == Do(old(Contents()), Action.Deliver(event))
      ensures Delivery(Contents()).queue == Delivery(old(Contents())).queue + [event]
      ensures Error in queue <==> Error in old(queue)
    {
      EventsJoin(queue, Got(RunEvent(reader.value, event)));
      queue := queue + [Got(RunEvent(reader.value, event))];
    }

    /** The reader thread ends, with or without an error to report. */
    method ReaderEnds(failed: bool)
      requires reader.Some?
      modifies `queue, `finished, `reader
      ensures Contents() == Do(old(Contents()), Action.ReaderEnds(failed))
      ensures finished && reader.None? && Delivery(Contents()) == Delivery(old(Contents()))
      ensures Error in queue <==> failed || Error in old(queue)
    {
      if failed {
        EventsJoin(queue, Error);
        queue := queue + [Error];
      }
      finished, reader := true, None;
    }

    /** Start a status request if polling is allowed and due, and none is running. */
    method Refresh(due: bool) returns (started: bool)
      modifies `events, `cursor, `queue, `streamError, `observed, `statusQueue, `poll, `request
      ensures Contents() == Do(old(Contents()), Action.Refresh(due))
      ensures started <==> due && old(request).None? && PollAllowed(Contents())
      ensures request == if started then runId else old(request)
    {
      Drain();
      if !PollAllowed(Contents()) || !due || request.Some? { return false; }
      request := runId;
      return true;
    }

    /** The status request ends with a status or a failure. */
    method StatusEnds(active: Option<bool>, fatal: bool)
      requires request.Some?
      modifies `request, `statusQueue
      ensures Contents() == Do(old(Contents()), Action.StatusEnds(active, fatal))
    {
      statusQueue := statusQueue + [if active.Some? then Status(View(request.value, active.value)) else Failure(fatal)];
      request := None;
    }

    method RetryStatus()
      modifies `poll, `streamError
      ensures Contents() == Do(old(Contents()), Action.RetryStatus)
    {
      poll, streamError := Poll(poll.view, 0, false, true, false), false;
    }

    /** Stop observing. */
    method Stop()
      modifies `poll
      ensures Contents() == Do(old(Contents()), Action.Stop)
    {
      poll := poll.(failures := 3, paused := true);
    }

    method Close()
      modifies `poll, `closed
      ensures Contents() == Do(old(Contents()), Action.Close)
    {
      if !closed {
        closed := true;
        Stop();
      }
    }

    /** Take the answers off the status queue. */
    method DrainStatus()
      modifies `statusQueue, `poll
      ensures statusQueue == [] && poll == Polled(old(poll), old(statusQueue))
    {
      while statusQueue != []
        invariant Polled(poll, statusQueue) == Polled(old(poll), old(statusQueue))
        decreases |statusQueue|
      {
        match statusQueue[0] {
          case Status(view) =>
            poll := Poll(Some(view), 0, false, false, poll.paused);
          case Failure(fatal) =>
            var failures := if fatal then 3 else poll.failures + 1;
            poll := Poll(poll.view, if failures >= 3 then 3 else failures, true, poll.force, poll.paused || failures >= 3);
        }
        statusQueue := statusQueue[1..];
      }
    }

    /** Take the items off the event queue. */
    method DrainEvents()
      modifies `events, `cursor, `queue, `streamError
      ensures queue == []
      ensures Shown(events, cursor, streamError) == Taken(old(Shown(events, cursor, streamError)), old(queue))
    {
      while queue != []
        invariant Taken(Shown(events, cursor, streamError), queue) == Taken(old(Shown(events, cursor, streamError)), old(queue))
        decreases |queue|
      {
        match queue[0] {
          case Error =>
            streamError := true;
          case Got(e) =>
            if e.event.seqNo > cursor {
              events := events + [e];
              cursor := e.event.seqNo;
            }
        }
        queue := queue[1..];
      }
    }

    /** Empty both queues: newer events are shown and move the cursor, older ones are dropped, errors are remembered.
        The end of the reader is taken note of once no status request is running, and then forces one more refresh
        unless an error is shown or the run is known to be over. */
    method Drain()
      modifies `events, `cursor, `queue, `streamError, `observed, `statusQueue, `poll
      ensures Contents() == Drained(old(Contents()))
      ensures queue == [] && statusQueue == [] && Delivery(Contents()) == EventDelivery.Drained(Delivery(old(Contents())))
      ensures streamError == (old(streamError) || Error in old(queue))
      ensures observed == (old(observed) || (finished && request.None?))
    {
      DrainedDelivery(Contents());
      DrainStatus();
      DrainEvents();
      if finished && !observed {
        if request.Some? { return; }
        observed := true;
        if !streamError && MayBeActive(poll.view) { poll := poll.(force := true); }
      }
    }

    /** Start a reader from the drained cursor, unless closed, without a run, or already reading. */
    method Watch() returns (startFrom: Option<nat>)
      modifies `events, `cursor, `queue, `streamError, `reader, `finished, `observed, `statusQueue, `poll
      ensures Contents() == Do(old(Contents()), Action.Watch)
      ensures startFrom.Some? <==> !closed && runId.Some? && old(reader).None?
      ensures startFrom.None? ==> unchanged(this)
      ensures startFrom.Some? ==>
        reader == runId && !streamError && startFrom.value == cursor && queue == []
        && Delivery(Contents()) == EventDelivery.Drained(Delivery(old(Contents())))
    {
      if closed || runId.None? || reader.Some? { return None; }
      Drain();
      streamError, observed, finished := false, false, false;
      reader := runId;
      return Some(cursor);
    }

    /** The new run starts with an empty page and fresh polling. */
    method StartOver(id: string)
      modifies `pending, `runId, `events, `cursor, `queue, `streamError, `statusQueue, `poll
      ensures Contents() == old(Contents()).(pending := None, runId := Some(id), events := [], cursor := 0, queue := [],
        streamError := false, statusQueue := [], poll := Poll(None, 0, false, true, false))
    {
      pending := None;
      runId := Some(id);
      events, cursor, queue, streamError := [], 0, [], false;
      statusQueue, poll := [], Poll(None, 0, false, true, false);
    }

    /** Submit a request, unless a reader or a status request is running. A pending request is sent again unchanged; only
        an answer settles it: acceptance starts over with an empty page and fresh polling, a refusal below 500 forgets it,
        anything else keeps it for an identical retry. */
    method Submit(payload: string, freshKey: string, reply: Reply) returns (sent: Option<Request>, r: Submitted)
      modifies `pending, `runId, `events, `cursor, `queue, `streamError, `statusQueue, `poll
      ensures Contents() == Do(old(Contents()), Action.Submit(payload, freshKey, reply))
      ensures sent == if IsBusy(old(Contents())) then None else Some(ToSend(old(Contents()), payload, freshKey))
      ensures r == if sent.None? then Busy else if reply.Accepted? then Started(reply.runId) else Raised
      ensures sent.Some? && reply.Accepted? ==> events == [] && cursor == 0 && queue == [] && statusQueue == [] && pending.None?
      ensures sent.Some? && !reply.Accepted? ==>
        Contents() == old(Contents()).(pending := if Settles(reply) then None else sent)
      ensures sent.None? ==> unchanged(this)
    {
      if reader.Some? || request.Some? { return None, Busy; }
      if pending.None? { pending := Some(Request(payload, freshKey)); }
      sent := pending;
      match reply {
        case Accepted(id) =>
          StartOver(id);
          return sent, Started(id);
        case Refused(status) =>
          if status < 500 { pending := None; }
          return sent, Raised;
        case NoAnswer =>
          return sent, Raised;
      }
    }
  }
}
