/** The frames on the wire and the delivery model's dropped connections. */
module Wire {
  import EventLog
  import EventDelivery
  import opened Frames

  /** The frames write these events, heartbeats in between; `data` gives an event's payload lines. */
  predicate Carries(frames: seq<Frame>, wire: seq<EventLog.Event>, data: EventLog.Event -> seq<string>) {
    if frames == [] then wire == []
    else match frames[0]
      case Comment(_) => Carries(frames[1..], wire, data)
      case Event(_, _, lines) => wire != [] && lines == data(wire[0]) != [] && Carries(frames[1..], wire[1..], data)
  }

  function PayloadsOf(wire: seq<EventLog.Event>, data: EventLog.Event -> seq<string>): seq<string> {
    seq(|wire|, i requires 0 <= i < |wire| => Join(data(wire[i])))
  }

  /** The first frames carry the first events. */
  lemma {:induction false} CarriesPrefix(frames: seq<Frame>, wire: seq<EventLog.Event>, data: EventLog.Event -> seq<string>, k: nat)
    returns (keep: nat)
    requires Carries(frames, wire, data) && k <= |frames|
    ensures keep <= |wire| && Payloads(frames[..k]) == PayloadsOf(wire[..keep], data)
    ensures k == |frames| ==> keep == |wire|
    ensures WellFormed(frames)
    decreases |frames|
  {
    if frames == [] { return 0; }
    var head := if frames[0].Event? then 1 else 0;
    var rest := CarriesPrefix(frames[1..], wire[head..], data, if k == 0 then 0 else k - 1);
    assert forall i :: 1 <= i < |frames| ==> frames[i] == frames[1..][i - 1];
    if k == 0 { return 0; }
    keep := head + rest;
    assert frames[..k][0] == frames[0] && frames[..k][1..] == frames[1..][..k - 1];
    assert wire[head..][..rest] == wire[head..keep];
    if head == 1 {
      assert PayloadsOf(wire[..keep], data) == [Join(data(wire[0]))] + PayloadsOf(wire[1..][..rest], data);
    }
  }

  /** However the bytes on the wire are cut off, what the client's reader gets out of them is what the delivery model's
      step of dropping the connection leaves on the wire: some first events, complete. */
  lemma CutIsDrop(s: EventDelivery.State, frames: seq<Frame>, data: EventLog.Event -> seq<string>, cut: nat, partial: string)
    returns (keep: nat)
    requires s.connection.Open? && s.client.phase.Streaming? && Carries(frames, s.wire, data)
    requires cut <= |Encoded(frames)| && (partial != "" ==> cut < |Encoded(frames)| && partial <= Encoded(frames)[cut])
    ensures EventDelivery.Enabled(s, EventDelivery.Drop(keep))
    ensures Dispatched(Arrived(frames, cut, partial), []) == PayloadsOf(EventDelivery.Apply(s, EventDelivery.Drop(keep)).wire, data)
  {
    keep := CarriesPrefix(frames, s.wire, data, CompleteFrames(frames, cut));
    CutStream(frames, cut, partial);
  }
}
