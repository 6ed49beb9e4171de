/** Reading the lines of an event stream back into payloads. Line and field rules follow
    sections 9.2.5 and 9.2.6 of the WHATWG HTML Living Standard, as far as the client uses them. */
module Frames {
  import opened Options

  /** The position of the first colon, or the length of the line. */
  function ColonAt(line: string): (i: nat)
    ensures i <= |line| && (i < |line| ==> line[i] == ':') && forall j :: 0 <= j < i ==> line[j] != ':'
  {
    if line == "" || line[0] == ':' then 0 else 1 + ColonAt(line[1..])
  }

  function DropSpace(s: string): string {
    if s != "" && s[0] == ' ' then s[1..] else s
  }

  /** What a nonblank line contributes: comments and other fields contribute nothing. */
  function DataOf(line: string): Option<string> {
    if line != "" && line[0] == ':' then None
    else
      var i := ColonAt(line);
      if line[..i] != "data" then None
      else if i == |line| then Some("")
      else Some(DropSpace(line[i + 1..]))
  }

  function Join(parts: seq<string>): string {
    if parts == [] then ""
    else if |parts| == 1 then parts[0]
    else parts[0] + "\n" + Join(parts[1..])
  }

  /** The payloads dispatched from lines when `data` has been collected so far: only a blank line dispatches,
      so whatever an unterminated frame collected is dropped. */
  function Dispatched(lines: seq<string>, data: seq<string>): seq<string> {
    if lines == [] then []
    else if lines[0] == "" then (if data == [] then [] else [Join(data)]) + Dispatched(lines[1..], [])
    else match DataOf(lines[0])
      case None => Dispatched(lines[1..], data)
      case Some(piece) => Dispatched(lines[1..], data + [piece])
  }

  /** The client's reader: reset and append as the lines come. */
  method SseData(lines: seq<string>) returns (out: seq<string>)
    ensures out == Dispatched(lines, [])
  {
    out := [];
    var data: seq<string> := [];
    for i := 0 to |lines|
      invariant out + Dispatched(lines[i..], data) == Dispatched(lines, [])
    {
      var line := lines[i];
      if line == "" {
        if data != [] { out := out + [Join(data)]; }
        data := [];
      } else if line[0] != ':' {
        var colon := ColonAt(line);
        if line[..colon] == "data" {
          data := data + [if colon < |line| then DropSpace(line[colon + 1..]) else ""];
        }
      }
    }
    assert lines[|lines|..] == [];
  }

  /** A line contributes v exactly if it is the bare field name, for empty v, or the field name, a colon, at most one
      space, and v: "data: " and v, or "data:" and v when v does not start with a space. */
  lemma DataFields(line: string, v: string)
    ensures DataOf(line) == Some(v) <==>
      (line == "data" && v == "") || line == "data: " + v || (line == "data:" + v && !([' '] <= v))
  {
    var i := ColonAt(line);
    if line[..i] == "data" && i < |line| {
      assert line == "data:" + line[i + 1..];
      SplitSpace(line[i + 1..], v);
      if line == "data: " + v { assert line[i + 1..] == " " + v; }
      if line == "data:" + v { assert line[i + 1..] == v; }
    } else if line == "data" {
    } else {
      DataLine(v);
      DataLine(" " + v);
      SplitSpace(v, v);
    }
  }

  lemma SplitSpace(rest: string, v: string)
    ensures DropSpace(rest) == v <==> rest == " " + v || (rest == v && !([' '] <= v))
    ensures "data:" + (" " + v) == "data: " + v
  {
  }

  lemma DataLine(w: string)
    ensures ColonAt("data:" + w) == 4 && ("data:" + w)[..4] == "data" && |"data:" + w| > 4
  {
    var line := "data:" + w;
    assert line[0] == 'd' && line[1] == 'a' && line[2] == 't' && line[3] == 'a' && line[4] == ':';
  }

  // ----- What the server writes -----

  /** An event with its payload split into lines, or a heartbeat comment. */
  datatype Frame = Event(id: string, kind: string, data: seq<string>) | Comment(text: string)

  function DataLines(data: seq<string>): seq<string> {
    if data == [] then [] else ["data: " + data[0]] + DataLines(data[1..])
  }

  function Body(f: Frame): seq<string> {
    match f
    case Event(id, kind, data) => ["id: " + id, "event: " + kind] + DataLines(data)
    case Comment(text) => [": " + text]
  }

  function Encoded(frames: seq<Frame>): seq<string> {
    if frames == [] then [] else Body(frames[0]) + [""] + Encoded(frames[1..])
  }

  /** The payloads of the frames, comments excepted. */
  function Payloads(frames: seq<Frame>): seq<string> {
    if frames == [] then []
    else (if frames[0].Event? then [Join(frames[0].data)] else []) + Payloads(frames[1..])
  }

  predicate WellFormed(frames: seq<Frame>) {
    forall i :: 0 <= i < |frames| && frames[i].Event? ==> frames[i].data != []
  }

  /** Lines that collect data without dispatching. */
  function Collected(lines: seq<string>): seq<string> {
    if lines == [] then []
    else (match DataOf(lines[0]) case None => [] case Some(piece) => [piece]) + Collected(lines[1..])
  }

  lemma {:induction false} NonblankRun(run: seq<string>, rest: seq<string>, data: seq<string>)
    requires forall i :: 0 <= i < |run| ==> run[i] != ""
    ensures Dispatched(run + rest, data) == Dispatched(rest, data + Collected(run))
  {
    if run == [] {
      assert run + rest == rest && data + [] == data;
    } else {
      assert (run + rest)[1..] == run[1..] + rest && (run + rest)[0] == run[0];
      match DataOf(run[0]) {
        case None =>
          NonblankRun(run[1..], rest, data);
          assert Collected(run) == Collected(run[1..]);
        case Some(piece) =>
          NonblankRun(run[1..], rest, data + [piece]);
          assert data + [piece] + Collected(run[1..]) == data + ([piece] + Collected(run[1..]));
      }
    }
  }

  lemma PrefixedLine(name: string, value: string)
    requires name in {"id", "event", "data"}
    ensures DataOf(name + ": " + value) == if name == "data" then Some(value) else None
  {
    var line := name + ": " + value;
    assert line[|name|] == ':' && forall j :: 0 <= j < |name| ==> line[j] == name[j] != ':';
    assert ColonAt(line) == |name|;
    assert line[..|name|] == name;
    assert line[|name| + 1..] == " " + value;
    assert (" " + value)[1..] == value;
  }

  lemma {:induction false} DataLinesCollected(data: seq<string>)
    ensures Collected(DataLines(data)) == data
    ensures forall i :: 0 <= i < |DataLines(data)| ==> DataLines(data)[i] != ""
  {
    if data != [] {
      PrefixedLine("data", data[0]);
      assert "data: " + data[0] == "data" + ": " + data[0];
      DataLinesCollected(data[1..]);
    }
  }

  lemma BodyCollected(f: Frame)
    ensures Collected(Body(f)) == if f.Event? then f.data else []
    ensures forall i :: 0 <= i < |Body(f)| ==> Body(f)[i] != ""
  {
    match f {
      case Event(id, kind, data) =>
        PrefixedLine("id", id);
        PrefixedLine("event", kind);
        assert "id: " + id == "id" + ": " + id && "event: " + kind == "event" + ": " + kind;
        DataLinesCollected(data);
        assert Body(f)[1..] == ["event: " + kind] + DataLines(data);
        assert Body(f)[1..][1..] == DataLines(data);
      case Comment(text) =>
        assert Collected(Body(f)[1..]) == [];
    }
  }

  lemma FrameDispatched(f: Frame, rest: seq<string>)
    requires f.Event? ==> f.data != []
    ensures Dispatched(Body(f) + [""] + rest, []) == (if f.Event? then [Join(f.data)] else []) + Dispatched(rest, [])
  {
    BodyCollected(f);
    assert Body(f) + [""] + rest == Body(f) + ([""] + rest);
    NonblankRun(Body(f), [""] + rest, []);
    assert ([""] + rest)[1..] == rest;
    assert [] + Collected(Body(f)) == Collected(Body(f));
  }

  /** Reading a complete stream gives back exactly the payloads written, heartbeats ignored. */
  lemma {:induction false} RoundTrip(frames: seq<Frame>)
    requires WellFormed(frames)
    ensures Dispatched(Encoded(frames), []) == Payloads(frames)
  {
    if frames != [] {
      FrameDispatched(frames[0], Encoded(frames[1..]));
      RoundTrip(frames[1..]);
    }
  }

  /** How many frames lie entirely within the first `cut` lines. */
  function CompleteFrames(frames: seq<Frame>, cut: nat): (k: nat)
    ensures k <= |frames|
  {
    if frames == [] || cut < |Body(frames[0])| + 1 then 0
    else 1 + CompleteFrames(frames[1..], cut - (|Body(frames[0])| + 1))
  }

  /** What arrives of the stream: the first lines, and perhaps the beginning of the next one. */
  function Arrived(frames: seq<Frame>, cut: nat, partial: string): seq<string>
    requires cut <= |Encoded(frames)|
  {
    Encoded(frames)[..cut] + if partial == "" then [] else [partial]
  }

  /** A last line that is not blank dispatches nothing. */
  lemma {:induction false} TrailingLine(lines: seq<string>, last: string, data: seq<string>)
    requires last != ""
    ensures Dispatched(lines + [last], data) == Dispatched(lines, data)
    decreases |lines|
  {
    if lines == [] {
      assert (lines + [last])[1..] == [];
    } else {
      assert (lines + [last])[0] == lines[0] && (lines + [last])[1..] == lines[1..] + [last];
      TrailingLine(lines[1..], last, []);
      match DataOf(lines[0]) {
        case None => TrailingLine(lines[1..], last, data);
        case Some(piece) => TrailingLine(lines[1..], last, data + [piece]);
      }
    }
  }

  lemma CutInFrame(f: Frame, cut: nat)
    requires cut <= |Body(f)|
    ensures Dispatched(Body(f)[..cut], []) == []
  {
    BodyCollected(f);
    NonblankRun(Body(f)[..cut], [], []);
    assert Body(f)[..cut] + [] == Body(f)[..cut];
  }

  lemma {:induction false} CutAtLine(frames: seq<Frame>, cut: nat)
    requires WellFormed(frames) && cut <= |Encoded(frames)|
    ensures Dispatched(Encoded(frames)[..cut], []) == Payloads(frames[..CompleteFrames(frames, cut)])
  {
    if frames == [] {
    } else {
      var first, n := Body(frames[0]), |Body(frames[0])| + 1;
      var lines := Encoded(frames)[..cut];
      if cut < n {
        assert lines == first[..cut];
        CutInFrame(frames[0], cut);
        assert frames[..0] == [];
      } else {
        var rest := Encoded(frames[1..])[..cut - n];
        assert lines == first + [""] + rest;
        FrameDispatched(frames[0], rest);
        CutAtLine(frames[1..], cut - n);
        var k := CompleteFrames(frames, cut);
        assert frames[..k][1..] == frames[1..][..k - 1] && frames[..k][0] == frames[0];
      }
    }
  }

  lemma {:induction false} PayloadsPrefix(frames: seq<Frame>, k: nat)
    requires k <= |frames|
    ensures Payloads(frames[..k]) <= Payloads(frames)
  {
    if k > 0 {
      PayloadsPrefix(frames[1..], k - 1);
      assert frames[..k][0] == frames[0] && frames[..k][1..] == frames[1..][..k - 1];
    }
  }

  /** A stream cut anywhere, even inside a line, delivers the payloads of the frames whose last line arrived, and nothing
      of the broken one: a prefix of what was sent. */
  lemma CutStream(frames: seq<Frame>, cut: nat, partial: string)
    requires WellFormed(frames) && cut <= |Encoded(frames)|
    requires partial != "" ==> cut < |Encoded(frames)| && partial <= Encoded(frames)[cut]
    ensures Dispatched(Arrived(frames, cut, partial), []) == Payloads(frames[..CompleteFrames(frames, cut)])
    ensures Dispatched(Arrived(frames, cut, partial), []) <= Payloads(frames)
  {
    CutAtLine(frames, cut);
    PayloadsPrefix(frames, CompleteFrames(frames, cut));
    if partial != "" { TrailingLine(Encoded(frames)[..cut], partial, []); }
    assert partial == "" ==> Arrived(frames, cut, partial) == Encoded(frames)[..cut];
  }
}
