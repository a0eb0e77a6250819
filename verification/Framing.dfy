/** Messages on a stream socket: four bytes of length, then the payload, however `recv` cuts it. */
module Framing {
  import opened Wrappers

  type Byte = b: nat | b < 256

  type Bytes = seq<Byte>

  const TOP: nat := 0x1_0000_0000

  /** A payload whose length fits the header. */
  type Payload = p: Bytes | |p| < TOP

  // ---------------------------------------------------------------- the wire format

  /** `struct.pack("I", n)` on a little-endian machine */
  function Pack(n: nat): (r: Bytes)
    requires n < TOP
    ensures |r| == 4
  {
    [n % 256, n / 0x100 % 256, n / 0x1_0000 % 256, n / 0x100_0000]
  }

  /** `struct.unpack("I", b)[0]` */
  function Unpack(b: Bytes): (n: nat)
    requires |b| == 4
    ensures n < TOP
  {
    b[0] as nat + 256 * (b[1] as nat + 256 * (b[2] as nat + 256 * (b[3] as nat)))
  }

  lemma UnpackUndoesPack(n: nat)
    requires n < TOP
    ensures Unpack(Pack(n)) == n
  {
    var a, b := n / 0x100, n / 0x1_0000;
    assert a / 256 == b && b / 256 == n / 0x100_0000;
    assert n == 256 * a + n % 256 && a == 256 * b + a % 256 && b == 256 * (b / 256) + b % 256;
  }

  function Frame(p: Payload): Bytes {
    Pack(|p|) + p
  }

  function Frames(ps: seq<Payload>): Bytes {
    if ps == [] then [] else Frame(ps[0]) + Frames(ps[1..])
  }

  /** The whole messages at the front of a stream. */
  function Deframe(s: Bytes): seq<Payload>
    decreases |s|
  {
    if |s| < 4 || |s| < 4 + Unpack(s[..4]) then []
    else
      var n := Unpack(s[..4]);
      [s[4..4 + n]] + Deframe(s[4 + n..])
  }

  /** What is left behind the whole messages: nothing, or the beginning of a message. */
  function Remainder(s: Bytes): (r: Bytes)
    ensures |r| <= |s|
    decreases |s|
  {
    if |s| < 4 || |s| < 4 + Unpack(s[..4]) then s else Remainder(s[4 + Unpack(s[..4])..])
  }

  lemma DeframeFirst(p: Payload, s: Bytes)
    ensures Deframe(Frame(p) + s) == [p] + Deframe(s) && Remainder(Frame(p) + s) == Remainder(s)
  {
    var all := Frame(p) + s;
    UnpackUndoesPack(|p|);
    hide Pack, Unpack;
    assert all[..4] == Pack(|p|) && all[4..4 + |p|] == p && all[4 + |p|..] == s;
  }

  /** Every sequence of messages comes out of the stream as it went in, whatever follows. */
  lemma {:induction false} DeframeUndoesFrames(ps: seq<Payload>, s: Bytes)
    ensures Deframe(Frames(ps) + s) == ps + Deframe(s) && Remainder(Frames(ps) + s) == Remainder(s)
  {
    hide Deframe, Remainder, Frame;
    if ps == [] {
      assert Frames(ps) + s == s;
    } else {
      DeframeUndoesFrames(ps[1..], s);
      DeframeFirst(ps[0], Frames(ps[1..]) + s);
      assert Frames(ps) + s == Frame(ps[0]) + (Frames(ps[1..]) + s);
      assert ps + Deframe(s) == [ps[0]] + (ps[1..] + Deframe(s));
    }
  }

  /** A message cut anywhere is no message. */
  lemma CutMessageIsNone(p: Payload, k: nat)
    requires k < 4 + |p|
    ensures Deframe(Frame(p)[..k]) == [] && Remainder(Frame(p)[..k]) == Frame(p)[..k]
  {
    UnpackUndoesPack(|p|);
    hide Pack, Unpack;
    var s := Frame(p)[..k];
    assert k >= 4 ==> s[..4] == Pack(|p|);
  }

  /** A stream that ends in the middle of a message still gives all the messages before it. */
  lemma CutStreamGivesTheWholeMessages(ps: seq<Payload>, p: Payload, k: nat)
    requires k < 4 + |p|
    ensures Deframe(Frames(ps) + Frame(p)[..k]) == ps
  {
    DeframeUndoesFrames(ps, Frame(p)[..k]);
    CutMessageIsNone(p, k);
    hide Deframe, Frames;
    assert ps + [] == ps;
  }

  // ---------------------------------------------------------------- answering

  /** What becomes of a payload: nothing to send, a reply, or an exception that ends the connection. */
  datatype Answer = Silent | Reply(data: Payload) | Crash

  /** The payloads that are looked at: all up to the first one that crashes. */
  function Served(ps: seq<Payload>, answer: Payload -> Answer): seq<Payload> {
    if ps == [] then []
    else if answer(ps[0]).Crash? then [ps[0]]
    else [ps[0]] + Served(ps[1..], answer)
  }

  predicate Crashes(ps: seq<Payload>, answer: Payload -> Answer) {
    ps != [] && (answer(ps[0]).Crash? || Crashes(ps[1..], answer))
  }

  function Replies(ps: seq<Payload>, answer: Payload -> Answer): seq<Payload> {
    if ps == [] || answer(ps[0]).Crash? then []
    else (if answer(ps[0]).Reply? then [answer(ps[0]).data] else []) + Replies(ps[1..], answer)
  }

  lemma ServedStep(p: Payload, rest: seq<Payload>, answer: Payload -> Answer)
    ensures Served([p] + rest, answer) == [p] + if answer(p).Crash? then [] else Served(rest, answer)
    ensures Replies([p] + rest, answer) ==
      if answer(p).Crash? then [] else (if answer(p).Reply? then [answer(p).data] else []) + Replies(rest, answer)
    ensures Crashes([p] + rest, answer) == (answer(p).Crash? || Crashes(rest, answer))
  {
    assert ([p] + rest)[1..] == rest;
  }

  lemma FirstMessage(s: Bytes)
    requires |s| >= 4 && |s| >= 4 + Unpack(s[..4])
    ensures var n := Unpack(s[..4]);
      Deframe(s) == [s[4..4 + n]] + Deframe(s[4 + n..]) && Remainder(s) == Remainder(s[4 + n..])
  {
  }

  lemma NoMessage(s: Bytes)
    requires |s| < 4 || |s| < 4 + Unpack(s[..4])
    ensures Deframe(s) == [] && Remainder(s) == s
  {
  }

  lemma {:induction false} FramesAppend(ps: seq<Payload>, p: Payload)
    ensures Frames(ps + [p]) == Frames(ps) + Frame(p)
  {
    hide Frame;
    if ps == [] {
      assert [] + [p] == [p] && [p][1..] == [] && Frames([p]) == Frame(p) + [];
    } else {
      assert (ps + [p])[1..] == ps[1..] + [p];
      FramesAppend(ps[1..], p);
      assert Frame(ps[0]) + (Frames(ps[1..]) + Frame(p)) == Frame(ps[0]) + Frames(ps[1..]) + Frame(p);
    }
  }

  /** What a handler has done after some of its messages, and what it has yet to do. */
  datatype Turn = Turn(served: seq<Payload>, replied: seq<Payload>)

  ghost predicate OnTrack(turn: Turn, todo: seq<Payload>, all: seq<Payload>, answer: Payload -> Answer) {
    && turn.served + Served(todo, answer) == Served(all, answer)
    && turn.replied + Replies(todo, answer) == Replies(all, answer)
    && Crashes(todo, answer) == Crashes(all, answer)
  }

  function Next(turn: Turn, p: Payload, a: Answer): Turn {
    Turn(turn.served + [p], if a.Reply? then turn.replied + [a.data] else turn.replied)
  }

  lemma OnTrackStart(all: seq<Payload>, answer: Payload -> Answer)
    ensures OnTrack(Turn([], []), all, all, answer)
  {
    assert [] + Served(all, answer) == Served(all, answer) && [] + Replies(all, answer) == Replies(all, answer);
  }

  lemma OnTrackNext(turn: Turn, p: Payload, rest: seq<Payload>, all: seq<Payload>, answer: Payload -> Answer)
    requires OnTrack(turn, [p] + rest, all, answer)
    ensures var next := Next(turn, p, answer(p));
      if answer(p).Crash? then next == Turn(Served(all, answer), Replies(all, answer)) && Crashes(all, answer)
      else OnTrack(next, rest, all, answer)
  {
    ServedStep(p, rest, answer);
    hide Served, Replies, Crashes;
    var s, r := Served(rest, answer), Replies(rest, answer);
    assert [p] + [] == [p] && turn.replied + [] == turn.replied && [] + r == r;
    assert turn.served + ([p] + s) == turn.served + [p] + s;
    if answer(p).Reply? { assert turn.replied + ([answer(p).data] + r) == turn.replied + [answer(p).data] + r; }
  }

  lemma OnTrackEnd(turn: Turn, all: seq<Payload>, answer: Payload -> Answer)
    requires OnTrack(turn, [], all, answer)
    ensures turn == Turn(Served(all, answer), Replies(all, answer)) && !Crashes(all, answer)
  {
    assert turn.served + [] == turn.served && turn.replied + [] == turn.replied;
  }

  /** Where the read loop of the Unix handler is: what it has of a message, and how long that is. */
  datatype Wait = Wait(data: Bytes, length: nat)

  /** Behind a header that nothing completes. */
  function Waiting(rest: Bytes): Wait
    requires |rest| >= 4
  {
    Wait(rest[4..], Unpack(rest[..4]))
  }

  /** The turns of the read loop, each with what `recv` delivers of what is still to come. */
  function Turns(data: Bytes, incoming: Bytes, delivered: seq<nat>): (Bytes, Bytes)
    decreases |delivered|
  {
    if delivered == [] then (data, incoming)
    else
      var k := if delivered[0] <= |incoming| then delivered[0] else |incoming|;
      Turns(data + incoming[..k], incoming[k..], delivered[1..])
  }

  /** On a message that stays incomplete the Unix handler's loop goes round for ever. */
  lemma {:induction false} UnixLoopSpins(data: Bytes, length: nat, delivered: seq<nat>)
    requires |data| < length
    ensures Turns(data, [], delivered) == (data, []) && |Turns(data, [], delivered).0| < length
    decreases |delivered|
  {
    if delivered != [] {
      assert data + [] == data;
      UnixLoopSpins(data, length, delivered[1..]);
    }
  }

  // ---------------------------------------------------------------- the connection

  class Connection {
    var incoming: Bytes
    var outgoing: Bytes

    constructor (incoming: Bytes)
      ensures this.incoming == incoming && outgoing == []
    {
      this.incoming, outgoing := incoming, [];
    }

    /** `recv(n)`: some of what is there, at least one byte; nothing only when nothing comes any more. */
    method Recv(n: nat) returns (data: Bytes)
      modifies `incoming
      ensures |data| <= n && old(incoming) == data + incoming
      ensures data == [] ==> n == 0 || old(incoming) == []
    {
      if n == 0 || incoming == [] { return []; }
      var k :| 1 <= k <= n && k <= |incoming|;
      data := incoming[..k];
      incoming := incoming[k..];
    }

    /** `recv(4)` for a header, which arrives whole. */
    method RecvHeader() returns (data: Bytes)
      modifies `incoming
      ensures |data| == if |old(incoming)| < 4 then |old(incoming)| else 4
      ensures old(incoming) == data + incoming
    {
      var k := if |incoming| < 4 then |incoming| else 4;
      data := incoming[..k];
      incoming := incoming[k..];
    }

    /** `sendall` of a message with its length */
    method Send(p: Payload)
      modifies `outgoing
      ensures outgoing == old(outgoing) + Frame(p)
    {
      outgoing := outgoing + Frame(p);
    }

    /** The read loop of `ClientSocketHandler.handle`: it ends on every stream; None is the ValueError
        of a message that stays incomplete. */
    method ReadMessage(length: nat) returns (r: Option<Bytes>)
      modifies `incoming
      ensures r.Some? <==> length <= |old(incoming)|
      ensures r.Some? ==> r.value == old(incoming)[..length] && incoming == old(incoming)[length..]
      ensures r.None? ==> incoming == []
    {
      var data := Recv(length);
      while |data| < length
        invariant |data| <= length && old(incoming) == data + incoming
        decreases length - |data|
      {
        var more := Recv(length - |data|);
        if more == [] { return None; }
        data := data + more;
      }
      return Some(data);
    }

    /** The read loop of `UnixSocketHandler.handle`.  It does not look for the end of the stream: once
        nothing comes any more on an incomplete message, its turns change nothing (`UnixLoopSpins`), and
        the model leaves it there. */
    method ReadWholeMessage(length: nat) returns (data: Bytes)
      modifies `incoming
      ensures old(incoming) == data + incoming
      ensures if length <= |old(incoming)| then |data| == length else incoming == []
    {
      data := Recv(length);
      while |data| < length && incoming != []
        invariant |data| <= length && old(incoming) == data + incoming
        decreases length - |data|
      {
        var more := Recv(length - |data|);
        data := data + more;
      }
    }

    /** One message answered. */
    method Serve(payload: Payload, answer: Payload -> Answer) returns (goOn: bool)
      modifies `outgoing
      ensures goOn == !answer(payload).Crash?
      ensures outgoing == old(outgoing) + if answer(payload).Reply? then Frame(answer(payload).data) else []
    {
      match answer(payload) {
        case Crash => return false;
        case Silent => assert outgoing + [] == outgoing; return true;
        case Reply(data) => Send(data); return true;
      }
    }

    /** `ClientSocketHandler.handle` on any stream, cut or not: exactly the whole messages are served,
        in order, up to the first that crashes. */
    method HandleClient(answer: Payload -> Answer) returns (served: seq<Payload>)
      modifies this
      ensures served == Served(Deframe(old(incoming)), answer)
      ensures outgoing == old(outgoing) + Frames(Replies(Deframe(old(incoming)), answer))
    {
      hide Deframe, Frames, Unpack, Served, Replies, Crashes, OnTrack, Frame, Remainder;
      served := [];
      ghost var all := Deframe(incoming);
      ghost var replied: seq<Payload> := [];
      OnTrackStart(all, answer);
      NothingSent(outgoing);
      while true
        invariant OnTrack(Turn(served, replied), Deframe(incoming), all, answer)
        invariant outgoing == old(outgoing) + Frames(replied)
        decreases |incoming|
      {
        ghost var stream, turn := incoming, Turn(served, replied);
        var header := RecvHeader();
        if |header| < 4 { NoMessage(stream); OnTrackEnd(turn, all, answer); break; }
        assert header == stream[..4];
        var payload := ReadMessage(Unpack(header));
        if payload.None? { NoMessage(stream); OnTrackEnd(turn, all, answer); break; }
        FirstMessage(stream);
        assert payload.value == stream[4..4 + Unpack(header)] && incoming == stream[4 + Unpack(header)..];
        OnTrackNext(turn, payload.value, Deframe(incoming), all, answer);
        var goOn := Serve(payload.value, answer);
        SentOne(old(outgoing), replied, answer(payload.value));
        served := served + [payload.value];
        replied := Next(turn, payload.value, answer(payload.value)).replied;
        if !goOn { break; }
      }
    }

    /** `UnixSocketHandler.handle` on any stream: the whole messages are served, in order, up to the first
        that crashes.  It ends exactly when a message crashes or the stream does not end behind the header
        of a message; otherwise it is left in the read loop, with nothing to read and a message to complete. */
    method HandleUnix(answer: Payload -> Answer) returns (served: seq<Payload>, waiting: Option<Wait>)
      modifies this
      ensures served == Served(Deframe(old(incoming)), answer)
      ensures outgoing == old(outgoing) + Frames(Replies(Deframe(old(incoming)), answer))
      ensures waiting.None? <==> Crashes(Deframe(old(incoming)), answer) || |Remainder(old(incoming))| < 4
      ensures waiting.Some? ==> waiting.value == Waiting(Remainder(old(incoming))) && |waiting.value.data| < waiting.value.length
      ensures !Crashes(Deframe(old(incoming)), answer) ==> incoming == []
    {
      hide Deframe, Frames, Unpack, Served, Replies, Crashes, OnTrack, Frame, Remainder;
      served, waiting := [], None;
      ghost var all := Deframe(incoming);
      ghost var replied: seq<Payload> := [];
      OnTrackStart(all, answer);
      NothingSent(outgoing);
      while true
        invariant OnTrack(Turn(served, replied), Deframe(incoming), all, answer)
        invariant outgoing == old(outgoing) + Frames(replied)
        invariant Remainder(incoming) == Remainder(old(incoming)) && waiting.None?
        decreases |incoming|
      {
        ghost var stream, turn := incoming, Turn(served, replied);
        var header := RecvHeader();
        if |header| < 4 { NoMessage(stream); OnTrackEnd(turn, all, answer); break; }
        assert header == stream[..4] && incoming == stream[4..];
        var payload := ReadWholeMessage(Unpack(header));
        if |payload| < Unpack(header) {
          NoMessage(stream);
          OnTrackEnd(turn, all, answer);
          assert payload + [] == payload;
          waiting := Some(Wait(payload, Unpack(header)));
          break;
        }
        FirstMessage(stream);
        assert payload == stream[4..4 + Unpack(header)] && incoming == stream[4 + Unpack(header)..];
        OnTrackNext(turn, payload, Deframe(incoming), all, answer);
        var goOn := Serve(payload, answer);
        SentOne(old(outgoing), replied, answer(payload));
        served := served + [payload];
        replied := Next(turn, payload, answer(payload)).replied;
        if !goOn { break; }
      }
    }
  }

  lemma NothingSent(out: Bytes)
    ensures out == out + Frames([])
  {
  }

  lemma SentOne(out: Bytes, replied: seq<Payload>, a: Answer)
    ensures out + Frames(replied) + (if a.Reply? then Frame(a.data) else []) ==
      out + Frames(if a.Reply? then replied + [a.data] else replied)
  {
    if a.Reply? { FramesAppend(replied, a.data); }
    hide Frames, Frame;
  }

  /** What a handler sends, its client reads back: the replies, in order, however they are cut. */
  lemma RepliesReadBack(ps: seq<Payload>, answer: Payload -> Answer)
    ensures Deframe(Frames(Replies(ps, answer))) == Replies(ps, answer)
    ensures Deframe(Frames(ps)) == ps && Remainder(Frames(ps)) == []
  {
    hide Deframe, Frames, Remainder, Replies;
    DeframeUndoesFrames(Replies(ps, answer), []);
    DeframeUndoesFrames(ps, []);
    NoMessage([]);
    assert Frames(ps) + [] == Frames(ps) && ps + [] == ps;
    var rs := Replies(ps, answer);
    assert Frames(rs) + [] == Frames(rs) && rs + [] == rs;
  }
}
