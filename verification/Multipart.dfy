/** Requests in several parts, of many clients at once, and replies in several chunks. */
module Multipart {
  import opened Wrappers

  /** One part as it arrives: its request, its text, and whether it is the last. */
  datatype Part = Part(id: string, text: string, isFinal: bool)

  function Joined(texts: seq<string>): string {
    if texts == [] then "" else texts[0] + Joined(texts[1..])
  }

  /** The texts of one request, in order of arrival. */
  function TextsOf(parts: seq<Part>, id: string): seq<string> {
    if parts == [] then [] else (if parts[0].id == id then [parts[0].text] else []) + TextsOf(parts[1..], id)
  }

  /** How many parts had arrived when this request was last picked up. */
  function LastPickup(parts: seq<Part>, id: string): (n: nat)
    ensures n <= |parts|
    ensures n > 0 ==> parts[n - 1].id == id && parts[n - 1].isFinal
    ensures forall i | n <= i < |parts| :: !(parts[i].id == id && parts[i].isFinal)
    decreases |parts|
  {
    if parts == [] then 0
    else
      var last := parts[|parts| - 1];
      if last.id == id && last.isFinal then |parts| else LastPickup(parts[..|parts| - 1], id)
  }

  /** The texts of a request that wait for its final part. */
  function Waiting(parts: seq<Part>, id: string): seq<string> {
    TextsOf(parts[LastPickup(parts, id)..], id)
  }

  lemma {:induction false} JoinedAppends(texts: seq<string>, t: string)
    ensures Joined(texts + [t]) == Joined(texts) + t
  {
    if texts == [] {
      assert [] + [t] == [t] && [t][1..] == [] && t + "" == t;
    } else {
      assert (texts + [t])[1..] == texts[1..] + [t];
      JoinedAppends(texts[1..], t);
      assert texts[0] + (Joined(texts[1..]) + t) == texts[0] + Joined(texts[1..]) + t;
    }
  }

  lemma {:induction false} TextsAppend(parts: seq<Part>, p: Part, id: string)
    ensures TextsOf(parts + [p], id) == TextsOf(parts, id) + if p.id == id then [p.text] else []
  {
    if parts == [] {
      assert [] + [p] == [p] && [p][1..] == [];
    } else {
      assert (parts + [p])[1..] == parts[1..] + [p];
      TextsAppend(parts[1..], p, id);
    }
  }

  /** One more part waits with its own request; a final part leaves nothing waiting. */
  lemma WaitingAfter(parts: seq<Part>, p: Part, id: string)
    ensures Waiting(parts + [p], id) ==
      if p.id != id then Waiting(parts, id) else if p.isFinal then [] else Waiting(parts, id) + [p.text]
  {
    var more := parts + [p];
    var n := LastPickup(parts, id);
    assert more[..|more| - 1] == parts;
    if p.id == id && p.isFinal {
      assert more[|more|..] == [];
    } else {
      assert more[n..] == parts[n..] + [p];
      TextsAppend(parts[n..], p, id);
      assert TextsOf(parts[n..], id) + [] == TextsOf(parts[n..], id);
    }
  }

  // ---------------------------------------------------------------- the storage

  /** What waits for each request is in the storage, joined; nothing else is. */
  ghost predicate Holds(data: map<string, string>, parts: seq<Part>) {
    && (forall id :: id in data <==> Waiting(parts, id) != [])
    && (forall id | id in data :: data[id] == Joined(Waiting(parts, id)))
  }

  /** The storage after one more part. */
  lemma HoldsAfter(data: map<string, string>, before: seq<Part>, p: Part)
    requires Holds(data, before)
    ensures var grown := (if p.id in data then data[p.id] else "") + p.text;
      && grown == Joined(Waiting(before, p.id) + [p.text])
      && Holds(if p.isFinal then data - {p.id} else data[p.id := grown], before + [p])
  {
    hide Waiting, Joined, LastPickup, TextsOf;
    JoinedAppends(Waiting(before, p.id), p.text);
    NothingJoined();
    WaitingAfter(before, p, p.id);
    forall id | id != p.id ensures Waiting(before + [p], id) == Waiting(before, id) {
      WaitingAfter(before, p, id);
    }
    if !p.isFinal {
      assert Waiting(before + [p], p.id) == Waiting(before, p.id) + [p.text];
    }
  }

  lemma NothingJoined()
    ensures Joined([]) == ""
  {
  }

  class RequestStorage {
    var data: map<string, string>

    constructor ()
      ensures Holds(data, [])
    {
      data := map[];
    }

    method Append(id: string, text: string)
      modifies this
      ensures data == old(data)[id := (if id in old(data) then old(data)[id] else "") + text]
    {
      data := data[id := (if id in data then data[id] else "") + text];
    }

    method Pickup(id: string) returns (text: string)
      requires id in data
      modifies this
      ensures text == old(data)[id] && data == old(data) - {id}
    {
      text := data[id];
      data := data - {id};
    }

    /** The multipart branch of the handler: whatever has arrived before, of whatever requests, a final
        part hands on its own request's parts since the last pickup, and no other request is touched. */
    method Arrive(p: Part, ghost before: seq<Part>) returns (handed: Option<string>)
      requires Holds(data, before)
      modifies this
      ensures Holds(data, before + [p])
      ensures handed == if p.isFinal then Some(Joined(Waiting(before, p.id) + [p.text])) else None
      ensures forall id | id != p.id :: (id in data <==> id in old(data)) && (id in data ==> data[id] == old(data)[id])
    {
      hide Waiting, Joined, Holds;
      HoldsAfter(data, before, p);
      Append(p.id, p.text);
      assert data - {p.id} == old(data) - {p.id};
      if p.isFinal {
        var text := Pickup(p.id);
        return Some(text);
      }
      return None;
    }

    /** A whole run: every part of an interleaving, and what was handed on. */
    method ArriveAll(parts: seq<Part>) returns (handed: seq<string>)
      requires Holds(data, [])
      modifies this
      ensures Holds(data, parts)
      ensures handed == Handed(parts)
    {
      handed := [];
      var i := 0;
      assert parts[..0] == [];
      while i < |parts|
        invariant 0 <= i <= |parts|
        invariant Holds(data, parts[..i])
        invariant handed == Handed(parts[..i])
      {
        assert parts[..i + 1] == parts[..i] + [parts[i]];
        assert parts[..i + 1][..i] == parts[..i];
        hide Waiting, Joined;
        var text := Arrive(parts[i], parts[..i]);
        if text.Some? { handed := handed + [text.value]; }
        i := i + 1;
      }
      assert parts[..i] == parts;
    }
  }

  /** What a run hands on: for every final part the parts of its request since its last pickup. */
  ghost function Handed(parts: seq<Part>): seq<string>
    decreases |parts|
  {
    if parts == [] then []
    else
      var before, last := parts[..|parts| - 1], parts[|parts| - 1];
      Handed(before) + if last.isFinal then [Joined(Waiting(before, last.id) + [last.text])] else []
  }

  // ---------------------------------------------------------------- interleaving

  /** The parts of one request alone. */
  function Alone(parts: seq<Part>, id: string): (r: seq<Part>)
    ensures forall p | p in r :: p.id == id
  {
    if parts == [] then [] else (if parts[0].id == id then [parts[0]] else []) + Alone(parts[1..], id)
  }

  lemma {:induction false} AloneAppends(parts: seq<Part>, p: Part, id: string)
    ensures Alone(parts + [p], id) == Alone(parts, id) + if p.id == id then [p] else []
  {
    if parts == [] {
      assert [] + [p] == [p] && [p][1..] == [];
    } else {
      assert (parts + [p])[1..] == parts[1..] + [p];
      AloneAppends(parts[1..], p, id);
    }
  }

  /** Other requests make no difference: what waits is what would wait without them. */
  lemma {:induction false} OthersMakeNoDifference(parts: seq<Part>, id: string)
    ensures Waiting(parts, id) == Waiting(Alone(parts, id), id)
    decreases |parts|
  {
    if parts != [] {
      var before, last := parts[..|parts| - 1], parts[|parts| - 1];
      assert parts == before + [last];
      OthersMakeNoDifference(before, id);
      AloneAppends(before, last, id);
      WaitingAfter(before, last, id);
      if last.id == id {
        WaitingAfter(Alone(before, id), last, id);
      } else {
        assert Alone(before, id) + [] == Alone(before, id);
      }
    }
  }

  /** A request sent in pieces, the last of them final. */
  function InParts(pieces: seq<string>, id: string): seq<Part> {
    seq(|pieces|, i requires 0 <= i < |pieces| => Part(id, pieces[i], i == |pieces| - 1))
  }

  function Open(pieces: seq<string>, id: string): seq<Part> {
    seq(|pieces|, i requires 0 <= i < |pieces| => Part(id, pieces[i], false))
  }

  /** Pieces that are not final wait, and nothing is handed on. */
  lemma {:induction false} PiecesWait(pieces: seq<string>, id: string, before: seq<Part>)
    requires Waiting(before, id) == []
    ensures Waiting(before + Open(pieces, id), id) == pieces && Handed(before + Open(pieces, id)) == Handed(before)
    decreases |pieces|
  {
    hide Waiting;
    if pieces == [] {
      assert before + Open(pieces, id) == before;
    } else {
      var front, last := pieces[..|pieces| - 1], pieces[|pieces| - 1];
      var was, part := before + Open(front, id), Part(id, last, false);
      PiecesWait(front, id, before);
      WaitingAfter(was, part, id);
      HandedAfter(was, part);
      assert pieces == front + [last];
      assert before + Open(pieces, id) == was + [part];
    }
  }

  lemma HandedAfter(before: seq<Part>, last: Part)
    ensures Handed(before + [last]) ==
      Handed(before) + if last.isFinal then [Joined(Waiting(before, last.id) + [last.text])] else []
  {
    var all := before + [last];
    assert all[..|all| - 1] == before && all[|all| - 1] == last;
    hide Waiting, Joined;
  }

  /** A request sent in pieces is put together again: its text is handed on once, and nothing of it waits. */
  lemma PiecesReassemble(pieces: seq<string>, id: string, before: seq<Part>)
    requires pieces != [] && Waiting(before, id) == []
    ensures Handed(before + InParts(pieces, id)) == Handed(before) + [Joined(pieces)]
    ensures Waiting(before + InParts(pieces, id), id) == []
  {
    hide Waiting, Handed, Joined;
    var front, last := pieces[..|pieces| - 1], pieces[|pieces| - 1];
    var was, part := before + Open(front, id), Part(id, last, true);
    PiecesWait(front, id, before);
    WaitingAfter(was, part, id);
    HandedAfter(was, part);
    assert pieces == front + [last];
    assert before + InParts(pieces, id) == was + [part];
  }

  // ---------------------------------------------------------------- replies

  const CHUNK: nat := 512 * 1024

  /** All chunks but the last are full, and none is empty. */
  predicate WellCut(chunks: seq<string>) {
    && (forall i | 0 <= i < |chunks| :: 0 < |chunks[i]| <= CHUNK)
    && (forall i | 0 <= i < |chunks| - 1 :: |chunks[i]| == CHUNK)
  }

  /** The reply, chunk by chunk. */
  method SendReply(dumped: string) returns (chunks: seq<string>)
    ensures Joined(chunks) == dumped && WellCut(chunks)
  {
    chunks := [];
    var i := 0;
    while i < |dumped|
      invariant 0 <= i
      invariant i <= |dumped| ==> Joined(chunks) == dumped[..i]
      invariant i > |dumped| ==> Joined(chunks) == dumped
      invariant WellCut(chunks)
      invariant i < |dumped| ==> forall k | 0 <= k < |chunks| :: |chunks[k]| == CHUNK
    {
      var end := if i + CHUNK <= |dumped| then i + CHUNK else |dumped|;
      JoinedAppends(chunks, dumped[i..end]);
      assert dumped[..i] + dumped[i..end] == dumped[..end];
      assert dumped[..|dumped|] == dumped;
      chunks := chunks + [dumped[i..end]];
      i := i + CHUNK;
    }
    assert dumped[..|dumped|] == dumped;
  }

  lemma OnlyNothingIsEmpty(chunks: seq<string>)
    requires WellCut(chunks)
    ensures chunks == [] <==> Joined(chunks) == ""
  {
    if chunks != [] { assert |chunks[0]| > 0; }
  }

  /** There is only one way to cut a reply like this. */
  lemma {:induction false} CutsAreUnique(a: seq<string>, b: seq<string>)
    requires WellCut(a) && WellCut(b) && Joined(a) == Joined(b)
    ensures a == b
  {
    OnlyNothingIsEmpty(a);
    OnlyNothingIsEmpty(b);
    if a != [] && b != [] {
      var s := Joined(a);
      OnlyNothingIsEmpty(a[1..]);
      OnlyNothingIsEmpty(b[1..]);
      assert |a[0]| == |b[0]|;
      assert a[0] == s[..|a[0]|] && b[0] == s[..|b[0]|];
      assert Joined(a[1..]) == s[|a[0]|..] && Joined(b[1..]) == s[|b[0]|..];
      CutsAreUnique(a[1..], b[1..]);
      assert a == [a[0]] + a[1..] && b == [b[0]] + b[1..];
    }
  }
}
