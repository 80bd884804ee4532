/** The relay between two paired consoles is the first-in first-out stream of whole frames that module
    `Lockstep` plays its matches over. */
module Forwarding {
  import opened Bytes
  import opened Relay
  import opened Reassembly
  import opened Pairing
  import W = Wire

  ghost predicate Inputs(ms: seq<W.Msg>) {
    forall k :: 0 <= k < |ms| ==> ms[k].Input?
  }

  function PacketOf(m: W.Msg): (p: Packet)
    ensures |p.payload| == GAME_PAYLOAD
  {
    Packet(W.Encode(m)[1], W.Encode(m)[2..])
  }

  function PacketsOf(ms: seq<W.Msg>): (ps: seq<Packet>)
    ensures |ps| == |ms| && Framed(ps)
  {
    seq(|ms|, k requires 0 <= k < |ms| => PacketOf(ms[k]))
  }

  lemma ParseOne(m: W.Msg)
    ensures Parse(W.Encode(m)) == Parsed([PacketOf(m)], [], false)
    ensures Frame(PacketOf(m).kind, PacketOf(m).payload) == W.Encode(m)
  {
    var s := W.Encode(m);
    assert s[0] == 7 && s[2..8] == s[2..];
    OneFrame(s);
    assert Tail(s) == [];
    NothingParsed();
    assert [PacketOf(m)] + [] == [PacketOf(m)];
  }

  /** What the relay reads of a record: its kind, the tick in the first byte of the payload and the checksum
      in the fifth. */
  lemma RelayReadsTheRecord(r: W.Rec)
    ensures Parse(W.Encode(W.Input(r))) == Parsed([PacketOf(W.Input(r))], [], false)
    ensures var p := PacketOf(W.Input(r));
            p.kind == 6 && |p.payload| == 6 && p.payload[0] == r.tick && p.payload[4] == r.crc
  {
    ParseOne(W.Input(r));
    W.SentLayout(W.Input(r));
    hide Parse, W.Encode;
    var s := W.Encode(W.Input(r));
    assert s[2] == s[2..7][0] && s[6] == s[2..7][4];
  }

  /** A console's records come out of the relay's parser as they went in, one frame each. */
  lemma {:induction false} ParseRecords(ms: seq<W.Msg>)
    ensures Parse(W.EncodeAll(ms)) == Parsed(PacketsOf(ms), [], false)
    decreases |ms|
  {
    hide Parse, PacketOf, PacketsOf, W.EncodeAll, W.Encode;
    if ms == [] {
      NothingParsed();
      NoRecords();
    } else {
      var n := |ms| - 1;
      ParseRecords(ms[..n]);
      ParseInTwo(W.EncodeAll(ms[..n]), W.Encode(ms[n]));
      ParseOne(ms[n]);
      OneMore(ms);
    }
  }

  lemma NoRecords()
    ensures W.EncodeAll([]) == [] && PacketsOf([]) == []
  {
  }

  lemma OneMore(ms: seq<W.Msg>)
    requires ms != []
    ensures var n := |ms| - 1;
            && W.EncodeAll(ms) == W.EncodeAll(ms[..n]) + W.Encode(ms[n])
            && PacketsOf(ms) == PacketsOf(ms[..n]) + [PacketOf(ms[n])]
            && [] + W.Encode(ms[n]) == W.Encode(ms[n])
  {
    hide PacketOf, W.Encode, PacketsOf, W.EncodeAll;
    EncodeLast(ms);
    PacketsByOne(ms);
    SameElements(PacketsOf(ms), PacketsOf(ms[..|ms| - 1]), PacketOf(ms[|ms| - 1]));
  }

  lemma SameElements(ps: seq<Packet>, qs: seq<Packet>, p: Packet)
    requires |ps| == |qs| + 1 && ps[|qs|] == p && forall k :: 0 <= k < |qs| ==> ps[k] == qs[k]
    ensures ps == qs + [p]
  {
  }

  lemma EncodeLast(ms: seq<W.Msg>)
    requires ms != []
    ensures W.EncodeAll(ms) == W.EncodeAll(ms[..|ms| - 1]) + W.Encode(ms[|ms| - 1])
  {
    hide W.Encode;
  }

  lemma PacketsByOne(ms: seq<W.Msg>)
    requires ms != []
    ensures forall k :: 0 <= k < |ms| - 1 ==> PacketsOf(ms)[k] == PacketsOf(ms[..|ms| - 1])[k]
    ensures PacketsOf(ms)[|ms| - 1] == PacketOf(ms[|ms| - 1])
  {
    hide PacketOf, W.Encode;
  }

  /** One record: eight bytes to the partner, verbatim, and nothing to anyone else. */
  lemma ForwardOne(cfg: Config, w: Room, id: Id, p: Id, m: W.Msg)
    requires id in w.clients && p in w.clients && w.clients[id].partner == Some(p) && m.Input?
    ensures var r := Handle(cfg, w, id, PacketOf(m));
            && LinksAlike(w, r)
            && r.clients[p].tx == w.clients[p].tx + W.Encode(m)
            && forall i :: i in w.clients && i != p ==> r.clients[i].tx == w.clients[i].tx
  {
    var f := PacketOf(m);
    ParseOne(m);
    hide LogCrc, Pad, LinksAlike, W.Encode;
    assert Pad(f.payload, GAME_PAYLOAD) == f.payload by { PadFull(f.payload); }
    assert f.kind == W.T_INPUT by { KindOf(m); }
    var w1 := Forward(w, id, f);
    SendKeepsLinks(w, p, Frame(f.kind, f.payload));
    LogKeepsLinks(w1, id, f.payload);
    LinksTrans(w, w1, LogCrc(w1, id, f.payload));
  }

  lemma PadFull(s: seq<byte>)
    requires |s| >= GAME_PAYLOAD
    ensures Pad(s, GAME_PAYLOAD) == s
  {
  }

  lemma KindOf(m: W.Msg)
    requires m.Input?
    ensures PacketOf(m).kind == W.T_INPUT
  {
  }

  lemma {:induction false} ForwardAll(cfg: Config, w: Room, id: Id, p: Id, ms: seq<W.Msg>)
    requires id in w.clients && p in w.clients && w.clients[id].partner == Some(p) && Inputs(ms)
    ensures var r := HandleAll(cfg, w, id, PacketsOf(ms));
            && LinksAlike(w, r)
            && r.clients[p].tx == w.clients[p].tx + W.EncodeAll(ms)
            && forall i :: i in w.clients && i != p ==> r.clients[i].tx == w.clients[i].tx
    decreases |ms|
  {
    hide Handle, W.Encode, PacketOf;
    if ms != [] {
      var n := |ms| - 1;
      ForwardAll(cfg, w, id, p, ms[..n]);
      assert PacketsOf(ms)[..n] == PacketsOf(ms[..n]);
      ForwardOne(cfg, HandleAll(cfg, w, id, PacketsOf(ms[..n])), id, p, ms[n]);
    } else {
      assert w.clients[p].tx + W.EncodeAll(ms) == w.clients[p].tx;
    }
  }

  /** A partial frame at the end of what has arrived. */
  predicate Partial(part: seq<byte>) {
    |part| < W.FRAME_LEN && (part == [] || part[0] == W.FRAME_LEN - 1)
  }

  lemma ParsePartial(ms: seq<W.Msg>, part: seq<byte>)
    requires Partial(part)
    ensures Parse(W.EncodeAll(ms) + part) == Parsed(PacketsOf(ms), part, false)
  {
    ParseRecords(ms);
    ParseInTwo(W.EncodeAll(ms), part);
    assert [] + part == part;
    assert Parse(part) == Parsed([], part, false);
    assert PacketsOf(ms) + [] == PacketsOf(ms);
  }

  lemma NothingWholeWaits(part: seq<byte>)
    requires Partial(part)
    ensures Parse(part) == Parsed([], part, false)
  {
  }

  lemma StillLive(w: Room, r: Room, id: Id)
    requires LinksAlike(w, r)
    ensures Live(r, id) == Live(w, id)
  {
  }

  /** The relay is a FIFO: with any part of a record waiting, however the network cuts what a paired
      console sends next, its partner's output grows by exactly the whole records so far, in order and byte for byte; a part of a record waits;
      nobody else gets anything, and the match goes on. */
  lemma RelayIsFifo(cfg: Config, h: Hub, id: Id, p: Id, chunks: seq<seq<byte>>, ms: seq<W.Msg>, part: seq<byte>)
    requires Known(h, id) && p in h.room.clients && h.room.clients[id].partner == Some(p)
    requires Partial(h.rx[id]) && Inputs(ms) && Partial(part) && h.rx[id] + Flatten(chunks) == W.EncodeAll(ms) + part
    ensures var r := ReceiveAll(cfg, h, id, chunks);
            && r.room.clients[p].tx == h.room.clients[p].tx + W.EncodeAll(ms)
            && (forall i :: i in h.room.clients && i != p ==> r.room.clients[i].tx == h.room.clients[i].tx)
            && LinksAlike(h.room, r.room) && r.rx[id] == part
  {
    hide HandleAll, Parse, LinksAlike, Live, Partial, W.Encode;
    ParsePartial(ms, part);
    NothingWholeWaits(h.rx[id]);
    ForwardAll(cfg, h.room, id, p, ms);
    StillLive(h.room, HandleAll(cfg, h.room, id, PacketsOf(ms)), id);
    var n := |ms|;
    if n > 0 {
      ForwardAll(cfg, h.room, id, p, ms[..n - 1]);
      assert PacketsOf(ms)[..n - 1] == PacketsOf(ms[..n - 1]);
      StillLive(h.room, HandleAll(cfg, h.room, id, PacketsOf(ms[..n - 1])), id);
    }
    ChunkingIsInvisible(cfg, h, id, chunks);
  }

  /** The end of a match is one more whole frame, the one the console reads as the peer leaving. */
  lemma GoodbyeIsOneFrame(w: Room, id: Id, p: Id)
    requires id in w.clients && Live(w, id) && p in w.clients && p != id && w.clients[id].partner == Some(p)
    ensures var r := Drop(w, id);
            && r.clients[p].tx == w.clients[p].tx + W.Encode(W.Left)
            && r.clients[p].partner == None
            && forall i :: i in w.clients && i != p ==> r.clients[i] == w.clients[i]
  {
    assert Frame(W.T_LEFT, seq(GAME_PAYLOAD, (_: nat) => 0 as byte)) == W.Encode(W.Left);
  }
}
