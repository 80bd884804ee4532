/** The relay's framing: what a stream of bytes means does not depend on how it was cut, and the
    buffers stay small. */
module Reassembly {
  import opened Bytes
  import opened Relay
  import W = Wire

  // ---- parsing --------------------------------------------------------------------------

  function Unparse(ps: seq<Packet>): seq<byte>
    requires Framed(ps)
  {
    if ps == [] then [] else Frame(ps[0].kind, ps[0].payload) + Unparse(ps[1..])
  }

  predicate Whole(rx: seq<byte>) {
    rx != [] && 1 <= rx[0] <= MAX_LEN && |rx| >= rx[0] + 1
  }

  function Head(rx: seq<byte>): Packet
    requires Whole(rx)
  {
    Packet(rx[1], rx[2..rx[0] + 1])
  }

  function Tail(rx: seq<byte>): (t: seq<byte>)
    requires Whole(rx)
    ensures |t| < |rx|
  {
    rx[rx[0] + 1..]
  }

  lemma OneFrame(rx: seq<byte>)
    requires Whole(rx)
    ensures |Head(rx).payload| < MAX_LEN && Frame(Head(rx).kind, Head(rx).payload) + Tail(rx) == rx
    ensures Parse(rx) == Parse(Tail(rx)).(packets := [Head(rx)] + Parse(Tail(rx)).packets)
  {
  }

  /** As both servers cut it: the body out of the buffer, then its first byte off the body. */
  lemma CutFrame(rx: seq<byte>)
    requires Whole(rx)
    ensures var n: int := rx[0];
            var body := rx[1..n + 1];
            Packet(body[0], body[1..]) == Head(rx) && rx[n + 1..] == Tail(rx)
  {
  }

  lemma UnparseFirst(p: Packet, ps: seq<Packet>)
    requires |p.payload| < MAX_LEN && Framed(ps)
    ensures Framed([p] + ps) && Unparse([p] + ps) == Frame(p.kind, p.payload) + Unparse(ps)
  {
    assert ([p] + ps)[1..] == ps;
  }

  lemma Regroup(a: seq<byte>, b: seq<byte>, c: seq<byte>)
    ensures (a + b) + c == a + (b + c)
  {
  }

  lemma PartialIsRest(rx: seq<byte>)
    requires !Whole(rx)
    ensures Parse(rx).packets == [] && Parse(rx).rest == rx
  {
  }

  /** Nothing is lost and nothing is made up: the frames and the rest are the buffer. */
  lemma {:induction false} ParseIsWhole(rx: seq<byte>)
    ensures Framed(Parse(rx).packets) && Unparse(Parse(rx).packets) + Parse(rx).rest == rx
    decreases |rx|
  {
    if Whole(rx) {
      hide Parse, Unparse, Frame, Head, Tail, Framed;
      OneFrame(rx);
      ParseIsWhole(Tail(rx));
      var rest := Parse(Tail(rx));
      UnparseFirst(Head(rx), rest.packets);
      Regroup(Frame(Head(rx).kind, Head(rx).payload), Unparse(rest.packets), rest.rest);
    } else {
      PartialIsRest(rx);
    }
  }

  /** The connection is closed exactly when, the whole frames taken off, the next length byte is zero or
      above two hundred; otherwise what waits is less than the frame it announces. */
  lemma {:induction false} BadExactly(rx: seq<byte>)
    ensures var p := Parse(rx);
            && (p.bad <==> p.rest != [] && (p.rest[0] == 0 || p.rest[0] > 200))
            && (!p.bad && p.rest != [] ==> |p.rest| <= p.rest[0])
    ensures forall k :: 0 <= k < |Parse(rx).packets| ==> |Parse(rx).packets[k].payload| < 200
    decreases |rx|
  {
    if rx != [] && 1 <= rx[0] <= 200 && |rx| >= rx[0] + 1 {
      BadExactly(rx[rx[0] + 1..]);
    }
  }

  /** Frames a client writes are the frames the relay reads. */
  lemma {:induction false} ParseUnparse(ps: seq<Packet>)
    requires Framed(ps)
    ensures Parse(Unparse(ps)) == Parsed(ps, [], false)
  {
    if ps != [] {
      ParseUnparse(ps[1..]);
      var s := Unparse(ps);
      var n := |ps[0].payload| + 2;
      assert s[n..] == Unparse(ps[1..]) && s[2..n] == ps[0].payload;
      assert ps == [Packet(s[1], s[2..n])] + ps[1..];
    }
  }

  /** What a partial buffer waits for is one frame, so it is at most 200 bytes. */
  lemma {:induction false} RestIsPartial(rx: seq<byte>)
    requires !Parse(rx).bad
    ensures |Parse(rx).rest| <= MAX_LEN && Parse(Parse(rx).rest) == Parsed([], Parse(rx).rest, false)
    decreases |rx|
  {
    if rx != [] && |rx| >= rx[0] + 1 {
      RestIsPartial(rx[rx[0] + 1..]);
    }
  }

  /** A frame takes at least two bytes. */
  lemma {:induction false} FramesAreFew(rx: seq<byte>)
    ensures 2 * |Parse(rx).packets| + |Parse(rx).rest| <= |rx|
    decreases |rx|
  {
    if rx != [] && 1 <= rx[0] <= MAX_LEN && |rx| >= rx[0] + 1 {
      FramesAreFew(rx[rx[0] + 1..]);
    }
  }

  /** Parsing what came first, then the rest with what follows, is parsing it all. */
  lemma {:induction false} ParseInTwo(a: seq<byte>, b: seq<byte>)
    ensures !Parse(a).bad ==>
              Parse(a + b) == Parse(Parse(a).rest + b).(packets := Parse(a).packets + Parse(Parse(a).rest + b).packets)
    ensures Parse(a).bad ==> Parse(a + b) == Parsed(Parse(a).packets, Parse(a).rest + b, true)
    decreases |a|
  {
    hide Parse, Head, Tail, Whole;
    if Whole(a) {
      MoreBytes(a, b);
      OneFrame(a);
      OneFrame(a + b);
      ParseInTwo(Tail(a), b);
      var more := Parse(Parse(a).rest + b).packets;
      assert [Head(a)] + (Parse(Tail(a)).packets + more) == ([Head(a)] + Parse(Tail(a)).packets) + more;
    } else {
      NotWhole(a, b);
    }
  }

  lemma NotWhole(a: seq<byte>, b: seq<byte>)
    requires !Whole(a)
    ensures Parse(a).packets == [] && Parse(a).rest == a
    ensures !Parse(a).bad ==> Parse(a + b) == Parse(a + b).(packets := [] + Parse(a + b).packets)
    ensures Parse(a).bad ==> Parse(a + b) == Parsed([], a + b, true)
  {
    assert [] + Parse(a + b).packets == Parse(a + b).packets;
  }

  lemma MoreBytes(a: seq<byte>, b: seq<byte>)
    requires Whole(a)
    ensures Whole(a + b) && Head(a + b) == Head(a) && Tail(a + b) == Tail(a) + b
  {
    assert (a + b)[2..a[0] + 1] == a[2..a[0] + 1];
  }

  // ---- handling -------------------------------------------------------------------------

  lemma {:induction false} HandleInTwo(cfg: Config, w: Room, id: Id, ps: seq<Packet>, qs: seq<Packet>)
    requires id in w.clients && Framed(ps) && Framed(qs)
    ensures HandleAll(cfg, w, id, ps + qs) == HandleAll(cfg, HandleAll(cfg, w, id, ps), id, qs)
    decreases |qs|
  {
    hide Handle;
    if qs == [] {
      assert ps + qs == ps;
    } else {
      HandleInTwo(cfg, w, id, ps, qs[..|qs| - 1]);
      assert (ps + qs)[..|ps + qs| - 1] == ps + qs[..|qs| - 1];
    }
  }

  /** A dropped connection never becomes live again. */
  lemma GoneStaysGone(cfg: Config, w: Room, id: Id, p: Packet)
    requires id in w.clients && |p.payload| < 255
    ensures forall i :: Live(Handle(cfg, w, id, p), i) ==> Live(w, i)
  {
    hide Asked, Resolve, Oldest, Find, Newest, StartFrame, Pad, LobbyRows, Listed, SetEntry, Waits;
  }

  lemma {:induction false} GoneForGood(cfg: Config, w: Room, id: Id, ps: seq<Packet>)
    requires id in w.clients && Framed(ps)
    ensures forall i :: Live(HandleAll(cfg, w, id, ps), i) ==> Live(w, i)
    decreases |ps|
  {
    hide Handle, Live;
    if ps != [] {
      GoneForGood(cfg, w, id, ps[..|ps| - 1]);
      GoneStaysGone(cfg, HandleAll(cfg, w, id, ps[..|ps| - 1]), id, ps[|ps| - 1]);
    }
  }

  // ---- a frame loop in progress ---------------------------------------------------------

  /** The frames handed on so far and those still in the buffer are the frames there were. */
  ghost predicate ParsedTo(p: Parsed, done: seq<Packet>, buffer: seq<byte>) {
    p == Parse(buffer).(packets := done + Parse(buffer).packets)
  }

  lemma Stopped(p: Parsed, done: seq<Packet>, buffer: seq<byte>)
    requires ParsedTo(p, done, buffer) && !Whole(buffer)
    ensures p == Parsed(done, buffer, buffer != [] && (buffer[0] < 1 || buffer[0] > MAX_LEN))
  {
    NotWhole(buffer, []);
    assert done + [] == done;
  }

  lemma Advanced(p: Parsed, done: seq<Packet>, buffer: seq<byte>)
    requires ParsedTo(p, done, buffer) && Whole(buffer)
    ensures |Head(buffer).payload| < MAX_LEN && ParsedTo(p, done + [Head(buffer)], Tail(buffer))
  {
    OneFrame(buffer);
    hide Parse, Head, Tail;
    var rest := Parse(Tail(buffer)).packets;
    assert done + ([Head(buffer)] + rest) == (done + [Head(buffer)]) + rest;
  }

  lemma Begun(cfg: Config, w: Room, id: Id, rx: seq<byte>)
    ensures ParsedTo(Parse(rx), [], rx) && Framed([])
    ensures id in w.clients ==> HandleAll(cfg, w, id, []) == w
  {
    assert [] + Parse(rx).packets == Parse(rx).packets;
  }

  lemma OneMore(cfg: Config, w: Room, id: Id, done: seq<Packet>, next: Packet)
    requires id in w.clients && Framed(done) && |next.payload| < MAX_LEN
    ensures Framed(done + [next])
    ensures HandleAll(cfg, w, id, done + [next]) == Handle(cfg, HandleAll(cfg, w, id, done), id, next)
  {
    hide Handle;
    assert (done + [next])[..|done|] == done;
  }

  // ---- any cut of a stream --------------------------------------------------------------

  function Flatten(chunks: seq<seq<byte>>): seq<byte> {
    if chunks == [] then [] else Flatten(chunks[..|chunks| - 1]) + chunks[|chunks| - 1]
  }

  /** One connection's stream, received chunk by chunk for as long as the connection is live. */
  function ReceiveAll(cfg: Config, h: Hub, id: Id, chunks: seq<seq<byte>>): (r: Hub)
    requires id in h.room.clients && id in h.rx
    ensures r.room.clients.Keys == h.room.clients.Keys && r.rx.Keys == h.rx.Keys
  {
    if chunks == [] then h else
      var r := ReceiveAll(cfg, h, id, chunks[..|chunks| - 1]);
      if Live(r.room, id) then Receive(cfg, r, id, chunks[|chunks| - 1]) else r
  }

  /** `r` is `w` after the first `m` of these frames, with no frame left over while the connection is
      live; or after all of them and the bad length byte behind them. */
  ghost predicate HandledSome(cfg: Config, w: Room, id: Id, p: Parsed, m: nat, r: Room)
    requires id in w.clients && Framed(p.packets)
  {
    && m <= |p.packets|
    && var x := HandleAll(cfg, w, id, p.packets[..m]);
       || (r == x && (Live(x, id) ==> m == |p.packets| && !p.bad))
       || (r == Drop(CountBad(x), id) && m == |p.packets| && p.bad)
  }

  lemma MoreChangesNothing(cfg: Config, w: Room, id: Id, p: Parsed, q: Parsed, m: nat, r: Room)
    requires id in w.clients && Framed(p.packets) && Framed(q.packets) && p.packets <= q.packets
    requires HandledSome(cfg, w, id, p, m, r) && !Live(r, id)
    requires p.bad ==> q == Parsed(p.packets, q.rest, true)
    ensures HandledSome(cfg, w, id, q, m, r)
  {
    hide Live;
    assert q.packets[..m] == p.packets[..m];
  }

  /** While the connection is live every whole frame so far has been handled, and what waits is the
      rest; in any case the frames handled are a prefix of the stream's, and it stops short only
      once the connection has gone. */
  lemma {:induction false} EveryCutHandlesAPrefix(cfg: Config, h: Hub, id: Id, chunks: seq<seq<byte>>)
    returns (m: nat)
    requires id in h.room.clients && id in h.rx && Live(h.room, id)
    requires Parse(h.rx[id]) == Parsed([], h.rx[id], false)
    ensures var p := Parse(h.rx[id] + Flatten(chunks));
            var r := ReceiveAll(cfg, h, id, chunks);
            && Framed(p.packets)
            && HandledSome(cfg, h.room, id, p, m, r.room)
            && (Live(r.room, id) ==> m == |p.packets| && !p.bad && r.rx[id] == p.rest)
    decreases |chunks|
  {
    hide Live, Drop, HandleAll;
    var whole := h.rx[id] + Flatten(chunks);
    ParseFrames(whole);
    if chunks == [] {
      assert whole == h.rx[id];
      assert HandleAll(cfg, h.room, id, []) == h.room by { NoFrames(cfg, h.room, id); }
      m := 0;
    } else {
      var n := |chunks| - 1;
      m := EveryCutHandlesAPrefix(cfg, h, id, chunks[..n]);
      var part := h.rx[id] + Flatten(chunks[..n]);
      assert whole == part + chunks[n];
      ParseInTwo(part, chunks[n]);
      var r := ReceiveAll(cfg, h, id, chunks[..n]);
      if Live(r.room, id) {
        var q := Parse(Parse(part).rest + chunks[n]);
        ParseFrames(Parse(part).rest + chunks[n]);
        LiveIsNotBad(cfg, h.room, id, Parse(part), m, r.room);
        m := |Parse(whole).packets|;
        Delivered(cfg, h.room, id, Parse(part), q, Parse(whole), Receive(cfg, r, id, chunks[n]).room);
      } else {
        MoreChangesNothing(cfg, h.room, id, Parse(part), Parse(whole), m, r.room);
      }
    }
  }

  lemma NoFrames(cfg: Config, w: Room, id: Id)
    requires id in w.clients
    ensures HandleAll(cfg, w, id, []) == w
  {
  }

  lemma LiveIsNotBad(cfg: Config, w: Room, id: Id, p: Parsed, m: nat, r: Room)
    requires id in w.clients && Framed(p.packets) && HandledSome(cfg, w, id, p, m, r) && Live(r, id)
    requires m == |p.packets| && !p.bad
    ensures r == HandleAll(cfg, w, id, p.packets)
  {
    assert p.packets[..m] == p.packets;
  }

  lemma Delivered(cfg: Config, w: Room, id: Id, p: Parsed, q: Parsed, whole: Parsed, r: Room)
    requires id in w.clients && Framed(p.packets) && Framed(q.packets) && Framed(whole.packets)
    requires whole.packets == p.packets + q.packets && whole.bad == q.bad
    requires r == Deliver(cfg, HandleAll(cfg, w, id, p.packets), id, q)
    ensures HandledSome(cfg, w, id, whole, |whole.packets|, r) && (Live(r, id) ==> !whole.bad)
  {
    hide Live, HandleAll;
    HandleInTwo(cfg, w, id, p.packets, q.packets);
    assert whole.packets[..|whole.packets|] == whole.packets;
  }

  lemma OtherBuffers(cfg: Config, h: Hub, id: Id, chunks: seq<seq<byte>>)
    requires id in h.room.clients && id in h.rx
    ensures forall i :: i in h.rx && i != id ==> ReceiveAll(cfg, h, id, chunks).rx[i] == h.rx[i]
    decreases |chunks|
  {
    if chunks != [] {
      OtherBuffers(cfg, h, id, chunks[..|chunks| - 1]);
    }
  }

  /** Nothing follows the frame that ends the connection, if one does. */
  ghost predicate EndsLast(cfg: Config, w: Room, id: Id, p: Parsed)
    requires id in w.clients && Framed(p.packets)
  {
    && !p.bad
    && (p.packets != [] ==> Live(HandleAll(cfg, w, id, p.packets[..|p.packets| - 1]), id))
  }

  lemma LiveBefore(cfg: Config, w: Room, id: Id, ps: seq<Packet>, m: nat)
    requires id in w.clients && Framed(ps) && m < |ps| && Live(HandleAll(cfg, w, id, ps[..|ps| - 1]), id)
    ensures Live(HandleAll(cfg, w, id, ps[..m]), id)
  {
    hide Handle, Live;
    var n := |ps| - 1;
    assert ps[..n] == ps[..m] + ps[m..n];
    HandleInTwo(cfg, w, id, ps[..m], ps[m..n]);
    GoneForGood(cfg, HandleAll(cfg, w, id, ps[..m]), id, ps[m..n]);
  }

  /** Reassembly: as long as nothing follows the frame that ends a connection, what a stream does to
      the room does not depend on how it was cut into receives. */
  lemma ChunkingIsInvisible(cfg: Config, h: Hub, id: Id, chunks: seq<seq<byte>>)
    requires id in h.room.clients && id in h.rx && Live(h.room, id)
    requires Parse(h.rx[id]) == Parsed([], h.rx[id], false)
    requires var p := Parse(h.rx[id] + Flatten(chunks)); Framed(p.packets) && EndsLast(cfg, h.room, id, p)
    ensures ReceiveAll(cfg, h, id, chunks).room == Receive(cfg, h, id, Flatten(chunks)).room
    ensures Live(ReceiveAll(cfg, h, id, chunks).room, id) ==>
              ReceiveAll(cfg, h, id, chunks) == Receive(cfg, h, id, Flatten(chunks))
  {
    hide Live, Drop, HandleAll, Parse;
    var p := Parse(h.rx[id] + Flatten(chunks));
    var m := EveryCutHandlesAPrefix(cfg, h, id, chunks);
    var n := |p.packets|;
    if m < n {
      LiveBefore(cfg, h.room, id, p.packets, m);
    }
    assert p.packets[..n] == p.packets;
    OtherBuffers(cfg, h, id, chunks);
    var r := ReceiveAll(cfg, h, id, chunks);
    if Live(r.room, id) {
      assert r.rx == h.rx[id := p.rest];
    }
  }

  // ---- bounds ---------------------------------------------------------------------------

  const LOBBY_MAX := 75   // the longest reply a frame can draw: a LOBBY of eight

  ghost predicate Appended(c: Client, z: Client, id: Id) {
    c.tx <= z.tx && |z.tx| <= |c.tx| + LOBBY_MAX && (c.partner != Some(id) ==> z.partner != Some(id))
  }

  lemma PairAppends(cfg: Config, w: Room, id: Id)
    requires id in w.clients
    ensures Appended(w.clients[id], TryPair(cfg, w, id).clients[id], id)
  {
    hide Pad;
  }

  lemma HelloAppends(cfg: Config, w: Room, id: Id, payload: seq<byte>)
    requires id in w.clients && w.clients[id].partner != Some(id)
    ensures Appended(w.clients[id], OnHello(cfg, w, id, payload).clients[id], id)
  {
    hide Asked, Resolve, TryPair, Without, Unname;
    if Asked(payload).Some? {
      var free := Resolve(cfg, w.names, Asked(payload).value, w.drawn, MAX_TRIES);
      if free.Some? {
        PairAppends(cfg, Rename(w, id, free.value.0, free.value.1), id);
      }
    }
  }

  /** What one frame appends to its own sender: at most a LOBBY. */
  lemma HandleAppends(cfg: Config, w: Room, id: Id, p: Packet)
    requires id in w.clients && |p.payload| < 255 && w.clients[id].partner != Some(id)
    ensures Appended(w.clients[id], Handle(cfg, w, id, p).clients[id], id)
  {
    hide OnHello, TryPair, Find, Newest, Pad, LobbyRows, Listed, SetEntry, Waits, Live, Without, Unname;
    if p.kind == T_HELLO {
      HelloAppends(cfg, w, id, p.payload);
    } else if p.kind == T_JOIN {
      PairAppends(cfg, w, id);
    }
  }

  lemma {:induction false} AllAppend(cfg: Config, w: Room, id: Id, ps: seq<Packet>)
    requires id in w.clients && Framed(ps) && w.clients[id].partner != Some(id)
    ensures var r := HandleAll(cfg, w, id, ps);
            && w.clients[id].tx <= r.clients[id].tx && |r.clients[id].tx| <= |w.clients[id].tx| + LOBBY_MAX * |ps|
            && r.clients[id].partner != Some(id)
    decreases |ps|
  {
    hide Handle;
    if ps != [] {
      AllAppend(cfg, w, id, ps[..|ps| - 1]);
      HandleAppends(cfg, HandleAll(cfg, w, id, ps[..|ps| - 1]), id, ps[|ps| - 1]);
    }
  }

  /** One receive parses at most 2148 frames and so appends at most 161,100 bytes to its own client. */
  lemma OneReceiveIsBounded(cfg: Config, h: Hub, id: Id, data: seq<byte>)
    requires id in h.room.clients && id in h.rx && |h.rx[id]| <= MAX_LEN && |data| <= MAX_RECV
    requires h.room.clients[id].partner != Some(id)
    ensures var r := Receive(cfg, h, id, data).room.clients[id].tx;
            && h.room.clients[id].tx <= r
            && |r| <= |h.room.clients[id].tx| + 161_100
  {
    hide Live, HandleAll;
    var p := Parse(h.rx[id] + data);
    ParseFrames(h.rx[id] + data);
    FramesAreFew(h.rx[id] + data);
    AllAppend(cfg, h.room, id, p.packets);
  }

  /** What one frame appends to anyone else: at most fifteen bytes for every two of its own. */
  ghost predicate Spread(c: Client, z: Client, bytes: nat) {
    c.tx <= z.tx && 2 * (|z.tx| - |c.tx|) <= 15 * bytes
  }

  lemma PairSpreads(cfg: Config, w: Room, id: Id, j: Id, bytes: nat)
    requires id in w.clients && j in w.clients && j != id && bytes >= 2
    ensures Spread(w.clients[j], TryPair(cfg, w, id).clients[j], bytes)
  {
    hide Pad, Oldest;
  }

  lemma DropSpreads(w: Room, id: Id, j: Id)
    requires id in w.clients && j in w.clients
    ensures var c, z := w.clients[j], Drop(w, id).clients[j]; c.tx <= z.tx && |z.tx| <= |c.tx| + W.FRAME_LEN
  {
  }

  lemma HelloSpreads(cfg: Config, w: Room, id: Id, payload: seq<byte>, j: Id, bytes: nat)
    requires id in w.clients && j in w.clients && j != id && bytes >= 2
    ensures Spread(w.clients[j], OnHello(cfg, w, id, payload).clients[j], bytes)
  {
    hide Asked, Resolve, TryPair, Drop;
    DropSpreads(w, id, j);
    if Asked(payload).Some? {
      var free := Resolve(cfg, w.names, Asked(payload).value, w.drawn, MAX_TRIES);
      if free.Some? {
        PairSpreads(cfg, Rename(w, id, free.value.0, free.value.1), id, j, bytes);
      }
    }
  }

  lemma ForwardSpreads(w: Room, id: Id, p: Packet, j: Id)
    requires id in w.clients && j in w.clients && j != id && |p.payload| < 255
    ensures Spread(w.clients[j], Forward(w, id, p).clients[j], |p.payload| + 2)
  {
    hide Pad;
  }

  lemma LogSpreadsNothing(w: Room, id: Id, payload: seq<byte>, j: Id)
    requires id in w.clients && j in w.clients && |payload| >= GAME_PAYLOAD
    ensures LogCrc(w, id, payload).clients[j].tx == w.clients[j].tx
  {
    hide Find, Newest, SetEntry, DropEntry, LapAfter;
  }

  lemma HandleSpreads(cfg: Config, w: Room, id: Id, p: Packet, j: Id)
    requires id in w.clients && j in w.clients && j != id && |p.payload| < 255
    ensures Spread(w.clients[j], Handle(cfg, w, id, p).clients[j], |p.payload| + 2)
  {
    hide OnHello, TryPair, Forward, LogCrc, LobbyRows, Listed, Drop;
    if Relayed(p.kind) {
      ForwardSpreads(w, id, p, j);
      if p.kind == W.T_INPUT && |p.payload| >= GAME_PAYLOAD {
        LogSpreadsNothing(Forward(w, id, p), id, p.payload, j);
      }
    } else if p.kind == T_HELLO {
      HelloSpreads(cfg, w, id, p.payload, j, |p.payload| + 2);
    } else if p.kind == T_JOIN {
      PairSpreads(cfg, w, id, j, |p.payload| + 2);
    } else if p.kind == T_BYE {
      DropSpreads(w, id, j);
    }
  }

  lemma {:induction false} AllSpread(cfg: Config, w: Room, id: Id, ps: seq<Packet>, j: Id)
    requires id in w.clients && j in w.clients && j != id && Framed(ps)
    ensures Spread(w.clients[j], HandleAll(cfg, w, id, ps).clients[j], |Unparse(ps)|)
    decreases |ps|
  {
    hide Handle, Unparse;
    if ps == [] {
      NothingUnparsed();
    } else {
      var n := |ps| - 1;
      AllSpread(cfg, w, id, ps[..n], j);
      HandleSpreads(cfg, HandleAll(cfg, w, id, ps[..n]), id, ps[n], j);
      UnparseLast(ps);
    }
  }

  lemma NothingUnparsed()
    ensures Unparse([]) == []
  {
  }

  lemma {:induction false} UnparseLast(ps: seq<Packet>)
    requires Framed(ps) && ps != []
    ensures |Unparse(ps)| == |Unparse(ps[..|ps| - 1])| + |ps[|ps| - 1].payload| + 2
    decreases |ps|
  {
    var n := |ps| - 1;
    if n > 0 {
      UnparseLast(ps[1..]);
      assert ps[1..][..n - 1] == ps[..n][1..];
    }
  }

  /** The other half of the bound, which the C port's comment leaves out: one receive appends at most
      32,228 bytes to any other client's output. With its own 161,100 and the backlog a flush leaves, a
      client that hears from one other a turn still stays below the port's buffer. */
  lemma OneReceiveToOthers(cfg: Config, h: Hub, id: Id, data: seq<byte>, j: Id)
    requires id in h.room.clients && id in h.rx && j in h.room.clients && j != id
    requires |h.rx[id]| <= MAX_LEN && |data| <= MAX_RECV
    ensures var c, z := h.room.clients[j], Receive(cfg, h, id, data).room.clients[j];
            c.tx <= z.tx && |z.tx| <= |c.tx| + 32_228
    ensures MAX_BACKLOG + 161_100 + 32_228 <= 262_144
  {
    hide Live, HandleAll, Parse, Drop, Unparse;
    var p := Parse(h.rx[id] + data);
    ParseFrames(h.rx[id] + data);
    ParseIsWhole(h.rx[id] + data);
    AllSpread(cfg, h.room, id, p.packets, j);
    var x := HandleAll(cfg, h.room, id, p.packets);
    DropSpreads(CountBad(x), id, j);
  }

  /** Between receives a live connection holds less than one frame. */
  ghost predicate Tidy(h: Hub) {
    && (forall i :: Live(h.room, i) ==> Known(h, i))
    && (forall i :: Live(h.room, i) && i in h.rx ==>
          |h.rx[i]| <= MAX_LEN && Parse(h.rx[i]) == Parsed([], h.rx[i], false))
    && NotSelf(h.room)
  }

  /** Nobody is paired with itself. */
  ghost predicate NotSelf(w: Room) {
    forall i :: i in w.clients ==> w.clients[i].partner != Some(i)
  }

  lemma SendNotSelf(w: Room, id: Id, data: seq<byte>)
    requires NotSelf(w)
    ensures NotSelf(Send(w, id, data))
  {
  }

  lemma LogNotSelf(w: Room, id: Id, payload: seq<byte>)
    requires id in w.clients && |payload| >= GAME_PAYLOAD && NotSelf(w)
    ensures NotSelf(LogCrc(w, id, payload))
  {
    hide Find, Newest, SetEntry, DropEntry, LapAfter;
  }

  lemma PairNotSelf(cfg: Config, w: Room, id: Id)
    requires id in w.clients && NotSelf(w)
    ensures NotSelf(TryPair(cfg, w, id))
  {
    hide StartFrame, Live;
  }

  lemma HelloNotSelf(cfg: Config, w: Room, id: Id, payload: seq<byte>)
    requires id in w.clients && NotSelf(w)
    ensures NotSelf(OnHello(cfg, w, id, payload))
  {
    hide Asked, Resolve, TryPair, Drop;
    DropIsTidy(w, id);
    var name := Asked(payload);
    if name.Some? {
      var free := Resolve(cfg, w.names, name.value, w.drawn, MAX_TRIES);
      if free.Some? {
        PairNotSelf(cfg, Rename(w, id, free.value.0, free.value.1), id);
      }
    }
  }

  lemma HandleNotSelf(cfg: Config, w: Room, id: Id, p: Packet)
    requires id in w.clients && |p.payload| < 255 && NotSelf(w)
    ensures NotSelf(Handle(cfg, w, id, p))
  {
    hide NotSelf, Send, LogCrc, OnHello, TryPair, Drop, Pad, Listed, LobbyRows;
    DropIsTidy(w, id);
    PairNotSelf(cfg, w, id);
    HelloNotSelf(cfg, w, id, p.payload);
    SendNotSelf(w, id, Frame(T_PONG, []));
    if Relayed(p.kind) {
      var partner := w.clients[id].partner;
      if partner.Some? {
        SendNotSelf(w, partner.value, Frame(p.kind, Pad(p.payload, GAME_PAYLOAD)));
      }
      if p.kind == W.T_INPUT && |p.payload| >= GAME_PAYLOAD {
        LogNotSelf(Forward(w, id, p), id, p.payload);
      }
    } else if p.kind == T_LIST {
      var ids := Listed(w, |w.order|);
      SendNotSelf(w, id, Frame(T_LOBBY, [|ids|] + LobbyRows(w, ids)));
    }
  }

  lemma {:induction false} AllNotSelf(cfg: Config, w: Room, id: Id, ps: seq<Packet>)
    requires id in w.clients && Framed(ps) && NotSelf(w)
    ensures NotSelf(HandleAll(cfg, w, id, ps))
    decreases |ps|
  {
    hide Handle, NotSelf;
    if ps != [] {
      AllNotSelf(cfg, w, id, ps[..|ps| - 1]);
      HandleNotSelf(cfg, HandleAll(cfg, w, id, ps[..|ps| - 1]), id, ps[|ps| - 1]);
    }
  }

  lemma ReceiveIsTidy(cfg: Config, h: Hub, id: Id, data: seq<byte>)
    requires Tidy(h) && id in h.room.clients && id in h.rx
    ensures Tidy(Receive(cfg, h, id, data))
  {
    hide HandleAll, Parse, Drop;
    var p := Parse(h.rx[id] + data);
    ParseFrames(h.rx[id] + data);
    GoneForGood(cfg, h.room, id, p.packets);
    AllNotSelf(cfg, h.room, id, p.packets);
    if !p.bad {
      RestIsPartial(h.rx[id] + data);
    }
    var x := HandleAll(cfg, h.room, id, p.packets);
    DropIsTidy(CountBad(x), id);
    var r := Receive(cfg, h, id, data);
    assert forall i :: Live(r.room, i) ==> Live(h.room, i);
    assert NotSelf(r.room);
    assert forall i :: Live(r.room, i) && i in r.rx ==>
          |r.rx[i]| <= MAX_LEN && Parse(r.rx[i]) == Parsed([], r.rx[i], false);
  }

  lemma DropIsTidy(w: Room, id: Id)
    requires id in w.clients
    ensures forall i :: Live(Drop(w, id), i) ==> Live(w, i)
    ensures NotSelf(w) ==> NotSelf(Drop(w, id))
  {
  }

  lemma StepIsTidy(cfg: Config, h: Hub, e: Event)
    requires Tidy(h) && Enabled(h, e)
    ensures Tidy(Step(cfg, h, e))
  {
    hide Receive, Drop, Parse, FromAddress;
    match e {
      case Connect(id, ip, born) => ConnectIsTidy(cfg, h, id, ip, born);
      case Bytes(id, data) => ReceiveIsTidy(cfg, h, id, data);
      case Hangup(id) => DropIsTidy(h.room, id);
      case Drain(id, s) => FlushIsTidy(h.room, id, s);
    }
  }

  lemma ConnectIsTidy(cfg: Config, h: Hub, id: Id, ip: int, born: int)
    requires Tidy(h) && id !in h.room.clients
    ensures Tidy(Hub(Accept(h.room, id, ip, born), h.rx[id := []]))
  {
    AcceptAdds(h.room, id, ip, born);
    hide FromAddress, Accept, NotSelf, Parse;
    assert Parse([]) == Parsed([], [], false) by { NothingParsed(); }
  }

  lemma NothingParsed()
    ensures Parse([]) == Parsed([], [], false)
  {
  }

  lemma AcceptAdds(w: Room, id: Id, ip: int, born: int)
    requires id !in w.clients
    ensures var r := Accept(w, id, ip, born);
            && (forall i :: Live(r, i) ==> Live(w, i) || (i == id && id in r.clients))
            && (forall i :: i in w.clients ==> i in r.clients) && (NotSelf(w) ==> NotSelf(r))
  {
    hide FromAddress;
  }

  lemma BehindIsTidy(w: Room, id: Id, tx: seq<byte>)
    requires id in w.clients
    ensures var w1 := Put(w, id, w.clients[id].(tx := tx));
            var r := Drop(w1.(stats := w1.stats.(txDrops := w1.stats.txDrops + 1)), id);
            && (forall i :: Live(r, i) ==> Live(w, i)) && w1.order == w.order
            && r.clients.Keys == w.clients.Keys && (NotSelf(w) ==> NotSelf(w1) && NotSelf(r))
  {
    hide Drop;
    var w1 := Put(w, id, w.clients[id].(tx := tx));
    DropIsTidy(w1.(stats := w1.stats.(txDrops := w1.stats.txDrops + 1)), id);
  }

  lemma FlushIsTidy(w: Room, id: Id, s: Sent)
    requires id in w.clients && (s.Took? ==> s.n <= |w.clients[id].tx|)
    ensures forall i :: Live(Flush(w, id, s), i) ==> Live(w, i)
    ensures Flush(w, id, s).clients.Keys == w.clients.Keys
    ensures NotSelf(w) ==> NotSelf(Flush(w, id, s))
  {
    hide Drop, NotSelf;
    DropIsTidy(w, id);
    BehindIsTidy(w, id, if s.Took? then w.clients[id].tx[s.n..] else w.clients[id].tx);
  }

  /** On every run, whatever arrives, a receive begins with at most 200 bytes waiting: with one
      receive's worth more they always fit the C port's buffer, and its overflow branch is dead. */
  lemma {:induction false} BufferNeverOverflows(cfg: Config, es: seq<Event>)
    requires Runs(cfg, EMPTY, es)
    ensures Tidy(Exec(cfg, EMPTY, es))
    ensures forall i, data: seq<byte> :: Enabled(Exec(cfg, EMPTY, es), Event.Bytes(i, data)) ==>
              |Exec(cfg, EMPTY, es).rx[i] + data| <= 4352
    decreases |es|
  {
    hide Step;
    if es != [] {
      BufferNeverOverflows(cfg, es[..|es| - 1]);
      StepIsTidy(cfg, Exec(cfg, EMPTY, es[..|es| - 1]), es[|es| - 1]);
    }
  }
}
