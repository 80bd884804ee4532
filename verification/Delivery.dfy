/** What a console hears from the relay, on whole runs of the relay: nothing, then START, then its
    partner's records, whole and in order, then at most one goodbye. However the clients' bytes are cut
    and interleaved, and however their sockets drain. */
module Delivery {
  import opened Bytes
  import opened Relay
  import opened Reassembly
  import opened Pairing
  import opened Forwarding
  import S = Session
  import W = Wire

  // ---- the ledger -----------------------------------------------------------------------

  /** The relay, with what has passed through it: for every connection the bytes its socket has taken,
      the bytes that have come from it, where in both its latest match began, whom that was against, and
      how many it has had. */
  datatype Ledger = Ledger(
    hub: Hub, taken: map<Id, seq<byte>>, heard: map<Id, seq<byte>>,
    outAt: map<Id, int>, inAt: map<Id, int>, foes: map<Id, Option<Id>>, games: map<Id, nat>)

  const OPENED := Ledger(EMPTY, map[], map[], map[], map[], map[], map[])

  function BytesOf(m: map<Id, seq<byte>>, i: Id): seq<byte> {
    if i in m then m[i] else []
  }

  /** Where a match began: -1 when there has been none. */
  function Mark(m: map<Id, int>, i: Id): int {
    if i in m then m[i] else -1
  }

  function Foe(l: Ledger, i: Id): Option<Id> {
    if i in l.foes then l.foes[i] else None
  }

  function Games(l: Ledger, i: Id): nat {
    if i in l.games then l.games[i] else 0
  }

  /** All the relay has ever sent `i`: what its socket has taken and what waits. */
  function Output(l: Ledger, i: Id): seq<byte>
    requires i in l.hub.room.clients
  {
    BytesOf(l.taken, i) + l.hub.room.clients[i].tx
  }

  predicate NewlyPaired(w: Room, r: Room, i: Id) {
    i in w.clients && i in r.clients && w.clients[i].partner == None && r.clients[i].partner.Some?
  }

  /** The relay goes on to `r`; a match made on the way begins where both streams stood. */
  function Marked(l: Ledger, r: Hub): Ledger {
    var w := l.hub.room;
    l.(hub := r,
       outAt := map i | i in r.room.clients :: if NewlyPaired(w, r.room, i) then |Output(l, i)| else Mark(l.outAt, i),
       inAt := map i | i in r.room.clients ::
         if NewlyPaired(w, r.room, i) then |BytesOf(l.heard, i)| - |BytesOf(r.rx, i)| else Mark(l.inAt, i),
       foes := map i | i in r.room.clients :: if NewlyPaired(w, r.room, i) then r.room.clients[i].partner else Foe(l, i),
       games := map i | i in r.room.clients :: if NewlyPaired(w, r.room, i) then Games(l, i) + 1 else Games(l, i))
  }

  /** The frame loop, one frame. */
  function OneFrameIn(cfg: Config, l: Ledger, id: Id): (r: Ledger)
    requires id in l.hub.room.clients && id in l.hub.rx && Whole(l.hub.rx[id])
    ensures r.hub.room.clients.Keys == l.hub.room.clients.Keys && r.hub.rx == l.hub.rx[id := Tail(l.hub.rx[id])]
  {
    Marked(l, Hub(Handle(cfg, l.hub.room, id, Head(l.hub.rx[id])), l.hub.rx[id := Tail(l.hub.rx[id])]))
  }

  function FramesIn(cfg: Config, l: Ledger, id: Id): (r: Ledger)
    requires id in l.hub.room.clients && id in l.hub.rx
    ensures r.hub.room.clients.Keys == l.hub.room.clients.Keys && id in r.hub.rx
    decreases |l.hub.rx[id]|
  {
    if Whole(l.hub.rx[id]) then FramesIn(cfg, OneFrameIn(cfg, l, id), id) else l
  }

  function Fill(l: Ledger, id: Id, data: seq<byte>): Ledger
    requires id in l.hub.rx
  {
    l.(hub := l.hub.(rx := l.hub.rx[id := l.hub.rx[id] + data]), heard := l.heard[id := BytesOf(l.heard, id) + data])
  }

  function WithRoom(l: Ledger, w: Room): Ledger {
    l.(hub := l.hub.(room := w))
  }

  predicate BadLength(rx: seq<byte>) {
    rx != [] && (rx[0] < 1 || rx[0] > MAX_LEN)
  }

  function Taken(tx: seq<byte>, s: Sent): seq<byte>
    requires s.Took? ==> s.n <= |tx|
  {
    if s.Took? then tx[..s.n] else []
  }

  /** One event of the relay, and what passed through in it. */
  function Advance(cfg: Config, l: Ledger, e: Event): Ledger
    requires Enabled(l.hub, e)
  {
    match e
    case Bytes(id, data) =>
      var z := FramesIn(cfg, Fill(l, id, data), id);
      if BadLength(z.hub.rx[id]) then WithRoom(z, Drop(CountBad(z.hub.room), id)) else z
    case Drain(id, s) =>
      l.(hub := Step(cfg, l.hub, e),
         taken := l.taken[id := BytesOf(l.taken, id) + Taken(l.hub.room.clients[id].tx, s)])
    case _ => l.(hub := Step(cfg, l.hub, e))
  }

  // ---- the ledger keeps the relay --------------------------------------------------------

  lemma FirstFrame(cfg: Config, w: Room, id: Id, rx: seq<byte>)
    requires id in w.clients && Whole(rx) && Framed(Parse(Tail(rx)).packets) && Framed(Parse(rx).packets)
    ensures Parse(rx).rest == Parse(Tail(rx)).rest && Parse(rx).bad == Parse(Tail(rx)).bad
    ensures HandleAll(cfg, w, id, Parse(rx).packets)
         == HandleAll(cfg, Handle(cfg, w, id, Head(rx)), id, Parse(Tail(rx)).packets)
  {
    hide Handle, Head, Tail, Whole;
    OneFrame(rx);
    HandleInTwo(cfg, w, id, [Head(rx)], Parse(Tail(rx)).packets);
    HandleOne(cfg, w, id, Head(rx));
  }

  lemma Rewritten(rx: map<Id, seq<byte>>, id: Id, a: seq<byte>, b: seq<byte>)
    ensures rx[id := a][id := b] == rx[id := b]
    ensures id in rx && rx[id] == b ==> rx[id := b] == rx
  {
  }

  lemma OneFrameHub(cfg: Config, l: Ledger, id: Id)
    requires id in l.hub.room.clients && id in l.hub.rx && Whole(l.hub.rx[id])
    ensures OneFrameIn(cfg, l, id).hub ==
              Hub(Handle(cfg, l.hub.room, id, Head(l.hub.rx[id])), l.hub.rx[id := Tail(l.hub.rx[id])])
  {
    hide Handle, Head, Tail, Whole;
  }

  lemma {:induction false} FramesInIsHandleAll(cfg: Config, l: Ledger, id: Id)
    requires id in l.hub.room.clients && id in l.hub.rx
    ensures var p := Parse(l.hub.rx[id]);
            && Framed(p.packets)
            && FramesIn(cfg, l, id).hub == Hub(HandleAll(cfg, l.hub.room, id, p.packets), l.hub.rx[id := p.rest])
            && p.bad == BadLength(p.rest)
    decreases |l.hub.rx[id]|
  {
    var rx := l.hub.rx[id];
    ParseFrames(rx);
    if Whole(rx) {
      hide Handle, HandleAll, OneFrameIn, Head, Tail, Parse, BadLength, Framed;
      OneFrameHub(cfg, l, id);
      ParseFrames(Tail(rx));
      FramesInIsHandleAll(cfg, OneFrameIn(cfg, l, id), id);
      FirstFrame(cfg, l.hub.room, id, rx);
      Rewritten(l.hub.rx, id, Tail(rx), Parse(rx).rest);
    } else {
      NothingWhole(rx);
      Rewritten(l.hub.rx, id, rx, rx);
      NoFrames(cfg, l.hub.room, id);
    }
  }

  lemma NothingWhole(rx: seq<byte>)
    requires !Whole(rx)
    ensures Parse(rx) == Parsed([], rx, BadLength(rx))
  {
  }

  lemma HandleOne(cfg: Config, w: Room, id: Id, p: Packet)
    requires id in w.clients && |p.payload| < MAX_LEN
    ensures Framed([p]) && HandleAll(cfg, w, id, [p]) == Handle(cfg, w, id, p)
  {
    hide Handle;
    NoFrames(cfg, w, id);
    assert [p][..0] == [];
  }

  /** Keeping the ledger changes nothing about the relay. */
  lemma AdvanceIsStep(cfg: Config, l: Ledger, e: Event)
    requires Enabled(l.hub, e)
    ensures Advance(cfg, l, e).hub == Step(cfg, l.hub, e)
  {
    if e.Bytes? {
      BytesAdvance(cfg, l, e.id, e.data);
    } else {
      hide Step;
    }
  }

  lemma BytesAdvance(cfg: Config, l: Ledger, id: Id, data: seq<byte>)
    requires id in l.hub.room.clients && id in l.hub.rx
    ensures var z := FramesIn(cfg, Fill(l, id, data), id);
            (if BadLength(z.hub.rx[id]) then WithRoom(z, Drop(CountBad(z.hub.room), id)) else z).hub == Receive(cfg, l.hub, id, data)
  {
    hide HandleAll, Drop, Parse, FramesIn, BadLength, CountBad, Framed;
    var rx := l.hub.rx[id] + data;
    FramesInIsHandleAll(cfg, Fill(l, id, data), id);
    Rewritten(l.hub.rx, id, rx, Parse(rx).rest);
  }

  function Kept(cfg: Config, es: seq<Event>): (l: Ledger)
    requires Runs(cfg, EMPTY, es)
    ensures l.hub == Exec(cfg, EMPTY, es)
    decreases |es|
  {
    if es == [] then OPENED else
      var l := Kept(cfg, es[..|es| - 1]);
      AdvanceIsStep(cfg, l, es[|es| - 1]);
      Advance(cfg, l, es[|es| - 1])
  }

  // ---- consoles that behave as the ROM does ----------------------------------------------

  ghost predicate IsRecord(p: Packet) {
    exists m: W.Msg :: m.Input? && p == PacketOf(m)
  }

  /** The ROM's discipline for one frame: one HELLO, whole records, at most a BYE, and nothing once it is
      gone. */
  ghost predicate Rom(w: Room, id: Id, p: Packet) {
    Polite(w, id, p) && (p.kind == T_HELLO || p.kind == T_BYE || IsRecord(p))
  }

  ghost predicate RomFrames(cfg: Config, l: Ledger, id: Id)
    requires id in l.hub.room.clients && id in l.hub.rx
    decreases |l.hub.rx[id]|
  {
    Whole(l.hub.rx[id]) ==> Rom(l.hub.room, id, Head(l.hub.rx[id])) && RomFrames(cfg, OneFrameIn(cfg, l, id), id)
  }

  ghost predicate RomEvent(cfg: Config, l: Ledger, e: Event)
    requires Enabled(l.hub, e)
  {
    e.Bytes? ==> RomFrames(cfg, Fill(l, e.id, e.data), e.id)
  }

  ghost predicate RomRun(cfg: Config, es: seq<Event>)
    requires Runs(cfg, EMPTY, es)
    decreases |es|
  {
    es == [] || (RomRun(cfg, es[..|es| - 1]) && RomEvent(cfg, Kept(cfg, es[..|es| - 1]), es[|es| - 1]))
  }

  // ---- what is in the books --------------------------------------------------------------

  ghost predicate IsStart(cfg: Config, s: seq<byte>, role: int) {
    |s| == 15 && s[1] == T_START && s[2] as int == role && 0 <= role <= 1 && s[5] == cfg.delay && s[6] == cfg.variation
  }

  /** Since its match began `i` has been sent START and the whole records `ms`, and `j` has sent those
      records and what waits of the next. */
  ghost predicate InMatch(cfg: Config, l: Ledger, i: Id, j: Id, start: seq<byte>, ms: seq<W.Msg>)
    requires i in l.hub.room.clients
  {
    var at, from := Mark(l.outAt, i), Mark(l.inAt, j);
    && IsStart(cfg, start, l.hub.room.clients[i].role) && Inputs(ms)
    && 0 <= at <= |Output(l, i)| && Output(l, i)[at..] == start + W.EncodeAll(ms)
    && Foe(l, i) == Some(j) && j in l.hub.rx
    && 0 <= from <= |BytesOf(l.heard, j)| && BytesOf(l.heard, j)[from..] == W.EncodeAll(ms) + l.hub.rx[j]
  }

  ghost predicate NoRecord(s: seq<byte>) {
    forall m: W.Msg :: m.Input? ==> !(W.Encode(m) <= s)
  }

  /** `j` is gone, and `ms` are all the whole records it sent in its last match: what came after them is
      none. */
  ghost predicate Gave(l: Ledger, j: Id, ms: seq<W.Msg>) {
    var h, from, n := BytesOf(l.heard, j), Mark(l.inAt, j), |W.EncodeAll(ms)|;
    && j in l.hub.room.clients && !Live(l.hub.room, j)
    && 0 <= from && from + n <= |h| && h[from..from + n] == W.EncodeAll(ms) && NoRecord(h[from + n..])
  }

  /** Its match over, `i` has been sent START, the records of whoever it played and one goodbye. */
  ghost predicate AfterMatch(cfg: Config, l: Ledger, i: Id, start: seq<byte>, ms: seq<W.Msg>, role: int)
    requires i in l.hub.room.clients
  {
    var at := Mark(l.outAt, i);
    && IsStart(cfg, start, role) && Inputs(ms)
    && 0 <= at <= |Output(l, i)| && Output(l, i)[at..] == start + W.EncodeAll(ms + [W.Left])
    && Foe(l, i).Some? && Gave(l, Foe(l, i).value, ms)
  }

  ghost predicate Played(cfg: Config, l: Ledger, i: Id)
    requires i in l.hub.room.clients
  {
    match l.hub.room.clients[i].partner
    case Some(j) => exists start, ms :: InMatch(cfg, l, i, j, start, ms)
    case None => exists start, ms, role :: AfterMatch(cfg, l, i, start, ms, role)
  }

  ghost predicate Good(cfg: Config, l: Ledger, i: Id)
    requires i in l.hub.room.clients
  {
    var c := l.hub.room.clients[i];
    && (c.name == [] ==> Games(l, i) == 0)
    && (Games(l, i) == 0 ==> c.partner == None && Output(l, i) == [])
    && (Games(l, i) == 1 ==> Mark(l.outAt, i) == 0)
    && (Games(l, i) > 0 ==> Played(cfg, l, i))
  }

  /** What waits is the end of what came. */
  ghost predicate Tails(l: Ledger) {
    forall i :: i in l.hub.rx ==> EndsWith(BytesOf(l.heard, i), l.hub.rx[i])
  }

  predicate EndsWith(h: seq<byte>, r: seq<byte>) {
    |r| <= |h| && h[|h| - |r|..] == r
  }

  ghost predicate Books(cfg: Config, l: Ledger) {
    && Matching(l.hub.room) && Tails(l)
    && l.taken.Keys <= l.hub.room.clients.Keys && l.games.Keys <= l.hub.room.clients.Keys
    && l.heard.Keys <= l.hub.rx.Keys
    && (forall i :: i in l.hub.room.clients ==> i in l.hub.rx)
    && forall i :: Live(l.hub.room, i) && i in l.hub.room.clients ==> Good(cfg, l, i)
  }

  /** Two ledgers that differ in the room and in one connection's waiting bytes only. */
  ghost predicate SameBooks(l: Ledger, z: Ledger, id: Id) {
    && z.taken == l.taken && z.heard == l.heard && z.games.Keys <= z.hub.room.clients.Keys
    && z.hub.rx.Keys == l.hub.rx.Keys && (forall i :: i in l.hub.rx && i != id ==> z.hub.rx[i] == l.hub.rx[i])
    && z.hub.room.clients.Keys == l.hub.room.clients.Keys
    && forall i :: i in l.hub.room.clients ==>
         && Mark(z.outAt, i) == Mark(l.outAt, i) && Mark(z.inAt, i) == Mark(l.inAt, i)
         && Foe(z, i) == Foe(l, i) && Games(z, i) == Games(l, i)
  }

  /** Against the same console as before, of whom, if it has gone, nothing has changed. */
  ghost predicate SameFoe(l: Ledger, z: Ledger, i: Id) {
    && Foe(z, i) == Foe(l, i)
    && (Foe(l, i).Some? ==>
          var j := Foe(l, i).value;
          j in l.hub.room.clients && !Live(l.hub.room, j) ==>
            && j in z.hub.room.clients && !Live(z.hub.room, j)
            && BytesOf(z.heard, j) == BytesOf(l.heard, j) && Mark(z.inAt, j) == Mark(l.inAt, j))
  }

  lemma GaveCarries(l: Ledger, z: Ledger, i: Id, ms: seq<W.Msg>)
    requires Foe(l, i).Some? && Gave(l, Foe(l, i).value, ms) && SameFoe(l, z, i)
    ensures Gave(z, Foe(l, i).value, ms)
  {
    hide NoRecord, W.EncodeAll;
  }

  lemma FoeStays(l: Ledger, z: Ledger, i: Id, id: Id)
    requires SameBooks(l, z, id) && i in l.hub.room.clients && forall j :: Live(z.hub.room, j) ==> Live(l.hub.room, j)
    ensures SameFoe(l, z, i)
  {
  }

  /** A client stays good when its own side and its partner's stay as they were. */
  lemma GoodCarries(cfg: Config, l: Ledger, z: Ledger, i: Id)
    requires i in l.hub.room.clients && i in z.hub.room.clients && Good(cfg, l, i)
    requires var c, d := l.hub.room.clients[i], z.hub.room.clients[i];
             && d.partner == c.partner && d.role == c.role && (d.name == [] ==> c.name == [])
             && Output(z, i) == Output(l, i) && Mark(z.outAt, i) == Mark(l.outAt, i) && Games(z, i) == Games(l, i)
             && SameFoe(l, z, i)
             && (c.partner.Some? && c.partner.value in l.hub.rx ==>
                   var j := c.partner.value;
                   && j in z.hub.rx && z.hub.rx[j] == l.hub.rx[j]
                   && BytesOf(z.heard, j) == BytesOf(l.heard, j) && Mark(z.inAt, j) == Mark(l.inAt, j))
    ensures Good(cfg, z, i)
  {
    hide IsStart, W.EncodeAll, Inputs, Gave;
    if Games(l, i) > 0 {
      match l.hub.room.clients[i].partner {
        case Some(j) =>
          var start, ms :| InMatch(cfg, l, i, j, start, ms);
          assert InMatch(cfg, z, i, j, start, ms);
        case None =>
          var start, ms, role :| AfterMatch(cfg, l, i, start, ms, role);
          GaveCarries(l, z, i, ms);
          assert AfterMatch(cfg, z, i, start, ms, role);
      }
    }
  }

  lemma OneGoodbyeMore(out: seq<byte>, at: int, start: seq<byte>, ms: seq<W.Msg>)
    requires 0 <= at <= |out| && out[at..] == start + W.EncodeAll(ms)
    ensures at <= |out + W.Encode(W.Left)| && (out + W.Encode(W.Left))[at..] == start + W.EncodeAll(ms + [W.Left])
  {
    hide W.Encode, W.EncodeAll;
    assert (ms + [W.Left])[..|ms|] == ms;
    EncodeLast(ms + [W.Left]);
    assert (out + W.Encode(W.Left))[at..] == out[at..] + W.Encode(W.Left);
  }

  /** The records that came before a partner went are all it gave. */
  lemma GaveAll(cfg: Config, l: Ledger, z: Ledger, p: Id, id: Id, start: seq<byte>, ms: seq<W.Msg>)
    requires p in l.hub.room.clients && InMatch(cfg, l, p, id, start, ms) && NoRecord(l.hub.rx[id])
    requires BytesOf(z.heard, id) == BytesOf(l.heard, id) && Mark(z.inAt, id) == Mark(l.inAt, id)
    requires id in z.hub.room.clients && !Live(z.hub.room, id)
    ensures Gave(z, id, ms)
  {
    hide IsStart, W.Encode, W.EncodeAll, NoRecord, Output, BytesOf;
    var h, from, n := BytesOf(l.heard, id), Mark(l.inAt, id), |W.EncodeAll(ms)|;
    assert h[from + n..] == h[from..][n..] && h[from..from + n] == h[from..][..n];
  }

  /** The goodbye: the survivor's books close. */
  lemma SurvivorIsGood(cfg: Config, l: Ledger, z: Ledger, p: Id, id: Id)
    requires p in l.hub.room.clients && p in z.hub.room.clients && Good(cfg, l, p) && Games(z, p) == Games(l, p)
    requires l.hub.room.clients[p].partner == Some(id) && z.hub.room.clients[p].partner == None
    requires z.hub.room.clients[p].name == l.hub.room.clients[p].name != []
    requires Mark(z.outAt, p) == Mark(l.outAt, p) && Output(z, p) == Output(l, p) + W.Encode(W.Left)
    requires Foe(z, p) == Foe(l, p) && id in l.hub.rx && NoRecord(l.hub.rx[id])
    requires BytesOf(z.heard, id) == BytesOf(l.heard, id) && Mark(z.inAt, id) == Mark(l.inAt, id)
    requires id in z.hub.room.clients && !Live(z.hub.room, id)
    ensures Good(cfg, z, p)
  {
    hide IsStart, W.Encode, W.EncodeAll, NoRecord, Output, BytesOf, Gave;
    var start, ms :| InMatch(cfg, l, p, id, start, ms);
    OneGoodbyeMore(Output(l, p), Mark(l.outAt, p), start, ms);
    GaveAll(cfg, l, z, p, id, start, ms);
    assert AfterMatch(cfg, z, p, start, ms, l.hub.room.clients[p].role);
  }

  lemma DropKeepsBooks(cfg: Config, l: Ledger, z: Ledger, id: Id)
    requires Books(cfg, l) && id in l.hub.room.clients && SameBooks(l, z, id) && Tails(z)
    requires z.hub.room.clients == Drop(l.hub.room, id).clients && z.hub.room.order == Drop(l.hub.room, id).order
    requires Live(l.hub.room, id) || z.hub.rx == l.hub.rx
    requires id in l.hub.rx && NoRecord(l.hub.rx[id])
    ensures Books(cfg, z)
  {
    hide Good, Tails, Drop, Matching, Output, W.Encode, NoRecord;
    var w, r := l.hub.room, z.hub.room;
    DropKeepsMatching(w, id);
    SameMatching(Drop(w, id), r);
    DropOnlyEnds(w, id);
    forall i | Live(r, i) && i in r.clients
      ensures Good(cfg, z, i)
    {
      DropLeaves(w, id, i);
      if Live(w, id) && w.clients[id].partner == Some(i) {
        OutputGrows(l, z, i, W.Encode(W.Left));
        SurvivorIsGood(cfg, l, z, i, id);
      } else {
        StaysGood(cfg, l, z, i, id);
      }
    }
  }

  lemma DropOnlyEnds(w: Room, id: Id)
    requires id in w.clients
    ensures !Live(Drop(w, id), id) && forall j :: Live(Drop(w, id), j) ==> Live(w, j)
  {
    hide Frame, Unname;
  }

  lemma StaysGood(cfg: Config, l: Ledger, z: Ledger, i: Id, id: Id)
    requires i in l.hub.room.clients && Good(cfg, l, i) && SameBooks(l, z, id) && (forall j :: j in l.hub.room.clients ==> j in l.hub.rx)
    requires Matching(l.hub.room) && Live(l.hub.room, i) && z.hub.room.clients[i] == l.hub.room.clients[i]
    requires l.hub.room.clients[i].partner != Some(id) || z.hub.rx == l.hub.rx
    requires forall j :: Live(z.hub.room, j) ==> Live(l.hub.room, j)
    ensures Good(cfg, z, i)
  {
    FoeStays(l, z, i, id);
    SameOutput(l, z, i);
    assert Linked(l.hub.room, i);
    hide Good, Output, Linked;
    GoodCarries(cfg, l, z, i);
  }

  /** What a drop leaves of a console that is still there. */
  lemma DropLeaves(w: Room, id: Id, i: Id)
    requires Matching(w) && id in w.clients && Live(Drop(w, id), i)
    ensures var r := Drop(w, id);
            && Live(w, i) && i in w.clients && i in r.clients
            && if Live(w, id) && w.clients[id].partner == Some(i) then
                 && w.clients[i].partner == Some(id) && r.clients[i].partner == None
                 && r.clients[i].name == w.clients[i].name != [] && r.clients[i].tx == w.clients[i].tx + W.Encode(W.Left)
               else
                 && r.clients[i] == w.clients[i]
                 && (Live(w, id) ==> w.clients[i].partner != Some(id))
  {
    hide Frame, Unname;
    if Live(w, id) {
      assert Linked(w, id);
      if w.clients[id].partner == Some(i) {
        GoodbyeIsOneFrame(w, id, i);
      }
    }
    assert Linked(w, i);
  }

  lemma OutputGrows(l: Ledger, z: Ledger, i: Id, data: seq<byte>)
    requires i in l.hub.room.clients && i in z.hub.room.clients && z.taken == l.taken
    requires z.hub.room.clients[i].tx == l.hub.room.clients[i].tx + data
    ensures Output(z, i) == Output(l, i) + data
  {
  }

  /** A room nobody in which hears or loses anything. */
  ghost predicate Silent(w: Room, r: Room) {
    LinksAlike(w, r) && forall i :: i in w.clients ==> r.clients[i].tx == w.clients[i].tx
  }

  lemma SilenceKeepsBooks(cfg: Config, l: Ledger, z: Ledger, id: Id)
    requires Books(cfg, l) && id in l.hub.room.clients && SameBooks(l, z, id) && Tails(z)
    requires Silent(l.hub.room, z.hub.room)
    requires (Live(l.hub.room, id) && l.hub.room.clients[id].partner == None) || z.hub.rx == l.hub.rx
    ensures Books(cfg, z)
  {
    hide Good, Tails;
    var w, r := l.hub.room, z.hub.room;
    LinksKeepMatching(w, r);
    forall i | Live(r, i) && i in r.clients
      ensures Good(cfg, z, i)
    {
      assert Live(w, i) && Linked(w, i);
      FoeStays(l, z, i, id);
      GoodCarries(cfg, l, z, i);
    }
  }

  /** A record of an unpaired console goes nowhere. */
  lemma RecordAlone(cfg: Config, w: Room, id: Id, m: W.Msg)
    requires id in w.clients && w.clients[id].partner == None && m.Input?
    ensures Silent(w, Handle(cfg, w, id, PacketOf(m)))
  {
    hide LogCrc, LinksAlike, W.Encode;
    KindOf(m);
    LogKeepsLinks(w, id, PacketOf(m).payload);
  }

  lemma NothingMarked(l: Ledger, r: Hub)
    requires r.room.clients.Keys == l.hub.room.clients.Keys
    requires forall i :: i in l.hub.room.clients ==> !NewlyPaired(l.hub.room, r.room, i)
    ensures var z := Marked(l, r);
            && z.games.Keys == r.room.clients.Keys
            && forall i :: i in l.hub.room.clients ==>
                 && Mark(z.outAt, i) == Mark(l.outAt, i) && Mark(z.inAt, i) == Mark(l.inAt, i)
                 && Foe(z, i) == Foe(l, i) && Games(z, i) == Games(l, i)
  {
  }

  lemma FrameTaken(l: Ledger, id: Id)
    requires Tails(l) && id in l.hub.rx && Whole(l.hub.rx[id])
    ensures Tails(l.(hub := l.hub.(rx := l.hub.rx[id := Tail(l.hub.rx[id])])))
  {
    hide EndsWith, Tail;
    SuffixShrinks(BytesOf(l.heard, id), l.hub.rx[id]);
  }

  lemma SuffixShrinks(h: seq<byte>, r: seq<byte>)
    requires EndsWith(h, r) && Whole(r)
    ensures EndsWith(h, Tail(r))
  {
  }

  /** The records so far and the one taken off the front of what waits. */
  lemma OneMoreRecord(cfg: Config, l: Ledger, z: Ledger, i: Id, id: Id, m: W.Msg)
    requires i in l.hub.room.clients && i in z.hub.room.clients && Good(cfg, l, i) && Games(z, i) == Games(l, i)
    requires l.hub.room.clients[i].partner == z.hub.room.clients[i].partner == Some(id) && m.Input?
    requires z.hub.room.clients[i].role == l.hub.room.clients[i].role && z.hub.room.clients[i].name == l.hub.room.clients[i].name
    requires Mark(z.outAt, i) == Mark(l.outAt, i) && Output(z, i) == Output(l, i) + W.Encode(m)
    requires id in l.hub.rx && id in z.hub.rx && l.hub.rx[id] == W.Encode(m) + z.hub.rx[id]
    requires BytesOf(z.heard, id) == BytesOf(l.heard, id) && Mark(z.inAt, id) == Mark(l.inAt, id) && Foe(z, i) == Foe(l, i)
    ensures Good(cfg, z, i)
  {
    hide IsStart, W.Encode, W.EncodeAll;
    var start, ms :| InMatch(cfg, l, i, id, start, ms);
    var more, at := ms + [m], Mark(l.outAt, i);
    assert more[..|ms|] == ms;
    EncodeLast(more);
    assert Output(z, i)[at..] == start + (W.EncodeAll(ms) + W.Encode(m));
    assert W.EncodeAll(ms) + (W.Encode(m) + z.hub.rx[id]) == (W.EncodeAll(ms) + W.Encode(m)) + z.hub.rx[id];
    assert InMatch(cfg, z, i, id, start, more);
  }

  lemma RecordKeepsBooks(cfg: Config, l: Ledger, id: Id, m: W.Msg)
    requires Books(cfg, l) && id in l.hub.room.clients && id in l.hub.rx && Whole(l.hub.rx[id])
    requires Live(l.hub.room, id) && m.Input? && Head(l.hub.rx[id]) == PacketOf(m)
    ensures Books(cfg, OneFrameIn(cfg, l, id))
  {
    var w, rx := l.hub.room, l.hub.rx[id];
    OneFrame(rx);
    ParseOne(m);
    BooksParts(cfg, l);
    FrameTaken(l, id);
    hide Good, Tails, Tail, Head, Whole, Handle, W.Encode, Parse, Books, Marked, Matching, LinksAlike, PacketOf, SameBooks;
    var z := OneFrameIn(cfg, l, id);
    OneFrameHub(cfg, l, id);
    if w.clients[id].partner == None {
      RecordAlone(cfg, w, id, m);
    } else {
      LinkedTo(w, id);
      ForwardOne(cfg, w, id, w.clients[id].partner.value, m);
    }
    LinksPairNobody(w, z.hub.room);
    MarkedIsSame(l, z.hub, id, Tail(rx));
    if w.clients[id].partner == None {
      SilenceKeepsBooks(cfg, l, z, id);
    } else {
      ForwardKeepsBooks(cfg, l, z, id, w.clients[id].partner.value, m);
    }
  }

  lemma LinkedTo(w: Room, id: Id)
    requires Matching(w) && Live(w, id) && id in w.clients && w.clients[id].partner.Some?
    ensures var j := w.clients[id].partner.value; j in w.clients && j != id && Live(w, j) && w.clients[j].partner == Some(id)
  {
    assert Linked(w, id);
  }

  lemma LinksPairNobody(w: Room, r: Room)
    requires LinksAlike(w, r)
    ensures r.clients.Keys == w.clients.Keys && forall i :: i in w.clients ==> !NewlyPaired(w, r, i)
  {
  }

  lemma MarkedIsSame(l: Ledger, r: Hub, id: Id, rest: seq<byte>)
    requires r.room.clients.Keys == l.hub.room.clients.Keys && id in l.hub.rx && r.rx == l.hub.rx[id := rest]
    requires forall i :: i in l.hub.room.clients ==> !NewlyPaired(l.hub.room, r.room, i)
    requires Tails(l.(hub := l.hub.(rx := r.rx)))
    ensures var z := Marked(l, r); z.hub == r && SameBooks(l, z, id) && Tails(z)
  {
    hide Tails;
    NothingMarked(l, r);
    TailsOnly(l.(hub := l.hub.(rx := r.rx)), Marked(l, r));
  }

  lemma ForwardKeepsBooks(cfg: Config, l: Ledger, z: Ledger, id: Id, j: Id, m: W.Msg)
    requires Books(cfg, l) && id in l.hub.room.clients && id in l.hub.rx && Live(l.hub.room, id) && m.Input?
    requires SameBooks(l, z, id) && Tails(z) && LinksAlike(l.hub.room, z.hub.room)
    requires l.hub.room.clients[id].partner == Some(j) && l.hub.rx[id] == W.Encode(m) + z.hub.rx[id]
    requires j in l.hub.room.clients && z.hub.room.clients[j].tx == l.hub.room.clients[j].tx + W.Encode(m)
    requires forall i :: i in l.hub.room.clients && i != j ==> z.hub.room.clients[i].tx == l.hub.room.clients[i].tx
    ensures Books(cfg, z)
  {
    hide Good, Tails, W.Encode;
    var w, r := l.hub.room, z.hub.room;
    LinksKeepMatching(w, r);
    forall i | Live(r, i) && i in r.clients
      ensures Good(cfg, z, i)
    {
      assert Live(w, i) && Linked(w, i) && Linked(w, id);
      if i == j {
        OutputGrows(l, z, j, W.Encode(m));
        OneMoreRecord(cfg, l, z, j, id, m);
      } else {
        FoeStays(l, z, i, id);
        GoodCarries(cfg, l, z, i);
      }
    }
  }

  lemma TailsOnly(l: Ledger, z: Ledger)
    requires z.heard == l.heard && z.hub.rx == l.hub.rx
    ensures Tails(l) ==> Tails(z)
  {
  }

  lemma BooksParts(cfg: Config, l: Ledger)
    requires Books(cfg, l)
    ensures Matching(l.hub.room) && Tails(l)
    ensures l.taken.Keys <= l.hub.room.clients.Keys && l.games.Keys <= l.hub.room.clients.Keys
    ensures l.heard.Keys <= l.hub.rx.Keys && forall i :: i in l.hub.room.clients ==> i in l.hub.rx
    ensures forall i :: Live(l.hub.room, i) && i in l.hub.room.clients ==> Good(cfg, l, i)
  {
  }

  // ---- HELLO and the match it makes ------------------------------------------------------

  lemma StartIsStart(cfg: Config, role: byte, seed: Word, name: Name)
    requires |name| <= 8 && role <= 1
    ensures IsStart(cfg, StartFrame(cfg, role, seed, name), role as int)
  {
    StartBytes(cfg, role, seed, name);
  }

  /** A match beginning: nothing after START yet, and of the partner's bytes only what waits. */
  lemma MatchBegins(cfg: Config, l: Ledger, z: Ledger, i: Id, j: Id, start: seq<byte>)
    requires i in l.hub.room.clients && i in z.hub.room.clients && z.hub.room.clients[i].partner == Some(j)
    requires IsStart(cfg, start, z.hub.room.clients[i].role) && z.hub.room.clients[i].name != []
    requires Output(z, i) == Output(l, i) + start && Mark(z.outAt, i) == |Output(l, i)|
    requires Tails(z) && j in z.hub.rx && Mark(z.inAt, j) == |BytesOf(z.heard, j)| - |z.hub.rx[j]|
    requires Games(z, i) == Games(l, i) + 1 && (Games(l, i) == 0 ==> Output(l, i) == []) && Foe(z, i) == Some(j)
    ensures Good(cfg, z, i)
  {
    hide IsStart, W.EncodeAll, Inputs, InMatch;
    assert Output(z, i)[|Output(l, i)|..] == start;
    Begun(cfg, z, i, j, start);
    assert InMatch(cfg, z, i, j, start, []);
  }

  lemma Begun(cfg: Config, l: Ledger, i: Id, j: Id, start: seq<byte>)
    requires i in l.hub.room.clients && j in l.hub.rx && IsStart(cfg, start, l.hub.room.clients[i].role)
    requires 0 <= Mark(l.outAt, i) <= |Output(l, i)| && Output(l, i)[Mark(l.outAt, i)..] == start
    requires 0 <= Mark(l.inAt, j) <= |BytesOf(l.heard, j)| && BytesOf(l.heard, j)[Mark(l.inAt, j)..] == l.hub.rx[j]
    requires Foe(l, i) == Some(j)
    ensures InMatch(cfg, l, i, j, start, [])
  {
    hide IsStart, Output;
    NoRecords();
    assert start + [] == start && [] + l.hub.rx[j] == l.hub.rx[j];
  }

  /** What a pairing does to the two and to nobody else. */
  lemma PairedRoom(cfg: Config, w: Room, id: Id, o: Id) returns (host: seq<byte>, guest: seq<byte>)
    requires id in w.clients && w.clients[id].name != [] && Oldest(w, id, |w.order|) == Some(o)
    ensures o in w.clients && o != id && Live(w, o) && w.clients[o].name != [] && w.clients[o].partner == None
    ensures IsStart(cfg, host, 0) && IsStart(cfg, guest, 1)
    ensures var r := TryPair(cfg, w, id);
            && r.order == w.order && r.clients.Keys == w.clients.Keys
            && r.clients[o] == w.clients[o].(partner := Some(id), role := 0, crc := [], tx := w.clients[o].tx + host)
            && r.clients[id] == w.clients[id].(partner := Some(o), role := 1, crc := [], tx := w.clients[id].tx + guest)
            && forall i :: i in w.clients && i != id && i != o ==> r.clients[i] == w.clients[i]
  {
    assert Waits(w, id, o);
    hide Oldest, Short, StartFrame;
    var seed := cfg.seeds(w.matched);
    host, guest := StartFrame(cfg, 0, seed, Short(w.clients[id].name)), StartFrame(cfg, 1, seed, Short(w.clients[o].name));
    StartIsStart(cfg, 0, seed, Short(w.clients[id].name));
    StartIsStart(cfg, 1, seed, Short(w.clients[o].name));
  }

  lemma DropPairsNobody(w: Room, id: Id)
    requires id in w.clients
    ensures Drop(w, id).clients.Keys == w.clients.Keys && forall i :: i in w.clients ==> !NewlyPaired(w, Drop(w, id), i)
  {
  }

  /** A console that goes, by BYE or by a HELLO the relay refuses. */
  lemma GoingKeepsBooks(cfg: Config, l: Ledger, id: Id)
    requires Books(cfg, l) && id in l.hub.room.clients && id in l.hub.rx && Whole(l.hub.rx[id]) && Live(l.hub.room, id)
    requires Head(l.hub.rx[id]).kind != W.T_INPUT
    requires var r := Handle(cfg, l.hub.room, id, Head(l.hub.rx[id]));
             r.clients == Drop(l.hub.room, id).clients && r.order == Drop(l.hub.room, id).order
    ensures Books(cfg, OneFrameIn(cfg, l, id))
  {
    BooksParts(cfg, l);
    FrameTaken(l, id);
    OneFrameHub(cfg, l, id);
    DropPairsNobody(l.hub.room, id);
    OtherFrame(l.hub.rx[id]);
    hide Books, Handle, Drop, Marked, SameBooks, Tails, Whole, Head, Tail, NoRecord;
    var z := OneFrameIn(cfg, l, id);
    MarkedIsSame(l, z.hub, id, Tail(l.hub.rx[id]));
    DropKeepsBooks(cfg, l, z, id);
  }

  lemma OtherFrame(rx: seq<byte>)
    requires Whole(rx) && Head(rx).kind != W.T_INPUT
    ensures NoRecord(rx)
  {
    forall m: W.Msg | m.Input?
      ensures !(W.Encode(m) <= rx)
    {
      RecordBytes(m);
    }
  }

  lemma NotAFrame(rx: seq<byte>)
    requires !Whole(rx)
    ensures NoRecord(rx)
  {
    forall m: W.Msg | m.Input?
      ensures !(W.Encode(m) <= rx)
    {
      RecordBytes(m);
    }
  }

  lemma RecordBytes(m: W.Msg)
    requires m.Input?
    ensures |W.Encode(m)| == W.FRAME_LEN && W.Encode(m)[0] == 7 && W.Encode(m)[1] == W.T_INPUT
  {
  }

  /** A name, and nobody to play. */
  lemma NamedKeepsBooks(cfg: Config, l: Ledger, z: Ledger, id: Id, name: Name, drawn: nat)
    requires Books(cfg, l) && SameBooks(l, z, id) && Tails(z) && id in l.hub.room.clients
    requires Live(l.hub.room, id) && l.hub.room.clients[id].name == [] && name != []
    requires z.hub.room == Rename(l.hub.room, id, name, drawn)
    ensures Books(cfg, z)
  {
    hide Good, Tails;
    var w, r := l.hub.room, z.hub.room;
    RenameKeepsMatching(w, id, name, drawn);
    forall i | Live(r, i) && i in r.clients
      ensures Good(cfg, z, i)
    {
      assert Live(w, i) && Linked(w, i);
      FoeStays(l, z, i, id);
      GoodCarries(cfg, l, z, i);
    }
  }

  /** Both sides of a match marked, everyone else as before. */
  ghost predicate PairMarked(l: Ledger, z: Ledger, id: Id, o: Id) {
    && z.taken == l.taken && z.heard == l.heard && z.games.Keys <= z.hub.room.clients.Keys
    && z.hub.rx.Keys == l.hub.rx.Keys && (forall i :: i in l.hub.rx && i != id ==> z.hub.rx[i] == l.hub.rx[i])
    && z.hub.room.clients.Keys == l.hub.room.clients.Keys
    && forall i :: i in l.hub.room.clients ==> if i == id || i == o then SideMarked(l, z, i) else SideKept(l, z, i)
  }

  ghost predicate SideMarked(l: Ledger, z: Ledger, i: Id)
    requires i in l.hub.room.clients
  {
    && i in z.hub.room.clients && Foe(z, i) == z.hub.room.clients[i].partner
    && Mark(z.outAt, i) == |Output(l, i)| && Games(z, i) == Games(l, i) + 1
    && Mark(z.inAt, i) == |BytesOf(z.heard, i)| - |BytesOf(z.hub.rx, i)|
  }

  ghost predicate SideKept(l: Ledger, z: Ledger, i: Id) {
    && Mark(z.outAt, i) == Mark(l.outAt, i) && Mark(z.inAt, i) == Mark(l.inAt, i)
    && Foe(z, i) == Foe(l, i) && Games(z, i) == Games(l, i)
  }

  lemma MarkedPair(l: Ledger, r: Hub, id: Id, o: Id, rest: seq<byte>)
    requires r.room.clients.Keys == l.hub.room.clients.Keys && id in l.hub.rx && r.rx == l.hub.rx[id := rest]
    requires forall i :: i in l.hub.room.clients ==> (NewlyPaired(l.hub.room, r.room, i) <==> i == id || i == o)
    requires Tails(l.(hub := l.hub.(rx := r.rx)))
    ensures var z := Marked(l, r); z.hub == r && PairMarked(l, z, id, o) && Tails(z)
  {
    hide Tails, Output, Marked, NewlyPaired;
    var z := Marked(l, r);
    MarkedKeeps(l, r);
    TailsOnly(l.(hub := l.hub.(rx := r.rx)), z);
    forall i | i in l.hub.room.clients
      ensures if i == id || i == o then SideMarked(l, z, i) else SideKept(l, z, i)
    {
      MarkedAt(l, r, i);
    }
  }

  lemma MarkedKeeps(l: Ledger, r: Hub)
    ensures var z := Marked(l, r);
            z.hub == r && z.taken == l.taken && z.heard == l.heard && z.games.Keys == r.room.clients.Keys
  {
  }

  lemma MarkedAt(l: Ledger, r: Hub, i: Id)
    requires i in l.hub.room.clients && i in r.room.clients
    ensures var z, made := Marked(l, r), NewlyPaired(l.hub.room, r.room, i);
            && Mark(z.outAt, i) == (if made then |Output(l, i)| else Mark(l.outAt, i))
            && Mark(z.inAt, i) == (if made then |BytesOf(l.heard, i)| - |BytesOf(r.rx, i)| else Mark(l.inAt, i))
            && Foe(z, i) == (if made then r.room.clients[i].partner else Foe(l, i))
            && Games(z, i) == if made then Games(l, i) + 1 else Games(l, i)
  {
  }

  /** What naming `id` and pairing it with `o` does to the two, and to nobody else. */
  ghost predicate PairMade(cfg: Config, w: Room, r: Room, id: Id, o: Id, host: seq<byte>, guest: seq<byte>) {
    && r.clients.Keys == w.clients.Keys && r.order == w.order && id in w.clients && o in w.clients && id != o
    && w.clients[id].partner == None && w.clients[o].partner == None
    && r.clients[o].partner == Some(id) && r.clients[id].partner == Some(o)
    && r.clients[o].name != [] && r.clients[id].name != []
    && IsStart(cfg, host, r.clients[o].role) && IsStart(cfg, guest, r.clients[id].role)
    && r.clients[o].tx == w.clients[o].tx + host && r.clients[id].tx == w.clients[id].tx + guest
    && forall i :: i in w.clients && i != id && i != o ==> r.clients[i] == w.clients[i]
  }

  lemma PairIsMade(cfg: Config, w: Room, id: Id, name: Name, drawn: nat, o: Id) returns (host: seq<byte>, guest: seq<byte>)
    requires id in w.clients && name != [] && w.clients[id].partner == None
    requires var y := Rename(w, id, name, drawn); Oldest(y, id, |y.order|) == Some(o)
    ensures PairMade(cfg, w, TryPair(cfg, Rename(w, id, name, drawn), id), id, o, host, guest)
  {
    hide IsStart, TryPair, Oldest;
    host, guest := PairedRoom(cfg, Rename(w, id, name, drawn), id, o);
  }

  lemma PairKeepsBooks(cfg: Config, l: Ledger, z: Ledger, id: Id, o: Id, host: seq<byte>, guest: seq<byte>)
    requires Books(cfg, l) && Matching(z.hub.room) && PairMade(cfg, l.hub.room, z.hub.room, id, o, host, guest)
    requires Live(l.hub.room, id) && Live(l.hub.room, o) && PairMarked(l, z, id, o) && Tails(z)
    ensures Books(cfg, z)
  {
    hide Good, Tails, IsStart, Output, Matching, Mark, Games, SideMarked, SideKept, Books;
    var w, r := l.hub.room, z.hub.room;
    BooksParts(cfg, l);
    assert SideMarked(l, z, id) && SideMarked(l, z, o);
    forall i | Live(r, i) && i in r.clients
      ensures Good(cfg, z, i)
    {
      assert Good(cfg, l, i);
      if i == id {
        SideBegins(cfg, l, z, id, o, guest);
      } else if i == o {
        SideBegins(cfg, l, z, o, id, host);
      } else {
        NotTheirPartner(w, i, id, o);
        SideStays(cfg, l, z, i, id, o);
      }
    }
    BooksBack(cfg, z);
  }

  lemma BooksBack(cfg: Config, l: Ledger)
    requires Matching(l.hub.room) && Tails(l)
    requires l.taken.Keys <= l.hub.room.clients.Keys && l.games.Keys <= l.hub.room.clients.Keys
    requires l.heard.Keys <= l.hub.rx.Keys && forall i :: i in l.hub.room.clients ==> i in l.hub.rx
    requires forall i :: Live(l.hub.room, i) && i in l.hub.room.clients ==> Good(cfg, l, i)
    ensures Books(cfg, l)
  {
  }

  lemma SideStays(cfg: Config, l: Ledger, z: Ledger, i: Id, id: Id, o: Id)
    requires i in l.hub.room.clients && Good(cfg, l, i) && PairMarked(l, z, id, o) && i != id && i != o
    requires Matching(l.hub.room) && Live(l.hub.room, i) && z.hub.room.clients[i] == l.hub.room.clients[i]
    requires l.hub.room.clients[i].partner != Some(id) && l.hub.room.clients[i].partner != Some(o)
    requires Live(l.hub.room, id) && Live(l.hub.room, o) && z.hub.room.order == l.hub.room.order
    ensures Good(cfg, z, i)
  {
    assert SameFoe(l, z, i);
    hide Good, SideMarked, SameFoe;
    SameOutput(l, z, i);
    assert Linked(l.hub.room, i);
    GoodCarries(cfg, l, z, i);
  }

  lemma SideBegins(cfg: Config, l: Ledger, z: Ledger, i: Id, j: Id, start: seq<byte>)
    requires i in l.hub.room.clients && j in l.hub.room.clients && i in z.hub.room.clients && Good(cfg, l, i)
    requires z.taken == l.taken && z.heard == l.heard && SideMarked(l, z, i) && SideMarked(l, z, j)
    requires Tails(z) && j in z.hub.rx && z.hub.room.clients[i].partner == Some(j) && z.hub.room.clients[i].name != []
    requires IsStart(cfg, start, z.hub.room.clients[i].role)
    requires z.hub.room.clients[i].tx == l.hub.room.clients[i].tx + start
    ensures Good(cfg, z, i)
  {
    hide Good, Tails, IsStart, Output;
    NoGamesNoOutput(cfg, l, i);
    OutputGrows(l, z, i, start);
    MatchBegins(cfg, l, z, i, j, start);
  }

  lemma EqualOutput(l: Ledger, z: Ledger, i: Id)
    requires i in l.hub.room.clients && i in z.hub.room.clients && BytesOf(z.taken, i) == BytesOf(l.taken, i)
    requires z.hub.room.clients[i].tx == l.hub.room.clients[i].tx
    ensures Output(z, i) == Output(l, i)
  {
  }

  lemma SameOutput(l: Ledger, z: Ledger, i: Id)
    requires i in l.hub.room.clients && i in z.hub.room.clients && z.taken == l.taken
    requires z.hub.room.clients[i].tx == l.hub.room.clients[i].tx
    ensures Output(z, i) == Output(l, i)
  {
  }

  lemma NoGamesNoOutput(cfg: Config, l: Ledger, i: Id)
    requires i in l.hub.room.clients && Good(cfg, l, i)
    ensures Games(l, i) == 0 ==> Output(l, i) == []
  {
  }

  lemma NotTheirPartner(w: Room, i: Id, id: Id, o: Id)
    requires Matching(w) && Live(w, i) && i in w.clients && id in w.clients && o in w.clients && i != id && i != o
    requires w.clients[id].partner == None && w.clients[o].partner == None
    ensures w.clients[i].partner != Some(id) && w.clients[i].partner != Some(o)
  {
    assert Linked(w, i);
  }

  /** A HELLO the relay takes: named, and paired with whoever has waited longest. */
  lemma TakenKeepsBooks(cfg: Config, l: Ledger, id: Id, name: Name, drawn: nat)
    requires Books(cfg, l) && id in l.hub.room.clients && id in l.hub.rx && Whole(l.hub.rx[id])
    requires Live(l.hub.room, id) && l.hub.room.clients[id].name == [] && name != []
    requires Handle(cfg, l.hub.room, id, Head(l.hub.rx[id])) == TryPair(cfg, Rename(l.hub.room, id, name, drawn), id)
    ensures Books(cfg, OneFrameIn(cfg, l, id))
  {
    hide Books, Marked, Whole, Head, Tail, TryPair, Handle, Oldest, OneFrameIn;
    var y := Rename(l.hub.room, id, name, drawn);
    if Oldest(y, id, |y.order|) == None {
      AloneKeepsBooks(cfg, l, id, name, drawn);
    } else {
      PairedKeepsBooks(cfg, l, id, name, drawn, Oldest(y, id, |y.order|).value);
    }
  }

  lemma AloneKeepsBooks(cfg: Config, l: Ledger, id: Id, name: Name, drawn: nat)
    requires Books(cfg, l) && id in l.hub.room.clients && id in l.hub.rx && Whole(l.hub.rx[id])
    requires Live(l.hub.room, id) && l.hub.room.clients[id].name == [] && name != []
    requires var y := Rename(l.hub.room, id, name, drawn);
             Oldest(y, id, |y.order|) == None && Handle(cfg, l.hub.room, id, Head(l.hub.rx[id])) == TryPair(cfg, y, id)
    ensures Books(cfg, OneFrameIn(cfg, l, id))
  {
    var w := l.hub.room;
    var y := Rename(w, id, name, drawn);
    BooksParts(cfg, l);
    FrameTaken(l, id);
    OneFrameHub(cfg, l, id);
    PairsOrNot(cfg, y, id);
    RenamePairsNobody(w, id, name, drawn);
    hide Books, Marked, SameBooks, Tails, Whole, Head, Tail, TryPair, Matching, Handle, Oldest, Good, Rename;
    var z := OneFrameIn(cfg, l, id);
    MarkedIsSame(l, z.hub, id, Tail(l.hub.rx[id]));
    NamedKeepsBooks(cfg, l, z, id, name, drawn);
  }

  lemma RenamePairsNobody(w: Room, id: Id, name: Name, drawn: nat)
    requires id in w.clients
    ensures forall i :: i in w.clients ==> !NewlyPaired(w, Rename(w, id, name, drawn), i)
  {
  }

  lemma PairedKeepsBooks(cfg: Config, l: Ledger, id: Id, name: Name, drawn: nat, o: Id)
    requires Books(cfg, l) && id in l.hub.room.clients && id in l.hub.rx && Whole(l.hub.rx[id])
    requires Live(l.hub.room, id) && l.hub.room.clients[id].name == [] && name != []
    requires var y := Rename(l.hub.room, id, name, drawn);
             Oldest(y, id, |y.order|) == Some(o) && Handle(cfg, l.hub.room, id, Head(l.hub.rx[id])) == TryPair(cfg, y, id)
    ensures Books(cfg, OneFrameIn(cfg, l, id))
  {
    var w := l.hub.room;
    var y := Rename(w, id, name, drawn);
    BooksParts(cfg, l);
    FrameTaken(l, id);
    OneFrameHub(cfg, l, id);
    RenameKeepsMatching(w, id, name, drawn);
    RenamedCells(w, id, name, drawn);
    OldestIsLive(y, id, o);
    hide Books, Marked, Tails, Whole, Head, Tail, TryPair, PairMarked, Matching, Handle, Oldest, PairMade, NewlyPaired, Good, Rename;
    var host, guest := PairIsMade(cfg, w, id, name, drawn, o);
    PairKeepsMatching(cfg, y, id);
    var z := OneFrameIn(cfg, l, id);
    NewPair(cfg, w, z.hub.room, id, o, host, guest);
    MarkedPair(l, z.hub, id, o, Tail(l.hub.rx[id]));
    PairKeepsBooks(cfg, l, z, id, o, host, guest);
  }

  lemma RenamedCells(w: Room, id: Id, name: Name, drawn: nat)
    requires id in w.clients
    ensures var y := Rename(w, id, name, drawn);
            y.order == w.order && y.clients[id].partner == w.clients[id].partner && y.clients[id].name == name
  {
  }

  lemma NewPair(cfg: Config, w: Room, r: Room, id: Id, o: Id, host: seq<byte>, guest: seq<byte>)
    requires PairMade(cfg, w, r, id, o, host, guest)
    ensures r.clients.Keys == w.clients.Keys
    ensures forall i :: i in w.clients ==> (NewlyPaired(w, r, i) <==> i == id || i == o)
  {
    hide IsStart;
  }

  lemma OldestIsLive(w: Room, id: Id, o: Id)
    requires Oldest(w, id, |w.order|) == Some(o)
    ensures Live(w, o)
  {
  }

  lemma HelloKeepsBooks(cfg: Config, l: Ledger, id: Id)
    requires Books(cfg, l) && id in l.hub.room.clients && id in l.hub.rx && Whole(l.hub.rx[id])
    requires Head(l.hub.rx[id]).kind == T_HELLO && Polite(l.hub.room, id, Head(l.hub.rx[id]))
    ensures Books(cfg, OneFrameIn(cfg, l, id))
  {
    HandleHello(cfg, l.hub.room, id, Head(l.hub.rx[id]));
    var w, payload := l.hub.room, Head(l.hub.rx[id]).payload;
    hide Books, Whole, Head, Asked, Resolve, TryPair, Rename, Drop, Handle, OneFrameIn;
    var asked := Asked(payload);
    if asked == None {
      GoingKeepsBooks(cfg, l, id);
    } else {
      var free := Resolve(cfg, w.names, asked.value, w.drawn, MAX_TRIES);
      if free == None {
        if cfg.port {
          GoingKeepsBooks(cfg, l, id);
        } else {
          StuckKeepsBooks(cfg, l, id);
        }
      } else {
        TakenKeepsBooks(cfg, l, id, free.value.0, free.value.1);
      }
    }
  }

  lemma HandleHello(cfg: Config, w: Room, id: Id, p: Packet)
    requires id in w.clients && |p.payload| < 255 && p.kind == T_HELLO
    ensures Handle(cfg, w, id, p) == OnHello(cfg, w, id, p.payload)
  {
    hide OnHello;
  }

  lemma StuckKeepsBooks(cfg: Config, l: Ledger, id: Id)
    requires Books(cfg, l) && id in l.hub.room.clients && id in l.hub.rx && Whole(l.hub.rx[id])
    requires Live(l.hub.room, id) && l.hub.room.clients[id].name == []
    requires Handle(cfg, l.hub.room, id, Head(l.hub.rx[id])) == l.hub.room.(stuck := true)
    ensures Books(cfg, OneFrameIn(cfg, l, id))
  {
    BooksParts(cfg, l);
    FrameTaken(l, id);
    OneFrameHub(cfg, l, id);
    Unpaired(l.hub.room, id);
    StuckIsSilent(l.hub.room);
    hide Books, Marked, SameBooks, Tails, Whole, Head, Tail, Matching, Handle, Silent;
    var z := OneFrameIn(cfg, l, id);
    MarkedIsSame(l, z.hub, id, Tail(l.hub.rx[id]));
    SilenceKeepsBooks(cfg, l, z, id);
  }

  lemma Unpaired(w: Room, id: Id)
    requires Matching(w) && Live(w, id) && id in w.clients && w.clients[id].name == []
    ensures w.clients[id].partner == None
  {
    assert Linked(w, id);
  }

  lemma StuckIsSilent(w: Room)
    ensures Silent(w, w.(stuck := true)) && forall i :: i in w.clients ==> !NewlyPaired(w, w.(stuck := true), i)
  {
  }

  // ---- events ---------------------------------------------------------------------------

  lemma OneFrameKeepsBooks(cfg: Config, l: Ledger, id: Id)
    requires Books(cfg, l) && id in l.hub.room.clients && id in l.hub.rx && Whole(l.hub.rx[id])
    requires Rom(l.hub.room, id, Head(l.hub.rx[id]))
    ensures Books(cfg, OneFrameIn(cfg, l, id))
  {
    hide Books, Whole, Head, OneFrameIn, OnHello, TryPair, LogCrc, Forward, Drop;
    var p := Head(l.hub.rx[id]);
    if p.kind == T_HELLO {
      HelloKeepsBooks(cfg, l, id);
    } else if p.kind == T_BYE {
      GoingKeepsBooks(cfg, l, id);
    } else {
      var m: W.Msg :| m.Input? && p == PacketOf(m);
      RecordKeepsBooks(cfg, l, id, m);
    }
  }

  lemma {:induction false} FramesKeepBooks(cfg: Config, l: Ledger, id: Id)
    requires Books(cfg, l) && id in l.hub.room.clients && id in l.hub.rx && RomFrames(cfg, l, id)
    ensures Books(cfg, FramesIn(cfg, l, id))
    decreases |l.hub.rx[id]|
  {
    hide Books, Whole, Rom, OneFrameIn, Head;
    if Whole(l.hub.rx[id]) {
      OneFrameKeepsBooks(cfg, l, id);
      FramesKeepBooks(cfg, OneFrameIn(cfg, l, id), id);
    }
  }

  lemma FillKeepsFoe(l: Ledger, i: Id, id: Id, data: seq<byte>)
    requires id in l.hub.rx && Live(l.hub.room, id)
    ensures SameFoe(l, Fill(l, id, data), i)
  {
  }

  lemma FillKeepsOutput(l: Ledger, i: Id, id: Id, data: seq<byte>)
    requires i in l.hub.room.clients && id in l.hub.rx
    ensures var z := Fill(l, id, data);
            && z.hub.room == l.hub.room && Output(z, i) == Output(l, i) && z.outAt == l.outAt && z.inAt == l.inAt
            && z.foes == l.foes && z.games == l.games
            && (forall j :: j != id ==> BytesOf(z.heard, j) == BytesOf(l.heard, j))
            && (forall j :: j in l.hub.rx && j != id ==> z.hub.rx[j] == l.hub.rx[j]) && z.hub.rx.Keys == l.hub.rx.Keys
            && BytesOf(z.heard, id) == BytesOf(l.heard, id) + data && z.hub.rx[id] == l.hub.rx[id] + data
  {
  }

  lemma MoreOfMatch(cfg: Config, l: Ledger, z: Ledger, i: Id, id: Id, data: seq<byte>, start: seq<byte>, ms: seq<W.Msg>)
    requires i in l.hub.room.clients && id in l.hub.rx && z == Fill(l, id, data) && InMatch(cfg, l, i, id, start, ms)
    ensures InMatch(cfg, z, i, id, start, ms)
  {
    FillKeepsOutput(l, i, id, data);
    hide IsStart, W.EncodeAll, Inputs, Fill, Output, BytesOf;
    var h, from := BytesOf(l.heard, id), Mark(l.inAt, id);
    assert (h + data)[from..] == h[from..] + data == W.EncodeAll(ms) + (l.hub.rx[id] + data);
  }

  lemma MoreHeard(cfg: Config, l: Ledger, z: Ledger, i: Id, id: Id, data: seq<byte>)
    requires i in l.hub.room.clients && Good(cfg, l, i) && id in l.hub.rx && z == Fill(l, id, data) && Live(l.hub.room, id)
    ensures Good(cfg, z, i)
  {
    FillKeepsOutput(l, i, id, data);
    FillKeepsFoe(l, i, id, data);
    hide InMatch, AfterMatch, Fill, Output, BytesOf, SameFoe;
    if Games(l, i) > 0 && l.hub.room.clients[i].partner == Some(id) {
      var start, ms :| InMatch(cfg, l, i, id, start, ms);
      MoreOfMatch(cfg, l, z, i, id, data, start, ms);
    } else {
      GoodCarries(cfg, l, z, i);
    }
  }

  lemma FillKeepsBooks(cfg: Config, l: Ledger, id: Id, data: seq<byte>)
    requires Books(cfg, l) && id in l.hub.rx && Live(l.hub.room, id)
    ensures Books(cfg, Fill(l, id, data))
  {
    hide Good, Books, Tails, Matching;
    var z := Fill(l, id, data);
    BooksParts(cfg, l);
    TailsFilled(l, id, data);
    forall i | Live(z.hub.room, i) && i in z.hub.room.clients
      ensures Good(cfg, z, i)
    {
      MoreHeard(cfg, l, z, i, id, data);
    }
    BooksBack(cfg, z);
  }

  lemma TailsFilled(l: Ledger, id: Id, data: seq<byte>)
    requires Tails(l) && id in l.hub.rx
    ensures Tails(Fill(l, id, data))
  {
    hide EndsWith;
    var z := Fill(l, id, data);
    SuffixGrows(BytesOf(l.heard, id), l.hub.rx[id], data);
    forall i | i in z.hub.rx
      ensures EndsWith(BytesOf(z.heard, i), z.hub.rx[i])
    {
      if i != id {
        assert BytesOf(z.heard, i) == BytesOf(l.heard, i) && z.hub.rx[i] == l.hub.rx[i];
      }
    }
  }

  lemma SuffixGrows(h: seq<byte>, r: seq<byte>, data: seq<byte>)
    requires EndsWith(h, r)
    ensures EndsWith(h + data, r + data)
  {
  }

  lemma DropRoomKeepsBooks(cfg: Config, l: Ledger, id: Id)
    requires Books(cfg, l) && id in l.hub.room.clients && id in l.hub.rx && !Whole(l.hub.rx[id])
    ensures Books(cfg, WithRoom(l, Drop(l.hub.room, id)))
  {
    NotAFrame(l.hub.rx[id]);
    BooksParts(cfg, l);
    hide Books, Good, Matching, Tails, Drop, NoRecord, Whole, SameBooks;
    var z := WithRoom(l, Drop(l.hub.room, id));
    SameRoomBooks(l, z, id);
    TailsOnly(l, z);
    DropKeepsBooks(cfg, l, z, id);
  }

  lemma SameRoomBooks(l: Ledger, z: Ledger, id: Id)
    requires z == WithRoom(l, z.hub.room) && z.hub.room.clients.Keys == l.hub.room.clients.Keys
    requires l.games.Keys <= l.hub.room.clients.Keys
    ensures SameBooks(l, z, id)
  {
  }

  /** Books that are the same but for what moved between waiting and taken. */
  lemma AllCarry(cfg: Config, l: Ledger, z: Ledger)
    requires Books(cfg, l) && z == l.(hub := l.hub.(room := z.hub.room), taken := z.taken)
    requires Matching(z.hub.room) && z.hub.room.order == l.hub.room.order
    requires z.hub.room.clients.Keys == l.hub.room.clients.Keys && z.taken.Keys <= z.hub.room.clients.Keys
    requires forall i :: i in l.hub.room.clients ==>
               var c, d := l.hub.room.clients[i], z.hub.room.clients[i];
               d.partner == c.partner && d.role == c.role && d.name == c.name && Output(z, i) == Output(l, i)
    ensures Books(cfg, z)
  {
    hide Good, Books, Tails, Output, Matching;
    BooksParts(cfg, l);
    TailsOnly(l, z);
    forall i | Live(z.hub.room, i) && i in z.hub.room.clients
      ensures Good(cfg, z, i)
    {
      assert SameFoe(l, z, i);
      GoodCarries(cfg, l, z, i);
    }
    BooksBack(cfg, z);
  }

  lemma CountsKeepBooks(cfg: Config, l: Ledger, id: Id, stats: Stats)
    requires Books(cfg, l) && id in l.hub.room.clients
    ensures Books(cfg, WithRoom(l, l.hub.room.(stats := stats)))
  {
    var z := WithRoom(l, l.hub.room.(stats := stats));
    BooksParts(cfg, l);
    hide *;
    CountsAreSilent(l, z, id, stats);
    SilenceKeepsBooks(cfg, l, z, id);
  }

  lemma CountsAreSilent(l: Ledger, z: Ledger, id: Id, stats: Stats)
    requires Tails(l) && l.games.Keys <= l.hub.room.clients.Keys && z == WithRoom(l, l.hub.room.(stats := stats))
    ensures SameBooks(l, z, id) && Tails(z) && Silent(l.hub.room, z.hub.room) && z.hub.rx == l.hub.rx
  {
    TailsOnly(l, z);
    hide Tails;
  }

  lemma BytesKeepBooks(cfg: Config, l: Ledger, id: Id, data: seq<byte>)
    requires Books(cfg, l) && Known(l.hub, id) && 0 < |data| <= MAX_RECV
    requires RomEvent(cfg, l, Event.Bytes(id, data))
    ensures Books(cfg, Advance(cfg, l, Event.Bytes(id, data)))
  {
    hide Books, FramesIn, RomFrames, Drop, BadLength, Whole;
    FramesInStops(cfg, Fill(l, id, data), id);
    FillKeepsBooks(cfg, l, id, data);
    FramesKeepBooks(cfg, Fill(l, id, data), id);
    var z := FramesIn(cfg, Fill(l, id, data), id);
    CountsKeepBooks(cfg, z, id, CountBad(z.hub.room).stats);
    DropRoomKeepsBooks(cfg, WithRoom(z, CountBad(z.hub.room)), id);
  }

  lemma {:induction false} FramesInStops(cfg: Config, l: Ledger, id: Id)
    requires id in l.hub.room.clients && id in l.hub.rx
    ensures !Whole(FramesIn(cfg, l, id).hub.rx[id])
    decreases |l.hub.rx[id]|
  {
    hide Whole, OneFrameIn;
    if Whole(l.hub.rx[id]) {
      FramesInStops(cfg, OneFrameIn(cfg, l, id), id);
    }
  }

  /** What a socket takes moves from what waits to what is taken. */
  function Moved(l: Ledger, id: Id, s: Sent): Ledger
    requires id in l.hub.room.clients && (s.Took? ==> s.n <= |l.hub.room.clients[id].tx|)
  {
    var c := l.hub.room.clients[id];
    WithRoom(l, Put(l.hub.room, id, c.(tx := if s.Took? then c.tx[s.n..] else c.tx)))
      .(taken := l.taken[id := BytesOf(l.taken, id) + Taken(c.tx, s)])
  }

  lemma MovedKeepsBooks(cfg: Config, l: Ledger, id: Id, s: Sent)
    requires Books(cfg, l) && id in l.hub.room.clients && (s.Took? ==> s.n <= |l.hub.room.clients[id].tx|)
    ensures Books(cfg, Moved(l, id, s))
  {
    var z, c := Moved(l, id, s), l.hub.room.clients[id];
    PutOutput(l.hub.room, id, z.hub.room.clients[id].tx);
    LinksKeepMatching(l.hub.room, z.hub.room);
    hide Good, Tails, Matching, Output, Books;
    BooksParts(cfg, l);
    forall i | i in l.hub.room.clients
      ensures Output(z, i) == Output(l, i)
    {
      MovedOutput(l, id, s, i);
    }
    AllCarry(cfg, l, z);
  }

  lemma MovedOutput(l: Ledger, id: Id, s: Sent, i: Id)
    requires id in l.hub.room.clients && (s.Took? ==> s.n <= |l.hub.room.clients[id].tx|) && i in l.hub.room.clients
    ensures Output(Moved(l, id, s), i) == Output(l, i)
  {
    if i == id {
      var tx := l.hub.room.clients[id].tx;
      var left := if s.Took? then tx[s.n..] else tx;
      assert Taken(tx, s) + left == tx;
      Regroup(BytesOf(l.taken, id), Taken(tx, s), left);
    }
  }

  lemma NothingTaken(cfg: Config, l: Ledger, id: Id)
    requires Books(cfg, l) && id in l.hub.room.clients
    ensures Books(cfg, l.(taken := l.taken[id := BytesOf(l.taken, id) + []]))
  {
    var z := l.(taken := l.taken[id := BytesOf(l.taken, id) + []]);
    BooksParts(cfg, l);
    hide Good, Tails, Matching, Books, Output, BytesOf;
    assert z.hub == l.hub;
    forall i | i in l.hub.room.clients
      ensures Output(z, i) == Output(l, i)
    {
      NothingMore(l.taken, id, i);
      EqualOutput(l, z, i);
    }
    AllCarry(cfg, l, z);
  }

  lemma NothingMore(m: map<Id, seq<byte>>, id: Id, i: Id)
    ensures BytesOf(m[id := BytesOf(m, id) + []], i) == BytesOf(m, i)
  {
    assert BytesOf(m, id) + [] == BytesOf(m, id);
  }

  lemma DrainKeepsBooks(cfg: Config, l: Ledger, id: Id, s: Sent)
    requires Books(cfg, l) && Enabled(l.hub, Drain(id, s)) && !Whole(l.hub.rx[id])
    ensures Books(cfg, Advance(cfg, l, Drain(id, s)))
  {
    hide Books, Drop;
    var z, c := Advance(cfg, l, Drain(id, s)), l.hub.room.clients[id];
    if c.tx == [] {
      NothingTaken(cfg, l, id);
    } else if s.Broken? {
      DropRoomKeepsBooks(cfg, l, id);
      NothingTaken(cfg, WithRoom(l, Drop(l.hub.room, id)), id);
    } else {
      var y := Moved(l, id, s);
      MovedKeepsBooks(cfg, l, id, s);
      var stats := y.hub.room.stats.(txDrops := y.hub.room.stats.txDrops + 1);
      CountsKeepBooks(cfg, y, id, stats);
      DropRoomKeepsBooks(cfg, WithRoom(y, y.hub.room.(stats := stats)), id);
    }
  }

  lemma ConnectKeepsBooks(cfg: Config, l: Ledger, id: Id, ip: int, born: int)
    requires Books(cfg, l) && id !in l.hub.room.clients
    ensures Books(cfg, l.(hub := Hub(Accept(l.hub.room, id, ip, born), l.hub.rx[id := []])))
  {
    var w := l.hub.room;
    var z := l.(hub := Hub(Accept(w, id, ip, born), l.hub.rx[id := []]));
    BooksParts(cfg, l);
    AcceptKeepsMatching(w, id, ip, born);
    AcceptedRoom(w, id, ip, born);
    TailsAdded(l, z, id);
    hide Good, Books, Tails, Output, Matching, Accept, Mark, Games, Linked, BytesOf;
    forall i | Live(z.hub.room, i) && i in z.hub.room.clients
      ensures Good(cfg, z, i)
    {
      if i == id {
        assert id !in z.games && id !in z.taken;
        NewIsGood(cfg, z, id);
      } else {
        PartnerIsOld(w, i, id);
        OldIsGood(cfg, l, z, i, id);
      }
    }
    BooksBack(cfg, z);
  }

  lemma OldIsGood(cfg: Config, l: Ledger, z: Ledger, i: Id, id: Id)
    requires i in l.hub.room.clients && i in z.hub.room.clients && Good(cfg, l, i)
    requires z.hub.room.clients[i] == l.hub.room.clients[i] && l.hub.room.clients[i].partner != Some(id)
    requires z == l.(hub := z.hub) && z.hub.rx == l.hub.rx[id := []] && id !in l.hub.room.clients
    requires forall j :: j in l.hub.room.clients ==> j in z.hub.room.clients && (Live(z.hub.room, j) ==> Live(l.hub.room, j))
    ensures Good(cfg, z, i)
  {
    SameOutput(l, z, i);
    assert SameFoe(l, z, i);
    hide Good, Output, SameFoe;
    GoodCarries(cfg, l, z, i);
  }

  lemma AcceptedRoom(w: Room, id: Id, ip: int, born: int)
    requires id !in w.clients
    ensures var r := Accept(w, id, ip, born);
            && (forall i :: i in w.clients ==> i in r.clients && r.clients[i] == w.clients[i])
            && (forall i :: i in r.clients && i != id ==> i in w.clients)
            && (forall i :: Live(r, i) && i != id ==> Live(w, i))
            && (id in r.clients ==> r.clients[id] == NEW.(ip := ip, born := born))
  {
    hide FromAddress;
  }

  lemma TailsAdded(l: Ledger, z: Ledger, id: Id)
    requires Tails(l) && z.heard == l.heard && z.hub.rx == l.hub.rx[id := []]
    ensures Tails(z)
  {
    forall i | i in z.hub.rx
      ensures EndsWith(BytesOf(z.heard, i), z.hub.rx[i])
    {
      if i != id {
        assert z.hub.rx[i] == l.hub.rx[i];
      }
    }
  }

  lemma PartnerIsOld(w: Room, i: Id, id: Id)
    requires Matching(w) && Live(w, i) && i in w.clients && id !in w.clients
    ensures w.clients[i].partner != Some(id)
  {
    assert Linked(w, i);
  }

  lemma NewIsGood(cfg: Config, l: Ledger, i: Id)
    requires i in l.hub.room.clients && i !in l.games && i !in l.taken
    requires var c := l.hub.room.clients[i]; c.name == [] && c.partner == None && c.tx == []
    ensures Good(cfg, l, i)
  {
  }

  lemma NoneWhole(h: Hub, id: Id)
    requires Tidy(h) && Known(h, id)
    ensures !Whole(h.rx[id])
  {
    if Whole(h.rx[id]) {
      OneFrame(h.rx[id]);
    }
  }

  lemma AdvanceKeepsBooks(cfg: Config, l: Ledger, e: Event)
    requires Books(cfg, l) && Enabled(l.hub, e) && RomEvent(cfg, l, e) && Tidy(l.hub)
    ensures Books(cfg, Advance(cfg, l, e))
  {
    if !e.Connect? {
      NoneWhole(l.hub, e.id);
    }
    hide Books, RomFrames, Accept, Drop, Flush, Tidy, Whole;
    match e {
      case Connect(id, ip, born) => ConnectKeepsBooks(cfg, l, id, ip, born);
      case Bytes(id, data) => BytesKeepBooks(cfg, l, id, data);
      case Hangup(id) => DropRoomKeepsBooks(cfg, l, id);
      case Drain(id, s) => DrainKeepsBooks(cfg, l, id, s);
    }
  }

  lemma {:induction false} RunKeepsBooks(cfg: Config, es: seq<Event>)
    requires Runs(cfg, EMPTY, es) && RomRun(cfg, es)
    ensures Books(cfg, Kept(cfg, es))
    decreases |es|
  {
    hide Books, Advance, RomEvent, Enabled, Tidy;
    if es == [] {
      OpenedIsKept(cfg);
    } else {
      BufferNeverOverflows(cfg, es[..|es| - 1]);
      RunKeepsBooks(cfg, es[..|es| - 1]);
      AdvanceKeepsBooks(cfg, Kept(cfg, es[..|es| - 1]), es[|es| - 1]);
    }
  }

  lemma OpenedIsKept(cfg: Config)
    ensures Books(cfg, OPENED)
  {
  }

  // ---- the stream a match is played over -------------------------------------------------

  lemma StreamStarts(cfg: Config, out: seq<byte>, start: seq<byte>, role: int, ms: seq<W.Msg>)
    requires IsStart(cfg, start, role) && out == start + W.EncodeAll(ms)
    ensures S.Started(out) == (if cfg.delay == S.C.D then S.Plays(role == 1) else S.Alone)
    ensures |out| >= S.START_LEN && S.Rest(out) == W.EncodeAll(ms)
  {
    hide W.EncodeAll;
    S.StartFirst(start, W.EncodeAll(ms));
  }

  /** All `i` has been sent since its match began: START, which hands it over in `role` exactly when the
      relay's delay is the ROM's, and then `ms`. */
  ghost predicate StartThen(cfg: Config, l: Ledger, i: Id, role: int, ms: seq<W.Msg>)
    requires i in l.hub.room.clients
  {
    var out, at := Output(l, i), Mark(l.outAt, i);
    && 0 <= at <= |out| && |out[at..]| >= S.START_LEN
    && S.Started(out[at..]) == (if cfg.delay == S.C.D then S.Plays(role == 1) else S.Alone)
    && S.Rest(out[at..]) == W.EncodeAll(ms)
  }

  /** All `j` has said since its match began: `ms`, and what waits. */
  ghost predicate Said(l: Ledger, j: Id, ms: seq<W.Msg>) {
    var from := Mark(l.inAt, j);
    && j in l.hub.rx && 0 <= from <= |BytesOf(l.heard, j)|
    && BytesOf(l.heard, j)[from..] == W.EncodeAll(ms) + l.hub.rx[j]
  }

  lemma GoodStream(cfg: Config, l: Ledger, i: Id) returns (role: int, ms: seq<W.Msg>)
    requires i in l.hub.room.clients && Good(cfg, l, i) && Games(l, i) > 0
    ensures StartThen(cfg, l, i, role, ms)
    ensures match l.hub.room.clients[i].partner
            case Some(j) => role == l.hub.room.clients[i].role && Inputs(ms) && Said(l, j, ms)
            case None => |ms| > 0 && ms[|ms| - 1] == W.Left && Inputs(ms[..|ms| - 1])
                         && Foe(l, i).Some? && Gave(l, Foe(l, i).value, ms[..|ms| - 1])
  {
    hide IsStart, W.EncodeAll, Inputs, S.Started, S.Rest, Output, Gave;
    var out, at := Output(l, i), Mark(l.outAt, i);
    match l.hub.room.clients[i].partner {
      case Some(j) =>
        var start, said :| InMatch(cfg, l, i, j, start, said);
        role, ms := l.hub.room.clients[i].role, said;
        StreamStarts(cfg, out[at..], start, role, ms);
      case None =>
        var start, said, r :| AfterMatch(cfg, l, i, start, said, r);
        role, ms := r, said + [W.Left];
        assert ms[..|said|] == said;
        StreamStarts(cfg, out[at..], start, role, ms);
    }
  }

  /** The relay is the stream `Lockstep` plays over. On every run of consoles with the ROM's discipline,
      however their bytes are cut and interleaved and however the sockets drain, all a live console has
      ever been sent is nothing before its first match; and since its latest match began, START and
      then whole records: while the match goes on exactly those its partner has sent, of whose bytes
      only part of a frame waits; and when it is over, all the whole records that partner sent, and one
      goodbye after them. */
  lemma MatchIsAStream(cfg: Config, es: seq<Event>, i: Id) returns (role: int, ms: seq<W.Msg>)
    requires Runs(cfg, EMPTY, es) && RomRun(cfg, es)
    requires Live(Exec(cfg, EMPTY, es).room, i)
    ensures var l := Kept(cfg, es);
            && l.hub == Exec(cfg, EMPTY, es) && i in l.hub.room.clients
            && (Games(l, i) == 0 ==> Output(l, i) == [] && l.hub.room.clients[i].partner == None)
            && (Games(l, i) == 1 ==> Mark(l.outAt, i) == 0)
            && (Games(l, i) > 0 ==> StartThen(cfg, l, i, role, ms))
            && match l.hub.room.clients[i].partner
               case Some(j) =>
                 && role == l.hub.room.clients[i].role && Inputs(ms) && Said(l, j, ms)
                 && Parse(l.hub.rx[j]) == Parsed([], l.hub.rx[j], false)
               case None => Games(l, i) > 0 ==>
                 && |ms| > 0 && ms[|ms| - 1] == W.Left && Inputs(ms[..|ms| - 1])
                 && Foe(l, i).Some? && Gave(l, Foe(l, i).value, ms[..|ms| - 1])
  {
    RunKeepsBooks(cfg, es);
    BufferNeverOverflows(cfg, es);
    var l := Kept(cfg, es);
    BooksParts(cfg, l);
    assert Linked(l.hub.room, i);
    hide Runs, RomRun, Books, Exec, Kept, Parse, Good, StartThen, Said, Inputs, Output, Matching, Tails, Gave;
    GamesOfGood(cfg, l, i);
    role, ms := 0, [];
    if Games(l, i) > 0 {
      role, ms := GoodStream(cfg, l, i);
    }
  }

  lemma GamesOfGood(cfg: Config, l: Ledger, i: Id)
    requires i in l.hub.room.clients && Good(cfg, l, i)
    ensures Games(l, i) == 0 ==> Output(l, i) == [] && l.hub.room.clients[i].partner == None
    ensures Games(l, i) == 1 ==> Mark(l.outAt, i) == 0
  {
  }
}
