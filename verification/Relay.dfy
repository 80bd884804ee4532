/** The relay's room as values: who is connected, who is paired with whom, what is waiting to go out.
    This is what the Python server does to its objects, and where the C port answers otherwise, what the
    port does; `RelayServer` and `RelayC` update state in place and are proved to do the same. */
module Relay {
  import opened Bytes
  import W = Wire

  const T_HELLO: byte := 0x01
  const T_LIST: byte := 0x02
  const T_LOBBY: byte := 0x03
  const T_JOIN: byte := 0x04
  const T_START: byte := 0x05
  const T_CRC: byte := 0x07
  const T_STATE: byte := 0x08
  const T_RESYNC: byte := 0x09
  const T_BYE: byte := 0x0A
  const T_PING: byte := 0x0C
  const T_PONG: byte := 0x0D

  const GAME_PAYLOAD := W.FRAME_LEN - 2
  const MAX_LEN := 200            // the largest length byte a frame may carry
  const MAX_RECV := 4096
  const MAX_CLIENTS := 64
  const MAX_PER_IP := 8
  const MAX_BACKLOG := 65536
  const PROTO: byte := 2
  const MAX_TRIES := 1000         // draws for a free name before the C port gives up

  datatype Option<T> = None | Some(value: T)

  type Id = nat
  type Name = seq<byte>           // [] until HELLO
  type Digit = n: nat | n < 10
  type Word = n: nat | 0 < n < 0x10000 witness 1

  /** What is chosen outside: the two arguments every START carries, the two random streams, and which of
      the two servers it is, the C port or the Python one it follows. */
  datatype Config = Config(delay: byte, variation: byte, digits: nat -> Digit, seeds: nat -> Word, port: bool)

  type Original = c: Config | !c.port witness Config(0, 0, _ => 0, _ => 1, false)
  type Ported = c: Config | c.port witness Config(0, 0, _ => 0, _ => 1, true)

  /** The C port, started with the same arguments. */
  function Port(cfg: Config): Ported {
    cfg.(port := true)
  }

  datatype Entry = Entry(key: nat, crc: byte)

  datatype Client = Client(
    ip: int, born: int, tx: seq<byte>, name: Name,
    partner: Option<Id>, role: int,
    crc: seq<Entry>, lap: nat, last: Option<byte>)

  datatype Stats = Stats(matches: nat, ok: nat, bad: nat, badFrames: nat, txDrops: nat, ipRejects: nat)

  /** `clients` holds every connection there has been, so that a dropped one can still forward what
      it had queued; `order` is the live ones, in the order they were accepted. `stuck` marks a room the
      server does not go on from as modelled: it has raised, or is still drawing names. */
  datatype Room = Room(
    clients: map<Id, Client>, order: seq<Id>, names: map<Name, Id>,
    drawn: nat, matched: nat, stuck: bool, stats: Stats)

  const EMPTY := Hub(Room(map[], [], map[], 0, 0, false, Stats(0, 0, 0, 0, 0, 0)), map[])

  // ---- frames ---------------------------------------------------------------------------

  datatype Packet = Packet(kind: byte, payload: seq<byte>)

  function Frame(kind: byte, payload: seq<byte>): (s: seq<byte>)
    requires |payload| < 255
    ensures |s| == |payload| + 2
  {
    [|payload| + 1, kind] + payload
  }

  /** `ljust`: pads, never truncates. */
  function Pad(s: seq<byte>, n: nat): (r: seq<byte>)
    ensures |r| == if |s| < n then n else |s|
  {
    if |s| < n then s + seq(n - |s|, (_: nat) => 0 as byte) else s
  }

  /** What is left of a buffer, the whole frames taken off its front, and whether a length byte no
      frame may carry comes next. */
  datatype Parsed = Parsed(packets: seq<Packet>, rest: seq<byte>, bad: bool)

  function Parse(rx: seq<byte>): (p: Parsed)
    decreases |rx|
  {
    if rx == [] then Parsed([], rx, false)
    else if rx[0] < 1 || rx[0] > MAX_LEN then Parsed([], rx, true)
    else if |rx| < rx[0] + 1 then Parsed([], rx, false)
    else
      var p := Parse(rx[rx[0] + 1..]);
      p.(packets := [Packet(rx[1], rx[2..rx[0] + 1])] + p.packets)
  }

  // ---- small steps ----------------------------------------------------------------------

  function Put(w: Room, id: Id, c: Client): (r: Room)
    ensures id in w.clients ==> r.clients.Keys == w.clients.Keys
  {
    w.(clients := w.clients[id := c])
  }

  /** Append only. */
  function Send(w: Room, id: Id, data: seq<byte>): (r: Room)
    ensures r.clients.Keys == w.clients.Keys
  {
    if id in w.clients then Put(w, id, w.clients[id].(tx := w.clients[id].tx + data)) else w
  }

  predicate Live(w: Room, id: Id) {
    id in w.order
  }

  predicate Idle(w: Room, id: Id) {
    id in w.clients && w.clients[id].name != [] && w.clients[id].partner == None
  }

  function Without<T(==,!new)>(s: seq<T>, x: T): (r: seq<T>)
    ensures x !in s ==> r == s
    ensures |r| <= |s|
    ensures forall y :: y in r <==> y in s && y != x
  {
    if s == [] then [] else if s[0] == x then Without(s[1..], x) else [s[0]] + Without(s[1..], x)
  }

  // ---- accept ---------------------------------------------------------------------------

  /** Connections from one address among the first `n` in accept order. */
  function FromAddress(w: Room, ip: int, n: nat): (k: nat)
    requires n <= |w.order|
    ensures k <= n
  {
    if n == 0 then 0 else
      FromAddress(w, ip, n - 1) +
      if w.order[n - 1] in w.clients && w.clients[w.order[n - 1]].ip == ip then 1 else 0
  }

  const NEW := Client(0, 0, [], [], None, -1, [], 0, None)

  function Accept(w: Room, id: Id, ip: int, born: int): Room {
    if |w.order| >= MAX_CLIENTS then w
    else if FromAddress(w, ip, |w.order|) >= MAX_PER_IP then
      w.(stats := w.stats.(ipRejects := w.stats.ipRejects + 1))
    else Put(w, id, NEW.(ip := ip, born := born)).(order := w.order + [id])
  }

  // ---- pairing --------------------------------------------------------------------------

  /** Whether `o` is waiting for a match that `id` could join. */
  predicate Waits(w: Room, id: Id, o: Id) {
    o != id && Idle(w, o)
  }

  /** The longest connected of those waiting among the first `n`: a tie goes to the first. */
  function Oldest(w: Room, id: Id, n: nat): (r: Option<Id>)
    requires n <= |w.order|
    ensures r.Some? ==> r.value in w.order[..n] && Waits(w, id, r.value)
    ensures r.None? ==> forall k :: 0 <= k < n ==> !Waits(w, id, w.order[k])
    ensures r.Some? ==> forall k :: 0 <= k < n && Waits(w, id, w.order[k]) ==>
              w.clients[r.value].born <= w.clients[w.order[k]].born
  {
    if n == 0 then None else
      var best, o := Oldest(w, id, n - 1), w.order[n - 1];
      if !Waits(w, id, o) then best
      else if best.None? || w.clients[o].born < w.clients[best.value].born then Some(o)
      else best
  }

  function StartFrame(cfg: Config, role: byte, seed: Word, opponent: Name): (s: seq<byte>)
    requires |opponent| <= 8
    ensures |s| == 15
  {
    Frame(T_START, [role, seed % 256, seed / 256, cfg.delay, cfg.variation] + Pad(opponent, 8))
  }

  /** A name as START and LOBBY carry it. */
  function Short(n: Name): (s: Name)
    ensures |s| <= 8
  {
    if |n| <= 8 then n else n[..8]
  }

  /** One side of a new match: linked, its checksums forgotten, its START queued. */
  function Enrol(cfg: Config, w: Room, me: Id, role: byte, them: Id, seed: Word): (r: Room)
    requires me in w.clients && them in w.clients
    ensures r.clients.Keys == w.clients.Keys
  {
    var c := w.clients[me];
    Put(w, me, c.(partner := Some(them), role := role, crc := [],
                  tx := c.tx + StartFrame(cfg, role, seed, Short(w.clients[them].name))))
  }

  /** With somebody waiting and no name for the other's START to carry, the Python server raises, and
      nothing in it catches that. The port sends eight zeros. */
  predicate Raises(cfg: Config, w: Room, id: Id)
    requires id in w.clients
  {
    !cfg.port && w.clients[id].name == [] && Oldest(w, id, |w.order|).Some?
  }

  function TryPair(cfg: Config, w: Room, id: Id): (r: Room)
    requires id in w.clients
    ensures r.clients.Keys == w.clients.Keys
  {
    var other := Oldest(w, id, |w.order|);
    if other.None? then w
    else if Raises(cfg, w, id) then w.(stuck := true)
    else
      var seed := cfg.seeds(w.matched);
      var w1 := Enrol(cfg, w, other.value, 0, id, seed);
      var w2 := Enrol(cfg, w1, id, 1, other.value, seed);
      w2.(matched := w.matched + 1, stats := w.stats.(matches := w.stats.matches + 1))
  }

  // ---- HELLO ----------------------------------------------------------------------------

  predicate Blank(b: byte) {
    b == 0 || b == 32
  }

  function LeftStrip(s: seq<byte>): (r: seq<byte>)
    ensures |r| <= |s|
  {
    if s != [] && Blank(s[0]) then LeftStrip(s[1..]) else s
  }

  function RightStrip(s: seq<byte>): (r: seq<byte>)
    ensures |r| <= |s|
  {
    if s != [] && Blank(s[|s| - 1]) then RightStrip(s[..|s| - 1]) else s
  }

  function UpperByte(b: byte): byte {
    if 97 <= b <= 122 then b - 32 else b
  }

  function Upper(s: seq<byte>): (r: seq<byte>)
    ensures |r| == |s|
    ensures forall k :: 0 <= k < |s| ==> r[k] == UpperByte(s[k])
  {
    seq(|s|, k requires 0 <= k < |s| => UpperByte(s[k]))
  }

  predicate NameByte(b: byte) {
    65 <= b <= 90 || 48 <= b <= 57
  }

  predicate ValidName(n: Name) {
    2 <= |n| <= 8 && forall k :: 0 <= k < |n| ==> NameByte(n[k])
  }

  /** The name a HELLO asks for, or None when the relay turns the console away: a wrong version, a
      television standard other than NTSC or PAL, or a bad name. A byte above ASCII fails the check
      whether or not it is decoded first. */
  function Asked(payload: seq<byte>): (r: Option<Name>)
    ensures r.Some? ==> ValidName(r.value)
  {
    if |payload| < 3 || payload[0] != PROTO || payload[1] > 1 then None else
      var name := Upper(RightStrip(LeftStrip(payload[2..])));
      if ValidName(name) then Some(name) else None
  }

  function Variant(n: Name, d: Digit): (r: Name)
    ensures ValidName(n) ==> ValidName(r)
  {
    (if |n| > 7 then n[..7] else n) + [48 + d]
  }

  /** The first free name among the asked one and its variants, and how many digits it took. */
  function Resolve(cfg: Config, names: map<Name, Id>, name: Name, at: nat, tries: nat): (r: Option<(Name, nat)>)
    ensures r.Some? ==> r.value.0 !in names && at <= r.value.1 <= at + tries
    ensures r.Some? && ValidName(name) ==> ValidName(r.value.0)
    decreases tries
  {
    if name !in names then Some((name, at))
    else if tries == 0 then None
    else Resolve(cfg, names, Variant(name, cfg.digits(at)), at + 1, tries - 1)
  }

  lemma ResolveStep(cfg: Config, names: map<Name, Id>, name: Name, at: nat, tries: nat)
    ensures name !in names ==> Resolve(cfg, names, name, at, tries) == Some((name, at))
    ensures name in names && tries == 0 ==> Resolve(cfg, names, name, at, tries) == None
    ensures name in names && tries > 0 ==>
              Resolve(cfg, names, name, at, tries) == Resolve(cfg, names, Variant(name, cfg.digits(at)), at + 1, tries - 1)
  {
  }

  function Rename(w: Room, id: Id, name: Name, drawn: nat): (r: Room)
    requires id in w.clients
    ensures r.clients.Keys == w.clients.Keys
  {
    Put(w, id, w.clients[id].(name := name)).(names := w.names[name := id], drawn := drawn)
  }

  function GiveUp(cfg: Config, w: Room, id: Id): (r: Room)
    requires id in w.clients
    ensures r.clients.Keys == w.clients.Keys
  {
    if cfg.port then Drop(w, id).(drawn := w.drawn + MAX_TRIES) else w.(stuck := true)
  }

  /** After a thousand draws the port gives the console up; the Python server goes on drawing. */
  function OnHello(cfg: Config, w: Room, id: Id, payload: seq<byte>): (r: Room)
    requires id in w.clients
    ensures r.clients.Keys == w.clients.Keys
  {
    var name := Asked(payload);
    if name.None? then Drop(w, id) else
      var free := Resolve(cfg, w.names, name.value, w.drawn, MAX_TRIES);
      if free.None? then GiveUp(cfg, w, id)
      else TryPair(cfg, Rename(w, id, free.value.0, free.value.1), id)
  }

  // ---- the lobby ------------------------------------------------------------------------

  /** The first eight named clients among the first `n` live ones. */
  function Listed(w: Room, n: nat): (ids: seq<Id>)
    requires n <= |w.order|
    ensures |ids| <= 8 && forall k :: 0 <= k < |ids| ==> ids[k] in w.clients
  {
    if n == 0 then [] else
      var ids, o := Listed(w, n - 1), w.order[n - 1];
      if o !in w.clients || w.clients[o].name == [] || |ids| >= 8 then ids else ids + [o]
  }

  function LobbyRows(w: Room, ids: seq<Id>): (s: seq<byte>)
    requires forall k :: 0 <= k < |ids| ==> ids[k] in w.clients
    ensures |s| == 9 * |ids|
  {
    if ids == [] then [] else
      var o := ids[|ids| - 1];
      LobbyRows(w, ids[..|ids| - 1]) + Pad(Short(w.clients[o].name), 8)
      + [if w.clients[o].partner.Some? then 1 else 0]
  }

  function SendLobby(w: Room, id: Id): (r: Room)
    ensures r.clients.Keys == w.clients.Keys
  {
    var ids := Listed(w, |w.order|);
    Send(w, id, Frame(T_LOBBY, [|ids|] + LobbyRows(w, ids)))
  }

  // ---- checksums ------------------------------------------------------------------------

  /** Where `key` is in an insertion-ordered map: its length when it is not there. */
  function Find(m: seq<Entry>, key: nat): (i: nat)
    ensures i <= |m|
    ensures i < |m| ==> m[i].key == key
    ensures forall k :: 0 <= k < i ==> m[k].key != key
  {
    if m == [] || m[0].key == key then 0 else 1 + Find(m[1..], key)
  }

  /** An existing key keeps its place. */
  function SetEntry(m: seq<Entry>, key: nat, crc: byte): seq<Entry> {
    var i := Find(m, key);
    if i < |m| then m[i := Entry(key, crc)] else m + [Entry(key, crc)]
  }

  function DropEntry(m: seq<Entry>, i: nat): seq<Entry>
    requires i < |m|
  {
    m[..i] + m[i + 1..]
  }

  function Newest(m: seq<Entry>, n: nat): (r: seq<Entry>)
    ensures |r| <= n
  {
    if |m| <= n then m else m[|m| - n..]
  }

  /** The lap a tick opens: a forward step of less than half the range that lands lower is a wrap. */
  function LapAfter(lap: nat, last: Option<byte>, tick: byte): nat {
    if last.Some? && 0 < (tick - last.value) % 256 < 128 && tick < last.value then lap + 1 else lap
  }

  function LogCrc(w: Room, id: Id, payload: seq<byte>): (r: Room)
    requires id in w.clients && |payload| >= GAME_PAYLOAD
    ensures r.clients.Keys == w.clients.Keys
  {
    var c, tick, crc := w.clients[id], payload[0], payload[4];
    var lap := LapAfter(c.lap, c.last, tick);
    var key := lap * 256 + tick;
    var w1 := Put(w, id, c.(lap := lap, last := Some(tick), crc := SetEntry(c.crc, key, crc)));
    if c.partner.None? || c.partner.value !in w1.clients then Trim(w1, id) else
      var p := w1.clients[c.partner.value];
      var i := Find(p.crc, key);
      if i == |p.crc| then Trim(w1, id) else
        var w2 := Put(w1, c.partner.value, p.(crc := DropEntry(p.crc, i)));
        w2.(stats := if p.crc[i].crc != crc then w.stats.(bad := w.stats.bad + 1)
                     else w.stats.(ok := w.stats.ok + 1))
  }

  function Trim(w: Room, id: Id): (r: Room)
    requires id in w.clients
    ensures r.clients.Keys == w.clients.Keys
  {
    Put(w, id, w.clients[id].(crc := Newest(w.clients[id].crc, 8)))
  }

  // ---- frames in ------------------------------------------------------------------------

  predicate Relayed(kind: byte) {
    kind in {W.T_INPUT, T_CRC, T_STATE, T_RESYNC}
  }

  function Forward(w: Room, id: Id, p: Packet): (r: Room)
    requires id in w.clients && |p.payload| < 255
    ensures r.clients.Keys == w.clients.Keys
  {
    var partner := w.clients[id].partner;
    if partner.Some? then Send(w, partner.value, Frame(p.kind, Pad(p.payload, GAME_PAYLOAD))) else w
  }

  function Handle(cfg: Config, w: Room, id: Id, p: Packet): (r: Room)
    requires id in w.clients && |p.payload| < 255
    ensures r.clients.Keys == w.clients.Keys
  {
    if Relayed(p.kind) then
      var w1 := Forward(w, id, p);
      if p.kind == W.T_INPUT && |p.payload| >= GAME_PAYLOAD then LogCrc(w1, id, p.payload) else w1
    else if p.kind == T_HELLO then OnHello(cfg, w, id, p.payload)
    else if p.kind == T_LIST then SendLobby(w, id)
    else if p.kind == T_JOIN then TryPair(cfg, w, id)
    else if p.kind == T_PING then Send(w, id, Frame(T_PONG, []))
    else if p.kind == T_BYE then Drop(w, id)
    else w
  }

  // ---- drops ----------------------------------------------------------------------------

  function Unname(names: map<Name, Id>, name: Name, id: Id): map<Name, Id> {
    if name != [] && name in names && names[name] == id then names - {name} else names
  }

  /** The survivor is told and its link cleared; the dropped side's own link stays. */
  function Drop(w: Room, id: Id): (r: Room)
    requires id in w.clients
    ensures !Live(r, id)
    ensures r.clients.Keys == w.clients.Keys
  {
    if id !in w.order then w else
      var c := w.clients[id];
      var w1 := w.(names := Unname(w.names, c.name, id), order := Without(w.order, id));
      if c.partner.Some? && c.partner.value in w.clients then
        Send(Put(w1, c.partner.value, w1.clients[c.partner.value].(partner := None)), c.partner.value,
             Frame(W.T_LEFT, seq(GAME_PAYLOAD, (_: nat) => 0 as byte)))
      else w1
  }

  // ---- a receive ------------------------------------------------------------------------

  predicate Framed(ps: seq<Packet>) {
    forall k :: 0 <= k < |ps| ==> |ps[k].payload| < MAX_LEN
  }

  /** The frames of one buffer, handed on one after another whatever they do to the connection. */
  function HandleAll(cfg: Config, w: Room, id: Id, ps: seq<Packet>): (r: Room)
    requires id in w.clients && Framed(ps)
    ensures r.clients.Keys == w.clients.Keys
    decreases |ps|
  {
    if ps == [] then w else
      var r := HandleAll(cfg, w, id, ps[..|ps| - 1]);
      Handle(cfg, r, id, ps[|ps| - 1])
  }

  lemma {:induction false} ParseFrames(rx: seq<byte>)
    ensures Framed(Parse(rx).packets)
    decreases |rx|
  {
    if rx != [] && 1 <= rx[0] <= MAX_LEN && |rx| >= rx[0] + 1 {
      ParseFrames(rx[rx[0] + 1..]);
    }
  }

  function CountBad(w: Room): Room {
    w.(stats := w.stats.(badFrames := w.stats.badFrames + 1))
  }

  /** The room and the bytes waiting for the rest of their frame. */
  datatype Hub = Hub(room: Room, rx: map<Id, seq<byte>>)

  /** The frames of a buffer handed on, and the door shut when it cannot be a stream of frames. */
  function Deliver(cfg: Config, w: Room, id: Id, p: Parsed): (r: Room)
    requires id in w.clients && Framed(p.packets)
    ensures r.clients.Keys == w.clients.Keys
  {
    var r := HandleAll(cfg, w, id, p.packets);
    if p.bad then Drop(CountBad(r), id) else r
  }

  /** One receive: the bytes join what is waiting, and the frame loop runs. */
  function Receive(cfg: Config, h: Hub, id: Id, data: seq<byte>): (r: Hub)
    requires id in h.room.clients && id in h.rx
    ensures r.room.clients.Keys == h.room.clients.Keys && r.rx.Keys == h.rx.Keys
  {
    var p := Parse(h.rx[id] + data);
    ParseFrames(h.rx[id] + data);
    Hub(Deliver(cfg, h.room, id, p), h.rx[id := p.rest])
  }

  // ---- flush ----------------------------------------------------------------------------

  /** What one send on a socket did. */
  datatype Sent = Blocked | Broken | Took(n: nat)

  function Flush(w: Room, id: Id, s: Sent): Room
    requires id in w.clients && (s.Took? ==> s.n <= |w.clients[id].tx|)
  {
    var c := w.clients[id];
    if c.tx == [] then w
    else if s.Broken? then Drop(w, id)
    else
      var left := if s.Took? then c.tx[s.n..] else c.tx;
      var w1 := Put(w, id, c.(tx := left));
      if |left| > MAX_BACKLOG then Drop(w1.(stats := w1.stats.(txDrops := w1.stats.txDrops + 1)), id) else w1
  }

  // ---- runs -----------------------------------------------------------------------------

  datatype Event =
    | Connect(id: Id, ip: int, born: int)
    | Bytes(id: Id, data: seq<byte>)
    | Hangup(id: Id)               // the peer closed, or never said HELLO in time
    | Drain(id: Id, sent: Sent)

  /** Only live connections are selected; a new one is a new object; the clock never goes back. */
  predicate Enabled(h: Hub, e: Event) {
    match e
    case Connect(id, ip, born) =>
      id !in h.room.clients && forall k :: k in h.room.clients ==> h.room.clients[k].born <= born
    case Bytes(id, data) => Known(h, id) && 0 < |data| <= MAX_RECV
    case Hangup(id) => Known(h, id)
    case Drain(id, s) => Known(h, id) && (s.Took? ==> s.n <= |h.room.clients[id].tx|)
  }

  predicate Known(h: Hub, id: Id) {
    Live(h.room, id) && id in h.room.clients && id in h.rx
  }

  function Step(cfg: Config, h: Hub, e: Event): Hub
    requires Enabled(h, e)
  {
    match e
    case Connect(id, ip, born) => Hub(Accept(h.room, id, ip, born), h.rx[id := []])
    case Bytes(id, data) => Receive(cfg, h, id, data)
    case Hangup(id) => h.(room := Drop(h.room, id))
    case Drain(id, s) => h.(room := Flush(h.room, id, s))
  }

  predicate Runs(cfg: Config, h: Hub, es: seq<Event>)
    decreases |es|, 0
  {
    es == [] || (Runs(cfg, h, es[..|es| - 1]) && Enabled(Exec(cfg, h, es[..|es| - 1]), es[|es| - 1]))
  }

  function Exec(cfg: Config, h: Hub, es: seq<Event>): Hub
    requires Runs(cfg, h, es)
    decreases |es|, 1
  {
    if es == [] then h else Step(cfg, Exec(cfg, h, es[..|es| - 1]), es[|es| - 1])
  }
}
