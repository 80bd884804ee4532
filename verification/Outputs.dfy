/** Checksums never reach an output: rooms that differ only in what has been logged of checksums go on
    differing only in that, whatever arrives. */
module Outputs {
  import opened Bytes
  import opened Relay
  import W = Wire

  /** The same client but for its checksum log. */
  predicate SameClient(c: Client, d: Client) {
    d == c.(crc := d.crc, lap := d.lap, last := d.last)
  }

  /** The same room but for the checksum logs and the two counts kept of them. */
  ghost predicate Alike(w: Room, v: Room) {
    && v.clients.Keys == w.clients.Keys && v.order == w.order && v.names == w.names
    && v.drawn == w.drawn && v.matched == w.matched && v.stuck == w.stuck
    && v.stats == w.stats.(ok := v.stats.ok, bad := v.stats.bad)
    && forall i :: i in w.clients ==> SameClient(w.clients[i], v.clients[i])
  }

  lemma AlikeTrans(a: Room, b: Room, c: Room)
    requires Alike(a, b) && Alike(b, c)
    ensures Alike(a, c)
  {
  }

  lemma AlikeSym(a: Room, b: Room)
    requires Alike(a, b)
    ensures Alike(b, a)
  {
  }

  lemma PutAlike(w: Room, v: Room, id: Id, c: Client, d: Client)
    requires Alike(w, v) && SameClient(c, d)
    ensures Alike(Put(w, id, c), Put(v, id, d))
  {
  }

  lemma SendAlike(w: Room, v: Room, id: Id, data: seq<byte>)
    requires Alike(w, v)
    ensures Alike(Send(w, id, data), Send(v, id, data))
  {
    hide Alike;
    assert w.clients.Keys == v.clients.Keys by { Look(w, v, id); }
    if id in w.clients {
      Look(w, v, id);
      PutAlike(w, v, id, w.clients[id].(tx := w.clients[id].tx + data), v.clients[id].(tx := v.clients[id].tx + data));
    }
  }

  lemma Look(w: Room, v: Room, id: Id)
    requires Alike(w, v)
    ensures v.clients.Keys == w.clients.Keys && v.order == w.order && v.names == w.names
    ensures v.drawn == w.drawn && v.matched == w.matched && v.stuck == w.stuck
    ensures id in w.clients ==> SameClient(w.clients[id], v.clients[id])
  {
  }

  // ---- pairing --------------------------------------------------------------------------

  lemma {:induction false} OldestAlike(w: Room, v: Room, id: Id, n: nat)
    requires Alike(w, v) && n <= |w.order|
    ensures Oldest(v, id, n) == Oldest(w, id, n)
  {
    hide Alike;
    Look(w, v, id);
    if n > 0 {
      OldestAlike(w, v, id, n - 1);
      Look(w, v, w.order[n - 1]);
      if Oldest(w, id, n - 1).Some? {
        Look(w, v, Oldest(w, id, n - 1).value);
      }
    }
  }

  lemma EnrolAlike(cfg: Config, w: Room, v: Room, me: Id, role: byte, them: Id, seed: Word)
    requires Alike(w, v) && me in w.clients && them in w.clients
    ensures Alike(Enrol(cfg, w, me, role, them, seed), Enrol(cfg, v, me, role, them, seed))
  {
    Look(w, v, me);
    Look(w, v, them);
    hide Alike, StartFrame, Short;
    var start := StartFrame(cfg, role, seed, Short(w.clients[them].name));
    var c, d := w.clients[me], v.clients[me];
    PutAlike(w, v, me, c.(partner := Some(them), role := role, crc := [], tx := c.tx + start),
             d.(partner := Some(them), role := role, crc := [], tx := d.tx + start));
  }

  /** A pairing counted. */
  function Counted(w: Room, r: Room): Room {
    r.(matched := w.matched + 1, stats := w.stats.(matches := w.stats.matches + 1))
  }

  lemma CountedAlike(w: Room, v: Room, x: Room, y: Room)
    requires Alike(w, v) && Alike(x, y)
    ensures w.matched == v.matched && Alike(Counted(w, x), Counted(v, y))
  {
    hide SameClient;
  }

  lemma PairIs(cfg: Config, w: Room, id: Id)
    requires id in w.clients
    ensures var other, seed := Oldest(w, id, |w.order|), cfg.seeds(w.matched);
            TryPair(cfg, w, id) == if other.None? then w
                                   else if Raises(cfg, w, id) then w.(stuck := true)
                                   else Counted(w, Enrol(cfg, Enrol(cfg, w, other.value, 0, id, seed), id, 1, other.value, seed))
  {
    hide Oldest, Enrol, StartFrame;
  }

  lemma StuckAlike(w: Room, v: Room)
    requires Alike(w, v)
    ensures Alike(w.(stuck := true), v.(stuck := true))
  {
    hide SameClient;
  }

  lemma TryPairAlike(cfg: Config, w: Room, v: Room, id: Id)
    requires Alike(w, v) && id in w.clients
    ensures Alike(TryPair(cfg, w, id), TryPair(cfg, v, id))
  {
    Look(w, v, id);
    OldestAlike(w, v, id, |w.order|);
    PairIs(cfg, w, id);
    PairIs(cfg, v, id);
    CountedAlike(w, v, w, v);
    StuckAlike(w, v);
    hide Oldest, Enrol, Alike, TryPair, Counted;
    var other, seed := Oldest(w, id, |w.order|), cfg.seeds(w.matched);
    if other.Some? {
      var x, y := Enrol(cfg, w, other.value, 0, id, seed), Enrol(cfg, v, other.value, 0, id, seed);
      EnrolAlike(cfg, w, v, other.value, 0, id, seed);
      EnrolAlike(cfg, x, y, id, 1, other.value, seed);
      CountedAlike(w, v, Enrol(cfg, x, id, 1, other.value, seed), Enrol(cfg, y, id, 1, other.value, seed));
    }
  }

  lemma DropAlike(w: Room, v: Room, id: Id)
    requires Alike(w, v) && id in w.clients
    ensures Alike(Drop(w, id), Drop(v, id))
  {
    hide Without, Unname, Frame;
  }

  lemma GiveUpAlike(cfg: Config, w: Room, v: Room, id: Id)
    requires Alike(w, v) && id in w.clients && id in v.clients
    ensures Alike(GiveUp(cfg, w, id), GiveUp(cfg, v, id))
  {
    DropAlike(w, v, id);
    StuckAlike(w, v);
    DrawnAlike(Drop(w, id), Drop(v, id), w.drawn + MAX_TRIES);
    hide Drop, SameClient;
  }

  lemma DrawnAlike(w: Room, v: Room, drawn: nat)
    requires Alike(w, v)
    ensures Alike(w.(drawn := drawn), v.(drawn := drawn))
  {
    hide SameClient;
  }

  lemma HelloAlike(cfg: Config, w: Room, v: Room, id: Id, payload: seq<byte>)
    requires Alike(w, v) && id in w.clients
    ensures Alike(OnHello(cfg, w, id, payload), OnHello(cfg, v, id, payload))
  {
    Look(w, v, id);
    DropAlike(w, v, id);
    GiveUpAlike(cfg, w, v, id);
    hide Drop, TryPair, Asked, Resolve, GiveUp;
    if Asked(payload).Some? {
      var free := Resolve(cfg, w.names, Asked(payload).value, w.drawn, MAX_TRIES);
      if free.Some? {
        RenameAlike(w, v, id, free.value.0, free.value.1);
        TryPairAlike(cfg, Rename(w, id, free.value.0, free.value.1), Rename(v, id, free.value.0, free.value.1), id);
      }
    }
  }

  lemma RenameAlike(w: Room, v: Room, id: Id, name: Name, drawn: nat)
    requires Alike(w, v) && id in w.clients
    ensures Alike(Rename(w, id, name, drawn), Rename(v, id, name, drawn))
  {
  }

  // ---- the lobby ------------------------------------------------------------------------

  lemma {:induction false} ListedAlike(w: Room, v: Room, n: nat)
    requires Alike(w, v) && n <= |w.order|
    ensures Listed(v, n) == Listed(w, n)
  {
    if n > 0 {
      ListedAlike(w, v, n - 1);
      hide Alike;
      Look(w, v, w.order[n - 1]);
    }
  }

  lemma {:induction false} RowsAlike(w: Room, v: Room, ids: seq<Id>)
    requires Alike(w, v) && forall k :: 0 <= k < |ids| ==> ids[k] in w.clients
    ensures LobbyRows(v, ids) == LobbyRows(w, ids)
    decreases |ids|
  {
    hide Alike, Pad, Short;
    if ids != [] {
      Look(w, v, ids[|ids| - 1]);
      RowsAlike(w, v, ids[..|ids| - 1]);
    }
  }

  lemma LobbyAlike(w: Room, v: Room, id: Id)
    requires Alike(w, v)
    ensures Alike(SendLobby(w, id), SendLobby(v, id))
  {
    Look(w, v, id);
    hide Alike, Listed, LobbyRows, Send;
    ListedAlike(w, v, |w.order|);
    var ids := Listed(w, |w.order|);
    RowsAlike(w, v, ids);
    SendAlike(w, v, id, Frame(T_LOBBY, [|ids|] + LobbyRows(w, ids)));
  }

  // ---- checksums ------------------------------------------------------------------------

  /** Logging a checksum changes nothing else. */
  lemma LogIsAlike(w: Room, id: Id, payload: seq<byte>)
    requires id in w.clients && |payload| >= GAME_PAYLOAD
    ensures Alike(w, LogCrc(w, id, payload))
  {
    hide Find, SetEntry, DropEntry, Newest, LapAfter;
  }

  lemma LogAlike(w: Room, v: Room, id: Id, payload: seq<byte>)
    requires Alike(w, v) && id in w.clients && |payload| >= GAME_PAYLOAD
    ensures Alike(LogCrc(w, id, payload), LogCrc(v, id, payload))
  {
    Look(w, v, id);
    hide Alike, LogCrc;
    LogIsAlike(w, id, payload);
    LogIsAlike(v, id, payload);
    AlikeSym(w, LogCrc(w, id, payload));
    AlikeTrans(LogCrc(w, id, payload), w, v);
    AlikeTrans(LogCrc(w, id, payload), v, LogCrc(v, id, payload));
  }

  // ---- frames and receives --------------------------------------------------------------

  lemma ForwardAlike(w: Room, v: Room, id: Id, p: Packet)
    requires Alike(w, v) && id in w.clients && |p.payload| < 255
    ensures Alike(Forward(w, id, p), Forward(v, id, p))
  {
    Look(w, v, id);
    hide Alike, Send, Pad;
    if w.clients[id].partner.Some? {
      SendAlike(w, v, w.clients[id].partner.value, Frame(p.kind, Pad(p.payload, GAME_PAYLOAD)));
    }
  }

  lemma HandleAlike(cfg: Config, w: Room, v: Room, id: Id, p: Packet)
    requires Alike(w, v) && id in w.clients && |p.payload| < 255
    ensures id in v.clients && Alike(Handle(cfg, w, id, p), Handle(cfg, v, id, p))
  {
    Look(w, v, id);
    hide Alike, Forward, LogCrc, OnHello, SendLobby, TryPair, Send, Drop;
    if Relayed(p.kind) {
      ForwardAlike(w, v, id, p);
      if p.kind == W.T_INPUT && |p.payload| >= GAME_PAYLOAD {
        LogAlike(Forward(w, id, p), Forward(v, id, p), id, p.payload);
      }
    } else if p.kind == T_HELLO {
      HelloAlike(cfg, w, v, id, p.payload);
    } else if p.kind == T_LIST {
      LobbyAlike(w, v, id);
    } else if p.kind == T_JOIN {
      TryPairAlike(cfg, w, v, id);
    } else if p.kind == T_PING {
      SendAlike(w, v, id, Frame(T_PONG, []));
    } else if p.kind == T_BYE {
      DropAlike(w, v, id);
    }
  }

  lemma {:induction false} AllAlike(cfg: Config, w: Room, v: Room, id: Id, ps: seq<Packet>)
    requires Alike(w, v) && id in w.clients && Framed(ps)
    ensures id in v.clients && Alike(HandleAll(cfg, w, id, ps), HandleAll(cfg, v, id, ps))
    decreases |ps|
  {
    Look(w, v, id);
    hide Alike, Handle;
    if ps != [] {
      AllAlike(cfg, w, v, id, ps[..|ps| - 1]);
      HandleAlike(cfg, HandleAll(cfg, w, id, ps[..|ps| - 1]), HandleAll(cfg, v, id, ps[..|ps| - 1]), id, ps[|ps| - 1]);
    }
  }

  lemma CountBadAlike(w: Room, v: Room)
    requires Alike(w, v)
    ensures Alike(CountBad(w), CountBad(v))
  {
  }

  lemma ReceiveAlike(cfg: Config, g: Hub, h: Hub, id: Id, data: seq<byte>)
    requires Alike(g.room, h.room) && g.rx == h.rx && id in g.room.clients && id in g.rx
    ensures id in h.room.clients
    ensures var x, y := Receive(cfg, g, id, data), Receive(cfg, h, id, data); Alike(x.room, y.room) && x.rx == y.rx
  {
    Look(g.room, h.room, id);
    hide Alike, HandleAll, Parse, Drop, CountBad, Framed;
    var p := Parse(g.rx[id] + data);
    ParseFrames(g.rx[id] + data);
    AllAlike(cfg, g.room, h.room, id, p.packets);
    var x, y := HandleAll(cfg, g.room, id, p.packets), HandleAll(cfg, h.room, id, p.packets);
    CountBadAlike(x, y);
    DropAlike(CountBad(x), CountBad(y), id);
  }

  lemma FlushAlike(w: Room, v: Room, id: Id, s: Sent)
    requires Alike(w, v) && id in w.clients && (s.Took? ==> s.n <= |w.clients[id].tx|)
    ensures id in v.clients && (s.Took? ==> s.n <= |v.clients[id].tx|) && Alike(Flush(w, id, s), Flush(v, id, s))
  {
    Look(w, v, id);
    SameOutput(w.clients[id], v.clients[id]);
    hide Alike, Drop, Put, Flush, SameClient, Overfull;
    var c, d := w.clients[id], v.clients[id];
    if c.tx == [] {
      FlushIs(w, id, s, []);
      FlushIs(v, id, s, []);
    } else if s.Broken? {
      FlushIs(w, id, s, []);
      FlushIs(v, id, s, []);
      DropAlike(w, v, id);
    } else {
      var left := if s.Took? then c.tx[s.n..] else c.tx;
      FlushIs(w, id, s, left);
      FlushIs(v, id, s, left);
      PutAlike(w, v, id, c.(tx := left), d.(tx := left));
      OverfullAlike(Put(w, id, c.(tx := left)), Put(v, id, d.(tx := left)), id, |left| > MAX_BACKLOG);
    }
  }

  lemma SameOutput(c: Client, d: Client)
    requires SameClient(c, d)
    ensures d.tx == c.tx && forall tx :: SameClient(c.(tx := tx), d.(tx := tx))
  {
  }

  lemma FlushIs(w: Room, id: Id, s: Sent, left: seq<byte>)
    requires id in w.clients && (s.Took? ==> s.n <= |w.clients[id].tx|)
    ensures var c := w.clients[id];
            && (c.tx == [] ==> Flush(w, id, s) == w)
            && (c.tx != [] && s.Broken? ==> Flush(w, id, s) == Drop(w, id))
            && (c.tx != [] && !s.Broken? && left == (if s.Took? then c.tx[s.n..] else c.tx) ==>
                  Flush(w, id, s) == Overfull(Put(w, id, c.(tx := left)), id, |left| > MAX_BACKLOG))
  {
    hide Drop;
  }

  /** A client too far behind, counted. */
  function Behind(w: Room): (r: Room)
    ensures r.clients == w.clients
  {
    w.(stats := w.stats.(txDrops := w.stats.txDrops + 1))
  }

  /** The backlog check after a send. */
  function Overfull(w: Room, id: Id, over: bool): Room
    requires id in w.clients
  {
    if over then Drop(Behind(w), id) else w
  }

  lemma OverfullAlike(w: Room, v: Room, id: Id, over: bool)
    requires Alike(w, v) && id in w.clients
    ensures id in v.clients && Alike(Overfull(w, id, over), Overfull(v, id, over))
  {
    hide Drop;
    if over {
      DropAlike(Behind(w), Behind(v), id);
    }
  }

  lemma {:induction false} FromAddressAlike(w: Room, v: Room, ip: int, n: nat)
    requires Alike(w, v) && n <= |w.order|
    ensures FromAddress(v, ip, n) == FromAddress(w, ip, n)
  {
    if n > 0 {
      FromAddressAlike(w, v, ip, n - 1);
      hide Alike;
      Look(w, v, w.order[n - 1]);
    }
  }

  lemma AcceptAlike(w: Room, v: Room, id: Id, ip: int, born: int)
    requires Alike(w, v)
    ensures Alike(Accept(w, id, ip, born), Accept(v, id, ip, born))
  {
    FromAddressAlike(w, v, ip, |w.order|);
    hide FromAddress;
  }

  lemma StepAlike(cfg: Config, g: Hub, h: Hub, e: Event)
    requires Alike(g.room, h.room) && g.rx == h.rx && Enabled(g, e)
    ensures Enabled(h, e) && Alike(Step(cfg, g, e).room, Step(cfg, h, e).room) && Step(cfg, g, e).rx == Step(cfg, h, e).rx
  {
    Look(g.room, h.room, e.id);
    SameBirths(g.room, h.room);
    hide Alike, Receive, Flush, Drop, Accept;
    match e {
      case Connect(id, ip, born) => AcceptAlike(g.room, h.room, id, ip, born);
      case Bytes(id, data) => ReceiveAlike(cfg, g, h, id, data);
      case Hangup(id) => DropAlike(g.room, h.room, id);
      case Drain(id, s) => FlushAlike(g.room, h.room, id, s);
    }
  }

  lemma SameBirths(w: Room, v: Room)
    requires Alike(w, v)
    ensures forall k :: k in w.clients ==> k in v.clients && v.clients[k].born == w.clients[k].born
  {
  }
}
