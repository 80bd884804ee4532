/** Who plays whom: names stay unique, and with consoles that behave as the ROM does the partner links
    are a matching. */
module Pairing {
  import opened Bytes
  import opened Relay

  // ---- names: on every run --------------------------------------------------------------

  /** Every live named client owns its name. */
  ghost predicate NamesOwned(w: Room) {
    forall i :: Live(w, i) && i in w.clients && w.clients[i].name != [] ==>
      var n := w.clients[i].name; ValidName(n) && n in w.names && w.names[n] == i
  }

  lemma PairKeepsNames(cfg: Config, w: Room, id: Id)
    requires id in w.clients
    ensures var r := TryPair(cfg, w, id);
            && r.order == w.order && r.names == w.names
            && forall i :: i in w.clients ==> r.clients[i].name == w.clients[i].name && r.clients[i].born == w.clients[i].born
  {
    hide Oldest, StartFrame;
  }

  lemma RenameKeepsNames(w: Room, id: Id, name: Name, drawn: nat)
    requires NamesOwned(w) && id in w.clients && ValidName(name) && name !in w.names
    ensures NamesOwned(Rename(w, id, name, drawn))
  {
    hide ValidName;
    var r := Rename(w, id, name, drawn);
    forall i | Live(r, i) && i in r.clients && r.clients[i].name != []
      ensures var n := r.clients[i].name; ValidName(n) && n in r.names && r.names[n] == i
    {
      if i != id {
        assert Live(w, i) && r.clients[i] == w.clients[i];
      }
    }
  }

  lemma DropKeepsNames(w: Room, id: Id)
    requires NamesOwned(w) && id in w.clients
    ensures NamesOwned(Drop(w, id))
  {
    hide ValidName;
    var r := Drop(w, id);
    forall i | Live(r, i) && i in r.clients && r.clients[i].name != []
      ensures var n := r.clients[i].name; ValidName(n) && n in r.names && r.names[n] == i
    {
      assert Live(w, i) && r.clients[i].name == w.clients[i].name;
    }
  }

  lemma HelloKeepsNames(cfg: Config, w: Room, id: Id, payload: seq<byte>)
    requires NamesOwned(w) && id in w.clients
    ensures NamesOwned(OnHello(cfg, w, id, payload))
  {
    hide NamesOwned, Resolve, Asked, TryPair, Drop, ValidName;
    if Asked(payload).None? {
      DropKeepsNames(w, id);
    } else {
      var free := Resolve(cfg, w.names, Asked(payload).value, w.drawn, MAX_TRIES);
      if free.Some? {
        RenameKeepsNames(w, id, free.value.0, free.value.1);
        var z := Rename(w, id, free.value.0, free.value.1);
        PairKeepsNames(cfg, z, id);
        SameNames(z, TryPair(cfg, z, id));
      } else {
        DropKeepsNames(w, id);
        SameNames(w, w.(stuck := true));
        SameNames(Drop(w, id), GiveUp(Port(cfg), w, id));
      }
    }
  }

  /** Steps that leave names, live clients and birth times alone. */
  ghost predicate NamesAlike(w: Room, r: Room) {
    && r.order == w.order && r.names == w.names && r.clients.Keys == w.clients.Keys
    && forall i :: i in w.clients ==> r.clients[i].name == w.clients[i].name && r.clients[i].born == w.clients[i].born
  }

  lemma SameNames(w: Room, r: Room)
    requires NamesAlike(w, r)
    ensures NamesOwned(w) ==> NamesOwned(r)
  {
  }

  /** Steps that leave every link alone as well: only outputs and checksums move. */
  ghost predicate LinksAlike(w: Room, r: Room) {
    && r.order == w.order && r.names == w.names && r.clients.Keys == w.clients.Keys
    && forall i :: i in w.clients ==>
         && r.clients[i].name == w.clients[i].name && r.clients[i].born == w.clients[i].born
         && r.clients[i].partner == w.clients[i].partner && r.clients[i].role == w.clients[i].role
  }

  lemma LinksTrans(a: Room, b: Room, c: Room)
    requires LinksAlike(a, b) && LinksAlike(b, c)
    ensures LinksAlike(a, c)
  {
  }

  lemma PutChecksums(w: Room, i: Id, crc: seq<Entry>, lap: nat, last: Option<byte>)
    requires i in w.clients
    ensures LinksAlike(w, Put(w, i, w.clients[i].(crc := crc, lap := lap, last := last)))
    ensures var r := Put(w, i, w.clients[i].(crc := crc, lap := lap, last := last));
            forall j :: j in w.clients ==> r.clients[j].tx == w.clients[j].tx
  {
  }

  /** The checksum log moves nothing but checksums and the two counts. */
  lemma LogKeepsLinks(w: Room, id: Id, payload: seq<byte>)
    requires id in w.clients && |payload| >= GAME_PAYLOAD
    ensures LinksAlike(w, LogCrc(w, id, payload))
    ensures forall j :: j in w.clients ==> LogCrc(w, id, payload).clients[j].tx == w.clients[j].tx
  {
    hide Find, SetEntry, Newest, DropEntry, LapAfter, Put, LinksAlike;
    var c, tick, crc := w.clients[id], payload[0], payload[4];
    var lap := LapAfter(c.lap, c.last, tick);
    var key := lap * 256 + tick;
    var m := SetEntry(c.crc, key, crc);
    var w1 := Put(w, id, c.(lap := lap, last := Some(tick), crc := m));
    PutChecksums(w, id, m, lap, Some(tick));
    PutItself(w, id);
    var me := w1.clients[id];
    PutChecksums(w1, id, Newest(me.crc, 8), me.lap, me.last);
    LinksTrans(w, w1, Put(w1, id, me.(crc := Newest(me.crc, 8))));
    if c.partner.Some? && c.partner.value in w1.clients {
      var p := w1.clients[c.partner.value];
      var i := Find(p.crc, key);
      if i < |p.crc| {
        PutChecksums(w1, c.partner.value, DropEntry(p.crc, i), p.lap, p.last);
        var w2 := Put(w1, c.partner.value, p.(crc := DropEntry(p.crc, i)));
        LinksTrans(w, w1, w2);
        CountsOnly(w2, LogCrc(w, id, payload).stats);
        LinksTrans(w, w2, w2.(stats := LogCrc(w, id, payload).stats));
      }
    }
  }

  lemma PutItself(w: Room, id: Id)
    requires id in w.clients
    ensures forall c :: Put(w, id, c).clients[id] == c
  {
  }

  lemma CountsOnly(w: Room, stats: Stats)
    ensures LinksAlike(w, w.(stats := stats))
  {
  }

  lemma SendKeepsLinks(w: Room, id: Id, data: seq<byte>)
    ensures LinksAlike(w, Send(w, id, data))
  {
  }

  /** Everything but HELLO, JOIN and BYE leaves every link alone. */
  lemma TalkKeepsLinks(cfg: Config, w: Room, id: Id, p: Packet)
    requires id in w.clients && |p.payload| < 255 && p.kind !in {T_HELLO, T_BYE, T_JOIN}
    ensures LinksAlike(w, Handle(cfg, w, id, p))
  {
    hide LogCrc, Frame, LobbyRows, Listed, Pad, Send, LinksAlike;
    CountsOnly(w, w.stats);
    if Relayed(p.kind) {
      var partner := w.clients[id].partner;
      if partner.Some? {
        SendKeepsLinks(w, partner.value, Frame(p.kind, Pad(p.payload, GAME_PAYLOAD)));
      }
      var w1 := Forward(w, id, p);
      if |p.payload| >= GAME_PAYLOAD {
        LogKeepsLinks(w1, id, p.payload);
        LinksTrans(w, w1, LogCrc(w1, id, p.payload));
      }
    } else if p.kind == T_LIST {
      SendKeepsLinks(w, id, Frame(T_LOBBY, [|Listed(w, |w.order|)|] + LobbyRows(w, Listed(w, |w.order|))));
    } else {
      SendKeepsLinks(w, id, Frame(T_PONG, []));
    }
  }

  lemma TalkKeepsNames(cfg: Config, w: Room, id: Id, p: Packet)
    requires id in w.clients && |p.payload| < 255 && p.kind != T_HELLO && p.kind != T_BYE
    ensures NamesAlike(w, Handle(cfg, w, id, p))
  {
    hide TryPair, LogCrc, Forward, SendLobby, Send;
    if p.kind == T_JOIN {
      PairKeepsNames(cfg, w, id);
    } else {
      TalkKeepsLinks(cfg, w, id, p);
    }
  }

  lemma HandleKeepsNames(cfg: Config, w: Room, id: Id, p: Packet)
    requires NamesOwned(w) && id in w.clients && |p.payload| < 255
    ensures NamesOwned(Handle(cfg, w, id, p))
  {
    hide NamesOwned, NamesAlike, Forward, LogCrc, TryPair, OnHello, Drop, SendLobby, Send;
    if p.kind == T_HELLO {
      HelloKeepsNames(cfg, w, id, p.payload);
    } else if p.kind == T_BYE {
      DropKeepsNames(w, id);
    } else {
      TalkKeepsNames(cfg, w, id, p);
      SameNames(w, Handle(cfg, w, id, p));
    }
  }

  lemma {:induction false} AllKeepNames(cfg: Config, w: Room, id: Id, ps: seq<Packet>)
    requires NamesOwned(w) && id in w.clients && Framed(ps)
    ensures NamesOwned(HandleAll(cfg, w, id, ps))
    decreases |ps|
  {
    hide Handle, NamesOwned;
    if ps != [] {
      AllKeepNames(cfg, w, id, ps[..|ps| - 1]);
      HandleKeepsNames(cfg, HandleAll(cfg, w, id, ps[..|ps| - 1]), id, ps[|ps| - 1]);
    }
  }

  lemma AcceptKeepsNames(w: Room, id: Id, ip: int, born: int)
    requires NamesOwned(w) && id !in w.clients
    ensures NamesOwned(Accept(w, id, ip, born))
  {
    hide FromAddress, ValidName;
    var r := Accept(w, id, ip, born);
    forall i | Live(r, i) && i in r.clients && r.clients[i].name != []
      ensures var n := r.clients[i].name; ValidName(n) && n in r.names && r.names[n] == i
    {
      assert i != id && Live(w, i) && r.clients[i] == w.clients[i];
    }
  }

  lemma OutputKeepsNames(w: Room, id: Id, tx: seq<byte>)
    requires NamesOwned(w) && id in w.clients
    ensures NamesOwned(Put(w, id, w.clients[id].(tx := tx)))
  {
    SameNames(w, Put(w, id, w.clients[id].(tx := tx)));
  }

  lemma BehindKeepsNames(w: Room, id: Id)
    requires NamesOwned(w) && id in w.clients
    ensures NamesOwned(Drop(w.(stats := w.stats.(txDrops := w.stats.txDrops + 1)), id))
  {
    var r := w.(stats := w.stats.(txDrops := w.stats.txDrops + 1));
    SameNames(w, r);
    DropKeepsNames(r, id);
  }

  lemma FlushKeepsNames(w: Room, id: Id, s: Sent)
    requires NamesOwned(w) && id in w.clients && (s.Took? ==> s.n <= |w.clients[id].tx|)
    ensures NamesOwned(Flush(w, id, s))
  {
    hide NamesOwned, Drop, Put;
    var c := w.clients[id];
    DropKeepsNames(w, id);
    var left := if s.Took? then c.tx[s.n..] else c.tx;
    OutputKeepsNames(w, id, left);
    BehindKeepsNames(Put(w, id, c.(tx := left)), id);
  }

  lemma StepKeepsNames(cfg: Config, h: Hub, e: Event)
    requires NamesOwned(h.room) && Enabled(h, e)
    ensures NamesOwned(Step(cfg, h, e).room)
  {
    hide NamesOwned, Accept, Drop, Flush, HandleAll, Parse;
    match e {
      case Connect(id, ip, born) => AcceptKeepsNames(h.room, id, ip, born);
      case Bytes(id, data) =>
        var p := Parse(h.rx[id] + data);
        ParseFrames(h.rx[id] + data);
        AllKeepNames(cfg, h.room, id, p.packets);
        var r := HandleAll(cfg, h.room, id, p.packets);
        SameNames(r, CountBad(r));
        DropKeepsNames(CountBad(r), id);
      case Hangup(id) => DropKeepsNames(h.room, id);
      case Drain(id, s) => FlushKeepsNames(h.room, id, s);
    }
  }

  /** So no two live clients share a name. */
  predicate NoneShare(w: Room) {
    forall i, j :: i in w.clients && j in w.clients && Live(w, i) && Live(w, j) && w.clients[i].name == w.clients[j].name != [] ==>
      i == j
  }

  lemma OwnedAreUnique(w: Room)
    requires NamesOwned(w)
    ensures NoneShare(w)
  {
  }

  /** On every run, whatever the clients send, every live named client is the one its name belongs
      to, and the name is two to eight letters and digits; no two of them share one. */
  lemma {:induction false} NamesAreUnique(cfg: Config, es: seq<Event>)
    requires Runs(cfg, EMPTY, es)
    ensures NamesOwned(Exec(cfg, EMPTY, es).room) && NoneShare(Exec(cfg, EMPTY, es).room)
    decreases |es|
  {
    hide Step;
    if es != [] {
      NamesAreUnique(cfg, es[..|es| - 1]);
      StepKeepsNames(cfg, Exec(cfg, EMPTY, es[..|es| - 1]), es[|es| - 1]);
    }
    OwnedAreUnique(Exec(cfg, EMPTY, es).room);
  }

  // ---- the matching: consoles that behave as the ROM does --------------------------------

  /** The ROM's discipline for one frame: it is still connected, it says HELLO once, it never sends
      JOIN. */
  predicate Polite(w: Room, id: Id, p: Packet) {
    && Live(w, id) && id in w.clients
    && p.kind != T_JOIN
    && (p.kind == T_HELLO ==> w.clients[id].name == [])
  }

  ghost predicate AllPolite(cfg: Config, w: Room, id: Id, ps: seq<Packet>)
    requires id in w.clients && Framed(ps)
    decreases |ps|
  {
    ps == [] || (AllPolite(cfg, w, id, ps[..|ps| - 1]) && Polite(HandleAll(cfg, w, id, ps[..|ps| - 1]), id, ps[|ps| - 1]))
  }

  ghost predicate PoliteEvent(cfg: Config, h: Hub, e: Event)
    requires Enabled(h, e)
  {
    e.Bytes? ==>
      var p := Parse(h.rx[e.id] + e.data); Framed(p.packets) && AllPolite(cfg, h.room, e.id, p.packets)
  }

  ghost predicate PoliteRun(cfg: Config, es: seq<Event>)
    requires Runs(cfg, EMPTY, es)
    decreases |es|
  {
    es == [] || (PoliteRun(cfg, es[..|es| - 1]) && PoliteEvent(cfg, Exec(cfg, EMPTY, es[..|es| - 1]), es[|es| - 1]))
  }

  /** `i`'s link, if it has one, is to a live console that links back and plays the other lane. */
  ghost predicate Linked(w: Room, i: Id)
    requires i in w.clients
  {
    w.clients[i].partner.Some? ==>
      var j := w.clients[i].partner.value;
      && Live(w, j) && j in w.clients && j != i
      && w.clients[j].partner == Some(i)
      && w.clients[i].name != [] && w.clients[j].name != []
      && ((w.clients[i].role == 0 && w.clients[j].role == 1) || (w.clients[i].role == 1 && w.clients[j].role == 0))
  }

  /** The partner links of the live clients are a matching, with a host and a guest in every pair. */
  ghost predicate Matching(w: Room) {
    && (forall i :: Live(w, i) ==> i in w.clients)
    && forall i :: Live(w, i) && i in w.clients ==> Linked(w, i)
  }

  lemma LinksKeepMatching(w: Room, r: Room)
    requires LinksAlike(w, r) && Matching(w)
    ensures Matching(r)
  {
  }

  lemma PairKeepsMatching(cfg: Config, w: Room, id: Id)
    requires Matching(w) && Live(w, id) && id in w.clients
    requires w.clients[id].partner == None && w.clients[id].name != []
    ensures Matching(TryPair(cfg, w, id))
  {
    hide StartFrame;
    var r := TryPair(cfg, w, id);
    var other := Oldest(w, id, |w.order|);
    if other.Some? {
      var o := other.value;
      assert Live(w, o) && Waits(w, id, o);
      forall i | Live(r, i) && i in r.clients
        ensures Linked(r, i)
      {
        if i != id && i != o {
          assert Linked(w, i) && r.clients[i] == w.clients[i];
          if w.clients[i].partner.Some? {
            assert w.clients[w.clients[i].partner.value].partner == Some(i);
          }
        }
      }
    }
  }

  lemma RenameKeepsMatching(w: Room, id: Id, name: Name, drawn: nat)
    requires Matching(w) && id in w.clients && Live(w, id) && w.clients[id].name == [] && name != []
    ensures Matching(Rename(w, id, name, drawn)) && w.clients[id].partner == None
  {
    var r := Rename(w, id, name, drawn);
    assert Linked(w, id);
    forall i | Live(r, i) && i in r.clients
      ensures Linked(r, i)
    {
      assert Linked(w, i);
    }
  }

  lemma DropKeepsMatching(w: Room, id: Id)
    requires Matching(w) && id in w.clients
    ensures Matching(Drop(w, id))
  {
    hide Frame, Unname;
    var r := Drop(w, id);
    if Live(w, id) {
      assert Linked(w, id);
      forall i | Live(r, i) && i in r.clients
        ensures Linked(r, i)
      {
        assert Live(w, i) && Linked(w, i);
      }
    }
  }

  lemma HelloKeepsMatching(cfg: Config, w: Room, id: Id, payload: seq<byte>)
    requires Matching(w) && id in w.clients && Live(w, id) && w.clients[id].name == []
    ensures Matching(OnHello(cfg, w, id, payload))
  {
    hide Matching, Resolve, Asked, TryPair, Drop;
    if Asked(payload).None? {
      DropKeepsMatching(w, id);
    } else {
      var free := Resolve(cfg, w.names, Asked(payload).value, w.drawn, MAX_TRIES);
      if free.Some? {
        RenameKeepsMatching(w, id, free.value.0, free.value.1);
        PairKeepsMatching(cfg, Rename(w, id, free.value.0, free.value.1), id);
      } else {
        DropKeepsMatching(w, id);
        SameMatching(w, w.(stuck := true));
        SameMatching(Drop(w, id), GiveUp(Port(cfg), w, id));
      }
    }
  }

  lemma SameMatching(w: Room, r: Room)
    requires r.clients == w.clients && r.order == w.order
    ensures Matching(w) ==> Matching(r)
  {
    if Matching(w) {
      forall i | Live(r, i) && i in r.clients
        ensures Linked(r, i)
      {
        assert Linked(w, i);
      }
    }
  }

  lemma HandleKeepsMatching(cfg: Config, w: Room, id: Id, p: Packet)
    requires Matching(w) && Polite(w, id, p) && |p.payload| < 255
    ensures Matching(Handle(cfg, w, id, p))
  {
    hide Matching, LinksAlike, Forward, LogCrc, TryPair, OnHello, Drop, SendLobby, Send;
    if p.kind == T_HELLO {
      HelloKeepsMatching(cfg, w, id, p.payload);
    } else if p.kind == T_BYE {
      DropKeepsMatching(w, id);
    } else {
      TalkKeepsLinks(cfg, w, id, p);
      LinksKeepMatching(w, Handle(cfg, w, id, p));
    }
  }

  lemma {:induction false} AllKeepMatching(cfg: Config, w: Room, id: Id, ps: seq<Packet>)
    requires Matching(w) && id in w.clients && Framed(ps) && AllPolite(cfg, w, id, ps)
    ensures Matching(HandleAll(cfg, w, id, ps))
    decreases |ps|
  {
    hide Handle, Matching, Polite;
    if ps != [] {
      AllKeepMatching(cfg, w, id, ps[..|ps| - 1]);
      HandleKeepsMatching(cfg, HandleAll(cfg, w, id, ps[..|ps| - 1]), id, ps[|ps| - 1]);
    }
  }

  lemma AcceptKeepsMatching(w: Room, id: Id, ip: int, born: int)
    requires Matching(w) && id !in w.clients
    ensures Matching(Accept(w, id, ip, born))
  {
    hide FromAddress;
    var r := Accept(w, id, ip, born);
    if r.order != w.order {
      forall i | Live(r, i) && i in r.clients
        ensures Linked(r, i)
      {
        assert i != id ==> Live(w, i) && Linked(w, i);
      }
    }
  }

  lemma FlushKeepsMatching(w: Room, id: Id, s: Sent)
    requires Matching(w) && id in w.clients && (s.Took? ==> s.n <= |w.clients[id].tx|)
    ensures Matching(Flush(w, id, s))
  {
    hide Matching, Drop, LinksAlike;
    var c := w.clients[id];
    DropKeepsMatching(w, id);
    var w1 := Put(w, id, c.(tx := if s.Took? then c.tx[s.n..] else c.tx));
    var w2 := w1.(stats := w1.stats.(txDrops := w1.stats.txDrops + 1));
    PutOutput(w, id, w1.clients[id].tx);
    LinksKeepMatching(w, w1);
    SameMatching(w1, w2);
    DropKeepsMatching(w2, id);
  }

  lemma PutOutput(w: Room, id: Id, tx: seq<byte>)
    requires id in w.clients
    ensures LinksAlike(w, Put(w, id, w.clients[id].(tx := tx)))
  {
  }

  lemma StepKeepsMatching(cfg: Config, h: Hub, e: Event)
    requires Matching(h.room) && Enabled(h, e) && PoliteEvent(cfg, h, e)
    ensures Matching(Step(cfg, h, e).room)
  {
    hide Matching, Accept, Drop, Flush, HandleAll, Parse, AllPolite;
    match e {
      case Connect(id, ip, born) => AcceptKeepsMatching(h.room, id, ip, born);
      case Bytes(id, data) =>
        var p := Parse(h.rx[id] + data);
        AllKeepMatching(cfg, h.room, id, p.packets);
        var r := HandleAll(cfg, h.room, id, p.packets);
        SameMatching(r, CountBad(r));
        DropKeepsMatching(CountBad(r), id);
      case Hangup(id) => DropKeepsMatching(h.room, id);
      case Drain(id, s) => FlushKeepsMatching(h.room, id, s);
    }
  }

  /** On every run of consoles with the ROM's discipline the partner relation is a symmetric,
      irreflexive matching of live, named clients, one host and one guest in each pair. */
  lemma {:induction false} PairsAreAMatching(cfg: Config, es: seq<Event>)
    requires Runs(cfg, EMPTY, es) && PoliteRun(cfg, es)
    ensures Matching(Exec(cfg, EMPTY, es).room)
    decreases |es|
  {
    hide Step, PoliteEvent, Enabled;
    if es != [] {
      PairsAreAMatching(cfg, es[..|es| - 1]);
      StepKeepsMatching(cfg, Exec(cfg, EMPTY, es[..|es| - 1]), es[|es| - 1]);
    }
  }

  /** Why the discipline rules JOIN out: `try_pair` does not ask whether its caller is named or already
      paired. With somebody waiting, an unnamed caller is the end of the Python server, and the port
      makes a match with it; a paired one leaves its first partner linked to it one way. Otherwise the
      matching is kept, and only then. */
  lemma JoinIsSafeExactly(cfg: Config, w: Room, a: Id)
    requires Matching(w) && a in w.clients && Live(w, a) && !w.stuck
    ensures var r, waiting := Handle(cfg, w, a, Packet(T_JOIN, [])), Oldest(w, a, |w.order|).Some?;
            && (r.stuck <==> !cfg.port && waiting && w.clients[a].name == [])
            && (!r.stuck && Matching(r) <==> !waiting || (w.clients[a].partner == None && w.clients[a].name != []))
  {
    JoinIs(cfg, w, a);
    PairsOrNot(cfg, w, a);
    hide Matching, TryPair, Handle, Oldest;
    if Oldest(w, a, |w.order|).Some? && !Raises(cfg, w, a) {
      if w.clients[a].partner == None && w.clients[a].name != [] {
        PairKeepsMatching(cfg, w, a);
      } else {
        JoinBreaksTheMatching(cfg, w, a);
      }
    }
  }

  lemma JoinIs(cfg: Config, w: Room, a: Id)
    requires a in w.clients
    ensures Handle(cfg, w, a, Packet(T_JOIN, [])) == TryPair(cfg, w, a)
  {
    hide TryPair;
  }

  lemma PairsOrNot(cfg: Config, w: Room, a: Id)
    requires a in w.clients
    ensures Oldest(w, a, |w.order|) == None ==> TryPair(cfg, w, a) == w
    ensures Raises(cfg, w, a) ==> TryPair(cfg, w, a) == w.(stuck := true)
    ensures !Raises(cfg, w, a) ==> TryPair(cfg, w, a).stuck == w.stuck
  {
    hide Oldest, StartFrame;
  }

  lemma JoinBreaksTheMatching(cfg: Config, w: Room, a: Id)
    requires Matching(w) && a in w.clients && Live(w, a) && Oldest(w, a, |w.order|).Some? && !Raises(cfg, w, a)
    requires w.clients[a].partner.Some? || w.clients[a].name == []
    ensures !Matching(TryPair(cfg, w, a))
  {
    hide StartFrame, Raises;
    var r, other := TryPair(cfg, w, a), Oldest(w, a, |w.order|);
    assert Waits(w, a, other.value) && Live(r, a) && Linked(w, a);
    hide Oldest, Waits;
    if w.clients[a].partner.Some? {
      var b := w.clients[a].partner.value;
      assert Live(r, b) && r.clients[b].partner == Some(a) && r.clients[a].partner == other;
      assert !Linked(r, b);
    } else {
      assert !Linked(r, a);
    }
  }

  // ---- a match made ---------------------------------------------------------------------

  lemma StartBytes(cfg: Config, role: byte, seed: Word, name: Name)
    requires |name| <= 8
    ensures var s := StartFrame(cfg, role, seed, name);
            && |s| == 15 && s[1] == T_START && s[2] == role && (s[3] as int) + 256 * (s[4] as int) == seed as int
            && s[5] == cfg.delay && s[6] == cfg.variation && s[7..15] == Pad(name, 8)
  {
    hide Pad;
  }

  /** Both STARTs of a match are fifteen bytes and carry the same seed, delay and variation, opposite
      roles, and each other's name; nobody else hears of it. */
  lemma BothStartsAgree(cfg: Config, w: Room, id: Id, o: Id) returns (host: seq<byte>, guest: seq<byte>)
    requires NamesOwned(w) && id in w.clients && Live(w, id) && w.clients[id].name != []
    requires Oldest(w, id, |w.order|) == Some(o)
    ensures |host| == |guest| == 15 && host[1] == guest[1] == T_START
    ensures host[2] == 0 && guest[2] == 1
    ensures (host[3] as int) + 256 * (host[4] as int) == cfg.seeds(w.matched) as int && host[3..7] == guest[3..7]
    ensures host[5] == cfg.delay && host[6] == cfg.variation
    ensures host[7..15] == Pad(w.clients[id].name, 8) && guest[7..15] == Pad(w.clients[o].name, 8)
    ensures var r := TryPair(cfg, w, id);
            && r.clients[o].tx == w.clients[o].tx + host && r.clients[id].tx == w.clients[id].tx + guest
            && forall i :: i in w.clients && i != id && i != o ==> r.clients[i] == w.clients[i]
  {
    assert Waits(w, id, o) && ValidName(w.clients[id].name) && ValidName(w.clients[o].name);
    hide Oldest, ValidName, NamesOwned, StartFrame;
    var seed := cfg.seeds(w.matched);
    host, guest := StartFrame(cfg, 0, seed, w.clients[id].name), StartFrame(cfg, 1, seed, w.clients[o].name);
    StartBytes(cfg, 0, seed, w.clients[id].name);
    StartBytes(cfg, 1, seed, w.clients[o].name);
    SameMiddle(host, guest);
  }

  lemma SameMiddle(a: seq<byte>, b: seq<byte>)
    requires |a| == |b| == 15 && a[5] == b[5] && a[6] == b[6]
    requires (a[3] as int) + 256 * (a[4] as int) == (b[3] as int) + 256 * (b[4] as int)
    ensures a[3..7] == b[3..7]
  {
    assert a[3] == b[3] && a[4] == b[4];
  }

  /** Live clients are listed in the order they connected. */
  ghost predicate InOrder(w: Room) {
    && (forall k :: 0 <= k < |w.order| ==> w.order[k] in w.clients)
    && forall j, k :: 0 <= j < k < |w.order| ==> w.clients[w.order[j]].born <= w.clients[w.order[k]].born
  }

  /** So the host is the one that has waited longest: the first in the list. */
  lemma {:induction false} HostWaitedLongest(w: Room, id: Id, n: nat)
    requires InOrder(w) && 0 < n <= |w.order| && Oldest(w, id, n).Some?
    ensures exists k :: 0 <= k < n && w.order[k] == Oldest(w, id, n).value && forall j :: 0 <= j < k ==> !Waits(w, id, w.order[j])
  {
    OldestStep(w, id, n);
    hide Oldest, Waits, InOrder;
    if Oldest(w, id, n - 1).Some? {
      HostWaitedLongest(w, id, n - 1);
    }
  }

  /** A later client is not older, so it is chosen only when nobody waits before it. */
  lemma OldestStep(w: Room, id: Id, n: nat)
    requires InOrder(w) && 0 < n <= |w.order|
    ensures Oldest(w, id, n - 1).Some? ==> Oldest(w, id, n) == Oldest(w, id, n - 1)
    ensures Oldest(w, id, n - 1).None? && Oldest(w, id, n).Some? ==>
              Oldest(w, id, n).value == w.order[n - 1] && forall j :: 0 <= j < n - 1 ==> !Waits(w, id, w.order[j])
  {
    if Oldest(w, id, n - 1).Some? {
      var k :| 0 <= k < n - 1 && w.order[k] == Oldest(w, id, n - 1).value;
    }
  }

  ghost predicate Ascending(s: seq<Id>, born: map<Id, int>) {
    && (forall k :: 0 <= k < |s| ==> s[k] in born)
    && forall j, k :: 0 <= j < k < |s| ==> born[s[j]] <= born[s[k]]
  }

  lemma {:induction false} WithoutAscends(s: seq<Id>, x: Id, born: map<Id, int>)
    requires Ascending(s, born)
    ensures Ascending(Without(s, x), born)
    decreases |s|
  {
    if s != [] {
      WithoutAscends(s[1..], x, born);
      var rest := Without(s[1..], x);
      assert Without(s, x) == if s[0] == x then rest else [s[0]] + rest;
      forall k | 0 <= k < |rest|
        ensures rest[k] in born && born[s[0]] <= born[rest[k]]
      {
        assert rest[k] in s[1..];
      }
    }
  }

  lemma DropKeepsOrder(w: Room, id: Id)
    requires InOrder(w) && id in w.clients
    ensures InOrder(Drop(w, id))
  {
    var born := map i | i in w.clients :: w.clients[i].born;
    WithoutAscends(w.order, id, born);
    hide Frame, Unname, Without;
    var r := Drop(w, id);
    assert forall i :: i in w.clients ==> r.clients[i].born == born[i];
    assert Live(w, id) ==> r.order == Without(w.order, id);
    assert Ascending(r.order, born);
  }

  lemma SameOrder(w: Room, r: Room)
    requires NamesAlike(w, r)
    ensures InOrder(w) ==> InOrder(r)
  {
  }

  lemma HandleKeepsOrder(cfg: Config, w: Room, id: Id, p: Packet)
    requires InOrder(w) && id in w.clients && |p.payload| < 255
    ensures InOrder(Handle(cfg, w, id, p))
  {
    hide InOrder, NamesAlike, Forward, LogCrc, TryPair, Drop, SendLobby, Send, Resolve, Asked;
    if p.kind == T_HELLO {
      DropKeepsOrder(w, id);
      if Asked(p.payload).Some? {
        var free := Resolve(cfg, w.names, Asked(p.payload).value, w.drawn, MAX_TRIES);
        OrderOnly(w, w.(stuck := true));
        OrderOnly(Drop(w, id), GiveUp(Port(cfg), w, id));
        if free.Some? {
          var z := Rename(w, id, free.value.0, free.value.1);
          OrderOnly(w, z);
          PairKeepsOrder(cfg, z, id);
        }
      }
    } else if p.kind == T_BYE {
      DropKeepsOrder(w, id);
    } else {
      TalkKeepsNames(cfg, w, id, p);
      SameOrder(w, Handle(cfg, w, id, p));
    }
  }

  lemma OrderOnly(w: Room, r: Room)
    requires r.order == w.order && r.clients.Keys == w.clients.Keys
    requires forall i :: i in w.clients ==> r.clients[i].born == w.clients[i].born
    ensures InOrder(w) ==> InOrder(r)
  {
  }

  lemma PairKeepsOrder(cfg: Config, w: Room, id: Id)
    requires InOrder(w) && id in w.clients
    ensures InOrder(TryPair(cfg, w, id))
  {
    hide InOrder, TryPair;
    PairKeepsNames(cfg, w, id);
    OrderOnly(w, TryPair(cfg, w, id));
  }

  lemma {:induction false} AllKeepOrder(cfg: Config, w: Room, id: Id, ps: seq<Packet>)
    requires InOrder(w) && id in w.clients && Framed(ps)
    ensures InOrder(HandleAll(cfg, w, id, ps))
    decreases |ps|
  {
    hide Handle, InOrder;
    if ps != [] {
      AllKeepOrder(cfg, w, id, ps[..|ps| - 1]);
      HandleKeepsOrder(cfg, HandleAll(cfg, w, id, ps[..|ps| - 1]), id, ps[|ps| - 1]);
    }
  }

  lemma FlushKeepsOrder(w: Room, id: Id, s: Sent)
    requires InOrder(w) && id in w.clients && (s.Took? ==> s.n <= |w.clients[id].tx|)
    ensures InOrder(Flush(w, id, s))
  {
    hide InOrder, Drop;
    var c := w.clients[id];
    DropKeepsOrder(w, id);
    var w1 := Put(w, id, c.(tx := if s.Took? then c.tx[s.n..] else c.tx));
    var w2 := w1.(stats := w1.stats.(txDrops := w1.stats.txDrops + 1));
    OrderOnly(w, w1);
    OrderOnly(w, w2);
    DropKeepsOrder(w2, id);
  }

  lemma AcceptKeepsOrder(w: Room, id: Id, ip: int, born: int)
    requires InOrder(w) && id !in w.clients && forall k :: k in w.clients ==> w.clients[k].born <= born
    ensures InOrder(Accept(w, id, ip, born))
  {
    hide FromAddress;
  }

  /** On every run the host of a match is the longest-waiting idle client. */
  lemma {:induction false} OrderIsByAge(cfg: Config, es: seq<Event>)
    requires Runs(cfg, EMPTY, es)
    ensures InOrder(Exec(cfg, EMPTY, es).room)
    decreases |es|
  {
    hide InOrder, Accept, Drop, Flush, HandleAll, Parse;
    if es == [] {
      EmptyInOrder();
    } else {
      OrderIsByAge(cfg, es[..|es| - 1]);
      var h := Exec(cfg, EMPTY, es[..|es| - 1]);
      match es[|es| - 1] {
        case Connect(id, ip, born) => AcceptKeepsOrder(h.room, id, ip, born);
        case Bytes(id, data) =>
          var p := Parse(h.rx[id] + data);
          ParseFrames(h.rx[id] + data);
          AllKeepOrder(cfg, h.room, id, p.packets);
          var r := HandleAll(cfg, h.room, id, p.packets);
          OrderOnly(r, CountBad(r));
          DropKeepsOrder(CountBad(r), id);
        case Hangup(id) => DropKeepsOrder(h.room, id);
        case Drain(id, s) => FlushKeepsOrder(h.room, id, s);
      }
    }
  }

  lemma EmptyInOrder()
    ensures InOrder(EMPTY.room)
  {
  }
}
