/** The two caps on connections: exact when one is accepted, and kept on every run. */
module Caps {
  import opened Bytes
  import opened Relay

  // ---- counting -------------------------------------------------------------------------

  /** The places in the accept order taken by connections from one address. */
  function Places(w: Room, ip: int): set<nat> {
    PlacesTo(w, ip, |w.order|)
  }

  function PlacesTo(w: Room, ip: int, n: nat): set<nat>
    requires n <= |w.order|
  {
    set k | 0 <= k < n && w.order[k] in w.clients && w.clients[w.order[k]].ip == ip
  }

  lemma {:induction false} CountIsPlaces(w: Room, ip: int, n: nat)
    requires n <= |w.order|
    ensures FromAddress(w, ip, n) == |PlacesTo(w, ip, n)|
  {
    if n > 0 {
      CountIsPlaces(w, ip, n - 1);
      if w.order[n - 1] in w.clients && w.clients[w.order[n - 1]].ip == ip {
        assert PlacesTo(w, ip, n) == PlacesTo(w, ip, n - 1) + {n - 1};
      } else {
        assert PlacesTo(w, ip, n) == PlacesTo(w, ip, n - 1);
      }
    } else {
      assert PlacesTo(w, ip, 0) == {};
    }
  }

  /** A connection is taken exactly when fewer than sixty-four are live and fewer than eight of those come
      from its address; the second refusal is counted, and no refusal does anything else. */
  lemma AcceptExactly(w: Room, id: Id, ip: int, born: int)
    requires id !in w.clients
    ensures var r, taken := Accept(w, id, ip, born), |w.order| < 64 && |Places(w, ip)| < 8;
            && (taken ==> r == w.(clients := w.clients[id := Client(ip, born, [], [], None, -1, [], 0, None)],
                                  order := w.order + [id]))
            && (!taken ==> r == w.(stats := if |w.order| < 64 then w.stats.(ipRejects := w.stats.ipRejects + 1) else w.stats))
  {
    CountIsPlaces(w, ip, |w.order|);
  }

  // ---- on runs --------------------------------------------------------------------------

  function Count(cs: map<Id, Client>, s: seq<Id>, ip: int): (n: nat)
  {
    if s == [] then 0 else (if s[0] in cs && cs[s[0]].ip == ip then 1 else 0) + Count(cs, s[1..], ip)
  }

  lemma {:induction false} CountLast(cs: map<Id, Client>, s: seq<Id>, id: Id, ip: int)
    ensures Count(cs, s + [id], ip) == Count(cs, s, ip) + if id in cs && cs[id].ip == ip then 1 else 0
    decreases |s|
  {
    if s != [] {
      assert (s + [id])[1..] == s[1..] + [id];
      CountLast(cs, s[1..], id, ip);
    } else {
      assert s + [id] == [id] && [id][1..] == [];
    }
  }

  lemma {:induction false} CountIsFrom(w: Room, ip: int, n: nat)
    requires n <= |w.order|
    ensures FromAddress(w, ip, n) == Count(w.clients, w.order[..n], ip)
  {
    if n > 0 {
      CountIsFrom(w, ip, n - 1);
      assert w.order[..n] == w.order[..n - 1] + [w.order[n - 1]];
      CountLast(w.clients, w.order[..n - 1], w.order[n - 1], ip);
    } else {
      assert w.order[..0] == [];
    }
  }

  lemma {:induction false} FewerWithout(cs: map<Id, Client>, s: seq<Id>, x: Id, ip: int)
    ensures Count(cs, Without(s, x), ip) <= Count(cs, s, ip)
    decreases |s|
  {
    if s != [] {
      FewerWithout(cs, s[1..], x, ip);
      if s[0] != x {
        assert ([s[0]] + Without(s[1..], x))[1..] == Without(s[1..], x);
      }
    }
  }

  lemma {:induction false} SameCount(cs: map<Id, Client>, ds: map<Id, Client>, s: seq<Id>, ip: int)
    requires forall i :: i in s ==> (i in cs <==> i in ds) && (i in cs ==> cs[i].ip == ds[i].ip)
    ensures Count(cs, s, ip) == Count(ds, s, ip)
    decreases |s|
  {
    if s != [] {
      assert forall i :: i in s[1..] ==> i in s;
      SameCount(cs, ds, s[1..], ip);
    }
  }

  ghost predicate Capped(w: Room) {
    |w.order| <= 64 && (forall ip :: Count(w.clients, w.order, ip) <= 8) && forall i :: i in w.order ==> i in w.clients
  }

  /** The same connections from the same addresses, or one fewer. */
  ghost predicate Kept(w: Room, r: Room) {
    && r.clients.Keys == w.clients.Keys && (forall i :: i in w.clients ==> r.clients[i].ip == w.clients[i].ip)
    && (r.order == w.order || exists x :: r.order == Without(w.order, x))
  }

  lemma KeptIsCapped(w: Room, r: Room)
    requires Capped(w) && Kept(w, r)
    ensures Capped(r)
  {
    forall ip
      ensures Count(r.clients, r.order, ip) <= 8
    {
      SameCount(r.clients, w.clients, r.order, ip);
      if r.order != w.order {
        var x :| r.order == Without(w.order, x);
        FewerWithout(w.clients, w.order, x, ip);
      }
    }
  }

  /** Nothing about connections changes. */
  ghost predicate SameOrigins(w: Room, r: Room) {
    r.clients.Keys == w.clients.Keys && r.order == w.order && forall i :: i in w.clients ==> r.clients[i].ip == w.clients[i].ip
  }

  lemma SendIsSame(w: Room, id: Id, data: seq<byte>)
    ensures SameOrigins(w, Send(w, id, data))
  {
  }

  lemma SameTwice(w: Room, v: Room, r: Room)
    requires SameOrigins(w, v) && SameOrigins(v, r)
    ensures SameOrigins(w, r)
  {
  }

  lemma PairIsSame(cfg: Config, w: Room, id: Id)
    requires id in w.clients
    ensures SameOrigins(w, TryPair(cfg, w, id))
  {
    hide Oldest, StartFrame, Short, Raises;
  }

  lemma LogIsSame(w: Room, id: Id, payload: seq<byte>)
    requires id in w.clients && |payload| >= GAME_PAYLOAD
    ensures SameOrigins(w, LogCrc(w, id, payload))
  {
    hide Find, Newest, SetEntry, DropEntry, LapAfter;
  }

  lemma DropIsFewer(w: Room, id: Id)
    requires id in w.clients
    ensures Kept(w, Drop(w, id))
  {
    hide Unname, Frame;
  }

  lemma SameIsFewer(w: Room, r: Room)
    requires SameOrigins(w, r)
    ensures Kept(w, r)
  {
  }

  lemma RenameIsSame(w: Room, id: Id, name: Name, drawn: nat)
    requires id in w.clients
    ensures SameOrigins(w, Rename(w, id, name, drawn))
  {
  }

  lemma GivingUpIsFewer(cfg: Config, w: Room, id: Id)
    requires id in w.clients
    ensures Kept(w, GiveUp(cfg, w, id))
  {
    hide Drop;
    DropIsFewer(w, id);
    SameIsFewer(w, w.(stuck := true));
  }

  lemma HelloIsFewer(cfg: Config, w: Room, id: Id, payload: seq<byte>)
    requires id in w.clients
    ensures Kept(w, OnHello(cfg, w, id, payload))
  {
    hide Asked, Resolve, Drop, TryPair, GiveUp, Rename, SameOrigins, Kept;
    DropIsFewer(w, id);
    GivingUpIsFewer(cfg, w, id);
    if Asked(payload).Some? {
      var free := Resolve(cfg, w.names, Asked(payload).value, w.drawn, MAX_TRIES);
      if free.Some? {
        var z := Rename(w, id, free.value.0, free.value.1);
        RenameIsSame(w, id, free.value.0, free.value.1);
        PairIsSame(cfg, z, id);
        SameTwice(w, z, TryPair(cfg, z, id));
        SameIsFewer(w, TryPair(cfg, z, id));
      }
    }
  }

  lemma PassingIsSame(w: Room, id: Id, p: Packet)
    requires id in w.clients && |p.payload| < 255
    ensures SameOrigins(w, Forward(w, id, p))
    ensures |p.payload| >= GAME_PAYLOAD ==> SameOrigins(w, LogCrc(Forward(w, id, p), id, p.payload))
  {
    hide Send, LogCrc, SameOrigins, Frame, Pad;
    var partner := w.clients[id].partner;
    SelfIsSame(w);
    if partner.Some? {
      SendIsSame(w, partner.value, Frame(p.kind, Pad(p.payload, GAME_PAYLOAD)));
    }
    if |p.payload| >= GAME_PAYLOAD {
      LogIsSame(Forward(w, id, p), id, p.payload);
      SameTwice(w, Forward(w, id, p), LogCrc(Forward(w, id, p), id, p.payload));
    }
  }

  lemma SelfIsSame(w: Room)
    ensures SameOrigins(w, w)
  {
  }

  lemma LobbyIsSame(w: Room, id: Id)
    ensures SameOrigins(w, SendLobby(w, id))
  {
    hide Send, SameOrigins, Frame, Listed, LobbyRows;
    var ids := Listed(w, |w.order|);
    SendIsSame(w, id, Frame(T_LOBBY, [|ids|] + LobbyRows(w, ids)));
  }

  lemma HandleIsFewer(cfg: Config, w: Room, id: Id, p: Packet)
    requires id in w.clients && |p.payload| < 255
    ensures Kept(w, Handle(cfg, w, id, p))
  {
    hide Forward, LogCrc, OnHello, TryPair, SendLobby, Drop, Send, Frame, SameOrigins, Kept;
    if p.kind == T_HELLO {
      HelloIsFewer(cfg, w, id, p.payload);
    } else if p.kind == T_BYE {
      DropIsFewer(w, id);
    } else {
      PassingIsSame(w, id, p);
      LobbyIsSame(w, id);
      PairIsSame(cfg, w, id);
      SendIsSame(w, id, Frame(T_PONG, []));
      SelfIsSame(w);
      SameIsFewer(w, Handle(cfg, w, id, p));
    }
  }

  lemma {:induction false} AllAreCapped(cfg: Config, w: Room, id: Id, ps: seq<Packet>)
    requires id in w.clients && Framed(ps) && Capped(w)
    ensures Capped(HandleAll(cfg, w, id, ps))
    decreases |ps|
  {
    hide Handle, Capped, Kept;
    if ps != [] {
      var before := HandleAll(cfg, w, id, ps[..|ps| - 1]);
      AllAreCapped(cfg, w, id, ps[..|ps| - 1]);
      HandleIsFewer(cfg, before, id, ps[|ps| - 1]);
      KeptIsCapped(before, Handle(cfg, before, id, ps[|ps| - 1]));
    }
  }

  lemma DropIsCapped(w: Room, id: Id)
    requires id in w.clients && Capped(w)
    ensures Capped(Drop(w, id))
  {
    hide Capped, Kept, Drop;
    DropIsFewer(w, id);
    KeptIsCapped(w, Drop(w, id));
  }

  lemma SameIsCapped(w: Room, r: Room)
    requires Capped(w) && SameOrigins(w, r)
    ensures Capped(r)
  {
    hide Capped;
    KeptIsCapped(w, r);
  }

  lemma ReceiveIsCapped(cfg: Config, h: Hub, id: Id, data: seq<byte>)
    requires id in h.room.clients && id in h.rx && Capped(h.room)
    ensures Capped(Receive(cfg, h, id, data).room)
  {
    hide Capped, HandleAll, Parse, Drop;
    var p := Parse(h.rx[id] + data);
    ParseFrames(h.rx[id] + data);
    AllAreCapped(cfg, h.room, id, p.packets);
    var r := HandleAll(cfg, h.room, id, p.packets);
    SameIsCapped(r, CountBad(r));
    DropIsCapped(CountBad(r), id);
  }

  lemma FlushIsCapped(w: Room, id: Id, s: Sent)
    requires id in w.clients && (s.Took? ==> s.n <= |w.clients[id].tx|) && Capped(w)
    ensures Capped(Flush(w, id, s))
  {
    hide Capped, Drop;
    DropIsCapped(w, id);
    var c := w.clients[id];
    var w1 := Put(w, id, c.(tx := if s.Took? then c.tx[s.n..] else c.tx));
    SameIsCapped(w, w1);
    var w2 := w1.(stats := w1.stats.(txDrops := w1.stats.txDrops + 1));
    SameIsCapped(w1, w2);
    DropIsCapped(w2, id);
  }

  lemma AcceptIsCapped(w: Room, id: Id, ip: int, born: int)
    requires id !in w.clients && Capped(w)
    ensures Capped(Accept(w, id, ip, born))
  {
    var r := Accept(w, id, ip, born);
    CountIsFrom(w, ip, |w.order|);
    assert w.order[..|w.order|] == w.order;
    if r.order == w.order + [id] {
      forall x
        ensures Count(r.clients, r.order, x) <= 8
      {
        CountLast(r.clients, w.order, id, x);
        SameCount(r.clients, w.clients, w.order, x);
      }
    }
  }

  lemma StepIsCapped(cfg: Config, h: Hub, e: Event)
    requires Enabled(h, e) && Capped(h.room)
    ensures Capped(Step(cfg, h, e).room)
  {
    hide Capped, Accept, Receive, Drop, Flush;
    match e {
      case Connect(id, ip, born) => AcceptIsCapped(h.room, id, ip, born);
      case Bytes(id, data) => ReceiveIsCapped(cfg, h, id, data);
      case Hangup(id) => DropIsCapped(h.room, id);
      case Drain(id, s) => FlushIsCapped(h.room, id, s);
    }
  }

  lemma {:induction false} RunIsCapped(cfg: Config, es: seq<Event>)
    requires Runs(cfg, EMPTY, es)
    ensures Capped(Exec(cfg, EMPTY, es).room)
    decreases |es|
  {
    hide Capped, Step;
    if es == [] {
      NobodyIsCapped();
    } else {
      RunIsCapped(cfg, es[..|es| - 1]);
      StepIsCapped(cfg, Exec(cfg, EMPTY, es[..|es| - 1]), es[|es| - 1]);
    }
  }

  lemma NobodyIsCapped()
    ensures Capped(EMPTY.room)
  {
  }

  /** On every run there are never more than sixty-four connections, nor more than eight from one address. */
  lemma CapsHold(cfg: Config, es: seq<Event>, ip: int)
    requires Runs(cfg, EMPTY, es)
    ensures |Exec(cfg, EMPTY, es).room.order| <= 64 && |Places(Exec(cfg, EMPTY, es).room, ip)| <= 8
  {
    hide Exec, Runs;
    RunIsCapped(cfg, es);
    var w := Exec(cfg, EMPTY, es).room;
    CountIsFrom(w, ip, |w.order|);
    CountIsPlaces(w, ip, |w.order|);
    assert w.order[..|w.order|] == w.order;
  }
}
