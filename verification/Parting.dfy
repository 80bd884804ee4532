/** Where the C port parts from the Python server it follows: two frames, neither of which the ROM ever
    sends, after which the Python server is not there to be followed. */
module Parting {
  import opened Bytes
  import opened Relay
  import W = Wire

  /** A JOIN from a console without a name while somebody waits, on which the Python server raises and
      stops; or a HELLO whose name is still taken after a thousand draws, on which it goes on drawing
      and the port drops the console. */
  predicate Parts(cfg: Config, w: Room, id: Id, p: Packet)
    requires id in w.clients
  {
    || (p.kind == T_JOIN && Raises(cfg, w, id))
    || (!cfg.port && p.kind == T_HELLO && Asked(p.payload).Some?
        && Resolve(cfg, w.names, Asked(p.payload).value, w.drawn, MAX_TRIES).None?)
  }

  lemma {:induction false} SameDraws(cfg: Config, names: map<Name, Id>, name: Name, at: nat, tries: nat)
    ensures Resolve(Port(cfg), names, name, at, tries) == Resolve(cfg, names, name, at, tries)
    decreases tries
  {
    if name in names && tries > 0 {
      SameDraws(cfg, names, Variant(name, cfg.digits(at)), at + 1, tries - 1);
    }
  }

  lemma SamePair(cfg: Config, w: Room, id: Id)
    requires id in w.clients
    ensures !Raises(cfg, w, id) ==> TryPair(Port(cfg), w, id) == TryPair(cfg, w, id)
    ensures TryPair(Port(cfg), w, id).stuck == w.stuck
    ensures Raises(cfg, w, id) ==> TryPair(cfg, w, id) == w.(stuck := true)
  {
    hide Oldest, Pad;
  }

  lemma HelloParts(cfg: Original, w: Room, id: Id, payload: seq<byte>)
    requires id in w.clients
    ensures var p := Packet(T_HELLO, payload);
            && (!Parts(cfg, w, id, p) ==> OnHello(Port(cfg), w, id, payload) == OnHello(cfg, w, id, payload))
            && (Parts(cfg, w, id, p) ==> OnHello(cfg, w, id, payload) == w.(stuck := true))
            && OnHello(Port(cfg), w, id, payload).stuck == w.stuck
  {
    hide Asked, Resolve, TryPair, Drop;
    DropStaysStuck(w, id);
    if Asked(payload).Some? {
      var name := Asked(payload).value;
      SameDraws(cfg, w.names, name, w.drawn, MAX_TRIES);
      var free := Resolve(cfg, w.names, name, w.drawn, MAX_TRIES);
      if free.Some? {
        SamePair(cfg, Rename(w, id, free.value.0, free.value.1), id);
      }
    }
  }

  lemma DropStaysStuck(w: Room, id: Id)
    requires id in w.clients
    ensures Drop(w, id).stuck == w.stuck
  {
    hide Without, Unname, Frame;
  }

  lemma TalkStaysStuck(w: Room, id: Id, p: Packet)
    requires id in w.clients && |p.payload| < 255
    ensures Forward(w, id, p).stuck == w.stuck && SendLobby(w, id).stuck == w.stuck
    ensures |p.payload| >= GAME_PAYLOAD ==> LogCrc(w, id, p.payload).stuck == w.stuck
  {
    hide Find, Newest, SetEntry, DropEntry, LapAfter, Pad, Listed, LobbyRows;
  }

  /** One frame parts the two servers if and only if it is one of those: then the Python room is marked,
      and otherwise they go on with the same room. */
  lemma FramePartsExactly(cfg: Original, w: Room, id: Id, p: Packet)
    requires id in w.clients && |p.payload| < 255
    ensures !Parts(cfg, w, id, p) ==> Handle(Port(cfg), w, id, p) == Handle(cfg, w, id, p)
    ensures Handle(cfg, w, id, p).stuck <==> w.stuck || Parts(cfg, w, id, p)
    ensures Handle(Port(cfg), w, id, p).stuck == w.stuck
    ensures !w.stuck ==> (Handle(Port(cfg), w, id, p) == Handle(cfg, w, id, p) <==> !Parts(cfg, w, id, p))
  {
    TalkStaysStuck(w, id, p);
    DropStaysStuck(w, id);
    hide Forward, LogCrc, OnHello, TryPair, SendLobby, Drop, Frame, Asked, Resolve, Raises;
    if p.kind == T_HELLO {
      HelloParts(cfg, w, id, p.payload);
    } else if p.kind == T_JOIN {
      SamePair(cfg, w, id);
    } else if Relayed(p.kind) && p.kind == W.T_INPUT && |p.payload| >= GAME_PAYLOAD {
      TalkStaysStuck(Forward(w, id, p), id, p);
    }
  }

  /** A JOIN, then, parts them exactly when its sender has no name and somebody waits. */
  lemma JoinPartsExactly(cfg: Original, w: Room, id: Id)
    requires id in w.clients && !w.stuck
    ensures var p := Packet(T_JOIN, []);
            Handle(Port(cfg), w, id, p) != Handle(cfg, w, id, p) <==>
              w.clients[id].name == [] && exists k :: 0 <= k < |w.order| && Waits(w, id, w.order[k])
  {
    FramePartsExactly(cfg, w, id, Packet(T_JOIN, []));
    hide Handle;
    var o := Oldest(w, id, |w.order|);
    if o.Some? {
      assert o.value in w.order;
    }
  }

  // ---- receives, events and runs --------------------------------------------------------

  ghost predicate Calm(cfg: Config, w: Room, id: Id, ps: seq<Packet>)
    requires id in w.clients && Framed(ps)
    decreases |ps|
  {
    ps == [] || (Calm(cfg, w, id, ps[..|ps| - 1])
                 && !Parts(cfg, HandleAll(cfg, w, id, ps[..|ps| - 1]), id, ps[|ps| - 1]))
  }

  lemma {:induction false} CalmIsSame(cfg: Original, w: Room, id: Id, ps: seq<Packet>)
    requires id in w.clients && Framed(ps)
    ensures Calm(cfg, w, id, ps) ==> HandleAll(Port(cfg), w, id, ps) == HandleAll(cfg, w, id, ps)
    ensures HandleAll(cfg, w, id, ps).stuck <==> w.stuck || !Calm(cfg, w, id, ps)
    ensures HandleAll(Port(cfg), w, id, ps).stuck == w.stuck
    decreases |ps|
  {
    hide Handle, Parts;
    if ps != [] {
      CalmIsSame(cfg, w, id, ps[..|ps| - 1]);
      FramePartsExactly(cfg, HandleAll(cfg, w, id, ps[..|ps| - 1]), id, ps[|ps| - 1]);
      FramePartsExactly(cfg, HandleAll(Port(cfg), w, id, ps[..|ps| - 1]), id, ps[|ps| - 1]);
    }
  }

  /** Bytes that hold no such frame. */
  ghost predicate CalmBytes(cfg: Config, h: Hub, id: Id, data: seq<byte>)
    requires id in h.room.clients && id in h.rx
  {
    ParseFrames(h.rx[id] + data);
    Calm(cfg, h.room, id, Parse(h.rx[id] + data).packets)
  }

  lemma ReceivePartsExactly(cfg: Original, h: Hub, id: Id, data: seq<byte>)
    requires id in h.room.clients && id in h.rx
    ensures CalmBytes(cfg, h, id, data) ==> Receive(Port(cfg), h, id, data) == Receive(cfg, h, id, data)
    ensures Receive(cfg, h, id, data).room.stuck <==> h.room.stuck || !CalmBytes(cfg, h, id, data)
    ensures Receive(Port(cfg), h, id, data).room.stuck == h.room.stuck
  {
    var p := Parse(h.rx[id] + data);
    ParseFrames(h.rx[id] + data);
    CalmIsSame(cfg, h.room, id, p.packets);
    DropStaysStuck(CountBad(HandleAll(cfg, h.room, id, p.packets)), id);
    DropStaysStuck(CountBad(HandleAll(Port(cfg), h.room, id, p.packets)), id);
    hide HandleAll, Calm, Drop, Parse;
  }

  ghost predicate CalmEvent(cfg: Config, h: Hub, e: Event)
    requires Enabled(h, e)
  {
    e.Bytes? ==> CalmBytes(cfg, h, e.id, e.data)
  }

  ghost predicate CalmRun(cfg: Config, es: seq<Event>)
    requires Runs(cfg, EMPTY, es)
    decreases |es|
  {
    es == [] || (CalmRun(cfg, es[..|es| - 1]) && CalmEvent(cfg, Exec(cfg, EMPTY, es[..|es| - 1]), es[|es| - 1]))
  }

  lemma FlushStaysStuck(w: Room, id: Id, s: Sent)
    requires id in w.clients && (s.Took? ==> s.n <= |w.clients[id].tx|)
    ensures Flush(w, id, s).stuck == w.stuck
  {
    hide Drop;
    DropStaysStuck(w, id);
    var c := w.clients[id];
    var w1 := Put(w, id, c.(tx := if s.Took? then c.tx[s.n..] else c.tx));
    DropStaysStuck(w1.(stats := w1.stats.(txDrops := w1.stats.txDrops + 1)), id);
  }

  lemma StepPartsExactly(cfg: Original, h: Hub, e: Event)
    requires Enabled(h, e)
    ensures CalmEvent(cfg, h, e) ==> Step(Port(cfg), h, e) == Step(cfg, h, e)
    ensures Step(cfg, h, e).room.stuck <==> h.room.stuck || !CalmEvent(cfg, h, e)
    ensures Step(Port(cfg), h, e).room.stuck == h.room.stuck
  {
    hide Receive, CalmBytes, Accept, Flush, Drop;
    match e {
      case Connect(id, ip, born) => AcceptStaysStuck(h.room, id, ip, born);
      case Bytes(id, data) => ReceivePartsExactly(cfg, h, id, data);
      case Hangup(id) => DropStaysStuck(h.room, id);
      case Drain(id, s) => FlushStaysStuck(h.room, id, s);
    }
  }

  lemma AcceptStaysStuck(w: Room, id: Id, ip: int, born: int)
    ensures Accept(w, id, ip, born).stuck == w.stuck
  {
    hide FromAddress;
  }

  /** The port is never out of its room. */
  lemma {:induction false} PortGoesOn(cfg: Original, es: seq<Event>)
    requires Runs(Port(cfg), EMPTY, es)
    ensures !Exec(Port(cfg), EMPTY, es).room.stuck
    decreases |es|
  {
    hide Step, CalmEvent, Enabled;
    if es != [] {
      PortGoesOn(cfg, es[..|es| - 1]);
      StepPartsExactly(cfg, Exec(Port(cfg), EMPTY, es[..|es| - 1]), es[|es| - 1]);
    }
  }

  lemma {:induction false} CalmRunIsSame(cfg: Original, es: seq<Event>)
    requires Runs(cfg, EMPTY, es)
    ensures CalmRun(cfg, es) ==> Runs(Port(cfg), EMPTY, es) && Exec(Port(cfg), EMPTY, es) == Exec(cfg, EMPTY, es)
    ensures Exec(cfg, EMPTY, es).room.stuck <==> !CalmRun(cfg, es)
    decreases |es|
  {
    hide Step, CalmEvent, Enabled;
    if es != [] {
      CalmRunIsSame(cfg, es[..|es| - 1]);
      StepPartsExactly(cfg, Exec(cfg, EMPTY, es[..|es| - 1]), es[|es| - 1]);
    }
  }

  /** On whole runs: the port, told the same, has the same room in everything if and only if no such frame
      has been handled. */
  lemma RunsPartExactly(cfg: Original, es: seq<Event>)
    requires Runs(cfg, EMPTY, es)
    ensures Runs(Port(cfg), EMPTY, es) && Exec(Port(cfg), EMPTY, es) == Exec(cfg, EMPTY, es) <==> CalmRun(cfg, es)
  {
    CalmRunIsSame(cfg, es);
    if Runs(Port(cfg), EMPTY, es) {
      PortGoesOn(cfg, es);
    }
  }
}
