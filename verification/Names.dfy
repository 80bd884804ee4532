/** The name table says who is here: with the ROM's discipline a name is taken exactly as long as a live
    console plays under it. */
module Names {
  import opened Bytes
  import opened Relay
  import opened Pairing

  /** Every name in the table is that of the live client it leads to. */
  ghost predicate Current(w: Room) {
    forall n :: n in w.names ==>
      n != [] && Live(w, w.names[n]) && w.names[n] in w.clients && w.clients[w.names[n]].name == n
  }

  lemma AlikeStaysCurrent(w: Room, r: Room)
    requires Current(w) && NamesAlike(w, r)
    ensures Current(r)
  {
  }

  lemma RenameStaysCurrent(w: Room, id: Id, name: Name, drawn: nat)
    requires Current(w) && id in w.clients && Live(w, id) && w.clients[id].name == [] && name != []
    ensures Current(Rename(w, id, name, drawn))
  {
  }

  lemma DropStaysCurrent(w: Room, id: Id)
    requires Current(w) && id in w.clients
    ensures Current(Drop(w, id))
  {
    hide Frame;
    var r := Drop(w, id);
    forall n | n in r.names
      ensures n != [] && Live(r, r.names[n]) && r.names[n] in r.clients && r.clients[r.names[n]].name == n
    {
      assert n in w.names && r.names[n] == w.names[n];
    }
  }

  lemma OthersStayCurrent(w: Room, r: Room)
    requires Current(w) && r.clients == w.clients && r.order == w.order && r.names == w.names
    ensures Current(r)
  {
  }

  lemma HelloStaysCurrent(cfg: Config, w: Room, id: Id, payload: seq<byte>)
    requires Current(w) && id in w.clients && Live(w, id) && w.clients[id].name == []
    ensures Current(OnHello(cfg, w, id, payload))
  {
    hide Current, Resolve, Asked, TryPair, Drop, NamesAlike;
    DropStaysCurrent(w, id);
    if Asked(payload).Some? {
      var free := Resolve(cfg, w.names, Asked(payload).value, w.drawn, MAX_TRIES);
      if free.Some? {
        var z := Rename(w, id, free.value.0, free.value.1);
        RenameStaysCurrent(w, id, free.value.0, free.value.1);
        PairedAlike(cfg, z, id);
        AlikeStaysCurrent(z, TryPair(cfg, z, id));
      } else {
        OthersStayCurrent(w, w.(stuck := true));
        OthersStayCurrent(Drop(w, id), GiveUp(Port(cfg), w, id));
      }
    }
  }

  lemma PairedAlike(cfg: Config, w: Room, id: Id)
    requires id in w.clients
    ensures NamesAlike(w, TryPair(cfg, w, id))
  {
    hide TryPair;
    PairKeepsNames(cfg, w, id);
  }

  lemma HandleStaysCurrent(cfg: Config, w: Room, id: Id, p: Packet)
    requires Current(w) && Polite(w, id, p) && |p.payload| < 255
    ensures Current(Handle(cfg, w, id, p))
  {
    hide Current, NamesAlike, Forward, LogCrc, TryPair, OnHello, Drop, SendLobby, Send;
    if p.kind == T_HELLO {
      HelloStaysCurrent(cfg, w, id, p.payload);
    } else if p.kind == T_BYE {
      DropStaysCurrent(w, id);
    } else {
      TalkKeepsNames(cfg, w, id, p);
      AlikeStaysCurrent(w, Handle(cfg, w, id, p));
    }
  }

  lemma {:induction false} AllStayCurrent(cfg: Config, w: Room, id: Id, ps: seq<Packet>)
    requires Current(w) && id in w.clients && Framed(ps) && AllPolite(cfg, w, id, ps)
    ensures Current(HandleAll(cfg, w, id, ps))
    decreases |ps|
  {
    hide Handle, Current, Polite;
    if ps != [] {
      AllStayCurrent(cfg, w, id, ps[..|ps| - 1]);
      HandleStaysCurrent(cfg, HandleAll(cfg, w, id, ps[..|ps| - 1]), id, ps[|ps| - 1]);
    }
  }

  lemma AcceptStaysCurrent(w: Room, id: Id, ip: int, born: int)
    requires Current(w) && id !in w.clients
    ensures Current(Accept(w, id, ip, born))
  {
    hide FromAddress;
  }

  lemma FlushStaysCurrent(w: Room, id: Id, s: Sent)
    requires Current(w) && id in w.clients && (s.Took? ==> s.n <= |w.clients[id].tx|)
    ensures Current(Flush(w, id, s))
  {
    hide Current, Drop, NamesAlike;
    DropStaysCurrent(w, id);
    var c := w.clients[id];
    var w1 := Put(w, id, c.(tx := if s.Took? then c.tx[s.n..] else c.tx));
    var w2 := w1.(stats := w1.stats.(txDrops := w1.stats.txDrops + 1));
    OutputAlike(w, id, w1.clients[id].tx);
    AlikeStaysCurrent(w, w1);
    OthersStayCurrent(w1, w2);
    DropStaysCurrent(w2, id);
  }

  lemma OutputAlike(w: Room, id: Id, tx: seq<byte>)
    requires id in w.clients
    ensures NamesAlike(w, Put(w, id, w.clients[id].(tx := tx)))
  {
  }

  lemma StepStaysCurrent(cfg: Config, h: Hub, e: Event)
    requires Current(h.room) && Enabled(h, e) && PoliteEvent(cfg, h, e)
    ensures Current(Step(cfg, h, e).room)
  {
    hide Current, Accept, Drop, Flush, HandleAll, Parse, AllPolite;
    match e {
      case Connect(id, ip, born) => AcceptStaysCurrent(h.room, id, ip, born);
      case Bytes(id, data) =>
        var p := Parse(h.rx[id] + data);
        AllStayCurrent(cfg, h.room, id, p.packets);
        var r := HandleAll(cfg, h.room, id, p.packets);
        OthersStayCurrent(r, CountBad(r));
        DropStaysCurrent(CountBad(r), id);
      case Hangup(id) => DropStaysCurrent(h.room, id);
      case Drain(id, s) => FlushStaysCurrent(h.room, id, s);
    }
  }

  lemma {:induction false} RunStaysCurrent(cfg: Config, es: seq<Event>)
    requires Runs(cfg, EMPTY, es) && PoliteRun(cfg, es)
    ensures Current(Exec(cfg, EMPTY, es).room)
    decreases |es|
  {
    hide Step, PoliteEvent, Enabled;
    if es != [] {
      RunStaysCurrent(cfg, es[..|es| - 1]);
      StepStaysCurrent(cfg, Exec(cfg, EMPTY, es[..|es| - 1]), es[|es| - 1]);
    }
  }

  /** A name is taken exactly when some live console plays under it: a console that leaves, however it
      leaves, gives its name back at once. */
  lemma TakenExactly(cfg: Config, es: seq<Event>, n: Name)
    requires Runs(cfg, EMPTY, es) && PoliteRun(cfg, es) && n != []
    ensures var w := Exec(cfg, EMPTY, es).room;
            n in w.names <==> exists i :: i in w.clients && Live(w, i) && w.clients[i].name == n
  {
    hide Exec, Runs, PoliteRun;
    RunStaysCurrent(cfg, es);
    NamesAreUnique(cfg, es);
  }
}
