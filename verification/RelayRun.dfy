/** The C port's main loop, run from its start: whatever it is told of its sockets, for as long as its
    tables have room it sends every client what the Python server would. */
module RelayRun {
  import opened Bytes
  import opened Relay
  import opened RelayStore
  import opened RelayC
  import O = Outputs
  import P = Pairing
  import T = Parting

  /** What one turn of the loop is told: a connection, `wait` after the last thing that happened; a socket
      that is readable or writable, of the readiness reports, of the flush of everyone or of the sweep;
      or that the batch is over and the dropped slots are freed. */
  datatype Notice =
    | Knock(ip: int, wait: nat)
    | Report(tag: Id, read: Option<seq<byte>>, write: Option<Sent>)
    | Reaped

  ghost predicate Sized(ns: seq<Notice>) {
    forall k :: 0 <= k < |ns| && ns[k].Report? && ns[k].read.Some? ==> |ns[k].read.value| <= MAX_RECV
  }

  /** The Python server told the same: its events, who has held a slot since the last batch ended, and the
      time. */
  datatype Turn = Turn(es: seq<Event>, held: set<Id>, now: nat)

  function Do(cfg: Config, es: seq<Event>, e: Event): (r: seq<Event>)
    requires Runs(cfg, EMPTY, es)
    ensures Runs(cfg, EMPTY, r)
    ensures Enabled(Exec(cfg, EMPTY, es), e) ==> Exec(cfg, EMPTY, r) == Step(cfg, Exec(cfg, EMPTY, es), e)
    ensures !Enabled(Exec(cfg, EMPTY, es), e) ==> r == es
  {
    assert (es + [e])[..|es|] == es;
    if Enabled(Exec(cfg, EMPTY, es), e) then es + [e] else es
  }

  function ReadEvents(cfg: Config, es: seq<Event>, tag: Id, read: Option<seq<byte>>): (r: seq<Event>)
    requires Runs(cfg, EMPTY, es) && (read.Some? ==> |read.value| <= MAX_RECV)
    ensures Runs(cfg, EMPTY, r) && Exec(cfg, EMPTY, r) == ReadIn(cfg, Exec(cfg, EMPTY, es), tag, read)
  {
    if read.None? then es
    else if read.value == [] then Do(cfg, es, Hangup(tag))
    else Do(cfg, es, Event.Bytes(tag, read.value))
  }

  function WriteEvents(cfg: Config, es: seq<Event>, tag: Id, write: Option<Sent>): (r: seq<Event>)
    requires Runs(cfg, EMPTY, es)
    ensures Runs(cfg, EMPTY, r) && Exec(cfg, EMPTY, r) == WriteOut(Exec(cfg, EMPTY, es), tag, write)
  {
    var h := Exec(cfg, EMPTY, es);
    if write.None? || !Known(h, tag) then es
    else Do(cfg, es, Drain(tag, Clip(write.value, |h.room.clients[tag].tx|)))
  }

  /** A new connection is known to the Python server as `id`. */
  function After(cfg: Config, t: Turn, n: Notice, id: Id): (r: Turn)
    requires Runs(cfg, EMPTY, t.es) && Sized([n])
    ensures Runs(cfg, EMPTY, r.es)
  {
    match n
    case Knock(ip, wait) =>
      var es := Do(cfg, t.es, Connect(id, ip, t.now + wait));
      Turn(es, if Live(Exec(cfg, EMPTY, es).room, id) then t.held + {id} else t.held, t.now + wait)
    case Report(tag, read, write) =>
      assert [n][0] == n;
      t.(es := WriteEvents(cfg, ReadEvents(cfg, t.es, tag, read), tag, write))
    case Reaped =>
      t.(held := set i | i in t.held && Live(Exec(cfg, EMPTY, t.es).room, i))
  }

  function Served(cfg: Config, ns: seq<Notice>, ids: seq<Id>): (r: Turn)
    requires Sized(ns) && |ids| == |ns|
    ensures Runs(cfg, EMPTY, r.es)
    decreases |ns|
  {
    if ns == [] then Turn([], {}, 0) else
      After(cfg, Served(cfg, ns[..|ns| - 1], ids[..|ns| - 1]), ns[|ns| - 1], ids[|ns| - 1])
  }

  // ---- when the tables have room -----------------------------------------------------------

  ghost predicate CalmRead(cfg: Config, h: Hub, tag: Id, read: Option<seq<byte>>) {
    read.Some? && read.value != [] && Known(h, tag) ==> T.CalmBytes(cfg, h, tag, read.value)
  }

  /** For a connection both caps allow, a slot: not all sixty-four held since the last batch ended. For
      what a socket says, room for the answers, and no frame that parts the two servers: no JOIN from a
      console without a name while somebody waits, nor a HELLO for a name a thousand draws do not free.
      And at the end of a batch no live client linked to a dropped one, which consoles with the ROM's
      discipline never leave. */
  ghost predicate Fit(cfg: Config, t: Turn, n: Notice)
    requires Runs(cfg, EMPTY, t.es)
  {
    var h := Exec(cfg, EMPTY, t.es);
    match n
    case Knock(ip, wait) =>
      |h.room.order| < MAX_CLIENTS && FromAddress(h.room, ip, |h.room.order|) < MAX_PER_IP ==> |t.held| < MAX_CLIENTS
    case Report(tag, read, write) => ReadyFits(Port(cfg), h, tag, read, write) && CalmRead(cfg, h, tag, read)
    case Reaped => NoDangling(h.room) || P.PoliteRun(cfg, t.es)
  }

  ghost predicate AllFit(cfg: Config, ns: seq<Notice>, ids: seq<Id>)
    requires Sized(ns) && |ids| == |ns|
    decreases |ns|
  {
    ns == [] || (AllFit(cfg, ns[..|ns| - 1], ids[..|ns| - 1])
                 && Fit(cfg, Served(cfg, ns[..|ns| - 1], ids[..|ns| - 1]), ns[|ns| - 1]))
  }

  /** And the checksum logs never full. */
  ghost predicate AllSums(cfg: Config, ns: seq<Notice>, ids: seq<Id>)
    requires Sized(ns) && |ids| == |ns|
    decreases |ns|
  {
    ns == [] || (AllSums(cfg, ns[..|ns| - 1], ids[..|ns| - 1])
                 && (ns[|ns| - 1].Report? ==>
                       ReadSums(Port(cfg), Exec(cfg, EMPTY, Served(cfg, ns[..|ns| - 1], ids[..|ns| - 1]).es),
                                ns[|ns| - 1].tag, ns[|ns| - 1].read)))
  }

  // ---- ages -----------------------------------------------------------------------------

  ghost predicate BornBy(w: Room, now: int) {
    forall i :: i in w.clients ==> w.clients[i].born <= now
  }

  ghost predicate SameBorn(w: Room, r: Room) {
    r.clients.Keys == w.clients.Keys && forall i :: i in w.clients ==> r.clients[i].born == w.clients[i].born
  }

  lemma DropKeepsBorn(w: Room, id: Id)
    requires id in w.clients
    ensures SameBorn(w, Relay.Drop(w, id)) && SameBorn(w, Relay.Drop(CountBad(w), id))
  {
    hide Frame, Without, Unname;
  }

  lemma HelloKeepsBorn(cfg: Config, w: Room, id: Id, payload: seq<byte>)
    requires id in w.clients
    ensures SameBorn(w, Relay.OnHello(cfg, w, id, payload))
  {
    DropKeepsBorn(w, id);
    hide Asked, Resolve, Relay.TryPair, Relay.Drop;
    if Asked(payload).Some? {
      var free := Resolve(cfg, w.names, Asked(payload).value, w.drawn, MAX_TRIES);
      if free.Some? {
        var y := Rename(w, id, free.value.0, free.value.1);
        assert SameBorn(w, y);
        P.PairKeepsNames(cfg, y, id);
      }
    }
  }

  lemma HandleKeepsBorn(cfg: Config, w: Room, id: Id, p: Packet)
    requires id in w.clients && |p.payload| < 255
    ensures SameBorn(w, Relay.Handle(cfg, w, id, p))
  {
    hide Relay.OnHello, Relay.Drop, Relay.TryPair, Relay.LogCrc, Relay.Forward, Relay.SendLobby, Relay.Send;
    if p.kind == T_HELLO {
      HelloKeepsBorn(cfg, w, id, p.payload);
    } else if p.kind == T_BYE {
      DropKeepsBorn(w, id);
    } else {
      P.TalkKeepsNames(cfg, w, id, p);
    }
  }

  lemma {:induction false} AllKeepBorn(cfg: Config, w: Room, id: Id, ps: seq<Packet>)
    requires id in w.clients && Framed(ps)
    ensures SameBorn(w, HandleAll(cfg, w, id, ps))
    decreases |ps|
  {
    hide Relay.Handle;
    if ps != [] {
      AllKeepBorn(cfg, w, id, ps[..|ps| - 1]);
      HandleKeepsBorn(cfg, HandleAll(cfg, w, id, ps[..|ps| - 1]), id, ps[|ps| - 1]);
    }
  }

  lemma ReadKeepsBorn(cfg: Config, h: Hub, tag: Id, read: Option<seq<byte>>)
    ensures SameBorn(h.room, ReadIn(cfg, h, tag, read).room)
  {
    hide Relay.Drop, HandleAll, Parse, CountBad, Framed;
    if read.Some? && Known(h, tag) {
      DropKeepsBorn(h.room, tag);
      if read.value != [] {
        var p := Parse(h.rx[tag] + read.value);
        ParseFrames(h.rx[tag] + read.value);
        AllKeepBorn(cfg, h.room, tag, p.packets);
        var r := HandleAll(cfg, h.room, tag, p.packets);
        DropKeepsBorn(r, tag);
      }
    }
  }

  lemma FlushKeepsBorn(w: Room, id: Id, s: Sent)
    requires id in w.clients && (s.Took? ==> s.n <= |w.clients[id].tx|)
    ensures SameBorn(w, Relay.Flush(w, id, s))
  {
    hide Relay.Drop, Relay.Flush, O.Overfull;
    var c := w.clients[id];
    var left := if s.Took? then c.tx[s.n..] else c.tx;
    O.FlushIs(w, id, s, left);
    DropKeepsBorn(w, id);
    OverfullKeepsBorn(w, id, c.(tx := left), |left| > MAX_BACKLOG);
  }

  lemma OverfullKeepsBorn(w: Room, id: Id, c: Client, over: bool)
    requires id in w.clients && c.born == w.clients[id].born
    ensures SameBorn(w, O.Overfull(Relay.Put(w, id, c), id, over))
  {
    hide Relay.Drop;
    var y := Relay.Put(w, id, c);
    DropKeepsBorn(y.(stats := y.stats.(txDrops := y.stats.txDrops + 1)), id);
  }

  lemma HeardKeepsBorn(cfg: Config, h: Hub, tag: Id, read: Option<seq<byte>>, write: Option<Sent>)
    ensures SameBorn(h.room, Heard(cfg, h, tag, read, write).room)
  {
    hide ReadIn, Relay.Flush;
    ReadKeepsBorn(cfg, h, tag, read);
    var x := ReadIn(cfg, h, tag, read);
    if write.Some? && Known(x, tag) {
      FlushKeepsBorn(x.room, tag, Clip(write.value, |x.room.clients[tag].tx|));
    }
  }

  // ---- what is heard does not depend on the checksum logs ------------------------------------

  lemma {:induction false} AllFitAlike(cfg: Config, w: Room, v: Room, id: Id, ps: seq<Packet>)
    requires O.Alike(w, v) && id in w.clients && Framed(ps) && RelayC.AllFit(cfg, w, id, ps)
    ensures id in v.clients && RelayC.AllFit(cfg, v, id, ps)
    decreases |ps|
  {
    O.Look(w, v, id);
    hide O.Alike, Roomy, Relay.Handle, HandleAll;
    if ps != [] {
      var before, p := ps[..|ps| - 1], ps[|ps| - 1];
      AllFitAlike(cfg, w, v, id, before);
      O.AllAlike(cfg, w, v, id, before);
      O.HandleAlike(cfg, HandleAll(cfg, w, id, before), HandleAll(cfg, v, id, before), id, p);
      RoomyAlike(Relay.Handle(cfg, HandleAll(cfg, w, id, before), id, p), Relay.Handle(cfg, HandleAll(cfg, v, id, before), id, p));
    }
  }

  lemma ReceiveFitsAlike(cfg: Config, h: Hub, g: Hub, id: Id, data: seq<byte>)
    requires O.Alike(h.room, g.room) && g.rx == h.rx && id in h.room.clients && id in h.rx && ReceiveFits(cfg, h, id, data)
    ensures id in g.room.clients && ReceiveFits(cfg, g, id, data)
  {
    O.ReceiveAlike(cfg, h, g, id, data);
    hide O.Alike, Roomy, Parse, RelayC.AllFit, Framed, Relay.Deliver;
    var p := Parse(h.rx[id] + data);
    AllFitAlike(cfg, h.room, g.room, id, p.packets);
    RoomyAlike(Relay.Deliver(cfg, h.room, id, p), Relay.Deliver(cfg, g.room, id, p));
  }

  lemma ReadAlike(cfg: Config, h: Hub, g: Hub, tag: Id, read: Option<seq<byte>>)
    requires O.Alike(h.room, g.room) && g.rx == h.rx
    ensures var x, y := ReadIn(cfg, h, tag, read), ReadIn(cfg, g, tag, read); O.Alike(x.room, y.room) && y.rx == x.rx
    ensures ReadFits(cfg, h, tag, read) ==> ReadFits(cfg, g, tag, read)
  {
    SameKnown(g, h, tag);
    KnownClient(h, tag);
    hide O.Alike, Roomy, ReceiveFits, Receive, Relay.Drop;
    if read.Some? && Known(h, tag) {
      if read.value == [] {
        O.DropAlike(h.room, g.room, tag);
        RoomyAlike(Relay.Drop(h.room, tag), Relay.Drop(g.room, tag));
      } else {
        O.ReceiveAlike(cfg, h, g, tag, read.value);
        if ReceiveFits(cfg, h, tag, read.value) {
          ReceiveFitsAlike(cfg, h, g, tag, read.value);
        }
      }
    }
  }

  lemma WriteAlike(h: Hub, g: Hub, tag: Id, write: Option<Sent>)
    requires O.Alike(h.room, g.room) && g.rx == h.rx
    ensures var x, y := WriteOut(h, tag, write), WriteOut(g, tag, write); O.Alike(x.room, y.room) && y.rx == x.rx
  {
    SameKnown(g, h, tag);
    O.Look(h.room, g.room, tag);
    hide O.Alike, Relay.Flush;
    if write.Some? && Known(h, tag) {
      O.FlushAlike(h.room, g.room, tag, Clip(write.value, |h.room.clients[tag].tx|));
    }
  }

  lemma HeardAlike(cfg: Config, h: Hub, g: Hub, tag: Id, read: Option<seq<byte>>, write: Option<Sent>)
    requires O.Alike(h.room, g.room) && g.rx == h.rx
    ensures var x, y := Heard(cfg, h, tag, read, write), Heard(cfg, g, tag, read, write);
            O.Alike(x.room, y.room) && y.rx == x.rx
    ensures ReadyFits(cfg, h, tag, read, write) ==> ReadyFits(cfg, g, tag, read, write)
  {
    hide O.Alike, ReadIn, WriteOut, ReadFits, Roomy;
    ReadAlike(cfg, h, g, tag, read);
    var x, y := ReadIn(cfg, h, tag, read), ReadIn(cfg, g, tag, read);
    SameKnown(y, x, tag);
    WriteAlike(x, y, tag, write);
    RoomyAlike(Heard(cfg, h, tag, read, write).room, Heard(cfg, g, tag, read, write).room);
  }

  // ---- who holds a slot -------------------------------------------------------------------

  ghost predicate HeldIs(cs: seq<Slot>, held: set<Id>) {
    && |cs| == MAX_CLIENTS
    && (forall ci :: 0 <= ci < MAX_CLIENTS && cs[ci].inUse ==> IdOf(cs, ci) in held)
    && (forall id :: id in held ==> cs[id % MAX_CLIENTS].inUse && cs[id % MAX_CLIENTS].gen == id / MAX_CLIENTS)
  }

  lemma {:induction false} FirstHeld(cs: seq<Slot>, n: nat) returns (ids: set<Id>)
    requires |cs| == MAX_CLIENTS && n <= MAX_CLIENTS
    ensures |ids| == n && forall id :: id in ids <==> id % MAX_CLIENTS < n && id == IdOf(cs, id % MAX_CLIENTS)
    decreases n
  {
    ids := {};
    if n > 0 {
      ids := FirstHeld(cs, n - 1);
      var id := IdOf(cs, n - 1);
      TagIsUnique(cs[n - 1].gen, n - 1, 0, 0);
      ids := ids + {id};
    }
  }

  /** Fewer than sixty-four held leaves a slot. */
  lemma SlotLeft(cs: seq<Slot>, held: set<Id>)
    requires HeldIs(cs, held) && |held| < MAX_CLIENTS
    ensures exists k :: 0 <= k < MAX_CLIENTS && !cs[k].inUse
  {
    if forall k :: 0 <= k < MAX_CLIENTS ==> cs[k].inUse {
      var ids := FirstHeld(cs, MAX_CLIENTS);
      assert ids <= held;
      SubsetSize(ids, held);
    }
  }

  lemma {:induction false} SubsetSize(a: set<Id>, b: set<Id>)
    requires a <= b
    ensures |a| <= |b|
    decreases |a|
  {
    if a != {} {
      var x :| x in a;
      SubsetSize(a - {x}, b - {x});
    }
  }

  lemma HeldHanded(cs: seq<Slot>, zs: seq<Slot>, held: set<Id>)
    requires HeldIs(cs, held) && Handed(cs, zs)
    ensures HeldIs(zs, held)
  {
  }

  lemma HeldAllocated(st: Store, slot: nat, ip: int, born: int, held: set<Id>, z: Store, id: Id)
    requires HeldIs(st.cs, held) && Index(slot) && !st.cs[slot].inUse
    requires z == Allocated(st, slot, ip, born) && id == IdOf(st.cs, slot)
    ensures HeldIs(z.cs, held + {id})
  {
    TagIsUnique(st.cs[slot].gen, slot, 0, 0);
  }

  /** The end of a batch: who is live goes on holding a slot. */
  lemma HeldReaped(st: Store, g: Hub, zs: seq<Slot>, held: set<Id>)
    requires Models(st, g) && HeldIs(st.cs, held) && |zs| == MAX_CLIENTS
    requires forall k :: 0 <= k < MAX_CLIENTS ==> zs[k] == Freed(st.cs[k])
    ensures HeldIs(zs, set i | i in held && Live(g.room, i))
  {
    forall ci | 0 <= ci < MAX_CLIENTS && zs[ci].inUse
      ensures IdOf(zs, ci) in held && Live(g.room, IdOf(zs, ci))
    {
      TagIsUnique(st.cs[ci].gen, ci, 0, 0);
      TagTells(st, g, IdOf(st.cs, ci));
    }
    forall id | id in held && Live(g.room, id)
      ensures zs[id % MAX_CLIENTS].inUse && zs[id % MAX_CLIENTS].gen == id / MAX_CLIENTS
    {
      TagTells(st, g, id);
    }
  }

  // ---- the loop -------------------------------------------------------------------------

  /** The tables `st` and the Python server told the same: the room they hold is its room but for the
      checksum logs, and its room outright while those have not been full. */
  ghost predicate InStep(cfg: Config, t: Turn, st: Store, g: Hub, sums: bool)
    requires Runs(cfg, EMPTY, t.es)
  {
    var h := Exec(cfg, EMPTY, t.es);
    && Models(st, g) && g.rx == h.rx && O.Alike(h.room, g.room) && (sums ==> g == h)
    && HeldIs(st.cs, t.held) && BornBy(h.room, t.now)
  }

  lemma Stepping(cfg: Config, t: Turn, st: Store, g: Hub, sums: bool)
    requires Runs(cfg, EMPTY, t.es) && InStep(cfg, t, st, g, sums)
    ensures var h := Exec(cfg, EMPTY, t.es);
            && Models(st, g) && g.rx == h.rx && O.Alike(h.room, g.room) && (sums ==> g == h)
            && HeldIs(st.cs, t.held) && BornBy(h.room, t.now)
  {
  }

  lemma KnockFits(cfg: Config, t: Turn, st: Store, g: Hub, sums: bool, ip: int, wait: nat)
    requires Runs(cfg, EMPTY, t.es) && InStep(cfg, t, st, g, sums) && Fit(cfg, t, Knock(ip, wait))
    ensures |g.room.order| < MAX_CLIENTS && FromAddress(g.room, ip, |g.room.order|) < MAX_PER_IP ==>
              exists k :: 0 <= k < MAX_CLIENTS && !st.cs[k].inUse
  {
    var h := Exec(cfg, EMPTY, t.es);
    O.Look(h.room, g.room, 0);
    O.FromAddressAlike(h.room, g.room, ip, |h.room.order|);
    hide Models, O.Alike, FromAddress, HeldIs;
    if |t.held| < MAX_CLIENTS {
      SlotLeft(st.cs, t.held);
    }
  }

  lemma ConnectRuns(cfg: Config, t: Turn, id: Id, ip: int, wait: nat)
    requires Runs(cfg, EMPTY, t.es) && BornBy(Exec(cfg, EMPTY, t.es).room, t.now) && id !in Exec(cfg, EMPTY, t.es).room.clients
    ensures var h := Exec(cfg, EMPTY, t.es);
            var r := After(cfg, t, Knock(ip, wait), id);
            && Exec(cfg, EMPTY, r.es) == Hub(Relay.Accept(h.room, id, ip, t.now + wait), h.rx[id := []])
            && r.now == t.now + wait && BornBy(Exec(cfg, EMPTY, r.es).room, r.now)
            && r.held == if Live(Exec(cfg, EMPTY, r.es).room, id) then t.held + {id} else t.held
  {
    hide FromAddress, Runs, Exec;
  }

  lemma NewIsLive(h: Hub, id: Id, ip: int, born: int)
    requires !Live(h.room, id)
    ensures Live(Relay.Accept(h.room, id, ip, born), id) <==>
              |h.room.order| < MAX_CLIENTS && FromAddress(h.room, ip, |h.room.order|) < MAX_PER_IP
  {
  }

  lemma KnockAlike(cfg: Config, t: Turn, g: Hub, sums: bool, ip: int, wait: nat, id: Id, g1: Hub)
    requires Runs(cfg, EMPTY, t.es)
    requires var h := Exec(cfg, EMPTY, t.es);
             && O.Alike(h.room, g.room) && g.rx == h.rx && (sums ==> g == h)
             && BornBy(h.room, t.now) && id !in h.room.clients
    requires g1 == Hub(Relay.Accept(g.room, id, ip, t.now + wait), g.rx[id := []])
    ensures var h1 := Exec(cfg, EMPTY, After(cfg, t, Knock(ip, wait), id).es);
            O.Alike(h1.room, g1.room) && g1.rx == h1.rx && (sums ==> g1 == h1)
  {
    hide Relay.Accept, O.Alike, BornBy, Runs, Exec, After;
    var h := Exec(cfg, EMPTY, t.es);
    ConnectRuns(cfg, t, id, ip, wait);
    AcceptAlike(h.room, g.room, id, ip, t.now + wait, Exec(cfg, EMPTY, After(cfg, t, Knock(ip, wait), id).es).room, g1.room);
  }

  lemma KnockHeld(cfg: Config, t: Turn, g: Room, ip: int, wait: nat, id: Id, accepted: bool)
    requires Runs(cfg, EMPTY, t.es)
    requires var h := Exec(cfg, EMPTY, t.es);
             O.Alike(h.room, g) && BornBy(h.room, t.now) && id !in h.room.clients && !Live(g, id)
    requires accepted <==> |g.order| < MAX_CLIENTS && FromAddress(g, ip, |g.order|) < MAX_PER_IP
    ensures After(cfg, t, Knock(ip, wait), id).held == if accepted then t.held + {id} else t.held
  {
    var h := Exec(cfg, EMPTY, t.es).room;
    O.Look(h, g, id);
    hide *;
    O.FromAddressAlike(h, g, ip, |h.order|);
    NewIsLive(Exec(cfg, EMPTY, t.es), id, ip, t.now + wait);
    ConnectRuns(cfg, t, id, ip, wait);
  }

  lemma AcceptAlike(w: Room, v: Room, id: Id, ip: int, born: int, x: Room, y: Room)
    requires O.Alike(w, v) && x == Relay.Accept(w, id, ip, born) && y == Relay.Accept(v, id, ip, born)
    ensures O.Alike(x, y)
  {
    hide Relay.Accept, O.Alike;
    O.AcceptAlike(w, v, id, ip, born);
  }

  lemma InStepOf(cfg: Config, t: Turn, st: Store, g: Hub, sums: bool)
    requires Runs(cfg, EMPTY, t.es)
    requires var h := Exec(cfg, EMPTY, t.es);
             && Models(st, g) && g.rx == h.rx && O.Alike(h.room, g.room) && (sums ==> g == h)
             && HeldIs(st.cs, t.held) && BornBy(h.room, t.now)
    ensures InStep(cfg, t, st, g, sums)
  {
  }

  lemma NotInOrder(st: Store, g: Hub, id: Id)
    requires Models(st, g) && id !in g.room.clients
    ensures !Live(g.room, id)
  {
    LiveIsKnown(st, g, id);
  }

  /** Without such a frame the port hears what the Python server hears. */
  lemma HeardSame(cfg: Original, h: Hub, tag: Id, read: Option<seq<byte>>, write: Option<Sent>)
    requires CalmRead(cfg, h, tag, read)
    ensures Heard(Port(cfg), h, tag, read, write) == Heard(cfg, h, tag, read, write)
  {
    hide Receive, T.CalmBytes, Relay.Drop, Relay.Flush;
    if read.Some? && read.value != [] && Known(h, tag) {
      T.ReceivePartsExactly(cfg, h, tag, read.value);
    }
  }

  lemma ReportDone(cfg: Original, t: Turn, st: Store, g: Hub, sums: bool, n: Notice, z: Store, g1: Hub, more: bool)
    requires Runs(cfg, EMPTY, t.es) && InStep(cfg, t, st, g, sums) && Sized([n]) && n.Report? && (more ==> sums)
    requires Models(z, g1) && Handed(st.cs, z.cs) && CalmRead(cfg, Exec(cfg, EMPTY, t.es), n.tag, n.read)
    requires var y := Heard(Port(cfg), g, n.tag, n.read, n.write);
             g1.rx == y.rx && O.Alike(y.room, g1.room) && (more ==> g1 == y)
    ensures InStep(cfg, After(cfg, t, n, 0), z, g1, more)
  {
    var h := Exec(cfg, EMPTY, t.es);
    HeardRuns(cfg, t, n);
    HeardSame(cfg, h, n.tag, n.read, n.write);
    hide Models, O.Alike, HeldIs, Handed, Heard, Runs, Exec, After, CalmRead;
    HeardAlike(Port(cfg), h, g, n.tag, n.read, n.write);
    var x, y := Heard(cfg, h, n.tag, n.read, n.write), Heard(Port(cfg), g, n.tag, n.read, n.write);
    O.AlikeTrans(x.room, y.room, g1.room);
    HeldHanded(st.cs, z.cs, t.held);
    HeardKeepsBorn(cfg, h, n.tag, n.read, n.write);
  }

  lemma HeardRuns(cfg: Config, t: Turn, n: Notice)
    requires Runs(cfg, EMPTY, t.es) && Sized([n]) && n.Report?
    ensures var r := After(cfg, t, n, 0);
            && Exec(cfg, EMPTY, r.es) == Heard(cfg, Exec(cfg, EMPTY, t.es), n.tag, n.read, n.write)
            && r.held == t.held && r.now == t.now
  {
    assert [n][0] == n;
    hide ReadIn, WriteOut, Exec, Runs;
  }

  lemma ReapFits(cfg: Config, t: Turn, st: Store, g: Hub, sums: bool)
    requires Runs(cfg, EMPTY, t.es) && InStep(cfg, t, st, g, sums) && Fit(cfg, t, Reaped)
    ensures NoDangling(g.room)
  {
    hide Models, HeldIs, BornBy, Runs, Exec, NoDangling, O.Alike;
    if P.PoliteRun(cfg, t.es) {
      PoliteHasNoDangling(cfg, t.es);
    }
    DanglingAlike(Exec(cfg, EMPTY, t.es).room, g.room);
  }

  lemma DanglingAlike(w: Room, v: Room)
    requires O.Alike(w, v) && NoDangling(w)
    ensures NoDangling(v)
  {
  }

  lemma ReapDone(cfg: Config, t: Turn, st: Store, g: Hub, sums: bool, z: Store)
    requires Runs(cfg, EMPTY, t.es) && InStep(cfg, t, st, g, sums) && Models(z, g)
    requires forall k :: 0 <= k < MAX_CLIENTS ==> z.cs[k] == Freed(st.cs[k])
    ensures InStep(cfg, After(cfg, t, Reaped, 0), z, g, sums)
  {
    SaneParts(st);
    SaneParts(z);
    hide Freed, O.Alike, HeldIs, BornBy, Runs, Exec;
    HeldReaped(st, g, z.cs, t.held);
    O.Look(Exec(cfg, EMPTY, t.es).room, g.room, 0);
    assert (set i | i in t.held && Live(g.room, i)) == After(cfg, t, Reaped, 0).held;
  }

  lemma SlotOutput(st: Store, g: Hub, k: nat)
    requires Models(st, g) && k < |st.ord|
    ensures |g.room.order| == |st.ord| && Index(st.ord[k]) && g.room.order[k] == IdOf(st.cs, st.ord[k])
    ensures g.room.order[k] in g.room.clients && g.room.clients[g.room.order[k]].tx == st.cs[st.ord[k]].tx
  {
    OrderEntry(st, k);
    assert SlotIs(st.cs, st.ord[k], g);
  }

  /** Every live client, in the order they connected, has the same bytes waiting. */
  ghost predicate SameOutputs(st: Store, w: Room) {
    && |st.cs| == MAX_CLIENTS && |w.order| == |st.ord|
    && forall k :: 0 <= k < |st.ord| ==>
         && Index(st.ord[k]) && w.order[k] == IdOf(st.cs, st.ord[k])
         && w.order[k] in w.clients && w.clients[w.order[k]].tx == st.cs[st.ord[k]].tx
  }

  lemma OutputsAgree(cfg: Config, t: Turn, st: Store, g: Hub, sums: bool)
    requires Runs(cfg, EMPTY, t.es) && InStep(cfg, t, st, g, sums)
    ensures SameOutputs(st, Exec(cfg, EMPTY, t.es).room)
  {
    var w := Exec(cfg, EMPTY, t.es).room;
    SameLength(st, g);
    O.Look(w, g.room, 0);
    hide Models, O.Alike, Runs, Exec;
    SaneOf(st, g);
    forall k | 0 <= k < |st.ord|
      ensures Index(st.ord[k]) && w.order[k] == IdOf(st.cs, st.ord[k])
      ensures w.order[k] in w.clients && w.clients[w.order[k]].tx == st.cs[st.ord[k]].tx
    {
      SlotOutput(st, g, k);
      O.Look(w, g.room, w.order[k]);
    }
  }

  lemma SaneOf(st: Store, g: Hub)
    requires Models(st, g)
    ensures |st.cs| == MAX_CLIENTS
  {
  }

  lemma StartsInStep(cfg: Config, st: Store)
    requires Models(st, EMPTY) && forall k :: 0 <= k < |st.cs| ==> !st.cs[k].inUse
    ensures InStep(cfg, Turn([], {}, 0), st, EMPTY, true)
  {
  }

  lemma OneMore<T>(s: seq<T>, k: nat)
    requires k < |s|
    ensures s[..k + 1][..k] == s[..k] && s[..k + 1][k] == s[k]
  {
  }

  method OnKnock(s: RelayC.Server, ghost cfg: Original, ip: int, wait: nat, now: nat, ghost t: Turn, ghost g: Hub, ghost sums: bool)
    returns (ghost id: Id, ghost g1: Hub)
    requires s.Valid() && s.cfg == Port(cfg) && Runs(cfg, EMPTY, t.es)
    modifies s, s.clients, s.order
    ensures s.Valid()
    ensures old(InStep(cfg, t, s.Snap(), g, sums)) && Fit(cfg, t, Knock(ip, wait)) && now == t.now + wait ==>
              InStep(cfg, After(cfg, t, Knock(ip, wait), id), s.Snap(), g1, sums)
  {
    hide Models, Sane, O.Alike, Fit, HeldIs, After, Exec, Runs, FromAddress, Relay.Accept, SameIp, InStep;
    ghost var st, fits := s.Snap(), InStep(cfg, t, s.Snap(), g, sums) && Fit(cfg, t, Knock(ip, wait)) && now == t.now + wait;
    if fits {
      KnockFits(cfg, t, st, g, sums, ip, wait);
      Stepping(cfg, t, st, g, sums);
    }
    var accepted, slot;
    accepted, slot, id := s.AcceptClient(ip, now, g);
    g1 := Hub(Relay.Accept(g.room, id, ip, now), g.rx[id := []]);
    if fits {
      if accepted {
        HeldAllocated(st, slot, ip, now, t.held, s.Snap(), id);
      }
      NotInOrder(st, g, id);
      O.Look(Exec(cfg, EMPTY, t.es).room, g.room, id);
      KnockAlike(cfg, t, g, sums, ip, wait, id, g1);
      KnockHeld(cfg, t, g.room, ip, wait, id, accepted);
      ConnectRuns(cfg, t, id, ip, wait);
      InStepOf(cfg, After(cfg, t, Knock(ip, wait), id), s.Snap(), g1, sums);
    }
  }

  lemma HeardFits(cfg: Original, t: Turn, st: Store, g: Hub, sums: bool, n: Notice)
    requires Runs(cfg, EMPTY, t.es) && InStep(cfg, t, st, g, sums) && n.Report? && Fit(cfg, t, n)
    ensures Models(st, g) && ReadyFits(Port(cfg), g, n.tag, n.read, n.write)
    ensures CalmRead(cfg, Exec(cfg, EMPTY, t.es), n.tag, n.read)
    ensures sums ==> g == Exec(cfg, EMPTY, t.es)
  {
    hide Models, O.Alike, HeldIs, Runs, Exec, ReadyFits, Heard;
    HeardAlike(Port(cfg), Exec(cfg, EMPTY, t.es), g, n.tag, n.read, n.write);
  }

  method OnReport(s: RelayC.Server, ghost cfg: Original, n: Notice, ghost t: Turn, ghost g: Hub, ghost sums: bool) returns (ghost g1: Hub, ghost more: bool)
    requires s.Valid() && s.cfg == Port(cfg) && Runs(cfg, EMPTY, t.es) && n.Report? && Sized([n])
    modifies s, s.clients, s.order, s.byName
    ensures s.Valid() && more == (sums && ReadSums(Port(cfg), Exec(cfg, EMPTY, t.es), n.tag, n.read))
    ensures old(InStep(cfg, t, s.Snap(), g, sums)) && Fit(cfg, t, n) ==>
              InStep(cfg, After(cfg, t, n, 0), s.Snap(), g1, more)
  {
    hide Models, Sane, O.Alike, Fit, HeldIs, After, Exec, Runs, InStep, Handed, ReadyFits, ReadSums, Heard;
    ghost var st, fits := s.Snap(), InStep(cfg, t, s.Snap(), g, sums) && Fit(cfg, t, n);
    more := sums && ReadSums(Port(cfg), Exec(cfg, EMPTY, t.es), n.tag, n.read);
    assert [n][0] == n;
    if fits {
      HeardFits(cfg, t, st, g, sums, n);
    }
    g1 := s.Ready(n.tag, n.read, n.write, g);
    if fits {
      ReportDone(cfg, t, st, g, sums, n, s.Snap(), g1, more);
    }
  }

  method OnReaped(s: RelayC.Server, ghost cfg: Original, ghost t: Turn, ghost g: Hub, ghost sums: bool)
    requires s.Valid() && s.cfg == Port(cfg) && Runs(cfg, EMPTY, t.es)
    modifies s.clients
    ensures s.Valid()
    ensures old(InStep(cfg, t, s.Snap(), g, sums)) && Fit(cfg, t, Reaped) ==>
              InStep(cfg, After(cfg, t, Reaped, 0), s.Snap(), g, sums)
  {
    hide Models, Sane, O.Alike, Fit, HeldIs, After, Exec, Runs, InStep, NoDangling, Freed;
    ghost var st, fits := s.Snap(), InStep(cfg, t, s.Snap(), g, sums) && Fit(cfg, t, Reaped);
    if fits {
      Stepping(cfg, t, st, g, sums);
      ReapFits(cfg, t, st, g, sums);
    }
    s.Reap(g);
    if fits {
      ReapDone(cfg, t, st, g, sums, s.Snap());
    }
  }

  /** One more notice, in what the Python server hears and in whether the tables have room. */
  lemma NextNotice(cfg: Config, ns: seq<Notice>, ids: seq<Id>, k: nat, id: Id)
    requires Sized(ns) && k < |ns| && |ids| == k
    ensures var before, now := ns[..k], ns[..k + 1];
            && Sized(before) && Sized(now) && Sized([ns[k]])
            && Served(cfg, now, ids + [id]) == After(cfg, Served(cfg, before, ids), ns[k], id)
            && AllFit(cfg, now, ids + [id]) == (AllFit(cfg, before, ids) && Fit(cfg, Served(cfg, before, ids), ns[k]))
            && AllSums(cfg, now, ids + [id]) ==
               (AllSums(cfg, before, ids) && (ns[k].Report? ==>
                  ReadSums(Port(cfg), Exec(cfg, EMPTY, Served(cfg, before, ids).es), ns[k].tag, ns[k].read)))
  {
    hide Fit, After, Exec, ReadSums;
    OneMore(ns, k);
    assert (ids + [id])[..k] == ids && (ids + [id])[k] == id;
    assert [ns[k]][0] == ns[k];
  }

  /** The C port refines the Python server. Started empty and told anything at all of its sockets, in any
      order, the tables stay in bounds; for as long as they have room and no frame parts the two servers,
      every live client has waiting exactly what the Python server, told the same, would have waiting for
      it, whether or not the checksum logs ever fill; until they do, the rooms are the same in everything. */
  method Serve(cfg: Original, ns: seq<Notice>) returns (s: RelayC.Server, ghost ids: seq<Id>)
    requires Sized(ns)
    ensures s.Valid() && |ids| == |ns|
    ensures var t := Served(cfg, ns, ids);
            && (AllFit(cfg, ns, ids) ==> SameOutputs(s.Snap(), Exec(cfg, EMPTY, t.es).room))
            && (AllFit(cfg, ns, ids) && AllSums(cfg, ns, ids) ==> s.Holds(Exec(cfg, EMPTY, t.es)))
  {
    hide Models, Sane, O.Alike, InStep, Fit, HeldIs, ReadSums, After, Exec, Runs, Served, AllFit, AllSums;
    s := new RelayC.Server(Port(cfg));
    ids := [];
    var now, k := 0, 0;
    ghost var t, g, fits, sums := Turn([], {}, 0), EMPTY, true, true;
    StartsServed(cfg, ns, s.Snap());
    while k < |ns|
      invariant k <= |ns| && |ids| == k && s.Valid() && s.cfg == Port(cfg)
      invariant fresh(s) && fresh(s.clients) && fresh(s.order) && fresh(s.byName)
      invariant Sized(ns[..k]) && t == Served(cfg, ns[..k], ids) && Runs(cfg, EMPTY, t.es)
      invariant fits == AllFit(cfg, ns[..k], ids) && sums == AllSums(cfg, ns[..k], ids)
      invariant fits ==> InStep(cfg, t, s.Snap(), g, sums) && now == t.now
    {
      ghost var id: Id := 0;
      NextNotice(cfg, ns, ids, k, id);
      ghost var more := sums;
      match ns[k] {
        case Knock(ip, wait) =>
          now := now + wait;
          id, g := OnKnock(s, cfg, ip, wait, now, t, g, sums);
          NextNotice(cfg, ns, ids, k, id);
        case Report(_, _, _) =>
          g, more := OnReport(s, cfg, ns[k], t, g, sums);
        case Reaped =>
          OnReaped(s, cfg, t, g, sums);
      }
      NowIs(cfg, t, ns[k], id);
      fits, sums := fits && Fit(cfg, t, ns[k]), more;
      t, ids, k := After(cfg, t, ns[k], id), ids + [id], k + 1;
    }
    assert ns[..|ns|] == ns;
    if fits {
      OutputsAgree(cfg, t, s.Snap(), g, sums);
      HoldsIfSums(cfg, t, s.Snap(), g, sums);
    }
  }

  lemma NowIs(cfg: Config, t: Turn, n: Notice, id: Id)
    requires Runs(cfg, EMPTY, t.es) && Sized([n])
    ensures After(cfg, t, n, id).now == t.now + if n.Knock? then n.wait else 0
  {
    assert [n][0] == n;
  }

  lemma HoldsIfSums(cfg: Config, t: Turn, st: Store, g: Hub, sums: bool)
    requires Runs(cfg, EMPTY, t.es) && InStep(cfg, t, st, g, sums)
    ensures sums ==> Models(st, Exec(cfg, EMPTY, t.es))
  {
  }

  lemma StartsServed(cfg: Config, ns: seq<Notice>, st: Store)
    requires Sized(ns) && Models(st, EMPTY) && st.cs == seq(MAX_CLIENTS, _ => NOBODY)
    ensures ns[..0] == [] && Sized(ns[..0]) && Runs(cfg, EMPTY, [])
    ensures Served(cfg, [], []) == Turn([], {}, 0) && AllFit(cfg, [], []) && AllSums(cfg, [], [])
    ensures InStep(cfg, Turn([], {}, 0), st, EMPTY, true)
  {
    EmptyRuns(cfg);
    StartsInStep(cfg, st);
  }

  lemma EmptyRuns(cfg: Config)
    ensures Runs(cfg, EMPTY, []) && Exec(cfg, EMPTY, []) == EMPTY
  {
  }
}
