/** The C port as it is: fixed tables changed in place, a dropped client's slot kept until the end of
    the batch. In whatever state, every index stays in bounds; and as long as no table is full, every
    step leaves the tables holding the room that step makes in `Relay`, which `Parting` shows to be the
    Python server's but for two frames. */
module RelayC {
  import opened Bytes
  import opened Relay
  import opened RelayStore
  import O = Outputs
  import R = Reassembly
  import P = Pairing
  import W = Wire

  const NOBODY := Slot(false, false, 0, 0, 0, [], [], [], -1, -1, [], 0, None)

  // ---- when the port keeps to the room --------------------------------------------------

  /** The C tables have room for this. */
  ghost predicate Roomy(w: Room) {
    && !w.stuck && |w.names| <= NAME_SLOTS
    && forall i :: i in w.clients ==> |w.clients[i].tx| <= TX_CAP
  }

  /** The sixteen checksum slots are not all taken by other ticks. */
  predicate CrcFits(c: Client, payload: seq<byte>)
    requires |payload| >= GAME_PAYLOAD
  {
    Find(c.crc, LapAfter(c.lap, c.last, payload[0]) * 256 + payload[0]) < |c.crc| || |c.crc| < CRC_SLOTS
  }

  /** The frame has its answer's room. */
  ghost predicate Fits(cfg: Config, w: Room, id: Id, p: Packet)
    requires id in w.clients && |p.payload| < 255
  {
    Roomy(Handle(cfg, w, id, p))
  }

  ghost predicate SumFits(w: Room, id: Id, p: Packet)
    requires id in w.clients
  {
    p.kind == W.T_INPUT && |p.payload| >= GAME_PAYLOAD ==> CrcFits(w.clients[id], p.payload)
  }

  ghost predicate AllFit(cfg: Config, w: Room, id: Id, ps: seq<Packet>)
    requires id in w.clients && Framed(ps)
    decreases |ps|
  {
    ps == [] || (AllFit(cfg, w, id, ps[..|ps| - 1]) && Fits(cfg, HandleAll(cfg, w, id, ps[..|ps| - 1]), id, ps[|ps| - 1]))
  }

  ghost predicate AllSumsFit(cfg: Config, w: Room, id: Id, ps: seq<Packet>)
    requires id in w.clients && Framed(ps)
    decreases |ps|
  {
    ps == [] || (AllSumsFit(cfg, w, id, ps[..|ps| - 1]) && SumFits(HandleAll(cfg, w, id, ps[..|ps| - 1]), id, ps[|ps| - 1]))
  }

  /** A receive the tables have room for: every frame of it, and the bytes themselves. */
  ghost predicate ReceiveFits(cfg: Config, h: Hub, id: Id, data: seq<byte>)
    requires id in h.room.clients && id in h.rx
  {
    var p := Parse(h.rx[id] + data);
    && Framed(p.packets) && |h.rx[id]| + |data| <= RX_CAP
    && AllFit(cfg, h.room, id, p.packets)
    && (p.bad ==> Roomy(Deliver(cfg, h.room, id, p)))
  }

  /** And no report of a checksum in it finds sixteen others unpaired. */
  ghost predicate ReceiveSums(cfg: Config, h: Hub, id: Id, data: seq<byte>)
    requires id in h.room.clients && id in h.rx
  {
    var p := Parse(h.rx[id] + data); Framed(p.packets) && AllSumsFit(cfg, h.room, id, p.packets)
  }

  /** What a server's loop makes of one readable socket: bytes, or nothing or an error. A report
      about a connection that has gone is not heard. */
  function ReadIn(cfg: Config, h: Hub, tag: Id, read: Option<seq<byte>>): Hub {
    if read.None? || !Known(h, tag) then h
    else if read.value == [] then h.(room := Relay.Drop(h.room, tag))
    else Receive(cfg, h, tag, read.value)
  }

  /** A send takes no more than there is. */
  function Clip(s: Sent, n: nat): (r: Sent)
    ensures r.Took? ==> r.n <= n
  {
    if s.Took? && s.n > n then Took(n) else s
  }

  /** And of one writable socket. */
  function WriteOut(h: Hub, tag: Id, write: Option<Sent>): Hub {
    if write.None? || !Known(h, tag) then h
    else h.(room := Relay.Flush(h.room, tag, Clip(write.value, |h.room.clients[tag].tx|)))
  }

  function Heard(cfg: Config, h: Hub, tag: Id, read: Option<seq<byte>>, write: Option<Sent>): Hub {
    WriteOut(ReadIn(cfg, h, tag, read), tag, write)
  }

  ghost predicate ReadFits(cfg: Config, h: Hub, tag: Id, read: Option<seq<byte>>) {
    read.Some? && Known(h, tag) ==>
      if read.value == [] then Roomy(Relay.Drop(h.room, tag)) else ReceiveFits(cfg, h, tag, read.value)
  }

  ghost predicate ReadyFits(cfg: Config, h: Hub, tag: Id, read: Option<seq<byte>>, write: Option<Sent>) {
    && ReadFits(cfg, h, tag, read)
    && (write.Some? && Known(ReadIn(cfg, h, tag, read), tag) ==> Roomy(Heard(cfg, h, tag, read, write).room))
  }

  ghost predicate ReadSums(cfg: Config, h: Hub, tag: Id, read: Option<seq<byte>>) {
    read.Some? && read.value != [] && Known(h, tag) ==> ReceiveSums(cfg, h, tag, read.value)
  }

  // ---- by_name[] as a list ----------------------------------------------------------------

  /** Where a name is: the length when it is not there. */
  function FindName(tab: seq<NameEntry>, name: Name): (i: nat)
    ensures i <= |tab|
    ensures i < |tab| ==> tab[i].name == name
    ensures forall k :: 0 <= k < i ==> tab[k].name != name
  {
    if tab == [] || tab[0].name == name then 0 else 1 + FindName(tab[1..], name)
  }

  /** An entry taken over, or a new one at the end, the oldest making room in a full table. */
  function SetName(tab: seq<NameEntry>, e: NameEntry): seq<NameEntry> {
    var i := FindName(tab, e.name);
    if i < |tab| then tab[i := e] else if |tab| < NAME_SLOTS then tab + [e] else tab[1..] + [e]
  }

  /** That is the dictionary's update exactly when the name is there or the table has room. */
  lemma NameSetExactly(tab: seq<NameEntry>, names: map<Name, Id>, name: Name, ci: nat, gen: nat)
    requires TableIs(tab, names) && 0 < |tab| <= NAME_SLOTS
    ensures TableIs(SetName(tab, NameEntry(name, ci, gen)), names[name := Tag(gen, ci)]) <==>
              name in names || |tab| < NAME_SLOTS
  {
    hide Tag;
    var e, i, now := NameEntry(name, ci, gen), FindName(tab, name), names[name := Tag(gen, ci)];
    if i < |tab| {
      TakenOver(tab, names, i, e);
    } else {
      assert name !in names;
      if |tab| < NAME_SLOTS {
        TableAdd(tab, names, name, ci, gen);
      } else {
        var t, lost := tab[1..] + [e], tab[0].name;
        assert lost in now && forall k :: 0 <= k < |t| ==> t[k].name != lost;
      }
    }
  }

  lemma TakenOver(tab: seq<NameEntry>, names: map<Name, Id>, i: nat, e: NameEntry)
    requires TableIs(tab, names) && i < |tab| && tab[i].name == e.name
    ensures TableIs(tab[i := e], names[e.name := Tag(e.gen, e.ci)])
  {
    hide Tag;
    var t, now := tab[i := e], names[e.name := Tag(e.gen, e.ci)];
    forall n | n in now
      ensures exists k :: 0 <= k < |t| && t[k].name == n
    {
      assert n in names;
      var k :| 0 <= k < |tab| && tab[k].name == n;
      assert t[k].name == n;
    }
  }

  /** How many of the first `n` connections come from one address. */
  function SameIp(st: Store, ip: int, n: nat): (c: nat)
    requires n <= |st.ord|
    ensures c <= n
  {
    if n == 0 then 0 else
      SameIp(st, ip, n - 1) + if st.ord[n - 1] < |st.cs| && st.cs[st.ord[n - 1]].ip == ip then 1 else 0
  }

  /** An identity no connection has had. */
  ghost function Unused(cs: seq<Slot>): Id
    requires |cs| > 0
  {
    Tag(cs[0].gen + 1, 0)
  }

  predicate TableInRange(tab: seq<NameEntry>) {
    forall k :: 0 <= k < |tab| ==> tab[k].ci < MAX_CLIENTS
  }

  /** No slot changes hands and nothing is read. */
  predicate Steady(cs: seq<Slot>, zs: seq<Slot>) {
    |cs| == |zs| && forall k :: 0 <= k < |cs| ==> SameHands(cs[k], zs[k])
  }

  predicate SameHands(s: Slot, z: Slot) {
    z.inUse == s.inUse && z.gen == s.gen && z.rx == s.rx
  }

  /** No slot changes hands. */
  predicate Handed(cs: seq<Slot>, zs: seq<Slot>) {
    |cs| == |zs| && forall k :: 0 <= k < |cs| ==> SameOwner(cs[k], zs[k])
  }

  predicate SameOwner(s: Slot, z: Slot) {
    z.inUse == s.inUse && z.gen == s.gen
  }

  class Server {
    const cfg: Ported
    const clients: array<Slot>
    const order: array<nat>
    const byName: array<NameEntry>
    var nOrder: nat
    var nByName: nat
    var drawn: nat
    var matched: nat
    var stats: Stats

    ghost predicate Shape()
      reads this
    {
      && clients.Length == MAX_CLIENTS && order.Length == MAX_CLIENTS && byName.Length == NAME_SLOTS
      && nOrder <= MAX_CLIENTS && nByName <= NAME_SLOTS
    }

    ghost function Snap(): Store
      reads this, clients, order, byName
      requires Shape()
    {
      Store(clients[..], order[..nOrder], byName[..nByName], drawn, matched, stats)
    }

    ghost predicate Valid()
      reads this, clients, order, byName
    {
      Shape() && Sane(Snap())
    }

    /** The tables hold the room `h`. */
    ghost predicate Holds(h: Hub)
      reads this, clients, order, byName
    {
      Valid() && Models(Snap(), h)
    }

    ghost predicate Uses(ci: nat)
      reads this, clients
    {
      ci < clients.Length && clients[ci].inUse
    }

    ghost function At(ci: nat): Id
      reads this, clients
      requires ci < clients.Length
    {
      IdOf(clients[..], ci)
    }

    constructor (cfg: Ported)
      ensures this.cfg == cfg && Valid() && Holds(EMPTY)
      ensures Snap().cs == seq(MAX_CLIENTS, _ => NOBODY)
      ensures fresh(clients) && fresh(order) && fresh(byName)
    {
      this.cfg := cfg;
      clients := new Slot[MAX_CLIENTS](_ => NOBODY);
      order := new nat[MAX_CLIENTS];
      byName := new NameEntry[NAME_SLOTS](_ => NameEntry([], 0, 0));
      nOrder, nByName, drawn, matched, stats := 0, 0, 0, 0, Stats(0, 0, 0, 0, 0, 0);
    }

    // ---- one slot rewritten -----------------------------------------------------------

    /** Assignments to fields of one `client_t`. */
    method Put(ci: nat, s: Slot, ghost h: Hub)
      requires Valid() && Index(ci) && SamePlace(clients[ci], s) && SaneSlot(s)
      modifies clients
      ensures Valid() && clients[..] == old(clients[..])[ci := s]
      ensures old(Holds(h) && Uses(ci) && (s.partner >= 0 ==> Uses(s.partner))) ==>
                Holds(Hub(Relay.Put(h.room, old(At(ci)), ClientOf(old(clients[..]), s)), h.rx[old(At(ci)) := s.rx]))
      ensures old(Holds(h) && Uses(ci) && (s.partner >= 0 ==> Uses(s.partner)) && s.rx == clients[ci].rx) ==>
                Holds(h.(room := Relay.Put(h.room, old(At(ci)), ClientOf(old(clients[..]), s))))
    {
      ghost var st := Snap();
      clients[ci] := s;
      assert Snap() == With(st, ci, s);
      SaneWith(st, ci, s);
      if Models(st, h) && st.cs[ci].inUse && (s.partner >= 0 ==> st.cs[s.partner].inUse) {
        ModelsWith(st, h, ci, s);
        assert SlotIs(st.cs, ci, h);
        assert s.rx == st.cs[ci].rx ==> h.rx[IdOf(st.cs, ci) := s.rx] == h.rx;
      }
    }

    /** One of the counters moves. */
    method Tally(after: Stats, ghost h: Hub)
      requires Valid()
      modifies this`stats
      ensures Valid() && stats == after
      ensures old(Holds(h)) ==> Holds(h.(room := h.room.(stats := after)))
    {
      hide Sane, Models;
      ghost var st := Snap();
      Recount(st, h, drawn, matched, after);
      if Models(st, h) {
        Counts(st, h);
      }
      stats := after;
      assert Snap() == st.(stats := after);
    }

    /** A match more, for the seeds to come and in the counters. */
    method CountMatch(ghost h: Hub)
      requires Valid()
      modifies this`matched, this`stats
      ensures Valid() && matched == old(matched) + 1 && stats == old(stats).(matches := old(stats).matches + 1)
      ensures old(Holds(h)) ==> Holds(h.(room := h.room.(matched := matched, stats := stats)))
    {
      hide Sane, Models;
      ghost var st := Snap();
      Recount(st, h, drawn, matched + 1, stats.(matches := stats.matches + 1));
      if Models(st, h) {
        Counts(st, h);
      }
      matched := matched + 1;
      stats := stats.(matches := stats.matches + 1);
      assert Snap() == st.(matched := matched, stats := stats);
    }

    // ---- order[] ----------------------------------------------------------------------

    /** `order_del`: the index closes up over the hole. */
    method OrderDel(ci: nat)
      requires Shape() && Distinct(order[..nOrder])
      modifies order, this`nOrder
      ensures Shape() && order[..nOrder] == Without(old(order[..nOrder]), ci)
    {
      hide Without, Distinct;
      ghost var was := order[..nOrder];
      var i := 0;
      while i < nOrder
        invariant i <= nOrder && nOrder == |was| && order[..nOrder] == was
        invariant ci !in was[..i]
      {
        if order[i] == ci {
          WithoutFirst(was, i);
          var k := i;
          while k + 1 < nOrder
            invariant i <= k < nOrder == |was| <= MAX_CLIENTS
            invariant forall j :: 0 <= j < i ==> order[j] == was[j]
            invariant forall j :: i <= j < k ==> order[j] == was[j + 1]
            invariant forall j :: k <= j < nOrder ==> order[j] == was[j]
          {
            order[k] := order[k + 1];
            k := k + 1;
          }
          nOrder := nOrder - 1;
          assert order[..nOrder] == was[..i] + was[i + 1..];
          return;
        }
        i := i + 1;
      }
      assert was[..i] == was;
    }

    // ---- by_name[] --------------------------------------------------------------------

    method NameTaken(name: Name) returns (taken: bool)
      requires Shape()
      ensures taken <==> exists k :: 0 <= k < nByName && byName[k].name == name
    {
      var i := 0;
      while i < nByName
        invariant i <= nByName && forall k :: 0 <= k < i ==> byName[k].name != name
      {
        if byName[i].name == name {
          return true;
        }
        i := i + 1;
      }
      return false;
    }

    /** Closes `by_name[]` up over entry `i`. */
    method NameClose(i: nat)
      requires Shape() && i < nByName
      modifies byName, this`nByName
      ensures Shape() && byName[..nByName] == old(byName[..nByName])[..i] + old(byName[..nByName])[i + 1..]
    {
      ghost var was := byName[..nByName];
      var k := i;
      while k + 1 < nByName
        invariant i <= k < nByName == |was| <= NAME_SLOTS
        invariant forall j :: 0 <= j < i ==> byName[j] == was[j]
        invariant forall j :: i <= j < k ==> byName[j] == was[j + 1]
        invariant forall j :: k <= j < nByName ==> byName[j] == was[j]
      {
        byName[k] := byName[k + 1];
        k := k + 1;
      }
      nByName := nByName - 1;
      assert byName[..nByName] == was[..i] + was[i + 1..];
    }

    /** Where a name is in the table: its length when it is not there. */
    method NameAlready(name: Name) returns (i: nat)
      requires Shape()
      ensures i == FindName(byName[..nByName], name)
    {
      i := 0;
      while i < nByName
        invariant i <= nByName && i <= FindName(byName[..nByName], name)
      {
        NameHere(byName[..nByName], name, i);
        if byName[i].name == name {
          break;
        }
        i := i + 1;
      }
    }

    /** `name_set`: an entry already there is taken over; a full table loses its oldest. */
    method NameSet(name: Name, ci: nat)
      requires Valid() && Index(ci)
      modifies byName, this`nByName
      ensures Valid() && byName[..nByName] == SetName(old(byName[..nByName]), NameEntry(name, ci, clients[ci].gen))
    {
      hide Sane, FindName;
      ghost var st := Snap();
      var e := NameEntry(name, ci, clients[ci].gen);
      var i := NameAlready(name);
      if i < nByName {
        byName[i] := e;
        assert byName[..nByName] == st.tab[i := e];
      } else {
        if nByName >= NAME_SLOTS {
          NameClose(0);
        }
        NameAppend(e);
      }
      SaneNames(st, e);
      assert Snap() == st.(tab := SetName(st.tab, e));
    }

    /** The slot after the last one. */
    method NameAppend(e: NameEntry)
      requires Shape() && nByName < NAME_SLOTS
      modifies byName, this`nByName
      ensures Shape() && byName[..nByName] == old(byName[..nByName]) + [e]
    {
      byName[nByName] := e;
      nByName := nByName + 1;
    }

    /** `name_del_if_is`. */
    method NameDelIfIs(name: Name, ci: nat)
      requires Shape() && Index(ci) && name != [] && TableInRange(byName[..nByName])
      modifies byName, this`nByName
      ensures Shape() && TableInRange(byName[..nByName])
      ensures forall names :: old(TableIs(byName[..nByName], names)) ==>
                TableIs(byName[..nByName], Unname(names, name, At(ci)))
    {
      ghost var tab := byName[..nByName];
      var i := 0;
      while i < nByName
        invariant i <= nByName && byName[..nByName] == tab
        invariant forall k :: 0 <= k < i ==> byName[k].name != name
      {
        if byName[i].name == name {
          NameAt(tab, name, i, ci, clients[ci].gen);
          if byName[i].ci == ci && byName[i].gen == clients[ci].gen {
            NameClose(i);
          }
          return;
        }
        i := i + 1;
      }
      NameNowhere(tab, name, At(ci));
    }

    // ---- output -----------------------------------------------------------------------

    /** `client_send`: append only. A buffer that cannot take it is marked full, which the next flush
        answers by dropping the client. */
    method ClientSend(ci: nat, data: seq<byte>, ghost h: Hub)
      requires Valid() && Index(ci)
      modifies clients
      ensures Valid() && Steady(old(clients[..]), clients[..])
      ensures clients[..] == old(clients[..])[ci := clients[ci]] && clients[ci] == old(clients[ci]).(tx := clients[ci].tx)
      ensures old(Holds(h) && Uses(ci)) && |old(clients[ci].tx)| + |data| <= TX_CAP ==>
                Holds(h.(room := Relay.Send(h.room, old(At(ci)), data)))
    {
      var c := clients[ci];
      SlotOf(Snap(), ci);
      if |c.tx| + |data| > TX_CAP {
        Put(ci, c.(tx := Pad(c.tx, TX_CAP)), h);
        return;
      }
      if Holds(h) && Uses(ci) {
        SendIsPut(Snap(), h, ci, data);
      }
      Put(ci, c.(tx := c.tx + data), h);
    }

    // ---- pairing ----------------------------------------------------------------------

    /** The scan of `order[]` for the oldest idle client that is not the caller. */
    method OldestWaiting(ci: nat, ghost h: Hub) returns (other: int)
      requires Valid() && Index(ci)
      ensures -1 <= other < MAX_CLIENTS && (other >= 0 ==> clients[other].inUse)
      ensures Holds(h) && Uses(ci) ==> Link(clients[..], other) == Oldest(h.room, At(ci), |h.room.order|)
    {
      hide Sane, Models, Oldest, IdOf;
      other := -1;
      OldestOfNone(h.room, At(ci));
      if Holds(h) {
        SameLength(Snap(), h);
      }
      var i := 0;
      while i < nOrder
        invariant i <= nOrder && -1 <= other < MAX_CLIENTS && (other >= 0 ==> clients[other].inUse)
        invariant Holds(h) && Uses(ci) ==>
                    i <= |h.room.order| && Link(clients[..], other) == Oldest(h.room, At(ci), i)
      {
        var o := order[i];
        OrderEntry(Snap(), i);
        if Holds(h) && Uses(ci) {
          ScanStep(Snap(), h, ci, i, other);
        }
        if !(o == ci || clients[o].name == [] || clients[o].partner >= 0) {
          if other < 0 || clients[o].born < clients[other].born {
            other := o;
          }
        }
        i := i + 1;
      }
    }

    /** One side of a new match: its checksums forgotten, its START sent. */
    method Greet(me: nat, them: nat, role: byte, seed: Word, ghost h: Hub)
      requires Valid() && Index(me) && Index(them)
      modifies clients
      ensures Valid() && Steady(old(clients[..]), clients[..])
      ensures forall k :: 0 <= k < MAX_CLIENTS && k != me ==> clients[k] == old(clients[k])
      ensures clients[me] == old(clients[me]).(crc := [], tx := clients[me].tx)
      ensures old(Holds(h) && Uses(me) && Uses(them)) && |old(clients[me].tx)| + 15 <= TX_CAP ==>
                && old(At(me)) in h.room.clients && old(At(them)) in h.room.clients
                && Holds(h.(room := Greeted(cfg, h.room, old(At(me)), old(At(them)), role, seed)))
    {
      hide Sane, Models, StartFrame, Tag, Short, Relay.Put;
      SlotOf(Snap(), me);
      ghost var id := At(me);
      ghost var g := h;
      var start := StartFrame(cfg, role, seed, Short(clients[them].name));
      if Holds(h) && Uses(me) && Uses(them) {
        g := h.(room := Relay.Put(h.room, id, ClientOf(clients[..], clients[me].(crc := []))));
        InRoom(Snap(), h, them);
        GreetIs(Snap(), h, me, start);
      }
      Put(me, clients[me].(crc := []), h);
      ClientSend(me, start, g);
    }

    /** The two linked, the host first. */
    method Couple(host: nat, guest: nat, ghost h: Hub)
      requires Valid() && Index(host) && Index(guest)
      modifies clients
      ensures Valid() && Steady(old(clients[..]), clients[..])
      ensures forall k :: 0 <= k < MAX_CLIENTS ==>
                && clients[k].tx == old(clients[..])[k].tx && clients[k].inUse == old(clients[..])[k].inUse
                && clients[k].gen == old(clients[..])[k].gen
      ensures old(Holds(h) && Uses(host) && Uses(guest)) && host != guest ==> Holds(Coupled(old(clients[..]), h, host, guest))
    {
      hide Sane, Models, Relay.Put, SlotIs, ClientOf, Tag, SaneSlot, Steady;
      ghost var st, h1 := Snap(), h;
      SlotOf(st, host);
      SlotOf(st, guest);
      if Holds(h) && Uses(host) && Uses(guest) {
        InRoom(st, h, host);
        InRoom(st, h, guest);
        h1 := h.(room := Relay.Put(h.room, At(host), ClientOf(st.cs, Linking(st.cs, host, guest, 0))));
      }
      Put(host, clients[host].(partner := guest, role := 0), h);
      Put(guest, clients[guest].(partner := host, role := 1), h1);
      SteadyLinks(st.cs, host, guest, clients[..]);
    }

    /** `try_pair`: link the two, then greet the host and the guest. */
    method TryPair(ci: nat, ghost h: Hub)
      requires Valid() && Index(ci)
      modifies clients, this`matched, this`stats
      ensures Valid() && Steady(old(clients[..]), clients[..])
      ensures old(Holds(h) && Uses(ci)) && Roomy(Relay.TryPair(cfg, h.room, old(At(ci)))) ==>
                Holds(h.(room := Relay.TryPair(cfg, h.room, old(At(ci)))))
    {
      hide Sane, Models, StartFrame, Short, Oldest, Relay.Put, Relay.TryPair, SlotIs, Roomy, Greeted, ClientOf, Tag, SaneSlot,
           Steady, Coupled;
      ghost var st, holds := Snap(), Holds(h) && Uses(ci);
      var other := OldestWaiting(ci, h);
      if other < 0 {
        SteadyIs(st.cs);
        if holds {
          InRoom(st, h, ci);
          P.PairsOrNot(cfg, h.room, At(ci));
        }
        return;
      }
      var seed := cfg.seeds(matched);
      var host: nat, guest: nat := other, ci;
      ghost var h2, h3, h4, paired := h, h, h, h.room;
      if holds {
        h2, h3, h4 := PairStages(cfg, st, h, host, guest);
        InRoom(st, h, ci);
        paired := Relay.TryPair(cfg, h.room, At(ci));
      }
      Couple(host, guest, h);
      ghost var linked := clients[..];
      Greet(host, guest, 0, seed, h2);
      SteadyTrans(st.cs, linked, clients[..]);
      ghost var greeted := clients[..];
      Greet(guest, host, 1, seed, h3);
      SteadyTrans(st.cs, greeted, clients[..]);
      CountMatch(h4);
      assert holds ==> matched == paired.matched && stats == paired.stats;
    }

    // ---- drops ------------------------------------------------------------------------

    /** The slot marked, out of the index and its name freed. */
    method Unlist(ci: nat, ghost h: Hub)
      requires Valid() && Index(ci) && Uses(ci)
      modifies clients, order, byName, this`nOrder, this`nByName
      ensures Valid() && clients[..] == old(clients[..])[ci := old(clients[ci]).(dead := true)]
      ensures Snap().ord == Without(old(Snap()).ord, ci)
      ensures old(Holds(h)) ==> Holds(Unlisted(h, old(At(ci)), old(clients[ci].name)))
    {
      hide Sane, Models, SlotIs, Without, TableIs, Unname;
      ghost var st, holds := Snap(), Holds(h);
      SaneTables(st);
      if holds {
        HasNames(st, h);
      }
      clients[ci] := clients[ci].(dead := true);
      if clients[ci].name != [] {
        NameDelIfIs(clients[ci].name, ci);
      } else if holds {
        NoName(h.room.names, At(ci));
      }
      OrderDel(ci);
      assert Snap() == Dead(st, ci, byName[..nByName]);
      SaneDead(st, ci, byName[..nByName]);
      if holds {
        ModelsDead(st, h, ci, byName[..nByName]);
      }
    }

    /** `drop`: the slot marked and out of the index, its name freed, the survivor told. The dropped
        side's own link stays. */
    method Drop(ci: nat, ghost h: Hub)
      requires Valid() && Index(ci) && Uses(ci)
      modifies clients, order, byName, this`nOrder, this`nByName
      ensures Valid() && Steady(old(clients[..]), clients[..])
      ensures Snap().ord == if old(clients[ci].dead) then old(Snap()).ord else Without(old(Snap()).ord, ci)
      ensures old(Holds(h)) && old(At(ci)) in h.room.clients && Roomy(Relay.Drop(h.room, old(At(ci)))) ==>
                Holds(h.(room := Relay.Drop(h.room, old(At(ci)))))
    {
      hide Sane, Models, Relay.Put, Relay.Send, Relay.Drop, SlotIs, Roomy, ClientOf, Without, Unlisted;
      ghost var st, holds := Snap(), Holds(h);
      if clients[ci].dead {
        if holds {
          GoneAlready(st, h, ci);
        }
        return;
      }
      SlotOf(st, ci);
      ghost var h1, h2, h3 := h, h, h;
      if holds {
        h1, h2, h3 := DropStages(st, h, ci);
      }
      Unlist(ci, h);
      var p := clients[ci].partner;
      if p >= 0 {
        SlotOf(Snap(), p);
        Put(p, clients[p].(partner := -1), h1);
        ClientSend(p, Frame(W.T_LEFT, seq(GAME_PAYLOAD, (_: nat) => 0 as byte)), h2);
      }
    }

    // ---- HELLO ------------------------------------------------------------------------

    /** The duplicate-name loop and its guard of a thousand draws. */
    method FreeName(asked: Name, ghost h: Hub) returns (name: Name, found: bool)
      requires Valid()
      modifies this`drawn
      ensures Valid() && Snap() == old(Snap()).(drawn := drawn)
      ensures old(Holds(h)) ==>
                Resolve(cfg, h.room.names, asked, old(drawn), MAX_TRIES) == if found then Some((name, drawn)) else None
      ensures found ==> forall k :: 0 <= k < nByName ==> byName[k].name != name
      ensures !found ==> drawn == old(drawn) + MAX_TRIES
    {
      hide Sane, Models, Resolve;
      ghost var st, holds := Snap(), Holds(h);
      name := asked;
      var guard := 0;
      while true
        modifies this`drawn
        invariant guard <= MAX_TRIES && drawn == st.drawn + guard && Snap() == st.(drawn := drawn)
        invariant holds ==> (Resolve(cfg, h.room.names, asked, st.drawn, MAX_TRIES)
                             == Resolve(cfg, h.room.names, name, drawn, MAX_TRIES - guard))
        decreases MAX_TRIES - guard
      {
        var taken := NameTaken(name);
        if holds {
          TakenIs(st, h, name);
          ResolveStep(cfg, h.room.names, name, drawn, MAX_TRIES - guard);
        }
        if !taken {
          found := true;
          break;
        }
        guard := guard + 1;
        if guard > MAX_TRIES {
          found := false;
          break;
        }
        name := Variant(name, cfg.digits(drawn));
        drawn := drawn + 1;
      }
      Recount(st, h, drawn, matched, stats);
    }

    /** The slot and the table take the name. */
    method Register(ci: nat, name: Name, ghost h: Hub)
      requires Valid() && Index(ci) && Uses(ci)
      modifies clients, byName, this`nByName
      ensures Valid() && Uses(ci) && At(ci) == old(At(ci)) && Steady(old(clients[..]), clients[..])
      ensures old(Holds(h)) && old(At(ci)) in h.room.clients && old(nByName) < NAME_SLOTS
              && (forall k :: 0 <= k < old(nByName) ==> old(byName[..])[k].name != name) ==>
                Holds(h.(room := Rename(h.room, old(At(ci)), name, h.room.drawn)))
    {
      hide Sane, Models, Rename, SetName;
      ghost var st, holds := Snap(), Holds(h) && At(ci) in h.room.clients;
      SlotOf(st, ci);
      clients[ci] := clients[ci].(name := name);
      SaneWith(st, ci, clients[ci]);
      assert Snap() == With(st, ci, clients[ci]);
      NameSet(name, ci);
      NewName(st.tab, NameEntry(name, ci, clients[ci].gen));
      if holds && |st.tab| < NAME_SLOTS && forall k :: 0 <= k < |st.tab| ==> st.tab[k].name != name {
        ModelsRename(st, h, ci, name);
      }
    }

    method OnHello(ci: nat, payload: seq<byte>, ghost h: Hub)
      requires Valid() && Index(ci) && Uses(ci)
      modifies clients, order, byName, this
      ensures Valid() && Steady(old(clients[..]), clients[..])
      ensures old(Holds(h)) && old(At(ci)) in h.room.clients && Roomy(Relay.OnHello(cfg, h.room, old(At(ci)), payload)) ==>
                Holds(h.(room := Relay.OnHello(cfg, h.room, old(At(ci)), payload)))
    {
      hide Sane, Models, Relay.Drop, Relay.TryPair, Roomy, Resolve, Asked, Steady, Relay.OnHello, Rename;
      ghost var st, holds, id := Snap(), Holds(h), At(ci);
      var asked := Asked(payload);
      if asked == None {
        if holds {
          HelloDrops(cfg, h.room, id, payload);
        }
        Drop(ci, h);
        return;
      }
      if holds {
        Counts(st, h);
      }
      var name, found := FreeName(asked.value, h);
      ghost var g, fits := h.(room := h.room.(drawn := drawn)), holds && id in h.room.clients && Roomy(Relay.OnHello(cfg, h.room, id, payload));
      if holds {
        Drawn(st, h, drawn);
      }
      if !found {
        if fits {
          HelloGivesUp(cfg, h.room, id, payload);
        }
        Drop(ci, g);
        return;
      }
      if fits {
        RoomForName(cfg, st, h, ci, payload);
        HelloNames(cfg, h.room, id, payload, name, drawn);
      }
      Register(ci, name, g);
      ghost var was := clients[..];
      TryPair(ci, if id in h.room.clients then h.(room := Rename(h.room, id, name, drawn)) else h);
      SteadyTrans(st.cs, was, clients[..]);
    }

    // ---- the lobby --------------------------------------------------------------------

    /** `send_lobby`. */
    method SendLobby(ci: nat, ghost h: Hub)
      requires Valid() && Index(ci) && Uses(ci)
      modifies clients
      ensures Valid() && Steady(old(clients[..]), clients[..])
      ensures old(Holds(h)) && old(At(ci)) in h.room.clients && Roomy(Relay.SendLobby(h.room, old(At(ci)))) ==>
                Holds(h.(room := Relay.SendLobby(h.room, old(At(ci)))))
    {
      hide Sane, Models, Listed, LobbyRows, Roomy, Relay.Send;
      ghost var holds := Holds(h);
      var rows: seq<byte>, n: nat, i := [], 0, 0;
      ListedNone(h.room);
      if holds {
        SameLength(Snap(), h);
      }
      while i < nOrder
        modifies {}
        invariant i <= nOrder && n <= 8 && |rows| == 9 * n
        invariant holds ==> i <= |h.room.order| && n == |Listed(h.room, i)| && rows == LobbyRows(h.room, Listed(h.room, i))
      {
        var o := order[i];
        OrderEntry(Snap(), i);
        if holds {
          LobbyStep(Snap(), h, i);
        }
        if clients[o].name != [] && n < 8 {
          rows := rows + Pad(Short(clients[o].name), 8) + [if clients[o].partner >= 0 then 1 else 0];
          n := n + 1;
        }
        i := i + 1;
      }
      var frame := Frame(T_LOBBY, [n] + rows);
      if holds && Roomy(Relay.SendLobby(h.room, At(ci))) {
        SentFits(Snap(), h, ci, frame);
      }
      ClientSend(ci, frame, h);
    }

    // ---- checksums --------------------------------------------------------------------

    /** `crc_find`. */
    static method CrcFind(m: seq<Entry>, key: nat) returns (i: int)
      ensures i == if Find(m, key) < |m| then Find(m, key) as int else -1
    {
      i := 0;
      while i < |m|
        invariant 0 <= i <= |m| && i <= Find(m, key)
      {
        if m[i].key == key {
          return;
        }
        NotYet(m, key, i);
        i := i + 1;
      }
      i := -1;
    }

    /** `crc_set`: a full table overwrites its last slot. */
    static method CrcSet(m: seq<Entry>, key: nat, val: byte) returns (r: seq<Entry>)
      requires |m| <= CRC_SLOTS
      ensures |r| <= CRC_SLOTS
      ensures r == SetEntry(m, key, val) <==> Find(m, key) < |m| || |m| < CRC_SLOTS
    {
      var i := CrcFind(m, key);
      if i >= 0 {
        return m[i := Entry(key, val)];
      }
      var n := |m|;
      if n >= CRC_SLOTS {
        n := CRC_SLOTS - 1;
      }
      r := m[..n] + [Entry(key, val)];
      assert |m| < CRC_SLOTS ==> m[..n] == m;
    }

    /** Evict by age until eight are left. */
    method Evict(ci: nat, ghost h: Hub)
      requires Valid() && Index(ci) && Uses(ci)
      modifies clients
      ensures Valid() && Steady(old(clients[..]), clients[..])
      ensures old(Holds(h)) ==> clients[ci].partner < MAX_CLIENTS && Holds(h.(room := Evicted(old(clients[..]), h.room, ci)))
    {
      hide Sane, Models, Newest, ClientOf, Relay.Put, SlotIs;
      SlotOf(Snap(), ci);
      if Holds(h) {
        LinkUses(Snap(), h, ci);
      }
      var kept := clients[ci].crc;
      while |kept| > 8
        modifies {}
        invariant Newest(kept, 8) == Newest(clients[ci].crc, 8) && |kept| <= CRC_SLOTS
      {
        NewestTail(kept);
        kept := kept[1..];
      }
      NewestAll(kept);
      Put(ci, clients[ci].(crc := kept), h);
    }

    /** The partner has an entry for the same tick: it is taken out and compared. */
    method PairOff(p: nat, pi: nat, crc: byte, ghost h: Hub)
      requires Valid() && Index(p) && pi < |clients[p].crc|
      modifies clients, this`stats
      ensures Valid() && Steady(old(clients[..]), clients[..])
      ensures old(Holds(h) && Uses(p)) ==>
                clients[p].partner < MAX_CLIENTS && Holds(h.(room := Struck(old(clients[..]), h.room, p, pi, crc)))
    {
      hide Sane, Models, DropEntry, ClientOf, SlotIs;
      SlotOf(Snap(), p);
      ghost var g := h;
      var q := clients[p];
      DropOne(q.crc, pi);
      if Holds(h) && Uses(p) {
        LinkUses(Snap(), h, p);
        InRoom(Snap(), h, p);
        g := h.(room := Relay.Put(h.room, At(p), ClientOf(clients[..], q.(crc := DropEntry(q.crc, pi)))));
      }
      Put(p, q.(crc := DropEntry(q.crc, pi)), h);
      var after := if q.crc[pi].crc != crc then stats.(bad := stats.bad + 1) else stats.(ok := stats.ok + 1);
      Tally(after, g);
    }

    /** The lap a tick opens. */
    static method Lap(before: nat, last: Option<byte>, tick: byte) returns (lap: nat)
      ensures lap == LapAfter(before, last, tick)
    {
      lap := before;
      if last.Some? {
        var delta := (tick - last.value) % 256;
        if 0 < delta < 128 && tick < last.value {
          lap := lap + 1;
        }
      }
    }

    /** A report in the log: compared with the partner's entry for its tick, or the log cut back. */
    method Settle(ci: nat, key: nat, crc: byte, ghost h: Hub)
      requires Valid() && Index(ci) && Uses(ci)
      modifies clients, this`stats
      ensures Valid() && Steady(old(clients[..]), clients[..]) && Linked(old(clients[..]), ci)
      ensures old(Holds(h)) ==> Holds(h.(room := Settled(old(clients[..]), h.room, ci, key, crc)))
    {
      hide Sane, Models, Find, Evicted, Struck, Steady;
      ghost var st := Snap();
      SlotOf(st, ci);
      var p, pi := clients[ci].partner, -1;
      if p >= 0 {
        SlotOf(st, p);
        pi := CrcFind(clients[p].crc, key);
      }
      if Holds(h) {
        LinkUses(st, h, ci);
      }
      if pi < 0 {
        Evict(ci, h);
      } else {
        PairOff(p, pi, crc, h);
      }
    }

    /** `log_crc`: whatever the tables hold of checksums, nothing else moves; with room in them the log
        is the Python server's. */
    method LogCrc(ci: nat, payload: seq<byte>, ghost h: Hub) returns (ghost g: Hub)
      requires Valid() && Index(ci) && Uses(ci) && |payload| >= GAME_PAYLOAD
      modifies clients, this`stats
      ensures Valid() && Steady(old(clients[..]), clients[..])
      ensures old(Holds(h)) && old(At(ci)) in h.room.clients ==>
                && Holds(g) && g.rx == h.rx && O.Alike(h.room, g.room)
                && (CrcFits(h.room.clients[old(At(ci))], payload) ==> g == h.(room := Relay.LogCrc(h.room, old(At(ci)), payload)))
    {
      hide Sane, Models, SetEntry, Find, Relay.LogCrc, ClientOf, Relay.Put, Settled, LapAfter, O.Alike, Steady, Linked;
      ghost var st, holds := Snap(), Holds(h);
      SlotOf(st, ci);
      var c, tick, crc := clients[ci], payload[0], payload[4];
      var lap := Lap(c.lap, c.last, tick);
      var key := lap * 256 + tick;
      var m := CrcSet(c.crc, key, crc);
      var z := c.(lap := lap, last := Some(tick), crc := m);
      ghost var h1 := h;
      if holds {
        LinkUses(st, h, ci);
        InRoom(st, h, ci);
        SameLog(st, ci);
        h1 := h.(room := Relay.Put(h.room, At(ci), ClientOf(st.cs, z)));
        LoggedAlike(st, h, ci, z);
      }
      Put(ci, z, h);
      g := h1;
      SteadyPut(st.cs, ci, z);
      ghost var zs := clients[..];
      assert Snap() == With(st, ci, z);
      Settle(ci, key, crc, h1);
      SteadyTrans(st.cs, zs, clients[..]);
      if holds {
        g := h1.(room := Settled(zs, h1.room, ci, key, crc));
        SettledAlike(st.(cs := zs), h1, ci, key, crc);
        O.AlikeTrans(h.room, h1.room, g.room);
        if CrcFits(h.room.clients[IdOf(st.cs, ci)], payload) {
          LogStages(st, h, ci, payload, z, h1);
        }
      }
    }

    // ---- frames in --------------------------------------------------------------------

    /** A relayed frame to the partner, padded and never cut. */
    method Forward(ci: nat, p: Packet, ghost h: Hub)
      requires Valid() && Index(ci) && Uses(ci) && |p.payload| < 255
      modifies clients
      ensures Valid() && Steady(old(clients[..]), clients[..])
      ensures old(Holds(h)) && old(At(ci)) in h.room.clients && Roomy(Relay.Forward(h.room, old(At(ci)), p)) ==>
                Holds(h.(room := Relay.Forward(h.room, old(At(ci)), p)))
    {
      hide Sane, Models, Relay.Send, Roomy, SlotIs, Pad;
      SlotOf(Snap(), ci);
      var partner := clients[ci].partner;
      if Holds(h) {
        InRoom(Snap(), h, ci);
        LinkUses(Snap(), h, ci);
      }
      if partner >= 0 {
        var data := Frame(p.kind, Pad(p.payload, GAME_PAYLOAD));
        if Holds(h) && Roomy(Relay.Forward(h.room, At(ci), p)) {
          SentFits(Snap(), h, partner, data);
        }
        ClientSend(partner, data, h);
      }
    }

    /** `handle`: the room goes on as in `Relay`, but for the checksum log when that is full. */
    method Handle(ci: nat, p: Packet, ghost h: Hub) returns (ghost g: Hub)
      requires Valid() && Index(ci) && Uses(ci) && |p.payload| < 255
      modifies this, clients, order, byName
      ensures Valid() && Steady(old(clients[..]), clients[..])
      ensures old(Holds(h)) && old(At(ci)) in h.room.clients && Fits(cfg, h.room, old(At(ci)), p) ==>
                && Holds(g) && g.rx == h.rx && O.Alike(Relay.Handle(cfg, h.room, old(At(ci)), p), g.room)
                && (SumFits(h.room, old(At(ci)), p) ==> g == h.(room := Relay.Handle(cfg, h.room, old(At(ci)), p)))
    {
      hide Sane, Models, Roomy, CrcFits, Relay.Send, Relay.TryPair, Relay.OnHello, Relay.SendLobby, Relay.Drop,
           Relay.LogCrc, Relay.Forward, O.Alike;
      ghost var id := At(ci);
      ghost var fits := Holds(h) && id in h.room.clients && Fits(cfg, h.room, id, p);
      g := h.(room := if id in h.room.clients then Relay.Handle(cfg, h.room, id, p) else h.room);
      AlikeSelf(g.room);
      if Relayed(p.kind) {
        ghost var f := h.(room := if id in h.room.clients then Relay.Forward(h.room, id, p) else h.room);
        if id in h.room.clients && Fits(cfg, h.room, id, p) {
          ForwardFits(cfg, h.room, id, p);
        }
        Forward(ci, p, h);
        if p.kind == W.T_INPUT && |p.payload| >= GAME_PAYLOAD {
          g := LogCrc(ci, p.payload, f);
          if fits {
            O.LogIsAlike(f.room, id, p.payload);
            O.AlikeSym(f.room, Relay.LogCrc(f.room, id, p.payload));
            O.AlikeTrans(Relay.LogCrc(f.room, id, p.payload), f.room, g.room);
          }
        }
      } else if p.kind == T_HELLO {
        OnHello(ci, p.payload, h);
      } else if p.kind == T_LIST {
        SendLobby(ci, h);
      } else if p.kind == T_JOIN {
        TryPair(ci, h);
      } else if p.kind == T_PING {
        if fits {
          SentFits(Snap(), h, ci, Frame(T_PONG, []));
        }
        ClientSend(ci, Frame(T_PONG, []), h);
      } else if p.kind == T_BYE {
        Drop(ci, h);
      }
    }

    // ---- a receive --------------------------------------------------------------------

    /** A length no frame has: counted, and the connection with it. */
    method BadFrame(ci: nat, ghost h: Hub)
      requires Valid() && Index(ci) && Uses(ci)
      modifies clients, order, byName, this`nOrder, this`nByName, this`stats
      ensures Valid() && Handed(old(clients[..]), clients[..])
      ensures old(Holds(h)) && old(At(ci)) in h.room.clients && Roomy(Relay.Drop(CountBad(h.room), old(At(ci)))) ==>
                Holds(h.(room := Relay.Drop(CountBad(h.room), old(At(ci)))))
    {
      hide Sane, Models, Relay.Drop, Roomy, Steady, Handed, CountBad;
      ghost var was := clients[..];
      if Holds(h) {
        CountsBad(Snap(), h);
      }
      Tally(stats.(badFrames := stats.badFrames + 1), h);
      Drop(ci, h.(room := CountBad(h.room)));
      SteadyIsHanded(was, clients[..]);
    }

    /** The receive buffer rewritten. */
    method SetRx(ci: nat, rx: seq<byte>, ghost h: Hub)
      requires Valid() && Index(ci) && Uses(ci) && |rx| <= RX_CAP
      modifies clients
      ensures Valid() && Uses(ci) && At(ci) == old(At(ci)) && clients[ci].rx == rx && Handed(old(clients[..]), clients[..])
      ensures old(Holds(h)) ==> Holds(h.(rx := h.rx[old(At(ci)) := rx]))
    {
      hide Sane, Models, Handed, ClientOf, SlotIs, Relay.Put;
      ghost var st, holds := Snap(), Holds(h);
      SlotOf(st, ci);
      if holds {
        Refilled(st, h, ci, rx);
      }
      Put(ci, clients[ci].(rx := rx), h);
      OneHanded(st.cs, st.cs, ci, clients[ci]);
    }

    /** One whole frame taken off the front of the buffer and handled. */
    method TakeFrame(ci: nat, ghost h: Hub) returns (ghost g: Hub)
      requires Valid() && Index(ci) && Uses(ci) && R.Whole(clients[ci].rx)
      modifies this, clients, order, byName
      ensures Valid() && Uses(ci) && At(ci) == old(At(ci)) && Handed(old(clients[..]), clients[..])
      ensures clients[ci].rx == R.Tail(old(clients[ci].rx)) && |R.Head(old(clients[ci].rx)).payload| < MAX_LEN
      ensures var id, next := old(At(ci)), R.Head(old(clients[ci].rx));
              old(Holds(h)) && id in h.room.clients && Fits(cfg, h.room, id, next) ==>
                && Holds(g) && g.rx == h.rx[id := R.Tail(old(clients[ci].rx))] && O.Alike(Relay.Handle(cfg, h.room, id, next), g.room)
                && (SumFits(h.room, id, next) ==> g.room == Relay.Handle(cfg, h.room, id, next))
    {
      hide Sane, Models, Relay.Handle, Fits, SumFits, O.Alike, R.Head, R.Tail, Handed;
      var buffer := clients[ci].rx;
      var n: int := buffer[0];
      var body := buffer[1..n + 1];
      R.CutFrame(buffer);
      R.OneFrame(buffer);
      ShortEnough(Snap(), ci);
      ghost var was, id := clients[..], At(ci);
      SetRx(ci, buffer[n + 1..], h);
      ghost var before := clients[..];
      g := Handle(ci, Packet(body[0], body[1..]), h.(rx := h.rx[id := buffer[n + 1..]]));
      SteadyKeeps(before, clients[..], ci);
      HandedTrans(was, before, clients[..]);
    }

    /** `service`: the bytes join what is waiting, and the frame loop runs. */
    method Service(ci: nat, data: seq<byte>, ghost h: Hub) returns (ghost g: Hub)
      requires Valid() && Index(ci) && Uses(ci) && |data| <= MAX_RECV
      modifies this, clients, order, byName
      ensures Valid() && Handed(old(clients[..]), clients[..])
      ensures var id := old(At(ci));
              old(Holds(h)) && id in h.room.clients && id in h.rx && ReceiveFits(cfg, h, id, data) ==>
                && Holds(g) && g.rx == Receive(cfg, h, id, data).rx && O.Alike(Receive(cfg, h, id, data).room, g.room)
                && (ReceiveSums(cfg, h, id, data) ==> g == Receive(cfg, h, id, data))
    {
      hide Sane, Models, Parse, Relay.Handle, Relay.Drop, Fits, AllFit, AllSumsFit, SumFits, Roomy, HandleAll, Deliver,
           SlotIs, ClientOf, Framed, O.Alike, Handed, Steady, R.Head, R.Tail, Kept, R.ParsedTo;
      ghost var id, was := At(ci), clients[..];
      ghost var fits := Holds(h) && id in h.room.clients && id in h.rx && ReceiveFits(cfg, h, id, data);
      ghost var sums := fits && ReceiveSums(cfg, h, id, data);
      if Holds(h) {
        SlotHas(Snap(), h, ci);
      }
      g := h;
      if |clients[ci].rx| + |data| > RX_CAP {
        Drop(ci, h);
        SteadyIsHanded(was, clients[..]);
        return;
      }
      ghost var p, done: seq<Packet> := Parse(clients[ci].rx + data), [];
      g := h.(rx := h.rx[id := clients[ci].rx + data]);
      SetRx(ci, clients[ci].rx + data, h);
      LoopStarts(cfg, h, id, clients[ci].rx, sums);
      while true
        invariant Valid() && Uses(ci) && At(ci) == id && Handed(was, clients[..])
        invariant R.ParsedTo(p, done, clients[ci].rx) && Framed(done)
        invariant fits ==> Holds(g) && Kept(cfg, h, id, done, clients[ci].rx, g, sums)
        decreases |clients[ci].rx|
      {
        var buffer := clients[ci].rx;
        if |buffer| < 1 {
          R.Stopped(p, done, buffer);
          if fits {
            EndsWell(cfg, h, id, data, p, done, buffer, g, sums);
          }
          return;
        }
        var n: int := buffer[0];
        if n < 1 || n > MAX_LEN {
          R.Stopped(p, done, buffer);
          ghost var f, before := g, clients[..];
          if fits {
            EndsBadly(cfg, h, id, data, p, done, buffer, f, sums);
            g := f.(room := Relay.Drop(CountBad(f.room), id));
          }
          BadFrame(ci, f);
          HandedTrans(was, before, clients[..]);
          return;
        }
        if |buffer| < n + 1 {
          R.Stopped(p, done, buffer);
          if fits {
            EndsWell(cfg, h, id, data, p, done, buffer, g, sums);
          }
          return;
        }
        R.Advanced(p, done, buffer);
        ghost var next, g0, before := R.Head(buffer), g, clients[..];
        if fits {
          FrameFits(cfg, h, id, p, done, next, buffer, R.Tail(buffer), g, sums);
        }
        g := TakeFrame(ci, g);
        HandedTrans(was, before, clients[..]);
        if fits {
          KeptOn(cfg, h, id, done, next, buffer, clients[ci].rx, g0, g, sums);
        }
        FramedMore(done, next);
        done := done + [next];
      }
    }

    // ---- flush ------------------------------------------------------------------------

    /** The send buffer rewritten. */
    method SetTx(ci: nat, tx: seq<byte>, ghost h: Hub)
      requires Valid() && Index(ci) && Uses(ci) && |tx| <= TX_CAP
      modifies clients
      ensures Valid() && Uses(ci) && At(ci) == old(At(ci)) && clients[ci].tx == tx && Steady(old(clients[..]), clients[..])
      ensures old(Holds(h)) ==>
                var id := old(At(ci)); id in h.room.clients && Holds(h.(room := Relay.Put(h.room, id, h.room.clients[id].(tx := tx))))
    {
      hide Sane, Models, ClientOf, SlotIs, Steady, Relay.Put;
      ghost var st := Snap();
      SlotOf(st, ci);
      if Holds(h) {
        LinkUses(st, h, ci);
        OutputTaken(st, h, ci, tx);
      }
      SteadyPut(st.cs, ci, clients[ci].(tx := tx));
      Put(ci, clients[ci].(tx := tx), h);
    }

    /** A client too far behind is counted and dropped. */
    method Backlog(ci: nat, ghost h: Hub)
      requires Valid() && Index(ci) && Uses(ci)
      modifies this, clients, order, byName
      ensures Valid() && Steady(old(clients[..]), clients[..])
      ensures var id, over := old(At(ci)), |old(clients[ci].tx)| > MAX_BACKLOG;
              old(Holds(h)) && id in h.room.clients && Roomy(O.Overfull(h.room, id, over)) ==>
                Holds(h.(room := O.Overfull(h.room, id, over)))
    {
      hide Sane, Models, Roomy, Relay.Drop, Steady, O.Behind;
      if |clients[ci].tx| > MAX_BACKLOG {
        if Holds(h) {
          CountsBehind(Snap(), h);
        }
        Tally(stats.(txDrops := stats.txDrops + 1), h);
        Drop(ci, h.(room := O.Behind(h.room)));
      } else {
        SteadyIs(clients[..]);
      }
    }

    /** `flush`: one send, then the backlog check on what is left. */
    method Flush(ci: nat, sent: Sent, ghost h: Hub)
      requires Valid() && Index(ci) && Uses(ci) && (sent.Took? ==> sent.n <= |clients[ci].tx|)
      modifies this, clients, order, byName
      ensures Valid() && Steady(old(clients[..]), clients[..])
      ensures var id := old(At(ci));
              old(Holds(h)) && id in h.room.clients && (sent.Took? ==> sent.n <= |h.room.clients[id].tx|)
              && Roomy(Relay.Flush(h.room, id, sent)) ==>
                Holds(h.(room := Relay.Flush(h.room, id, sent)))
    {
      hide Sane, Models, Roomy, Relay.Drop, ClientOf, SlotIs, Steady, Relay.Flush, Relay.Put, O.Overfull;
      ghost var st, id, holds := Snap(), At(ci), Holds(h);
      SlotOf(st, ci);
      var tx := clients[ci].tx;
      var left := if sent.Took? then tx[sent.n..] else tx;
      if holds {
        InRoom(st, h, ci);
        SameOutput(st, ci);
        O.FlushIs(h.room, id, sent, left);
      }
      if tx == [] {
        SteadyIs(st.cs);
      } else if sent.Broken? {
        Drop(ci, h);
      } else {
        SetTx(ci, left, h);
        ghost var zs := clients[..];
        Backlog(ci, if id in h.room.clients then h.(room := Relay.Put(h.room, id, h.room.clients[id].(tx := left))) else h);
        SteadyTrans(st.cs, zs, clients[..]);
      }
    }

    // ---- accept and reap --------------------------------------------------------------

    /** How many live connections come from one address. */
    method FromThere(ip: int) returns (same: nat)
      requires Valid()
      ensures same == SameIp(Snap(), ip, nOrder)
    {
      hide Sane, SameIp;
      ghost var st := Snap();
      NoneFrom(st, ip);
      same := 0;
      var i := 0;
      while i < nOrder
        invariant i <= nOrder && same == SameIp(st, ip, i)
      {
        OrderEntry(st, i);
        IpStep(st, ip, i);
        if clients[order[i]].ip == ip {
          same := same + 1;
        }
        i := i + 1;
      }
    }

    /** `client_alloc`: the first slot not in use. */
    method ClientAlloc(ip: int, born: int, ghost h: Hub) returns (found: bool, slot: nat)
      requires Valid() && nOrder < MAX_CLIENTS
      modifies clients, order, this`nOrder
      ensures Valid() && Index(slot)
      ensures found <==> exists k :: 0 <= k < MAX_CLIENTS && !old(clients[..])[k].inUse
      ensures found ==> !old(clients[..])[slot].inUse && (forall k :: 0 <= k < slot ==> old(clients[..])[k].inUse)
                        && Snap() == Allocated(old(Snap()), slot, ip, born)
      ensures !found ==> Snap() == old(Snap())
      ensures found && old(Holds(h)) ==> old(At(slot)) !in h.room.clients
      ensures found && old(Holds(h)) && FromAddress(h.room, ip, |h.room.order|) < MAX_PER_IP ==>
                Holds(Hub(Relay.Accept(h.room, old(At(slot)), ip, born), h.rx[old(At(slot)) := []]))
    {
      hide Sane, Models, FromAddress, Relay.Put, Fresh, Relay.Accept;
      ghost var st, holds := Snap(), Holds(h);
      slot := 0;
      while slot < MAX_CLIENTS - 1 && clients[slot].inUse
        modifies {}
        invariant slot < MAX_CLIENTS && forall k :: 0 <= k < slot ==> clients[k].inUse
      {
        slot := slot + 1;
      }
      found := !clients[slot].inUse;
      if found {
        clients[slot] := NewSlot(clients[slot].gen, ip, born);
        order[nOrder] := slot;
        nOrder := nOrder + 1;
        assert Snap() == Allocated(st, slot, ip, born);
        SaneAllocated(st, slot, ip, born);
        if holds {
          SameLength(st, h);
          ModelsAllocated(st, h, slot, ip, born);
          if FromAddress(h.room, ip, |h.room.order|) < MAX_PER_IP {
            RoomForOne(h.room, IdOf(st.cs, slot), ip, born);
          }
        }
      } else {
        assert st.cs[slot].inUse;
      }
    }

    /** `accept_client`: both caps, then the first slot not in use. A batch that has dropped someone may
        have none left below the cap, since a dropped client keeps its slot until the batch ends: then
        the connection is refused where the Python server would have taken it, and only then. */
    method AcceptClient(ip: int, born: int, ghost h: Hub) returns (accepted: bool, slot: nat, ghost id: Id)
      requires Valid()
      modifies this, clients, order
      ensures Valid() && Index(slot)
      ensures accepted <==> |old(Snap()).ord| < MAX_CLIENTS && SameIp(old(Snap()), ip, |old(Snap()).ord|) < MAX_PER_IP
                            && exists k :: 0 <= k < MAX_CLIENTS && !old(clients[..])[k].inUse
      ensures accepted ==> !old(clients[..])[slot].inUse && (forall k :: 0 <= k < slot ==> old(clients[..])[k].inUse)
                           && id == old(At(slot)) && Snap() == Allocated(old(Snap()), slot, ip, born)
      ensures !accepted ==> Snap() == old(Snap()).(stats := stats)
      ensures !accepted && SameIp(old(Snap()), ip, |old(Snap()).ord|) < MAX_PER_IP ==> stats == old(stats)
      ensures old(Holds(h)) ==>
                && SameIp(old(Snap()), ip, |old(Snap()).ord|) == FromAddress(h.room, ip, |h.room.order|) && id !in h.room.clients
                && |old(Snap()).ord| == |h.room.order|
      ensures old(Holds(h) && (|Snap().ord| < MAX_CLIENTS && SameIp(Snap(), ip, |Snap().ord|) < MAX_PER_IP ==>
                exists k :: 0 <= k < MAX_CLIENTS && !clients[k].inUse)) ==>
                Holds(Hub(Relay.Accept(h.room, id, ip, born), h.rx[id := []]))
    {
      hide Sane, Models, FromAddress, SameIp, Relay.Accept, Allocated;
      ghost var st, holds := Snap(), Holds(h);
      accepted, slot, id := false, 0, Unused(st.cs);
      if holds {
        SameLength(st, h);
        UnusedIsFresh(st, h);
        SameAddresses(st, h, ip, |st.ord|);
        RxElsewhere(st, h, id);
      }
      if nOrder >= MAX_CLIENTS {
        if holds {
          FullHouse(h.room, id, ip, born);
        }
        return;
      }
      var same := FromThere(ip);
      if same >= MAX_PER_IP {
        if holds {
          Counts(st, h);
          FullAddress(h.room, id, ip, born);
        }
        Tally(stats.(ipRejects := stats.ipRejects + 1), h.(rx := h.rx[id := []]));
        return;
      }
      accepted, slot := ClientAlloc(ip, born, h);
      if accepted {
        id := IdOf(st.cs, slot);
      }
    }

    /** One readiness report: the tag's generation tells a live client from one whose slot has been
        reused since, exactly as the Python server tells objects apart. Readable is served first, and
        nothing or an error read is a drop; then, if it is still there, writable is flushed. */
    method Ready(tag: Id, read: Option<seq<byte>>, write: Option<Sent>, ghost h: Hub) returns (ghost g: Hub)
      requires Valid() && (read.Some? ==> |read.value| <= MAX_RECV)
      modifies this, clients, order, byName
      ensures Valid() && Handed(old(clients[..]), clients[..])
      ensures old(Holds(h)) && ReadyFits(cfg, h, tag, read, write) ==>
                && Holds(g) && g.rx == Heard(cfg, h, tag, read, write).rx
                && O.Alike(Heard(cfg, h, tag, read, write).room, g.room)
                && (ReadSums(cfg, h, tag, read) ==> g == Heard(cfg, h, tag, read, write))
    {
      hide Sane, Models, Receive, ReceiveFits, ReceiveSums, Relay.Drop, Relay.Flush, Roomy, O.Alike, Handed;
      ghost var st, fits := Snap(), Holds(h) && ReadyFits(cfg, h, tag, read, write);
      ghost var sums := fits && ReadSums(cfg, h, tag, read);
      var ci := tag % MAX_CLIENTS;
      g := h;
      AlikeSelf(h.room);
      SelfHanded(st.cs);
      if Holds(h) {
        TagTells(st, h, tag);
        LiveIsKnown(st, h, tag);
      }
      if !clients[ci].inUse || clients[ci].gen != tag / MAX_CLIENTS || clients[ci].dead {
        return;
      }
      if read.Some? {
        if read.value == [] {
          g := h.(room := if tag in h.room.clients then Relay.Drop(h.room, tag) else h.room);
          AlikeSelf(g.room);
          Drop(ci, h);
          SteadyIsHanded(st.cs, clients[..]);
        } else {
          g := Service(ci, read.value, h);
        }
      }
      ghost var g1, cs1 := g, clients[..];
      if write.Some? && !clients[ci].dead {
        StillUses(st.cs, clients[..], ci);
        var sent := Clip(write.value, |clients[ci].tx|);
        if fits {
          WriteStage(cfg, h, tag, read, write, Snap(), g1, sums);
          g := g1.(room := Relay.Flush(g1.room, tag, sent));
        }
        Flush(ci, sent, g1);
        SteadyIsHanded(cs1, clients[..]);
        HandedTrans(st.cs, cs1, clients[..]);
      } else if fits {
        NoWrite(cfg, h, tag, read, write, Snap(), g1, sums);
      }
    }

    /** `reap`: free every slot `drop` retired. The tables go on holding the room exactly when no live
        client's partner is a dropped one; otherwise its index comes to name whoever gets the slot next. */
    method Reap(ghost h: Hub)
      requires Valid()
      modifies clients
      ensures Valid() && (old(Holds(h)) ==> (Holds(h) <==> NoDangling(h.room)))
      ensures forall k :: 0 <= k < MAX_CLIENTS ==> clients[k] == Freed(old(clients[k]))
    {
      hide Sane, Models, NoDangling;
      ghost var st := Snap();
      var i := 0;
      while i < MAX_CLIENTS
        modifies clients
        invariant i <= MAX_CLIENTS
        invariant forall k :: 0 <= k < i ==> clients[k] == Freed(old(clients[k]))
        invariant forall k :: i <= k < MAX_CLIENTS ==> clients[k] == old(clients[k])
      {
        if clients[i].inUse && clients[i].dead {
          clients[i] := clients[i].(inUse := false, gen := clients[i].gen + 1);
        }
        i := i + 1;
      }
      assert Reaped(st, Snap());
      SaneReaped(st, Snap());
      if Models(st, h) {
        if NoDangling(h.room) {
          ModelsReaped(st, h, Snap());
        }
        if Models(Snap(), h) {
          ReapNeeds(st, h, Snap());
        }
      }
    }
  }

  lemma SaneNames(st: Store, e: NameEntry)
    requires Sane(st) && Index(e.ci)
    ensures |SetName(st.tab, e)| <= NAME_SLOTS && Sane(st.(tab := SetName(st.tab, e)))
  {
  }

  lemma NameAt(tab: seq<NameEntry>, name: Name, i: nat, ci: nat, gen: nat)
    requires i < |tab| && tab[i].name == name != [] && Index(ci) && Index(tab[i].ci)
    ensures forall names :: TableIs(tab, names) ==>
              TableIs(if tab[i].ci == ci && tab[i].gen == gen then tab[..i] + tab[i + 1..] else tab,
                      Unname(names, name, Tag(gen, ci)))
  {
    TagIsUnique(tab[i].gen, tab[i].ci, gen, ci);
    forall names | TableIs(tab, names)
      ensures TableIs(if tab[i].ci == ci && tab[i].gen == gen then tab[..i] + tab[i + 1..] else tab,
                      Unname(names, name, Tag(gen, ci)))
    {
      TableRemove(tab, names, i);
    }
  }

  lemma NameNowhere(tab: seq<NameEntry>, name: Name, id: Id)
    requires forall k :: 0 <= k < |tab| ==> tab[k].name != name
    ensures forall names :: TableIs(tab, names) ==> TableIs(tab, Unname(names, name, id))
  {
  }

  lemma SlotOf(st: Store, ci: nat)
    requires Sane(st) && Index(ci)
    ensures SaneSlot(st.cs[ci])
    ensures ci in st.ord <==> st.cs[ci].inUse && !st.cs[ci].dead
  {
  }

  lemma SendIsPut(st: Store, h: Hub, ci: nat, data: seq<byte>)
    requires Models(st, h) && Index(ci) && st.cs[ci].inUse && |st.cs[ci].tx| + |data| <= TX_CAP
    ensures var s := st.cs[ci].(tx := st.cs[ci].tx + data);
            && SaneSlot(s) && (s.partner >= 0 ==> st.cs[s.partner].inUse)
            && Relay.Put(h.room, IdOf(st.cs, ci), ClientOf(st.cs, s)) == Relay.Send(h.room, IdOf(st.cs, ci), data)
  {
    assert SlotIs(st.cs, ci, h);
  }

  lemma ScanStep(st: Store, h: Hub, ci: nat, i: nat, other: int)
    requires Models(st, h) && Index(ci) && st.cs[ci].inUse && i < |st.ord| && -1 <= other < MAX_CLIENTS
    requires Link(st.cs, other) == Oldest(h.room, IdOf(st.cs, ci), i)
    requires other >= 0 ==> st.cs[other].inUse
    ensures var o := st.ord[i];
            && st.cs[o].inUse
            && Link(st.cs, if o == ci || st.cs[o].name == [] || st.cs[o].partner >= 0 then other
                           else if other < 0 || st.cs[o].born < st.cs[other].born then o else other)
               == Oldest(h.room, IdOf(st.cs, ci), i + 1)
  {
    var o := st.ord[i];
    assert o in st.ord;
    SlotHasClient(st, h, o);
    TagIsUnique(st.cs[ci].gen, ci, st.cs[o].gen, o);
    if other >= 0 {
      SlotHasClient(st, h, other);
    }
    assert h.room.order[i] == IdOf(st.cs, o);
  }

  lemma SteadyLinks(cs: seq<Slot>, i: nat, j: nat, zs: seq<Slot>)
    requires |cs| == |zs| && i < |cs| && j < |cs| && SameHands(cs[i], zs[i]) && SameHands(cs[j], zs[j])
    requires forall k :: 0 <= k < |cs| && k != i && k != j ==> zs[k] == cs[k]
    ensures Steady(cs, zs)
  {
  }

  lemma Recount(st: Store, h: Hub, drawn: nat, matched: nat, stats: Stats)
    requires Sane(st)
    ensures Sane(st.(drawn := drawn, matched := matched, stats := stats))
    ensures Models(st, h) ==>
              Models(st.(drawn := drawn, matched := matched, stats := stats),
                     h.(room := h.room.(drawn := drawn, matched := matched, stats := stats)))
  {
  }

  function Linking(cs: seq<Slot>, i: nat, partner: nat, role: int): Slot
    requires i < |cs|
  {
    cs[i].(partner := partner, role := role)
  }

  function Greeted(cfg: Config, w: Room, me: Id, them: Id, role: byte, seed: Word): Room
    requires me in w.clients && them in w.clients
  {
    var c := w.clients[me];
    Relay.Put(w, me, c.(crc := [], tx := c.tx + StartFrame(cfg, role, seed, Short(w.clients[them].name))))
  }

  /** The rooms between the steps of a pairing, the last of them the room `try_pair` leaves. */
  /** The room with both linked and neither greeted. */
  function Coupled(cs: seq<Slot>, h: Hub, host: nat, guest: nat): Hub
    requires host < |cs| && guest < |cs|
  {
    var w1 := Relay.Put(h.room, IdOf(cs, host), ClientOf(cs, Linking(cs, host, guest, 0)));
    h.(room := Relay.Put(w1, IdOf(cs, guest), ClientOf(cs[host := Linking(cs, host, guest, 0)], Linking(cs, guest, host, 1))))
  }

  lemma PairStages(cfg: Ported, st: Store, h: Hub, host: nat, guest: nat) returns (h2: Hub, h3: Hub, h4: Hub)
    requires Models(st, h) && Index(host) && Index(guest) && st.cs[host].inUse && st.cs[guest].inUse
    requires Oldest(h.room, IdOf(st.cs, guest), |h.room.order|) == Some(IdOf(st.cs, host))
    ensures var id, oid, seed := IdOf(st.cs, guest), IdOf(st.cs, host), cfg.seeds(st.matched);
            var z := Relay.TryPair(cfg, h.room, id);
            && host != guest
            && h2 == Coupled(st.cs, h, host, guest)
            && id in h2.room.clients && oid in h2.room.clients
            && h3 == h2.(room := Greeted(cfg, h2.room, oid, id, 0, seed))
            && id in h3.room.clients && oid in h3.room.clients
            && h4 == h3.(room := Greeted(cfg, h3.room, id, oid, 1, seed))
            && h4.(room := h4.room.(matched := z.matched, stats := z.stats)) == h.(room := z)
            && z.matched == st.matched + 1 && z.stats == st.stats.(matches := st.stats.matches + 1)
            && h4.room.drawn == st.drawn && z.drawn == st.drawn
            && (Roomy(z) ==> |st.cs[host].tx| + 15 <= TX_CAP && |st.cs[guest].tx| + 15 <= TX_CAP)
  {
    hide TableIs, Fresh, OrderIs, StartFrame, Short, Oldest, Relay.TryPair, Roomy;
    var id, oid, seed := IdOf(st.cs, guest), IdOf(st.cs, host), cfg.seeds(st.matched);
    assert SlotIs(st.cs, host, h) && SlotIs(st.cs, guest, h) && oid != id;
    ClientsLookAlike(st.cs, host, Linking(st.cs, host, guest, 0), Linking(st.cs, guest, host, 1));
    h2 := Coupled(st.cs, h, host, guest);
    h3 := h2.(room := Greeted(cfg, h2.room, oid, id, 0, seed));
    h4 := h3.(room := Greeted(cfg, h3.room, id, oid, 1, seed));
    PairIsGreeted(cfg, h.room, id, oid, h4.room);
  }

  /** Linking both and then greeting both is what a pairing does. */
  lemma PairIsGreeted(cfg: Ported, w: Room, id: Id, oid: Id, r: Room)
    requires id in w.clients && oid in w.clients && id != oid && Oldest(w, id, |w.order|) == Some(oid)
    requires var c, o, seed := w.clients[id], w.clients[oid], cfg.seeds(w.matched);
             var w1 := Relay.Put(w, oid, o.(partner := Some(id), role := 0));
             var w2 := Relay.Put(w1, id, c.(partner := Some(oid), role := 1));
             r == Greeted(cfg, Greeted(cfg, w2, oid, id, 0, seed), id, oid, 1, seed)
    ensures var z := Relay.TryPair(cfg, w, id);
            && r.(matched := z.matched, stats := z.stats) == z
            && z.matched == w.matched + 1 && z.stats == w.stats.(matches := w.stats.matches + 1)
            && r.drawn == z.drawn == w.drawn
            && (Roomy(z) ==> |w.clients[oid].tx| + 15 <= TX_CAP && |w.clients[id].tx| + 15 <= TX_CAP)
  {
    hide Oldest, StartFrame, Short;
    assert r.clients == Relay.TryPair(cfg, w, id).clients;
  }

  lemma InRoom(st: Store, h: Hub, ci: nat)
    requires Models(st, h) && Index(ci) && st.cs[ci].inUse
    ensures var id := IdOf(st.cs, ci);
            && id in h.room.clients && id in h.rx && h.room.clients[id].name == st.cs[ci].name
            && h.room.clients[id] == ClientOf(st.cs, st.cs[ci])
            && h.room.drawn == st.drawn && h.room.matched == st.matched && h.room.stats == st.stats
  {
    assert SlotIs(st.cs, ci, h);
  }

  lemma OldestOfNone(w: Room, id: Id)
    ensures Oldest(w, id, 0) == None
  {
  }

  lemma SameLength(st: Store, h: Hub)
    requires Models(st, h)
    ensures |h.room.order| == |st.ord|
  {
  }

  lemma OrderEntry(st: Store, i: nat)
    requires Sane(st) && i < |st.ord|
    ensures Index(st.ord[i]) && SaneSlot(st.cs[st.ord[i]]) && st.cs[st.ord[i]].inUse
  {
    assert st.ord[i] in st.ord;
  }

  lemma GreetIs(st: Store, h: Hub, me: nat, start: seq<byte>)
    requires Models(st, h) && Index(me) && st.cs[me].inUse
    ensures var id := IdOf(st.cs, me);
            var s := st.cs[me].(crc := []);
            && SaneSlot(s) && (s.partner >= 0 ==> st.cs[s.partner].inUse)
            && id in h.room.clients
            && Relay.Send(Relay.Put(h.room, id, ClientOf(st.cs, s)), id, start)
               == Relay.Put(h.room, id, h.room.clients[id].(crc := [], tx := h.room.clients[id].tx + start))
  {
    assert SlotIs(st.cs, me, h);
    var id := IdOf(st.cs, me);
    var c := h.room.clients[id];
    assert h.room.clients[id := c.(crc := [])][id := c.(crc := [], tx := c.tx + start)]
        == h.room.clients[id := c.(crc := [], tx := c.tx + start)];
  }

  lemma GoneAlready(st: Store, h: Hub, ci: nat)
    requires Models(st, h) && Index(ci) && st.cs[ci].inUse && st.cs[ci].dead
    ensures IdOf(st.cs, ci) in h.room.clients && Relay.Drop(h.room, IdOf(st.cs, ci)) == h.room
  {
    SlotHasClient(st, h, ci);
  }

  lemma SaneTables(st: Store)
    requires Sane(st)
    ensures TableInRange(st.tab) && Distinct(st.ord)
  {
  }

  lemma NoName(names: map<Name, Id>, id: Id)
    ensures Unname(names, [], id) == names
  {
  }

  lemma HasNames(st: Store, h: Hub)
    requires Models(st, h)
    ensures TableIs(st.tab, h.room.names)
  {
  }

  /** A room without a client's name and place. */
  function Unlisted(h: Hub, id: Id, name: Name): Hub {
    h.(room := h.room.(names := Unname(h.room.names, name, id), order := Without(h.room.order, id)))
  }

  /** The rooms between the steps of a drop, the last of them the room `drop` leaves. */
  lemma DropStages(st: Store, h: Hub, ci: nat) returns (h1: Hub, h2: Hub, h3: Hub)
    requires Models(st, h) && Index(ci) && st.cs[ci].inUse && !st.cs[ci].dead
    ensures var id, p := IdOf(st.cs, ci), st.cs[ci].partner;
            var zs := st.cs[ci := st.cs[ci].(dead := true)];
            && id in h.room.clients
            && h1 == Unlisted(h, id, st.cs[ci].name)
            && h3 == h.(room := Relay.Drop(h.room, id))
            && (p < 0 ==> h3 == h1)
            && (p >= 0 ==>
                  && st.cs[p].inUse
                  && h2 == h1.(room := Relay.Put(h1.room, IdOf(zs, p), ClientOf(zs, zs[p].(partner := -1))))
                  && h3 == h2.(room := Relay.Send(h2.room, IdOf(zs, p), Frame(W.T_LEFT, seq(GAME_PAYLOAD, (_: nat) => 0 as byte))))
                  && (Roomy(h3.room) ==> |st.cs[p].tx| + W.FRAME_LEN <= TX_CAP))
  {
    hide TableIs, Fresh, OrderIs, Without, Unname;
    SlotHasClient(st, h, ci);
    var id, p := IdOf(st.cs, ci), st.cs[ci].partner;
    var zs := st.cs[ci := st.cs[ci].(dead := true)];
    h1 := Unlisted(h, id, st.cs[ci].name);
    h2 := h1;
    h3 := h.(room := Relay.Drop(h.room, id));
    if p >= 0 {
      assert SlotIs(st.cs, p, h);
      h2 := h1.(room := Relay.Put(h1.room, IdOf(zs, p), ClientOf(zs, zs[p].(partner := -1))));
      assert h2.room.clients == h1.room.clients[IdOf(st.cs, p) := h1.room.clients[IdOf(st.cs, p)].(partner := None)];
    }
  }

  // ---- HELLO ----------------------------------------------------------------------------

  lemma TakenIs(st: Store, h: Hub, name: Name)
    requires Models(st, h)
    ensures name in h.room.names <==> exists k :: 0 <= k < |st.tab| && st.tab[k].name == name
  {
  }

  lemma HelloDrops(cfg: Config, w: Room, id: Id, payload: seq<byte>)
    requires Asked(payload).None?
    ensures id in w.clients ==> Relay.OnHello(cfg, w, id, payload) == Relay.Drop(w, id)
  {
    hide Asked, Relay.Drop;
  }

  lemma HelloNames(cfg: Config, w: Room, id: Id, payload: seq<byte>, name: Name, drawn: nat)
    requires id in w.clients && Asked(payload).Some?
    requires Resolve(cfg, w.names, Asked(payload).value, w.drawn, MAX_TRIES) == Some((name, drawn))
    ensures Relay.OnHello(cfg, w, id, payload) == Relay.TryPair(cfg, Rename(w, id, name, drawn), id)
    ensures Rename(w.(drawn := drawn), id, name, drawn) == Rename(w, id, name, drawn)
  {
    hide Asked, Relay.TryPair, Resolve;
  }

  lemma Drawn(st: Store, h: Hub, drawn: nat)
    requires Models(st, h)
    ensures Models(st.(drawn := drawn), h.(room := h.room.(drawn := drawn)))
  {
  }

  lemma SteadyTrans(cs: seq<Slot>, zs: seq<Slot>, ws: seq<Slot>)
    requires Steady(cs, zs) && Steady(zs, ws)
    ensures Steady(cs, ws)
  {
  }

  lemma HelloGivesUp(cfg: Config, w: Room, id: Id, payload: seq<byte>)
    requires cfg.port && id in w.clients && Asked(payload).Some?
    requires Resolve(cfg, w.names, Asked(payload).value, w.drawn, MAX_TRIES) == None
    ensures Relay.OnHello(cfg, w, id, payload) == Relay.Drop(w.(drawn := w.drawn + MAX_TRIES), id)
  {
    hide Asked, Resolve, Without, Unname, Frame;
  }

  lemma PairNames(cfg: Config, w: Room, id: Id)
    requires id in w.clients
    ensures Relay.TryPair(cfg, w, id).names == w.names
  {
  }

  lemma RoomForName(cfg: Config, st: Store, h: Hub, ci: nat, payload: seq<byte>)
    requires Models(st, h) && Index(ci) && st.cs[ci].inUse && Asked(payload).Some?
    requires IdOf(st.cs, ci) in h.room.clients && Roomy(Relay.OnHello(cfg, h.room, IdOf(st.cs, ci), payload))
    requires Resolve(cfg, h.room.names, Asked(payload).value, h.room.drawn, MAX_TRIES).Some?
    ensures |st.tab| < NAME_SLOTS
  {
    HasNames(st, h);
    hide Asked, Relay.TryPair, Resolve, TableIs, Models;
    var free := Resolve(cfg, h.room.names, Asked(payload).value, h.room.drawn, MAX_TRIES).value;
    PairNames(cfg, Rename(h.room, IdOf(st.cs, ci), free.0, free.1), IdOf(st.cs, ci));
    TableSize(st.tab, h.room.names);
  }

  lemma ModelsRename(st: Store, h: Hub, ci: nat, name: Name)
    requires Models(st, h) && Index(ci) && st.cs[ci].inUse && IdOf(st.cs, ci) in h.room.clients
    requires forall k :: 0 <= k < |st.tab| ==> st.tab[k].name != name
    requires |st.tab| < NAME_SLOTS
    ensures var s := st.cs[ci].(name := name);
            Models(With(st, ci, s).(tab := st.tab + [NameEntry(name, ci, st.cs[ci].gen)]),
                   h.(room := Rename(h.room, IdOf(st.cs, ci), name, h.room.drawn)))
  {
    hide TableIs, OrderIs, Fresh;
    SlotOf(st, ci);
    var s := st.cs[ci].(name := name);
    var id := IdOf(st.cs, ci);
    assert SlotIs(st.cs, ci, h);
    ModelsWith(st, h, ci, s);
    assert h.rx[id := s.rx] == h.rx;
    TakenIs(st, h, name);
    TableAdd(st.tab, h.room.names, name, ci, st.cs[ci].gen);
    var g := h.(room := Relay.Put(h.room, id, ClientOf(st.cs, s)));
    NewTable(With(st, ci, s), g, st.tab + [NameEntry(name, ci, st.cs[ci].gen)], h.room.names[name := id]);
  }

  lemma NewTable(st: Store, h: Hub, tab: seq<NameEntry>, names: map<Name, Id>)
    requires Models(st, h) && TableIs(tab, names) && |tab| <= NAME_SLOTS
    requires forall k :: 0 <= k < |tab| ==> tab[k].ci < MAX_CLIENTS
    ensures Models(st.(tab := tab), h.(room := h.room.(names := names)))
  {
    hide TableIs;
  }

  // ---- the lobby ------------------------------------------------------------------------

  lemma ListedNone(w: Room)
    ensures Listed(w, 0) == [] && LobbyRows(w, []) == []
  {
  }

  lemma LobbyStep(st: Store, h: Hub, i: nat)
    requires Models(st, h) && i < |st.ord|
    ensures var o, ids := st.ord[i], Listed(h.room, i);
            && i < |h.room.order|
            && (if st.cs[o].name != [] && |ids| < 8 then
                  && |Listed(h.room, i + 1)| == |ids| + 1
                  && LobbyRows(h.room, Listed(h.room, i + 1)) == LobbyRows(h.room, ids)
                       + Pad(Short(st.cs[o].name), 8) + [if st.cs[o].partner >= 0 then 1 else 0]
                else Listed(h.room, i + 1) == ids)
  {
    hide Pad, Short;
    var o, ids := st.ord[i], Listed(h.room, i);
    OrderEntry(st, i);
    assert SlotIs(st.cs, o, h) && h.room.order[i] == IdOf(st.cs, o);
    assert (ids + [IdOf(st.cs, o)])[..|ids|] == ids;
  }

  lemma SentFits(st: Store, h: Hub, ci: nat, data: seq<byte>)
    requires Models(st, h) && Index(ci) && st.cs[ci].inUse
    requires Roomy(Relay.Send(h.room, IdOf(st.cs, ci), data))
    ensures |st.cs[ci].tx| + |data| <= TX_CAP
  {
    assert SlotIs(st.cs, ci, h);
  }

  // ---- checksums ------------------------------------------------------------------------

  lemma {:induction false} NotYet(m: seq<Entry>, key: nat, i: nat)
    requires i < |m| && i <= Find(m, key) && m[i].key != key
    ensures i + 1 <= Find(m, key)
  {
  }

  lemma NewestTail(m: seq<Entry>)
    requires |m| > 8
    ensures Newest(m[1..], 8) == Newest(m, 8)
  {
  }

  lemma NewestAll(m: seq<Entry>)
    requires |m| <= 8
    ensures Newest(m, 8) == m
  {
  }

  lemma DropOne(m: seq<Entry>, i: nat)
    requires i < |m|
    ensures |DropEntry(m, i)| == |m| - 1
  {
  }

  lemma LinkUses(st: Store, h: Hub, ci: nat)
    requires Models(st, h) && Index(ci) && st.cs[ci].inUse
    ensures st.cs[ci].partner >= 0 ==> st.cs[st.cs[ci].partner].inUse
  {
    assert SlotIs(st.cs, ci, h);
  }

  lemma SameLog(st: Store, ci: nat)
    requires Sane(st) && Index(ci)
    ensures var c := ClientOf(st.cs, st.cs[ci]);
            c.crc == st.cs[ci].crc && c.lap == st.cs[ci].lap && c.last == st.cs[ci].last
  {
  }

  /** A slot with other checksums is the same client but for them. */
  lemma LoggedAlike(st: Store, h: Hub, ci: nat, z: Slot)
    requires Models(st, h) && Index(ci) && st.cs[ci].inUse && z == st.cs[ci].(crc := z.crc, lap := z.lap, last := z.last)
    ensures z.partner < |st.cs| && O.Alike(h.room, Relay.Put(h.room, IdOf(st.cs, ci), ClientOf(st.cs, z)))
  {
    hide TableIs, Fresh, OrderIs;
    assert SlotIs(st.cs, ci, h);
  }

  /** The room with a client's log cut back to the newest eight. */
  function Evicted(cs: seq<Slot>, w: Room, ci: nat): Room
    requires ci < |cs| && cs[ci].partner < |cs|
  {
    Relay.Put(w, IdOf(cs, ci), ClientOf(cs, cs[ci].(crc := Newest(cs[ci].crc, 8))))
  }

  /** The room with an entry of the partner's log compared and struck out. */
  function Struck(cs: seq<Slot>, w: Room, p: nat, pi: nat, crc: byte): Room
    requires p < |cs| && cs[p].partner < |cs| && pi < |cs[p].crc|
  {
    Relay.Put(w, IdOf(cs, p), ClientOf(cs, cs[p].(crc := DropEntry(cs[p].crc, pi)))).(
      stats := if cs[p].crc[pi].crc != crc then w.stats.(bad := w.stats.bad + 1) else w.stats.(ok := w.stats.ok + 1))
  }

  predicate Linked(cs: seq<Slot>, ci: nat) {
    ci < |cs| && cs[ci].partner < |cs| && (cs[ci].partner >= 0 ==> cs[cs[ci].partner].partner < |cs|)
  }

  function Settled(cs: seq<Slot>, w: Room, ci: nat, key: nat, crc: byte): Room
    requires Linked(cs, ci)
  {
    var p := cs[ci].partner;
    if p >= 0 && Find(cs[p].crc, key) < |cs[p].crc| then Struck(cs, w, p, Find(cs[p].crc, key), crc)
    else Evicted(cs, w, ci)
  }

  lemma SettledAlike(st: Store, h: Hub, ci: nat, key: nat, crc: byte)
    requires Models(st, h) && Index(ci) && st.cs[ci].inUse && Linked(st.cs, ci)
    ensures O.Alike(h.room, Settled(st.cs, h.room, ci, key, crc))
  {
    LinkUses(st, h, ci);
    var p := st.cs[ci].partner;
    if p >= 0 && Find(st.cs[p].crc, key) < |st.cs[p].crc| {
      StruckAlike(st, h, p, Find(st.cs[p].crc, key), crc);
    } else {
      hide Newest;
      LoggedAlike(st, h, ci, st.cs[ci].(crc := Newest(st.cs[ci].crc, 8)));
    }
  }

  lemma StruckAlike(st: Store, h: Hub, p: nat, pi: nat, crc: byte)
    requires Models(st, h) && Index(p) && st.cs[p].inUse && st.cs[p].partner < |st.cs| && pi < |st.cs[p].crc|
    ensures O.Alike(h.room, Struck(st.cs, h.room, p, pi, crc))
  {
    var s := st.cs[p].(crc := DropEntry(st.cs[p].crc, pi));
    LoggedAlike(st, h, p, s);
    hide Models, DropEntry, ClientOf, IdOf;
    assert Relay.Put(h.room, IdOf(st.cs, p), ClientOf(st.cs, s)).stats == h.room.stats;
  }

  lemma SteadyIs(cs: seq<Slot>)
    ensures Steady(cs, cs)
  {
  }

  lemma SteadyPut(cs: seq<Slot>, ci: nat, z: Slot)
    requires ci < |cs| && SameHands(cs[ci], z)
    ensures Steady(cs, cs[ci := z])
  {
  }

  lemma EvictedIs(cs: seq<Slot>, w: Room, ci: nat)
    requires ci < |cs| && cs[ci].partner < |cs| && IdOf(cs, ci) in w.clients
    requires w.clients[IdOf(cs, ci)] == ClientOf(cs, cs[ci])
    ensures Evicted(cs, w, ci) == Relay.Trim(w, IdOf(cs, ci))
  {
  }

  lemma StruckIs(cs: seq<Slot>, w: Room, p: nat, pi: nat, crc: byte)
    requires p < |cs| && cs[p].partner < |cs| && pi < |cs[p].crc| && IdOf(cs, p) in w.clients
    requires w.clients[IdOf(cs, p)] == ClientOf(cs, cs[p])
    ensures var id, q := IdOf(cs, p), w.clients[IdOf(cs, p)];
            Struck(cs, w, p, pi, crc) == Relay.Put(w, id, q.(crc := DropEntry(q.crc, pi))).(
              stats := if q.crc[pi].crc != crc then w.stats.(bad := w.stats.bad + 1) else w.stats.(ok := w.stats.ok + 1))
  {
  }

  /** A slot with a report more in its log, as a client. */
  lemma LoggedClient(cs: seq<Slot>, ci: nat, z: Slot)
    requires ci < |cs| && cs[ci].partner < |cs| && z == cs[ci].(lap := z.lap, last := z.last, crc := z.crc)
    ensures var c := ClientOf(cs, cs[ci]);
            && ClientOf(cs, z) == c.(lap := z.lap, last := z.last, crc := z.crc)
            && c.crc == cs[ci].crc && c.lap == cs[ci].lap && c.last == cs[ci].last && c.partner == Link(cs, cs[ci].partner)
  {
  }

  /** `log_crc` once the report is in the log and the room is `w1`. */
  lemma LogGoesOn(w: Room, id: Id, payload: seq<byte>, c: Client, w1: Room)
    requires id in w.clients && |payload| >= GAME_PAYLOAD && w.clients[id] == c && id in w1.clients && w1.stats == w.stats
    requires var lap := LapAfter(c.lap, c.last, payload[0]);
             w1 == Relay.Put(w, id, c.(lap := lap, last := Some(payload[0]), crc := SetEntry(c.crc, lap * 256 + payload[0], payload[4])))
    ensures var key, r := LapAfter(c.lap, c.last, payload[0]) * 256 + payload[0], Relay.LogCrc(w, id, payload);
            if c.partner.None? || c.partner.value !in w1.clients then r == Relay.Trim(w1, id) else
              var q := w1.clients[c.partner.value];
              var i := Find(q.crc, key);
              if i == |q.crc| then r == Relay.Trim(w1, id) else
                r == Relay.Put(w1, c.partner.value, q.(crc := DropEntry(q.crc, i))).(
                  stats := if q.crc[i].crc != payload[4] then w1.stats.(bad := w1.stats.bad + 1)
                           else w1.stats.(ok := w1.stats.ok + 1))
  {
    hide Find, SetEntry, DropEntry, LapAfter, Relay.Trim;
  }

  /** How `log_crc` goes on once the report is in the log. */
  lemma LogStages(st: Store, h: Hub, ci: nat, payload: seq<byte>, z: Slot, h1: Hub)
    requires Models(st, h) && |st.cs| == MAX_CLIENTS && Index(ci) && st.cs[ci].inUse && |payload| >= GAME_PAYLOAD
    requires var c := st.cs[ci];
             var lap := LapAfter(c.lap, c.last, payload[0]);
             z == c.(lap := lap, last := Some(payload[0]), crc := SetEntry(c.crc, lap * 256 + payload[0], payload[4]))
    requires z.partner < |st.cs| && h1 == h.(room := Relay.Put(h.room, IdOf(st.cs, ci), ClientOf(st.cs, z)))
    requires Linked(st.cs[ci := z], ci) && Models(With(st, ci, z), h1)
    ensures IdOf(st.cs, ci) in h.room.clients
    ensures Relay.LogCrc(h.room, IdOf(st.cs, ci), payload) ==
            Settled(st.cs[ci := z], h1.room, ci, z.lap * 256 + payload[0], payload[4])
  {
    hide Models, Sane, Evicted, Struck, SetEntry, Find, DropEntry, LapAfter, Relay.Trim, Tag, Newest, Relay.LogCrc, ClientOf;
    var zs, y, p, key := st.cs[ci := z], With(st, ci, z), z.partner, z.lap * 256 + payload[0];
    InRoom(st, h, ci);
    InRoom(y, h1, ci);
    LoggedClient(st.cs, ci, z);
    LogGoesOn(h.room, IdOf(st.cs, ci), payload, ClientOf(st.cs, st.cs[ci]), h1.room);
    EvictedIs(zs, h1.room, ci);
    LinkUses(y, h1, ci);
    if p >= 0 {
      InRoom(y, h1, p);
      LoggedClient(zs, p, zs[p]);
      if Find(zs[p].crc, key) < |zs[p].crc| {
        StruckIs(zs, h1.room, p, Find(zs[p].crc, key), payload[4]);
      }
    }
  }

  // ---- frames in ------------------------------------------------------------------------

  lemma ForwardFits(cfg: Config, w: Room, id: Id, p: Packet)
    requires id in w.clients && |p.payload| < 255 && Relayed(p.kind) && Fits(cfg, w, id, p)
    ensures Roomy(Relay.Forward(w, id, p))
    ensures SumFits(w, id, p) && p.kind == W.T_INPUT && |p.payload| >= GAME_PAYLOAD ==>
              CrcFits(Relay.Forward(w, id, p).clients[id], p.payload)
  {
    hide Find, Pad, Relay.LogCrc, LapAfter;
    var w1 := Relay.Forward(w, id, p);
    if p.kind == W.T_INPUT && |p.payload| >= GAME_PAYLOAD {
      LogTouchesNoOutput(w1, id, p.payload);
    }
  }

  lemma LogTouchesNoOutput(w: Room, id: Id, payload: seq<byte>)
    requires id in w.clients && |payload| >= GAME_PAYLOAD
    ensures var r := Relay.LogCrc(w, id, payload);
            r.names == w.names && r.stuck == w.stuck && forall i :: i in w.clients ==> r.clients[i].tx == w.clients[i].tx
  {
    hide Find, SetEntry, Newest, DropEntry, LapAfter;
  }

  lemma SameOutput(st: Store, ci: nat)
    requires Sane(st) && Index(ci)
    ensures ClientOf(st.cs, st.cs[ci]).tx == st.cs[ci].tx
  {
  }

  lemma OutputTaken(st: Store, h: Hub, ci: nat, tx: seq<byte>)
    requires Models(st, h) && Index(ci) && st.cs[ci].inUse && |tx| <= TX_CAP
    ensures IdOf(st.cs, ci) in h.room.clients
    ensures var s := st.cs[ci].(tx := tx);
            SaneSlot(s) && ClientOf(st.cs, s) == h.room.clients[IdOf(st.cs, ci)].(tx := tx)
  {
    assert SlotIs(st.cs, ci, h);
  }

  // ---- a receive ------------------------------------------------------------------------

  lemma SlotHas(st: Store, h: Hub, ci: nat)
    requires Models(st, h) && Index(ci) && st.cs[ci].inUse
    ensures var id := IdOf(st.cs, ci); id in h.room.clients && id in h.rx && h.rx[id] == st.cs[ci].rx
  {
    assert SlotIs(st.cs, ci, h);
  }

  /** A buffer rewritten leaves the room alone. */
  lemma Refilled(st: Store, h: Hub, ci: nat, rx: seq<byte>)
    requires Models(st, h) && Index(ci) && st.cs[ci].inUse
    ensures var id := IdOf(st.cs, ci);
            var s := st.cs[ci].(rx := rx);
            && s.partner < |st.cs|
            && Relay.Put(h.room, id, ClientOf(st.cs, s)) == h.room
            && (s.partner >= 0 ==> st.cs[s.partner].inUse)
  {
    assert SlotIs(st.cs, ci, h);
    SlotOf(st, ci);
    var id := IdOf(st.cs, ci);
    assert h.room.clients[id := h.room.clients[id]] == h.room.clients;
  }

  lemma AlikeSelf(w: Room)
    ensures O.Alike(w, w)
  {
  }

  lemma RoomyAlike(w: Room, v: Room)
    requires O.Alike(w, v)
    ensures Roomy(w) ==> Roomy(v)
  {
  }

  lemma SteadyKeeps(cs: seq<Slot>, zs: seq<Slot>, ci: nat)
    requires Steady(cs, zs) && ci < |cs|
    ensures Handed(cs, zs) && zs[ci].inUse == cs[ci].inUse && zs[ci].rx == cs[ci].rx && IdOf(zs, ci) == IdOf(cs, ci)
  {
  }

  lemma ShortEnough(st: Store, ci: nat)
    requires Sane(st) && Index(ci)
    ensures |st.cs[ci].rx| <= RX_CAP
  {
  }

  lemma SteadyIsHanded(cs: seq<Slot>, zs: seq<Slot>)
    requires Steady(cs, zs)
    ensures Handed(cs, zs)
  {
  }

  lemma HandedTrans(cs: seq<Slot>, zs: seq<Slot>, ws: seq<Slot>)
    requires Handed(cs, zs) && Handed(zs, ws)
    ensures Handed(cs, ws)
  {
  }

  lemma OneHanded(cs: seq<Slot>, zs: seq<Slot>, ci: nat, s: Slot)
    requires ci < |zs| && SameOwner(zs[ci], s)
    ensures Handed(zs, zs) && (Handed(cs, zs) ==> Handed(cs, zs[ci := s]))
  {
  }

  /** The frame loop under way: the room is the one after the frames so far, but for the checksum
      logs. */
  ghost predicate Kept(cfg: Config, h: Hub, id: Id, done: seq<Packet>, rx: seq<byte>, g: Hub, sums: bool) {
    && id in h.room.clients && Framed(done) && g.rx == h.rx[id := rx]
    && O.Alike(HandleAll(cfg, h.room, id, done), g.room)
    && (sums ==> g.room == HandleAll(cfg, h.room, id, done))
  }

  lemma KeptOn(cfg: Config, h: Hub, id: Id, done: seq<Packet>, next: Packet, rx: seq<byte>, rest: seq<byte>, g0: Hub, g: Hub, sums: bool)
    requires Kept(cfg, h, id, done, rx, g0, sums) && |next.payload| < MAX_LEN && id in g0.room.clients
    requires g.rx == g0.rx[id := rest] && O.Alike(Relay.Handle(cfg, g0.room, id, next), g.room)
    requires sums ==> g.room == Relay.Handle(cfg, g0.room, id, next)
    ensures Kept(cfg, h, id, done + [next], rest, g, sums)
  {
    hide O.Alike, HandleAll, Relay.Handle;
    R.OneMore(cfg, h.room, id, done, next);
    var x := HandleAll(cfg, h.room, id, done);
    O.HandleAlike(cfg, x, g0.room, id, next);
    O.AlikeTrans(Relay.Handle(cfg, x, id, next), Relay.Handle(cfg, g0.room, id, next), g.room);
  }

  lemma NextFits(cfg: Config, h: Hub, id: Id, done: seq<Packet>, next: Packet, rx: seq<byte>, g: Hub, sums: bool)
    requires Kept(cfg, h, id, done, rx, g, sums) && |next.payload| < MAX_LEN
    requires Fits(cfg, HandleAll(cfg, h.room, id, done), id, next)
    ensures id in g.room.clients && Fits(cfg, g.room, id, next)
  {
    hide O.Alike, HandleAll, Relay.Handle, Roomy;
    var x := HandleAll(cfg, h.room, id, done);
    O.HandleAlike(cfg, x, g.room, id, next);
    RoomyAlike(Relay.Handle(cfg, x, id, next), Relay.Handle(cfg, g.room, id, next));
  }

  lemma BadAlike(cfg: Config, h: Hub, id: Id, done: seq<Packet>, rx: seq<byte>, g: Hub, sums: bool)
    requires Kept(cfg, h, id, done, rx, g, sums)
    ensures id in g.room.clients
    ensures var x, y := Relay.Drop(CountBad(HandleAll(cfg, h.room, id, done)), id), Relay.Drop(CountBad(g.room), id);
            O.Alike(x, y) && (Roomy(x) ==> Roomy(y)) && (sums ==> x == y)
  {
    var w := HandleAll(cfg, h.room, id, done);
    O.Look(w, g.room, id);
    hide O.Alike, HandleAll, Relay.Drop, Roomy, CountBad;
    O.CountBadAlike(w, g.room);
    O.DropAlike(CountBad(w), CountBad(g.room), id);
    RoomyAlike(Relay.Drop(CountBad(w), id), Relay.Drop(CountBad(g.room), id));
  }

  lemma {:induction false} SumAt(cfg: Config, w: Room, id: Id, ps: seq<Packet>, k: nat)
    requires id in w.clients && Framed(ps) && k < |ps|
    requires AllSumsFit(cfg, w, id, ps)
    ensures SumFits(HandleAll(cfg, w, id, ps[..k]), id, ps[k])
    decreases |ps|
  {
    hide SumFits, HandleAll;
    if k < |ps| - 1 {
      SumAt(cfg, w, id, ps[..|ps| - 1], k);
      assert ps[..|ps| - 1][..k] == ps[..k];
    }
  }

  lemma SumNext(cfg: Config, w: Room, id: Id, ps: seq<Packet>, done: seq<Packet>, next: Packet, rest: seq<Packet>)
    requires id in w.clients && Framed(ps) && AllSumsFit(cfg, w, id, ps) && Framed(done)
    requires ps == (done + [next]) + rest
    ensures |next.payload| < MAX_LEN && SumFits(HandleAll(cfg, w, id, done), id, next)
  {
    hide SumFits, HandleAll, AllSumsFit;
    SumAt(cfg, w, id, ps, |done|);
    assert ps[..|done|] == done && ps[|done|] == next;
  }

  lemma FrameFits(cfg: Config, h: Hub, id: Id, p: Parsed, done: seq<Packet>, next: Packet, rx: seq<byte>, rest: seq<byte>, g: Hub, sums: bool)
    requires Kept(cfg, h, id, done, rx, g, sums) && R.ParsedTo(p, done + [next], rest)
    requires Framed(p.packets) && AllFit(cfg, h.room, id, p.packets) && (sums ==> AllSumsFit(cfg, h.room, id, p.packets))
    ensures |next.payload| < MAX_LEN && id in g.room.clients && Fits(cfg, g.room, id, next)
    ensures sums ==> SumFits(g.room, id, next)
  {
    hide Fits, SumFits, HandleAll, AllFit, AllSumsFit, O.Alike, Framed;
    FitNext(cfg, h.room, id, p.packets, done, next, Parse(rest).packets);
    NextFits(cfg, h, id, done, next, rx, g, sums);
    if sums {
      SumNext(cfg, h.room, id, p.packets, done, next, Parse(rest).packets);
    }
  }

  lemma LoopStarts(cfg: Config, h: Hub, id: Id, rx: seq<byte>, sums: bool)
    ensures R.ParsedTo(Parse(rx), [], rx) && Framed([])
    ensures id in h.room.clients ==> Kept(cfg, h, id, [], rx, h.(rx := h.rx[id := rx]), sums)
  {
    R.Begun(cfg, h.room, id, rx);
  }

  lemma EndsWell(cfg: Config, h: Hub, id: Id, data: seq<byte>, p: Parsed, done: seq<Packet>, rx: seq<byte>, g: Hub, sums: bool)
    requires Kept(cfg, h, id, done, rx, g, sums) && id in h.rx && p == Parse(h.rx[id] + data) == Parsed(done, rx, false)
    ensures g.rx == Receive(cfg, h, id, data).rx && O.Alike(Receive(cfg, h, id, data).room, g.room)
    ensures sums ==> g == Receive(cfg, h, id, data)
  {
    Delivers(cfg, h, id, data, p, done);
    hide O.Alike, HandleAll, Receive, Parse;
  }

  lemma EndsBadly(cfg: Config, h: Hub, id: Id, data: seq<byte>, p: Parsed, done: seq<Packet>, rx: seq<byte>, g: Hub, sums: bool)
    requires Kept(cfg, h, id, done, rx, g, sums) && id in h.rx && p == Parse(h.rx[id] + data) == Parsed(done, rx, true)
    requires ReceiveFits(cfg, h, id, data)
    ensures id in g.room.clients && Roomy(Relay.Drop(CountBad(g.room), id))
    ensures var z := g.(room := Relay.Drop(CountBad(g.room), id));
            && z.rx == Receive(cfg, h, id, data).rx && O.Alike(Receive(cfg, h, id, data).room, z.room)
            && (sums ==> z == Receive(cfg, h, id, data))
  {
    Delivers(cfg, h, id, data, p, done);
    BadAlike(cfg, h, id, done, rx, g, sums);
    hide O.Alike, HandleAll, Receive, Parse, Relay.Drop, Roomy, AllFit, CountBad;
  }

  lemma Delivers(cfg: Config, h: Hub, id: Id, data: seq<byte>, p: Parsed, done: seq<Packet>)
    requires Framed(done) && p.packets == done
    requires id in h.room.clients && id in h.rx && p == Parse(h.rx[id] + data)
    ensures Receive(cfg, h, id, data) ==
            Hub(if p.bad then Relay.Drop(CountBad(HandleAll(cfg, h.room, id, done)), id) else HandleAll(cfg, h.room, id, done),
                h.rx[id := p.rest])
  {
  }

  lemma Counts(st: Store, h: Hub)
    requires Models(st, h)
    ensures h.room.drawn == st.drawn && h.room.matched == st.matched && h.room.stats == st.stats
  {
  }

  lemma CountsBad(st: Store, h: Hub)
    requires Models(st, h)
    ensures CountBad(h.room) == h.room.(stats := st.stats.(badFrames := st.stats.badFrames + 1))
    ensures CountBad(h.room).clients == h.room.clients
  {
  }

  lemma CountsBehind(st: Store, h: Hub)
    requires Models(st, h)
    ensures O.Behind(h.room) == h.room.(stats := st.stats.(txDrops := st.stats.txDrops + 1))
  {
  }

  lemma FramedMore(done: seq<Packet>, next: Packet)
    requires Framed(done) && |next.payload| < MAX_LEN
    ensures Framed(done + [next])
  {
  }

  lemma {:induction false} FitAt(cfg: Config, w: Room, id: Id, ps: seq<Packet>, k: nat)
    requires id in w.clients && Framed(ps) && k < |ps| && AllFit(cfg, w, id, ps)
    ensures Framed(ps[..k]) && Fits(cfg, HandleAll(cfg, w, id, ps[..k]), id, ps[k])
    decreases |ps|
  {
    hide Fits, HandleAll;
    if k < |ps| - 1 {
      FitAt(cfg, w, id, ps[..|ps| - 1], k);
      assert ps[..|ps| - 1][..k] == ps[..k];
    }
  }

  lemma FitNext(cfg: Config, w: Room, id: Id, ps: seq<Packet>, done: seq<Packet>, next: Packet, rest: seq<Packet>)
    requires id in w.clients && Framed(ps) && AllFit(cfg, w, id, ps) && Framed(done)
    requires ps == (done + [next]) + rest
    ensures |next.payload| < MAX_LEN && Fits(cfg, HandleAll(cfg, w, id, done), id, next)
  {
    hide Fits, HandleAll, AllFit;
    FitAt(cfg, w, id, ps, |done|);
    assert ps[..|done|] == done && ps[|done|] == next;
  }

  // ---- accept ---------------------------------------------------------------------------

  lemma NameHere(tab: seq<NameEntry>, name: Name, i: nat)
    requires i < |tab| && i <= FindName(tab, name)
    ensures tab[i].name == name <==> FindName(tab, name) == i
    ensures tab[i].name != name ==> i + 1 <= FindName(tab, name)
  {
  }

  lemma NewName(tab: seq<NameEntry>, e: NameEntry)
    requires |tab| <= NAME_SLOTS
    ensures (forall k :: 0 <= k < |tab| ==> tab[k].name != e.name) && |tab| < NAME_SLOTS ==> SetName(tab, e) == tab + [e]
  {
    if FindName(tab, e.name) < |tab| {
      assert tab[FindName(tab, e.name)].name == e.name;
    }
  }

  lemma UnusedIsFresh(st: Store, h: Hub)
    requires Models(st, h)
    ensures Unused(st.cs) !in h.room.clients
  {
    TagIsUnique(st.cs[0].gen + 1, 0, 0, 0);
  }

  lemma RxElsewhere(st: Store, h: Hub, id: Id)
    requires Models(st, h) && id !in h.room.clients
    ensures Models(st, h.(rx := h.rx[id := []]))
  {
    hide TableIs, Fresh, OrderIs, ClientOf;
    var g := h.(rx := h.rx[id := []]);
    SaneParts(st);
    forall ci | 0 <= ci < MAX_CLIENTS && st.cs[ci].inUse
      ensures SlotIs(st.cs, ci, g)
    {
      assert SlotIs(st.cs, ci, h);
    }
  }

  lemma FullHouse(w: Room, id: Id, ip: int, born: int)
    requires |w.order| >= MAX_CLIENTS
    ensures Relay.Accept(w, id, ip, born) == w
  {
  }

  lemma FullAddress(w: Room, id: Id, ip: int, born: int)
    requires |w.order| < MAX_CLIENTS && FromAddress(w, ip, |w.order|) >= MAX_PER_IP
    ensures Relay.Accept(w, id, ip, born) == w.(stats := w.stats.(ipRejects := w.stats.ipRejects + 1))
  {
  }

  lemma RoomForOne(w: Room, id: Id, ip: int, born: int)
    requires |w.order| < MAX_CLIENTS && FromAddress(w, ip, |w.order|) < MAX_PER_IP
    ensures Relay.Accept(w, id, ip, born) == Relay.Put(w, id, NEW.(ip := ip, born := born)).(order := w.order + [id])
  {
  }

  lemma NoneFrom(st: Store, ip: int)
    ensures SameIp(st, ip, 0) == 0
  {
  }

  lemma IpStep(st: Store, ip: int, i: nat)
    requires i < |st.ord| && st.ord[i] < |st.cs|
    ensures SameIp(st, ip, i + 1) == SameIp(st, ip, i) + if st.cs[st.ord[i]].ip == ip then 1 else 0
  {
  }

  lemma AddressStep(st: Store, h: Hub, ip: int, i: nat)
    requires Models(st, h) && i < |st.ord|
    ensures Index(st.ord[i]) && i < |h.room.order|
    ensures FromAddress(h.room, ip, i + 1) == FromAddress(h.room, ip, i) + if st.cs[st.ord[i]].ip == ip then 1 else 0
  {
    OrderEntry(st, i);
    assert SlotIs(st.cs, st.ord[i], h) && h.room.order[i] == IdOf(st.cs, st.ord[i]);
  }

  lemma {:induction false} SameAddresses(st: Store, h: Hub, ip: int, n: nat)
    requires Models(st, h) && n <= |st.ord|
    ensures n <= |h.room.order| && SameIp(st, ip, n) == FromAddress(h.room, ip, n)
  {
    SameLength(st, h);
    if n > 0 {
      hide Models;
      SameAddresses(st, h, ip, n - 1);
      AddressStep(st, h, ip, n - 1);
    }
  }

  // ---- readiness ------------------------------------------------------------------------

  lemma LiveIsKnown(st: Store, h: Hub, tag: Id)
    requires Models(st, h)
    ensures Live(h.room, tag) <==> Known(h, tag)
  {
    if Live(h.room, tag) {
      TagTells(st, h, tag);
      SlotHas(st, h, tag % MAX_CLIENTS);
    }
  }

  lemma SelfHanded(cs: seq<Slot>)
    ensures Handed(cs, cs)
  {
  }

  lemma StillUses(cs: seq<Slot>, zs: seq<Slot>, ci: nat)
    requires Handed(cs, zs) && ci < |cs|
    ensures zs[ci].inUse == cs[ci].inUse && zs[ci].gen == cs[ci].gen
  {
  }

  /** What the tables hold once the read is done. */
  ghost predicate ReadDone(cfg: Config, h: Hub, tag: Id, read: Option<seq<byte>>, g: Hub, sums: bool) {
    var x := ReadIn(cfg, h, tag, read);
    g.rx == x.rx && O.Alike(x.room, g.room) && (sums ==> g == x)
  }

  lemma SameKnown(g: Hub, h: Hub, tag: Id)
    requires O.Alike(h.room, g.room) && g.rx == h.rx
    ensures Known(g, tag) <==> Known(h, tag)
  {
  }

  lemma WriteStage(cfg: Config, h: Hub, tag: Id, read: Option<seq<byte>>, write: Option<Sent>, st: Store, g: Hub, sums: bool)
    requires ReadDone(cfg, h, tag, read, g, sums) && Models(st, g) && write.Some? && ReadyFits(cfg, h, tag, read, write)
    requires var s := st.cs[tag % MAX_CLIENTS]; s.inUse && s.gen == tag / MAX_CLIENTS && !s.dead
    ensures tag in g.room.clients && IdOf(st.cs, tag % MAX_CLIENTS) == tag
    ensures |g.room.clients[tag].tx| == |st.cs[tag % MAX_CLIENTS].tx|
    ensures var r := Relay.Flush(g.room, tag, Clip(write.value, |g.room.clients[tag].tx|));
            && Roomy(r) && O.Alike(Heard(cfg, h, tag, read, write).room, r) && Heard(cfg, h, tag, read, write).rx == g.rx
            && (sums ==> g.(room := r) == Heard(cfg, h, tag, read, write))
  {
    TagTells(st, g, tag);
    LiveIsKnown(st, g, tag);
    assert SlotIs(st.cs, tag % MAX_CLIENTS, g);
    hide O.Alike, Models, Relay.Flush, Roomy, ReadFits, ReadIn, Known;
    var x := ReadIn(cfg, h, tag, read);
    SameKnown(g, x, tag);
    KnownClient(x, tag);
    O.Look(x.room, g.room, tag);
    O.FlushAlike(x.room, g.room, tag, Clip(write.value, |x.room.clients[tag].tx|));
    RoomyAlike(Heard(cfg, h, tag, read, write).room, Relay.Flush(g.room, tag, Clip(write.value, |g.room.clients[tag].tx|)));
  }

  lemma KnownClient(h: Hub, tag: Id)
    ensures Known(h, tag) ==> tag in h.room.clients
  {
  }

  lemma NoWrite(cfg: Config, h: Hub, tag: Id, read: Option<seq<byte>>, write: Option<Sent>, st: Store, g: Hub, sums: bool)
    requires ReadDone(cfg, h, tag, read, g, sums) && Models(st, g)
    requires write.None? || st.cs[tag % MAX_CLIENTS].dead
    ensures Heard(cfg, h, tag, read, write) == ReadIn(cfg, h, tag, read)
  {
    TagTells(st, g, tag);
    hide O.Alike, Models, ReadIn;
    SameKnown(g, ReadIn(cfg, h, tag, read), tag);
  }

  // ---- the end of a batch ---------------------------------------------------------------

  lemma TagTells(st: Store, h: Hub, tag: Id)
    requires Models(st, h)
    ensures var s := st.cs[tag % MAX_CLIENTS];
            && (s.inUse && s.gen == tag / MAX_CLIENTS && !s.dead <==> Live(h.room, tag))
            && (s.gen == tag / MAX_CLIENTS ==> IdOf(st.cs, tag % MAX_CLIENTS) == tag)
  {
    var ci := tag % MAX_CLIENTS;
    TagIsUnique(tag / MAX_CLIENTS, ci, st.cs[ci].gen, ci);
    if st.cs[ci].inUse && st.cs[ci].gen == tag / MAX_CLIENTS {
      SlotHasClient(st, h, ci);
    }
    if Live(h.room, tag) {
      var k :| 0 <= k < |h.room.order| && h.room.order[k] == tag;
      OrderEntry(st, k);
      TagIsUnique(tag / MAX_CLIENTS, ci, st.cs[st.ord[k]].gen, st.ord[k]);
    }
  }

  lemma ReapNeeds(st: Store, h: Hub, z: Store)
    requires Models(st, h) && Reaped(st, z) && Models(z, h)
    ensures NoDangling(h.room)
  {
    hide TableIs, Fresh;
    forall i: Id | Live(h.room, i) && i in h.room.clients && h.room.clients[i].partner.Some?
      ensures Live(h.room, h.room.clients[i].partner.value)
    {
      TagTells(st, h, i);
      var ci := i % MAX_CLIENTS;
      SlotHasClient(st, h, ci);
      assert SlotIs(z.cs, ci, h);
      var p := st.cs[ci].partner;
      TagIsUnique(st.cs[p].gen, p, z.cs[p].gen, p);
      SlotHasClient(st, h, p);
    }
  }

  lemma MatchingHasNoDangling(w: Room)
    requires P.Matching(w)
    ensures NoDangling(w)
  {
    forall i | Live(w, i) && i in w.clients && w.clients[i].partner.Some?
      ensures Live(w, w.clients[i].partner.value)
    {
      assert P.Linked(w, i);
    }
  }

  /** On no run of consoles with the ROM's discipline is a live console ever linked to a dropped one. */
  lemma PoliteHasNoDangling(cfg: Config, es: seq<Event>)
    requires Runs(cfg, EMPTY, es) && P.PoliteRun(cfg, es)
    ensures NoDangling(Exec(cfg, EMPTY, es).room)
  {
    P.PairsAreAMatching(cfg, es);
    MatchingHasNoDangling(Exec(cfg, EMPTY, es).room);
  }
}
