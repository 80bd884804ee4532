/** The C port's tables as values, and what it means for them to hold the room: every client in a
    slot, every reference an index, every identity a slot and its generation. */
module RelayStore {
  import opened Bytes
  import opened Relay

  const NAME_SLOTS := 256
  const TX_CAP := 262144
  const RX_CAP := 4352
  const CRC_SLOTS := 16

  /** `client_t`, with the used part of its buffers. */
  datatype Slot = Slot(
    inUse: bool, dead: bool, gen: nat, ip: int, born: int, rx: seq<byte>, tx: seq<byte>,
    name: Name, partner: int, role: int, crc: seq<Entry>, lap: nat, last: Option<byte>)

  datatype NameEntry = NameEntry(name: Name, ci: nat, gen: nat)

  datatype Store = Store(
    cs: seq<Slot>, ord: seq<nat>, tab: seq<NameEntry>, drawn: nat, matched: nat, stats: Stats)

  // ---- identities -----------------------------------------------------------------------

  /** `tag_of`: a slot and its generation. */
  function Tag(gen: nat, ci: nat): Id {
    ci + MAX_CLIENTS * gen
  }

  lemma TagIsUnique(g: nat, ci: nat, k: nat, cj: nat)
    requires ci < MAX_CLIENTS && cj < MAX_CLIENTS
    ensures Tag(g, ci) == Tag(k, cj) <==> g == k && ci == cj
    ensures Tag(g, ci) % MAX_CLIENTS == ci && Tag(g, ci) / MAX_CLIENTS == g
  {
  }

  function IdOf(cs: seq<Slot>, ci: nat): Id
    requires ci < |cs|
  {
    Tag(cs[ci].gen, ci)
  }

  predicate Index(ci: int) {
    0 <= ci < MAX_CLIENTS
  }

  function Link(cs: seq<Slot>, partner: int): Option<Id>
    requires partner < |cs|
  {
    if partner < 0 then None else Some(IdOf(cs, partner))
  }

  function ClientOf(cs: seq<Slot>, s: Slot): Client
    requires s.partner < |cs|
  {
    Client(s.ip, s.born, s.tx, s.name, Link(cs, s.partner), s.role, s.crc, s.lap, s.last)
  }

  // ---- what always holds of the tables --------------------------------------------------

  predicate SaneSlot(s: Slot) {
    -1 <= s.partner < MAX_CLIENTS && |s.crc| <= CRC_SLOTS && |s.tx| <= TX_CAP && |s.rx| <= RX_CAP
  }

  predicate Distinct(ord: seq<nat>) {
    forall j, k :: 0 <= j < k < |ord| ==> ord[j] != ord[k]
  }

  /** In bounds, and `order[]` lists exactly the live slots. */
  ghost predicate Sane(st: Store) {
    && |st.cs| == MAX_CLIENTS && |st.ord| <= MAX_CLIENTS && |st.tab| <= NAME_SLOTS
    && (forall k :: 0 <= k < MAX_CLIENTS ==> SaneSlot(st.cs[k]))
    && (forall k :: 0 <= k < |st.ord| ==> st.ord[k] < MAX_CLIENTS)
    && Distinct(st.ord)
    && (forall ci :: 0 <= ci < MAX_CLIENTS ==> (ci in st.ord <==> st.cs[ci].inUse && !st.cs[ci].dead))
    && (forall k :: 0 <= k < |st.tab| ==> st.tab[k].ci < MAX_CLIENTS)
  }

  // ---- the room they hold ---------------------------------------------------------------

  /** The table of names holds the dictionary, one entry a name. */
  ghost predicate TableIs(tab: seq<NameEntry>, names: map<Name, Id>) {
    && (forall k :: 0 <= k < |tab| ==> tab[k].name in names && names[tab[k].name] == Tag(tab[k].gen, tab[k].ci))
    && (forall j, k :: 0 <= j < k < |tab| ==> tab[j].name != tab[k].name)
    && (forall n :: n in names ==> exists k :: 0 <= k < |tab| && tab[k].name == n)
  }

  ghost predicate SlotIs(cs: seq<Slot>, ci: nat, h: Hub)
    requires |cs| == MAX_CLIENTS && Index(ci) && SaneSlot(cs[ci])
  {
    var id := IdOf(cs, ci);
    && id in h.room.clients && h.room.clients[id] == ClientOf(cs, cs[ci])
    && id in h.rx && h.rx[id] == cs[ci].rx
    && (cs[ci].partner >= 0 ==> cs[cs[ci].partner].inUse)
  }

  ghost predicate OrderIs(cs: seq<Slot>, ord: seq<nat>, order: seq<Id>)
    requires |cs| == MAX_CLIENTS
  {
    |order| == |ord| && forall k :: 0 <= k < |ord| ==> Index(ord[k]) && order[k] == IdOf(cs, ord[k])
  }

  /** No connection there has been has the identity a free slot will give next. */
  ghost predicate Fresh(cs: seq<Slot>, clients: map<Id, Client>)
    requires |cs| == MAX_CLIENTS
  {
    forall id :: id in clients ==>
      var s := cs[id % MAX_CLIENTS]; id / MAX_CLIENTS <= s.gen && (id / MAX_CLIENTS == s.gen ==> s.inUse)
  }

  /** The tables hold this room. */
  ghost predicate Models(st: Store, h: Hub) {
    && Sane(st)
    && (forall ci :: 0 <= ci < MAX_CLIENTS && st.cs[ci].inUse ==> SlotIs(st.cs, ci, h))
    && OrderIs(st.cs, st.ord, h.room.order)
    && TableIs(st.tab, h.room.names)
    && Fresh(st.cs, h.room.clients)
    && st.drawn == h.room.drawn && st.matched == h.room.matched && st.stats == h.room.stats && !h.room.stuck
  }

  lemma SlotHasClient(st: Store, h: Hub, ci: nat)
    requires Models(st, h) && Index(ci) && st.cs[ci].inUse
    ensures SlotIs(st.cs, ci, h)
    ensures Live(h.room, IdOf(st.cs, ci)) <==> !st.cs[ci].dead
  {
    hide TableIs, Fresh;
    var id := IdOf(st.cs, ci);
    if Live(h.room, id) {
      var k :| 0 <= k < |h.room.order| && h.room.order[k] == id;
      TagIsUnique(st.cs[ci].gen, ci, st.cs[st.ord[k]].gen, st.ord[k]);
    }
    if ci in st.ord {
      var k :| 0 <= k < |st.ord| && st.ord[k] == ci;
      assert h.room.order[k] == id;
    }
  }

  // ---- one slot rewritten ---------------------------------------------------------------

  /** A slot keeps its place and its generation. */
  predicate SamePlace(s: Slot, z: Slot) {
    z.inUse == s.inUse && z.dead == s.dead && z.gen == s.gen
  }

  function With(st: Store, ci: nat, s: Slot): Store
    requires ci < |st.cs|
  {
    st.(cs := st.cs[ci := s])
  }

  lemma SaneWith(st: Store, ci: nat, s: Slot)
    requires Sane(st) && Index(ci) && SamePlace(st.cs[ci], s) && SaneSlot(s)
    ensures Sane(With(st, ci, s))
  {
  }

  lemma ClientsLookAlike(cs: seq<Slot>, ci: nat, s: Slot, t: Slot)
    requires ci < |cs| && SamePlace(cs[ci], s) && t.partner < |cs|
    ensures ClientOf(cs[ci := s], t) == ClientOf(cs, t)
  {
  }

  lemma SlotWith(cs: seq<Slot>, h: Hub, ci: nat, s: Slot, cj: nat)
    requires |cs| == MAX_CLIENTS && Index(ci) && Index(cj) && SaneSlot(s) && SaneSlot(cs[cj])
    requires SlotIs(cs, cj, h) && SamePlace(cs[ci], s) && cs[ci].inUse && cs[cj].inUse
    requires s.partner >= 0 ==> cs[s.partner].inUse
    ensures var id := IdOf(cs, ci);
            SlotIs(cs[ci := s], cj, Hub(Put(h.room, id, ClientOf(cs, s)), h.rx[id := s.rx]))
  {
    hide ClientOf;
    TagIsUnique(cs[ci].gen, ci, cs[cj].gen, cj);
    ClientsLookAlike(cs, ci, s, s);
    ClientsLookAlike(cs, ci, s, cs[cj]);
  }

  lemma OrderWith(cs: seq<Slot>, ord: seq<nat>, order: seq<Id>, ci: nat, s: Slot)
    requires |cs| == MAX_CLIENTS && Index(ci) && SamePlace(cs[ci], s) && OrderIs(cs, ord, order)
    ensures OrderIs(cs[ci := s], ord, order)
  {
  }

  lemma FreshWith(cs: seq<Slot>, clients: map<Id, Client>, ci: nat, s: Slot, c: Client)
    requires |cs| == MAX_CLIENTS && Index(ci) && SamePlace(cs[ci], s) && Fresh(cs, clients) && cs[ci].inUse
    ensures Fresh(cs[ci := s], clients[IdOf(cs, ci) := c])
  {
    TagIsUnique(cs[ci].gen, ci, 0, 0);
  }

  lemma ModelsWith(st: Store, h: Hub, ci: nat, s: Slot)
    requires Models(st, h) && Index(ci) && st.cs[ci].inUse && SamePlace(st.cs[ci], s) && SaneSlot(s)
    requires s.partner >= 0 ==> st.cs[s.partner].inUse
    ensures var id := IdOf(st.cs, ci);
            Models(With(st, ci, s), Hub(Put(h.room, id, ClientOf(st.cs, s)), h.rx[id := s.rx]))
  {
    assert SaneSlot(s);
    hide TableIs, ClientOf, SaneSlot, SlotIs, OrderIs, Fresh, IdOf, SamePlace;
    SaneWith(st, ci, s);
    var id := IdOf(st.cs, ci);
    var z := Hub(Put(h.room, id, ClientOf(st.cs, s)), h.rx[id := s.rx]);
    var cs := st.cs[ci := s];
    forall cj | 0 <= cj < MAX_CLIENTS && cs[cj].inUse
      ensures SlotIs(cs, cj, z)
    {
      assert st.cs[cj].inUse by { SameUse(st.cs[ci], s); }
      SlotWith(st.cs, h, ci, s, cj);
    }
    OrderWith(st.cs, st.ord, h.room.order, ci, s);
    FreshWith(st.cs, h.room.clients, ci, s, ClientOf(st.cs, s));
  }

  lemma SameUse(s: Slot, z: Slot)
    requires SamePlace(s, z)
    ensures s.inUse == z.inUse
  {
  }

  // ---- the table of names ---------------------------------------------------------------

  lemma TableAdd(tab: seq<NameEntry>, names: map<Name, Id>, name: Name, ci: nat, gen: nat)
    requires TableIs(tab, names) && name !in names
    ensures TableIs(tab + [NameEntry(name, ci, gen)], names[name := Tag(gen, ci)])
  {
    hide Tag;
    var t, m := tab + [NameEntry(name, ci, gen)], names[name := Tag(gen, ci)];
    forall n | n in m
      ensures exists k :: 0 <= k < |t| && t[k].name == n
    {
      if n == name {
        assert t[|tab|].name == n;
      } else {
        var k :| 0 <= k < |tab| && tab[k].name == n;
        assert t[k].name == n;
      }
    }
  }

  lemma TableRemove(tab: seq<NameEntry>, names: map<Name, Id>, i: nat)
    requires TableIs(tab, names) && i < |tab|
    ensures TableIs(tab[..i] + tab[i + 1..], names - {tab[i].name})
  {
    hide Tag;
    var t, m := tab[..i] + tab[i + 1..], names - {tab[i].name};
    forall n | n in m
      ensures exists k :: 0 <= k < |t| && t[k].name == n
    {
      var k :| 0 <= k < |tab| && tab[k].name == n;
      assert t[if k < i then k else k - 1].name == n;
    }
  }

  lemma {:induction false} TableSize(tab: seq<NameEntry>, names: map<Name, Id>)
    requires TableIs(tab, names)
    ensures |tab| == |names|
    decreases |tab|
  {
    if tab == [] {
      assert names == map[];
    } else {
      var n := |tab| - 1;
      TableRemove(tab, names, n);
      assert tab[..n] + tab[n + 1..] == tab[..n];
      TableSize(tab[..n], names - {tab[n].name});
      assert names == (names - {tab[n].name})[tab[n].name := names[tab[n].name]];
    }
  }

  // ---- a connection gone ----------------------------------------------------------------

  lemma {:induction false} OrderWithout(cs: seq<Slot>, ord: seq<nat>, order: seq<Id>, ci: nat)
    requires |cs| == MAX_CLIENTS && Index(ci) && OrderIs(cs, ord, order)
    ensures OrderIs(cs, Without(ord, ci), Without(order, IdOf(cs, ci)))
    decreases |ord|
  {
    if ord != [] {
      assert OrderIs(cs, ord[1..], order[1..]);
      OrderWithout(cs, ord[1..], order[1..], ci);
      TagIsUnique(cs[ord[0]].gen, ord[0], cs[ci].gen, ci);
    }
  }

  lemma WithoutHead(ord: seq<nat>)
    requires Distinct(ord) && ord != []
    ensures Without(ord, ord[0]) == ord[1..]
  {
    assert ord[0] !in ord[1..];
  }

  lemma CutOneMore(ord: seq<nat>, i: nat)
    requires 0 < i < |ord|
    ensures [ord[0]] + (ord[1..][..i - 1] + ord[1..][i..]) == ord[..i] + ord[i + 1..]
  {
  }

  lemma {:induction false} WithoutFirst(ord: seq<nat>, i: nat)
    requires Distinct(ord) && i < |ord|
    ensures Without(ord, ord[i]) == ord[..i] + ord[i + 1..]
    decreases |ord|
  {
    if i == 0 {
      WithoutHead(ord);
      assert ord[..0] + ord[1..] == ord[1..];
    } else {
      WithoutFirst(ord[1..], i - 1);
      CutOneMore(ord, i);
    }
  }

  lemma {:induction false} WithoutStaysDistinct(ord: seq<nat>, ci: nat)
    requires Distinct(ord)
    ensures Distinct(Without(ord, ci))
    decreases |ord|
  {
    if ord != [] {
      assert ord[0] !in ord[1..];
      WithoutStaysDistinct(ord[1..], ci);
      assert ord[0] !in Without(ord[1..], ci);
    }
  }

  function Dead(st: Store, ci: nat, tab: seq<NameEntry>): Store
    requires ci < |st.cs|
  {
    st.(cs := st.cs[ci := st.cs[ci].(dead := true)], ord := Without(st.ord, ci), tab := tab)
  }

  lemma SaneDead(st: Store, ci: nat, tab: seq<NameEntry>)
    requires Sane(st) && Index(ci) && |tab| <= NAME_SLOTS
    requires forall k :: 0 <= k < |tab| ==> tab[k].ci < MAX_CLIENTS
    ensures Sane(Dead(st, ci, tab))
  {
    WithoutStaysDistinct(st.ord, ci);
    var z := Dead(st, ci, tab);
    hide Distinct, SaneSlot, Without;
    forall k | 0 <= k < |z.ord|
      ensures z.ord[k] < MAX_CLIENTS
    {
      assert z.ord[k] in st.ord;
    }
    forall k | 0 <= k < MAX_CLIENTS
      ensures SaneSlot(z.cs[k])
    {
      SameNumbers(st.cs[k], z.cs[k]);
    }
  }

  lemma SameNumbers(s: Slot, z: Slot)
    requires SaneSlot(s) && (z == s || z == s.(dead := true))
    ensures SaneSlot(z)
  {
  }

  /** The slot marked, the index closed up, the name freed: the room without the connection. */
  lemma ModelsDead(st: Store, h: Hub, ci: nat, tab: seq<NameEntry>)
    requires Models(st, h) && Index(ci) && st.cs[ci].inUse && Sane(Dead(st, ci, tab))
    requires var id := IdOf(st.cs, ci); TableIs(tab, Unname(h.room.names, st.cs[ci].name, id))
    ensures var id := IdOf(st.cs, ci);
            Models(Dead(st, ci, tab), h.(room := h.room.(
              names := Unname(h.room.names, st.cs[ci].name, id), order := Without(h.room.order, id))))
  {
    OrderWithout(st.cs, st.ord, h.room.order, ci);
    hide Without, Unname, TableIs, ClientOf, SlotIs, OrderIs, Fresh, IdOf, Sane;
    var z := Dead(st, ci, tab);
    var id := IdOf(st.cs, ci);
    var g := h.(room := h.room.(names := Unname(h.room.names, st.cs[ci].name, id), order := Without(h.room.order, id)));
    SaneParts(st);
    SaneParts(z);
    forall cj | 0 <= cj < MAX_CLIENTS && z.cs[cj].inUse
      ensures SlotIs(z.cs, cj, g)
    {
      SlotDead(st.cs, h, ci, cj, g);
    }
    OrderDead(st.cs, ci, z.ord, g.room.order, g.room.clients);
  }

  lemma SlotDead(cs: seq<Slot>, h: Hub, ci: nat, cj: nat, g: Hub)
    requires |cs| == MAX_CLIENTS && Index(ci) && Index(cj) && SaneSlot(cs[cj]) && SlotIs(cs, cj, h)
    requires g.room.clients == h.room.clients && g.rx == h.rx
    ensures SlotIs(cs[ci := cs[ci].(dead := true)], cj, g)
  {
    hide ClientOf;
    SameClient(cs, ci, cj);
  }

  lemma OrderDead(cs: seq<Slot>, ci: nat, ord: seq<nat>, order: seq<Id>, clients: map<Id, Client>)
    requires |cs| == MAX_CLIENTS && Index(ci) && Fresh(cs, clients) && OrderIs(cs, ord, order)
    ensures Fresh(cs[ci := cs[ci].(dead := true)], clients) && OrderIs(cs[ci := cs[ci].(dead := true)], ord, order)
  {
  }

  lemma SameClient(cs: seq<Slot>, ci: nat, cj: nat)
    requires |cs| == MAX_CLIENTS && Index(ci) && Index(cj) && cs[cj].partner < |cs|
    ensures var z := cs[ci := cs[ci].(dead := true)]; ClientOf(z, z[cj]) == ClientOf(cs, cs[cj])
  {
  }

  // ---- a connection made ----------------------------------------------------------------

  /** `client_alloc`: every field but the generation starts over. */
  function NewSlot(gen: nat, ip: int, born: int): Slot {
    Slot(true, false, gen, ip, born, [], [], [], -1, -1, [], 0, None)
  }

  function Allocated(st: Store, ci: nat, ip: int, born: int): Store
    requires ci < |st.cs|
  {
    st.(cs := st.cs[ci := NewSlot(st.cs[ci].gen, ip, born)], ord := st.ord + [ci])
  }

  lemma SaneAllocated(st: Store, ci: nat, ip: int, born: int)
    requires Sane(st) && Index(ci) && !st.cs[ci].inUse && |st.ord| < MAX_CLIENTS
    ensures Sane(Allocated(st, ci, ip, born))
  {
    assert ci !in st.ord;
    var z := Allocated(st, ci, ip, born);
    forall cj | 0 <= cj < MAX_CLIENTS
      ensures cj in z.ord <==> z.cs[cj].inUse && !z.cs[cj].dead
    {
      assert cj in z.ord <==> cj in st.ord || cj == ci;
    }
  }

  lemma ModelsAllocated(st: Store, h: Hub, ci: nat, ip: int, born: int)
    requires Models(st, h) && Index(ci) && !st.cs[ci].inUse && |st.ord| < MAX_CLIENTS
    ensures var id := IdOf(st.cs, ci);
            && id !in h.room.clients
            && Models(Allocated(st, ci, ip, born),
                      Hub(Put(h.room, id, NEW.(ip := ip, born := born)).(order := h.room.order + [id]), h.rx[id := []]))
  {
    SaneAllocated(st, ci, ip, born);
    hide TableIs, Sane;
    var id := IdOf(st.cs, ci);
    TagIsUnique(st.cs[ci].gen, ci, 0, 0);
    var z := Allocated(st, ci, ip, born);
    var g := Hub(Put(h.room, id, NEW.(ip := ip, born := born)).(order := h.room.order + [id]), h.rx[id := []]);
    SaneParts(st);
    SaneParts(z);
    forall cj | 0 <= cj < MAX_CLIENTS && z.cs[cj].inUse
      ensures SlotIs(z.cs, cj, g)
    {
      TagIsUnique(st.cs[ci].gen, ci, st.cs[cj].gen, cj);
      assert cj != ci ==> SlotIs(st.cs, cj, h);
    }
    assert OrderIs(z.cs, z.ord, g.room.order);
    forall i | i in g.room.clients
      ensures var s := z.cs[i % MAX_CLIENTS]; i / MAX_CLIENTS <= s.gen && (i / MAX_CLIENTS == s.gen ==> s.inUse)
    {
      TagIsUnique(st.cs[ci].gen, ci, 0, 0);
    }
  }

  lemma SaneParts(st: Store)
    requires Sane(st)
    ensures |st.cs| == MAX_CLIENTS && forall k :: 0 <= k < MAX_CLIENTS ==> SaneSlot(st.cs[k])
  {
  }

  // ---- the dead slots freed -------------------------------------------------------------

  /** `client_free` for a slot that is marked. */
  function Freed(s: Slot): Slot {
    if s.inUse && s.dead then s.(inUse := false, gen := s.gen + 1) else s
  }

  /** No live client's partner is a dropped one. */
  ghost predicate NoDangling(w: Room) {
    forall i :: Live(w, i) && i in w.clients && w.clients[i].partner.Some? ==> Live(w, w.clients[i].partner.value)
  }

  ghost predicate Reaped(st: Store, z: Store) {
    && |st.cs| == |z.cs| == MAX_CLIENTS && z == st.(cs := z.cs)
    && forall k :: 0 <= k < MAX_CLIENTS ==> z.cs[k] == Freed(st.cs[k])
  }

  lemma SaneReaped(st: Store, z: Store)
    requires Sane(st) && Reaped(st, z)
    ensures Sane(z)
  {
  }

  lemma ModelsReaped(st: Store, h: Hub, z: Store)
    requires Models(st, h) && Reaped(st, z) && NoDangling(h.room)
    ensures Models(z, h)
  {
    SaneReaped(st, z);
    hide TableIs, Sane;
    SaneParts(st);
    SaneParts(z);
    forall ci | 0 <= ci < MAX_CLIENTS && z.cs[ci].inUse
      ensures SlotIs(z.cs, ci, h)
    {
      SlotHasClient(st, h, ci);
      var p := st.cs[ci].partner;
      if p >= 0 {
        SlotHasClient(st, h, p);
      }
    }
    LiveStay(st, h, z);
  }

  lemma LiveStay(st: Store, h: Hub, z: Store)
    requires Models(st, h) && Reaped(st, z)
    ensures OrderIs(z.cs, z.ord, h.room.order) && Fresh(z.cs, h.room.clients)
  {
    forall k | 0 <= k < |z.ord|
      ensures Index(z.ord[k]) && h.room.order[k] == IdOf(z.cs, z.ord[k])
    {
      assert z.ord[k] in st.ord;
    }
  }
}
