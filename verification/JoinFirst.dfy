/** Four events on which the C port and the Python server part: a console says HELLO, another says JOIN
    and has not said HELLO. */
module JoinFirst {
  import opened Bytes
  import opened Relay
  import opened RelayStore
  import opened RelayC
  import W = Wire

  const HELLO: seq<byte> := [5, T_HELLO, PROTO, 0, 65, 66]
  const JOIN: seq<byte> := [1, T_JOIN]
  const NAME: Name := [65, 66]

  const ONE: seq<Event> := [Connect(0, 0, 0)]
  const TWO: seq<Event> := ONE + [Event.Bytes(0, HELLO)]
  const THREE: seq<Event> := TWO + [Connect(1, 1, 0)]
  const STORY: seq<Event> := THREE + [Event.Bytes(1, JOIN)]

  // ---- what the room is after each -----------------------------------------------------

  function Alone(): Hub {
    Hub(EMPTY.room.(clients := map[0 := NEW], order := [0]), map[0 := []])
  }

  function Named(): Hub {
    Hub(EMPTY.room.(clients := map[0 := NEW.(name := NAME)], order := [0], names := map[NAME := 0]), map[0 := []])
  }

  function Both(): Hub {
    Hub(Named().room.(clients := map[0 := NEW.(name := NAME), 1 := NEW.(ip := 1)], order := [0, 1]), map[0 := [], 1 := []])
  }

  lemma HelloParses()
    ensures Parse(HELLO) == Parsed([Packet(T_HELLO, [PROTO, 0, 65, 66])], [], false)
    ensures Asked([PROTO, 0, 65, 66]) == Some(NAME)
  {
    assert HELLO[2..6] == [PROTO, 0, 65, 66] && HELLO[6..] == [];
    assert [PROTO, 0, 65, 66][2..] == NAME && LeftStrip(NAME) == NAME && RightStrip(NAME) == NAME;
    assert Relay.Upper(NAME) == NAME;
  }

  lemma JoinParses()
    ensures Parse(JOIN) == Parsed([Packet(T_JOIN, [])], [], false)
  {
    assert JOIN[2..2] == [] && JOIN[2..] == [];
  }

  lemma OneHandled(cfg: Config, w: Room, id: Id, p: Packet)
    requires id in w.clients && |p.payload| < MAX_LEN
    ensures Framed([p]) && HandleAll(cfg, w, id, [p]) == Handle(cfg, w, id, p)
    ensures AllFit(cfg, w, id, [p]) <==> Fits(cfg, w, id, p)
    ensures AllSumsFit(cfg, w, id, [p]) <==> SumFits(w, id, p)
  {
    hide Handle, Fits, SumFits;
    assert [p][..0] == [];
  }

  lemma Buffered(h: Hub, id: Id, data: seq<byte>)
    requires id in h.rx && h.rx[id] == []
    ensures h.rx[id] + data == data
  {
  }

  /** One frame and nothing left of it. */
  lemma OneFrame(cfg: Config, h: Hub, id: Id, data: seq<byte>, p: Packet)
    requires id in h.room.clients && id in h.rx && h.rx[id] == [] && |p.payload| < MAX_LEN
    requires Parse(data) == Parsed([p], [], false)
    ensures Receive(cfg, h, id, data) == Hub(Handle(cfg, h.room, id, p), h.rx[id := []])
  {
    OneHandled(cfg, h.room, id, p);
    Buffered(h, id, data);
    hide Handle, Parse, HandleAll, Framed;
  }

  lemma OneFrameFits(cfg: Config, h: Hub, id: Id, data: seq<byte>, p: Packet)
    requires id in h.room.clients && id in h.rx && h.rx[id] == [] && |p.payload| < MAX_LEN
    requires Parse(data) == Parsed([p], [], false) && |data| <= RX_CAP
    ensures Fits(cfg, h.room, id, p) ==> ReceiveFits(cfg, h, id, data)
    ensures SumFits(h.room, id, p) ==> ReceiveSums(cfg, h, id, data)
  {
    OneHandled(cfg, h.room, id, p);
    Buffered(h, id, data);
    hide Handle, Parse, HandleAll, Framed, Fits, SumFits, AllFit, AllSumsFit, Deliver, Roomy;
  }

  lemma HelloIsHeard(cfg: Config)
    ensures Handle(cfg, Alone().room, 0, Packet(T_HELLO, [PROTO, 0, 65, 66])) == Named().room
  {
    HelloParses();
    hide Asked;
    assert Resolve(cfg, map[], NAME, 0, MAX_TRIES) == Some((NAME, 0));
    var w := Rename(Alone().room, 0, NAME, 0);
    assert w == Named().room;
    assert Oldest(w, 0, 1) == None;
  }

  lemma FirstWaits()
    ensures Oldest(Both().room, 1, 2) == Some(0)
  {
    assert Oldest(Both().room, 1, 1) == Some(0);
  }

  /** The Python server raises; the port links the two and sends both their START. */
  lemma JoinIsHeard(cfg: Config)
    ensures var r := Handle(cfg, Both().room, 1, Packet(T_JOIN, []));
            if !cfg.port then r == Both().room.(stuck := true)
            else r.order == [0, 1] && r.names == map[NAME := 0] && !r.stuck && r.clients.Keys == {0, 1}
                 && |r.clients[0].tx| == |r.clients[1].tx| == 15
  {
    FirstWaits();
    hide Oldest, StartFrame;
  }

  // ---- the two servers on the four events -----------------------------------------------

  lemma Then(cfg: Config, es: seq<Event>, e: Event)
    requires Runs(cfg, EMPTY, es) && Enabled(Exec(cfg, EMPTY, es), e)
    ensures Runs(cfg, EMPTY, es + [e]) && Exec(cfg, EMPTY, es + [e]) == Step(cfg, Exec(cfg, EMPTY, es), e)
  {
    assert (es + [e])[..|es|] == es;
    hide Step, Enabled;
  }

  lemma First(cfg: Config)
    ensures Runs(cfg, EMPTY, ONE) && Exec(cfg, EMPTY, ONE) == Alone()
  {
    assert [] + ONE == ONE;
    Then(cfg, [], Connect(0, 0, 0));
  }

  lemma Second(cfg: Config)
    ensures Runs(cfg, EMPTY, TWO) && Exec(cfg, EMPTY, TWO) == Named()
  {
    First(cfg);
    HelloParses();
    OneFrame(cfg, Alone(), 0, HELLO, Packet(T_HELLO, [PROTO, 0, 65, 66]));
    HelloIsHeard(cfg);
    assert Enabled(Alone(), Event.Bytes(0, HELLO)) && Alone().rx[0 := []] == Named().rx;
    hide Receive, Handle, Runs, Exec, Alone, Named, Enabled, Parse;
    Then(cfg, ONE, Event.Bytes(0, HELLO));
  }

  lemma Third(cfg: Config)
    ensures Runs(cfg, EMPTY, THREE) && Exec(cfg, EMPTY, THREE) == Both()
  {
    Second(cfg);
    SecondFits();
    assert Enabled(Named(), Connect(1, 1, 0));
    hide Runs, Exec, Accept, Named, Both, Enabled;
    Then(cfg, TWO, Connect(1, 1, 0));
  }

  lemma Fourth(cfg: Config)
    ensures Runs(cfg, EMPTY, STORY)
    ensures Exec(cfg, EMPTY, STORY) == Hub(Handle(cfg, Both().room, 1, Packet(T_JOIN, [])), Both().rx)
  {
    Third(cfg);
    JoinParses();
    OneFrame(cfg, Both(), 1, JOIN, Packet(T_JOIN, []));
    assert Enabled(Both(), Event.Bytes(1, JOIN)) && Both().rx[1 := []] == Both().rx;
    hide Receive, Handle, Runs, Exec, Both, Enabled, Parse;
    Then(cfg, THREE, Event.Bytes(1, JOIN));
  }

  // ---- the port on its tables -----------------------------------------------------------

  /** A read of one frame that reports no checksum and leaves room. */
  lemma ReadFrame(cfg: Config, h: Hub, id: Id, data: seq<byte>, p: Packet)
    requires Known(h, id) && h.rx[id] == [] && |p.payload| < MAX_LEN && 0 < |data| <= RX_CAP
    requires Parse(data) == Parsed([p], [], false) && p.kind != W.T_INPUT && Roomy(Handle(cfg, h.room, id, p))
    ensures ReadyFits(cfg, h, id, Some(data), None) && ReadSums(cfg, h, id, Some(data))
    ensures Heard(cfg, h, id, Some(data), None) == Hub(Handle(cfg, h.room, id, p), h.rx[id := []])
  {
    OneFrame(cfg, h, id, data, p);
    OneFrameFits(cfg, h, id, data, p);
    hide Receive, ReceiveFits, ReceiveSums, Handle, Roomy, Parse;
  }

  lemma HelloFits(cfg: Ported)
    ensures Hub(Accept(EMPTY.room, 0, 0, 0), EMPTY.rx[0 := []]) == Alone() && FromAddress(EMPTY.room, 0, 0) == 0
    ensures ReadyFits(cfg, Alone(), 0, Some(HELLO), None) && ReadSums(cfg, Alone(), 0, Some(HELLO))
    ensures Heard(cfg, Alone(), 0, Some(HELLO), None) == Named()
  {
    HelloParses();
    HelloIsHeard(cfg);
    hide Handle, ReadyFits, ReadSums, Heard, Parse;
    ReadFrame(cfg, Alone(), 0, HELLO, Packet(T_HELLO, [PROTO, 0, 65, 66]));
  }

  lemma SecondFits()
    ensures Hub(Accept(Named().room, 1, 1, 0), Named().rx[1 := []]) == Both()
    ensures |Named().room.order| == 1 && FromAddress(Named().room, 1, 1) == 0
  {
  }

  lemma JoinFits(cfg: Ported)
    ensures ReadyFits(cfg, Both(), 1, Some(JOIN), None) && ReadSums(cfg, Both(), 1, Some(JOIN))
    ensures Heard(cfg, Both(), 1, Some(JOIN), None) == Hub(Handle(cfg, Both().room, 1, Packet(T_JOIN, [])), Both().rx)
  {
    JoinParses();
    JoinIsHeard(cfg);
    NamesFit(map[NAME := 0]);
    hide Handle, ReadyFits, ReadSums, Heard, Parse;
    ReadFrame(cfg, Both(), 1, JOIN, Packet(T_JOIN, []));
  }

  lemma NamesFit(names: map<Name, Id>)
    requires names == map[NAME := 0]
    ensures |names| <= NAME_SLOTS
  {
  }

  lemma OutputsOf(st: Store, h: Hub)
    requires Models(st, h) && 0 in h.room.clients && 1 in h.room.clients
    requires st.cs[0].inUse && st.cs[1].inUse && st.cs[0].gen == 0 && st.cs[1].gen == 0
    ensures |st.cs| == MAX_CLIENTS && st.cs[0].tx == h.room.clients[0].tx && st.cs[1].tx == h.room.clients[1].tx
  {
    InRoom(st, h, 0);
    InRoom(st, h, 1);
    hide Models;
  }

  /** The first `n` slots taken, each for the first time, and no other. */
  predicate Taken(cs: seq<Slot>, n: nat) {
    |cs| == MAX_CLIENTS && forall k :: 0 <= k < MAX_CLIENTS ==> cs[k].gen == 0 && (cs[k].inUse <==> k < n)
  }

  lemma TakenHanded(cs: seq<Slot>, zs: seq<Slot>, n: nat)
    requires Taken(cs, n) && Handed(cs, zs)
    ensures Taken(zs, n)
  {
  }

  /** One more connection, which the caps allow. */
  method TakeNext(s: RelayC.Server, ip: int, ghost h: Hub, ghost n: nat)
    requires s.Holds(h) && Taken(s.clients[..], n) && n < MAX_CLIENTS
    requires |h.room.order| < MAX_CLIENTS && FromAddress(h.room, ip, |h.room.order|) < MAX_PER_IP
    modifies s, s.clients, s.order
    ensures s.Holds(Hub(Accept(h.room, n, ip, 0), h.rx[n := []])) && Taken(s.clients[..], n + 1)
  {
    hide Models, Sane, Accept, FromAddress, SameIp;
    assert !s.Snap().cs[n].inUse;
    ghost var cs := s.clients[..];
    var _, slot, id := s.AcceptClient(ip, 0, h);
    assert slot == n && id == n;
    assert s.clients[..] == cs[n := NewSlot(0, ip, 0)];
  }

  /** A says HELLO; B says JOIN first. The Python server has stopped with neither START queued. The port
      has both waiting, fifteen bytes each, and goes on. */
  method ServersPart(cfg: Original) returns (s: RelayC.Server)
    ensures s.cfg == Port(cfg) && s.Valid()
    ensures Runs(cfg, EMPTY, STORY) && Exec(cfg, EMPTY, STORY) == Hub(Both().room.(stuck := true), Both().rx)
    ensures forall i :: i in Both().room.clients ==> Both().room.clients[i].tx == []
    ensures Runs(Port(cfg), EMPTY, STORY) && s.Holds(Exec(Port(cfg), EMPTY, STORY))
    ensures |s.clients[0].tx| == |s.clients[1].tx| == 15
  {
    hide Models, Sane, Accept, FromAddress, Runs, Exec, Handle, Heard, ReadyFits, ReadSums, Alone, Named, Both, Taken, Handed;
    s := new RelayC.Server(Port(cfg));
    NobodyTaken(s.clients[..]);
    HelloFits(Port(cfg));
    TakeNext(s, 0, EMPTY, 0);
    ghost var was := s.clients[..];
    var g := s.Ready(0, Some(HELLO), None, Alone());
    TakenHanded(was, s.clients[..], 1);
    SecondFits();
    TakeNext(s, 1, Named(), 1);
    was := s.clients[..];
    JoinFits(Port(cfg));
    g := s.Ready(1, Some(JOIN), None, Both());
    TakenHanded(was, s.clients[..], 2);
    Fourth(cfg);
    Fourth(Port(cfg));
    Answered(cfg);
    FirstTwo(s.clients[..]);
    OutputsOf(s.Snap(), Exec(Port(cfg), EMPTY, STORY));
  }

  lemma NobodyTaken(cs: seq<Slot>)
    requires cs == seq(MAX_CLIENTS, _ => NOBODY)
    ensures Taken(cs, 0)
  {
  }

  lemma FirstTwo(cs: seq<Slot>)
    requires Taken(cs, 2)
    ensures |cs| == MAX_CLIENTS && cs[0].inUse && cs[1].inUse && cs[0].gen == 0 && cs[1].gen == 0
  {
  }

  lemma Answered(cfg: Original)
    ensures Handle(cfg, Both().room, 1, Packet(T_JOIN, [])) == Both().room.(stuck := true)
    ensures var r := Handle(Port(cfg), Both().room, 1, Packet(T_JOIN, []));
            0 in r.clients && 1 in r.clients && |r.clients[0].tx| == |r.clients[1].tx| == 15
    ensures forall i :: i in Both().room.clients ==> Both().room.clients[i].tx == []
  {
    JoinIsHeard(cfg);
    JoinIsHeard(Port(cfg));
    hide Handle;
  }
}
