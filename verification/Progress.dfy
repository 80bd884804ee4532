/** Nothing deadlocks: while neither console has left, the transport can always be driven so that
    the console behind passes its gate. */
module Progress {
  import opened Bytes
  import opened Sim
  import opened Wire
  import opened Console
  import opened Lockstep
  import opened Skew

  // ---- joining runs -----------------------------------------------------------------------

  lemma Unsnoc(g: Logic, w: World, es: seq<Event>)
    requires es != [] && Runs(g, w, es)
    ensures var n := |es| - 1;
            && Runs(g, w, es[..n]) && Enabled(Exec(g, w, es[..n]), es[n])
            && Exec(g, w, es) == Apply(g, Exec(g, w, es[..n]), es[n])
  {
    hide Enabled, Apply;
  }

  lemma Snoc(g: Logic, w: World, es: seq<Event>, e: Event)
    requires Runs(g, w, es) && Enabled(Exec(g, w, es), e)
    ensures Runs(g, w, es + [e]) && Exec(g, w, es + [e]) == Apply(g, Exec(g, w, es), e)
  {
    hide Enabled, Apply;
    assert (es + [e])[..|es + [e]| - 1] == es;
  }

  lemma LastOfBoth<T>(a: seq<T>, b: seq<T>)
    requires b != []
    ensures a + b == a + b[..|b| - 1] + [b[|b| - 1]]
  {
  }

  lemma {:induction false} Join(g: Logic, w: World, a: seq<Event>, b: seq<Event>)
    requires Runs(g, w, a) && Runs(g, Exec(g, w, a), b)
    ensures Runs(g, w, a + b) && Exec(g, w, a + b) == Exec(g, Exec(g, w, a), b)
    decreases |b|
  {
    if b == [] {
      assert a + b == a;
    } else {
      hide Enabled, Apply, Runs, Exec;
      var c, e := b[..|b| - 1], b[|b| - 1];
      Unsnoc(g, Exec(g, w, a), b);
      Join(g, w, a, c);
      Snoc(g, w, a + c, e);
      LastOfBoth(a, b);
    }
  }

  lemma One(g: Logic, w: World, e: Event)
    requires Enabled(w, e)
    ensures Runs(g, w, [e]) && Exec(g, w, [e]) == Apply(g, w, e)
  {
    assert [e][..0] == [];
  }

  // ---- live worlds ------------------------------------------------------------------------

  /** The invariant, with both consoles still in the match and nobody having left it. */
  ghost predicate Live(w: World) {
    && Inv(w)
    && w.s0.con.net && w.s1.con.net && !w.s0.closed && !w.s1.closed
    && Talks(w.s0) && Talks(w.s1)
  }

  /** A side of a live match: it has sent records only, and while a tick is running its stall
      count is clear. */
  ghost predicate Talks(s: Side) {
    && (forall j :: 0 <= j < |s.sent| ==> s.sent[j].Input?)
    && (s.con.ran ==> s.con.err < 16)
    && s.con.nst != Idle && s.con.nst != Fail
  }

  /** Only the transport moved. */
  ghost predicate Drove(s: Side, z: Side) {
    && z.T == s.T && z.R >= s.R && z.caps == s.caps && z.log == s.log
    && z.con.phase == s.con.phase && z.con.ran == s.con.ran && z.con.net == s.con.net
    && z.con.tick == s.con.tick && z.con.err == s.con.err && z.closed == s.closed
    && s.sent <= z.sent && s.ends <= z.ends && s.read <= z.read && s.arrived <= z.arrived
    && Talks(z)
  }

  lemma DroveTrans(a: Side, b: Side, c: Side)
    requires Drove(a, b) && Drove(b, c)
    ensures Drove(a, c)
  {
  }

  lemma SentDrives(s: Side, z: Side)
    requires Talks(s) && Sent(s, z)
    ensures Drove(s, z)
  {
  }

  lemma QuietDrives(s: Side, z: Side)
    requires Talks(s) && Quiet(s, z) && z.con.err == s.con.err && z.con.nst != Idle && z.con.nst != Fail
    ensures Drove(s, z)
  {
  }

  lemma TookDrives(s: Side, z: Side, peer: Side)
    requires Talks(s) && Took(s, z, peer) && z.con.nst == Consume
    ensures Drove(s, z)
  {
    hide EncodeAll;
  }

  lemma AbsorbedDrives(s: Side, z: Side)
    requires Talks(s) && Absorbed(s, z) && z.con.err == s.con.err
    ensures Drove(s, z)
  {
  }

  /** The state a micro-step leads to when the cartridge answers it. */
  ghost function After(c: Con, n: nat): NetState {
    match c.nst
    case WriteIssue => WriteAck
    case WriteAck => StatusIssue
    case StatusIssue => StatusAck
    case StatusAck => if n < 8 then WriteIssue else ReadIssue
    case ReadIssue => ReadAck
    case ReadAck => Consume
    case Consume => if c.rdn == 0 then WriteIssue else Consume
    case _ => WriteIssue
  }

  lemma WaitDrives(s: Side, peer: Side, n: nat)
    requires Both(s, peer) && Talks(s) && s.T >= 0
    requires s.con.nst != WriteIssue && s.con.nst != ReadAck && !Consumes(s.con)
    requires s.con.nst == StatusAck ==> n < 65536 && s.read + n <= s.arrived
    ensures var z := ApplyNet(s, peer, Done(n)); z.con.nst == After(s.con, n) && z.con.err == s.con.err
    ensures Quiet(s, ApplyNet(s, peer, Done(n)))
  {
    hide ApplyNet, OwnInv, Watermark;
    WaitStep(s, peer, Done(n));
    if s.con.nst == StatusAck {
      StatusDone(s, peer, n);
      BiteOfReport(n);
    } else if s.con.nst == Consume {
      Drained(s, peer, Done(n));
    } else {
      Waited(s, peer, n);
    }
  }

  lemma Waited(s: Side, peer: Side, n: nat)
    requires s.con.nst == WriteAck || s.con.nst == StatusIssue || s.con.nst == ReadIssue
    ensures var z := ApplyNet(s, peer, Done(n)); z.con.nst == After(s.con, n) && z.con.err == s.con.err
  {
    if s.con.nst == WriteAck {
      assert ApplyNet(s, peer, Done(n)).con == s.con.(nst := StatusIssue);
    } else if s.con.nst == StatusIssue {
      assert ApplyNet(s, peer, Done(n)).con == s.con.(nst := StatusAck);
    } else {
      assert ApplyNet(s, peer, Done(n)).con == s.con.(nst := ReadAck);
    }
  }

  /** One answered micro-step of a live console. */
  lemma NetDrives(s: Side, peer: Side, n: nat)
    requires Both(s, peer) && Talks(s) && Talks(peer) && s.T >= 0
    requires s.con.nst == StatusAck ==> n < 65536 && s.read + n <= s.arrived
    ensures var z := ApplyNet(s, peer, Done(n)); Drove(s, z) && z.con.nst == After(s.con, n)
  {
    hide ApplyNet, OwnInv, Watermark, Stream, Drove, Absorbed, Consumed;
    var z := ApplyNet(s, peer, Done(n));
    if s.con.nst == WriteIssue {
      WriteStep(s, peer, Done(n));
      SentDrives(s, z);
    } else if s.con.nst == ReadAck {
      ReadStep(s, peer, Done(n));
      TookDrives(s, z, peer);
    } else if Consumes(s.con) {
      var k := s.lo + s.con.rdn - 1;
      FrameIsNear(s, peer, k);
      ConsumeStep(s, peer, Done(n));
      ConsumedIsAbsorbed(s, peer, k);
      ConsumedErr(s, peer, k);
      AbsorbedDrives(s, z);
    } else {
      WaitDrives(s, peer, n);
      QuietDrives(s, z);
    }
  }

  lemma ConsumedErr(s: Side, peer: Side, k: nat)
    requires k < |peer.sent| && k < |peer.ends| && s.con.rdn > 0 && peer.sent[k].Input?
    ensures Consumed(s, peer, k).con.err == s.con.err && Consumed(s, peer, k).con.nst == s.con.nst
    ensures Consumed(s, peer, k).con.rdn == s.con.rdn - 1 && Consumed(s, peer, k).R == Max(s.R, peer.ends[k])
    ensures Consumed(s, peer, k).read == s.read && Consumed(s, peer, k).lo == s.lo
  {
    hide Absorb;
    AbsorbKeepsErr(s.con.(rdn := s.con.rdn - 1), peer.sent[k].rec);
  }

  lemma AbsorbKeepsErr(c: Con, r: Rec)
    ensures Absorb(c, r).err == c.err && Absorb(c, r).nst == c.nst && Absorb(c, r).rdn == c.rdn
  {
    hide StoreWindow, Comparable, NotBehind;
  }

  // ---- driving one console's transport ------------------------------------------------------

  /** What driving console `i` from `w` to `z` leaves alone. */
  ghost predicate Driven(w: World, z: World, i: nat) {
    i < 2 && Live(z) && Drove(Me(w, i), Me(z, i)) && Peer(z, i) == Peer(w, i)
  }

  lemma Drive(g: Logic, w: World, i: nat, n: nat) returns (z: World)
    requires Live(w) && i < 2 && Me(w, i).T >= 0
    requires Me(w, i).con.nst == StatusAck ==> n < 65536 && Me(w, i).read + n <= Me(w, i).arrived
    ensures Enabled(w, Net(i, Done(n))) && z == Apply(g, w, Net(i, Done(n)))
    ensures Me(z, i) == ApplyNet(Me(w, i), Peer(w, i), Done(n))
    ensures Driven(w, z, i) && Me(z, i).con.nst == After(Me(w, i).con, n)
  {
    hide OwnInv, LinkInv, ApplyNet, Drove, Talks;
    z := Apply(g, w, Net(i, Done(n)));
    EventKeeps(g, w, Net(i, Done(n)));
    NetDrives(Me(w, i), Peer(w, i), n);
    assert Talks(Me(z, i)) && Me(z, i).con.net && !Me(z, i).closed by { DroveLives(Me(w, i), Me(z, i)); }
  }

  lemma DroveLives(s: Side, z: Side)
    requires Drove(s, z)
    ensures Talks(z) && z.con.net == s.con.net && z.closed == s.closed && z.T == s.T
  {
  }

  /** Steps left before the machine is about to write. */
  ghost function Distance(c: Con): nat {
    match c.nst
    case WriteIssue => 0
    case Consume => 1 + c.rdn
    case StatusAck => 1
    case StatusIssue => 2
    case WriteAck => 3
    case ReadAck => 40
    case ReadIssue => 41
    case _ => 0
  }

  lemma BothStream(s: Side, peer: Side)
    requires Both(s, peer)
    ensures Stream(s, peer) && |peer.ends| == |peer.sent|
  {
  }

  lemma ReadDistance(s: Side, peer: Side)
    requires Stream(s, peer) && s.con.nst == ReadAck
    ensures Distance(ApplyNet(s, peer, Done(0)).con) < 40
  {
    hide ApplyNet, Stream, Took, Distance;
    ReadStep(s, peer, Done(0));
    TookDistance(s, ApplyNet(s, peer, Done(0)), peer);
  }

  lemma TookDistance(s: Side, z: Side, peer: Side)
    requires Took(s, z, peer) && z.con.nst == Consume
    ensures Distance(z.con) < 40
  {
    hide EncodeAll;
  }

  lemma ConsumeDistance(s: Side, peer: Side)
    requires Both(s, peer) && Consumes(s.con)
    requires forall j :: 0 <= j < |peer.sent| ==> peer.sent[j].Input?
    ensures Distance(ApplyNet(s, peer, Done(0)).con) == s.con.rdn as nat
  {
    hide ApplyNet, Both, Stream, Consumed, Sends;
    var k := s.lo + s.con.rdn - 1;
    FrameIsNear(s, peer, k);
    ConsumeStep(s, peer, Done(0));
    ConsumedErr(s, peer, k);
  }

  lemma DistanceDrops(s: Side, peer: Side)
    requires Both(s, peer) && s.T >= 0 && s.con.nst != WriteIssue && s.con.nst != Idle && s.con.nst != Fail
    requires forall j :: 0 <= j < |peer.sent| ==> peer.sent[j].Input?
    ensures Distance(ApplyNet(s, peer, Done(0)).con) < Distance(s.con)
  {
    hide ApplyNet, Both, Stream;
    BothStream(s, peer);
    if s.con.nst == ReadAck {
      ReadDistance(s, peer);
    } else if Consumes(s.con) {
      ConsumeDistance(s, peer);
    } else if s.con.nst == Consume {
      Drained(s, peer, Done(0));
    } else if s.con.nst == StatusAck {
      StatusDone(s, peer, 0);
    } else {
      Waited(s, peer, 0);
    }
  }

  /** The world `y` that a run of `i`'s transport alone reaches from `w`. */
  ghost predicate Follows(g: Logic, w: World, es: seq<Event>, y: World, i: nat) {
    Runs(g, w, es) && y == Exec(g, w, es) && Driven(w, y, i) && Me(w, i).T >= 0
  }

  lemma Next(g: Logic, w: World, es: seq<Event>, y: World, i: nat, n: nat) returns (more: seq<Event>, z: World)
    requires Follows(g, w, es, y, i)
    requires Me(y, i).con.nst == StatusAck ==> n < 65536 && Me(y, i).read + n <= Me(y, i).arrived
    ensures Follows(g, w, more, z, i)
    ensures Me(z, i) == ApplyNet(Me(y, i), Peer(y, i), Done(n)) && Me(z, i).con.nst == After(Me(y, i).con, n)
    ensures Live(y) && Drove(Me(y, i), Me(z, i)) && Peer(z, i) == Peer(y, i)
  {
    hide OwnInv, LinkInv, ApplyNet, Drove, Apply, After;
    DroveLives(Me(w, i), Me(y, i));
    z := Drive(g, y, i, n);
    One(g, y, Net(i, Done(n)));
    Join(g, w, es, [Net(i, Done(n))]);
    DroveTrans(Me(w, i), Me(y, i), Me(z, i));
    more := es + [Net(i, Done(n))];
  }

  lemma Start(g: Logic, w: World, i: nat)
    requires Live(w) && i < 2 && Me(w, i).T >= 0
    ensures Follows(g, w, [], w, i)
  {
    hide OwnInv, LinkInv;
  }

  lemma StreamBounds(w: World, i: nat)
    requires Live(w) && i < 2
    ensures var s := Me(w, i);
            s.read % FRAME_LEN == 0 && s.read <= s.arrived <= FRAME_LEN * |Peer(w, i).sent|
  {
    hide OwnInv, Watermark, Talks;
  }

  lemma {:induction false} DriveToWrite(g: Logic, w: World, es: seq<Event>, y: World, i: nat)
      returns (more: seq<Event>, z: World)
    requires Follows(g, w, es, y, i)
    ensures Follows(g, w, more, z, i) && Me(z, i).con.nst == WriteIssue
    ensures Drove(Me(y, i), Me(z, i)) && Peer(z, i) == Peer(y, i)
    ensures Me(y, i).con.nst == Consume || Me(y, i).con.nst == WriteIssue ==>
              Me(z, i).read == Me(y, i).read && Me(z, i).arrived == Me(y, i).arrived
    decreases Distance(Me(y, i).con)
  {
    hide OwnInv, LinkInv, ApplyNet, Drove, Apply, Runs, Exec, Distance;
    DroveLives(Me(w, i), Me(y, i));
    if Me(y, i).con.nst == WriteIssue {
      more, z := es, y;
      DroveSelf(Me(y, i));
    } else {
      DistanceDrops(Me(y, i), Peer(y, i));
      StreamBounds(y, i);
      var e, x := Next(g, w, es, y, i, 0);
      if Me(y, i).con.nst == Consume {
        ConsumeReadsNothing(y, i);
      }
      more, z := DriveToWrite(g, w, e, x, i);
      DroveTrans(Me(y, i), Me(x, i), Me(z, i));
    }
  }

  lemma DroveSelf(s: Side)
    requires Talks(s)
    ensures Drove(s, s)
  {
  }

  /** One WRITE, STATUS and READ, up to the batch in the reply window. */
  lemma ReadOnce(g: Logic, w: World, es: seq<Event>, y: World, i: nat)
      returns (more: seq<Event>, z: World)
    requires Follows(g, w, es, y, i) && Me(y, i).con.nst == WriteIssue
    requires Me(y, i).read + FRAME_LEN <= Me(y, i).arrived
    ensures Follows(g, w, more, z, i) && Peer(z, i) == Peer(y, i)
    ensures Me(z, i).con.nst == Consume && Me(z, i).arrived == Me(y, i).arrived
    ensures Me(z, i).con.rdn > 0 && Me(z, i).read > Me(y, i).read
    ensures Me(z, i).lo + Me(z, i).con.rdn == Me(z, i).read / FRAME_LEN
  {
    hide OwnInv, LinkInv, ApplyNet, Drove, Apply, Runs, Exec, Live;
    var n := if Me(y, i).arrived - Me(y, i).read < 65536 then Me(y, i).arrived - Me(y, i).read else 65535;
    var a, a' := Next(g, w, es, y, i, 0);
    WritesOnly(Me(y, i), Peer(y, i));
    var b, b' := Next(g, w, a, a', i, 0);
    Moves(Me(a', i), Peer(y, i), 0);
    var c, c' := Next(g, w, b, b', i, 0);
    Moves(Me(b', i), Peer(y, i), 0);
    var d, d' := Next(g, w, c, c', i, n);
    Moves(Me(c', i), Peer(y, i), n);
    var e, e' := Next(g, w, d, d', i, 0);
    Moves(Me(d', i), Peer(y, i), 0);
    more, z := Next(g, w, e, e', i, 0);
    ReadTakes(e', i);
  }

  lemma WritesOnly(s: Side, peer: Side)
    requires s.con.nst == WriteIssue
    ensures var z := ApplyNet(s, peer, Done(0)); z.read == s.read && z.arrived == s.arrived
  {
  }

  lemma Moves(s: Side, peer: Side, n: nat)
    requires s.con.nst == WriteAck || s.con.nst == StatusIssue || s.con.nst == ReadIssue
          || (s.con.nst == StatusAck && n >= 8)
    ensures var z := ApplyNet(s, peer, Done(n)); z.read == s.read && z.arrived == s.arrived
  {
  }

  lemma ReadTakes(w: World, i: nat)
    requires Live(w) && i < 2 && Me(w, i).con.nst == ReadAck
    ensures var s := Me(w, i);
            var z := ApplyNet(s, Peer(w, i), Done(0));
            && z.con.nst == Consume && z.con.rdn > 0 && z.read > s.read && z.arrived == s.arrived
            && z.lo + z.con.rdn == z.read / FRAME_LEN
  {
    hide OwnInv, Watermark, ApplyNet, Talks, EncodeAll;
    ReadStep(Me(w, i), Peer(w, i), Done(0));
  }

  lemma ConsumeReadsNothing(w: World, i: nat)
    requires Live(w) && i < 2 && Me(w, i).con.nst == Consume
    ensures var s := Me(w, i);
            var z := ApplyNet(s, Peer(w, i), Done(0));
            && z.read == s.read && z.arrived == s.arrived
            && (s.con.rdn > 0 ==> z.con.nst == Consume) && (s.con.rdn == 0 ==> z.con.nst == WriteIssue)
            && (s.con.rdn > 0 ==>
                  var k := s.lo + s.con.rdn - 1; k < |Peer(w, i).ends| && z.R >= Peer(w, i).ends[k])
  {
    hide ApplyNet, OwnInv, Watermark, Consumed, Stream, Quiet;
    var s, peer := Me(w, i), Peer(w, i);
    if s.con.rdn == 0 {
      Drained(s, peer, Done(0));
    } else {
      var k := s.lo + s.con.rdn - 1;
      FrameIsNear(s, peer, k);
      ConsumeStep(s, peer, Done(0));
      ConsumedErr(s, peer, k);
      ConsumedArrived(s, peer, k);
    }
  }

  lemma ConsumedArrived(s: Side, peer: Side, k: nat)
    requires k < |peer.sent| && k < |peer.ends| && s.con.rdn > 0
    ensures Consumed(s, peer, k).arrived == s.arrived
  {
    hide Absorb;
  }

  /** Read until the newest frame of the peer's stream is in the reply window, then consume it. */
  lemma {:induction false} CatchUp(g: Logic, w: World, es: seq<Event>, y: World, i: nat)
      returns (more: seq<Event>, z: World)
    requires Follows(g, w, es, y, i) && Me(y, i).con.nst == WriteIssue
    requires Me(y, i).read < Me(y, i).arrived == FRAME_LEN * |Peer(y, i).sent|
    ensures Follows(g, w, more, z, i) && Peer(z, i) == Peer(y, i)
    ensures 0 < |Peer(z, i).ends| && Me(z, i).R >= Peer(z, i).ends[|Peer(z, i).ends| - 1]
    decreases Me(y, i).arrived - Me(y, i).read
  {
    hide OwnInv, LinkInv, ApplyNet, Drove, Apply, Runs, Exec;
    StreamBounds(y, i);
    var a, x := ReadOnce(g, w, es, y, i);
    StreamBounds(x, i);
    if Me(x, i).read == Me(x, i).arrived {
      ConsumeReadsNothing(x, i);
      OwnLengths(Peer(x, i));
      more, z := Next(g, w, a, x, i, 0);
    } else {
      var b, v := DriveToWrite(g, w, a, x, i);
      more, z := CatchUp(g, w, b, v, i);
    }
  }

  // ---- frames -----------------------------------------------------------------------------

  /** Console `i` advanced to its next tick and nothing else of note happened. */
  ghost predicate Advanced(w: World, z: World, i: nat) {
    i < 2 && Live(z) && Me(z, i).T == Me(w, i).T + 1 && Peer(z, i).T == Peer(w, i).T
  }

  lemma FrameLives(g: Logic, s: Side, p: Ports)
    requires OwnInv(s) && Talks(s) && s.con.net && -2 <= s.R - s.T <= 5
    requires s.con.ran || s.R >= s.T
    ensures var z := ApplyFrame(g, s, p);
            && Talks(z) && z.con.net && z.closed == s.closed && z.R == s.R
            && (s.con.phase != 0 ==> z.T == s.T && z.con.ran == s.con.ran && z.con.phase == NextPhase(s.con.phase))
            && (s.con.phase == 0 && s.con.ran ==> z.T == s.T + 1)
            && (!s.con.ran ==> z.T == s.T && z.con.ran)
  {
    hide ApplyFrame, Crc, Clock, Mix, WriteSticks, Inputs, Captured, Sends, Repairs, CountsFrames;
    FrameFootprint(g, s, p);
    if s.con.phase != 0 {
      MidFrame(g, s, p);
    } else {
      BoundaryFrame(g, s, p);
      GateIsExact(s);
    }
  }

  const Nothing := Ports(255, 255, 255)

  lemma FrameOnce(g: Logic, w: World, i: nat) returns (es: seq<Event>, z: World)
    requires Live(w) && i < 2 && (Me(w, i).con.ran || Me(w, i).R >= Me(w, i).T)
    ensures Runs(g, w, es) && z == Exec(g, w, es) && Live(z) && Peer(z, i) == Peer(w, i)
    ensures var s, t := Me(w, i), Me(z, i);
            && (s.con.phase != 0 ==> t.T == s.T && t.con.ran == s.con.ran && t.con.phase == NextPhase(s.con.phase))
            && (s.con.phase == 0 && s.con.ran ==> t.T == s.T + 1)
            && (!s.con.ran ==> t.T == s.T && t.con.ran)
  {
    hide OwnInv, LinkInv, ApplyFrame, Talks, Runs;
    var e := Frame(i, Nothing);
    SkewFollows(Me(w, i), Peer(w, i));
    EventKeeps(g, w, e);
    FrameLives(g, Me(w, i), Nothing);
    One(g, w, e);
    es, z := [e], Apply(g, w, e);
  }

  /** A tick that is running ends, and the next boundary advances. */
  lemma {:induction false} FinishTick(g: Logic, w: World, i: nat) returns (es: seq<Event>, z: World)
    requires Live(w) && i < 2 && Me(w, i).con.ran
    ensures Runs(g, w, es) && z == Exec(g, w, es) && Advanced(w, z, i)
    decreases (4 - Me(w, i).con.phase) % 4
  {
    hide Inv, Apply, Talks;
    var first, y := FrameOnce(g, w, i);
    if Me(w, i).con.phase == 0 {
      es, z := first, y;
    } else {
      var rest;
      rest, z := FinishTick(g, y, i);
      Join(g, w, first, rest);
      es := first + rest;
    }
  }

  /** The peer sends the record for its current tick, and all of its stream arrives. */
  lemma PeerSends(g: Logic, w: World, i: nat) returns (es: seq<Event>, z: World)
    requires Live(w) && i < 2 && Peer(w, i).T >= 0 && Me(w, i).con.nst == WriteIssue
    ensures Runs(g, w, es) && z == Exec(g, w, es) && Live(z)
    ensures var s, t, peer := Me(w, i), Me(z, i), Peer(z, i);
            && t == s.(arrived := t.arrived) && peer.T == Peer(w, i).T
            && t.read < t.arrived == FRAME_LEN * |peer.sent|
            && 0 < |peer.ends| && peer.ends[|peer.ends| - 1] == peer.T + D
  {
    hide OwnInv, LinkInv, ApplyNet, Apply, Runs, Exec;
    var j := 1 - i;
    Start(g, w, j);
    var a, x := DriveToWrite(g, w, [], w, j);
    StreamBounds(x, i);
    var b, y := Next(g, w, a, x, j, 0);
    DroveLives(Me(w, j), Me(x, j));
    WriteAppends(Me(x, j), Peer(x, j));
    StreamBounds(y, i);
    var e := Arrive(i, FRAME_LEN * |Peer(y, i).sent| - Me(y, i).arrived);
    ArriveLives(g, y, e);
    One(g, y, e);
    Join(g, w, b, [e]);
    es, z := b + [e], Apply(g, y, e);
  }

  lemma WriteAppends(s: Side, peer: Side)
    requires s.con.nst == WriteIssue && !s.closed
    ensures var z := ApplyNet(s, peer, Done(0)); |z.sent| == |s.sent| + 1 && z.ends == s.ends + [s.T + D]
  {
  }

  lemma ArriveLives(g: Logic, w: World, e: Event)
    requires Live(w) && e.Arrive? && Enabled(w, e)
    ensures Live(Apply(g, w, e)) && Peer(Apply(g, w, e), e.i) == Peer(w, e.i)
    ensures Me(Apply(g, w, e), e.i) == Me(w, e.i).(arrived := Me(w, e.i).arrived + e.n)
  {
    hide OwnInv, LinkInv;
    EventKeeps(g, w, e);
  }

  /** The console that is not ahead can always be brought to its next tick. */
  lemma AdvanceBehind(g: Logic, w: World, i: nat) returns (es: seq<Event>, z: World)
    requires Live(w) && i < 2 && Me(w, i).T <= Peer(w, i).T
    ensures Runs(g, w, es) && z == Exec(g, w, es) && Advanced(w, z, i)
  {
    hide OwnInv, LinkInv, ApplyNet, Apply, Runs, Exec, Talks, Drove;
    if Me(w, i).con.ran {
      es, z := FinishTick(g, w, i);
    } else {
      Stalled(w, i);
      Start(g, w, i);
      var a, x := DriveToWrite(g, w, [], w, i);
      DroveLives(Me(w, i), Me(x, i));
      var b, y := PeerSends(g, x, i);
      Join(g, w, a, b);
      Start(g, y, i);
      var c, v := CatchUp(g, y, [], y, i);
      Join(g, w, a + b, c);
      DroveLives(Me(y, i), Me(v, i));
      StillBoundary(w, x, y, v, i);
      var d, u := FrameOnce(g, v, i);
      Join(g, w, a + b + c, d);
      var e;
      e, z := FinishTick(g, u, i);
      Join(g, w, a + b + c + d, e);
      es := a + b + c + d + e;
    }
  }

  lemma Stalled(w: World, i: nat)
    requires Live(w) && i < 2 && !Me(w, i).con.ran
    ensures Me(w, i).T >= 0 && Me(w, i).con.phase == 0
  {
  }

  lemma StillBoundary(w: World, x: World, y: World, v: World, i: nat)
    requires i < 2 && !Me(w, i).con.ran && Drove(Me(w, i), Me(x, i))
    requires Me(y, i) == Me(x, i).(arrived := Me(y, i).arrived) && Drove(Me(y, i), Me(v, i))
    ensures !Me(v, i).con.ran && Me(v, i).T == Me(w, i).T
  {
  }

  ghost function Slower(w: World): int {
    if w.s0.T <= w.s1.T then w.s0.T else w.s1.T
  }

  // ---- every reachable match is live --------------------------------------------------------

  ghost predicate Converses(w: World) {
    !w.s0.closed && !w.s1.closed && Talks(w.s0) && Talks(w.s1)
  }

  lemma FrameKeepsCalm(g: Logic, s: Side, p: Ports)
    requires s.con.ran ==> s.con.err < 16
    ensures var z := ApplyFrame(g, s, p); z.con.ran ==> z.con.err < 16
  {
    hide ApplyFrame, Crc, Clock, Mix, WriteSticks, Inputs, Captured, MayRun;
    if s.con.phase != 0 {
      MidFrame(g, s, p);
    } else {
      BoundaryFrame(g, s, p);
    }
  }

  lemma FrameKeepsTalks(g: Logic, s: Side, p: Ports)
    requires Talks(s)
    ensures var z := ApplyFrame(g, s, p); Talks(z) && z.closed == s.closed
  {
    hide ApplyFrame;
    FrameFootprint(g, s, p);
    FrameKeepsCalm(g, s, p);
  }

  lemma NetKeepsTalks(s: Side, peer: Side, a: Answer)
    requires Both(s, peer) && Talks(s) && s.T >= 0
    requires forall j :: 0 <= j < |peer.sent| ==> peer.sent[j].Input?
    requires a.Done? && s.con.nst == StatusAck ==> a.reported < 65536 && s.read + a.reported <= s.arrived
    ensures var z := ApplyNet(s, peer, a); Talks(z) && z.closed == s.closed
  {
    hide ApplyNet, OwnInv, Watermark, Stream, Absorbed, Consumed, Sent, Quiet, Took;
    var z := ApplyNet(s, peer, a);
    if s.con.nst == WriteIssue {
      WriteStep(s, peer, a);
      SentDrives(s, z);
    } else if Reads(s.con, a) {
      ReadStep(s, peer, a);
      TookTalks(s, z, peer);
    } else if Consumes(s.con) {
      var k := s.lo + s.con.rdn - 1;
      FrameIsNear(s, peer, k);
      ConsumeStep(s, peer, a);
      ConsumedIsAbsorbed(s, peer, k);
      ConsumedErr(s, peer, k);
      AbsorbedDrives(s, z);
    } else if a.Done? {
      WaitDrives(s, peer, a.reported);
      WaitTalks(s, z, a.reported);
    } else {
      FailTalks(s, peer, a);
    }
  }

  lemma TookTalks(s: Side, z: Side, peer: Side)
    requires Talks(s) && Took(s, z, peer)
    ensures Talks(z) && z.closed == s.closed
  {
    hide EncodeAll;
  }

  lemma FailTalks(s: Side, peer: Side, a: Answer)
    requires Talks(s) && s.con.nst != WriteIssue && !Reads(s.con, a) && !Consumes(s.con) && !a.Done?
    ensures var z := ApplyNet(s, peer, a); Talks(z) && z.closed == s.closed
  {
    hide ApplyNet, Step, MailOf, Failed, Quiet;
    if s.con.nst == Consume {
      Drained(s, peer, a);
      StateTalks(s, WriteIssue);
    } else if s.con.nst == WriteAck || s.con.nst == StatusAck || s.con.nst == ReadAck {
      AckFails(s, peer, a);
      FailedTalks(s);
    } else {
      Issuing(s, peer, a);
      StateTalks(s, if s.con.nst == ReadIssue then ReadAck else StatusAck);
    }
  }

  lemma WaitTalks(s: Side, z: Side, n: nat)
    requires Talks(s) && Quiet(s, z) && z.con.nst == After(s.con, n) && z.con.err == s.con.err
    ensures Talks(z) && z.closed == s.closed
  {
  }

  lemma StateTalks(s: Side, n: NetState)
    requires Talks(s) && n != Idle && n != Fail
    ensures Talks(s.(con := s.con.(nst := n)))
  {
  }

  lemma FailedTalks(s: Side)
    requires Talks(s)
    ensures Talks(s.(con := Failed(s.con)))
  {
  }

  lemma Issuing(s: Side, peer: Side, a: Answer)
    requires s.con.nst == StatusIssue || s.con.nst == ReadIssue
    ensures ApplyNet(s, peer, a) == s.(con := s.con.(nst := if s.con.nst == ReadIssue then ReadAck else StatusAck))
  {
  }

  lemma EventKeepsTalks(g: Logic, w: World, e: Event)
    requires Inv(w) && Converses(w) && Enabled(w, e) && !e.Goodbye?
    ensures Converses(Apply(g, w, e))
  {
    hide OwnInv, LinkInv, ApplyFrame, ApplyNet;
    match e {
      case Frame(i, p) => FrameKeepsTalks(g, Me(w, i), p);
      case Net(i, a) => NetKeepsTalks(Me(w, i), Peer(w, i), a);
      case Arrive(i, n) =>
      case Goodbye(i) =>
      case Draw(i, cells) =>
    }
  }

  ghost predicate NobodyLeft(es: seq<Event>) {
    forall k :: 0 <= k < |es| ==> !es[k].Goodbye?
  }

  lemma {:induction false} RunKeepsTalks(g: Logic, w: World, es: seq<Event>)
    requires Init(w) && Runs(g, w, es) && NobodyLeft(es)
    ensures Converses(Exec(g, w, es))
    decreases |es|
  {
    hide Inv, Talks, Apply;
    if es == [] {
      InitTalks(w);
    } else {
      var before := es[..|es| - 1];
      RunKeepsTalks(g, w, before);
      RunKeepsInv(g, w, before);
      EventKeepsTalks(g, Exec(g, w, before), es[|es| - 1]);
    }
  }

  lemma InitTalks(w: World)
    requires Init(w)
    ensures Converses(w)
  {
  }

  /** Progress: from every state a match can reach, while neither console has left or been given up
      by the watchdog, some finite continuation moves the slower tick on, and both are still in. */
  lemma SlowerTickAdvances(g: Logic, w: World, es: seq<Event>) returns (more: seq<Event>)
    requires Init(w) && Runs(g, w, es) && NobodyLeft(es)
    requires Exec(g, w, es).s0.con.net && Exec(g, w, es).s1.con.net
    ensures Runs(g, w, es + more)
    ensures Slower(Exec(g, w, es + more)) > Slower(Exec(g, w, es))
    ensures Exec(g, w, es + more).s0.con.net && Exec(g, w, es + more).s1.con.net
  {
    hide Inv, Talks, Apply, Runs, Exec;
    var y := Exec(g, w, es);
    RunKeepsInv(g, w, es);
    RunKeepsTalks(g, w, es);
    var i := if y.s0.T <= y.s1.T then 0 else 1;
    var a, x := AdvanceBehind(g, y, i);
    Join(g, w, es, a);
    more := a;
    if y.s0.T == y.s1.T {
      var b, z := AdvanceBehind(g, x, 1);
      Join(g, w, es + a, b);
      assert es + a + b == es + (a + b);
      more := a + b;
    }
  }
}
