/** What the hypothesis H rules out. The comments treat it as automatic; it is not: here is a run of the
    consoles, their transports and the relay, with nothing lost and nothing refused, on which a batch
    moves the watermark four ticks past the last filled one, a boundary falls inside the batch, and
    the two consoles run the same tick on different inputs. */
module Stale {
  import opened Bytes
  import opened Sim
  import opened Wire
  import opened Console
  import opened Lockstep
  import opened Skew
  import opened Progress
  import A = Agreement

  // ---- one console's frames -------------------------------------------------------------

  /** Frames only: the transport's cells stand still and the history grows. */
  ghost predicate Rode(s: Side, z: Side) {
    Framed(s, z) && s.caps <= z.caps && s.log <= z.log && z.con.guest == s.con.guest && z.con.net == s.con.net
  }

  /** A boundary that ran a tick: the newest entry of the log is the two bytes the rings held for it. */
  ghost predicate JustRan(s: Side) {
    && s.con.ran && s.con.phase == 1 && s.T >= 0 && |s.log| == s.T + 1 && s.T < |s.caps|
    && A.Own(s.log[s.T], s.con.guest) == s.caps[s.T] && A.Own(s.log[s.T], !s.con.guest) == s.con.ring[s.T % 8]
  }

  ghost predicate AtRest(s: Side) {
    s.con.phase == 0 && !s.con.ran
  }

  lemma MidRode(g: Logic, s: Side, p: Ports)
    requires s.con.phase != 0
    ensures var z := ApplyFrame(g, s, p);
            Rode(s, z) && z.T == s.T && z.con.ran == s.con.ran && z.con.phase == NextPhase(s.con.phase) && z.log == s.log
  {
    MidFrame(g, s, p);
    PiecesAreFramed(g, s, p);
  }

  lemma RunLogs(g: Logic, s: Side)
    requires OwnInv(s) && OwnInv(Run(g, s)) && AtRest(s) && s.T >= 0
    ensures var z := Run(g, s); Rode(s, z) && z.T == s.T && JustRan(z) && z.caps == s.caps
  {
    hide Crc, Mix, Clock, WriteSticks, Captures, Sends, CountsFrames, Repairs;
    PiecesAreFramed(g, s, Nothing);
    LowIndex(s.T, 0);
    OwnByte(s);
    LogLength(s);
  }

  lemma LogLength(s: Side)
    requires OwnInv(s) && AtRest(s)
    ensures |s.log| == s.T && s.con.tick == Low(s.T) && |s.caps| == s.T + 3
  {
  }

  /** A boundary: the tick advances if the last one ran, and the new one runs exactly when its input is
      in. */
  lemma BoundaryRode(g: Logic, s: Side, p: Ports)
    requires OwnInv(s) && s.con.phase == 0 && s.T >= -1 && -2 <= s.R - s.T <= 5
    requires (s.con.ran || s.R >= s.T) && (s.con.ran ==> s.con.err < 0xF0)
    ensures var z := ApplyFrame(g, s, p);
            && z.T == (if s.con.ran then s.T + 1 else s.T)
            && z.caps == (if s.con.ran then s.caps + [Captured(s.con, p)] else s.caps)
            && Rode(s, z)
            && if s.R >= z.T then JustRan(z) else AtRest(z)
  {
    hide ApplyFrame, Enter, Run, MayRun, Crc, Captured, Stall;
    BoundaryFrame(g, s, p);
    EnterKeeps(s, p);
    EnterRode(s, p);
    var e := Enter(s, p);
    GateIsExact(e);
    if s.R >= e.T {
      RunKeeps(g, e);
      RunLogs(g, e);
    } else {
      StallRode(s, p, e);
    }
  }

  lemma EnterRode(s: Side, p: Ports)
    requires s.con.phase == 0
    ensures var e := Enter(s, p);
            && Rode(s, e) && AtRest(e) && e.log == s.log && e.con.err == s.con.err
            && e.T == (if s.con.ran then s.T + 1 else s.T)
            && e.caps == if s.con.ran then s.caps + [Captured(s.con, p)] else s.caps
  {
    hide Crc, Captured;
  }

  lemma StallRode(s: Side, p: Ports, e: Side)
    requires AtRest(e) && Rode(s, e) && OwnInv(e) && e.con.err < 0xF0
    ensures var z := e.(con := Stall(e.con)); Rode(s, z) && AtRest(z) && z.T == e.T && z.caps == e.caps
  {
  }

  // ---- runs -----------------------------------------------------------------------------

  /** The world `w` a run from `w0` has reached, both consoles still in the match. */
  ghost predicate At(g: Logic, w0: World, es: seq<Event>, w: World) {
    Runs(g, w0, es) && w == Exec(g, w0, es) && Live(w) && NothingDrawn(es)
  }

  ghost predicate NothingDrawn(es: seq<Event>) {
    forall k :: 0 <= k < |es| ==> !es[k].Draw?
  }

  lemma Go(g: Logic, w0: World, es: seq<Event>, w: World, e: Event) returns (more: seq<Event>, z: World)
    requires At(g, w0, es, w) && Enabled(w, e) && Live(Apply(g, w, e)) && !e.Draw?
    ensures At(g, w0, more, z) && z == Apply(g, w, e)
  {
    hide Live, Apply, Enabled;
    One(g, w, e);
    Join(g, w0, es, [e]);
    more, z := es + [e], Apply(g, w, e);
  }

  lemma LiveSide(w: World, i: nat)
    requires Live(w) && i < 2
    ensures var s := Me(w, i);
            && OwnInv(s) && s.con.net && !s.closed && -2 <= s.R - s.T <= 5 && s.T >= -1
            && (s.con.ran ==> s.con.err < 16) && Both(s, Peer(w, i))
  {
    SkewFollows(Me(w, i), Peer(w, i));
  }

  /** One frame of a console that has something to run or to enter. */
  lemma OneFrame(g: Logic, w0: World, es: seq<Event>, w: World, i: nat, p: Ports) returns (more: seq<Event>, z: World)
    requires At(g, w0, es, w) && i < 2 && (Me(w, i).con.ran || Me(w, i).R >= Me(w, i).T)
    ensures At(g, w0, more, z) && Peer(z, i) == Peer(w, i) && Me(z, i) == ApplyFrame(g, Me(w, i), p)
  {
    hide OwnInv, LinkInv, ApplyFrame, Talks, Runs, Exec;
    var e := Frame(i, p);
    LiveSide(w, i);
    EventKeeps(g, w, e);
    FrameLives(g, Me(w, i), p);
    more, z := Go(g, w0, es, w, e);
  }

  /** The rest of a running tick and the boundary after it. */
  lemma {:induction false} Tick(g: Logic, w0: World, es: seq<Event>, w: World, i: nat) returns (more: seq<Event>, z: World)
    requires At(g, w0, es, w) && i < 2 && Me(w, i).con.ran
    ensures At(g, w0, more, z) && Peer(z, i) == Peer(w, i)
    ensures var s, t := Me(w, i), Me(z, i);
            Rode(s, t) && t.T == s.T + 1 && if s.R >= t.T then JustRan(t) else AtRest(t)
    decreases (4 - Me(w, i).con.phase) % 4
  {
    hide At, OwnInv, ApplyFrame, Rode, JustRan, AtRest, Both, Captured;
    AtLives(g, w0, es, w);
    LiveSide(w, i);
    var a, x := OneFrame(g, w0, es, w, i, Nothing);
    if Me(w, i).con.phase == 0 {
      BoundaryRode(g, Me(w, i), Nothing);
      more, z := a, x;
    } else {
      MidRode(g, Me(w, i), Nothing);
      Rides(Me(w, i), Me(x, i), Me(x, i));
      more, z := Tick(g, w0, a, x, i);
      Rides(Me(w, i), Me(x, i), Me(z, i));
    }
  }

  lemma AtLives(g: Logic, w0: World, es: seq<Event>, w: World)
    requires At(g, w0, es, w)
    ensures Live(w)
  {
  }

  lemma Rides(a: Side, b: Side, c: Side)
    requires Rode(a, b)
    ensures Rode(b, c) ==> Rode(a, c)
    ensures b.R == a.R
  {
  }

  // ---- one console's transport ----------------------------------------------------------

  /** One answered micro-step. */
  lemma OneStep(g: Logic, w0: World, es: seq<Event>, w: World, i: nat, n: nat) returns (more: seq<Event>, z: World)
    requires At(g, w0, es, w) && i < 2 && Me(w, i).T >= 0
    requires Me(w, i).con.nst == StatusAck ==> n < 65536 && Me(w, i).read + n <= Me(w, i).arrived
    ensures At(g, w0, more, z) && Peer(z, i) == Peer(w, i) && Me(z, i) == ApplyNet(Me(w, i), Peer(w, i), Done(n))
  {
    hide OwnInv, LinkInv, ApplyNet, Talks, Runs, Exec, Drove;
    var x := Drive(g, w, i, n);
    more, z := Go(g, w0, es, w, Net(i, Done(n)));
  }

  lemma Written(s: Side, peer: Side)
    requires s.con.nst == WriteIssue && !s.closed
    ensures ApplyNet(s, peer, Done(0)) ==
              s.(con := s.con.(nst := WriteAck), sent := s.sent + [Input(RecordOf(s.con))], ends := s.ends + [s.T + D])
  {
  }

  lemma Passed(s: Side, peer: Side)
    requires s.con.nst == WriteAck || s.con.nst == StatusIssue || s.con.nst == ReadIssue
    ensures ApplyNet(s, peer, Done(0)) == s.(con := s.con.(nst :=
              if s.con.nst == WriteAck then StatusIssue else if s.con.nst == StatusIssue then StatusAck else ReadAck))
  {
  }

  lemma Reported(s: Side, peer: Side, n: byte)
    requires s.con.nst == StatusAck && n % 8 == 0
    ensures ApplyNet(s, peer, Done(n as nat)) == s.(con :=
              if n == 0 then s.con.(nst := WriteIssue) else s.con.(rdn := n, nst := ReadIssue))
  {
    assert Low(n as nat) == n && Low(n as nat / 256) == 0;
  }

  /** A record sent and STATUS asked for. */
  lemma SendAndAsk(g: Logic, w0: World, es: seq<Event>, w: World, i: nat) returns (more: seq<Event>, z: World)
    requires At(g, w0, es, w) && i < 2 && Me(w, i).T >= 0 && Me(w, i).con.nst == WriteIssue
    ensures At(g, w0, more, z) && Peer(z, i) == Peer(w, i)
    ensures var s := Me(w, i);
            Me(z, i) == s.(con := s.con.(nst := StatusAck), sent := s.sent + [Input(RecordOf(s.con))], ends := s.ends + [s.T + D])
  {
    hide At, ApplyNet, OwnInv, Both, RecordOf;
    AtLives(g, w0, es, w);
    LiveSide(w, i);
    var a, x := OneStep(g, w0, es, w, i, 0);
    Written(Me(w, i), Peer(w, i));
    var b, y := OneStep(g, w0, a, x, i, 0);
    Passed(Me(x, i), Peer(w, i));
    more, z := OneStep(g, w0, b, y, i, 0);
    Passed(Me(y, i), Peer(w, i));
  }

  /** A record sent with nothing read: the machine comes back to where it was. */
  lemma Send(g: Logic, w0: World, es: seq<Event>, w: World, i: nat) returns (more: seq<Event>, z: World)
    requires At(g, w0, es, w) && i < 2 && Me(w, i).T >= 0 && Me(w, i).con.nst == WriteIssue
    ensures At(g, w0, more, z) && Peer(z, i) == Peer(w, i)
    ensures var s := Me(w, i);
            Me(z, i) == s.(sent := s.sent + [Input(RecordOf(s.con))], ends := s.ends + [s.T + D])
  {
    hide At, ApplyNet, OwnInv, Both, RecordOf;
    var c, v := SendAndAsk(g, w0, es, w, i);
    AtReadsNoMore(g, w0, c, v, i);
    more, z := OneStep(g, w0, c, v, i, 0);
    Reported(Me(v, i), Peer(w, i), 0);
  }

  lemma AtReadsNoMore(g: Logic, w0: World, es: seq<Event>, w: World, i: nat)
    requires At(g, w0, es, w) && i < 2
    ensures Me(w, i).read <= Me(w, i).arrived
  {
    StreamBounds(w, i);
  }

  /** A record sent and `m` read, up to the batch in the reply window. */
  lemma SendAndRead(g: Logic, w0: World, es: seq<Event>, w: World, i: nat, m: nat) returns (more: seq<Event>, z: World)
    requires At(g, w0, es, w) && i < 2 && Me(w, i).T >= 0 && Me(w, i).con.nst == WriteIssue
    requires 0 < m <= 31 && Me(w, i).read + 8 * m <= Me(w, i).arrived
    ensures At(g, w0, more, z) && Peer(z, i) == Peer(w, i)
    ensures var s, t := Me(w, i), Me(z, i);
            && t == s.(con := s.con.(rdn := m as byte, nst := Consume),
                       sent := s.sent + [Input(RecordOf(s.con))], ends := s.ends + [s.T + D],
                       reply := t.reply, lo := s.read / FRAME_LEN, read := s.read + 8 * m)
  {
    hide At, ApplyNet, OwnInv, Both, RecordOf, EncodeAll, Stream;
    var n: byte := 8 * m;
    var c, v := SendAndAsk(g, w0, es, w, i);
    AtLives(g, w0, c, v);
    LiveSide(v, i);
    var d, u := OneStep(g, w0, c, v, i, n as nat);
    Reported(Me(v, i), Peer(w, i), n);
    var e, q := OneStep(g, w0, d, u, i, 0);
    Passed(Me(u, i), Peer(w, i));
    AtStream(g, w0, e, q, i);
    more, z := OneStep(g, w0, e, q, i, 0);
    Taken(Me(q, i), Peer(w, i), m);
  }

  lemma AtStream(g: Logic, w0: World, es: seq<Event>, w: World, i: nat)
    requires At(g, w0, es, w) && i < 2
    ensures Stream(Me(w, i), Peer(w, i)) && Both(Me(w, i), Peer(w, i))
  {
  }

  lemma Taken(s: Side, peer: Side, m: nat)
    requires Stream(s, peer) && s.con.nst == ReadAck && s.con.rdn as nat == 8 * m
    ensures var t := ApplyNet(s, peer, Done(0));
            t == s.(con := s.con.(rdn := m as byte, nst := Consume), reply := t.reply, lo := s.read / FRAME_LEN, read := s.read + 8 * m)
  {
    hide ApplyNet, EncodeAll, Took, Stream, Failed;
    ReadStep(s, peer, Done(0));
    TookWhole(s, ApplyNet(s, peer, Done(0)), peer, m);
  }

  lemma TookWhole(s: Side, t: Side, peer: Side, m: nat)
    requires Took(s, t, peer) && t.con.nst == Consume && s.con.rdn as nat == 8 * m
    ensures t == s.(con := s.con.(rdn := m as byte, nst := Consume), reply := t.reply, lo := s.read / FRAME_LEN, read := s.read + 8 * m)
  {
    hide EncodeAll, Failed;
    A.FailedCells(s.con);
  }

  /** The newest record of the batch consumed. */
  lemma ConsumeOne(g: Logic, w0: World, es: seq<Event>, w: World, i: nat) returns (more: seq<Event>, z: World)
    requires At(g, w0, es, w) && i < 2 && Me(w, i).T >= 0 && Consumes(Me(w, i).con)
    ensures At(g, w0, more, z) && Peer(z, i) == Peer(w, i)
    ensures var s, peer, t := Me(w, i), Peer(w, i), Me(z, i);
            var k := s.lo + s.con.rdn - 1;
            && k < |peer.sent| == |peer.ends| && t == Consumed(s, peer, k)
            && (peer.sent[k].Input? ==> peer.sent[k].rec.tick == Low(peer.ends[k]))
  {
    hide At, ApplyNet, Both, Consumed, Stream;
    AtStream(g, w0, es, w, i);
    var s, peer := Me(w, i), Peer(w, i);
    FrameIsNear(s, peer, s.lo + s.con.rdn - 1);
    ConsumeStep(s, peer, Done(0));
    more, z := OneStep(g, w0, es, w, i, 0);
  }

  // ---- the run --------------------------------------------------------------------------

  const PRESSED := Ports(255, 255, 254)   // RESET held down

  lemma InitAt(g: Logic, w: World)
    requires Init(w)
    ensures At(g, w, [], w)
  {
    InitHolds(w);
  }

  lemma ArriveAll(g: Logic, w0: World, es: seq<Event>, w: World, i: nat, n: nat) returns (more: seq<Event>, z: World)
    requires At(g, w0, es, w) && i < 2 && Me(w, i).arrived + n <= FRAME_LEN * |Peer(w, i).sent|
    ensures At(g, w0, more, z) && Peer(z, i) == Peer(w, i) && Me(z, i) == Me(w, i).(arrived := Me(w, i).arrived + n)
  {
    hide OwnInv, LinkInv, Talks, Runs, Exec;
    ArriveLives(g, w, Arrive(i, n));
    more, z := Go(g, w0, es, w, Arrive(i, n));
  }

  /** The first boundary of a console: tick 0 is entered, its input captured, and nothing has come. */
  lemma FirstFrame(g: Logic, w0: World, es: seq<Event>, w: World, i: nat, p: Ports) returns (more: seq<Event>, z: World)
    requires At(g, w0, es, w) && i < 2 && InitSide(Me(w, i), i == 1)
    ensures At(g, w0, more, z) && Peer(z, i) == Peer(w, i)
    ensures var s, t := Me(w, i), Me(z, i);
            Rode(s, t) && AtRest(t) && t.T == 0 && t.caps == [IDLE, IDLE, Capture(p)]
  {
    hide At, ApplyFrame, OwnInv, Both, Rode, Capture;
    AtLives(g, w0, es, w);
    LiveSide(w, i);
    BoundaryRode(g, Me(w, i), p);
    more, z := OneFrame(g, w0, es, w, i, p);
  }

  /** Three ticks in a row, from rest, on a watermark that reaches the last of them. */
  lemma ThreeTicks(g: Logic, w0: World, es: seq<Event>, w: World, i: nat) returns (more: seq<Event>, z: World)
    requires At(g, w0, es, w) && i < 2 && AtRest(Me(w, i)) && Me(w, i).T == 0 && Me(w, i).R >= 2
    ensures At(g, w0, more, z) && Peer(z, i) == Peer(w, i)
    ensures Rode(Me(w, i), Me(z, i)) && Me(z, i).T == 2 && JustRan(Me(z, i))
  {
    hide At, ApplyFrame, OwnInv, Both, Rode;
    AtLives(g, w0, es, w);
    LiveSide(w, i);
    BoundaryRode(g, Me(w, i), Nothing);
    var a, x := OneFrame(g, w0, es, w, i, Nothing);
    var b, y := Tick(g, w0, a, x, i);
    Rides(Me(w, i), Me(x, i), Me(y, i));
    Rides(Me(x, i), Me(y, i), Me(y, i));
    more, z := Tick(g, w0, b, y, i);
    Rides(Me(w, i), Me(y, i), Me(z, i));
  }

  /** The host runs three ticks on the guest's first record and stalls at the fourth; the guest has
      entered tick 0 and read nothing. */
  ghost predicate HostAhead(w: World) {
    var a, b := w.s0, w.s1;
    && AtRest(a) && a.T == 3 && a.con.nst == WriteIssue && |a.sent| == |a.ends| == 1
    && 2 < |a.log| && 2 < |a.caps| && a.caps[2] == Capture(PRESSED) && a.log[2].host == a.caps[2]
    && AtRest(b) && b.T == 0 && b.R == -2 && b.con.nst == WriteIssue && b.con.guest
    && b.read == 0 && b.arrived == 0 && b.con.ring[2] == IDLE
  }

  lemma HostRunsAhead(g: Logic, w0: World) returns (es: seq<Event>, z: World)
    requires Init(w0)
    ensures At(g, w0, es, z) && HostAhead(z)
  {
    hide OwnInv, LinkInv, Talks, ApplyFrame, ApplyNet, Capture, Runs, Live, Both, RecordOf;
    InitAt(g, w0);
    hide At;
    var a, w1 := FirstFrame(g, w0, [], w0, 0, PRESSED);
    var b, w2 := FirstFrame(g, w0, a, w1, 1, Nothing);
    var c, w3 := Send(g, w0, b, w2, 1);
    var d, w4 := ArriveAll(g, w0, c, w3, 0, 8);
    es, z := HostReads(g, w0, d, w4);
  }

  lemma HostReads(g: Logic, w0: World, es: seq<Event>, w: World) returns (more: seq<Event>, z: World)
    requires At(g, w0, es, w)
    requires AtRest(w.s0) && w.s0.T == 0 && w.s0.R == -2 && w.s0.con.nst == WriteIssue && !w.s0.con.guest
    requires w.s0.caps == [IDLE, IDLE, Capture(PRESSED)] && w.s0.sent == [] && w.s0.ends == []
    requires w.s0.read == 0 && w.s0.arrived == 8
    requires |w.s1.sent| == |w.s1.ends| == 1 && w.s1.sent[0].Input? && w.s1.ends[0] == 2
    ensures At(g, w0, more, z) && z.s1 == w.s1
    ensures var a := z.s0;
            && AtRest(a) && a.T == 3 && a.con.nst == WriteIssue && |a.sent| == |a.ends| == 1
            && 2 < |a.log| && 2 < |a.caps| && a.caps[2] == Capture(PRESSED) && a.log[2].host == a.caps[2]
  {
    hide At, ApplyNet, Capture, Both, RecordOf, Absorb, StoreWindow;
    var a, w1 := SendAndRead(g, w0, es, w, 0, 1);
    var b, w2 := ConsumeOne(g, w0, a, w1, 0);
    AbsorbKeepsErr(w1.s0.con.(rdn := 0), w1.s1.sent[0].rec);
    AbsorbsQuietly(w1.s0.con.(rdn := 0), w1.s1.sent[0].rec);
    var c, w3 := OneStep(g, w0, b, w2, 0, 0);
    Drained(w2.s0, w2.s1, Done(0));
    var d, w4 := ThreeTicks(g, w0, c, w3, 0);
    more, z := Tick(g, w0, d, w4, 0);
    assert w4.s0.log[2] == z.s0.log[2] && w4.s0.caps[2] == z.s0.caps[2];
  }

  lemma AbsorbsQuietly(c: Con, r: Rec)
    ensures var z := Absorb(c, r);
            z.phase == c.phase && z.ran == c.ran && z.guest == c.guest && z.tick == c.tick
    ensures r.tick == 5 ==> Absorb(c, r).ring[2] == c.ring[2]
  {
    hide Comparable, NotBehind;
  }

  /** The guest reads both of the host's records at once and consumes the newer: its watermark is five
      ticks ahead of it, and the host three. */
  lemma GuestReadsTwo(g: Logic, w0: World, es: seq<Event>, w: World) returns (more: seq<Event>, z: World)
    requires At(g, w0, es, w) && HostAhead(w)
    ensures At(g, w0, more, z) && z.s0.T == 3 && AtRest(z.s1) && z.s1.T == 0 && z.s1.R == 5
    ensures z.s1.con.guest && z.s1.con.ring[2] == IDLE && Rode(w.s0, z.s0.(sent := w.s0.sent, ends := w.s0.ends))
  {
    hide At, ApplyNet, Capture, Both, RecordOf, Absorb, StoreWindow;
    var a, w1 := Send(g, w0, es, w, 0);
    var b, w2 := ArriveAll(g, w0, a, w1, 1, 16);
    var c, w3 := SendAndRead(g, w0, b, w2, 1, 2);
    more, z := ConsumeOne(g, w0, c, w3, 1);
    AbsorbKeepsErr(w3.s1.con.(rdn := 1), w3.s0.sent[1].rec);
    AbsorbsQuietly(w3.s1.con.(rdn := 1), w3.s0.sent[1].rec);
  }

  /** It then runs three ticks before it consumes the older. */
  lemma GuestReadsLate(g: Logic, w0: World, es: seq<Event>, w: World) returns (more: seq<Event>, z: World)
    requires At(g, w0, es, w) && HostAhead(w)
    ensures At(g, w0, more, z)
    ensures 2 < |z.s0.log| && 2 < |z.s1.log| && z.s0.log[2].host == Capture(PRESSED) && z.s1.log[2].host == IDLE
  {
    hide At, ApplyNet, Capture;
    var a, x := GuestReadsTwo(g, w0, es, w);
    assert w.s0.log[2] == x.s0.log[2];
    more, z := ThreeTicks(g, w0, a, x, 1);
  }

  /** The bounds on the skew are reached: from every handover there is a run on which the ticks are
      three apart and one watermark is two behind its tick, and it goes on to one where that watermark
      is five ahead. */
  lemma BoundsAreReached(g: Logic, w: World) returns (es: seq<Event>, more: seq<Event>)
    requires Init(w)
    ensures Runs(g, w, es) && Exec(g, w, es).s0.T - Exec(g, w, es).s1.T == 3 && Exec(g, w, es).s1.R - Exec(g, w, es).s1.T == -2
    ensures Runs(g, w, more) && Exec(g, w, more).s0.T - Exec(g, w, more).s1.T == 3
         && Exec(g, w, more).s1.R - Exec(g, w, more).s1.T == 5
  {
    hide Live, Runs, Exec, Init, Capture;
    var x, z;
    es, x := HostRunsAhead(g, w);
    more, z := GuestReadsTwo(g, w, es, x);
  }

  /** H is not automatic: from every handover, whatever the game, there is a run of the two consoles on
      which both run tick 2, and on different inputs. */
  lemma WithoutHTheyDisagree(g: Logic, w: World) returns (es: seq<Event>)
    requires Init(w)
    ensures Runs(g, w, es)
    ensures var z := Exec(g, w, es); 2 < |z.s0.log| && 2 < |z.s1.log| && z.s0.log[2] != z.s1.log[2]
    ensures !A.TimelyRun(g, w, es)
  {
    hide HostAhead, Live, Runs, Exec, Init, A.TimelyRun, Capture;
    var a, x := HostRunsAhead(g, w);
    var b, z := GuestReadsLate(g, w, a, x);
    es := b;
    PressedIsNotIdle();
    Disagreeing(g, w, es, z);
  }

  lemma PressedIsNotIdle()
    ensures Capture(PRESSED) != IDLE
  {
    hide Capture;
    var switches := PRESSED.swchb % 4;
    assert switches == 2 && Capture(PRESSED) / 16 % 4 == switches && IDLE / 16 % 4 == 3;
  }

  lemma Disagreeing(g: Logic, w: World, es: seq<Event>, z: World)
    requires Init(w) && Runs(g, w, es) && z == Exec(g, w, es)
    requires 2 < |z.s0.log| && 2 < |z.s1.log| && z.s0.log[2] != z.s1.log[2]
    ensures !A.TimelyRun(g, w, es)
  {
    hide Runs, Exec, Init, A.TimelyRun;
    if A.TimelyRun(g, w, es) {
      A.InputsAgree(g, w, es, z);
    }
  }

  // ---- a READ that breaks H --------------------------------------------------------------

  /** Whole ticks, up to one the watermark covers. */
  lemma {:induction false} RunTo(g: Logic, w0: World, es: seq<Event>, w: World, i: nat, t: int)
    returns (more: seq<Event>, z: World)
    requires At(g, w0, es, w) && i < 2 && Me(w, i).R >= t >= 0
    requires Me(w, i).T < t || (Me(w, i).T == t && AtRest(Me(w, i)))
    requires Me(w, i).con.ran || AtRest(Me(w, i))
    ensures At(g, w0, more, z) && Peer(z, i) == Peer(w, i)
    ensures Rode(Me(w, i), Me(z, i)) && Me(z, i).T == t && JustRan(Me(z, i))
    decreases t - Me(w, i).T, if Me(w, i).con.ran then 0 else 1
  {
    hide At, ApplyFrame, OwnInv, Both, Rode, Captured;
    AtLives(g, w0, es, w);
    LiveSide(w, i);
    var s := Me(w, i);
    var a, x;
    if s.con.ran {
      a, x := Tick(g, w0, es, w, i);
    } else {
      BoundaryRode(g, s, Nothing);
      a, x := OneFrame(g, w0, es, w, i, Nothing);
    }
    assert Me(x, i).R == s.R by { Rides(s, Me(x, i), Me(x, i)); }
    if Me(x, i).T == t {
      more, z := a, x;
    } else {
      more, z := RunTo(g, w0, a, x, i, t);
      Rides(s, Me(x, i), Me(z, i));
    }
  }

  /** What consuming the newest record leaves in a slot its window does not reach. */
  lemma SlotLeftStale(s: Side, peer: Side, k: nat, t: int)
    requires k < |peer.sent| && k < |peer.ends| && s.con.rdn > 0 && peer.sent[k].Input?
    requires peer.sent[k].rec.tick == Low(peer.ends[k]) && t >= 0 && 3 <= peer.ends[k] - t <= 7
    ensures Consumed(s, peer, k).con.ring[t % 8] == s.con.ring[t % 8]
  {
    hide Consumed, StoreWindow;
    A.ConsumedRing(s, peer, k);
    A.SlotAfter(s.con.ring, peer.sent[k].rec, peer.ends[k], t);
  }

  lemma NewestIsNear(w: World, i: nat)
    requires Live(w) && i < 2 && Me(w, i).T >= 0 && Consumes(Me(w, i).con)
    ensures var s, peer, k := Me(w, i), Peer(w, i), Me(w, i).lo + Me(w, i).con.rdn - 1;
            && k < |peer.sent| == |peer.ends| && peer.sent[k].Input? && peer.sent[k].rec.tick == Low(peer.ends[k])
            && s.con.rwat == Low(s.R) && -128 <= peer.ends[k] - s.R <= 127
            && peer.ends[k] - A.Filled(s) <= 8 && |peer.caps| > peer.ends[k]
            && s.T <= A.Filled(s) + 1 && (s.con.ran ==> s.T <= A.Filled(s)) && (s.con.ran || AtRest(s))
  {
    hide Stream, LinkInv, Sends, Repairs, CountsFrames;
    var s, peer := Me(w, i), Peer(w, i);
    FrameIsNear(s, peer, s.lo + s.con.rdn - 1);
    SkewFollows(s, peer);
    EndsInReach(peer, s.lo + s.con.rdn - 1);
  }

  lemma EndsInReach(s: Side, k: nat)
    requires OwnInv(s) && k < |s.ends|
    ensures s.ends[k] < |s.caps|
  {
  }

  lemma ConsumedPlace(s: Side, peer: Side, k: nat)
    requires s.con.rdn > 0 && s.con.rwat == Low(s.R) && k < |peer.sent| && k < |peer.ends|
    requires peer.sent[k].Input? ==> peer.sent[k].rec.tick == Low(peer.ends[k])
    requires -128 <= peer.ends[k] - s.R <= 127
    ensures var z := Consumed(s, peer, k);
            && z.T == s.T && z.caps == s.caps && z.log == s.log
            && z.con.ran == s.con.ran && z.con.phase == s.con.phase && z.con.guest == s.con.guest
  {
    hide Consumed;
    ConsumedIsAbsorbed(s, peer, k);
  }

  lemma RodeKeepsRing(s: Side, z: Side)
    requires Rode(s, z)
    ensures z.con.ring == s.con.ring && z.con.guest == s.con.guest
  {
  }

  /** Why H is asked of every READ: when the newest record of a batch ends more than three ticks past the
      last filled one, there is a continuation on which the next tick, the one not filled, runs with
      the byte its slot happened to hold, whatever the peer captured for it. */
  lemma LateBatchRunsStale(g: Logic, w0: World, es: seq<Event>, w: World, i: nat) returns (more: seq<Event>, z: World)
    requires At(g, w0, es, w) && i < 2 && Me(w, i).T >= 0 && Consumes(Me(w, i).con)
    requires var s, peer := Me(w, i), Peer(w, i);
             s.lo + s.con.rdn <= |peer.ends| && peer.ends[s.lo + s.con.rdn - 1] > A.Filled(s) + WIN
    ensures At(g, w0, more, z)
    ensures var s, peer, y, t := Me(w, i), Peer(w, i), Me(z, i), A.Filled(Me(w, i)) + 1;
            && 0 <= t < |y.log| && t < |y.caps| && t < |peer.caps|
            && A.Own(y.log[t], s.con.guest) == y.caps[t] && A.Own(y.log[t], !s.con.guest) == s.con.ring[t % 8]
  {
    hide At, ApplyNet, Both, OwnInv, LinkInv, Rode, Absorb, Consumed, Runs, Exec;
    AtLives(g, w0, es, w);
    LiveSide(w, i);
    var s, peer := Me(w, i), Peer(w, i);
    var t, k := A.Filled(s) + 1, s.lo + s.con.rdn - 1;
    var a, x := ConsumeOne(g, w0, es, w, i);
    NewestIsNear(w, i);
    ConsumedErr(s, peer, k);
    ConsumedPlace(s, peer, k);
    SlotLeftStale(s, peer, k, t);
    more, z := RunTo(g, w0, a, x, i, t);
    RodeKeepsRing(Me(x, i), Me(z, i));
  }
}
