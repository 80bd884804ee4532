/** Who drives what: the cells the game reads are the two players' own sticks, triggers and switches, the
    host's in the top lane and the guest's in the bottom one. */
module Lanes {
  import opened Bytes
  import opened Sim
  import opened Wire
  import opened Console
  import opened Lockstep
  import opened Skew
  import opened Agreement

  const NOBODY := Ports(0xFF, 0xFF, 0xFF)   // nothing touched

  // ---- the ports behind the captures ----------------------------------------------------

  /** The ports a console's captures were taken from, tick by tick; nobody touches anything in the two
      ticks the rings are seeded with. */
  ghost function Held(g: Logic, w: World, es: seq<Event>, i: nat): seq<Ports>
    requires Runs(g, w, es) && i < 2
    decreases |es|
  {
    if es == [] then [NOBODY, NOBODY] else
      var before, e := es[..|es| - 1], es[|es| - 1];
      var s := Me(Exec(g, w, before), i);
      if e.Frame? && e.i == i && s.con.phase == 0 && s.con.ran then Held(g, w, before, i) + [e.ports]
      else Held(g, w, before, i)
  }

  /** Each capture is its ports', with RESET pressed where a repair pressed it. */
  ghost predicate TakenFrom(s: Side, held: seq<Ports>) {
    && |held| == |s.caps|
    && (forall k :: k in s.pressed ==> k < |s.caps|)
    && forall k :: 0 <= k < |s.caps| ==>
         s.caps[k] == if k in s.pressed then Clear(Capture(held[k]), IW_RST) else Capture(held[k])
  }

  /** What a frame adds to the history of captures. */
  lemma FrameHistory(g: Logic, s: Side, p: Ports)
    ensures var z := ApplyFrame(g, s, p);
            if s.con.phase == 0 && s.con.ran then
              && z.caps == s.caps + [Captured(s.con, p)]
              && z.pressed == if s.con.rsy then s.pressed + [s.T + 1 + D] else s.pressed
            else z.caps == s.caps && z.pressed == s.pressed
  {
    hide Shim, Captured, Inputs;
  }

  lemma TakesOneMore(s: Side, z: Side, p: Ports, held: seq<Ports>)
    requires TakenFrom(s, held) && |s.caps| == s.T + 1 + D && z.caps == s.caps + [Captured(s.con, p)]
    requires z.pressed == if s.con.rsy then s.pressed + [s.T + 1 + D] else s.pressed
    ensures TakenFrom(z, held + [p])
  {
    hide Capture, Clear;
    assert forall k :: k in z.pressed <==> k in s.pressed || (s.con.rsy && k == s.T + 1 + D);
  }

  lemma FrameTakes(g: Logic, s: Side, p: Ports, held: seq<Ports>)
    requires TakenFrom(s, held) && |s.caps| == s.T + 1 + D
    ensures TakenFrom(ApplyFrame(g, s, p), if s.con.phase == 0 && s.con.ran then held + [p] else held)
  {
    hide ApplyFrame, TakenFrom, Captured;
    FrameHistory(g, s, p);
    if s.con.phase == 0 && s.con.ran {
      TakesOneMore(s, ApplyFrame(g, s, p), p, held);
    } else {
      SameTaken(s, ApplyFrame(g, s, p), held);
    }
  }

  lemma NetTakes(s: Side, peer: Side, a: Answer)
    ensures ApplyNet(s, peer, a).caps == s.caps && ApplyNet(s, peer, a).pressed == s.pressed
  {
    hide Step, MailOf, RecordOf, WindowHolds;
  }

  lemma LengthOfCaptures(s: Side)
    requires OwnInv(s)
    ensures |s.caps| == s.T + 1 + D
  {
  }

  lemma SameTaken(s: Side, z: Side, held: seq<Ports>)
    requires TakenFrom(s, held) && z.caps == s.caps && z.pressed == s.pressed
    ensures TakenFrom(z, held)
  {
  }

  lemma SeedsAreIdle(w: World, i: nat)
    requires Init(w) && i < 2
    ensures TakenFrom(Me(w, i), [NOBODY, NOBODY])
  {
  }

  lemma {:induction false} CapturesAreHeld(g: Logic, w: World, es: seq<Event>, i: nat)
    requires Init(w) && Runs(g, w, es) && i < 2
    ensures TakenFrom(Me(Exec(g, w, es), i), Held(g, w, es, i))
    decreases |es|
  {
    hide ApplyFrame, ApplyNet, Capture, OwnInv, LinkInv, TakenFrom;
    if es == [] {
      SeedsAreIdle(w, i);
    } else {
      var before, e := es[..|es| - 1], es[|es| - 1];
      var x := Exec(g, w, before);
      CapturesAreHeld(g, w, before, i);
      RunKeepsInv(g, w, before);
      LengthOfCaptures(Me(x, i));
      match e {
        case Frame(j, p) =>
          if j == i {
            FrameTakes(g, Me(x, i), p, Held(g, w, before, i));
          }
        case Net(j, a) =>
          NetTakes(Me(x, j), Peer(x, j), a);
          SameTaken(Me(x, i), Me(Apply(g, x, e), i), Held(g, w, before, i));
        case Arrive(j, n) => SameTaken(Me(x, i), Me(Apply(g, x, e), i), Held(g, w, before, i));
        case Goodbye(j) => SameTaken(Me(x, i), Me(Apply(g, x, e), i), Held(g, w, before, i));
        case Draw(j, cells) => SameTaken(Me(x, i), Me(Apply(g, x, e), i), Held(g, w, before, i));
      }
    }
  }

  // ---- what the game is given -----------------------------------------------------------

  /** The shadows of one tick: bit 7 of the host's trigger port and of the guest's, and SELECT and RESET,
      active low, down when either player's is, or when a repair presses RESET. */
  predicate PadsAre(pads: Pads, host: Ports, guest: Ports, repair: bool) {
    && pads.trig0 / 128 == host.inpt4 / 128 && pads.trig0 % 128 == 0
    && pads.trig1 / 128 == guest.inpt4 / 128 && pads.trig1 % 128 == 0
    && (pads.switches / 2 % 2 == 0 <==> host.swchb / 2 % 2 == 0 || guest.swchb / 2 % 2 == 0)
    && (pads.switches % 2 == 0 <==> host.swchb % 2 == 0 || guest.swchb % 2 == 0 || repair)
  }

  /** The sticks: the left port of each console, the host's in the top lane. */
  predicate SticksAre(r: Ram, host: Ports, guest: Ports) {
    r[JOY0] == host.swcha / 16 && r[JOY1] == guest.swcha / 16
  }

  /** Two states that differ at most in these cells. */
  predicate ButFor(r: Ram, q: Ram, cells: set<int>) {
    forall k :: 0 <= k < RAM_LEN && k !in cells ==> r[k] == q[k]
  }

  /** One wire byte, read back. */
  predicate ByteIs(b: byte, p: Ports, repair: bool) {
    && b % 16 == p.swcha / 16 && b / 128 == p.inpt4 / 128
    && b / 32 % 2 == p.swchb / 2 % 2
    && b / 16 % 2 == if repair then 0 else p.swchb % 2
  }

  lemma BitsOf(x: nat)
    ensures x / 2 % 2 == x % 4 / 2 && x % 4 % 2 == x % 2
  {
    assert x == 4 * (x / 4) + x % 4;
  }

  lemma CaptureReads(p: Ports)
    ensures ByteIs(Capture(p), p, false) && ByteIs(Clear(Capture(p), IW_RST), p, true)
  {
    var b := Capture(p);
    hide Capture;
    BitsOf(p.swchb);
    BitsOf(b / 16);
    assert b / 32 % 2 == b / 16 / 2 % 2;
    ClearReads(b);
  }

  lemma Parts(q: nat, t: nat, l: nat)
    requires t < 2 && l < 16
    ensures var x := 32 * q + 16 * t + l; x % 16 == l && x / 16 == 2 * q + t && x / 32 == q && x / 128 == q / 4
  {
    var x := 32 * q + 16 * t + l;
    assert x / 16 == 2 * q + t;
    assert q == 4 * (q / 4) + q % 4;
  }

  lemma ClearReads(b: byte)
    ensures var c := Clear(b, 16); c % 16 == b % 16 && c / 128 == b / 128 && c / 32 % 2 == b / 32 % 2 && c / 16 % 2 == 0
  {
    var q, t, l := b / 32, b / 16 % 2, b % 16;
    assert b == 32 * q + 16 * t + l;
    Parts(q, t, l);
    Parts(q, 0, l);
  }

  lemma MixReads(u: byte, v: byte, host: Ports, guest: Ports, r0: bool, r1: bool)
    requires ByteIs(u, host, r0) && ByteIs(v, guest, r1)
    ensures PadsAre(Mix(u, v).pads, host, guest, r0 || r1)
    ensures Mix(u, v).joy0 == host.swcha / 16 && Mix(u, v).joy1 == guest.swcha / 16
  {
  }

  lemma SticksWritten(r: Ram, m: Mixed, host: Ports, guest: Ports)
    requires m.joy0 == host.swcha / 16 && m.joy1 == guest.swcha / 16
    ensures SticksAre(Clock(WriteSticks(r, m)), host, guest)
    ensures ButFor(Clock(WriteSticks(r, m)), r, {JOY0, JOY1, FRAME_CNT, ATTRACT})
  {
  }

  lemma ClockTouches(r: Ram)
    ensures ButFor(Clock(r), r, {FRAME_CNT, ATTRACT})
  {
  }

  /** The shadows stay those of the tick for all four of its frames. */
  ghost predicate PadsOfTick(s: Side) {
    s.con.phase != 0 ==> s.log != [] && s.con.pads == MixOf(s.log[|s.log| - 1]).pads
  }

  lemma RunPads(g: Logic, e: Side)
    ensures var z := Run(g, e); z.log == e.log + [Inputs(e.con)] && z.con.pads == MixOf(Inputs(e.con)).pads
  {
    hide Mix, Clock, WriteSticks, Inputs;
  }

  lemma BoundaryPads(g: Logic, s: Side, p: Ports)
    requires s.con.phase == 0
    ensures var z := ApplyFrame(g, s, p);
            || (z.con.phase == 0 && z.frames == s.frames && z.log == s.log)
            || (z.log != [] && z.con.pads == MixOf(z.log[|z.log| - 1]).pads)
  {
    hide ApplyFrame, Mix, Run, Inputs, MayRun, Crc, Captured;
    BoundaryFrame(g, s, p);
    RunPads(g, Enter(s, p));
  }

  lemma FrameKeepsPads(g: Logic, s: Side, p: Ports)
    requires PadsOfTick(s)
    ensures var z := ApplyFrame(g, s, p);
            && PadsOfTick(z)
            && (z.frames > s.frames ==> z.log != [] && z.con.pads == MixOf(z.log[|z.log| - 1]).pads)
  {
    hide ApplyFrame, MixOf;
    if s.con.phase != 0 {
      MidFrame(g, s, p);
    } else {
      BoundaryPads(g, s, p);
    }
  }

  lemma {:induction false} PadsStay(g: Logic, w: World, es: seq<Event>, i: nat)
    requires Init(w) && Runs(g, w, es) && i < 2
    ensures PadsOfTick(Me(Exec(g, w, es), i))
    decreases |es|
  {
    hide ApplyFrame, ApplyNet, OwnInv, LinkInv, Mix;
    if es != [] {
      var before, e := es[..|es| - 1], es[|es| - 1];
      var x := Exec(g, w, before);
      PadsStay(g, w, before, i);
      RunKeepsInv(g, w, before);
      match e {
        case Frame(j, p) =>
          if j == i {
            FrameKeepsPads(g, Me(x, i), p);
          }
        case Net(j, a) =>
          NetSameSim(Me(x, j), Peer(x, j), a);
        case Arrive(j, n) =>
        case Goodbye(j) =>
        case Draw(j, cells) =>
      }
    }
  }

  // ---- the theorem ----------------------------------------------------------------------

  /** What the hook hands to the game's logic: on the frame that runs a tick, the clocked state with the
      two sticks in it. */
  lemma ShimWritesSticks(g: Logic, s: Side, p: Ports)
    ensures var z, h := ApplyFrame(g, s, p), Shim(s.con, s.ram, p);
            && z.con == h.0 && |s.log| <= |z.log|
            && (z.frames > s.frames ==> z.ram == g(h.1, h.0.pads))
            && (|z.log| > |s.log| ==> h.1 == Clock(WriteSticks(s.ram, MixOf(z.log[|z.log| - 1]))))
            && (z.frames > s.frames && |z.log| == |s.log| ==> h.1 == Clock(s.ram))
  {
    hide Mix, Clock, WriteSticks, Inputs, MayRun, Crc, Captured, EnterTick, RunTick, Stall;
    if s.con.phase == 0 {
      BoundaryCells(s, p);
    }
  }

  lemma HandedBy(g: Logic, s: Side, p: Ports, u: Pair, host: Ports, guest: Ports, r0: bool, r1: bool)
    requires var z := ApplyFrame(g, s, p);
             z.frames > s.frames && z.log != [] && z.log[|z.log| - 1] == u && z.con.pads == MixOf(u).pads
    requires ByteIs(u.host, host, r0) && ByteIs(u.guest, guest, r1)
    ensures var z, h := ApplyFrame(g, s, p), Shim(s.con, s.ram, p);
            && z.ram == g(h.1, h.0.pads) && PadsAre(h.0.pads, host, guest, r0 || r1)
            && (|z.log| > |s.log| ==> SticksAre(h.1, host, guest) && ButFor(h.1, s.ram, {JOY0, JOY1, FRAME_CNT, ATTRACT}))
            && (|z.log| == |s.log| ==> ButFor(h.1, s.ram, {FRAME_CNT, ATTRACT}))
  {
    hide ApplyFrame, Shim, Mix, Clock, WriteSticks, ByteIs, PadsAre, SticksAre, ButFor;
    ClockTouches(s.ram);
    ShimWritesSticks(g, s, p);
    MixReads(u.host, u.guest, host, guest, r0, r1);
    SticksWritten(s.ram, MixOf(u), host, guest);
  }

  lemma TakenIs(s: Side, held: seq<Ports>, t: nat)
    requires TakenFrom(s, held) && t < |s.caps|
    ensures ByteIs(s.caps[t], held[t], t in s.pressed)
  {
    hide Capture, Clear, ByteIs;
    CaptureReads(held[t]);
  }

  /** Each player drives their own car, and either may press RESET and SELECT. On every run under H whose
      last event is a frame of either console on which its game runs, in tick `t`: with `host` and `guest`
      what the two players held at the boundaries that captured their bytes for that tick, the game is
      given both triggers, SELECT and RESET, and on the tick's first frame both sticks, exactly as those
      ports had them, but for a RESET a repair has pressed; and beside those cells and the clock's nothing
      of the state is touched. */
  lemma PlayersDriveTheirLanes(g: Logic, w: World, es: seq<Event>, i: nat, p: Ports, s: Side, z: World)
    requires ReachedTimely(g, w, es, z) && i < 2 && es != [] && es[|es| - 1] == Frame(i, p)
    requires s == Me(Exec(g, w, es[..|es| - 1]), i) && Me(z, i).frames > s.frames
    ensures Me(z, i).log != []
    ensures var t, held, seen := |Me(z, i).log| - 1, Held(g, w, es, 0), Held(g, w, es, 1);
            && t < |held| && t < |seen|
            && var (c, r) := Shim(s.con, s.ram, p);
               && Me(z, i).ram == g(r, c.pads)
               && PadsAre(c.pads, held[t], seen[t], t in z.s0.pressed || t in z.s1.pressed)
               && (|Me(z, i).log| > |s.log| ==>
                     SticksAre(r, held[t], seen[t]) && ButFor(r, s.ram, {JOY0, JOY1, FRAME_CNT, ATTRACT}))
               && (|Me(z, i).log| == |s.log| ==> ButFor(r, s.ram, {FRAME_CNT, ATTRACT}))
  {
    hide ApplyFrame, Shim, MixOf, PadsAre, SticksAre, ButFor, ByteIs, TakenFrom, Held, Timely, Inv, PadsOfTick;
    var before := es[..|es| - 1];
    InputsAgree(g, w, es, z);
    CapturesAreHeld(g, w, es, 0);
    CapturesAreHeld(g, w, es, 1);
    PadsStay(g, w, before, i);
    FrameKeepsPads(g, s, p);
    var t := |Me(z, i).log| - 1;
    HeldLength(z.s0, Held(g, w, es, 0));
    HeldLength(z.s1, Held(g, w, es, 1));
    TakenIs(z.s0, Held(g, w, es, 0), t);
    TakenIs(z.s1, Held(g, w, es, 1), t);
    HandedBy(g, s, p, Me(z, i).log[t], Held(g, w, es, 0)[t], Held(g, w, es, 1)[t], t in z.s0.pressed, t in z.s1.pressed);
  }

  lemma HeldLength(s: Side, held: seq<Ports>)
    requires TakenFrom(s, held)
    ensures |held| == |s.caps|
  {
  }
}
