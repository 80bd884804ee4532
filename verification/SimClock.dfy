/** What the sim clock counts: FrameCnt every simulated frame, and Attract its laps. */
module SimClock {
  import opened Bytes
  import opened Sim
  import opened Console
  import opened Lockstep
  import opened Skew
  import A = Agreement

  // ---- the two cells --------------------------------------------------------------------

  /** `n` clock steps. */
  function Clocked(r: Ram, n: nat): Ram {
    if n == 0 then r else Clock(Clocked(r, n - 1))
  }

  /** A cell that is bumped `n` times and goes on from 128 where it would be zero. */
  function Bumped(a: byte, n: nat): byte {
    if a + n < 256 then a + n else 128 + (a + n - 256) % 128
  }

  /** What a clock step does to a state whose cells stand at `c` and `a`. */
  predicate Stands(r: Ram, c: nat, a: byte) {
    r[FRAME_CNT] == Low(c) && r[ATTRACT] == Bumped(a, c / 256)
  }

  lemma NextLap(c: nat)
    ensures Low(c + 1) == if Low(c) == 255 then 0 else Low(c) + 1
    ensures (c + 1) / 256 == if Low(c) == 255 then c / 256 + 1 else c / 256
  {
    assert c == 256 * (c / 256) + Low(c);
  }

  lemma NextBump(a: byte, n: nat)
    ensures Bumped(a, n + 1) == if Bumped(a, n) == 255 then 128 else Bumped(a, n) + 1
  {
    if a + n >= 256 {
      var x := a + n - 256;
      assert x == 128 * (x / 128) + x % 128;
    }
  }

  lemma ClockStands(r: Ram, c: nat, a: byte)
    requires Stands(r, c, a)
    ensures Stands(Clock(r), c + 1, a)
    ensures forall k :: 0 <= k < RAM_LEN && k != FRAME_CNT && k != ATTRACT ==> Clock(r)[k] == r[k]
  {
    NextLap(c);
    NextBump(a, c / 256);
    hide Low, Bumped;
  }

  /** `n` steps count `n` in FrameCnt, modulo 256, and one in Attract for each time FrameCnt comes round
      to zero, where Attract goes on from 128 and not from zero; no other cell moves. */
  lemma {:induction false} ClockCounts(r: Ram, n: nat)
    ensures var z, c := Clocked(r, n), r[FRAME_CNT] + n;
            && z[FRAME_CNT] == c % 256
            && z[ATTRACT] == Bumped(r[ATTRACT], c / 256)
            && forall k :: 0 <= k < RAM_LEN && k != FRAME_CNT && k != ATTRACT ==> z[k] == r[k]
  {
    hide Clock;
    if n > 0 {
      ClockCounts(r, n - 1);
      ClockStands(Clocked(r, n - 1), r[FRAME_CNT] + n - 1, r[ATTRACT]);
    }
  }

  // ---- on runs --------------------------------------------------------------------------

  /** The game leaves these cells to the clock. */
  ghost predicate Leaves(g: Logic, cells: set<nat>) {
    forall r: Ram, p: Pads, k :: k in cells && k < RAM_LEN ==> g(r, p)[k] == r[k]
  }

  /** One frame of the hook and the logic: the clock ticks when the simulation does, and only then. */
  lemma FrameTicks(g: Logic, s: Side, p: Ports, c: nat, a: byte)
    requires Leaves(g, {FRAME_CNT}) && s.ram[FRAME_CNT] == Low(c)
    ensures var z := ApplyFrame(g, s, p);
            || (z.frames == s.frames && z.ram == s.ram)
            || (z.frames == s.frames + 1 && z.ram[FRAME_CNT] == Low(c + 1)
                && (Leaves(g, {ATTRACT}) && Stands(s.ram, c, a) ==> Stands(z.ram, c + 1, a)))
  {
    hide ApplyFrame, Clock, Crc, Mix, Captured, Inputs, MayRun, Low, Bumped, Leaves;
    if s.con.phase != 0 {
      MidFrame(g, s, p);
      LogicTicks(g, s.ram, s.con.pads, c, a);
    } else {
      BoundaryFrame(g, s, p);
      var e := Enter(s, p);
      if MayRun(e.con) {
        var r := WriteSticks(s.ram, MixOf(Inputs(e.con)));
        LogicTicks(g, r, RunTick(e.con).pads, c, a);
      }
    }
  }

  lemma LogicTicks(g: Logic, r: Ram, p: Pads, c: nat, a: byte)
    requires Leaves(g, {FRAME_CNT}) && r[FRAME_CNT] == Low(c)
    ensures g(Clock(r), p)[FRAME_CNT] == Low(c + 1)
    ensures Leaves(g, {ATTRACT}) && Stands(r, c, a) ==> Stands(g(Clock(r), p), c + 1, a)
  {
    ClockStands(r[ATTRACT := Bumped(a, c / 256)], c, a);
    if Stands(r, c, a) {
      ClockStands(r, c, a);
    }
    hide Low, Bumped;
  }

  lemma NetIsStill(s: Side, peer: Side, a: Answer)
    ensures ApplyNet(s, peer, a).ram == s.ram && ApplyNet(s, peer, a).frames == s.frames
  {
    hide Step, MailOf, RecordOf, WindowHolds;
  }

  lemma EventTicks(g: Logic, w: World, e: Event, i: nat, c: nat, a: byte)
    requires Enabled(w, e) && i < 2 && Leaves(g, {FRAME_CNT}) && A.SparesIn(e, {FRAME_CNT})
    requires Me(w, i).ram[FRAME_CNT] == Low(c + Me(w, i).frames)
    ensures var s, z := Me(w, i), Me(Apply(g, w, e), i);
            && z.ram[FRAME_CNT] == Low(c + z.frames)
            && (Leaves(g, {ATTRACT}) && A.SparesIn(e, {ATTRACT}) && Stands(s.ram, c + s.frames, a) ==>
                  Stands(z.ram, c + z.frames, a))
  {
    hide ApplyFrame, ApplyNet, Low, Bumped, Leaves;
    var s := Me(w, i);
    match e {
      case Frame(j, p) =>
        if j == i {
          FrameTicks(g, s, p, c + s.frames, a);
        }
      case Net(j, x) => NetIsStill(Me(w, j), Peer(w, j), x);
      case Arrive(j, n) =>
      case Goodbye(j) =>
      case Draw(j, cells) =>
    }
  }

  /** FrameCnt counts the frames the simulation took, on every run, however the stalls fall, and Attract
      its laps: as long as the game leaves the cell alone and nothing else is drawn on it. */
  lemma {:induction false} ClockCountsFrames(g: Logic, w: World, es: seq<Event>, i: nat)
    requires Init(w) && Runs(g, w, es) && i < 2 && Leaves(g, {FRAME_CNT}) && A.Spares(es, {FRAME_CNT})
    ensures var r, z := Me(w, i).ram, Me(Exec(g, w, es), i);
            && z.ram[FRAME_CNT] == (r[FRAME_CNT] + z.frames) % 256
            && (Leaves(g, {ATTRACT}) && A.Spares(es, {ATTRACT}) ==>
                  z.ram[ATTRACT] == Bumped(r[ATTRACT], (r[FRAME_CNT] + z.frames) / 256))
    decreases |es|
  {
    hide Apply, Leaves, A.SparesIn, Bumped;
    var r := Me(w, i).ram;
    if es == [] {
      Never(r[ATTRACT]);
    } else {
      var before := es[..|es| - 1];
      ClockCountsFrames(g, w, before, i);
      EventTicks(g, Exec(g, w, before), es[|es| - 1], i, r[FRAME_CNT], r[ATTRACT]);
    }
  }

  lemma Never(a: byte)
    ensures Bumped(a, 0) == a
  {
  }

  /** Captures are only added. */
  lemma EventAddsCaptures(g: Logic, w: World, e: Event, i: nat)
    requires Enabled(w, e) && i < 2
    ensures Me(w, i).caps <= Me(Apply(g, w, e), i).caps
  {
    hide ApplyFrame, ApplyNet;
    match e {
      case Frame(j, p) => FrameAddsCaptures(g, Me(w, j), p);
      case Net(j, a) => NetAddsNothing(Me(w, j), Peer(w, j), a);
      case Arrive(j, n) =>
      case Goodbye(j) =>
      case Draw(j, cells) =>
    }
  }

  lemma FrameAddsCaptures(g: Logic, s: Side, p: Ports)
    ensures var z := ApplyFrame(g, s, p); z.caps == s.caps || z.caps == s.caps + [Captured(s.con, p)]
  {
    hide Shim, Captured, Inputs;
  }

  lemma NetAddsNothing(s: Side, peer: Side, a: Answer)
    ensures ApplyNet(s, peer, a).caps == s.caps
  {
    hide Step, MailOf, RecordOf, WindowHolds;
  }

  lemma {:induction false} CapturesStay(g: Logic, w: World, es: seq<Event>, later: seq<Event>, i: nat)
    requires Runs(g, w, es) && Runs(g, w, later) && es <= later && i < 2
    ensures Me(Exec(g, w, es), i).caps <= Me(Exec(g, w, later), i).caps
    decreases |later|
  {
    hide Apply, Enabled;
    if |es| == |later| {
      assert es == later;
    } else {
      var before := later[..|later| - 1];
      CapturesStay(g, w, es, before, i);
      EventAddsCaptures(g, Exec(g, w, before), later[|later| - 1], i);
    }
  }

  /** The same side a frame later. */
  lemma FrameNext(g: Logic, w: World, es: seq<Event>, i: nat, s: Side, z: Side, p: Ports)
    requires Runs(g, w, es + [Frame(i, p)]) && i < 2
    requires Runs(g, w, es) ==> s == Me(Exec(g, w, es), i)
    requires z == Me(Exec(g, w, es + [Frame(i, p)]), i)
    ensures Runs(g, w, es) && z == ApplyFrame(g, s, p)
  {
    hide ApplyFrame;
    var now := es + [Frame(i, p)];
    assert now[..|now| - 1] == es;
  }

  lemma FrameCatches(g: Logic, w: World, es: seq<Event>, i: nat, s: Side, peer: Side, p: Ports)
    requires Reached(g, w, es, i, s, peer)
    ensures var z := ApplyFrame(g, s, p);
            |z.caps| > |s.caps| ==> z.caps == s.caps + [Captured(s.con, p)] && s.frames == 4 * (|s.caps| - D)
  {
    hide ApplyFrame, Exec, Runs, Init;
    LatencyIsExact(g, w, es, i, s, peer, p);
  }

  lemma FramePlays(g: Logic, w: World, es: seq<Event>, i: nat, s: Side, peer: Side, p: Ports)
    requires Reached(g, w, es, i, s, peer)
    ensures var z := ApplyFrame(g, s, p);
            |z.log| > |s.log| ==>
              |z.log| <= |z.caps| && A.Own(z.log[|s.log|], s.con.guest) == z.caps[|s.log|] && s.frames == 4 * |s.log|
  {
    hide ApplyFrame, Exec, Runs, Init;
    LatencyIsExact(g, w, es, i, s, peer, p);
  }

  function FrameCnt(s: Side): byte {
    s.ram[FRAME_CNT]
  }

  /** What a player feels: the byte captured for a tick is run exactly eight ticks of FrameCnt after the
      boundary that captured it, whatever stalls come between. The frame after `es` takes the console from
      `x` to `x1` and captures the byte; the one after `later` takes it from `y` to `y1` and runs it. */
  lemma LatencyInTheClock(g: Logic, w: World, es: seq<Event>, later: seq<Event>, i: nat, p: Ports, q: Ports,
                          x: Side, x1: Side, y: Side, y1: Side)
    requires Init(w) && i < 2 && Leaves(g, {FRAME_CNT}) && A.Spares(later, {FRAME_CNT})
    requires Runs(g, w, later + [Frame(i, q)]) && Runs(g, w, later) && es + [Frame(i, p)] <= later
    requires Runs(g, w, es + [Frame(i, p)]) && Runs(g, w, es)
    requires x == Me(Exec(g, w, es), i) && x1 == Me(Exec(g, w, es + [Frame(i, p)]), i)
    requires y == Me(Exec(g, w, later), i) && y1 == Me(Exec(g, w, later + [Frame(i, q)]), i)
    requires |x1.caps| == |x.caps| + 1 && |y1.log| == |y.log| + 1 && |y.log| == |x.caps|
    ensures x1.caps[|x.caps|] == Captured(x.con, p)
    ensures A.Own(y1.log[|y.log|], y.con.guest) == Captured(x.con, p)
    ensures FrameCnt(y) == (FrameCnt(x) + 8) % 256
  {
    hide Leaves, A.Spares, Exec, Runs, Init, ApplyFrame, Captured;
    SparesBefore(es, later);
    ClockCountsFrames(g, w, es, i);
    ClockCountsFrames(g, w, later, i);
    CapturesStay(g, w, es + [Frame(i, p)], later, i);
    FrameNext(g, w, es, i, x, x1, p);
    FrameNext(g, w, later, i, y, y1, q);
    FrameCatches(g, w, es, i, x, Peer(Exec(g, w, es), i), p);
    FramePlays(g, w, later, i, y, Peer(Exec(g, w, later), i), q);
    FrameAddsCaptures(g, y, q);
    Eight(Me(w, i).ram[FRAME_CNT], x.frames, y.frames);
  }

  lemma Eight(c: nat, m: nat, n: nat)
    requires n == m + 8
    ensures (c + n) % 256 == ((c + m) % 256 + 8) % 256
  {
  }

  lemma SparesBefore(es: seq<Event>, later: seq<Event>)
    requires A.Spares(later, {FRAME_CNT}) && es <= later
    ensures A.Spares(es, {FRAME_CNT})
  {
    hide A.SparesIn;
  }
}
