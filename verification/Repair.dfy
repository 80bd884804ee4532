/** The desync repair, from one console's arming to two equal consoles. */
module Repair {
  import opened Bytes
  import opened Sim
  import opened Wire
  import opened Console
  import opened Lockstep
  import opened Skew
  import opened Agreement
  import opened Restage

  /** What two simulations need to have in common for a restage to bring them together. */
  predicate Alike(r: Ram, q: Ram) {
    SameKept(r, q) && Seeded(r) && Seeded(q)
  }

  /** What the game logic is assumed to do: it keeps to the shared cells, and a frame with RESET down
      makes of states that are alike states with the same shared cells. */
  ghost predicate Restages(g: Logic, cells: set<nat>) {
    && Fair(g, cells)
    && forall r: Ram, q: Ram, p: Pads :: p.switches % 2 == 0 && Alike(r, q) ==> SameOn(cells, g(r, p), g(q, p))
  }

  /** The game as it is: RESET on a seeded state runs the clear and then `StageRace`; any other frame
      keeps to the shared cells. */
  ghost predicate RestagesThrough(g: Logic, stage: Ram -> Ram, cells: set<nat>) {
    && (forall r: Ram, p: Pads :: p.switches % 2 == 0 && Seeded(r) ==> g(r, p) == stage(Swept(r, MATCH_SEED, true)))
    && (forall r: Ram, q: Ram, p: Pads :: SameOn(cells, r, q) && !(p.switches % 2 == 0 && Seeded(r) && Seeded(q)) ==>
          SameOn(cells, g(r, p), g(q, p)))
  }

  /** So what the repair needs of the game follows from the clear, from `StageRace`'s contract, and
      from the game reading nothing but the shared cells. */
  lemma ClearAndStageRestage(g: Logic, stage: Ram -> Ram, cells: set<nat>)
    requires Shares(cells) && Stages(stage, cells) && RestagesThrough(g, stage, cells)
    ensures Restages(g, cells)
  {
    hide Swept, Stages;
    forall r: Ram, q: Ram, p: Pads | p.switches % 2 == 0 && Alike(r, q)
      ensures SameOn(cells, g(r, p), g(q, p))
    {
      RestageConverges(stage, cells, r, q);
    }
    forall r: Ram, q: Ram, p: Pads | SameOn(cells, r, q)
      ensures SameOn(cells, g(r, p), g(q, p))
    {
      SharedAlike(cells, r, q);
    }
  }

  /** Agreeing on the shared cells, two states are kept alike and seeded alike. */
  lemma SharedAlike(cells: set<nat>, r: Ram, q: Ram)
    requires Shares(cells) && SameOn(cells, r, q)
    ensures SameKept(r, q) && (Seeded(r) <==> Seeded(q))
  {
    assert GAME_VAR in cells && FRAME_CNT in cells && LFSR in cells;
  }

  lemma AlikeShared(cells: set<nat>, r: Ram, q: Ram, a: Ram, b: Ram)
    requires Shares(cells) && SameOn(cells, r, a) && SameOn(cells, q, b) && Alike(r, q)
    ensures Alike(a, b)
  {
    SharedAlike(cells, r, a);
    SharedAlike(cells, q, b);
  }

  lemma FirstFrameRestages(g: Logic, cells: set<nat>, r: Ram, q: Ram, m: Mixed)
    requires Restages(g, cells) && Alike(r, q) && m.pads.switches % 2 == 0
    ensures SameOn(cells, LogicFrame(g, WriteSticks(r, m), m), LogicFrame(g, WriteSticks(q, m), m))
  {
    hide Fair, SameOn;
    assert Alike(Clock(WriteSticks(r, m)), Clock(WriteSticks(q, m)));
  }

  /** One tick with RESET in it, from states that are alike. */
  lemma {:induction false} TickConverges(g: Logic, cells: set<nat>, r: Ram, q: Ram, p: Pair, n: nat)
    requires Restages(g, cells) && Alike(r, q) && n > 0 && MixOf(p).pads.switches % 2 == 0
    ensures SameOn(cells, TickFrames(g, r, p, n), TickFrames(g, q, p, n))
  {
    hide Fair, Alike, SameOn, Mix, LogicFrame, WriteSticks;
    var m := MixOf(p);
    if n == 1 {
      FirstFrameRestages(g, cells, r, q, m);
    } else {
      TickConverges(g, cells, r, q, p, n - 1);
      FrameRespects(g, cells, TickFrames(g, r, p, n - 1), TickFrames(g, q, p, n - 1), m);
    }
  }

  lemma {:induction false} ReplayInTwo(g: Logic, r: Ram, ps: seq<Pair>, qs: seq<Pair>)
    ensures Replay(g, r, ps + qs) == Replay(g, Replay(g, r, ps), qs)
    decreases |qs|
  {
    hide TickFrames;
    if qs == [] {
      assert ps + qs == ps;
    } else {
      var n := |qs| - 1;
      ReplayInTwo(g, r, ps, qs[..n]);
      assert (ps + qs)[..|ps + qs| - 1] == ps + qs[..n];
    }
  }

  /** Two replays of one list of inputs come together at a RESET they meet alike, for good. */
  lemma ReplayConverges(g: Logic, cells: set<nat>, r: Ram, q: Ram, ps: seq<Pair>, t: nat)
    requires Restages(g, cells) && t < |ps| && MixOf(ps[t]).pads.switches % 2 == 0
    requires Alike(Replay(g, r, ps[..t]), Replay(g, q, ps[..t]))
    ensures SameOn(cells, Replay(g, r, ps), Replay(g, q, ps))
  {
    hide Fair, Alike, SameOn, Mix, TickFrames;
    assert ps[..t + 1] == ps[..t] + [ps[t]];
    assert ps == ps[..t + 1] + ps[t + 1..];
    ReplayInTwo(g, r, ps[..t + 1], ps[t + 1..]);
    ReplayInTwo(g, q, ps[..t + 1], ps[t + 1..]);
    TickConverges(g, cells, Replay(g, r, ps[..t]), Replay(g, q, ps[..t]), ps[t], 4);
    OneTick(g, r, ps, t);
    OneTick(g, q, ps, t);
    ReplayRespects(g, cells, Replay(g, r, ps[..t + 1]), Replay(g, q, ps[..t + 1]), ps[t + 1..]);
  }

  lemma OneTick(g: Logic, r: Ram, ps: seq<Pair>, t: nat)
    requires t < |ps|
    ensures Replay(g, r, ps[..t + 1]) == TickFrames(g, Replay(g, r, ps[..t]), ps[t], 4)
  {
    assert ps[..t + 1][..t] == ps[..t];
  }

  lemma LogsShareAPrefix(g: Logic, cells: set<nat>, r0: Ram, q0: Ram, s: Side, peer: Side, t: nat, k: nat)
    requires Restages(g, cells) && Simulates(g, cells, r0, s) && Simulates(g, cells, q0, peer)
    requires s.log <= peer.log || peer.log <= s.log
    requires t < k < |s.entered| && k < |peer.entered|
    requires Alike(s.entered[t], peer.entered[t])
    requires t < |s.log| && MixOf(s.log[t]).pads.switches % 2 == 0
    ensures SameOn(cells, s.entered[k], peer.entered[k])
  {
    hide Alike, SameOn, Mix, Replay, StateReplays, Shares;
    var ps := s.log[..k];
    assert peer.log[..k] == ps && ps[..t] == s.log[..t] == peer.log[..t];
    AlikeShared(cells, s.entered[t], peer.entered[t], Replay(g, r0, ps[..t]), Replay(g, q0, ps[..t]));
    ReplayConverges(g, cells, r0, q0, ps, t);
    var a, b := Replay(g, r0, ps), Replay(g, q0, ps);
    SameOnTrans(cells, peer.entered[k], b, a);
    SameOnTrans(cells, a, b, peer.entered[k]);
    SameOnTrans(cells, s.entered[k], a, peer.entered[k]);
    SameOnTrans(cells, b, a, peer.entered[k]);
  }

  /** The repair converges: however far apart the two simulations have drifted and whatever every video
      frame draws outside the shared cells, once either console has armed it both restage on the same
      tick, and if they enter that tick alike they enter every later one with every shared cell equal,
      so every later checksum agrees. */
  lemma RepairConverges(g: Logic, cells: set<nat>, w: World, es: seq<Event>, z: World, i: nat, j: nat, k: nat)
    requires ReachedTimely(g, w, es, z) && Restages(g, cells) && Spares(es, cells)
    requires i < 2 && j < |Me(z, i).pressed|
    requires Me(z, i).pressed[j] < k < |z.s0.entered| && k < |z.s1.entered|
    requires Me(z, i).pressed[j] >= 0 && Alike(z.s0.entered[Me(z, i).pressed[j]], z.s1.entered[Me(z, i).pressed[j]])
    ensures SameOn(cells, z.s0.entered[k], z.s1.entered[k]) && Crc(z.s0.entered[k]) == Crc(z.s1.entered[k])
  {
    hide Alike, SameOn, Shares, Mix, Runs, TimelyRun, Exec, Init, StateReplays, SparesIn;
    var s, peer := Me(z, i), Peer(z, i);
    assert Reached(g, w, es, i, s, peer);
    ArmedOncePressedOnce(g, w, es, i, s, peer);
    InputsAgree(g, w, es, z);
    RunSimulation(g, cells, w, es);
    RepairReachesBoth(g, w, es, z, i, j);
    LogsShareAPrefix(g, cells, w.s0.ram, w.s1.ram, z.s0, z.s1, s.pressed[j], k);
    SharedCrc(cells, z.s0.entered[k], z.s1.entered[k]);
  }
}
