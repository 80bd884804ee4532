/** Why the checksum may cover only what stalls leave alone: a covered cell that one console's video
    frames write is enough to arm a repair between consoles that agree. */
module Misfire {
  import opened Bytes
  import opened Sim
  import opened Wire
  import opened Console
  import opened Lockstep
  import opened Skew
  import opened Progress
  import opened Stale
  import A = Agreement

  /** Nothing but cell `k` of console `i` is drawn. */
  ghost predicate DrawsOnly(es: seq<Event>, i: nat, k: nat) {
    forall j :: 0 <= j < |es| && es[j].Draw? ==> es[j].i == i && es[j].cells.Keys == {k}
  }

  lemma BatchEndsEarly(s: Side, peer: Side, last: Side, lo: nat, hi: nat)
    requires |peer.sent| == |peer.ends| && peer.ends <= last.ends
    requires forall j :: 0 <= j < |last.ends| ==> last.ends[j] <= WIN + 1
    ensures A.BatchIsTimely(s, peer, lo, hi)
  {
    forall j | lo <= j < hi && j < |peer.sent| && j < |peer.ends| && peer.sent[j].Input?
      ensures peer.ends[j] <= A.Filled(s) + WIN
    {
      assert peer.ends[j] == last.ends[j];
    }
  }

  ghost predicate EndsEarly(w: World) {
    && (forall j :: 0 <= j < |w.s0.ends| ==> w.s0.ends[j] <= WIN + 1)
    && (forall j :: 0 <= j < |w.s1.ends| ==> w.s1.ends[j] <= WIN + 1)
  }

  lemma EarlierEnds(g: Logic, w: World, e: Event)
    requires Inv(w) && Enabled(w, e) && EndsEarly(Apply(g, w, e))
    ensures EndsEarly(w) && A.Timely(w, e)
  {
    hide OwnInv, LinkInv, Apply, A.BatchIsTimely;
    EventKeeps(g, w, e);
    var z := Apply(g, w, e);
    PrefixEnds(Me(w, e.i), Me(z, e.i));
    OwnLengths(w.s0);
    OwnLengths(w.s1);
    var s, peer := Me(w, e.i), Peer(w, e.i);
    BatchEndsEarly(s, peer, peer, s.read / FRAME_LEN, (s.read + s.con.rdn) / FRAME_LEN);
  }

  lemma PrefixEnds(s: Side, z: Side)
    requires Extends(s, z)
    ensures s.ends <= z.ends && forall j :: 0 <= j < |s.ends| ==> z.ends[j] == s.ends[j]
  {
  }

  /** A run that ends before any record reaches past tick four keeps H all along. */
  lemma {:induction false} EarlyRunIsTimely(g: Logic, w: World, es: seq<Event>)
    requires Init(w) && Runs(g, w, es) && EndsEarly(Exec(g, w, es))
    ensures A.TimelyRun(g, w, es)
    decreases |es|
  {
    hide Inv, EndsEarly, A.Timely, Apply, Enabled;
    if es != [] {
      var before := es[..|es| - 1];
      RunKeepsInv(g, w, before);
      EarlierEnds(g, Exec(g, w, before), es[|es| - 1]);
      EarlyRunIsTimely(g, w, before);
    }
  }

  /** The first boundary samples the cells as they are. */
  lemma FirstSample(g: Logic, s: Side, p: Ports)
    requires s.con.phase == 0 && s.con.ran && s.entered == []
    ensures ApplyFrame(g, s, p).entered == [s.ram]
  {
    hide Crc, Mix, Clock, WriteSticks, Captured, MayRun;
    BoundaryFrame(g, s, p);
  }

  /** One console's first frame: rested on tick 0, with the checksum of the cells it found. */
  lemma Sampled(g: Logic, w0: World, es: seq<Event>, w: World, i: nat) returns (more: seq<Event>, z: World)
    requires At(g, w0, es, w) && i < 2 && InitSide(Me(w, i), i == 1)
    ensures At(g, w0, more, z) && Peer(z, i) == Peer(w, i)
    ensures var s, t := Me(w, i), Me(z, i);
            && Rode(s, t) && AtRest(t) && t.T == 0 && t.entered == [s.ram]
            && t.con.crcv == Crc(s.ram) && t.con.tick == 0 && t.con.rsy == s.con.rsy
  {
    hide At, ApplyFrame, OwnInv, Both, Rode, Captured, Crc;
    AtLives(g, w0, es, w);
    LiveSide(w, i);
    BoundaryRode(g, Me(w, i), Nothing);
    FirstSample(g, Me(w, i), Nothing);
    more, z := OneFrame(g, w0, es, w, i, Nothing);
    AtLives(g, w0, more, z);
    LiveSide(z, i);
    SampleIsCrc(Me(z, i));
    FirstUnarmed(g, Me(w, i), Nothing);
  }

  lemma SampleIsCrc(s: Side)
    requires OwnInv(s) && s.T == 0
    ensures |s.entered| == 1 && s.con.crcv == Crc(s.entered[0]) && s.con.tick == 0
  {
  }

  lemma FirstUnarmed(g: Logic, s: Side, p: Ports)
    requires !s.con.rsy
    ensures !ApplyFrame(g, s, p).con.rsy
  {
    hide ApplyFrame;
    A.FrameArmsNothing(g, s, p);
  }

  /** One console's record is compared with the other's own checksum, and differs. */
  lemma Compared(g: Logic, w0: World, es: seq<Event>, w: World, i: nat) returns (more: seq<Event>, z: World)
    requires At(g, w0, es, w) && i < 2 && AtRest(w.s0) && AtRest(w.s1) && w.s0.T == 0 && w.s1.T == 0
    requires w.s0.con.nst == WriteIssue && w.s1.con.nst == WriteIssue
    requires w.s0.sent == [] && w.s0.ends == [] && w.s1.sent == [] && w.s1.ends == []
    requires var s := Peer(w, i); s.read == 0 && s.arrived == 0 && s.lo == 0 && !s.con.rsy && s.arms == 0
    requires w.s0.con.tick == 0 && w.s1.con.tick == 0 && w.s0.con.crcv != w.s1.con.crcv
    ensures At(g, w0, more, z) && EndsEarly(z) && Peer(z, i).con.rsy && Peer(z, i).arms == 1
  {
    hide At, ApplyNet, Both, Absorb;
    var o := 1 - i;
    var a, w1 := Send(g, w0, es, w, i);
    var b, w2 := ArriveAll(g, w0, a, w1, o, 8);
    var c, w3 := SendAndRead(g, w0, b, w2, o, 1);
    more, z := ConsumeOne(g, w0, c, w3, o);
    A.AbsorbArms(Me(w3, o).con.(rdn := 0), Me(w3, i).sent[0].rec);
    A.ConsumedArms(Me(w3, o), Me(w3, i), 0);
  }

  /** The mismatches that came only after an engine blew: take any handover in which the consoles agree
      on every cell, any covered cell, and one frame of either console's television that writes it. From
      there, on a run that keeps H and draws on nothing else, the other console arms a repair. */
  lemma DrawnCellMisfires(g: Logic, w: World, i: nat, k: nat, v: byte) returns (es: seq<Event>)
    requires Init(w) && w.s0.ram == w.s1.ram && i < 2 && k < RAM_LEN && IsCovered(k) && v != w.s0.ram[k]
    ensures Runs(g, w, es) && A.TimelyRun(g, w, es) && DrawsOnly(es, i, k)
    ensures Peer(Exec(g, w, es), i).arms == 1
  {
    hide Live, ApplyFrame, Capture, Crc, Runs, Exec, A.TimelyRun, EndsEarly, Rode;
    var e := Draw(i, map[k := v]);
    var w1 := Apply(g, w, e);
    assert Me(w1, i).ram == w.s0.ram[k := v];
    ChecksumSeesExactlyCoveredCells(w.s0.ram, k, v);
    InitAt(g, w1);
    var a, x := Sampled(g, w1, [], w1, 0);
    var b, y := Sampled(g, w1, a, x, 1);
    SampledCells(w1.s0, x.s0);
    SampledCells(x.s1, y.s1);
    var c, z := Compared(g, w1, b, y, i);
    One(g, w, e);
    Join(g, w, [e], c);
    es := [e] + c;
    EarlyRunIsTimely(g, w, es);
  }

  lemma SampledCells(s: Side, z: Side)
    requires Rode(s, z)
    ensures z.sent == s.sent && z.ends == s.ends && z.read == s.read && z.arrived == s.arrived && z.lo == s.lo
    ensures z.arms == s.arms && z.con.nst == s.con.nst
  {
  }
}
