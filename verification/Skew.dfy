/** What every run keeps, whatever the relay's timing: the skew between the two consoles, the
    exactness of the eight-bit compares, whole-frame reads, and the immutability of a record. */
module Skew {
  import opened Bytes
  import opened Sim
  import opened Wire
  import opened Console
  import opened Lockstep

  ghost function Max(a: int, b: int): int {
    if a >= b then a else b
  }

  /** The one record a console can send for the window ending at tick `t + D`. */
  ghost function Authentic(s: Side, t: nat): Rec
    requires t + 2 < |s.caps| && t < |s.entered|
  {
    Rec(Low(t + 2), s.caps[t + 2], s.caps[t + 1], s.caps[t], Crc(s.entered[t]))
  }

  // ---- what a side keeps on its own ---------------------------------------------------

  ghost predicate Clocks(s: Side) {
    && s.T >= -1 && s.R >= -2
    && s.con.tick == Low(s.T) && s.con.rwat == Low(s.R)
    && (s.T == -1 ==> s.con.ran && s.con.phase == 0)
    && (!s.con.ran ==> s.con.phase == 0)
    && (s.con.ran && s.T >= 0 ==> s.R >= s.T)
    && (s.T >= 1 ==> s.R >= s.T - 1)
  }

  ghost predicate Captures(s: Side) {
    && |s.caps| == s.T + 3 && |s.entered| == s.T + 1
    && (forall k :: Max(0, s.T - 1) <= k <= s.T + 2 ==> s.con.loc[k % 4] == s.caps[k])
    && (s.T >= 0 ==> s.con.crcv == Crc(s.entered[s.T]))
    && |s.log| == if s.con.ran then s.T + 1 else s.T
  }

  ghost predicate Sends(s: Side) {
    && |s.sent| == |s.ends| && |s.caps| == s.T + 3 && |s.entered| == s.T + 1
    && (forall j :: 0 <= j < |s.ends| ==> 1 <= s.ends[j] <= s.T + D)
    && (forall j, k :: 0 <= j <= k < |s.ends| ==> s.ends[j] <= s.ends[k])
    && (forall j :: 0 <= j < |s.sent| && s.sent[j].Input? ==>
          s.ends[j] >= 2 && s.sent[j].rec == Authentic(s, s.ends[j] - 2))
  }

  /** Four simulated frames a tick, however the stalls fall. */
  ghost predicate CountsFrames(s: Side) {
    s.frames == 4 * |s.log| - if s.con.phase == 0 then 0 else 4 - s.con.phase
  }

  ghost predicate Repairs(s: Side) {
    && |s.pressed| + (if s.con.rsy then 1 else 0) == s.arms
    && (forall j :: 0 <= j < |s.pressed| ==>
          && 2 <= s.pressed[j] < |s.caps| && !Has(s.caps[s.pressed[j]], IW_RST))
    && (forall j, k :: 0 <= j < k < |s.pressed| ==> s.pressed[j] < s.pressed[k])
  }

  ghost predicate OwnInv(s: Side) {
    Clocks(s) && Captures(s) && Sends(s) && CountsFrames(s) && Repairs(s)
    && s.caps[0] == IDLE && s.caps[1] == IDLE
  }

  lemma OwnLengths(s: Side)
    requires OwnInv(s)
    ensures |s.sent| == |s.ends|
  {
  }

  // ---- what ties a side to its peer ---------------------------------------------------

  ghost predicate Stream(s: Side, peer: Side) {
    && s.read % FRAME_LEN == 0
    && s.read <= s.arrived <= FRAME_LEN * |peer.sent|
    && (s.con.nst in {ReadIssue, ReadAck} ==>
          s.con.rdn % 8 == 0 && 8 <= s.con.rdn <= 248 && s.read + s.con.rdn <= s.arrived)
    && (s.con.nst == Consume ==>
          && s.con.rdn <= 31 && s.lo + s.con.rdn <= s.read / FRAME_LEN
          && s.reply == EncodeAll(peer.sent)[FRAME_LEN * s.lo..s.read])
  }

  /** The watermark is the end of a frame already read, and no frame still to be consumed is more
      than six ticks behind it. */
  ghost predicate Watermark(s: Side, peer: Side) {
    && |peer.ends| == |peer.sent|
    && s.read / FRAME_LEN <= |peer.ends|
    && (s.R == -2 || s.R >= 2) && s.R <= peer.T + D
    && (forall j :: s.read / FRAME_LEN <= j < |peer.ends| ==> peer.ends[j] >= s.R)
    && (s.con.nst == Consume ==>
          && s.lo + s.con.rdn <= s.read / FRAME_LEN
          && forall j :: s.lo <= j < s.lo + s.con.rdn ==> s.R - 6 <= peer.ends[j])
    && (s.con.nst == Consume && s.lo < s.read / FRAME_LEN ==>
          && s.R <= peer.ends[s.read / FRAME_LEN - 1] <= peer.ends[s.lo] + 6)
  }

  ghost predicate LinkInv(s: Side, peer: Side) {
    Stream(s, peer) && Watermark(s, peer)
  }

  ghost predicate Inv(w: World) {
    OwnInv(w.s0) && OwnInv(w.s1) && LinkInv(w.s0, w.s1) && LinkInv(w.s1, w.s0)
  }

  /** Neither console's tick is more than `D + 1` ahead of the other's. */
  lemma SkewFollows(s: Side, peer: Side)
    requires OwnInv(s) && OwnInv(peer) && LinkInv(s, peer) && LinkInv(peer, s)
    ensures s.T - 3 <= peer.T <= s.T + 3
    ensures -2 <= s.R - s.T <= 5
  {
  }

  // ---- preservation: what changing one side leaves true of the other's view --------------

  /** `q` is a later `p`, as far as the other console can tell. */
  ghost predicate Extends(p: Side, q: Side) {
    && p.T <= q.T && p.sent <= q.sent && p.ends <= q.ends && |q.sent| == |q.ends|
    && (forall j :: |p.ends| <= j < |q.ends| ==> q.ends[j] >= p.T + D)
  }

  lemma {:induction false} EncodePrefix(a: seq<Msg>, b: seq<Msg>)
    requires a <= b
    ensures EncodeAll(a) <= EncodeAll(b)
    decreases |b|
  {
    if |a| < |b| {
      var c := b[..|b| - 1];
      EncodePrefix(a, c);
      assert EncodeAll(b) == EncodeAll(c) + Encode(b[|b| - 1]);
    } else {
      assert a == b;
    }
  }

  lemma PeerMoved(s: Side, p: Side, q: Side)
    requires LinkInv(s, p) && Extends(p, q)
    ensures LinkInv(s, q)
  {
    EncodePrefix(p.sent, q.sent);
  }

  /** Sending nothing, a side's records stay authentic however its history grows. */
  lemma SendsCarry(s: Side, z: Side)
    requires Sends(s) && z.sent == s.sent && z.ends == s.ends
    requires s.T <= z.T && s.caps <= z.caps && s.entered <= z.entered
    requires |z.caps| == z.T + 3 && |z.entered| == z.T + 1
    ensures Sends(z) && Extends(s, z)
  {
    forall j | 0 <= j < |z.sent| && z.sent[j].Input?
      ensures z.ends[j] >= 2 && z.sent[j].rec == Authentic(z, z.ends[j] - 2)
    {
      assert z.sent[j].rec == Authentic(s, s.ends[j] - 2);
    }
  }

  /** One frame more, a record of the current tick or a goodbye. */
  lemma SendsGrow(s: Side, z: Side, m: Msg)
    requires Sends(s) && z.sent == s.sent + [m] && z.ends == s.ends + [s.T + D]
    requires s.T >= -1 && z.T == s.T && z.caps == s.caps && z.entered == s.entered
    requires m.Input? ==> s.T >= 0 && m.rec == Authentic(s, s.T)
    ensures Sends(z) && Extends(s, z)
  {
    forall j | 0 <= j < |z.sent| && z.sent[j].Input?
      ensures z.ends[j] >= 2 && z.sent[j].rec == Authentic(z, z.ends[j] - 2)
    {
      if j < |s.sent| {
        assert z.sent[j] == s.sent[j] && z.ends[j] == s.ends[j];
        assert s.sent[j].rec == Authentic(s, s.ends[j] - 2);
      }
    }
  }

  // ---- a frame, in the pieces it is made of ---------------------------------------------

  ghost function MidTick(g: Logic, s: Side): Side {
    var r := Clock(s.ram);
    s.(con := s.con.(adv := true, phase := NextPhase(s.con.phase)),
       ram := g(r, s.con.pads), frames := s.frames + 1)
  }

  ghost function Enter(s: Side, p: Ports): Side {
    if !s.con.ran then s.(con := s.con.(adv := true)) else
      s.(con := EnterTick(s.con.(adv := true), s.ram, p),
         T := s.T + 1,
         caps := s.caps + [Captured(s.con, p)],
         entered := s.entered + [s.ram],
         pressed := if s.con.rsy then s.pressed + [s.T + 1 + D] else s.pressed)
  }

  ghost function Run(g: Logic, s: Side): Side {
    var c := RunTick(s.con);
    var r := Clock(WriteSticks(s.ram, MixOf(Inputs(s.con))));
    s.(con := c, ram := g(r, c.pads),
       log := s.log + [Inputs(s.con)], frames := s.frames + 1)
  }

  lemma MidFrame(g: Logic, s: Side, p: Ports)
    requires s.con.phase != 0
    ensures ApplyFrame(g, s, p) == MidTick(g, s)
  {
  }

  lemma BoundaryCells(s: Side, p: Ports)
    requires s.con.phase == 0
    ensures var e := Enter(s, p);
            var ran, stalled := RunTick(e.con), Stall(e.con);
            && e.con == EnterTick(s.con.(adv := true), s.ram, p)
            && (MayRun(e.con) ==> Shim(s.con, s.ram, p) == (ran, Clock(WriteSticks(s.ram, MixOf(Inputs(e.con))))))
            && (!MayRun(e.con) ==> Shim(s.con, s.ram, p) == (stalled, s.ram))
            && !e.con.ran && e.con.adv
            && !stalled.ran && !stalled.adv
            && ran.ran && ran.adv && Inputs(ran) == Inputs(e.con)
  {
    hide Crc, Mix, Clock, WriteSticks, Capture;
  }

  lemma BoundaryFrame(g: Logic, s: Side, p: Ports)
    requires s.con.phase == 0
    ensures var e := Enter(s, p);
            ApplyFrame(g, s, p) == if MayRun(e.con) then Run(g, e) else e.(con := Stall(e.con))
  {
    BoundaryCells(s, p);
  }

  lemma MidTickKeeps(g: Logic, s: Side)
    requires OwnInv(s) && s.con.phase != 0
    ensures OwnInv(MidTick(g, s)) && Extends(s, MidTick(g, s))
  {
    hide Clock;
    SendsCarry(s, MidTick(g, s));
  }

  /** The four-slot ring keeps the current tick, its two successors and one predecessor. */
  lemma StoreCapture(loc: Local, caps: seq<byte>, t: int, b: byte)
    requires t >= -1 && |caps| == t + 3
    requires forall k :: Max(0, t - 1) <= k <= t + 2 ==> loc[k % 4] == caps[k]
    ensures forall k :: Max(0, t) <= k <= t + 3 ==> loc[(t + 3) % 4 := b][k % 4] == (caps + [b])[k]
  {
  }

  lemma EnterKeepsCaptures(s: Side, p: Ports)
    requires Clocks(s) && Captures(s) && s.con.phase == 0
    ensures Captures(Enter(s, p))
  {
    hide Crc, Capture;
    if s.con.ran {
      var z := Enter(s, p);
      LowInc(s.T);
      LowIndex(z.T, D);
      assert z.con.loc == s.con.loc[(s.T + 3) % 4 := Captured(s.con, p)];
      StoreCapture(s.con.loc, s.caps, s.T, Captured(s.con, p));
    }
  }

  lemma EnterKeepsSends(s: Side, p: Ports)
    requires Sends(s) && s.T >= -1
    ensures var z := Enter(s, p); Sends(z) && Extends(s, z)
  {
    var z := Enter(s, p);
    SendsCarry(s, z);
  }

  lemma EnterKeepsRepairs(s: Side, p: Ports)
    requires Repairs(s) && |s.caps| == s.T + 3 && s.T >= -1
    ensures Repairs(Enter(s, p))
  {
    if s.con.ran && s.con.rsy {
      var z := Enter(s, p);
      assert z.caps[s.T + 3] == Clear(Capture(p), IW_RST);
    }
  }

  lemma EnterKeeps(s: Side, p: Ports)
    requires OwnInv(s) && s.con.phase == 0
    ensures var z := Enter(s, p); OwnInv(z) && Extends(s, z)
    ensures var z := Enter(s, p); !z.con.ran && z.con.phase == 0
  {
    EnterKeepsCaptures(s, p);
    EnterKeepsSends(s, p);
    EnterKeepsRepairs(s, p);
    LowInc(s.T);
  }

  lemma RunKeeps(g: Logic, s: Side)
    requires OwnInv(s) && s.con.phase == 0 && !s.con.ran && s.R >= s.T
    ensures OwnInv(Run(g, s)) && Extends(s, Run(g, s))
  {
    var z := Run(g, s);
    assert z.con.loc == s.con.loc && z.con.crcv == s.con.crcv;
    SendsCarry(s, z);
  }

  lemma StallKeeps(s: Side)
    requires OwnInv(s) && s.con.phase == 0 && !s.con.ran
    ensures var z := s.(con := Stall(s.con)); OwnInv(z) && Extends(s, z)
  {
    var z := s.(con := Stall(s.con));
    SendsCarry(s, z);
  }

  /** The gate's eight-bit compare says what the unbounded one would. */
  lemma GateIsExact(s: Side)
    requires Clocks(s) && -128 <= s.R - s.T <= 127
    ensures MayRun(s.con) <==> s.R >= s.T
  {
    NotBehindIsExact(s.R, s.T);
  }

  lemma FrameKeepsOwn(g: Logic, s: Side, p: Ports)
    requires OwnInv(s) && -2 <= s.R - s.T <= 5
    ensures var z := ApplyFrame(g, s, p); OwnInv(z) && Extends(s, z)
  {
    if s.con.phase != 0 {
      MidFrame(g, s, p);
      MidTickKeeps(g, s);
    } else {
      BoundaryFrame(g, s, p);
      EnterKeeps(s, p);
      var e := Enter(s, p);
      GateIsExact(e);
      if MayRun(e.con) {
        RunKeeps(g, e);
      } else {
        StallKeeps(e);
      }
    }
  }

  /** What a frame leaves alone. */
  ghost predicate Framed(s: Side, z: Side) {
    && z.reply == s.reply && z.arrived == s.arrived && z.read == s.read && z.lo == s.lo
    && z.sent == s.sent && z.ends == s.ends && z.closed == s.closed && z.R == s.R && z.arms == s.arms
    && z.con.nst == s.con.nst && z.con.rdn == s.con.rdn
    && z.con.ring == s.con.ring && z.con.rwat == s.con.rwat
  }

  lemma PiecesAreFramed(g: Logic, s: Side, p: Ports)
    ensures Framed(s, MidTick(g, s)) && Framed(s, Enter(s, p)) && Framed(s, Run(g, s))
    ensures Framed(s, s.(con := Stall(s.con)))
  {
    hide Crc, Mix, Clock, WriteSticks, Inputs, Captured;
  }

  lemma FrameFootprint(g: Logic, s: Side, p: Ports)
    ensures Framed(s, ApplyFrame(g, s, p))
  {
    hide ApplyFrame, Enter, MidTick, Run, MayRun, Stall;
    PiecesAreFramed(g, s, p);
    if s.con.phase != 0 {
      MidFrame(g, s, p);
    } else {
      BoundaryFrame(g, s, p);
      PiecesAreFramed(g, Enter(s, p), p);
    }
  }

  lemma FrameKeepsLink(g: Logic, s: Side, peer: Side, p: Ports)
    requires LinkInv(s, peer)
    ensures LinkInv(ApplyFrame(g, s, p), peer)
  {
    hide ApplyFrame;
    FrameFootprint(g, s, p);
  }

  // ---- a transport step ---------------------------------------------------------------

  ghost predicate Both(s: Side, peer: Side) {
    OwnInv(s) && OwnInv(peer) && LinkInv(s, peer) && LinkInv(peer, s)
  }

  /** Whatever the transport's timing, the record it sends is the one for the tick it sends at. */
  lemma RecordIsAuthentic(s: Side)
    requires OwnInv(s) && s.T >= 0
    ensures RecordOf(s.con) == Authentic(s, s.T)
  {
    LowIndex(s.T, 0);
    LowIndex(s.T, 1);
    LowIndex(s.T, 2);
  }

  ghost predicate Sent(s: Side, z: Side) {
    && z == s.(con := s.con.(nst := WriteAck), sent := z.sent, ends := z.ends)
    && (|| (z.sent == s.sent && z.ends == s.ends)
        || (z.sent == s.sent + [Input(RecordOf(s.con))] && z.ends == s.ends + [s.T + D]))
  }

  lemma WriteStep(s: Side, peer: Side, a: Answer)
    requires s.con.nst == WriteIssue
    ensures Sent(s, ApplyNet(s, peer, a))
  {
  }

  lemma SentKeepsOwn(s: Side, z: Side)
    requires OwnInv(s) && s.T >= 0 && Sent(s, z)
    ensures OwnInv(z) && Extends(s, z)
  {
    RecordIsAuthentic(s);
    if z.sent == s.sent {
      SendsCarry(s, z);
    } else {
      SendsGrow(s, z, Input(RecordOf(s.con)));
    }
    hide Sends, Extends, Authentic, RecordOf;
  }

  /** A step that touches no history and neither ring, watermark nor flags. */
  ghost predicate Quiet(s: Side, z: Side) {
    && z == s.(con := z.con)
    && z.con == s.con.(nst := z.con.nst, rdn := z.con.rdn, err := z.con.err)
    && (z.con.nst in {ReadIssue, ReadAck} ==>
          z.con.rdn % 8 == 0 && 8 <= z.con.rdn <= 248 && s.read + z.con.rdn <= s.arrived)
    && z.con.nst != Consume
  }

  lemma QuietKeepsOwn(s: Side, z: Side)
    requires OwnInv(s) && Quiet(s, z)
    ensures OwnInv(z) && Extends(s, z)
  {
    SendsCarry(s, z);
  }

  lemma QuietKeepsLink(s: Side, z: Side, peer: Side)
    requires LinkInv(s, peer) && Quiet(s, z)
    ensures LinkInv(z, peer)
  {
  }

  /** STATUS answers with sixteen bits, and the bite taken of them is whole frames of what is there. */
  lemma BiteOfReport(n: nat)
    requires n < 65536
    ensures var b := Bite(Low(n), Low(n / 256)); b % 8 == 0 && b <= 248 && b <= n && (b == 0 <==> n < 8)
  {
    assert n / 256 < 256;
    assert Low(n / 256) * 256 + Low(n) == n;
  }

  lemma StatusDone(s: Side, peer: Side, n: nat)
    requires s.con.nst == StatusAck
    ensures var b := Bite(Low(n), Low(n / 256));
            ApplyNet(s, peer, Done(n)) == s.(con :=
              if b == 0 then s.con.(nst := WriteIssue) else s.con.(rdn := b, nst := ReadIssue))
  {
  }

  lemma StatusDoneIsQuiet(s: Side, peer: Side, n: nat)
    requires s.con.nst == StatusAck && n < 65536 && s.read + n <= s.arrived
    ensures Quiet(s, ApplyNet(s, peer, Done(n)))
  {
    hide ApplyNet;
    StatusDone(s, peer, n);
    BiteOfReport(n);
  }

  lemma AckFails(s: Side, peer: Side, a: Answer)
    requires s.con.nst == WriteAck || s.con.nst == StatusAck || s.con.nst == ReadAck
    requires !a.Done? && !(s.con.nst == ReadAck && a.Refused? && a.lost)
    ensures ApplyNet(s, peer, a) == s.(con := if a.NotYet? then s.con else Failed(s.con))
  {
  }

  lemma FailIsQuiet(s: Side, z: Side, peer: Side)
    requires Stream(s, peer) && s.con.nst != Consume
    requires z == s || z == s.(con := Failed(s.con))
    ensures Quiet(s, z)
  {
  }

  lemma WriteAcked(s: Side, peer: Side, n: nat)
    requires s.con.nst == WriteAck
    ensures Quiet(s, ApplyNet(s, peer, Done(n)))
  {
  }

  lemma Issued(s: Side, peer: Side, a: Answer)
    requires s.con.nst == StatusIssue || s.con.nst == ReadIssue
    requires Stream(s, peer)
    ensures Quiet(s, ApplyNet(s, peer, a))
  {
    assert ApplyNet(s, peer, a) == s.(con := s.con.(nst := if s.con.nst == ReadIssue then ReadAck else StatusAck));
  }

  lemma OtherStep(s: Side, peer: Side, a: Answer)
    requires s.con.nst == Idle || s.con.nst == Fail
    ensures ApplyNet(s, peer, a) == s.(con := if s.con.nst == Idle then s.con else Failed(s.con))
  {
  }

  lemma Drained(s: Side, peer: Side, a: Answer)
    requires s.con.nst == Consume && s.con.rdn == 0
    ensures ApplyNet(s, peer, a) == s.(con := s.con.(nst := WriteIssue))
    ensures Quiet(s, ApplyNet(s, peer, a))
  {
  }

  ghost predicate Reads(c: Con, a: Answer) {
    c.nst == ReadAck && (a.Done? || (a.Refused? && a.lost))
  }

  ghost predicate Consumes(c: Con) {
    c.nst == Consume && c.rdn > 0
  }

  /** Every step that neither sends, reads nor consumes a record only moves the machine along. */
  lemma WaitStep(s: Side, peer: Side, a: Answer)
    requires Stream(s, peer)
    requires s.con.nst != WriteIssue && !Reads(s.con, a) && !Consumes(s.con)
    requires s.con.nst == StatusAck && a.Done? ==> a.reported < 65536 && s.read + a.reported <= s.arrived
    ensures Quiet(s, ApplyNet(s, peer, a))
  {
    hide ApplyNet, Quiet, Stream;
    if s.con.nst == Idle || s.con.nst == Fail {
      OtherStep(s, peer, a);
      FailIsQuiet(s, ApplyNet(s, peer, a), peer);
    } else if s.con.nst == StatusIssue || s.con.nst == ReadIssue {
      Issued(s, peer, a);
    } else if s.con.nst == Consume {
      Drained(s, peer, a);
    } else if !a.Done? {
      AckFails(s, peer, a);
      FailIsQuiet(s, ApplyNet(s, peer, a), peer);
    } else if s.con.nst == WriteAck {
      WriteAcked(s, peer, a.reported);
    } else {
      StatusDoneIsQuiet(s, peer, a.reported);
    }
  }

  /** The READ's bytes are taken: into the reply window, or lost. */
  ghost predicate Took(s: Side, z: Side, peer: Side) {
    var n := s.con.rdn as nat;
    && s.read + n <= FRAME_LEN * |peer.sent|
    && (|| (z == s.(con := z.con, read := s.read + n) && z.con == Failed(s.con))
        || z == s.(con := s.con.(rdn := (n / 8) as byte, nst := Consume),
                   reply := EncodeAll(peer.sent)[s.read..s.read + n],
                   lo := s.read / FRAME_LEN, read := s.read + n))
  }

  lemma ReadStep(s: Side, peer: Side, a: Answer)
    requires Stream(s, peer) && s.con.nst == ReadAck && (a.Done? || (a.Refused? && a.lost))
    ensures Took(s, ApplyNet(s, peer, a), peer)
    ensures ApplyNet(s, peer, a).con.nst == Consume <==> a.Done?
  {
  }

  lemma TookKeepsOwn(s: Side, z: Side, peer: Side)
    requires OwnInv(s) && Took(s, z, peer)
    ensures OwnInv(z) && Extends(s, z)
  {
    SendsCarry(s, z);
  }

  lemma TookKeepsStream(s: Side, z: Side, peer: Side)
    requires Stream(s, peer) && s.con.nst == ReadAck && Took(s, z, peer)
    ensures Stream(z, peer)
    ensures z.read / FRAME_LEN == s.read / FRAME_LEN + s.con.rdn / 8
  {
    hide Encode;
  }

  /** A batch spans at most six ticks: its oldest frame is no older than the watermark, which the
      tick has not overtaken, and its newest no newer than the peer's tick allows. */
  lemma BatchSpan(s: Side, peer: Side, lo: nat, hi: nat)
    requires Both(s, peer) && s.T >= 0
    requires s.read / FRAME_LEN == lo < hi <= |peer.ends|
    ensures s.R <= peer.ends[lo] <= peer.ends[hi - 1] <= peer.ends[lo] + 6
    ensures peer.ends[hi - 1] <= Max(s.R, 1) + 6
  {
    SkewFollows(s, peer);
    assert 1 <= peer.ends[lo] && peer.ends[hi - 1] <= peer.T + D;
  }

  lemma TookKeepsWatermark(s: Side, z: Side, peer: Side)
    requires Both(s, peer) && s.T >= 0 && s.con.nst == ReadAck && Took(s, z, peer)
    ensures Watermark(z, peer)
  {
    TookKeepsStream(s, z, peer);
    var lo, hi := s.read / FRAME_LEN, z.read / FRAME_LEN;
    BatchSpan(s, peer, lo, hi);
    TookParts(s, z, peer);
    hide Took, OwnInv, Stream;
    SpanKeepsWatermark(s, z, peer, lo, hi);
  }

  lemma TookParts(s: Side, z: Side, peer: Side)
    requires Took(s, z, peer)
    ensures z.R == s.R
    ensures z.con.nst == Consume ==> z.lo == s.read / FRAME_LEN && z.con.rdn as nat == s.con.rdn as nat / 8
  {
    hide EncodeAll;
  }

  lemma SpanKeepsWatermark(s: Side, z: Side, peer: Side, lo: nat, hi: nat)
    requires Watermark(s, peer) && z.R == s.R && s.read / FRAME_LEN == lo && z.read / FRAME_LEN == hi
    requires lo < hi <= |peer.ends| && s.R <= peer.ends[lo] <= peer.ends[hi - 1] <= peer.ends[lo] + 6
    requires z.con.nst == Consume ==> z.lo == lo && lo + z.con.rdn as nat <= hi
    ensures Watermark(z, peer)
  {
  }

  // ---- consuming one record -----------------------------------------------------------

  /** The next record to consume is a whole frame the peer really sent. */
  lemma NextFrame(s: Side, peer: Side)
    requires Stream(s, peer) && Consumes(s.con)
    ensures s.con.rdn <= 31 && FRAME_LEN * s.con.rdn as nat <= |s.reply|
    ensures var k := s.lo + s.con.rdn - 1;
            k < |peer.sent|
            && s.reply[FRAME_LEN * (s.con.rdn - 1)..FRAME_LEN * s.con.rdn] == Encode(peer.sent[k])
  {
    hide EncodeAll, Encode;
    var k := s.lo + s.con.rdn - 1;
    FrameAt(peer.sent, k);
    SliceOfSlice(EncodeAll(peer.sent), FRAME_LEN * s.lo, s.read, FRAME_LEN * (s.con.rdn - 1));
    assert FRAME_LEN * s.lo + FRAME_LEN * (s.con.rdn - 1) == FRAME_LEN * k;
  }

  lemma SliceOfSlice(all: seq<byte>, lo: nat, hi: nat, off: nat)
    requires lo + off + FRAME_LEN <= hi <= |all|
    ensures all[lo..hi][off..off + FRAME_LEN] == all[lo + off..lo + off + FRAME_LEN]
  {
    var a, b := all[lo..hi][off..off + FRAME_LEN], all[lo + off..lo + off + FRAME_LEN];
    assert |a| == |b|;
    assert forall k :: 0 <= k < |a| ==> a[k] == b[k];
  }

  /** Consuming frame `k` of the peer's stream. */
  ghost function Consumed(s: Side, peer: Side, k: nat): Side
    requires k < |peer.sent| && k < |peer.ends| && s.con.rdn > 0
  {
    var c := s.con.(rdn := s.con.rdn - 1);
    match peer.sent[k]
    case Left => s.(con := c.(err := 0xF0 + FNE_PEER))
    case Input(r) =>
      s.(con := Absorb(c, r),
         R := Max(s.R, peer.ends[k]),
         arms := if Absorb(c, r).rsy && !c.rsy then s.arms + 1 else s.arms)
  }

  lemma TakeStep(s: Side, peer: Side, a: Answer)
    requires Consumes(s.con) && s.con.rdn <= 31 && FRAME_LEN * s.con.rdn as nat <= |s.reply|
    ensures var n := s.con.rdn - 1;
            var c := TakeFrame(s.con.(rdn := n), s.reply[FRAME_LEN * n..FRAME_LEN * (n + 1)]);
            var k := s.lo + n;
            ApplyNet(s, peer, a) == s.(con := c,
              R := if k < |peer.sent| && k < |peer.ends| && peer.sent[k].Input? && peer.ends[k] > s.R
                   then peer.ends[k] else s.R,
              arms := if c.rsy && !s.con.rsy then s.arms + 1 else s.arms)
  {
    hide TakeFrame, Absorb, Decode;
    var m := MailOf(s, peer, a);
    assert m.reply == s.reply && WindowHolds(s.con, m);
    var n := s.con.rdn - 1;
    assert Step(s.con, m) == TakeFrame(s.con.(rdn := n), s.reply[FRAME_LEN * n..FRAME_LEN * (n + 1)]);
  }

  lemma ConsumeStep(s: Side, peer: Side, a: Answer)
    requires Stream(s, peer) && |peer.ends| == |peer.sent| && Consumes(s.con)
    ensures s.lo + s.con.rdn - 1 < |peer.sent|
    ensures ApplyNet(s, peer, a) == Consumed(s, peer, s.lo + s.con.rdn - 1)
  {
    hide ApplyNet, Decode, Stream, Encode, Absorb;
    NextFrame(s, peer);
    DecodeEncode(peer.sent[s.lo + s.con.rdn - 1]);
    TakeStep(s, peer, a);
  }

  /** The watermark's signed compare is exact too: no frame in the window is more than a signed
      byte away from it. */
  lemma FrameIsNear(s: Side, peer: Side, k: nat)
    requires Both(s, peer) && Consumes(s.con) && k == s.lo + s.con.rdn - 1
    ensures k < |peer.ends| == |peer.sent| && -6 <= peer.ends[k] - s.R <= 7
    ensures peer.sent[k].Input? ==> peer.ends[k] >= 2 && peer.sent[k].rec.tick == Low(peer.ends[k])
    ensures s.con.rwat == Low(s.R) && Sends(peer) && Stream(s, peer)
  {
    SkewFollows(s, peer);
  }

  ghost predicate Absorbed(s: Side, z: Side) {
    && s.con.rdn > 0
    && z == s.(con := z.con, R := z.R, arms := z.arms)
    && z.con == s.con.(ring := z.con.ring, rsy := z.con.rsy, rwat := z.con.rwat, err := z.con.err,
                       rdn := s.con.rdn - 1)
    && z.R >= s.R && z.con.rwat == Low(z.R)
    && (if z.con.rsy == s.con.rsy then z.arms == s.arms else z.con.rsy && z.arms == s.arms + 1)
  }

  lemma ConsumedIsAbsorbed(s: Side, peer: Side, k: nat)
    requires s.con.rdn > 0 && s.con.rwat == Low(s.R) && k < |peer.sent| && k < |peer.ends|
    requires peer.sent[k].Input? ==> peer.sent[k].rec.tick == Low(peer.ends[k])
    requires -128 <= peer.ends[k] - s.R <= 127
    ensures Absorbed(s, Consumed(s, peer, k))
  {
    hide StoreWindow, Comparable;
    NotBehindIsExact(peer.ends[k], s.R);
  }

  lemma AbsorbedKeepsOwn(s: Side, z: Side)
    requires OwnInv(s) && Absorbed(s, z)
    ensures OwnInv(z) && Extends(s, z)
  {
    SendsCarry(s, z);
  }

  lemma AbsorbedKeepsLink(s: Side, z: Side, peer: Side)
    requires LinkInv(s, peer) && Consumes(s.con) && Absorbed(s, z)
    requires z.R == s.R || z.R == Max(s.R, peer.ends[s.lo + s.con.rdn - 1])
    requires Sends(peer) && (z.R == s.R || z.R >= 2)
    ensures LinkInv(z, peer)
  {
    var k, hi := s.lo + s.con.rdn - 1, s.read / FRAME_LEN;
    assert peer.ends[s.lo] <= peer.ends[k] <= peer.ends[hi - 1] <= peer.T + D;
  }

  lemma ConsumeKeeps(s: Side, peer: Side, a: Answer)
    requires Both(s, peer) && Consumes(s.con)
    ensures var z := ApplyNet(s, peer, a); OwnInv(z) && Extends(s, z) && LinkInv(z, peer)
  {
    hide ApplyNet, Absorb, Absorbed, OwnInv, LinkInv, Sends, Stream, Extends;
    var k := s.lo + s.con.rdn - 1;
    FrameIsNear(s, peer, k);
    var z := Consumed(s, peer, k);
    ConsumeStep(s, peer, a);
    ConsumedIsAbsorbed(s, peer, k);
    AbsorbedKeepsOwn(s, z);
    AbsorbedKeepsLink(s, z, peer);
  }

  lemma NetKeeps(s: Side, peer: Side, a: Answer)
    requires Both(s, peer) && s.T >= 0
    requires a.Done? && s.con.nst == StatusAck ==> a.reported < 65536 && s.read + a.reported <= s.arrived
    ensures var z := ApplyNet(s, peer, a); OwnInv(z) && Extends(s, z) && LinkInv(z, peer)
  {
    hide ApplyNet, OwnInv, Quiet, Sent, Took, Extends;
    if s.con.nst == WriteIssue {
      WriteStep(s, peer, a);
      SentKeepsOwn(s, ApplyNet(s, peer, a));
      SentKeepsLink(s, ApplyNet(s, peer, a), peer);
    } else if Reads(s.con, a) {
      ReadStep(s, peer, a);
      TookKeepsOwn(s, ApplyNet(s, peer, a), peer);
      TookKeepsStream(s, ApplyNet(s, peer, a), peer);
      TookKeepsWatermark(s, ApplyNet(s, peer, a), peer);
    } else if Consumes(s.con) {
      ConsumeKeeps(s, peer, a);
    } else {
      WaitStep(s, peer, a);
      QuietKeepsOwn(s, ApplyNet(s, peer, a));
      QuietKeepsLink(s, ApplyNet(s, peer, a), peer);
    }
  }

  lemma SentKeepsLink(s: Side, z: Side, peer: Side)
    requires LinkInv(s, peer) && Sent(s, z)
    ensures LinkInv(z, peer)
  {
  }

  lemma GoodbyeKeepsOwn(s: Side)
    requires OwnInv(s)
    ensures var z := s.(sent := s.sent + [Left], ends := s.ends + [s.T + D], closed := true);
            OwnInv(z) && Extends(s, z)
  {
    var z := s.(sent := s.sent + [Left], ends := s.ends + [s.T + D], closed := true);
    SendsGrow(s, z, Left);
    hide Sends, Extends;
  }

  lemma ArriveKeepsOwn(s: Side, n: nat)
    requires OwnInv(s)
    ensures var z := s.(arrived := s.arrived + n); OwnInv(z) && Extends(s, z)
  {
    SendsCarry(s, s.(arrived := s.arrived + n));
  }

  lemma ArriveKeepsLink(s: Side, peer: Side, n: nat)
    requires LinkInv(s, peer) && s.arrived + n <= FRAME_LEN * |peer.sent|
    ensures LinkInv(s.(arrived := s.arrived + n), peer)
  {
  }

  /** The netcode never looks at the game's cells except to sample them. */
  lemma DrawKeeps(s: Side, peer: Side, ram: Ram)
    requires OwnInv(s) && LinkInv(s, peer)
    ensures var z := s.(ram := ram); OwnInv(z) && Extends(s, z) && LinkInv(z, peer)
  {
    hide Watermark, Stream;
    SendsCarry(s, s.(ram := ram));
    assert Watermark(s.(ram := ram), peer) && Stream(s.(ram := ram), peer) by { DrawKeepsLink(s, peer, ram); }
  }

  lemma DrawKeepsLink(s: Side, peer: Side, ram: Ram)
    requires LinkInv(s, peer)
    ensures LinkInv(s.(ram := ram), peer)
  {
  }

  /** One event keeps everything, on both sides. */
  lemma EventKeeps(g: Logic, w: World, e: Event)
    requires Inv(w) && Enabled(w, e)
    ensures Inv(Apply(g, w, e))
    ensures Extends(Me(w, e.i), Me(Apply(g, w, e), e.i))
    ensures Peer(Apply(g, w, e), e.i) == Peer(w, e.i)
  {
    hide OwnInv, LinkInv, Extends, ApplyFrame, ApplyNet;
    var s, peer := Me(w, e.i), Peer(w, e.i);
    var z := Me(Apply(g, w, e), e.i);
    match e {
      case Frame(i, p) =>
        SkewFollows(s, peer);
        FrameKeepsOwn(g, s, p);
        FrameKeepsLink(g, s, peer, p);
      case Net(i, a) =>
        NetKeeps(s, peer, a);
      case Arrive(i, n) =>
        ArriveKeepsOwn(s, n);
        ArriveKeepsLink(s, peer, n);
      case Goodbye(i) =>
        GoodbyeKeepsOwn(s);
        GoodbyeKeepsLink(s, peer);
      case Draw(i, cells) =>
        DrawKeeps(s, peer, Drawn(s.ram, cells));
    }
    PeerMoved(peer, s, z);
  }

  lemma GoodbyeKeepsLink(s: Side, peer: Side)
    requires LinkInv(s, peer)
    ensures LinkInv(s.(sent := s.sent + [Left], ends := s.ends + [s.T + D], closed := true), peer)
  {
  }

  lemma InitHolds(w: World)
    requires Init(w)
    ensures Inv(w)
  {
  }

  lemma {:induction false} RunKeepsInv(g: Logic, w: World, es: seq<Event>)
    requires Init(w) && Runs(g, w, es)
    ensures Inv(Exec(g, w, es))
    decreases |es|
  {
    if es == [] {
      InitHolds(w);
    } else {
      RunKeepsInv(g, w, es[..|es| - 1]);
      EventKeeps(g, Exec(g, w, es[..|es| - 1]), es[|es| - 1]);
    }
  }

  // ---- the theorems -------------------------------------------------------------------

  /** The two sides of console `i` after a run. */
  ghost predicate Reached(g: Logic, w: World, es: seq<Event>, i: nat, s: Side, peer: Side) {
    && Init(w) && Runs(g, w, es) && i < 2
    && s == Me(Exec(g, w, es), i) && peer == Peer(Exec(g, w, es), i)
  }

  lemma ReachedKeeps(g: Logic, w: World, es: seq<Event>, i: nat, s: Side, peer: Side)
    requires Reached(g, w, es, i, s, peer)
    ensures Both(s, peer)
  {
    hide OwnInv, LinkInv;
    RunKeepsInv(g, w, es);
  }

  /** On every run, of any length: the ticks differ by at most three, the watermark stays within
      [-2, 5] of the tick, and both signed compares decide the comparison of the unbounded values. */
  lemma SkewAndWrap(g: Logic, w: World, es: seq<Event>, i: nat, s: Side, peer: Side)
    requires Reached(g, w, es, i, s, peer)
    ensures -3 <= s.T - peer.T <= 3 && -2 <= s.R - s.T <= 5
    ensures s.con.tick == Low(s.T) && s.con.rwat == Low(s.R)
    ensures MayRun(s.con) <==> s.R >= s.T
    ensures Consumes(s.con) ==>
              var k := s.lo + s.con.rdn - 1;
              k < |peer.ends| && (NotBehind(Low(peer.ends[k]), s.con.rwat) <==> peer.ends[k] >= s.R)
  {
    hide Runs, Exec;
    ReachedKeeps(g, w, es, i, s, peer);
    SkewFollows(s, peer);
    GateIsExact(s);
    if Consumes(s.con) {
      var k := s.lo + s.con.rdn - 1;
      FrameIsNear(s, peer, k);
      NotBehindIsExact(peer.ends[k], s.R);
    }
  }

  /** Every record a console ever sends for a window is the same record, and carries its captures
      for the three ticks and the checksum of the state entering the tick it was sent at. */
  lemma RecordsAreImmutable(g: Logic, w: World, es: seq<Event>, i: nat, s: Side, peer: Side, j: nat)
    requires Reached(g, w, es, i, s, peer)
    requires j < |s.sent| && s.sent[j].Input?
    ensures |s.sent| == |s.ends| && 2 <= s.ends[j] < |s.caps| && s.ends[j] - 2 < |s.entered|
    ensures var t, r := s.ends[j], s.sent[j].rec;
            r == Rec(Low(t), s.caps[t], s.caps[t - 1], s.caps[t - 2], Crc(s.entered[t - 2]))
    ensures forall k :: 0 <= k < |s.sent| && s.sent[k].Input? && s.ends[k] == s.ends[j] ==> s.sent[k] == s.sent[j]
  {
    hide Runs, Exec;
    ReachedKeeps(g, w, es, i, s, peer);
    assert s.sent[j].rec == Authentic(s, s.ends[j] - 2);
    forall k | 0 <= k < |s.sent| && s.sent[k].Input? && s.ends[k] == s.ends[j]
      ensures s.sent[k] == s.sent[j]
    {
      assert s.sent[k].rec == Authentic(s, s.ends[k] - 2);
    }
  }

  /** Reads are of whole frames that have arrived, for any arrival pattern, and every record the
      console examines is a frame the peer sent, at an offset of at most 240. */
  lemma FramesStayWhole(g: Logic, w: World, es: seq<Event>, i: nat, s: Side, peer: Side)
    requires Reached(g, w, es, i, s, peer)
    ensures s.read % FRAME_LEN == 0 && s.read <= s.arrived <= FRAME_LEN * |peer.sent|
    ensures s.con.nst in {ReadIssue, ReadAck} ==>
              s.con.rdn > 0 && s.con.rdn % FRAME_LEN == 0 && s.read + s.con.rdn <= s.arrived
    ensures s.con.nst == ReadAck ==>
              Fetch(peer.sent, s.read, s.con.rdn) == EncodeAll(peer.sent)[s.read..s.read + s.con.rdn]
    ensures Consumes(s.con) ==>
              var n := s.con.rdn - 1;
              && FRAME_LEN * n <= 240 && FRAME_LEN * (n + 1) <= |s.reply|
              && s.lo + n < |peer.sent|
              && s.reply[FRAME_LEN * n..FRAME_LEN * (n + 1)] == Encode(peer.sent[s.lo + n])
  {
    hide Runs, Exec;
    ReachedKeeps(g, w, es, i, s, peer);
    if Consumes(s.con) {
      NextFrame(s, peer);
    }
  }

  /** The simulated-frame count is four a tick and the phase, whatever the stalls; a capture is
      applied exactly eight simulated frames after the boundary that took it. */
  lemma LatencyIsExact(g: Logic, w: World, es: seq<Event>, i: nat, s: Side, peer: Side, p: Ports)
    requires Reached(g, w, es, i, s, peer)
    ensures s.frames == 4 * |s.log| - if s.con.phase == 0 then 0 else 4 - s.con.phase
    ensures var z := ApplyFrame(g, s, p);
            && (|z.caps| > |s.caps| ==> z.caps == s.caps + [Captured(s.con, p)] && s.frames == 4 * (|s.caps| - D))
            && (|z.log| > |s.log| ==>
                  |z.log| <= |z.caps| &&
                  var own := if s.con.guest then z.log[|s.log|].guest else z.log[|s.log|].host;
                  own == z.caps[|s.log|] && s.frames == 4 * |s.log|)
  {
    hide Runs, Exec, ApplyFrame, Crc, Mix, Clock, Capture, Inputs, MayRun, WriteSticks;
    ReachedKeeps(g, w, es, i, s, peer);
    if s.con.phase == 0 {
      BoundaryFrame(g, s, p);
      EnterKeeps(s, p);
      OwnByte(Enter(s, p));
    } else {
      MidFrame(g, s, p);
    }
  }

  /** The byte a tick runs with is the one captured for it. */
  lemma OwnByte(s: Side)
    requires OwnInv(s) && s.T >= 0
    ensures (if s.con.guest then Inputs(s.con).guest else Inputs(s.con).host) == s.caps[s.T]
  {
    LowIndex(s.T, 0);
  }

  /** A boundary that stalls, the first time or again, lets nothing run: it enters the tick if the last
      one ran, and beyond that changes the advance flag and the stall count, or ends the match once the
      count is full. The game's cells are untouched and no input is used. */
  lemma StallIsInvisible(s: Side, g: Logic, p: Ports)
    requires s.con.phase == 0 && !MayRun(Enter(s, p).con)
    ensures var e := Enter(s, p);
            && ApplyFrame(g, s, p) == e.(con :=
                 if s.con.err < 0xF0 then e.con.(adv := false, err := s.con.err + 16)
                 else e.con.(adv := false, net := false, warm := false, left := true))
            && e.ram == s.ram && e.log == s.log && e.frames == s.frames && e.con.pads == s.con.pads
            && (!s.con.ran ==> e == s.(con := s.con.(adv := true)))
  {
    hide Crc, Captured, MayRun;
    BoundaryFrame(g, s, p);
  }

  /** `n` frames in a row with nothing arriving. */
  ghost function StalledFrames(g: Logic, s: Side, p: Ports, n: nat): Side {
    if n == 0 then s else ApplyFrame(g, StalledFrames(g, s, p, n - 1), p)
  }

  /** The watchdog counts stalled frames, one by one: fifteen leave the match going and the sixteenth
      ends it, with the simulation untouched throughout. */
  lemma {:induction false} WatchdogCountsFrames(g: Logic, s: Side, p: Ports, n: nat)
    requires s.con.phase == 0 && !s.con.ran && !MayRun(s.con) && s.con.err < 16 && 1 <= n <= 16
    ensures var z := StalledFrames(g, s, p, n);
            && z.ram == s.ram && z.T == s.T && z.caps == s.caps && z.log == s.log && z.frames == s.frames
            && z.con == if n <= 15 then s.con.(adv := false, err := s.con.err + 16 * n)
                        else s.con.(adv := false, err := s.con.err + 240, net := false, warm := false, left := true)
  {
    hide ApplyFrame, MayRun;
    if n == 1 {
      SameGate(s.con, s.con.(adv := true));
      StallIsInvisible(s, g, p);
      assert StalledFrames(g, s, p, 0) == s;
    } else {
      WatchdogCountsFrames(g, s, p, n - 1);
      var y := StalledFrames(g, s, p, n - 1);
      SameGate(s.con, y.con.(adv := true));
      StallIsInvisible(y, g, p);
    }
  }

  lemma SameGate(c: Con, d: Con)
    requires d.tick == c.tick && d.rwat == c.rwat
    ensures MayRun(d) == MayRun(c)
  {
  }

  /** Every arming of the repair is pressed into exactly one captured byte, at the next boundary,
      and into no other; until then it is pending. */
  lemma ArmedOncePressedOnce(g: Logic, w: World, es: seq<Event>, i: nat, s: Side, peer: Side)
    requires Reached(g, w, es, i, s, peer)
    ensures |s.pressed| + (if s.con.rsy then 1 else 0) == s.arms
    ensures forall j, k :: 0 <= j < k < |s.pressed| ==> s.pressed[j] < s.pressed[k]
    ensures forall j :: 0 <= j < |s.pressed| ==>
              2 <= s.pressed[j] < |s.caps| && !Has(s.caps[s.pressed[j]], IW_RST)
  {
    hide Runs, Exec;
    ReachedKeeps(g, w, es, i, s, peer);
  }
}
