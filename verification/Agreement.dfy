/** What holds when the transport keeps up. The hypothesis H: no READ batch moves the watermark more
    than `WIN` ticks beyond the last tick the remote ring has a byte for. */
module Agreement {
  import opened Bytes
  import opened Sim
  import opened Wire
  import opened Console
  import opened Lockstep
  import opened Skew

  /** The last tick whose slot in the remote ring is filled: the seeds fill ticks 0 and 1. */
  ghost function Filled(s: Side): int {
    Max(s.R, 1)
  }

  ghost predicate BatchIsTimely(s: Side, peer: Side, lo: nat, hi: nat) {
    forall j :: lo <= j < hi && j < |peer.sent| && j < |peer.ends| && peer.sent[j].Input? ==>
      peer.ends[j] <= Filled(s) + WIN
  }

  /** H, for one event: only a READ can break it, and it can be checked before the READ. */
  ghost predicate Timely(w: World, e: Event) {
    e.Net? && e.i < 2 && Me(w, e.i).con.nst == ReadAck && e.answer.Done? ==>
      var s := Me(w, e.i);
      BatchIsTimely(s, Peer(w, e.i), s.read / FRAME_LEN, (s.read + s.con.rdn) / FRAME_LEN)
  }

  ghost predicate TimelyRun(g: Logic, w: World, es: seq<Event>)
    requires Runs(g, w, es)
  {
    es == [] || (TimelyRun(g, w, es[..|es| - 1]) && Timely(Exec(g, w, es[..|es| - 1]), es[|es| - 1]))
  }

  // ---- the remote ring ------------------------------------------------------------------

  /** Eight slots hold the peer's byte for the last eight filled ticks. */
  ghost predicate RingHolds(ring: Remote, caps: seq<byte>, filled: int) {
    filled < |caps| && forall k :: Max(0, filled - 7) <= k <= filled ==> ring[k % 8] == caps[k]
  }

  ghost predicate AuthenticWindow(r: Rec, caps: seq<byte>, end: int) {
    && 2 <= end < |caps| && r.tick == Low(end)
    && r.w0 == caps[end] && r.w1 == caps[end - 1] && r.w2 == caps[end - 2]
  }

  lemma SlotsAreDistinct(x: int, y: int)
    requires -8 < x - y < 8
    ensures x % 8 == y % 8 <==> x == y
  {
  }

  /** Where a window goes: three slots, and within reach of it no other tick's. */
  lemma SlotAfter(ring: Remote, r: Rec, end: int, k: int)
    requires r.tick == Low(end) && end - 7 <= k <= end + 5
    ensures StoreWindow(ring, r)[k % 8] ==
              if k == end then r.w0 else if k == end - 1 then r.w1 else if k == end - 2 then r.w2
              else ring[k % 8]
  {
    LowIndex(end, 0);
    LowIndex(end, -1);
    LowIndex(end, -2);
    SlotsAreDistinct(k, end);
    SlotsAreDistinct(k, end - 1);
    SlotsAreDistinct(k, end - 2);
    SlotsAreDistinct(end, end - 1);
    SlotsAreDistinct(end, end - 2);
    SlotsAreDistinct(end - 1, end - 2);
  }

  /** A window that reaches no further than three ticks beyond the filled ones, and no further than
      five behind, destroys nothing and leaves no hole. */
  lemma StoreKeepsRing(ring: Remote, caps: seq<byte>, filled: int, r: Rec, end: int)
    requires RingHolds(ring, caps, filled) && AuthenticWindow(r, caps, end)
    requires filled >= 1 && filled - 5 <= end <= filled + WIN
    ensures RingHolds(StoreWindow(ring, r), caps, Max(filled, end))
  {
    hide StoreWindow;
    forall k | Max(0, Max(filled, end) - 7) <= k <= Max(filled, end)
      ensures StoreWindow(ring, r)[k % 8] == caps[k]
    {
      SlotAfter(ring, r, end, k);
    }
  }

  // ---- the invariant --------------------------------------------------------------------

  /** Frame `j` of the peer's stream is a record this side has still to consume. */
  ghost predicate Remaining(s: Side, peer: Side, j: int) {
    s.con.nst == Consume && s.lo <= j < s.lo + s.con.rdn
    && j < |peer.sent| && j < |peer.ends| && peer.sent[j].Input?
  }

  ghost predicate BatchInReach(s: Side, peer: Side) {
    && (forall j :: Remaining(s, peer, j) ==> Filled(s) - WIN <= peer.ends[j] <= Filled(s) + WIN)
    && (forall j, k :: Remaining(s, peer, j) && Remaining(s, peer, k) ==> peer.ends[j] <= peer.ends[k] + WIN)
  }

  ghost function Own(p: Pair, guest: bool): byte {
    if guest then p.guest else p.host
  }

  /** Every tick this side ran, it ran with the two consoles' captures for that tick. */
  ghost predicate LogMatches(s: Side, peer: Side, guest: bool) {
    |s.log| <= |s.caps| && |s.log| <= |peer.caps|
    && forall k :: 0 <= k < |s.log| ==>
         Own(s.log[k], guest) == s.caps[k] && Own(s.log[k], !guest) == peer.caps[k]
  }

  ghost predicate Agrees(s: Side, peer: Side, guest: bool) {
    && s.con.guest == guest
    && RingHolds(s.con.ring, peer.caps, Filled(s))
    && BatchInReach(s, peer)
    && LogMatches(s, peer, guest)
  }

  ghost predicate AgreeInv(w: World) {
    Inv(w) && Agrees(w.s0, w.s1, false) && Agrees(w.s1, w.s0, true)
  }

  /** What the other side sees of a move: the history only grows. */
  ghost predicate Grows(p: Side, q: Side) {
    p.caps <= q.caps && p.sent <= q.sent && p.ends <= q.ends
  }

  lemma PeerGrew(s: Side, p: Side, q: Side, guest: bool)
    requires LinkInv(s, p) && Agrees(s, p, guest) && Grows(p, q) && |p.sent| == |p.ends| && |q.sent| == |q.ends|
    ensures Agrees(s, q, guest)
  {
    forall j | Remaining(s, q, j)
      ensures Remaining(s, p, j)
    {
    }
  }

  // ---- a frame --------------------------------------------------------------------------

  lemma RemainingFramed(s: Side, z: Side, peer: Side)
    requires Framed(s, z) && BatchInReach(s, peer)
    ensures BatchInReach(z, peer)
  {
    assert forall j :: Remaining(z, peer, j) ==> Remaining(s, peer, j);
  }

  /** The peer's byte the gate lets through is the peer's capture for the tick. */
  lemma PeerByte(s: Side, peer: Side)
    requires Clocks(s) && RingHolds(s.con.ring, peer.caps, Filled(s))
    requires 0 <= s.T <= s.R <= s.T + 5
    ensures s.T < |peer.caps| && s.con.ring[s.con.tick % 8] == peer.caps[s.T]
  {
    LowIndex(s.T, 0);
  }

  lemma RunKeepsLog(g: Logic, s: Side, peer: Side, guest: bool)
    requires OwnInv(s) && !s.con.ran && Agrees(s, peer, guest) && s.T <= s.R <= s.T + 5
    ensures LogMatches(Run(g, s), peer, guest)
  {
    hide Inputs, Mix, Clock, WriteSticks, Sends, Repairs, CountsFrames;
    OwnByte(s);
    PeerByte(s, peer);
    assert Own(Inputs(s.con), !guest) == s.con.ring[s.con.tick % 8] by { OtherByte(s.con); }
    assert Run(g, s).log == s.log + [Inputs(s.con)] && |s.log| == s.T;
  }

  lemma OtherByte(c: Con)
    ensures Own(Inputs(c), c.guest) == c.loc[c.tick % 4] && Own(Inputs(c), !c.guest) == c.ring[c.tick % 8]
  {
  }

  lemma EnterKeepsAgreement(s: Side, p: Ports, peer: Side, guest: bool)
    requires Agrees(s, peer, guest)
    ensures var e := Enter(s, p); Agrees(e, peer, guest) && Grows(s, e)
  {
    hide Crc, Captured;
    var e := Enter(s, p);
    assert forall j :: Remaining(e, peer, j) ==> Remaining(s, peer, j);
  }

  lemma FrameKeepsAgreement(g: Logic, s: Side, peer: Side, p: Ports, guest: bool)
    requires Both(s, peer) && Agrees(s, peer, guest)
    ensures var z := ApplyFrame(g, s, p); Agrees(z, peer, guest) && Grows(s, z)
  {
    hide ApplyFrame, Crc, Mix, Clock, WriteSticks, MayRun, OwnInv, LinkInv, Captured, Inputs, RingHolds, Enter, LogMatches;
    var z := ApplyFrame(g, s, p);
    FrameFootprint(g, s, p);
    RemainingFramed(s, z, peer);
    SkewFollows(s, peer);
    if s.con.phase != 0 {
      MidFrame(g, s, p);
      SameLog(s, z, peer, guest);
    } else {
      BoundaryFrame(g, s, p);
      EnterKeepsAgreement(s, p, peer, guest);
      EnterKeeps(s, p);
      var e := Enter(s, p);
      OwnClocks(e);
      GateIsExact(e);
      PiecesAreFramed(g, s, p);
      if MayRun(e.con) {
        EnterClock(s, p);
        RunKeepsLog(g, e, peer, guest);
      } else {
        SameLog(e, z, peer, guest);
      }
    }
  }

  lemma OwnClocks(s: Side)
    requires OwnInv(s)
    ensures Clocks(s)
  {
  }

  lemma EnterClock(s: Side, p: Ports)
    ensures Enter(s, p).R == s.R && s.T <= Enter(s, p).T <= s.T + 1
  {
  }

  lemma SameLog(s: Side, z: Side, peer: Side, guest: bool)
    requires LogMatches(s, peer, guest) && z.log == s.log && z.caps == s.caps
    ensures LogMatches(z, peer, guest)
  {
  }

  // ---- a transport step -------------------------------------------------------------------

  /** A step that leaves the ring, the history and the batch alone, or drops the batch. */
  ghost predicate Calm(s: Side, z: Side) {
    && z.con.ring == s.con.ring && z.con.guest == s.con.guest
    && z.R == s.R && z.log == s.log && z.caps == s.caps && s.sent <= z.sent && s.ends <= z.ends
    && z.con.nst != Consume
  }

  lemma CalmKeeps(s: Side, z: Side, peer: Side, guest: bool)
    requires Agrees(s, peer, guest) && Calm(s, z)
    ensures Agrees(z, peer, guest) && Grows(s, z)
  {
  }

  /** A batch that H admits: every record ends within three ticks after the filled ones. */
  lemma BatchStartsInReach(s: Side, z: Side, peer: Side, j: int)
    requires Sends(peer) && Watermark(s, peer) && s.read % FRAME_LEN == 0
    requires z.con.nst == Consume && z.lo == s.read / FRAME_LEN && z.R == s.R
    requires z.lo + z.con.rdn == z.read / FRAME_LEN
    requires BatchIsTimely(s, peer, z.lo, z.lo + z.con.rdn) && Remaining(z, peer, j)
    ensures Filled(z) <= peer.ends[j] <= Filled(z) + WIN
  {
    assert peer.ends[j] >= 2 && peer.ends[j] >= s.R;
  }

  lemma TookKeepsAgreement(s: Side, z: Side, peer: Side, guest: bool)
    requires Both(s, peer) && s.T >= 0 && s.con.nst == ReadAck && Agrees(s, peer, guest) && Took(s, z, peer)
    requires z.con.nst == Consume ==> BatchIsTimely(s, peer, s.read / FRAME_LEN, z.read / FRAME_LEN)
    ensures Agrees(z, peer, guest) && Grows(s, z)
  {
    hide Took, BatchIsTimely, RingHolds, LogMatches, Remaining, Sends, Watermark, Captures, Clocks, Repairs, CountsFrames, Stream;
    TookRead(s, z, peer);
    if z.con.nst == Consume {
      StreamIsWhole(s, peer);
      forall j | Remaining(z, peer, j)
        ensures 0 <= j < |peer.ends| && Filled(s) <= peer.ends[j] <= Filled(s) + WIN
      {
        BatchStartsInReach(s, z, peer, j);
        RemainingIsThere(z, peer, j);
      }
      SameLog(s, z, peer, guest);
    } else {
      CalmKeeps(s, z, peer, guest);
    }
  }

  lemma StreamIsWhole(s: Side, peer: Side)
    requires Stream(s, peer) && s.con.nst == ReadAck
    ensures s.read % FRAME_LEN == 0 && s.con.rdn % FRAME_LEN == 0
  {
  }

  lemma RemainingIsThere(s: Side, peer: Side, j: int)
    requires Remaining(s, peer, j)
    ensures s.con.nst == Consume && s.lo <= j < s.lo + s.con.rdn && 0 <= j < |peer.ends|
  {
  }

  lemma RestStaysInReach(s: Side, z: Side, peer: Side, k: int)
    requires BatchInReach(s, peer) && Remaining(s, peer, k) && k == s.lo + s.con.rdn - 1 && Sends(peer)
    requires z.lo == s.lo && z.con.nst == s.con.nst && z.con.rdn == s.con.rdn - 1
    requires Filled(z) == Max(Filled(s), peer.ends[k])
    ensures BatchInReach(z, peer)
  {
    forall j | Remaining(z, peer, j)
      ensures Remaining(s, peer, j) && Filled(z) - WIN <= peer.ends[j] <= Filled(z) + WIN
    {
      assert Remaining(s, peer, j);
      SentInOrder(peer, j, k);
    }
  }

  /** One record consumed under H: its window lands in place, and the rest stay in reach. */
  lemma ConsumedKeepsAgreement(s: Side, peer: Side, k: nat, guest: bool)
    requires Both(s, peer) && Consumes(s.con) && Agrees(s, peer, guest)
    requires k == s.lo + s.con.rdn - 1 && k < |peer.sent| == |peer.ends|
    ensures var z := Consumed(s, peer, k); Agrees(z, peer, guest) && Grows(s, z)
  {
    hide Consumed, OwnInv, LinkInv, RingHolds, LogMatches, BatchInReach, Remaining, Sends, Stream, Absorbed, StoreWindow;
    var z := Consumed(s, peer, k);
    FrameIsNear(s, peer, k);
    ConsumedIsAbsorbed(s, peer, k);
    AbsorbedCells(s, z);
    ConsumedRing(s, peer, k);
    SameLog(s, z, peer, guest);
    if peer.sent[k].Input? {
      NextRemains(s, peer, k);
      RecordIsCaptures(peer, k);
      StoreKeepsRing(s.con.ring, peer.caps, Filled(s), peer.sent[k].rec, peer.ends[k]);
      RestStaysInReach(s, z, peer, k);
    } else {
      FewerRemain(s, z, peer);
    }
  }

  lemma AbsorbedCells(s: Side, z: Side)
    requires Absorbed(s, z)
    ensures z.caps == s.caps && z.sent == s.sent && z.ends == s.ends && z.log == s.log && z.lo == s.lo
    ensures z.con.nst == s.con.nst && z.con.rdn == s.con.rdn - 1 && z.con.guest == s.con.guest
  {
  }

  lemma NextRemains(s: Side, peer: Side, k: nat)
    requires Consumes(s.con) && k == s.lo + s.con.rdn - 1 && k < |peer.sent| == |peer.ends| && peer.sent[k].Input?
    requires BatchInReach(s, peer)
    ensures Remaining(s, peer, k) && Filled(s) - WIN <= peer.ends[k] <= Filled(s) + WIN
  {
    assert Remaining(s, peer, k);
  }

  lemma FewerRemain(s: Side, z: Side, peer: Side)
    requires BatchInReach(s, peer) && z.R == s.R
    requires z.lo == s.lo && z.con.nst == s.con.nst && z.con.rdn <= s.con.rdn
    ensures BatchInReach(z, peer)
  {
    assert forall j :: Remaining(z, peer, j) ==> Remaining(s, peer, j);
  }

  lemma ConsumedRing(s: Side, peer: Side, k: nat)
    requires k < |peer.sent| && k < |peer.ends| && s.con.rdn > 0
    ensures var z := Consumed(s, peer, k);
            if peer.sent[k].Input? then
              z.con.ring == StoreWindow(s.con.ring, peer.sent[k].rec) && z.R == Max(s.R, peer.ends[k])
            else z.con.ring == s.con.ring && z.R == s.R
  {
    hide StoreWindow, Comparable, NotBehind;
  }

  lemma SentInOrder(s: Side, j: nat, k: nat)
    requires Sends(s) && j <= k < |s.ends|
    ensures s.ends[j] <= s.ends[k]
  {
  }

  lemma RecordIsCaptures(s: Side, k: nat)
    requires Sends(s) && k < |s.sent| && s.sent[k].Input?
    ensures AuthenticWindow(s.sent[k].rec, s.caps, s.ends[k])
  {
    assert s.sent[k].rec == Authentic(s, s.ends[k] - 2);
  }

  lemma NetKeepsAgreement(s: Side, peer: Side, a: Answer, guest: bool)
    requires Both(s, peer) && s.T >= 0 && Agrees(s, peer, guest)
    requires a.Done? && s.con.nst == StatusAck ==> a.reported < 65536 && s.read + a.reported <= s.arrived
    requires s.con.nst == ReadAck && a.Done? ==>
               BatchIsTimely(s, peer, s.read / FRAME_LEN, (s.read + s.con.rdn) / FRAME_LEN)
    ensures var z := ApplyNet(s, peer, a); Agrees(z, peer, guest) && Grows(s, z)
  {
    hide ApplyNet, OwnInv, Watermark, Stream, Agrees, Took, Consumed;
    var z := ApplyNet(s, peer, a);
    if s.con.nst == WriteIssue {
      WriteStep(s, peer, a);
      CalmKeeps(s, z, peer, guest);
    } else if Reads(s.con, a) {
      ReadStep(s, peer, a);
      TookRead(s, z, peer);
      TookKeepsAgreement(s, z, peer, guest);
    } else if Consumes(s.con) {
      FrameIsNear(s, peer, s.lo + s.con.rdn - 1);
      ConsumeStep(s, peer, a);
      ConsumedKeepsAgreement(s, peer, s.lo + s.con.rdn - 1, guest);
    } else {
      WaitStep(s, peer, a);
      CalmKeeps(s, z, peer, guest);
    }
  }

  lemma TookRead(s: Side, z: Side, peer: Side)
    requires Took(s, z, peer)
    ensures z.read == s.read + s.con.rdn && z.con.ring == s.con.ring && z.con.guest == s.con.guest
    ensures z.R == s.R && z.log == s.log && z.caps == s.caps && z.sent == s.sent && z.ends == s.ends
    ensures z.con.nst == WriteIssue
         || (z.con.nst == Consume && z.lo == s.read / FRAME_LEN && z.con.rdn == s.con.rdn / 8)
  {
    hide EncodeAll, Failed;
    if z.con == Failed(s.con) && z == s.(con := z.con, read := z.read) {
      FailedCells(s.con);
    }
  }

  lemma FailedCells(c: Con)
    ensures Failed(c).ring == c.ring && Failed(c).guest == c.guest && Failed(c).nst == WriteIssue
  {
  }

  // ---- runs -----------------------------------------------------------------------------

  lemma EventKeepsAgreement(g: Logic, w: World, e: Event)
    requires AgreeInv(w) && Enabled(w, e) && Timely(w, e)
    ensures AgreeInv(Apply(g, w, e))
  {
    hide ApplyFrame, ApplyNet, OwnInv, LinkInv, Agrees, BatchIsTimely;
    EventKeeps(g, w, e);
    var s, peer, guest := Me(w, e.i), Peer(w, e.i), e.i == 1;
    var z := Me(Apply(g, w, e), e.i);
    match e {
      case Frame(i, p) => FrameKeepsAgreement(g, s, peer, p, guest);
      case Net(i, a) => NetKeepsAgreement(s, peer, a, guest);
      case Arrive(i, n) => ArriveKeepsAgreement(s, z, peer, guest);
      case Goodbye(i) => ArriveKeepsAgreement(s, z, peer, guest);
      case Draw(i, cells) => DrawKeepsAgreement(s, z, peer, guest);
    }
    OwnLengths(peer);
    OwnLengths(s);
    OwnLengths(z);
    PeerGrew(peer, s, z, !guest);
  }

  lemma ArriveKeepsAgreement(s: Side, z: Side, peer: Side, guest: bool)
    requires Agrees(s, peer, guest)
    requires z == s.(arrived := z.arrived) || z == s.(sent := s.sent + [Left], ends := s.ends + [s.T + D], closed := true)
    ensures Agrees(z, peer, guest) && Grows(s, z)
  {
    assert forall j :: Remaining(z, peer, j) ==> Remaining(s, peer, j);
  }

  lemma DrawKeepsAgreement(s: Side, z: Side, peer: Side, guest: bool)
    requires Agrees(s, peer, guest) && z == s.(ram := z.ram)
    ensures Agrees(z, peer, guest) && Grows(s, z)
  {
    assert forall j :: Remaining(z, peer, j) ==> Remaining(s, peer, j);
  }

  lemma {:induction false} TimelyRunKeeps(g: Logic, w: World, es: seq<Event>)
    requires Init(w) && Runs(g, w, es) && TimelyRun(g, w, es)
    ensures AgreeInv(Exec(g, w, es))
    decreases |es|
  {
    hide AgreeInv, Timely;
    if es == [] {
      InitAgrees(w);
    } else {
      TimelyRunKeeps(g, w, es[..|es| - 1]);
      EventKeepsAgreement(g, Exec(g, w, es[..|es| - 1]), es[|es| - 1]);
    }
  }

  lemma InitAgrees(w: World)
    requires Init(w)
    ensures AgreeInv(w)
  {
    InitHolds(w);
  }

  ghost predicate ReachedTimely(g: Logic, w: World, es: seq<Event>, z: World) {
    Init(w) && Runs(g, w, es) && TimelyRun(g, w, es) && z == Exec(g, w, es)
  }

  /** Input agreement: under H, in every interleaving, every tick a console runs it runs with the
      host's capture and the guest's capture for that tick; so a tick both have run, both ran with
      the same sticks, triggers and switches. */
  lemma InputsAgree(g: Logic, w: World, es: seq<Event>, z: World)
    requires ReachedTimely(g, w, es, z)
    ensures |z.s0.log| <= |z.s0.caps| && |z.s0.log| <= |z.s1.caps|
    ensures |z.s1.log| <= |z.s0.caps| && |z.s1.log| <= |z.s1.caps|
    ensures forall k :: 0 <= k < |z.s0.log| ==> z.s0.log[k] == Pair(z.s0.caps[k], z.s1.caps[k])
    ensures forall k :: 0 <= k < |z.s1.log| ==> z.s1.log[k] == Pair(z.s0.caps[k], z.s1.caps[k])
    ensures z.s0.log <= z.s1.log || z.s1.log <= z.s0.log
  {
    hide Runs, TimelyRun, Exec, Inv;
    TimelyRunKeeps(g, w, es);
    LogIsPairs(z.s0, z.s1, false, z.s0.caps, z.s1.caps);
    LogIsPairs(z.s1, z.s0, true, z.s0.caps, z.s1.caps);
  }

  lemma LogIsPairs(s: Side, peer: Side, guest: bool, host: seq<byte>, visitor: seq<byte>)
    requires LogMatches(s, peer, guest)
    requires if guest then host == peer.caps && visitor == s.caps else host == s.caps && visitor == peer.caps
    ensures forall k :: 0 <= k < |s.log| ==> s.log[k] == Pair(host[k], visitor[k])
  {
    forall k | 0 <= k < |s.log|
      ensures s.log[k] == Pair(host[k], visitor[k])
    {
      assert Own(s.log[k], guest) == s.caps[k] && Own(s.log[k], !guest) == peer.caps[k];
    }
  }

  /** No ring write ever destroys the byte of a tick still to be run: between the tick and the
      watermark the ring holds the peer's captures. */
  lemma RingIsSafe(g: Logic, w: World, es: seq<Event>, z: World, i: nat, k: int)
    requires ReachedTimely(g, w, es, z) && i < 2
    requires Max(0, Me(z, i).T) <= k <= Max(1, Me(z, i).R)
    ensures k < |Peer(z, i).caps| && Me(z, i).con.ring[k % 8] == Peer(z, i).caps[k]
  {
    hide Runs, TimelyRun, Exec, OwnInv, LinkInv, Agrees;
    TimelyRunKeeps(g, w, es);
    RingSlot(Me(z, i), Peer(z, i), i == 1, k);
  }

  lemma RingSlot(s: Side, peer: Side, guest: bool, k: int)
    requires Both(s, peer) && Agrees(s, peer, guest)
    requires Max(0, s.T) <= k <= Max(1, s.R)
    ensures k < |peer.caps| && s.con.ring[k % 8] == peer.caps[k]
  {
    hide OwnInv, LinkInv, BatchInReach, LogMatches;
    SkewFollows(s, peer);
  }

  // ---- the simulation ---------------------------------------------------------------------

  /** Nothing outside the lockstep writes these cells. */
  ghost predicate Spares(es: seq<Event>, cells: set<nat>) {
    forall k :: 0 <= k < |es| ==> SparesIn(es[k], cells)
  }

  ghost predicate SparesIn(e: Event, cells: set<nat>) {
    e.Draw? ==> forall c :: c in e.cells ==> c !in cells
  }

  ghost predicate EnteredReplays(g: Logic, cells: set<nat>, r0: Ram, s: Side) {
    |s.entered| <= |s.log| + 1
    && forall k :: 0 <= k < |s.entered| ==> SameOn(cells, s.entered[k], Replay(g, r0, s.log[..k]))
  }

  ghost predicate StateReplays(g: Logic, cells: set<nat>, r0: Ram, s: Side) {
    var n := |s.log|;
    && (s.con.phase == 0 ==> SameOn(cells, s.ram, Replay(g, r0, s.log)))
    && (s.con.phase != 0 ==>
          && n > 0 && s.con.pads == MixOf(s.log[n - 1]).pads
          && SameOn(cells, s.ram, TickFrames(g, Replay(g, r0, s.log[..n - 1]), s.log[n - 1], s.con.phase)))
  }

  /** On the shared cells a console's state is the reference replay of its log, up to the frame of the
      current tick. */
  ghost predicate Simulates(g: Logic, cells: set<nat>, r0: Ram, s: Side) {
    EnteredReplays(g, cells, r0, s) && StateReplays(g, cells, r0, s)
  }

  /** A game that keeps to the shared cells, and shared cells that hold every checksummed one. */
  ghost predicate Fair(g: Logic, cells: set<nat>) {
    Shares(cells) && Respects(g, cells)
  }

  lemma ClockRespects(cells: set<nat>, r: Ram, q: Ram)
    requires Shares(cells) && SameOn(cells, r, q)
    ensures SameOn(cells, Clock(r), Clock(q))
  {
    assert FRAME_CNT in cells && ATTRACT in cells;
  }

  lemma SticksRespect(cells: set<nat>, r: Ram, q: Ram, m: Mixed)
    requires SameOn(cells, r, q)
    ensures SameOn(cells, WriteSticks(r, m), WriteSticks(q, m))
  {
  }

  lemma FrameRespects(g: Logic, cells: set<nat>, r: Ram, q: Ram, m: Mixed)
    requires Fair(g, cells) && SameOn(cells, r, q)
    ensures SameOn(cells, LogicFrame(g, r, m), LogicFrame(g, q, m))
  {
    hide SameOn, Shares, Clock;
    ClockRespects(cells, r, q);
  }

  lemma {:induction false} TickRespects(g: Logic, cells: set<nat>, r: Ram, q: Ram, p: Pair, n: nat)
    requires Fair(g, cells) && SameOn(cells, r, q)
    ensures SameOn(cells, TickFrames(g, r, p, n), TickFrames(g, q, p, n))
  {
    hide Fair, SameOn, Mix, LogicFrame, WriteSticks;
    var m := MixOf(p);
    if n == 1 {
      SticksRespect(cells, r, q, m);
      FrameRespects(g, cells, WriteSticks(r, m), WriteSticks(q, m), m);
    } else if n > 1 {
      TickRespects(g, cells, r, q, p, n - 1);
      FrameRespects(g, cells, TickFrames(g, r, p, n - 1), TickFrames(g, q, p, n - 1), m);
    }
  }

  /** Inputs that are the same keep states that agree on the shared cells agreeing on them. */
  lemma {:induction false} ReplayRespects(g: Logic, cells: set<nat>, r: Ram, q: Ram, ps: seq<Pair>)
    requires Fair(g, cells) && SameOn(cells, r, q)
    ensures SameOn(cells, Replay(g, r, ps), Replay(g, q, ps))
    decreases |ps|
  {
    hide Fair, SameOn, TickFrames;
    if ps != [] {
      var n := |ps| - 1;
      ReplayRespects(g, cells, r, q, ps[..n]);
      TickRespects(g, cells, Replay(g, r, ps[..n]), Replay(g, q, ps[..n]), ps[n], 4);
    }
  }

  lemma SameOnTrans(cells: set<nat>, r: Ram, q: Ram, t: Ram)
    requires SameOn(cells, r, q)
    ensures SameOn(cells, q, t) ==> SameOn(cells, r, t)
    ensures SameOn(cells, r, t) ==> SameOn(cells, q, t)
    ensures SameOn(cells, q, r)
  {
  }

  lemma NextFrameOfTick(g: Logic, r: Ram, p: Pair, n: nat)
    requires n > 0
    ensures TickFrames(g, r, p, n + 1) == LogicFrame(g, TickFrames(g, r, p, n), MixOf(p))
  {
  }

  lemma MidTickSimulates(g: Logic, cells: set<nat>, r0: Ram, s: Side)
    requires Fair(g, cells) && StateReplays(g, cells, r0, s) && s.con.phase != 0
    ensures StateReplays(g, cells, r0, MidTick(g, s))
  {
    hide TickFrames, Clock, Mix, SameOn, Fair;
    var z, n := MidTick(g, s), |s.log|;
    var before, last := Replay(g, r0, s.log[..n - 1]), s.log[n - 1];
    FrameRespects(g, cells, s.ram, TickFrames(g, before, last, s.con.phase), MixOf(last));
    NextFrameOfTick(g, before, last, s.con.phase);
    assert Replay(g, r0, s.log) == TickFrames(g, before, last, 4);
  }

  lemma EnterSimulates(g: Logic, cells: set<nat>, r0: Ram, s: Side, p: Ports)
    requires Simulates(g, cells, r0, s) && s.con.phase == 0 && Captures(s)
    ensures Simulates(g, cells, r0, Enter(s, p))
  {
    hide Crc, Captured, Replay, TickFrames, SameOn;
    var z := Enter(s, p);
    assert s.log[..|s.log|] == s.log;
  }

  lemma RunSimulates(g: Logic, cells: set<nat>, r0: Ram, s: Side)
    requires Fair(g, cells) && Simulates(g, cells, r0, s) && s.con.phase == 0
    ensures Simulates(g, cells, r0, Run(g, s))
  {
    hide Clock, Mix, WriteSticks, Inputs, Replay, SameOn, Fair;
    var z, n := Run(g, s), |s.log|;
    assert z.log[..n] == s.log;
    assert z.ram == TickFrames(g, s.ram, z.log[n], 1);
    TickRespects(g, cells, s.ram, Replay(g, r0, s.log), z.log[n], 1);
    assert EnteredReplays(g, cells, r0, z) by {
      assert z.entered == s.entered && s.log <= z.log;
      LogExtends(g, cells, r0, s, z);
    }
  }

  lemma LogExtends(g: Logic, cells: set<nat>, r0: Ram, s: Side, z: Side)
    requires EnteredReplays(g, cells, r0, s) && z.entered == s.entered && s.log <= z.log
    ensures EnteredReplays(g, cells, r0, z)
  {
    hide Replay, SameOn;
    forall k | 0 <= k < |z.entered|
      ensures SameOn(cells, z.entered[k], Replay(g, r0, z.log[..k]))
    {
      assert z.log[..k] == s.log[..k];
    }
  }

  lemma FrameSimulates(g: Logic, cells: set<nat>, r0: Ram, s: Side, p: Ports)
    requires Fair(g, cells) && Simulates(g, cells, r0, s) && Captures(s)
    ensures Simulates(g, cells, r0, ApplyFrame(g, s, p))
  {
    hide ApplyFrame, MidTick, Enter, Run, Captures, MayRun, EnteredReplays, StateReplays, Fair;
    if s.con.phase != 0 {
      MidFrame(g, s, p);
      MidTickSimulates(g, cells, r0, s);
      SameHistory(g, s);
      LogExtends(g, cells, r0, s, MidTick(g, s));
    } else {
      BoundaryFrame(g, s, p);
      EnterSimulates(g, cells, r0, s, p);
      EnterPhase(s, p);
      if MayRun(Enter(s, p).con) {
        RunSimulates(g, cells, r0, Enter(s, p));
      } else {
        StillSimulates(g, cells, r0, Enter(s, p), ApplyFrame(g, s, p));
      }
    }
  }

  lemma SameHistory(g: Logic, s: Side)
    ensures MidTick(g, s).log == s.log && MidTick(g, s).entered == s.entered
  {
  }

  lemma EnterPhase(s: Side, p: Ports)
    ensures Enter(s, p).con.phase == s.con.phase
  {
  }

  /** What a transport step can change. */
  ghost predicate SameSim(s: Side, z: Side) {
    && z.ram == s.ram && z.log == s.log && z.entered == s.entered && z.T == s.T
    && z.con.phase == s.con.phase && z.con.pads == s.con.pads
    && z.con.crcv == s.con.crcv && z.con.tick == s.con.tick
  }

  lemma SentKeepsSim(s: Side, z: Side)
    requires Sent(s, z)
    ensures SameSim(s, z) && z.con.rsy == s.con.rsy && z.arms == s.arms
  {
    hide RecordOf;
  }

  lemma QuietKeepsSim(s: Side, z: Side)
    requires Quiet(s, z)
    ensures SameSim(s, z) && z.con.rsy == s.con.rsy && z.arms == s.arms
  {
  }

  lemma TookKeepsSim(s: Side, z: Side, peer: Side)
    requires Took(s, z, peer)
    ensures SameSim(s, z) && z.con.rsy == s.con.rsy && z.arms == s.arms
  {
    hide EncodeAll;
  }

  lemma MovesKeepSim(s: Side, z: Side, peer: Side)
    requires Sent(s, z) || Quiet(s, z) || Took(s, z, peer)
    ensures SameSim(s, z) && z.con.rsy == s.con.rsy && z.arms == s.arms
  {
    hide Sent, Quiet, Took, SameSim;
    if Sent(s, z) {
      SentKeepsSim(s, z);
    } else if Quiet(s, z) {
      QuietKeepsSim(s, z);
    } else {
      TookKeepsSim(s, z, peer);
    }
  }

  lemma NetSameSim(s: Side, peer: Side, a: Answer)
    requires Both(s, peer)
    requires a.Done? && s.con.nst == StatusAck ==> a.reported < 65536 && s.read + a.reported <= s.arrived
    ensures var z := ApplyNet(s, peer, a);
            SameSim(s, z) && (!Consumes(s.con) ==> z.con.rsy == s.con.rsy && z.arms == s.arms)
  {
    hide ApplyNet, OwnInv, Watermark, Stream, Consumed, Sent, Quiet, Took, SameSim, Absorbed;
    if s.con.nst == WriteIssue {
      WriteStep(s, peer, a);
      MovesKeepSim(s, ApplyNet(s, peer, a), peer);
    } else if Reads(s.con, a) {
      ReadStep(s, peer, a);
      MovesKeepSim(s, ApplyNet(s, peer, a), peer);
    } else if Consumes(s.con) {
      FrameIsNear(s, peer, s.lo + s.con.rdn - 1);
      ConsumeStep(s, peer, a);
      ConsumedIsAbsorbed(s, peer, s.lo + s.con.rdn - 1);
      AbsorbedSameSim(s, Consumed(s, peer, s.lo + s.con.rdn - 1));
    } else {
      WaitStep(s, peer, a);
      MovesKeepSim(s, ApplyNet(s, peer, a), peer);
    }
  }

  lemma AbsorbedSameSim(s: Side, z: Side)
    requires Absorbed(s, z)
    ensures SameSim(s, z)
  {
  }

  lemma ConsumedArms(s: Side, peer: Side, k: nat)
    requires k < |peer.sent| && k < |peer.ends| && s.con.rdn > 0
    ensures Consumed(s, peer, k).con.rsy ==
              (s.con.rsy || (peer.sent[k].Input? && Comparable(s.con.tick, peer.sent[k].rec) && peer.sent[k].rec.crc != s.con.crcv))
  {
    hide Absorb, Comparable;
    if peer.sent[k].Input? {
      AbsorbArms(s.con.(rdn := s.con.rdn - 1), peer.sent[k].rec);
    }
  }

  lemma AbsorbArms(c: Con, r: Rec)
    ensures Absorb(c, r).rsy == (c.rsy || (Comparable(c.tick, r) && r.crc != c.crcv))
  {
    hide StoreWindow, NotBehind, Comparable;
  }

  lemma EventSimulates(g: Logic, cells: set<nat>, r0: Ram, w: World, e: Event)
    requires Fair(g, cells) && Inv(w) && Enabled(w, e) && SparesIn(e, cells) && Simulates(g, cells, r0, Me(w, e.i))
    ensures Simulates(g, cells, r0, Me(Apply(g, w, e), e.i))
  {
    hide ApplyFrame, ApplyNet, LinkInv, SameSim, Simulates, Fair;
    var s, peer := Me(w, e.i), Peer(w, e.i);
    match e {
      case Frame(i, p) =>
        FrameSimulates(g, cells, r0, s, p);
      case Net(i, a) =>
        NetSameSim(s, peer, a);
        StillSimulates(g, cells, r0, s, ApplyNet(s, peer, a));
      case Arrive(i, n) =>
        SameSimOf(s, n);
        StillSimulates(g, cells, r0, s, s.(arrived := s.arrived + n));
      case Goodbye(i) =>
        var z := s.(sent := s.sent + [Left], ends := s.ends + [s.T + D], closed := true);
        SameSimOf(s, 0);
        StillSimulates(g, cells, r0, s, z);
      case Draw(i, drawn) =>
        DrawSimulates(g, cells, r0, s, drawn);
    }
  }

  /** What is drawn outside the shared cells leaves the simulation where it was. */
  lemma DrawSimulates(g: Logic, cells: set<nat>, r0: Ram, s: Side, drawn: map<nat, byte>)
    requires Simulates(g, cells, r0, s) && forall c :: c in drawn ==> c !in cells
    ensures Simulates(g, cells, r0, s.(ram := Drawn(s.ram, drawn)))
  {
    hide Replay, TickFrames, SameOn, Mix;
    var ram := Drawn(s.ram, drawn);
    assert SameOn(cells, s.ram, ram) by { DrawnElsewhere(cells, s.ram, drawn); }
    var n := |s.log|;
    if s.con.phase == 0 {
      SameOnTrans(cells, s.ram, ram, Replay(g, r0, s.log));
    } else {
      SameOnTrans(cells, s.ram, ram, TickFrames(g, Replay(g, r0, s.log[..n - 1]), s.log[n - 1], s.con.phase));
    }
  }

  lemma DrawnElsewhere(cells: set<nat>, r: Ram, drawn: map<nat, byte>)
    requires forall c :: c in drawn ==> c !in cells
    ensures SameOn(cells, r, Drawn(r, drawn))
  {
  }

  lemma SameSimOf(s: Side, n: nat)
    ensures SameSim(s, s.(arrived := s.arrived + n))
    ensures SameSim(s, s.(sent := s.sent + [Left], ends := s.ends + [s.T + D], closed := true))
  {
  }

  lemma StillSimulates(g: Logic, cells: set<nat>, r0: Ram, s: Side, z: Side)
    requires Simulates(g, cells, r0, s) && SameSim(s, z)
    ensures Simulates(g, cells, r0, z)
  {
    hide Replay, TickFrames, SameOn, Mix;
  }

  /** On every run, H or not, each console's shared cells are what its own log replays to, however the
      frames that stalled or ran have drawn on the others: a stall leaves no trace in them. */
  lemma {:induction false} RunSimulation(g: Logic, cells: set<nat>, w: World, es: seq<Event>)
    requires Init(w) && Runs(g, w, es) && Fair(g, cells) && Spares(es, cells)
    ensures Simulates(g, cells, w.s0.ram, Exec(g, w, es).s0) && Simulates(g, cells, w.s1.ram, Exec(g, w, es).s1)
    decreases |es|
  {
    hide Inv, Simulates, Fair, SparesIn;
    if es == [] {
      InitSimulates(g, cells, w.s0, false);
      InitSimulates(g, cells, w.s1, true);
    } else {
      var before, e := es[..|es| - 1], es[|es| - 1];
      RunSimulation(g, cells, w, before);
      RunKeepsInv(g, w, before);
      EventKeeps(g, Exec(g, w, before), e);
      EventSimulates(g, cells, if e.i == 0 then w.s0.ram else w.s1.ram, Exec(g, w, before), e);
    }
  }

  lemma InitSimulates(g: Logic, cells: set<nat>, s: Side, guest: bool)
    requires InitSide(s, guest)
    ensures Simulates(g, cells, s.ram, s)
  {
  }

  /** A checksum pair is compared only when both sample the same tick of the unbounded count. */
  lemma ComparedAtTheSameTick(s: Side, peer: Side)
    requires Both(s, peer) && Consumes(s.con) && s.T >= 0
    ensures var k := s.lo + s.con.rdn - 1;
            && k < |peer.sent| == |peer.ends|
            && (peer.sent[k].Input? ==>
                  var r := peer.sent[k].rec;
                  && (Comparable(s.con.tick, r) <==> peer.ends[k] - D == s.T)
                  && (Comparable(s.con.tick, r) ==>
                        && s.T < |peer.entered| && r.crc == Crc(peer.entered[s.T])
                        && s.T < |s.entered| && s.con.crcv == Crc(s.entered[s.T])))
  {
    hide Crc, Stream;
    var k := s.lo + s.con.rdn - 1;
    FrameIsNear(s, peer, k);
    SkewFollows(s, peer);
    if peer.sent[k].Input? {
      assert peer.sent[k].rec == Authentic(peer, peer.ends[k] - 2);
      LowIndex(peer.ends[k], -2);
      LowIsInjective(peer.ends[k] - D, s.T);
    }
  }

  // ---- no false desync --------------------------------------------------------------------

  /** Both consoles entered every tick they share with the same shared cells. */
  ghost predicate StatesAgree(cells: set<nat>, s: Side, peer: Side) {
    forall k :: 0 <= k < |s.entered| && k < |peer.entered| ==> SameOn(cells, s.entered[k], peer.entered[k])
  }

  lemma EqualStartsAgree(g: Logic, cells: set<nat>, r0: Ram, q0: Ram, s: Side, peer: Side)
    requires Fair(g, cells) && SameOn(cells, r0, q0)
    requires Simulates(g, cells, r0, s) && Simulates(g, cells, q0, peer)
    requires s.log <= peer.log || peer.log <= s.log
    ensures StatesAgree(cells, s, peer)
  {
    hide Replay, SameOn, Fair;
    forall k | 0 <= k < |s.entered| && k < |peer.entered|
      ensures SameOn(cells, s.entered[k], peer.entered[k])
    {
      assert k <= |s.log| && k <= |peer.log|;
      assert s.log[..k] == peer.log[..k];
      var a, b := Replay(g, r0, s.log[..k]), Replay(g, q0, s.log[..k]);
      ReplayRespects(g, cells, r0, q0, s.log[..k]);
      SameOnTrans(cells, a, b, peer.entered[k]);
      SameOnTrans(cells, peer.entered[k], b, a);
      SameOnTrans(cells, s.entered[k], a, peer.entered[k]);
      SameOnTrans(cells, peer.entered[k], a, s.entered[k]);
    }
  }

  ghost predicate NoRepair(w: World) {
    !w.s0.con.rsy && !w.s1.con.rsy && w.s0.arms == 0 && w.s1.arms == 0
  }

  lemma ConsumedArmsNothing(cells: set<nat>, s: Side, peer: Side, a: Answer)
    requires Both(s, peer) && Consumes(s.con) && s.T >= 0 && StatesAgree(cells, s, peer)
    requires Shares(cells) && !s.con.rsy
    ensures var z := ApplyNet(s, peer, a); !z.con.rsy && z.arms == s.arms
  {
    hide ApplyNet, OwnInv, LinkInv, Comparable, Consumed, SameOn, Shares, Crc;
    var k := s.lo + s.con.rdn - 1;
    FrameIsNear(s, peer, k);
    ConsumeStep(s, peer, a);
    ConsumedIsAbsorbed(s, peer, k);
    ConsumedArms(s, peer, k);
    ComparedAtTheSameTick(s, peer);
    if s.T < |s.entered| && s.T < |peer.entered| {
      SharedCrc(cells, s.entered[s.T], peer.entered[s.T]);
    }
  }

  lemma NetArmsNothing(cells: set<nat>, s: Side, peer: Side, a: Answer)
    requires Both(s, peer) && s.T >= 0 && Shares(cells) && StatesAgree(cells, s, peer) && !s.con.rsy
    requires a.Done? && s.con.nst == StatusAck ==> a.reported < 65536 && s.read + a.reported <= s.arrived
    ensures var z := ApplyNet(s, peer, a); !z.con.rsy && z.arms == s.arms
  {
    hide ApplyNet, OwnInv, LinkInv, SameSim, StatesAgree, Shares;
    NetSameSim(s, peer, a);
    if Consumes(s.con) {
      ConsumedArmsNothing(cells, s, peer, a);
    }
  }

  lemma FrameArmsNothing(g: Logic, s: Side, p: Ports)
    requires !s.con.rsy
    ensures var z := ApplyFrame(g, s, p); !z.con.rsy && z.arms == s.arms
  {
    hide ApplyFrame, Crc, Clock, Mix, WriteSticks, Inputs, MayRun;
    if s.con.phase != 0 {
      MidFrame(g, s, p);
    } else {
      BoundaryFrame(g, s, p);
    }
  }

  lemma EventArmsNothing(g: Logic, cells: set<nat>, w: World, e: Event)
    requires Inv(w) && Enabled(w, e) && NoRepair(w) && Shares(cells) && StatesAgree(cells, w.s0, w.s1)
    ensures NoRepair(Apply(g, w, e))
  {
    hide ApplyFrame, ApplyNet, OwnInv, LinkInv, SameOn, Shares;
    var s, peer := Me(w, e.i), Peer(w, e.i);
    assert StatesAgree(cells, s, peer) by { AgreeBothWays(cells, w.s0, w.s1); }
    match e {
      case Frame(i, p) => FrameArmsNothing(g, s, p);
      case Net(i, a) => NetArmsNothing(cells, s, peer, a);
      case Arrive(i, n) =>
      case Goodbye(i) =>
      case Draw(i, drawn) =>
    }
  }

  lemma AgreeBothWays(cells: set<nat>, s: Side, peer: Side)
    requires StatesAgree(cells, s, peer)
    ensures StatesAgree(cells, peer, s)
  {
  }

  /** Two consoles that start with the same shared cells never see a checksum mismatch: under H they
      enter every tick with the same shared cells, and the repair is never armed, on any run, however
      stalls fall and whatever every video frame draws on the other cells. The shared cells are any set
      the game keeps to that holds every checksummed cell. */
  lemma {:induction false} NoFalseDesync(g: Logic, cells: set<nat>, w: World, es: seq<Event>, z: World)
    requires ReachedTimely(g, w, es, z) && Fair(g, cells) && Spares(es, cells) && SameOn(cells, w.s0.ram, w.s1.ram)
    ensures forall k :: 0 <= k < |z.s0.entered| && k < |z.s1.entered| ==>
              SameOn(cells, z.s0.entered[k], z.s1.entered[k]) && Crc(z.s0.entered[k]) == Crc(z.s1.entered[k])
    ensures !z.s0.con.rsy && !z.s1.con.rsy && z.s0.arms == 0 && z.s1.arms == 0
    ensures z.s0.pressed == [] && z.s1.pressed == []
    decreases |es|
  {
    hide Apply, Inv, Simulates, Timely, Enabled, Fair, SparesIn, SameOn, Crc;
    InputsAgree(g, w, es, z);
    RunSimulation(g, cells, w, es);
    EqualStartsAgree(g, cells, w.s0.ram, w.s1.ram, z.s0, z.s1);
    assert Shares(cells) by { FairShares(g, cells); }
    EnteredCrcs(cells, z.s0, z.s1);
    if es != [] {
      var before := es[..|es| - 1];
      NoFalseDesync(g, cells, w, before, Exec(g, w, before));
      RunKeepsInv(g, w, before);
      EventArmsNothing(g, cells, Exec(g, w, before), es[|es| - 1]);
    }
    RunKeepsInv(g, w, es);
    NothingPressed(z.s0, z.s1);
    NothingPressed(z.s1, z.s0);
  }

  lemma FairShares(g: Logic, cells: set<nat>)
    requires Fair(g, cells)
    ensures Shares(cells)
  {
  }

  lemma EnteredCrcs(cells: set<nat>, s: Side, peer: Side)
    requires Shares(cells) && StatesAgree(cells, s, peer)
    ensures forall k :: 0 <= k < |s.entered| && k < |peer.entered| ==> Crc(s.entered[k]) == Crc(peer.entered[k])
  {
    hide Crc, Shares, SameOn;
    forall k | 0 <= k < |s.entered| && k < |peer.entered|
      ensures Crc(s.entered[k]) == Crc(peer.entered[k])
    {
      SharedCrc(cells, s.entered[k], peer.entered[k]);
    }
  }

  lemma NothingPressed(s: Side, peer: Side)
    requires Inv(World(s, peer)) || Inv(World(peer, s))
    requires s.arms == 0
    ensures s.pressed == []
  {
  }

  /** When the states do differ, the RESET a repair presses on one console is applied by both, and at
      the tick it was captured for. */
  lemma RepairReachesBoth(g: Logic, w: World, es: seq<Event>, z: World, i: nat, j: nat)
    requires ReachedTimely(g, w, es, z) && i < 2 && j < |Me(z, i).pressed|
    ensures var t := Me(z, i).pressed[j];
            && (0 <= t < |z.s0.log| ==> MixOf(z.s0.log[t]).pads.switches % 2 == 0)
            && (0 <= t < |z.s1.log| ==> MixOf(z.s1.log[t]).pads.switches % 2 == 0)
  {
    hide Runs, TimelyRun, Exec, Mix;
    InputsAgree(g, w, es, z);
    var s, peer := Me(z, i), Peer(z, i);
    assert Reached(g, w, es, i, s, peer);
    ArmedOncePressedOnce(g, w, es, i, s, peer);
    var t := s.pressed[j];
    assert t < |s.caps| && !Has(s.caps[t], IW_RST);
    if 0 <= t < |z.s0.log| {
      EitherMayReset(z.s0.caps[t], z.s1.caps[t]);
    }
    if 0 <= t < |z.s1.log| {
      EitherMayReset(z.s0.caps[t], z.s1.caps[t]);
    }
  }
}
