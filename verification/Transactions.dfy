/** What a console asks of its cartridge and what it gets: the bytes of a READ's parameter say how many
    bytes it takes, and those of a WRITE's how many follow. */
module Transactions {
  import opened Bytes
  import opened Sim
  import opened Wire
  import opened Console
  import opened Lockstep
  import opened Skew

  // ---- between two steps of the transport -----------------------------------------------

  /** Not a step of this console's transport. */
  predicate Elsewhere(e: Event, i: nat) {
    e.Net? ==> e.i != i
  }

  /** Nor one with an answer in it. */
  predicate NoAnswer(e: Event, i: nat) {
    e.Net? && e.i == i ==> e.answer.NotYet?
  }

  /** The machine, its count and what it has read stand where they stood. */
  ghost predicate Still(s: Side, z: Side) {
    z.con.nst == s.con.nst && z.con.rdn == s.con.rdn && z.read == s.read
  }

  lemma StepElsewhere(g: Logic, w: World, e: Event, i: nat)
    requires Enabled(w, e) && i < 2 && Elsewhere(e, i)
    ensures Still(Me(w, i), Me(Apply(g, w, e), i))
  {
    hide ApplyFrame, ApplyNet;
    if e.Frame? {
      FrameFootprint(g, Me(w, e.i), e.ports);
    }
  }

  lemma WaitsForRead(s: Side, peer: Side)
    requires s.con.nst == ReadAck
    ensures ApplyNet(s, peer, NotYet) == s
  {
  }

  lemma OneMoreEvent(g: Logic, w: World, es: seq<Event>, k: nat)
    requires Runs(g, w, es) && k < |es|
    ensures Enabled(After(g, w, es, k), es[k])
    ensures After(g, w, es, k + 1) == Apply(g, After(g, w, es, k), es[k])
  {
    hide Enabled, Apply;
    PrefixRuns(g, w, es, k);
    PrefixRuns(g, w, es, k + 1);
    assert es[..k + 1][..k] == es[..k];
  }

  lemma {:induction false} StandsStill(g: Logic, w: World, es: seq<Event>, i: nat, a: nat, b: nat)
    requires Runs(g, w, es) && i < 2 && a <= b <= |es|
    requires Me(After(g, w, es, a), i).con.nst == ReadAck || forall k :: a <= k < b ==> Elsewhere(es[k], i)
    requires forall k :: a <= k < b ==> NoAnswer(es[k], i)
    ensures Still(Me(After(g, w, es, a), i), Me(After(g, w, es, b), i))
    decreases b - a
  {
    hide Apply, Enabled, After;
    if a < b {
      StandsStill(g, w, es, i, a, b - 1);
      OneMoreEvent(g, w, es, b - 1);
      var x := After(g, w, es, b - 1);
      if Elsewhere(es[b - 1], i) {
        StepElsewhere(g, x, es[b - 1], i);
      } else {
        assert NoAnswer(es[b - 1], i);
        WaitsForRead(Me(x, i), Peer(x, i));
        NetIsApplied(g, x, es[b - 1]);
      }
    }
  }

  lemma NetIsApplied(g: Logic, w: World, e: Event)
    requires Enabled(w, e) && e.Net?
    ensures Me(Apply(g, w, e), e.i) == ApplyNet(Me(w, e.i), Peer(w, e.i), e.answer)
  {
    hide ApplyNet;
  }

  // ---- the three steps of a READ --------------------------------------------------------

  /** A count of whole frames that is the most of what was reported. */
  predicate MostOf(n: nat, reported: nat) {
    && n % 8 == 0 && n <= 248 && n <= reported
    && forall k: nat :: k % 8 == 0 && k <= 248 && k <= reported ==> k <= n
  }

  lemma BiteIsMost(r: nat)
    requires r < 65536
    ensures MostOf(Bite(Low(r), Low(r / 256)), r)
  {
    assert Low(r / 256) * 256 + Low(r) == r;
    var b: nat := Bite(Low(r), Low(r / 256));
    forall k: nat | k % 8 == 0 && k <= 248 && k <= r
      ensures k <= b
    {
      if Low(r / 256) == 0 {
        assert b == r / 8 * 8 && k == k / 8 * 8;
      }
    }
  }

  lemma StatusIsBitten(s: Side, peer: Side, r: nat)
    requires s.con.nst == StatusAck && r < 65536
    ensures var z := ApplyNet(s, peer, Done(r));
            z.read == s.read && (z.con.nst == ReadIssue ==> z.con.rdn > 0 && MostOf(z.con.rdn, r))
  {
    hide ApplyNet, MostOf;
    StatusDone(s, peer, r);
    BiteIsMost(r);
  }

  lemma ReadIsIssued(s: Side, peer: Side, a: Answer)
    requires s.con.nst == ReadIssue
    ensures ApplyNet(s, peer, a) == s.(con := s.con.(nst := ReadAck))
  {
  }

  lemma ReadTakes(s: Side, peer: Side, a: Answer)
    requires Stream(s, peer) && s.con.nst == ReadAck && a.Done?
    ensures var z := ApplyNet(s, peer, a);
            && s.read + s.con.rdn <= FRAME_LEN * |peer.sent|
            && z.read == s.read + s.con.rdn && |z.reply| == s.con.rdn
            && z.reply == EncodeAll(peer.sent)[s.read..s.read + s.con.rdn]
  {
    hide EncodeAll;
  }

  /** On every run: STATUS reports `r` bytes to a console; it puts out a READ; the READ is answered. The
      length the cartridge reads out of the READ's parameter is how many bytes are then in the reply and
      gone from the stream, and it is the most whole frames, up to thirty-one, that STATUS reported. The
      three are this console's transport steps at `l`, `n` and `m`, with anything else in between. */
  lemma ReadTakesWhatItAskedFor(g: Logic, w: World, es: seq<Event>, i: nat, l: nat, n: nat, m: nat, r: nat, tx: seq<byte>)
    requires Init(w) && Runs(g, w, es) && i < 2 && l < n < m < |es|
    requires es[l] == Net(i, Done(r)) && Me(After(g, w, es, l), i).con.nst == StatusAck
    requires forall k :: l < k < n ==> Elsewhere(es[k], i)
    requires es[n].Net? && es[n].i == i && Me(After(g, w, es, n), i).con.nst == ReadIssue
    requires PutsOut(Me(After(g, w, es, n), i).con, tx)
    requires forall k :: n < k < m ==> NoAnswer(es[k], i)
    requires es[m].Net? && es[m].i == i && es[m].answer.Done?
    ensures |tx| == 3 && tx[0] == 2
    ensures var len, y, z := (tx[1] as int) + 256 * (tx[2] as int), Me(After(g, w, es, m), i), Me(After(g, w, es, m + 1), i);
            && 0 < len && MostOf(len, r)
            && |z.reply| == len && z.read == y.read + len
            && y.read + len <= FRAME_LEN * |Peer(After(g, w, es, m), i).sent|
            && z.reply == EncodeAll(Peer(After(g, w, es, m), i).sent)[y.read..y.read + len]
  {
    hide Apply, Enabled, After, MostOf, ApplyNet, EncodeAll, Stream, Watermark, OwnInv, Runs, Exec, Init;
    var a, b, c := After(g, w, es, l), After(g, w, es, n), After(g, w, es, m);
    OneMoreEvent(g, w, es, l);
    NetIsApplied(g, a, es[l]);
    Reports(a, es[l]);
    StatusIsBitten(Me(a, i), Peer(a, i), r);
    StandsStill(g, w, es, i, l + 1, n);
    OneMoreEvent(g, w, es, n);
    NetIsApplied(g, b, es[n]);
    ReadIsIssued(Me(b, i), Peer(b, i), es[n].answer);
    StandsStill(g, w, es, i, n + 1, m);
    OneMoreEvent(g, w, es, m);
    NetIsApplied(g, c, es[m]);
    AfterKeepsStream(g, w, es, m, i);
    ReadTakes(Me(c, i), Peer(c, i), es[m].answer);
  }

  lemma Reports(w: World, e: Event)
    requires Enabled(w, e) && e.Net? && e.answer.Done? && Me(w, e.i).con.nst == StatusAck
    ensures e.answer.reported < 65536
  {
  }

  lemma AfterKeepsStream(g: Logic, w: World, es: seq<Event>, k: nat, i: nat)
    requires Init(w) && Runs(g, w, es) && k <= |es| && i < 2
    ensures var x := After(g, w, es, k); Stream(Me(x, i), Peer(x, i))
  {
    hide Stream, Watermark, OwnInv;
    PrefixRuns(g, w, es, k);
    RunKeepsInv(g, w, es[..k]);
  }

  // ---- a WRITE --------------------------------------------------------------------------

  /** The length a WRITE's parameter gives is the length of the frame behind it, and that frame is what
      joins this console's stream when the cartridge takes the WRITE; when it does not, or the relay has
      said goodbye for this console, nothing does. */
  lemma WriteSendsWhatItMeasured(s: Side, peer: Side, a: Answer, tx: seq<byte>)
    requires s.con.nst == WriteIssue && PutsOut(s.con, tx)
    ensures |tx| > 3 && tx[0] == 2 && (tx[1] as int) + 256 * (tx[2] as int) == |tx| - 3
    ensures var z := ApplyNet(s, peer, a);
            if s.closed || a.Refused? then z.sent == s.sent
            else |z.sent| == |s.sent| + 1 && s.sent <= z.sent && Encode(z.sent[|s.sent|]) == tx[3..]
  {
    hide Encode, RecordOf;
    assert |tx[3..]| == FRAME_LEN;
  }

  // ---- the cycle ------------------------------------------------------------------------

  lemma StatusMovesOn(c: Con, m: Mail)
    requires c.nst == StatusAck && m.acked && m.err == 0 && m.dev == 1
    ensures var z := Step(c, m);
            if m.avHi == 0 && m.avLo < 8 then z == c.(nst := WriteIssue)
            else z.rdn > 0 && MostOf(z.rdn, m.avLo as int + 256 * m.avHi as int) && z == c.(nst := ReadIssue, rdn := z.rdn)
  {
    hide MostOf, Bite;
    BiteOfAny(m.avLo, m.avHi);
  }

  lemma ReadMovesOn(c: Con, m: Mail)
    requires c.nst == ReadAck && m.acked && m.err == 0
    ensures var z := Step(c, m);
            8 * z.rdn as int <= m.rxLo < 8 * z.rdn as int + 8 && z == c.(nst := Consume, rdn := z.rdn)
  {
  }

  lemma ConsumeMovesOn(c: Con, m: Mail)
    requires WindowHolds(c, m) && c.nst == Consume
    ensures var z := Step(c, m);
            if c.rdn == 0 then z == c.(nst := WriteIssue) else z.nst == Consume && z.rdn == c.rdn - 1
  {
    hide TakeFrame;
    if c.rdn > 0 {
      TakenMovesOn(c.(rdn := c.rdn - 1), m.reply[FRAME_LEN * (c.rdn - 1)..FRAME_LEN * c.rdn]);
    }
  }

  /** WRITE, STATUS, READ, the records, and WRITE again: each transaction is issued once and waits for its
      answer; an answer that succeeds moves the cycle on; STATUS with less than a whole frame behind it, and
      a reply used up, go back to sending. */
  lemma CycleGoesOn(c: Con, m: Mail)
    requires WindowHolds(c, m)
    ensures var z := Step(c, m);
            && (c.nst == Idle ==> z == c)
            && (c.nst == WriteIssue ==> z == c.(nst := WriteAck))
            && (c.nst == StatusIssue ==> z == c.(nst := StatusAck))
            && (c.nst == ReadIssue ==> z == c.(nst := ReadAck))
            && (c.nst in {WriteAck, StatusAck, ReadAck} && !m.acked ==> z == c)
            && (c.nst == WriteAck && m.acked && m.err == 0 ==> z == c.(nst := StatusIssue))
            && (c.nst == StatusAck && m.acked && m.err == 0 && m.dev == 1 ==>
                  if m.avHi == 0 && m.avLo < 8 then z == c.(nst := WriteIssue)
                  else z.rdn > 0 && MostOf(z.rdn, m.avLo as int + 256 * m.avHi as int) && z == c.(nst := ReadIssue, rdn := z.rdn))
            && (c.nst == ReadAck && m.acked && m.err == 0 ==>
                  8 * z.rdn as int <= m.rxLo < 8 * z.rdn as int + 8 && z == c.(nst := Consume, rdn := z.rdn))
            && (c.nst == Consume ==>
                  if c.rdn == 0 then z == c.(nst := WriteIssue) else z.nst == Consume && z.rdn == c.rdn - 1)
  {
    hide MostOf;
    if c.nst == StatusAck && m.acked && m.err == 0 && m.dev == 1 {
      hide Step;
      StatusMovesOn(c, m);
    } else if c.nst == ReadAck && m.acked && m.err == 0 {
      hide Step;
      ReadMovesOn(c, m);
    } else if c.nst == Consume {
      hide Step;
      ConsumeMovesOn(c, m);
    } else if !(m.acked && c.nst in {StatusAck, ReadAck}) {
      hide Step;
      StepElse(c, m);
    }
  }

  lemma StepElse(c: Con, m: Mail)
    requires c.nst != Consume && !(m.acked && c.nst in {StatusAck, ReadAck})
    ensures var z := Step(c, m);
            && (c.nst == Idle ==> z == c)
            && (c.nst == WriteIssue ==> z == c.(nst := WriteAck))
            && (c.nst == StatusIssue ==> z == c.(nst := StatusAck))
            && (c.nst == ReadIssue ==> z == c.(nst := ReadAck))
            && (c.nst in {WriteAck, StatusAck, ReadAck} && !m.acked ==> z == c)
            && (c.nst == WriteAck && m.acked && m.err == 0 ==> z == c.(nst := StatusIssue))
  {
  }

  lemma BiteOfAny(lo: byte, hi: byte)
    ensures MostOf(Bite(lo, hi), lo as int + 256 * hi as int) && (Bite(lo, hi) == 0 <==> hi == 0 && lo < 8)
  {
    BiteIsMost(lo as int + 256 * hi as int);
    assert Low(lo as int + 256 * hi as int) == lo && Low((lo as int + 256 * hi as int) / 256) == hi;
  }

  lemma TakenMovesOn(c: Con, s: seq<byte>)
    requires |s| == FRAME_LEN
    ensures TakeFrame(c, s).nst == c.nst && TakeFrame(c, s).rdn == c.rdn
  {
    hide Decode, StoreWindow, Comparable, NotBehind;
  }

  /** A transaction that fails, or a STATUS whose device is not well, costs nothing but the turn: back to
      sending, with code 2 in the low half of the error cell, the stall count in its high half as it was,
      and every other cell too. */
  lemma FailureGoesBackToSending(c: Con, m: Mail)
    requires c.nst in {WriteAck, StatusAck, ReadAck, Fail}
    requires c.nst != Fail ==> m.acked && (m.err != 0 || (c.nst == StatusAck && m.dev != 1))
    ensures var z := Step(c, m);
            z == c.(nst := WriteIssue, err := z.err) && z.err % 16 == 2 && z.err / 16 == c.err / 16
  {
  }

  // ---- the goodbye ----------------------------------------------------------------------

  /** The peer's goodbye fills the stall count, whatever it stood at, and touches nothing else. */
  lemma GoodbyeFillsTheCount(s: Side, peer: Side, a: Answer)
    requires Both(s, peer) && Consumes(s.con)
    requires var k := s.lo + s.con.rdn - 1; k < |peer.sent| && peer.sent[k].Left?
    ensures ApplyNet(s, peer, a) == s.(con := s.con.(rdn := s.con.rdn - 1, err := 0xF3))
  {
    hide ApplyNet, OwnInv, Watermark;
    OwnLengths(peer);
    ConsumeStep(s, peer, a);
  }

  lemma FullCountEnds(g: Logic, e: Side)
    requires e.con.err >= 0xF0
    ensures Stall(e.con) == e.con.(adv := false, net := false, warm := false, left := true)
    ensures Run(g, e).con.err == e.con.err % 16 && Run(g, e).con.net == e.con.net && Run(g, e).log == e.log + [Inputs(e.con)]
  {
    hide Mix, Clock, WriteSticks, Inputs;
  }

  lemma EnterTouches(s: Side, p: Ports)
    ensures var e := Enter(s, p);
            && e.con.err == s.con.err && e.con.net == s.con.net && e.ram == s.ram && e.log == s.log && e.frames == s.frames
  {
    hide Crc, Captured;
  }

  /** Then the match is over at the next boundary that has to wait, with nothing simulated; a boundary
      whose input has come still runs its tick, and the count starts again. */
  lemma GoodbyeEndsAtTheGate(g: Logic, s: Side, p: Ports)
    requires s.con.phase == 0 && s.con.err == 0xF3
    ensures var y := ApplyFrame(g, s, p);
            if MayRun(Enter(s, p).con) then y.con.net == s.con.net && y.con.err == 3 && |y.log| == |s.log| + 1
            else !y.con.net && y.con.left && y.ram == s.ram && y.log == s.log && y.frames == s.frames
  {
    hide ApplyFrame, MayRun, Enter, Run, Stall, Inputs;
    BoundaryFrame(g, s, p);
    EnterTouches(s, p);
    FullCountEnds(g, Enter(s, p));
  }
}
