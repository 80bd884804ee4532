/** The remote ring on its own: consumption order does not matter, and how far one record may move
    the watermark before a slot is left stale. */
module RemoteRing {
  import opened Bytes
  import opened Wire
  import opened Console
  import opened Skew
  import opened Agreement

  function AbsorbAll(c: Con, rs: seq<Rec>): Con
    decreases |rs|
  {
    if rs == [] then c else Absorb(AbsorbAll(c, rs[..|rs| - 1]), rs[|rs| - 1])
  }

  /** Records carrying `caps`, record `j` for the window ending at `ends[j]`, within six ticks. */
  ghost predicate Authentics(rs: seq<Rec>, ends: seq<int>, caps: seq<byte>, first: int) {
    && |rs| == |ends|
    && forall j :: 0 <= j < |rs| ==> first <= ends[j] <= first + 5 && AuthenticWindow(rs[j], caps, ends[j])
  }

  ghost predicate Covers(ends: seq<int>, k: int) {
    exists e :: e in ends && e - 2 <= k <= e
  }

  ghost function Latest(R: int, ends: seq<int>): (m: int)
    ensures m >= R && (m == R || m in ends)
    ensures forall e :: e in ends ==> m >= e
    decreases |ends|
  {
    if ends == [] then R else
      assert ends == ends[..|ends| - 1] + [ends[|ends| - 1]];
      Max(Latest(R, ends[..|ends| - 1]), ends[|ends| - 1])
  }

  /** The byte a batch leaves in the slot of tick `k`. */
  ghost function SlotOf(was: byte, ends: seq<int>, caps: seq<byte>, k: int): byte {
    if Covers(ends, k) && 0 <= k < |caps| then caps[k] else was
  }

  /** What a batch leaves behind, whatever its order: the captures wherever a window covers the
      tick, the old byte elsewhere, and the newest end as the watermark. */
  lemma {:induction false} BatchResult(c: Con, rs: seq<Rec>, ends: seq<int>, caps: seq<byte>, first: int, R: int)
    requires Authentics(rs, ends, caps, first) && c.rwat == Low(R) && first - 100 <= R <= first + 100
    ensures forall k :: first - 2 <= k <= first + 5 ==>
              AbsorbAll(c, rs).ring[k % 8] == SlotOf(c.ring[k % 8], ends, caps, k)
    ensures AbsorbAll(c, rs).rwat == Low(Latest(R, ends))
    decreases |rs|
  {
    hide Absorb, SlotOf, Covers;
    if rs == [] {
      forall k
        ensures SlotOf(c.ring[k % 8], ends, caps, k) == c.ring[k % 8]
      {
        NothingCovered(c.ring[k % 8], caps, k);
      }
    } else {
      var n := |rs| - 1;
      var before := AbsorbAll(c, rs[..n]);
      BatchResult(c, rs[..n], ends[..n], caps, first, R);
      AbsorbResult(before, rs[n], ends[n], Latest(R, ends[..n]));
      forall k | first - 2 <= k <= first + 5
        ensures Absorb(before, rs[n]).ring[k % 8] == SlotOf(c.ring[k % 8], ends, caps, k)
      {
        SlotAfter(before.ring, rs[n], ends[n], k);
        LastSlot(c.ring[k % 8], rs[n], ends, caps, k);
      }
    }
  }

  lemma NothingCovered(was: byte, caps: seq<byte>, k: int)
    ensures SlotOf(was, [], caps, k) == was
  {
  }

  lemma AbsorbResult(c: Con, r: Rec, end: int, R: int)
    requires c.rwat == Low(R) && r.tick == Low(end) && -128 <= end - R <= 127
    ensures Absorb(c, r).ring == StoreWindow(c.ring, r) && Absorb(c, r).rwat == Low(Max(R, end))
  {
    hide StoreWindow, Comparable;
    NotBehindIsExact(end, R);
  }

  lemma LastSlot(was: byte, r: Rec, ends: seq<int>, caps: seq<byte>, k: int)
    requires ends != [] && AuthenticWindow(r, caps, ends[|ends| - 1])
    ensures var end, earlier := ends[|ends| - 1], ends[..|ends| - 1];
            SlotOf(was, ends, caps, k) ==
              if k == end then r.w0 else if k == end - 1 then r.w1 else if k == end - 2 then r.w2
              else SlotOf(was, earlier, caps, k)
  {
    hide Covers;
    LastCovers(ends, k);
  }

  lemma LastCovers(ends: seq<int>, k: int)
    requires ends != []
    ensures var n := |ends| - 1; Covers(ends, k) <==> Covers(ends[..n], k) || ends[n] - 2 <= k <= ends[n]
  {
    var n := |ends| - 1;
    assert ends == ends[..n] + [ends[n]];
    if Covers(ends[..n], k) {
      var e :| e in ends[..n] && e - 2 <= k <= e;
      assert e in ends;
    }
    if ends[n] - 2 <= k <= ends[n] {
      assert ends[n] in ends;
    }
  }

  /** Any two orders of the same windows, duplicates included, leave the same ring and watermark. */
  lemma OrderDoesNotMatter(c: Con, rs: seq<Rec>, ends: seq<int>, qs: seq<Rec>, fins: seq<int>,
                           caps: seq<byte>, first: int, R: int)
    requires Authentics(rs, ends, caps, first) && Authentics(qs, fins, caps, first)
    requires forall e :: e in ends <==> e in fins
    requires c.rwat == Low(R) && first - 100 <= R <= first + 100
    ensures AbsorbAll(c, rs).ring == AbsorbAll(c, qs).ring
    ensures AbsorbAll(c, rs).rwat == AbsorbAll(c, qs).rwat
  {
    hide AbsorbAll;
    BatchResult(c, rs, ends, caps, first, R);
    BatchResult(c, qs, fins, caps, first, R);
    assert Latest(R, ends) == Latest(R, fins);
    forall slot | 0 <= slot < 8
      ensures AbsorbAll(c, rs).ring[slot] == AbsorbAll(c, qs).ring[slot]
    {
      var k := TickAt(first, slot);
      assert SlotOf(c.ring[slot], ends, caps, k) == SlotOf(c.ring[slot], fins, caps, k);
    }
  }

  /** The one tick among the eight of `first - 2 .. first + 5` that lives in a slot. */
  ghost function TickAt(first: int, slot: int): (k: int)
    requires 0 <= slot < 8
    ensures first - 2 <= k <= first + 5 && k % 8 == slot
  {
    var base := first - 2;
    base + (slot - base) % 8
  }

  // ---- how far one record may jump ------------------------------------------------------

  /** Whatever the peer captured, the ring is right up to the new watermark. */
  ghost predicate JumpIsSafe(ring: Remote, filled: int, end: int) {
    forall caps, r ::
      RingHolds(ring, caps, filled) && AuthenticWindow(r, caps, end) ==> RingHolds(StoreWindow(ring, r), caps, end)
  }

  /** Exactly three ticks: a record that moves the watermark further leaves a slot of the previous
      lap behind it, and there are captures for which the gate then reads the wrong byte. */
  lemma JumpIsSafeExactly(ring: Remote, filled: int, end: int)
    requires 1 <= filled < end
    ensures JumpIsSafe(ring, filled, end) <==> end <= filled + WIN
  {
    if end <= filled + WIN {
      forall caps, r | RingHolds(ring, caps, filled) && AuthenticWindow(r, caps, end)
        ensures RingHolds(StoreWindow(ring, r), caps, end)
      {
        StoreKeepsRing(ring, caps, filled, r, end);
      }
    } else {
      var hole := end - 3;
      var caps := seq(end + 1, k => if k == hole then Inc(ring[k % 8]) else ring[k % 8]);
      var r := Rec(Low(end), caps[end], caps[end - 1], caps[end - 2], 0);
      assert RingHolds(ring, caps, filled) && AuthenticWindow(r, caps, end);
      SlotAfter(ring, r, end, hole);
      assert StoreWindow(ring, r)[hole % 8] != caps[hole];
    }
  }
}
