/** The simulation as the netcode sees it: the game's cells, the sim clock, the checksum and the
    bytes that stand for a console's switches. The 1980 game logic is a function parameter. */
module Sim {
  import opened Bytes

  const RAM_LO := 0x80
  const RAM_LEN := 90        // $80-$D9, everything the game touches
  const GAME_VAR := 0x80 - RAM_LO
  const FRAME_CNT := 0x81 - RAM_LO
  const LFSR := 0x82 - RAM_LO
  const COUNTDOWN := 0x8D - RAM_LO
  const RPM := 0xA8 - RAM_LO
  const JOY0 := 0xAD - RAM_LO
  const JOY1 := 0xAE - RAM_LO
  const ATTRACT := 0xB9 - RAM_LO
  const RACE_DONE := 0xD2 - RAM_LO
  const RPM_LAST := 0x27     // $A8-$CF
  const RACE_LAST := 0x05    // $D2-$D7

  type Ram = s: seq<byte> | |s| == RAM_LEN witness seq(RAM_LEN, (_: nat) => 0 as byte)

  // ---- switches -------------------------------------------------------------------------

  const IW_RST := 16
  const IDLE: byte := 0xFF

  /** The three ports a console reads in a match. */
  datatype Ports = Ports(swcha: byte, inpt4: byte, swchb: byte)

  /** This console's own half of the input, before the desync repair looks at it. */
  function Capture(p: Ports): (b: byte)
    ensures Has(b, 64)
    ensures b % 16 == p.swcha / 16
    ensures b / 128 == p.inpt4 / 128
    ensures b / 16 % 4 == p.swchb % 4
  {
    p.swcha / 16 + p.inpt4 / 128 * 128 + p.swchb % 4 * 16 + 64
  }

  /** The cells DGMIX writes from the two wire bytes, top lane first. The B&W switch is local and
      not here. */
  datatype Mixed = Mixed(joy0: byte, joy1: byte, pads: Pads)

  /** The shadows that live outside the game's RAM and stand for the whole tick: both triggers, and
      RESET and SELECT in bits 0 and 1. */
  datatype Pads = Pads(trig0: byte, trig1: byte, switches: byte)

  function Mix(w0: byte, w1: byte): Mixed {
    Mixed(w0 % 16, w1 % 16,
          Pads(w0 / 128 * 128, w1 / 128 * 128, AndBit(w0 / 16, w1 / 16) + 2 * AndBit(w0 / 32, w1 / 32)))
  }

  function AndBit(a: nat, b: nat): (r: byte)
    ensures r < 2
  {
    if a % 2 == 1 && b % 2 == 1 then 1 else 0
  }

  /** The two wire bytes of one tick, in lane order: the host's, then the guest's. */
  datatype Pair = Pair(host: byte, guest: byte)

  /** RESET reaches the simulation when either player's byte presses it (active low). */
  lemma EitherMayReset(w0: byte, w1: byte)
    ensures Mix(w0, w1).pads.switches % 2 == 0 <==> !Has(w0, IW_RST) || !Has(w1, IW_RST)
  {
  }

  // ---- one simulated frame --------------------------------------------------------------

  /** DGCLK. */
  function Clock(r: Ram): Ram {
    var r1 := r[FRAME_CNT := Inc(r[FRAME_CNT])];
    if r1[FRAME_CNT] != 0 then r1 else
      var r2 := r1[ATTRACT := Inc(r1[ATTRACT])];
      if r2[ATTRACT] != 0 then r2 else r2[ATTRACT := 128]
  }

  /** The game logic between the hook and the next hook: deterministic in the cells, the two triggers
      and the RESET and SELECT bits. */
  type Logic = (Ram, Pads) -> Ram

  /** What the sound engine, the kernel and the colours write on every frame the television draws,
      stalled or not. */
  function Drawn(r: Ram, cells: map<nat, byte>): Ram {
    seq(RAM_LEN, k requires 0 <= k < RAM_LEN => if k in cells then cells[k] else r[k])
  }

  /** Two states agree on these cells. */
  predicate SameOn(cells: set<nat>, r: Ram, q: Ram) {
    forall k :: k in cells && k < RAM_LEN ==> r[k] == q[k]
  }

  /** The game reads its own cells and no others: what it does to them does not depend on the rest. */
  ghost predicate Respects(g: Logic, cells: set<nat>) {
    forall r: Ram, q: Ram, p: Pads :: SameOn(cells, r, q) ==> SameOn(cells, g(r, p), g(q, p))
  }

  function WriteSticks(r: Ram, m: Mixed): Ram {
    r[JOY0 := m.joy0][JOY1 := m.joy1]
  }

  function LogicFrame(g: Logic, r: Ram, m: Mixed): Ram {
    g(Clock(r), m.pads)
  }

  /** `n` simulated frames of a tick entered in state `r` with inputs `p`. */
  function TickFrames(g: Logic, r: Ram, p: Pair, n: nat): Ram {
    var m := Mix(p.host, p.guest);
    if n == 0 then r
    else if n == 1 then LogicFrame(g, WriteSticks(r, m), m)
    else LogicFrame(g, TickFrames(g, r, p, n - 1), m)
  }

  /** The state entering the tick after `ps`: the reference the two consoles are compared with. */
  function Replay(g: Logic, r: Ram, ps: seq<Pair>): Ram {
    if ps == [] then r
    else TickFrames(g, Replay(g, r, ps[..|ps| - 1]), ps[|ps| - 1], 4)
  }

  // ---- the checksum ---------------------------------------------------------------------

  /** `ASL A` and the carry it leaves, added back in: a rotate. */
  function Rotate(a: byte): byte {
    if a >= 128 then 2 * a - 255 else 2 * a
  }

  /** `ASL A / ADC cell`. */
  function Fold(a: byte, cell: byte): byte {
    var sum := Rotate(a) + cell;
    if sum >= 256 then sum - 256 else sum
  }

  function FoldAll(a: byte, cells: seq<byte>): byte
    decreases |cells|
  {
    if cells == [] then a else FoldAll(Fold(a, cells[0]), cells[1..])
  }

  /** `n + 1` cells from `lo` upward, last first. */
  function Descending(r: Ram, lo: nat, n: nat): (s: seq<byte>)
    requires lo + n < RAM_LEN
    ensures |s| == n + 1
    ensures forall k :: 0 <= k <= n ==> s[k] == r[lo + n - k]
  {
    seq(n + 1, k requires 0 <= k <= n => r[lo + n - k])
  }

  /** The fifty cells the checksum covers, in the order it folds them. */
  function Covered(r: Ram): seq<byte> {
    Descending(r, RPM, RPM_LAST) + Descending(r, RACE_DONE, RACE_LAST)
      + [r[GAME_VAR], r[FRAME_CNT], r[LFSR], r[COUNTDOWN]]
  }

  function Crc(r: Ram): byte {
    FoldAll(0, Covered(r))
  }

  /** Whether the checksum reads cell `k`. */
  predicate IsCovered(k: nat) {
    RPM <= k <= RPM + RPM_LAST || RACE_DONE <= k <= RACE_DONE + RACE_LAST
    || k in {GAME_VAR, FRAME_CNT, LFSR, COUNTDOWN}
  }

  lemma FoldIsInjective(a: byte, b: byte, x: byte, y: byte)
    requires a == b || x == y
    ensures Fold(a, x) == Fold(b, y) <==> a == b && x == y
  {
  }

  lemma {:induction false} FoldAllIsInjective(a: byte, b: byte, cells: seq<byte>)
    ensures FoldAll(a, cells) == FoldAll(b, cells) <==> a == b
    decreases |cells|
  {
    if cells != [] {
      FoldIsInjective(a, b, cells[0], cells[0]);
      FoldAllIsInjective(Fold(a, cells[0]), Fold(b, cells[0]), cells[1..]);
    }
  }

  lemma {:induction false} FoldInTwo(a: byte, xs: seq<byte>, ys: seq<byte>)
    ensures FoldAll(a, xs + ys) == FoldAll(FoldAll(a, xs), ys)
    decreases |xs|
  {
    if xs == [] {
      assert xs + ys == ys;
    } else {
      assert (xs + ys)[1..] == xs[1..] + ys;
      FoldInTwo(Fold(a, xs[0]), xs[1..], ys);
    }
  }

  /** Lists of cells of any length that differ in exactly one place have different checksums. */
  lemma {:induction false} OneCellShows(a: byte, cells: seq<byte>, k: nat, v: byte)
    requires k < |cells| && cells[k] != v
    ensures FoldAll(a, cells) != FoldAll(a, cells[k := v])
    decreases |cells|
  {
    var other := cells[k := v];
    if k == 0 {
      FoldIsInjective(a, a, cells[0], v);
      FoldAllIsInjective(Fold(a, cells[0]), Fold(a, v), cells[1..]);
      assert other[1..] == cells[1..];
    } else {
      OneCellShows(Fold(a, cells[0]), cells[1..], k - 1, v);
      assert other[1..] == cells[1..][k - 1 := v];
    }
  }

  /** Where in the fold a covered cell comes. */
  function Position(k: nat): (p: nat)
    requires IsCovered(k)
    ensures p < 50
  {
    if RPM <= k <= RPM + RPM_LAST then RPM + RPM_LAST - k
    else if RACE_DONE <= k <= RACE_DONE + RACE_LAST then 40 + RACE_DONE + RACE_LAST - k
    else if k == GAME_VAR then 46 else if k == FRAME_CNT then 47
    else if k == LFSR then 48 else 49
  }

  lemma CoveredAfterWrite(r: Ram, k: nat, v: byte)
    requires k < RAM_LEN
    ensures Covered(r[k := v]) == if IsCovered(k) then Covered(r)[Position(k) := v] else Covered(r)
  {
  }

  lemma CoveredAt(r: Ram, k: nat)
    requires k < RAM_LEN && IsCovered(k)
    ensures |Covered(r)| == 50 && Covered(r)[Position(k)] == r[k]
  {
  }

  /** Changing one cell changes the checksum exactly when the cell is covered and really changes:
      in particular the explosion timer and the kernel's scratch never show. */
  lemma ChecksumSeesExactlyCoveredCells(r: Ram, k: nat, v: byte)
    requires k < RAM_LEN
    ensures Crc(r[k := v]) == Crc(r) <==> !IsCovered(k) || r[k] == v
  {
    CoveredAfterWrite(r, k, v);
    if IsCovered(k) {
      assert Covered(r)[Position(k)] == r[k];
      if r[k] != v {
        OneCellShows(0, Covered(r), Position(k), v);
      } else {
        assert r[k := v] == r;
      }
    }
  }

  /** The shared cells take in every cell the checksum covers. */
  predicate Shares(cells: set<nat>) {
    forall k: nat :: k < RAM_LEN && IsCovered(k) ==> k in cells
  }

  lemma SharedCrc(cells: set<nat>, r: Ram, q: Ram)
    requires Shares(cells) && SameOn(cells, r, q)
    ensures Covered(r) == Covered(q) && Crc(r) == Crc(q)
  {
    assert forall k: nat :: k < RAM_LEN && IsCovered(k) ==> r[k] == q[k];
    assert Descending(r, RPM, RPM_LAST) == Descending(q, RPM, RPM_LAST);
    assert Descending(r, RACE_DONE, RACE_LAST) == Descending(q, RACE_DONE, RACE_LAST);
  }

  /** Which cells a checksum may cover: states that agree on a set of cells always have the same
      checksum exactly when every covered cell is in the set. One cell too many is one too many. */
  lemma ChecksumFitsExactly(cells: set<nat>)
    ensures (forall r: Ram, q: Ram :: SameOn(cells, r, q) ==> Crc(r) == Crc(q)) <==> Shares(cells)
  {
    if Shares(cells) {
      forall r: Ram, q: Ram | SameOn(cells, r, q)
        ensures Crc(r) == Crc(q)
      {
        SharedCrc(cells, r, q);
      }
    } else {
      var k: nat :| k < RAM_LEN && IsCovered(k) && k !in cells;
      var r: Ram := seq(RAM_LEN, (_: nat) => 0 as byte);
      ChecksumSeesExactlyCoveredCells(r, k, 1);
      assert SameOn(cells, r, r[k := 1]);
    }
  }

  // ---- swapped cells --------------------------------------------------------------------

  /** Two folds in a row, the other way round. */
  predicate Cancels(a: byte, x: byte, y: byte) {
    x == y || (Fold(a, x) == 0 && Fold(a, y) == 255) || (Fold(a, x) == 255 && Fold(a, y) == 0)
  }

  lemma TwoFolds(a: byte, x: byte, y: byte)
    ensures Fold(Fold(a, x), y) == Fold(Fold(a, y), x) <==> Cancels(a, x, y)
  {
    var u, v := Fold(a, x), Fold(a, y);
    assert u == v <==> x == y by { FoldIsInjective(a, a, x, y); }
  }

  /** Where the design note overstates: swapping the two cells at `k` and `k + 1` of the fold goes
      unseen exactly when they are equal or their folds, from what was folded before them, are the
      two ends of the range. */
  lemma SwapShowsExactly(cells: seq<byte>, k: nat)
    requires k + 1 < |cells|
    ensures var a := FoldAll(0, cells[..k]);
            FoldAll(0, cells[k := cells[k + 1]][k + 1 := cells[k]]) == FoldAll(0, cells) <==> Cancels(a, cells[k], cells[k + 1])
  {
    var a, x, y, rest := FoldAll(0, cells[..k]), cells[k], cells[k + 1], cells[k + 2..];
    assert cells == cells[..k] + ([x, y] + rest);
    assert cells[k := y][k + 1 := x] == cells[..k] + ([y, x] + rest);
    FoldInTwo(0, cells[..k], [x, y] + rest);
    FoldInTwo(0, cells[..k], [y, x] + rest);
    FoldPair(a, x, y, rest);
    FoldPair(a, y, x, rest);
    FoldAllIsInjective(Fold(Fold(a, x), y), Fold(Fold(a, y), x), rest);
    TwoFolds(a, x, y);
  }

  lemma FoldPair(a: byte, x: byte, y: byte, rest: seq<byte>)
    ensures FoldAll(a, [x, y] + rest) == FoldAll(Fold(Fold(a, x), y), rest)
  {
    assert ([x, y] + rest)[1..] == [y] + rest;
    assert ([y] + rest)[1..] == rest;
  }

  /** And so on the RAM itself: two covered cells that are neighbours in the fold. */
  lemma SwappedCellsShowExactly(r: Ram, j: nat, k: nat)
    requires j < RAM_LEN && k < RAM_LEN && IsCovered(j) && IsCovered(k) && Position(k) == Position(j) + 1
    ensures Crc(r[j := r[k]][k := r[j]]) == Crc(r) <==> Cancels(FoldAll(0, Covered(r)[..Position(j)]), r[j], r[k])
  {
    CoveredAt(r, j);
    CoveredAt(r, k);
    CoveredAfterWrite(r, j, r[k]);
    CoveredAfterWrite(r[j := r[k]], k, r[j]);
    hide Covered, Position, IsCovered, FoldAll, Cancels;
    SwapShowsExactly(Covered(r), Position(j));
  }

  const LAST_RPM := RPM + RPM_LAST    // $CF, the first cell folded
  const QUIET: Ram := seq(RAM_LEN, (_: nat) => 0 as byte)

  /** A state on which it happens: everything zero but $CF, which is 255 and changes places with $CE. */
  lemma ASwapCancels()
    ensures var r := QUIET[LAST_RPM := 255];
            var q := r[LAST_RPM := r[LAST_RPM - 1]][LAST_RPM - 1 := r[LAST_RPM]];
            q != r && IsCovered(LAST_RPM) && IsCovered(LAST_RPM - 1) && Crc(q) == Crc(r)
  {
    var r := QUIET[LAST_RPM := 255];
    var q := r[LAST_RPM := r[LAST_RPM - 1]][LAST_RPM - 1 := r[LAST_RPM]];
    SwappedCellsShowExactly(r, LAST_RPM, LAST_RPM - 1);
    assert Covered(r)[..0] == [];
    assert q[LAST_RPM] != r[LAST_RPM];
  }
}
