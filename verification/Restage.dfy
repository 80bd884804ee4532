/** The bounded clear a restage runs, and what it needs from the game's own `StageRace` to leave two
    consoles equal. `StageRace` is a function parameter. */
module Restage {
  import opened Bytes
  import opened Sim

  const MATCH_SEED := 0xA8 - RAM_LO   // where the clear starts in a match...
  const STOCK_SEED := 0xB9 - RAM_LO   // ...and where stock starts it
  const NOTHING_PUSHED: byte := 0x0F

  // ---- the clear ------------------------------------------------------------------------

  function Cleared(r: Ram, from: nat): (q: Ram)
    requires from <= RAM_LEN
    ensures forall k :: 0 <= k < RAM_LEN ==> q[k] == if k < from then r[k] else 0
  {
    r[..from] + seq(RAM_LEN - from, (_: nat) => 0 as byte)
  }

  /** The state handed to `StageRace`: cleared, with the stick shadows back to idle in a match. */
  function Swept(r: Ram, from: nat, net: bool): Ram
    requires from <= RAM_LEN
  {
    if net then WriteSticks(Cleared(r, from), Mixed(NOTHING_PUSHED, NOTHING_PUSHED, Pads(0, 0, 0)))
    else Cleared(r, from)
  }

  // ---- what two consoles share ----------------------------------------------------------

  /** The cells no restage touches and only agreed input or the sim clock moves. */
  predicate SameKept(r: Ram, q: Ram) {
    r[GAME_VAR] == q[GAME_VAR] && r[FRAME_CNT] == q[FRAME_CNT]
  }

  predicate SameFrom(r: Ram, q: Ram, from: nat) {
    forall k :: from <= k < RAM_LEN ==> r[k] == q[k]
  }

  /** A running game's LFSR is not zero, so its restage goes to `StageRace` and not to `NewGame`. */
  predicate Seeded(r: Ram) {
    r[LFSR] != 0
  }

  /** The contract `StageRace` is assumed to keep: the shared cells it makes depend only on the cells
      from the clear's seed up and on the two kept cells. */
  ghost predicate Stages(stage: Ram -> Ram, cells: set<nat>) {
    forall r: Ram, q: Ram :: SameKept(r, q) && SameFrom(r, q, MATCH_SEED) ==> SameOn(cells, stage(r), stage(q))
  }

  /** The repair is total: two consoles that agree on nothing but the variation and the sim clock
      agree on every shared cell once both have restaged, and so on every checksummed cell. */
  lemma RestageConverges(stage: Ram -> Ram, cells: set<nat>, r: Ram, q: Ram)
    requires Stages(stage, cells) && Shares(cells) && SameKept(r, q)
    ensures var a, b := stage(Swept(r, MATCH_SEED, true)), stage(Swept(q, MATCH_SEED, true));
            SameOn(cells, a, b) && Covered(a) == Covered(b) && Crc(a) == Crc(b)
  {
    hide SameOn, Shares;
    var a, b := Swept(r, MATCH_SEED, true), Swept(q, MATCH_SEED, true);
    assert SameKept(a, b) && SameFrom(a, b, MATCH_SEED);
    SharedCrc(cells, stage(a), stage(b));
  }

  /** Why the seed is widened in a match: a clear makes the cells from RPM up equal on every pair of
      states exactly when it starts at or below RPM. Stock's seed does not. */
  lemma SeedIsTotalExactly(from: nat)
    requires from <= RAM_LEN
    ensures (forall r: Ram, q: Ram :: SameFrom(Swept(r, from, true), Swept(q, from, true), MATCH_SEED)) <==> from <= MATCH_SEED
  {
    if from <= MATCH_SEED {
      forall r: Ram, q: Ram
        ensures SameFrom(Swept(r, from, true), Swept(q, from, true), MATCH_SEED)
      {
      }
    } else {
      var r: Ram := seq(RAM_LEN, (_: nat) => 0 as byte);
      var q := r[MATCH_SEED := 1];
      assert Swept(q, from, true)[MATCH_SEED] == 1 && Swept(r, from, true)[MATCH_SEED] == 0;
      assert !SameFrom(Swept(r, from, true), Swept(q, from, true), MATCH_SEED);
    }
  }

  /** Why the re-seed is not optional: the clear alone leaves every direction pressed at once, and
      the re-seed leaves none. */
  lemma ReseedReleasesTheSticks(r: Ram)
    ensures Swept(r, MATCH_SEED, true)[JOY0] == 0x0F && Swept(r, MATCH_SEED, true)[JOY1] == 0x0F
    ensures Swept(r, MATCH_SEED, false)[JOY0] == 0 && Swept(r, MATCH_SEED, false)[JOY1] == 0
    ensures Swept(r, STOCK_SEED, false)[JOY0] == r[JOY0] && Swept(r, STOCK_SEED, false)[JOY1] == r[JOY1]
  {
  }
}
