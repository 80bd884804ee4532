/** The map of the cartridge: where it is, and how it divides into code and data. */
module DgMap {

  const ROM_BASE := 0xF000
  const ROM_END := 0xF800      // exclusive
  const VECTORS := 0xF7FA

  datatype Region = Region(lo: int, hi: int, code: bool)

  const REGIONS: seq<Region> := [
    Region(0xF000, 0xF016, true), Region(0xF016, 0xF051, true), Region(0xF051, 0xF209, true),
    Region(0xF209, 0xF226, true), Region(0xF226, 0xF285, true), Region(0xF285, 0xF28A, true),
    Region(0xF28A, 0xF2C8, true), Region(0xF2C8, 0xF31E, true), Region(0xF31E, 0xF4E5, true),
    Region(0xF4E5, 0xF52D, true), Region(0xF52D, 0xF53B, true), Region(0xF53B, 0xF56A, true),
    Region(0xF56A, 0xF6C8, false), Region(0xF6C8, 0xF6CA, false), Region(0xF6CA, 0xF6D3, false),
    Region(0xF6D3, 0xF6F6, true), Region(0xF6F6, 0xF700, false), Region(0xF700, 0xF7C4, false),
    Region(0xF7C4, 0xF7D0, false), Region(0xF7D0, 0xF7FA, true), Region(0xF7FA, 0xF800, false)]

  predicate Holds(r: Region, a: int) {
    r.lo <= a < r.hi
  }

  /** The regions lie end to end from `lo` to `hi`, none of them backwards. */
  predicate Tiles(rs: seq<Region>, lo: int, hi: int) {
    if rs == [] then lo == hi else rs[0].lo == lo && lo <= rs[0].hi && Tiles(rs[1..], rs[0].hi, hi)
  }

  /** What the check looks at: each region begins where the last one ended. */
  predicate Meets(rs: seq<Region>, lo: int, hi: int) {
    if rs == [] then lo == hi else rs[0].lo == lo && Meets(rs[1..], rs[0].hi, hi)
  }

  /** That is a tiling exactly when no region is backwards. */
  lemma {:induction false} MeetingIsTiling(rs: seq<Region>, lo: int, hi: int)
    ensures Tiles(rs, lo, hi) <==> Meets(rs, lo, hi) && forall k :: 0 <= k < |rs| ==> rs[k].lo <= rs[k].hi
    decreases |rs|
  {
    if rs != [] {
      MeetingIsTiling(rs[1..], rs[0].hi, hi);
      assert forall k :: 0 < k < |rs| ==> rs[k] == rs[1..][k - 1];
      assert forall k :: 0 <= k < |rs[1..]| ==> rs[1..][k] == rs[k + 1];
    }
  }

  lemma {:induction false} TilesGrow(rs: seq<Region>, lo: int, hi: int)
    requires Tiles(rs, lo, hi)
    ensures lo <= hi
    ensures forall k :: 0 <= k < |rs| ==> lo <= rs[k].lo <= rs[k].hi <= hi
    decreases |rs|
  {
    if rs != [] {
      TilesGrow(rs[1..], rs[0].hi, hi);
      forall k | 0 <= k < |rs|
        ensures lo <= rs[k].lo <= rs[k].hi <= hi
      {
        assert k > 0 ==> rs[k] == rs[1..][k - 1];
      }
    }
  }

  /** A tiling has no gap and no overlap: each address is in exactly one region. */
  lemma {:induction false} TilingIsExact(rs: seq<Region>, lo: int, hi: int, a: int)
    requires Tiles(rs, lo, hi)
    ensures lo <= a < hi <==> exists k :: 0 <= k < |rs| && Holds(rs[k], a)
    ensures forall j, k :: 0 <= j < |rs| && 0 <= k < |rs| && Holds(rs[j], a) && Holds(rs[k], a) ==> j == k
    decreases |rs|
  {
    TilesGrow(rs, lo, hi);
    if rs != [] {
      TilingIsExact(rs[1..], rs[0].hi, hi, a);
      TilesGrow(rs[1..], rs[0].hi, hi);
      assert forall k :: 0 < k < |rs| ==> rs[k] == rs[1..][k - 1];
      if lo <= a < hi {
        if a < rs[0].hi {
          assert Holds(rs[0], a);
        } else {
          var k :| 0 <= k < |rs[1..]| && Holds(rs[1..][k], a);
          assert Holds(rs[k + 1], a);
        }
      }
    }
  }

  /** `check_totals`: one pass over the table, stopping at the first region that does not begin where
      the last one ended. For a table with no backwards region the answer is whether they tile the
      cartridge. */
  method CheckTotals(rs: seq<Region>) returns (ok: bool)
    ensures ok <==> Meets(rs, ROM_BASE, ROM_END)
    ensures (forall k :: 0 <= k < |rs| ==> rs[k].lo <= rs[k].hi) ==> (ok <==> Tiles(rs, ROM_BASE, ROM_END))
  {
    MeetingIsTiling(rs, ROM_BASE, ROM_END);
    var want := ROM_BASE;
    var i := 0;
    while i < |rs|
      invariant i <= |rs|
      invariant Meets(rs, ROM_BASE, ROM_END) <==> Meets(rs[i..], want, ROM_END)
    {
      if rs[i].lo != want {
        return false;
      }
      want := rs[i].hi;
      assert rs[i..][1..] == rs[i + 1..];
      i := i + 1;
    }
    ok := want == ROM_END;
  }

  predicate EndToEnd(rs: seq<Region>) {
    && (forall k :: 0 <= k < |rs| ==> rs[k].lo <= rs[k].hi)
    && (forall k :: 0 < k < |rs| ==> rs[k].lo == rs[k - 1].hi)
  }

  lemma {:induction false} EndToEndTiles(rs: seq<Region>, n: nat)
    requires EndToEnd(rs) && 0 < n <= |rs|
    ensures Tiles(rs[|rs| - n..], rs[|rs| - n].lo, rs[|rs| - 1].hi)
  {
    assert rs[|rs| - n..][1..] == rs[|rs| - n + 1..];
    if n > 1 {
      EndToEndTiles(rs, n - 1);
    }
  }

  lemma TheMapIsEndToEnd()
    ensures EndToEnd(REGIONS)
    ensures |REGIONS| == 21 && REGIONS[0].lo == ROM_BASE && REGIONS[20].hi == ROM_END
  {
  }

  /** The cartridge's own table passes. */
  lemma TheMapTiles()
    ensures Tiles(REGIONS, ROM_BASE, ROM_END)
  {
    hide REGIONS, Tiles, EndToEnd;
    TheMapIsEndToEnd();
    EndToEndTiles(REGIONS, |REGIONS|);
    assert REGIONS[0..] == REGIONS;
  }

  /** The kind of the region an address is in. */
  predicate IsCode(rs: seq<Region>, a: int) {
    exists k :: 0 <= k < |rs| && Holds(rs[k], a) && rs[k].code
  }
}
