/** What the printed names mean: a register by the side it is used from, a cell by the one below it, and a
    label the tool has made up by the address written in it. */
module Naming {
  import opened Bytes
  import opened DgMap
  import opened Isa
  import opened Listing
  import opened Printer
  import opened Trace
  import Dis = Disassembler

  // ---- registers and cells --------------------------------------------------------------

  /** The instruction at `pc` has one operand byte, and it is an address. */
  predicate ZeroPage(img: Image, pc: int) {
    Decodes(img, pc) && OpAt(img, pc).mode in {Zp, Zpx, Zpy, Izx, Izy}
  }

  /** The same address is one register written and another read: a store's operand takes its name from the
      registers written, every other's from the registers read, and an address that is no register on that
      side is printed as a number. */
  lemma SideMatters(p: Prog, pc: int)
    requires Shaped(p) && pc in p.starts && ZeroPage(p.img, pc) && InRom(pc + 1)
    requires ByteAt(p.img, pc + 1) < 0x80
    ensures var v, e := ByteAt(p.img, pc + 1), InstrAt(p, pc).e;
            if OpAt(p.img, pc).mnemonic in {STA, STX, STY} then
              e == if v < 45 then Sym(p.t.tiaW[v], 0) else Num(v)
            else
              e == if v < 14 then Sym(p.t.tiaR[v], 0) else Num(v)
  {
    hide Shaped, Based;
    ShapedTables(p);
  }

  lemma ShapedTables(p: Prog)
    requires Shaped(p)
    ensures |p.t.tiaW| == TIA_WRITES && |p.t.tiaR| == TIA_READS
  {
  }

  /** `e` is the nearest name at or below `v`, at most sixteen bytes before it, with the distance; or `v`
      itself, when there is none. */
  ghost predicate NearBelow(table: map<int, string>, v: int, e: Expr) {
    || (exists b: int :: v - 16 <= b <= v && b in table && e == Sym(table[b], v - b) && forall c: int :: b < c <= v ==> c !in table)
    || (e == Num(v) && forall c: int :: v - 16 <= c <= v ==> c !in table)
  }

  lemma {:induction false} NearestIs(v: int, table: map<int, string>, n: nat)
    ensures var r := Nearest(v, table, n);
            && (r.Some? ==> v - n <= r.value <= v && r.value in table && forall c: int :: r.value < c <= v ==> c !in table)
            && (r.None? ==> forall c: int :: v - n <= c <= v ==> c !in table)
    decreases n
  {
    if v !in table && n > 0 {
      NearestIs(v - 1, table, n - 1);
    }
  }

  lemma BasedIsNear(v: int, table: map<int, string>)
    ensures var b := Based(v, table); NearBelow(table, v, if b.Some? then b.value else Num(v))
  {
    NearestIs(v, table, 16);
    hide Nearest;
  }

  /** Above the registers: the nearest cell below, whichever side it is used from. */
  lemma CellBelow(p: Prog, pc: int)
    requires Shaped(p) && pc in p.starts && ZeroPage(p.img, pc) && InRom(pc + 1)
    requires ByteAt(p.img, pc + 1) >= 0x80
    ensures NearBelow(p.t.zp, ByteAt(p.img, pc + 1), InstrAt(p, pc).e)
  {
    hide Shaped, Based, Decode, ByteAt, NearBelow;
    ShapedTables(p);
    BasedIsNear(ByteAt(p.img, pc + 1), p.t.zp);
  }

  // ---- addresses ------------------------------------------------------------------------

  ghost predicate Absolute(p: Prog, pc: int, v: int) {
    && Decodes(p.img, pc) && OpAt(p.img, pc).mode in {Abs, Abx, Aby, Ind}
    && InRom(pc + 2) && v == ByteAt(p.img, pc + 1) as int + 256 * ByteAt(p.img, pc + 2) as int
  }

  /** An operand of two bytes: what the bias table says it is written from; else a console register; else
      its label; else, in the cartridge, the nearest label below; else a cell or a number, with the `>`
      that keeps it two bytes when it would fit one. */
  lemma AddressesAreNamed(p: Prog, pc: int, v: int)
    requires Shaped(p) && pc in p.starts && Absolute(p, pc, v)
    ensures var i := InstrAt(p, pc);
            if pc in p.t.bias then
              var b := p.t.bias[pc];
              b.site in p.t.dataLabels && i.e == Sym(p.t.dataLabels[b.site], b.delta) && !i.force
            else if v in p.t.riot then i.e == Sym(p.t.riot[v], 0) && !i.force
            else if v in p.labels then i.e == Sym(p.labels[v], 0) && !i.force
            else if 0xF000 <= v < 0xF800 then NearBelow(InRomOnly(p.labels), v, i.e) && !i.force
            else if 0x80 <= v < 0x100 then NearBelow(p.t.zp, v, i.e) && i.force
            else i.e == Num(v) && (i.force <==> v < 0x80)
  {
    WordOf(p.img, pc, v);
    hide Based, Decode, ByteAt, NearBelow, Word, InRomOnly;
    BasedIsNear(v, p.t.zp);
    BasedIsNear(v, InRomOnly(p.labels));
  }

  lemma WordOf(img: Image, pc: int, v: int)
    requires InRom(pc) && InRom(pc + 2) && v == ByteAt(img, pc + 1) as int + 256 * ByteAt(img, pc + 2) as int
    ensures Word(img, pc + 1) == v && 0 <= v < 0x10000
  {
  }

  /** A branch's target and a vector: the label there, or the address. */
  lemma TargetsAreNamed(p: Prog, pc: int)
    requires Shaped(p)
    ensures pc in p.starts && Decodes(p.img, pc) && OpAt(p.img, pc).mode == Rel && InRom(pc + 1) ==>
              var off := ByteAt(p.img, pc + 1);
              var tgt: int := pc + 2 + if off < 128 then off else off - 256;
              InstrAt(p, pc).e == if tgt in p.labels then Sym(p.labels[tgt], 0) else Num(tgt)
    ensures InRom(pc) && InRom(pc + 1) ==>
              var w := ByteAt(p.img, pc) as int + 256 * ByteAt(p.img, pc + 1) as int;
              VectorAt(p, pc) == Words(if w in p.labels then Sym(p.labels[w], 0) else Num(w))
  {
    hide Shaped, Decode;
  }

  // ---- labels made up -------------------------------------------------------------------

  function HexValue(c: char): int {
    if '0' <= c <= '9' then c as int - '0' as int else c as int - 'A' as int + 10
  }

  lemma FourDigits(a: int)
    requires 0 <= a < 0x10000
    ensures a == 4096 * (a / 4096 % 16) + 256 * (a / 256 % 16) + 16 * (a / 16 % 16) + a % 16
  {
    assert a / 16 == 16 * (a / 256) + a / 16 % 16;
    assert a / 256 == 16 * (a / 4096) + a / 256 % 16;
  }

  lemma DigitReads(d: int)
    requires HexDigit(d)
    ensures HexValue(Hex(d)) == d
  {
  }

  /** Four hexadecimal digits and the address they write. */
  lemma HexReads(a: int)
    requires 0 <= a < 0x10000
    ensures var s := Hex4(a);
            |s| == 4 && a == 4096 * HexValue(s[0]) + 256 * HexValue(s[1]) + 16 * HexValue(s[2]) + HexValue(s[3])
  {
    hide Hex, HexValue;
    DigitReads(a / 4096 % 16);
    DigitReads(a / 256 % 16);
    DigitReads(a / 16 % 16);
    DigitReads(a % 16);
    FourDigits(a);
  }

  predicate InCode(t: Tables, a: int) {
    exists k :: 0 <= k < |t.regions| && t.regions[k].lo <= a < t.regions[k].hi && t.regions[k].code
  }

  /** Which address without a name of its own gets one, and what it is: any that a branch, a JSR or a JMP
      names, and any in the cartridge that another operand names, unless it is inside an instruction or is
      code that none begins at; `L_` for what is jumped to or lies in code, `D_` for the rest, and the
      address. */
  lemma LabelsTell(t: Tables, starts: set<int>, covered: set<int>, targets: set<int>, refs: set<int>, a: int)
    requires 0 <= a < 0x10000 && a !in t.symbols && a !in t.dataLabels
    ensures var l := Dis.LabelAt(t, starts, covered, targets, refs, a);
            && (l.Some? <==> a in targets || (a in refs && 0xF000 <= a < 0xF800
                                              && (a in starts || (a !in covered && !InCode(t, a)))))
            && (l.Some? ==>
                  && |l.value| == 6 && l.value[1] == '_'
                  && (l.value[0] == if a in targets || InCode(t, a) then 'L' else 'D')
                  && a == 4096 * HexValue(l.value[2]) + 256 * HexValue(l.value[3])
                          + 16 * HexValue(l.value[4]) + HexValue(l.value[5]))
  {
    assert InCode(t, a) <==> IsCode(t.regions, a) by {
      assert forall k :: 0 <= k < |t.regions| ==>
        (Holds(t.regions[k], a) <==> t.regions[k].lo <= a < t.regions[k].hi);
    }
    HexReads(a);
    hide Hex4, HexValue, IsCode, InCode;
  }
}
