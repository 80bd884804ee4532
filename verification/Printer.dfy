/** The printed source of a traced image, and why assembling it gives the image back. */
module Printer {
  import opened Bytes
  import opened DgMap
  import opened Isa
  import opened Listing
  import opened Trace

  // ---- the tables -----------------------------------------------------------------------

  /** An operand that points outside the table it reads: the data label it is written from, and the
      signed distance. */
  datatype Bias = Bias(site: int, delta: int)

  /** The names. `equates` is what the assembler knows before the first label: the console's registers
      from `vcs.inc` and the zero page. */
  datatype Tables = Tables(
    regions: seq<Region>, zp: map<int, string>, tiaW: seq<string>, tiaR: seq<string>, riot: map<int, string>,
    symbols: map<int, string>, dataLabels: map<int, string>, bias: map<int, Bias>, equates: Env)

  const TIA_WRITES := 0x2D
  const TIA_READS := 0x0E

  predicate HexDigit(d: int) {
    0 <= d < 16
  }

  function Hex(d: int): char
    requires HexDigit(d)
  {
    if d < 10 then (d + 48) as char else (d + 55) as char
  }

  function Hex4(a: int): string {
    [Hex(a / 4096 % 16), Hex(a / 256 % 16), Hex(a / 16 % 16), Hex(a % 16)]
  }

  /** A register's name, in the tables of the console. */
  ghost predicate RegisterName(t: Tables, n: string) {
    || (exists i :: 0 <= i < |t.tiaW| && Upper(t.tiaW[i]) == n)
    || (exists i :: 0 <= i < |t.tiaR| && Upper(t.tiaR[i]) == n)
    || (exists a :: a in t.riot && Upper(t.riot[a]) == n)
  }

  ghost predicate CellName(t: Tables, n: string) {
    exists a :: a in t.zp && Upper(t.zp[a]) == n
  }

  ghost predicate Equated(equates: Env, name: string, v: int) {
    Upper(name) in equates && equates[Upper(name)] == v
  }

  /** What the tables are: registers and cells equated to their addresses and nothing else equated, cells
      in the zero page under no generated name, RIOT registers above it, labels in the cartridge. */
  ghost predicate WellFormed(t: Tables) {
    && Tiles(t.regions, ROM_BASE, ROM_END)
    && |t.tiaW| == TIA_WRITES && |t.tiaR| == TIA_READS
    && (forall i :: 0 <= i < TIA_WRITES ==> Equated(t.equates, t.tiaW[i], i))
    && (forall i :: 0 <= i < TIA_READS ==> Equated(t.equates, t.tiaR[i], i))
    && (forall a :: a in t.riot ==> 0x100 <= a < 0x10000 && Equated(t.equates, t.riot[a], a))
    && (forall a :: a in t.zp ==> 0x80 <= a < 0x100 && Equated(t.equates, t.zp[a], a) && Upper(t.zp[a]) != Upper("L_" + Hex4(a)))
    && (forall n :: n in t.equates ==> RegisterName(t, n) || CellName(t, n))
    && (forall a :: a in t.symbols || a in t.dataLabels ==> InRom(a))
    && (forall pc :: pc in t.bias ==> t.bias[pc].site in t.dataLabels && -0x1000 <= t.bias[pc].delta <= 0x1000)
  }

  /** A traced image and its labels. */
  datatype Prog = Prog(t: Tables, img: Image, starts: set<int>, labels: map<int, string>)

  /** The name check: no label or cell is called what a register is, and no two addresses share a name. */
  ghost predicate NoCollision(t: Tables, labels: map<int, string>) {
    && (forall a :: a in labels ==> !RegisterName(t, Upper(labels[a])))
    && (forall a :: a in t.zp ==> !RegisterName(t, Upper(t.zp[a])))
    && (forall a, b :: a in labels && b in labels && Upper(labels[a]) == Upper(labels[b]) ==> a == b)
    && (forall a, b :: a in labels && b in t.zp && Upper(labels[a]) == Upper(t.zp[b]) ==> a == b)
    && (forall a, b :: a in t.zp && b in t.zp && Upper(t.zp[a]) == Upper(t.zp[b]) ==> a == b)
  }

  /** What a run leaves: decoded starts, and labels in the cartridge or generated for a target outside. */
  ghost predicate Shaped(p: Prog) {
    && WellFormed(p.t)
    && (forall a :: a in p.starts ==> Decodes(p.img, a))
    && (forall a :: a in p.labels ==> InRom(a) || p.labels[a] == "L_" + Hex4(a))
    && (forall a :: a in p.t.dataLabels ==> a in p.labels && p.labels[a] == p.t.dataLabels[a])
  }

  // ---- operands -------------------------------------------------------------------------

  /** The greatest key from `addr` down to `n` below. */
  function Nearest(addr: int, table: map<int, string>, n: nat): (r: Option<int>)
    ensures r.Some? ==> addr - n <= r.value <= addr && r.value in table
    decreases n
  {
    if addr in table then Some(addr) else if n == 0 then None else Nearest(addr - 1, table, n - 1)
  }

  /** `NAME` or `NAME+n`, up to sixteen past the name. */
  function Based(addr: int, table: map<int, string>): (r: Option<Expr>) {
    var b := Nearest(addr, table, 16);
    if b.None? then None else Some(Sym(table[b.value], addr - b.value))
  }

  function InRomOnly(labels: map<int, string>): map<int, string> {
    map a | a in labels && InRom(a) :: labels[a]
  }

  /** A zero page operand: a register written or read, a cell, or a number. */
  function ZpName(t: Tables, v: byte, m: Mnemonic): Expr
    requires |t.tiaW| == TIA_WRITES && |t.tiaR| == TIA_READS
  {
    if v < TIA_WRITES && IsStore(m) then Sym(t.tiaW[v], 0)
    else if v < TIA_READS && !IsStore(m) then Sym(t.tiaR[v], 0)
    else if v >= 0x80 && Based(v, t.zp).Some? then Based(v, t.zp).value
    else Num(v)
  }

  /** An absolute operand, and whether it needs `>` to stay absolute. */
  function AbsName(p: Prog, pc: int, v: int, m: Mnemonic): (Expr, bool)
    requires Shaped(p) && 0 <= v < 0x10000
  {
    if pc in p.t.bias then (Sym(p.t.dataLabels[p.t.bias[pc].site], p.t.bias[pc].delta), false)
    else if v in p.t.riot then (Sym(p.t.riot[v], 0), false)
    else if v in p.labels then (Sym(p.labels[v], 0), false)
    else if InRom(v) && Based(v, InRomOnly(p.labels)).Some? then (Based(v, InRomOnly(p.labels)).value, false)
    else if v < 0x100 then (if v >= 0x80 then ZpName(p.t, v, m) else Num(v), true)
    else (Num(v), false)
  }

  function OperandOf(p: Prog, pc: int): (Expr, bool)
    requires Shaped(p) && pc in p.starts
  {
    var o := OpAt(p.img, pc);
    match o.mode
    case Imp | Acc => (Num(0), false)
    case Imm => (Num(ByteAt(p.img, pc + 1)), false)
    case Rel =>
      var tgt := BranchTarget(p.img, pc);
      (if tgt in p.labels then Sym(p.labels[tgt], 0) else Num(tgt), false)
    case Abs | Abx | Aby | Ind => AbsName(p, pc, Word(p.img, pc + 1), o.mnemonic)
    case _ => (ZpName(p.t, ByteAt(p.img, pc + 1), o.mnemonic), false)
  }

  /** The value an instruction's operand stands for. */
  function ValueAt(img: Image, pc: int): int
    requires Decodes(img, pc)
  {
    var m := OpAt(img, pc).mode;
    if m == Imp || m == Acc then 0
    else if m == Rel then BranchTarget(img, pc)
    else if Wide(m) then Word(img, pc + 1)
    else ByteAt(img, pc + 1)
  }

  // ---- emission -------------------------------------------------------------------------

  function LabelItem(p: Prog, pc: int): seq<Item> {
    if pc in p.labels then [Label(p.labels[pc])] else []
  }

  function InstrAt(p: Prog, pc: int): Item
    requires Shaped(p) && pc in p.starts
  {
    var o, e := OpAt(p.img, pc), OperandOf(p, pc);
    Instr(o.mnemonic, ShapeOf(o.mode), e.0, e.1)
  }

  function EmitCode(p: Prog, pc: int, hi: int): seq<Item>
    requires Shaped(p) && ROM_BASE <= pc && hi <= ROM_END
    decreases hi - pc
  {
    if pc >= hi then []
    else if pc in p.starts then LabelItem(p, pc) + [InstrAt(p, pc)] + EmitCode(p, pc + LengthAt(p.img, pc), hi)
    else LabelItem(p, pc) + [Data([ByteAt(p.img, pc)])] + EmitCode(p, pc + 1, hi)
  }

  /** Where the code emitter stops: past the region's end when its last instruction crosses it. */
  function CodeEnd(p: Prog, pc: int, hi: int): (z: int)
    requires Shaped(p) && ROM_BASE <= pc && hi <= ROM_END
    ensures pc <= z && hi <= z
    decreases hi - pc
  {
    if pc >= hi then pc else CodeEnd(p, pc + if pc in p.starts then LengthAt(p.img, pc) else 1, hi)
  }

  /** Whether the code emitter prints an instruction at `q`. */
  predicate Visits(p: Prog, pc: int, hi: int, q: int)
    requires Shaped(p) && ROM_BASE <= pc && hi <= ROM_END
    decreases hi - pc
  {
    pc < hi && ((pc == q && q in p.starts) || Visits(p, pc + if pc in p.starts then LengthAt(p.img, pc) else 1, hi, q))
  }

  /** A biased operand that comes out right. The printer looks at the two bytes after an instruction
      that has no operand as well. */
  predicate Biased(p: Prog, pc: int) {
    pc in p.t.bias && Decodes(p.img, pc) && LengthAt(p.img, pc) != 2 ==>
      InRom(pc + 2) && Word(p.img, pc + 1) == p.t.bias[pc].site + p.t.bias[pc].delta
  }

  function Flush(row: seq<byte>): seq<Item> {
    if row == [] then [] else [Data(row)]
  }

  predicate AreVectors(r: Region) {
    r.lo == VECTORS && r.hi == ROM_END
  }

  function VectorAt(p: Prog, pc: int): Item
    requires InRom(pc) && InRom(pc + 1)
  {
    var w := Word(p.img, pc);
    Words(if w in p.labels then Sym(p.labels[w], 0) else Num(w))
  }

  /** Rows of eight, broken at every label; the vectors as words. */
  function EmitData(p: Prog, r: Region, pc: int, row: seq<byte>): seq<Item>
    requires ROM_BASE <= pc <= r.hi <= ROM_END && (AreVectors(r) ==> (r.hi - pc) % 2 == 0)
    decreases r.hi - pc
  {
    if pc == r.hi then Flush(row) else
      var cut := pc in p.labels;
      var rest := if cut then [] else row;
      (if cut then Flush(row) else []) + LabelItem(p, pc) +
      if AreVectors(r) then [VectorAt(p, pc)] + EmitData(p, r, pc + 2, rest)
      else if |rest| == 7 then [Data(rest + [ByteAt(p.img, pc)])] + EmitData(p, r, pc + 1, [])
      else EmitData(p, r, pc + 1, rest + [ByteAt(p.img, pc)])
  }

  /** A row broken at a label, the label, one item or none, and what follows. */
  function Broken(p: Prog, pc: int, row: seq<byte>): seq<Item> {
    (if pc in p.labels then Flush(row) else []) + LabelItem(p, pc)
  }

  function Kept(p: Prog, pc: int, row: seq<byte>): (r: seq<byte>) {
    if pc in p.labels then [] else row
  }

  /** How the data emitter goes on after a row is broken or kept. */
  function DataTail(p: Prog, r: Region, pc: int, rest: seq<byte>): seq<Item>
    requires ROM_BASE <= pc < r.hi <= ROM_END && (AreVectors(r) ==> (r.hi - pc) % 2 == 0)
  {
    if AreVectors(r) then [VectorAt(p, pc)] + EmitData(p, r, pc + 2, rest)
    else if |rest| == 7 then [Data(rest + [ByteAt(p.img, pc)])] + EmitData(p, r, pc + 1, [])
    else EmitData(p, r, pc + 1, rest + [ByteAt(p.img, pc)])
  }

  lemma EmitDataStep(p: Prog, r: Region, pc: int, row: seq<byte>)
    requires ROM_BASE <= pc < r.hi <= ROM_END && (AreVectors(r) ==> (r.hi - pc) % 2 == 0)
    ensures EmitData(p, r, pc, row) == Broken(p, pc, row) + DataTail(p, r, pc, Kept(p, pc, row))
  {
  }

  lemma EmitDataEnd(p: Prog, r: Region, row: seq<byte>)
    requires ROM_BASE <= r.hi <= ROM_END
    ensures EmitData(p, r, r.hi, row) == Flush(row)
  {
  }

  function EmitRegion(p: Prog, r: Region): seq<Item>
    requires Shaped(p) && ROM_BASE <= r.lo <= r.hi <= ROM_END
  {
    if r.code then EmitCode(p, r.lo, r.hi) else EmitData(p, r, r.lo, [])
  }

  function EmitAll(p: Prog, rs: seq<Region>): seq<Item>
    requires Shaped(p) && forall k :: 0 <= k < |rs| ==> ROM_BASE <= rs[k].lo <= rs[k].hi <= ROM_END
  {
    if rs == [] then [] else EmitRegion(p, rs[0]) + EmitAll(p, rs[1..])
  }

  lemma RegionsLie(p: Prog)
    requires Shaped(p)
    ensures forall k :: 0 <= k < |p.t.regions| ==> ROM_BASE <= p.t.regions[k].lo <= p.t.regions[k].hi <= ROM_END
  {
    TilesGrow(p.t.regions, ROM_BASE, ROM_END);
  }

  /** The whole source. */
  function Source(p: Prog): seq<Item>
    requires Shaped(p)
  {
    RegionsLie(p);
    EmitAll(p, p.t.regions)
  }

  /** Every biased operand that is printed comes out right. */
  ghost predicate BiasesHold(p: Prog, rs: seq<Region>)
    requires Shaped(p) && forall k :: 0 <= k < |rs| ==> ROM_BASE <= rs[k].lo <= rs[k].hi <= ROM_END
  {
    forall k, q :: 0 <= k < |rs| && rs[k].code && Visits(p, rs[k].lo, rs[k].hi, q) ==> Biased(p, q)
  }

  ghost predicate AllBiasesHold(p: Prog)
    requires Shaped(p)
  {
    RegionsLie(p);
    BiasesHold(p, p.t.regions)
  }

  /** What a run that reported no problem leaves. */
  ghost predicate Sound(p: Prog)
    ensures Sound(p) ==> Shaped(p)
  {
    Shaped(p) && NoCollision(p.t, p.labels) && AllBiasesHold(p)
  }
}
