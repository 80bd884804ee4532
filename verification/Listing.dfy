/** Assembler source as statements, and what an assembler that chooses the short form of an address
    whenever it may makes of them. */
module Listing {
  import opened Bytes
  import opened Isa

  /** A number, or a name with an offset. */
  datatype Expr = Num(v: int) | Sym(name: string, off: int)

  /** How an operand is written; a plain address or a branch target look the same. */
  datatype Shape = Implied | Accum | Immediate | Plain | CommaX | CommaY | IndX | IndY | Paren

  datatype Item =
    | Label(name: string)
    | Data(bytes: seq<byte>)
    | Words(e: Expr)
    | Instr(m: Mnemonic, shape: Shape, e: Expr, force: bool)   // `>` in front of the operand

  /** Names are case-insensitive: the table is by upper case. */
  type Env = map<string, int>

  function UpperChar(c: char): char {
    if 'a' <= c <= 'z' then (c as int - 32) as char else c
  }

  function Upper(s: string): string {
    seq(|s|, k requires 0 <= k < |s| => UpperChar(s[k]))
  }

  function ShapeOf(m: Mode): Shape {
    match m
    case Imp => Implied
    case Acc => Accum
    case Imm => Immediate
    case Zp | Rel | Abs => Plain
    case Zpx | Abx => CommaX
    case Zpy | Aby => CommaY
    case Izx => IndX
    case Izy => IndY
    case Ind => Paren
  }

  function Value(e: Expr, env: Env): Option<int> {
    match e
    case Num(v) => Some(v)
    case Sym(n, off) => if Upper(n) in env then Some(env[Upper(n)] + off) else None
  }

  /** Whether an operand is known to fit the zero page; a name not known yet does not. */
  predicate Short(e: Expr, force: bool, env: Env) {
    !force && Value(e, env).Some? && 0 <= Value(e, env).value < 256
  }

  function Narrow(m: Mnemonic, short: bool, zp: Mode, abs: Mode): Mode {
    if short && Encode(m, zp).Some? then zp else abs
  }

  /** The mode the assembler picks. */
  function Pick(m: Mnemonic, shape: Shape, short: bool): Mode {
    match shape
    case Implied => Imp
    case Accum => Acc
    case Immediate => Imm
    case IndX => Izx
    case IndY => Izy
    case Paren => Ind
    case Plain => if IsBranch(m) then Rel else Narrow(m, short, Zp, Abs)
    case CommaX => Narrow(m, short, Zpx, Abx)
    case CommaY => Narrow(m, short, Zpy, Aby)
  }

  function ModeOf(i: Item, env: Env): Mode
    requires i.Instr?
  {
    Pick(i.m, i.shape, Short(i.e, i.force, env))
  }

  // ---- first pass: how long everything is -----------------------------------------------

  function Size(i: Item, env: Env): nat {
    match i
    case Label(_) => 0
    case Data(bytes) => |bytes|
    case Words(_) => 2
    case Instr(_, _, _, _) => Length(ModeOf(i, env))
  }

  function SizeAll(items: seq<Item>, env: Env): nat {
    if items == [] then 0 else SizeAll(items[..|items| - 1], env) + Size(items[|items| - 1], env)
  }

  // ---- second pass: bytes ---------------------------------------------------------------

  /** The operand bytes of an instruction at `loc`. */
  function Operand(mode: Mode, v: int, loc: int): Option<seq<byte>> {
    match mode
    case Imp | Acc => Some([])
    case Rel => if -128 <= v - (loc + 2) < 128 then Some([(v - (loc + 2)) % 256]) else None
    case Abs | Abx | Aby | Ind => if 0 <= v < 0x10000 then Some([v % 256, v / 256]) else None
    case _ => if 0 <= v < 256 then Some([v]) else None
  }

  function Emitted(i: Item, loc: int, env: Env): Option<seq<byte>> {
    match i
    case Label(_) => Some([])
    case Data(bytes) => Some(bytes)
    case Words(e) =>
      var v := Value(e, env);
      if v.Some? && 0 <= v.value < 0x10000 then Some([v.value % 256, v.value / 256]) else None
    case Instr(m, _, e, _) =>
      var v, op := Value(e, env), Encode(m, ModeOf(i, env));
      if v.None? || op.None? then None else
        var tail := Operand(ModeOf(i, env), v.value, loc);
        if tail.None? then None else Some([op.value] + tail.value)
  }

  function Assemble(items: seq<Item>, org: int, env: Env): Option<seq<byte>> {
    if items == [] then Some([]) else
      var n := |items| - 1;
      var before := Assemble(items[..n], org, env);
      var last := Emitted(items[n], org + SizeAll(items[..n], env), env);
      if before.None? || last.None? then None else Some(before.value + last.value)
  }

  /** What comes out is as long as the first pass said. */
  lemma EmittedSize(i: Item, loc: int, env: Env)
    ensures Emitted(i, loc, env).Some? ==> |Emitted(i, loc, env).value| == Size(i, env)
  {
  }

  lemma {:induction false} AssembledSize(items: seq<Item>, org: int, env: Env)
    ensures Assemble(items, org, env).Some? ==> |Assemble(items, org, env).value| == SizeAll(items, env)
  {
    hide Emitted, Size;
    if items != [] {
      AssembledSize(items[..|items| - 1], org, env);
      EmittedSize(items[|items| - 1], org + SizeAll(items[..|items| - 1], env), env);
    }
  }

  lemma {:induction false} SizeInTwo(a: seq<Item>, b: seq<Item>, env: Env)
    ensures SizeAll(a + b, env) == SizeAll(a, env) + SizeAll(b, env)
    decreases |b|
  {
    hide Size;
    if b == [] {
      assert a + b == a;
    } else {
      SizeInTwo(a, b[..|b| - 1], env);
      assert (a + b)[..|a + b| - 1] == a + b[..|b| - 1];
    }
  }

  /** Two stretches of a listing assemble one after the other. */
  lemma {:induction false} AssembleInTwo(a: seq<Item>, b: seq<Item>, org: int, env: Env)
    ensures var p, q := Assemble(a, org, env), Assemble(b, org + SizeAll(a, env), env);
            Assemble(a + b, org, env) == if p.None? || q.None? then None else Some(p.value + q.value)
    decreases |b|
  {
    hide Emitted, Size;
    if b == [] {
      assert a + b == a;
      assert Assemble(a, org, env).Some? ==> Assemble(a, org, env).value + [] == Assemble(a, org, env).value;
    } else {
      var n := |b| - 1;
      AssembleInTwo(a, b[..n], org, env);
      SizeInTwo(a, b[..n], env);
      assert (a + b)[..|a + b| - 1] == a + b[..n];
      var p, q := Assemble(a, org, env), Assemble(b[..n], org + SizeAll(a, env), env);
      var last := Emitted(b[n], org + SizeAll(a, env) + SizeAll(b[..n], env), env);
      if p.Some? && q.Some? && last.Some? {
        assert p.value + (q.value + last.value) == (p.value + q.value) + last.value;
      }
    }
  }

  // ---- the symbol table -----------------------------------------------------------------

  function Uses(i: Item): set<string> {
    match i
    case Words(e) => if e.Sym? then {Upper(e.name)} else {}
    case Instr(_, _, e, _) => if e.Sym? then {Upper(e.name)} else {}
    case _ => {}
  }

  /** Every name the listing uses is in the table. */
  predicate Defined(items: seq<Item>, env: Env) {
    forall k :: 0 <= k < |items| ==> Uses(items[k]) <= env.Keys
  }

  /** The table the two passes settle on: the equates as they are, and every label where the first pass
      puts it. */
  ghost predicate Settled(items: seq<Item>, org: int, equates: Env, env: Env) {
    && (forall n :: n in equates ==> n in env && env[n] == equates[n])
    && (forall k :: 0 <= k < |items| && items[k].Label? ==>
          Upper(items[k].name) in env && env[Upper(items[k].name)] == org + SizeAll(items[..k], env))
    && (forall n :: n in env ==> n in equates || exists k :: 0 <= k < |items| && items[k].Label? && Upper(items[k].name) == n)
  }

  /** A name nobody defines stops the assembly. */
  lemma {:induction false} UndefinedStops(items: seq<Item>, org: int, env: Env)
    ensures Assemble(items, org, env).Some? ==> Defined(items, env)
  {
    if items != [] {
      var n := |items| - 1;
      UndefinedStops(items[..n], org, env);
      if Assemble(items, org, env).Some? {
        assert Emitted(items[n], org + SizeAll(items[..n], env), env).Some?;
        forall k | 0 <= k < |items|
          ensures Uses(items[k]) <= env.Keys
        {
          if k < n {
            assert items[k] == items[..n][k];
          }
        }
      }
    }
  }
}
