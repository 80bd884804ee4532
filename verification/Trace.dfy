/** What a trace of the cartridge's code should reach: the control flow of an image, and reachability
    in it. */
module Trace {
  import opened Bytes
  import opened DgMap
  import opened Isa

  type Image = s: seq<byte> | |s| == ROM_END - ROM_BASE witness seq(2048, (_: nat) => 0 as byte)

  predicate InRom(a: int) {
    ROM_BASE <= a < ROM_END
  }

  function ByteAt(img: Image, a: int): byte
    requires InRom(a)
  {
    img[a - ROM_BASE]
  }

  function Word(img: Image, a: int): (w: int)
    requires InRom(a) && InRom(a + 1)
    ensures 0 <= w < 0x10000 && w % 256 == ByteAt(img, a) && w / 256 == ByteAt(img, a + 1)
  {
    (ByteAt(img, a) as int) + 256 * (ByteAt(img, a + 1) as int)
  }

  /** A whole official instruction lies at `a`. */
  predicate Decodes(img: Image, a: int) {
    InRom(a) && Decode(ByteAt(img, a)).Some? && a + Length(Decode(ByteAt(img, a)).value.mode) <= ROM_END
  }

  function OpAt(img: Image, a: int): Op
    requires Decodes(img, a)
  {
    Decode(ByteAt(img, a)).value
  }

  function LengthAt(img: Image, a: int): (n: nat)
    requires Decodes(img, a)
    ensures 1 <= n <= 3 && a + n <= ROM_END
  {
    Length(OpAt(img, a).mode)
  }

  /** A byte as a signed offset. */
  function Signed(b: byte): int {
    if b > 127 then b - 256 else b
  }

  function BranchTarget(img: Image, a: int): int
    requires Decodes(img, a) && OpAt(img, a).mode == Rel
  {
    a + 2 + Signed(ByteAt(img, a + 1))
  }

  predicate Jumps(o: Op) {
    (o.mnemonic == JSR || o.mnemonic == JMP) && o.mode == Abs
  }

  /** The addresses an instruction names as code. */
  function Targets(img: Image, a: int): set<int>
    requires Decodes(img, a)
  {
    if OpAt(img, a).mode == Rel then {BranchTarget(img, a)}
    else if Jumps(OpAt(img, a)) then {Word(img, a + 1)}
    else {}
  }

  predicate Wide(m: Mode) {
    m == Abs || m == Abx || m == Aby || m == Ind
  }

  /** The addresses its operand names. */
  function Refs(img: Image, a: int): set<int>
    requires Decodes(img, a)
  {
    if Wide(OpAt(img, a).mode) then {Word(img, a + 1)} else {}
  }

  /** RTS, RTI, BRK and both JMPs end a straight line. */
  predicate Terminal(o: Op) {
    o.mnemonic == RTS || o.mnemonic == RTI || o.mnemonic == BRK || o.mnemonic == JMP
  }

  function FallThrough(img: Image, a: int): set<int>
    requires Decodes(img, a)
  {
    if Terminal(OpAt(img, a)) then {} else {a + LengthAt(img, a)}
  }

  /** Where control may go from here: on, to a branch's target, to a JSR's or an absolute JMP's. */
  function Successors(img: Image, a: int): set<int>
    requires Decodes(img, a)
  {
    FallThrough(img, a) + Targets(img, a)
  }

  // ---- reachability ---------------------------------------------------------------------

  ghost predicate Path(img: Image, p: seq<int>) {
    p != [] && forall k :: 0 <= k < |p| - 1 ==> Decodes(img, p[k]) && p[k + 1] in Successors(img, p[k])
  }

  ghost predicate Reachable(img: Image, entry: int, a: int) {
    exists p :: Path(img, p) && p[0] == entry && p[|p| - 1] == a
  }

  lemma EntryIsReachable(img: Image, entry: int)
    ensures Reachable(img, entry, entry)
  {
    assert Path(img, [entry]);
  }

  lemma OneStepMore(img: Image, entry: int, a: int, b: int)
    requires Reachable(img, entry, a) && Decodes(img, a) && b in Successors(img, a)
    ensures Reachable(img, entry, b)
  {
    hide Decodes, Successors;
    var p :| Path(img, p) && p[0] == entry && p[|p| - 1] == a;
    assert Path(img, p + [b]);
  }

  /** A set of instructions that holds the entry, if it decodes, and every decodable successor of its
      own holds all that can be reached. */
  ghost predicate Closed(img: Image, s: set<int>) {
    forall a, b :: a in s && Decodes(img, a) && b in Successors(img, a) && Decodes(img, b) ==> b in s
  }

  lemma {:induction false} ClosedHoldsPath(img: Image, s: set<int>, p: seq<int>, k: nat)
    requires Closed(img, s) && Path(img, p) && k < |p| && Decodes(img, p[k])
    requires Decodes(img, p[0]) ==> p[0] in s
    ensures p[k] in s
  {
    if k > 0 {
      ClosedHoldsPath(img, s, p, k - 1);
    }
  }

  lemma ClosedHoldsReachable(img: Image, s: set<int>, entry: int, a: int)
    requires Closed(img, s) && Reachable(img, entry, a) && Decodes(img, a)
    requires Decodes(img, entry) ==> entry in s
    ensures a in s
  {
    var p :| Path(img, p) && p[0] == entry && p[|p| - 1] == a;
    ClosedHoldsPath(img, s, p, |p| - 1);
  }

  /** `a` is a byte of an instruction in `s`. */
  ghost predicate CoveredBy(img: Image, s: set<int>, a: int) {
    exists b :: b in s && Decodes(img, b) && b <= a < b + LengthAt(img, b)
  }

  /** `b` is the code an instruction in `s` names. */
  ghost predicate TargetOf(img: Image, s: set<int>, b: int) {
    exists a :: a in s && Decodes(img, a) && b in Targets(img, a)
  }

  /** `b` is what an operand of an instruction in `s` names. */
  ghost predicate RefOf(img: Image, s: set<int>, b: int) {
    exists a :: a in s && Decodes(img, a) && b in Refs(img, a)
  }

  // ---- a walk in progress ---------------------------------------------------------------

  /** What a walk keeps: everything decoded can be reached, and whatever follows from it is decoded,
      waiting, or not an instruction. */
  ghost predicate Walking(img: Image, entry: int, before: set<int>, starts: set<int>, todo: set<int>) {
    && before <= starts
    && (forall a :: a in starts ==> Decodes(img, a) && (a in before || Reachable(img, entry, a)))
    && (forall a :: a in todo ==> Reachable(img, entry, a))
    && (forall a, b :: a in starts && Decodes(img, a) && b in Successors(img, a) && Decodes(img, b) ==>
          b in starts || b in todo)
    && (Decodes(img, entry) ==> entry in starts || entry in todo)
  }

  /** No place in the cartridge has been passed where there is no instruction. */
  ghost predicate Clean(img: Image, entry: int, before: set<int>, starts: set<int>, todo: set<int>) {
    && (forall a, b :: a in starts && a !in before && Decodes(img, a) && b in Successors(img, a) && InRom(b) ==>
          Decodes(img, b) || b in todo)
    && (InRom(entry) ==> Decodes(img, entry) || entry in todo)
  }

  lemma Follow(img: Image, entry: int, before: set<int>, starts: set<int>, pc: int, rest: set<int>)
    requires Walking(img, entry, before, starts, rest + {pc}) && Decodes(img, pc)
    ensures Walking(img, entry, before, starts + {pc}, rest + Successors(img, pc))
    ensures Clean(img, entry, before, starts, rest + {pc}) ==>
              Clean(img, entry, before, starts + {pc}, rest + Successors(img, pc))
  {
    hide Decodes, Successors, Reachable;
    forall b | b in Successors(img, pc)
      ensures Reachable(img, entry, b)
    {
      OneStepMore(img, entry, pc, b);
    }
  }

  lemma Skip(img: Image, entry: int, before: set<int>, starts: set<int>, pc: int, rest: set<int>)
    requires Walking(img, entry, before, starts, rest + {pc}) && (Decodes(img, pc) ==> pc in starts)
    ensures Walking(img, entry, before, starts, rest)
    ensures Clean(img, entry, before, starts, rest + {pc}) && (Decodes(img, pc) || !InRom(pc)) ==>
              Clean(img, entry, before, starts, rest)
  {
    hide Decodes, Successors, Reachable;
  }

  /** A walk with nothing left has decoded exactly what can be reached. */
  lemma WalkIsExact(img: Image, entry: int, before: set<int>, starts: set<int>)
    requires Walking(img, entry, before, starts, {})
    ensures Closed(img, starts)
    ensures forall a :: a in starts <==> a in before || (Decodes(img, a) && Reachable(img, entry, a))
  {
    hide Decodes, Successors, Reachable;
    forall a | Decodes(img, a) && Reachable(img, entry, a)
      ensures a in starts
    {
      ClosedHoldsReachable(img, starts, entry, a);
    }
  }

  /** And one that passed nothing else has passed everything that can be reached in the cartridge. */
  lemma CleanWalkIsExact(img: Image, entry: int, starts: set<int>, a: int)
    requires Walking(img, entry, {}, starts, {}) && Clean(img, entry, {}, starts, {})
    requires Reachable(img, entry, a) && InRom(a)
    ensures Decodes(img, a)
  {
    hide Decodes, Successors;
    var p :| Path(img, p) && p[0] == entry && p[|p| - 1] == a;
    var n := |p| - 1;
    if n > 0 {
      ClosedHoldsPath(img, starts, p, n - 1);
    }
  }

  /** The two together, for a walk that has not complained so far or has. */
  ghost predicate Going(img: Image, entry: int, before: set<int>, starts: set<int>, todo: set<int>, fine: bool) {
    && Walking(img, entry, before, starts, todo)
    && (fine ==> Clean(img, entry, before, starts, todo))
    && (!fine ==> exists a :: Reachable(img, entry, a) && InRom(a) && !Decodes(img, a))
  }

  lemma GoOn(img: Image, entry: int, before: set<int>, starts: set<int>, pc: int, rest: set<int>, fine: bool)
    requires Going(img, entry, before, starts, rest + {pc}, fine) && Decodes(img, pc)
    ensures Going(img, entry, before, starts + {pc}, rest + Successors(img, pc), fine)
  {
    hide Walking, Clean, Decodes, Successors;
    Follow(img, entry, before, starts, pc, rest);
  }

  lemma GoPast(img: Image, entry: int, before: set<int>, starts: set<int>, pc: int, rest: set<int>, fine: bool)
    requires Going(img, entry, before, starts, rest + {pc}, fine) && (Decodes(img, pc) ==> pc in starts)
    ensures Going(img, entry, before, starts, rest, fine && (pc in starts || !InRom(pc)))
  {
    Skip(img, entry, before, starts, pc, rest);
    assert pc in rest + {pc};
    hide Clean, Decodes, Successors;
  }

  lemma GoEnd(img: Image, entry: int, before: set<int>, starts: set<int>, fine: bool)
    requires Going(img, entry, before, starts, {}, fine)
    ensures Closed(img, starts)
    ensures forall a :: a in starts <==> a in before || (Decodes(img, a) && Reachable(img, entry, a))
    ensures before == {} ==> (fine <==> forall a :: Reachable(img, entry, a) && InRom(a) ==> Decodes(img, a))
  {
    WalkIsExact(img, entry, before, starts);
    hide Clean, Decodes, Walking, Reachable;
    if before == {} && fine {
      forall a | Reachable(img, entry, a) && InRom(a)
        ensures Decodes(img, a)
      {
        CleanWalkIsExact(img, entry, starts, a);
      }
    }
  }

  lemma GoFirst(img: Image, entry: int, before: set<int>)
    requires Closed(img, before) && forall a :: a in before ==> Decodes(img, a)
    ensures Going(img, entry, before, before, {entry}, true)
  {
    hide Decodes, Successors;
    EntryIsReachable(img, entry);
  }
}
