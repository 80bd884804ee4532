/** Where control goes after an instruction, by its opcode byte alone. */
module Flow {
  import opened Bytes
  import opened DgMap
  import opened Isa
  import opened Trace
  import opened Columns

  /** RTS, RTI, BRK, JMP and JMP through a pointer. */
  const ENDS: set<byte> := {0x60, 0x40, 0x00, 0x4C, 0x6C}

  /** JSR and JMP. */
  const CALLS: set<byte> := {0x20, 0x4C}

  const TURNS: set<byte> := {0x10, 0x30, 0x50, 0x70, 0x90, 0xB0, 0xD0, 0xF0}

  /** How many bytes an instruction is, by its column and group. */
  function BytesOf(op: byte): (n: nat)
    ensures 1 <= n <= 3
  {
    var c := Column(op);
    if c == 3 || c == 7 || (c == 6 && op % 4 == 1) || op == 0x20 then 3
    else if ((c == 2 || c == 6) && op % 4 != 1) || op == 0x00 || op == 0x40 || op == 0x60 then 1
    else 2
  }

  /** What an instruction is, as the walk asks it. */
  predicate Reads(op: byte, o: Op) {
    && Length(o.mode) == BytesOf(op)
    && (Terminal(o) <==> op in ENDS)
    && (Jumps(o) <==> op in CALLS)
    && (o.mode == Rel <==> op in TURNS)
    && (Wide(o.mode) <==> BytesOf(op) == 3)
  }

  lemma Group0First(op: byte)
    requires op % 4 == 0 && op < 64
    ensures ByColumns(op).Some? ==> Reads(op, ByColumns(op).value)
  {
  }

  lemma Group0Low(op: byte)
    requires op % 4 == 0 && 64 <= op < 128
    ensures ByColumns(op).Some? ==> Reads(op, ByColumns(op).value)
  {
  }

  lemma Group0High(op: byte)
    requires op % 4 == 0 && 128 <= op < 192
    ensures ByColumns(op).Some? ==> Reads(op, ByColumns(op).value)
  {
  }

  lemma Group0Top(op: byte)
    requires op % 4 == 0 && op >= 192
    ensures ByColumns(op).Some? ==> Reads(op, ByColumns(op).value)
  {
  }

  lemma Group1Reads(op: byte)
    requires op % 4 == 1
    ensures ByColumns(op).Some? ==> Reads(op, ByColumns(op).value)
  {
  }

  lemma Group2Low(op: byte)
    requires op % 4 == 2 && op < 128
    ensures ByColumns(op).Some? ==> Reads(op, ByColumns(op).value)
  {
  }

  lemma Group2High(op: byte)
    requires op % 4 == 2 && op >= 128
    ensures ByColumns(op).Some? ==> Reads(op, ByColumns(op).value)
  {
  }

  lemma TableReads(op: byte)
    ensures Decode(op).Some? ==> Reads(op, Decode(op).value)
  {
    TableIsColumns(op);
    hide Reads, Decode;
    if op % 4 == 0 {
      if op < 64 {
        Group0First(op);
      } else if op < 128 {
        Group0Low(op);
      } else if op < 192 {
        Group0High(op);
      } else {
        Group0Top(op);
      }
    } else if op % 4 == 1 {
      Group1Reads(op);
    } else if op % 4 == 2 {
      if op < 128 {
        Group2Low(op);
      } else {
        Group2High(op);
      }
    }
  }

  // ---- edges ----------------------------------------------------------------------------

  /** What an instruction names as code: the word behind a JSR or a JMP, or the address as far from behind
      a branch as its second byte says, counted in both directions. */
  predicate Names(img: Image, a: int, b: int)
    requires InRom(a)
  {
    var op := ByteAt(img, a);
    || (op in CALLS && InRom(a + 2) && b == ByteAt(img, a + 1) + 256 * ByteAt(img, a + 2))
    || (op in TURNS && InRom(a + 1) && var off := ByteAt(img, a + 1); b == a + 2 + if off < 128 then off else off - 256)
  }

  /** Control goes from `a` to `b`: past an instruction that does not end the line, or where it names. */
  predicate Goes(img: Image, a: int, b: int)
    requires InRom(a)
  {
    (ByteAt(img, a) !in ENDS && b == a + BytesOf(ByteAt(img, a))) || Names(img, a, b)
  }

  lemma OpReads(img: Image, a: int)
    requires Decodes(img, a)
    ensures InRom(a) && Reads(ByteAt(img, a), OpAt(img, a)) && LengthAt(img, a) == BytesOf(ByteAt(img, a))
    ensures a + BytesOf(ByteAt(img, a)) <= ROM_END
  {
    TableReads(ByteAt(img, a));
    hide Decode;
  }

  lemma CallsAreLong(op: byte)
    ensures op in CALLS ==> BytesOf(op) == 3
    ensures op in TURNS ==> BytesOf(op) == 2
  {
  }

  lemma TargetsAre(img: Image, a: int, b: int)
    requires Decodes(img, a)
    ensures InRom(a) && (b in Targets(img, a) <==> Names(img, a, b))
  {
    OpReads(img, a);
    CallsAreLong(ByteAt(img, a));
    hide Decodes, Decode, OpAt, BytesOf;
  }

  /** The successors the walk follows are those. */
  lemma SuccessorsAre(img: Image, a: int, b: int)
    requires Decodes(img, a)
    ensures InRom(a) && (b in Successors(img, a) <==> Goes(img, a, b))
  {
    hide Decodes, Decode, OpAt, BytesOf, Names, Targets, LengthAt, Terminal, Jumps, Wide, Length;
    OpReads(img, a);
    TargetsAre(img, a, b);
  }

  lemma WordIs(img: Image, a: int)
    requires InRom(a) && a + 3 <= ROM_END
    ensures InRom(a + 2) && Word(img, a + 1) == ByteAt(img, a + 1) + 256 * ByteAt(img, a + 2)
  {
    hide ByteAt;
  }

  /** An operand of two bytes, and no other, is an address to be labelled. */
  lemma RefsAre(img: Image, a: int, b: int)
    requires Decodes(img, a)
    ensures InRom(a) && (b in Refs(img, a) <==>
              BytesOf(ByteAt(img, a)) == 3 && InRom(a + 2) && b == ByteAt(img, a + 1) + 256 * ByteAt(img, a + 2))
  {
    hide Decodes, Decode, OpAt, BytesOf, Terminal, Jumps, ENDS, CALLS, TURNS, Length, Wide, LengthAt, Word;
    OpReads(img, a);
    if BytesOf(ByteAt(img, a)) == 3 {
      WordIs(img, a);
    }
  }

  /** The bytes counted as code are those of the instructions and no others. */
  lemma CoveredAre(img: Image, s: set<int>, a: int)
    ensures CoveredBy(img, s, a) <==>
              exists b :: b in s && InRom(b) && Decodes(img, b) && 0 <= a - b < BytesOf(ByteAt(img, b))
  {
    hide Decodes, BytesOf;
    forall b | b in s && Decodes(img, b)
      ensures InRom(b) && LengthAt(img, b) == BytesOf(ByteAt(img, b))
    {
      OpReads(img, b);
    }
  }

  // ---- reachability ---------------------------------------------------------------------

  ghost predicate Course(img: Image, p: seq<int>) {
    p != [] && forall k :: 0 <= k < |p| - 1 ==> InRom(p[k]) && Decodes(img, p[k]) && Goes(img, p[k], p[k + 1])
  }

  ghost predicate Reaches(img: Image, entry: int, a: int) {
    exists p :: Course(img, p) && p[0] == entry && p[|p| - 1] == a
  }

  lemma PathIsCourse(img: Image, p: seq<int>)
    ensures Path(img, p) <==> Course(img, p)
  {
    hide Decodes, Goes, Successors;
    forall k | 0 <= k < |p| - 1 && Decodes(img, p[k])
      ensures InRom(p[k]) && (p[k + 1] in Successors(img, p[k]) <==> Goes(img, p[k], p[k + 1]))
    {
      SuccessorsAre(img, p[k], p[k + 1]);
    }
  }

  /** What the walk calls reachable is what control reaches by the bytes. */
  lemma ReachableByBytes(img: Image, entry: int, a: int)
    ensures Reachable(img, entry, a) <==> Reaches(img, entry, a)
  {
    if Reachable(img, entry, a) {
      var p :| Path(img, p) && p[0] == entry && p[|p| - 1] == a;
      PathIsCourse(img, p);
    }
    if Reaches(img, entry, a) {
      var p :| Course(img, p) && p[0] == entry && p[|p| - 1] == a;
      PathIsCourse(img, p);
    }
  }

  /** From an RTS, an RTI, a BRK or a JMP through a pointer nothing else is reached, whatever bytes follow. */
  lemma ReturnIsAlone(img: Image, entry: int, a: int)
    requires Decodes(img, entry) && InRom(entry) && ByteAt(img, entry) in {0x60, 0x40, 0x00, 0x6C}
    ensures Reaches(img, entry, a) <==> a == entry
  {
    hide Decodes, BytesOf;
    if Reaches(img, entry, a) {
      var p :| Course(img, p) && p[0] == entry && p[|p| - 1] == a;
      assert |p| > 1 ==> Goes(img, p[0], p[1]);
    }
    assert Course(img, [entry]);
  }
}
