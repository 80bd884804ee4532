/** Print, then assemble: the image comes back. */
module PrintRoundTrip {
  import opened Bytes
  import opened DgMap
  import opened Isa
  import opened Listing
  import opened Trace
  import opened Printer

  /** The equates are in the table. */
  ghost predicate Knows(p: Prog, env: Env) {
    forall n :: n in p.t.equates ==> n in env && env[n] == p.t.equates[n]
  }

  /** Whatever a label stands for, it is not in the zero page. */
  ghost predicate Apart(p: Prog, env: Env) {
    forall a :: a in p.labels && Upper(p.labels[a]) in env ==> env[Upper(p.labels[a])] >= ROM_BASE
  }

  /** Every label stands for its address. */
  ghost predicate Right(p: Prog, env: Env) {
    forall a :: a in p.labels && Upper(p.labels[a]) in env ==> env[Upper(p.labels[a])] == a
  }

  // ---- sizes ----------------------------------------------------------------------------

  lemma ZpValue(p: Prog, v: byte, m: Mnemonic, env: Env)
    requires Sound(p) && Knows(p, env)
    ensures Value(ZpName(p.t, v, m), env) == Some(v as int)
  {
    hide Upper, Nearest, NoCollision, CellName, RegisterName;
    if v < TIA_WRITES && IsStore(m) {
      assert Equated(p.t.equates, p.t.tiaW[v], v);
    } else if v < TIA_READS && !IsStore(m) {
      assert Equated(p.t.equates, p.t.tiaR[v], v);
    } else if v >= 0x80 {
      var b := Nearest(v, p.t.zp, 16);
      if b.Some? {
        assert Equated(p.t.equates, p.t.zp[b.value], b.value);
      }
    }
  }

  lemma AbsIsLong(p: Prog, pc: int, v: int, m: Mnemonic, env: Env)
    requires Sound(p) && Knows(p, env) && Apart(p, env) && 0 <= v < 0x10000
    ensures var e := AbsName(p, pc, v, m); !Short(e.0, e.1, env)
  {
    hide Upper, Nearest, NoCollision, CellName, RegisterName, ZpName;
    if pc in p.t.bias {
      assert p.t.bias[pc].site in p.labels;
    } else if v in p.t.riot {
      assert Equated(p.t.equates, p.t.riot[v], v);
    }
  }

  lemma ModeIsBack(p: Prog, pc: int, env: Env)
    requires Sound(p) && Knows(p, env) && Apart(p, env) && pc in p.starts
    ensures ModeOf(InstrAt(p, pc), env) == OpAt(p.img, pc).mode
  {
    hide Decode, Encode, Sound, Knows, Apart, ZpName, AbsName, Value, IsBranch;
    SoundStart(p, pc);
    var o := OpAt(p.img, pc);
    DecodeEncode(ByteAt(p.img, pc));
    if Wide(o.mode) {
      AbsIsLong(p, pc, Word(p.img, pc + 1), o.mnemonic, env);
    } else if o.mode in {Zp, Zpx, Zpy} {
      ZpValue(p, ByteAt(p.img, pc + 1), o.mnemonic, env);
    }
  }

  lemma SoundStart(p: Prog, pc: int)
    requires Sound(p) && pc in p.starts
    ensures Decodes(p.img, pc)
  {
  }

  lemma NoBytes(items: seq<Item>, org: int, env: Env)
    ensures SizeAll([], env) == 0 && Assemble([], org, env) == Some([])
    ensures items + [] == items && [] + items == items
  {
  }

  lemma OneItem(i: Item, org: int, env: Env)
    ensures SizeAll([i], env) == Size(i, env)
    ensures Assemble([i], org, env) == Emitted(i, org, env)
  {
    hide Size, Emitted;
    assert [i][..0] == [];
    NoBytes([], org, env);
    var last := Emitted(i, org, env);
    if last.Some? {
      assert [] + last.value == last.value;
    }
  }

  lemma LabelSize(p: Prog, pc: int, loc: int, env: Env)
    ensures SizeAll(LabelItem(p, pc), env) == 0 && Assemble(LabelItem(p, pc), loc, env) == Some([])
  {
    if pc in p.labels {
      OneItem(Label(p.labels[pc]), loc, env);
    } else {
      NoBytes([], loc, env);
    }
  }

  /** A step of either emitter: the label there, one item, and what follows. */
  lemma StepSize(p: Prog, pc: int, i: Item, rest: seq<Item>, env: Env)
    ensures SizeAll(LabelItem(p, pc) + [i] + rest, env) == Size(i, env) + SizeAll(rest, env)
  {
    hide Size, LabelItem;
    LabelSize(p, pc, 0, env);
    OneItem(i, 0, env);
    SizeInTwo(LabelItem(p, pc), [i], env);
    SizeInTwo(LabelItem(p, pc) + [i], rest, env);
  }

  lemma {:induction false} CodeSize(p: Prog, pc: int, hi: int, env: Env)
    requires Sound(p) && Knows(p, env) && Apart(p, env) && ROM_BASE <= pc && hi <= ROM_END
    ensures SizeAll(EmitCode(p, pc, hi), env) == CodeEnd(p, pc, hi) - pc
    decreases hi - pc
  {
    hide Sound, Knows, Apart, InstrAt, LabelItem, Size, SizeAll, Shaped, Decodes;
    if pc >= hi {
      NoBytes([], 0, env);
    } else if pc in p.starts {
      SoundStart(p, pc);
      var n := LengthAt(p.img, pc);
      CodeSize(p, pc + n, hi, env);
      InstrSize(p, pc, env);
      StepSize(p, pc, InstrAt(p, pc), EmitCode(p, pc + n, hi), env);
    } else {
      CodeSize(p, pc + 1, hi, env);
      ItemSize(Data([ByteAt(p.img, pc)]), [], env);
      StepSize(p, pc, Data([ByteAt(p.img, pc)]), EmitCode(p, pc + 1, hi), env);
    }
  }

  lemma InstrSize(p: Prog, pc: int, env: Env)
    requires Sound(p) && Knows(p, env) && Apart(p, env) && pc in p.starts
    ensures Size(InstrAt(p, pc), env) == LengthAt(p.img, pc)
  {
    hide Sound, Knows, Apart, OperandOf, Pick, Short;
    ModeIsBack(p, pc, env);
  }

  lemma FlushSize(row: seq<byte>, loc: int, env: Env)
    ensures SizeAll(Flush(row), env) == |row| && Assemble(Flush(row), loc, env) == Some(row)
  {
    if row == [] {
      NoBytes([], loc, env);
    } else {
      OneItem(Data(row), loc, env);
    }
  }

  lemma BrokenSize(p: Prog, pc: int, row: seq<byte>, loc: int, env: Env)
    ensures SizeAll(Broken(p, pc, row), env) == |row| - |Kept(p, pc, row)|
    ensures Assemble(Broken(p, pc, row), loc, env).Some?
    ensures Assemble(Broken(p, pc, row), loc, env).value + Kept(p, pc, row) == row
  {
    hide Flush, LabelItem, SizeAll, Assemble;
    var a: seq<Item> := if pc in p.labels then Flush(row) else [];
    FlushSize(row, loc, env);
    NoBytes([], loc, env);
    LabelSize(p, pc, loc + SizeAll(a, env), env);
    SizeInTwo(a, LabelItem(p, pc), env);
    AssembleInTwo(a, LabelItem(p, pc), loc, env);
    assert row + [] == row && [] + row == row;
  }

  lemma {:induction false} DataSize(p: Prog, r: Region, pc: int, row: seq<byte>, env: Env)
    requires ROM_BASE <= pc <= r.hi <= ROM_END && (AreVectors(r) ==> (r.hi - pc) % 2 == 0 && row == [])
    ensures SizeAll(EmitData(p, r, pc, row), env) == |row| + r.hi - pc
    decreases r.hi - pc
  {
    hide EmitData, Broken, Size, Flush, LabelItem, SizeAll, ByteAt;
    if pc == r.hi {
      EmitDataEnd(p, r, row);
      FlushSize(row, 0, env);
    } else {
      EmitDataStep(p, r, pc, row);
      var rest := Kept(p, pc, row);
      BrokenSize(p, pc, row, 0, env);
      SizeInTwo(Broken(p, pc, row), DataTail(p, r, pc, rest), env);
      if AreVectors(r) {
        DataSize(p, r, pc + 2, rest, env);
        ItemSize(VectorAt(p, pc), EmitData(p, r, pc + 2, rest), env);
      } else if |rest| == 7 {
        DataSize(p, r, pc + 1, [], env);
        ItemSize(Data(rest + [ByteAt(p.img, pc)]), EmitData(p, r, pc + 1, []), env);
      } else {
        DataSize(p, r, pc + 1, rest + [ByteAt(p.img, pc)], env);
      }
    }
  }

  lemma ItemSize(i: Item, rest: seq<Item>, env: Env)
    ensures SizeAll([i] + rest, env) == Size(i, env) + SizeAll(rest, env)
    ensures i.Data? ==> Size(i, env) == |i.bytes|
    ensures i.Words? ==> Size(i, env) == 2
  {
    OneItem(i, 0, env);
    SizeInTwo([i], rest, env);
  }

  /** No instruction crosses its region's end. */
  ghost predicate Within(p: Prog, rs: seq<Region>)
    requires Sound(p) && forall k :: 0 <= k < |rs| ==> ROM_BASE <= rs[k].lo && rs[k].hi <= ROM_END
  {
    forall k :: 0 <= k < |rs| && rs[k].code ==> CodeEnd(p, rs[k].lo, rs[k].hi) == rs[k].hi
  }

  lemma RegionSize(p: Prog, r: Region, env: Env)
    requires Sound(p) && Knows(p, env) && Apart(p, env) && ROM_BASE <= r.lo <= r.hi <= ROM_END
    ensures var n := SizeAll(EmitRegion(p, r), env);
            n >= r.hi - r.lo && (n == r.hi - r.lo <==> (r.code ==> CodeEnd(p, r.lo, r.hi) == r.hi))
  {
    hide Sound, Knows, Apart, EmitCode, EmitData, CodeEnd, SizeAll;
    if r.code {
      CodeSize(p, r.lo, r.hi, env);
    } else {
      DataSize(p, r, r.lo, [], env);
    }
  }

  lemma {:induction false} AllSize(p: Prog, rs: seq<Region>, lo: int, hi: int, env: Env)
    requires Sound(p) && Knows(p, env) && Apart(p, env) && Tiles(rs, lo, hi) && ROM_BASE <= lo && hi <= ROM_END
    ensures forall k :: 0 <= k < |rs| ==> ROM_BASE <= rs[k].lo <= rs[k].hi <= ROM_END
    ensures var n := SizeAll(EmitAll(p, rs), env); n >= hi - lo && (n == hi - lo <==> Within(p, rs))
    decreases |rs|
  {
    TilesGrow(rs, lo, hi);
    hide Sound, Knows, Apart, EmitRegion, CodeEnd;
    if rs == [] {
      NoBytes([], 0, env);
    } else {
      AllSize(p, rs[1..], rs[0].hi, hi, env);
      RegionSize(p, rs[0], env);
      SizeInTwo(EmitRegion(p, rs[0]), EmitAll(p, rs[1..]), env);
      assert forall k :: 0 < k < |rs| ==> rs[k] == rs[1..][k - 1];
      assert Within(p, rs) ==> forall k :: 0 <= k < |rs[1..]| ==> rs[1..][k] == rs[k + 1];
    }
  }

  // ---- places ---------------------------------------------------------------------------

  /** Every label of a stretch that begins at `org` lies at the address it labels. */
  ghost predicate Placed(p: Prog, items: seq<Item>, org: int, env: Env) {
    forall k :: 0 <= k < |items| && items[k].Label? ==> LabelLies(p, items[k].name, org + SizeAll(items[..k], env))
  }

  predicate LabelLies(p: Prog, name: string, loc: int) {
    loc in p.labels && p.labels[loc] == name
  }

  lemma PlacedAt(p: Prog, items: seq<Item>, org: int, env: Env, k: nat)
    requires Placed(p, items, org, env) && k < |items| && items[k].Label?
    ensures LabelLies(p, items[k].name, org + SizeAll(items[..k], env))
  {
    hide SizeAll, LabelLies;
  }

  lemma JoinedPlaced(p: Prog, a: seq<Item>, b: seq<Item>, org: int, env: Env, k: nat)
    requires Placed(p, a, org, env) && Placed(p, b, org + SizeAll(a, env), env)
    requires k < |a + b| && (a + b)[k].Label?
    ensures LabelLies(p, (a + b)[k].name, org + SizeAll((a + b)[..k], env))
  {
    hide SizeAll, LabelLies, Placed;
    if k < |a| {
      PlacedAt(p, a, org, env, k);
      assert (a + b)[..k] == a[..k];
    } else {
      var j := k - |a|;
      PlacedAt(p, b, org + SizeAll(a, env), env, j);
      SizeInTwo(a, b[..j], env);
      assert (a + b)[..k] == a + b[..j];
    }
  }

  lemma AllJoinedPlaced(p: Prog, a: seq<Item>, b: seq<Item>, org: int, env: Env)
    requires Placed(p, a, org, env) && Placed(p, b, org + SizeAll(a, env), env)
    ensures forall k :: 0 <= k < |a + b| && (a + b)[k].Label? ==>
              LabelLies(p, (a + b)[k].name, org + SizeAll((a + b)[..k], env))
  {
    hide SizeAll, LabelLies, Placed;
    forall k | 0 <= k < |a + b| && (a + b)[k].Label?
      ensures LabelLies(p, (a + b)[k].name, org + SizeAll((a + b)[..k], env))
    {
      JoinedPlaced(p, a, b, org, env, k);
    }
  }

  lemma PlacedInTwo(p: Prog, a: seq<Item>, b: seq<Item>, org: int, env: Env)
    requires Placed(p, a, org, env) && Placed(p, b, org + SizeAll(a, env), env)
    ensures Placed(p, a + b, org, env)
  {
    hide SizeAll, LabelLies;
    AllJoinedPlaced(p, a, b, org, env);
  }

  lemma LabelPlaced(p: Prog, pc: int, env: Env)
    ensures Placed(p, LabelItem(p, pc), pc, env) && SizeAll(LabelItem(p, pc), env) == 0
  {
    LabelSize(p, pc, pc, env);
    NoBytes([], 0, env);
    if pc in p.labels {
      assert LabelItem(p, pc)[..0] == [];
    }
  }

  lemma StepPlaced(p: Prog, pc: int, i: Item, rest: seq<Item>, env: Env)
    requires !i.Label? && Placed(p, rest, pc + Size(i, env), env)
    ensures Placed(p, LabelItem(p, pc) + [i] + rest, pc, env)
  {
    hide Size, LabelItem;
    LabelPlaced(p, pc, env);
    OneItem(i, pc, env);
    PlacedInTwo(p, LabelItem(p, pc), [i], pc, env);
    SizeInTwo(LabelItem(p, pc), [i], env);
    PlacedInTwo(p, LabelItem(p, pc) + [i], rest, pc, env);
  }

  lemma {:induction false} CodePlaced(p: Prog, pc: int, hi: int, env: Env)
    requires Sound(p) && Knows(p, env) && Apart(p, env) && ROM_BASE <= pc && hi <= ROM_END
    ensures Placed(p, EmitCode(p, pc, hi), pc, env)
    decreases hi - pc
  {
    hide Sound, Knows, Apart, LabelItem, Size, Placed, OperandOf;
    if pc >= hi {
      NothingPlaced(p, pc, env);
    } else if pc in p.starts {
      SoundStart(p, pc);
      CodePlaced(p, pc + LengthAt(p.img, pc), hi, env);
      InstrSize(p, pc, env);
      StepPlaced(p, pc, InstrAt(p, pc), EmitCode(p, pc + LengthAt(p.img, pc), hi), env);
    } else {
      CodePlaced(p, pc + 1, hi, env);
      ItemSize(Data([ByteAt(p.img, pc)]), [], env);
      StepPlaced(p, pc, Data([ByteAt(p.img, pc)]), EmitCode(p, pc + 1, hi), env);
    }
  }

  lemma NothingPlaced(p: Prog, pc: int, env: Env)
    ensures Placed(p, [], pc, env)
  {
  }

  lemma FlushPlaced(p: Prog, row: seq<byte>, org: int, env: Env)
    ensures Placed(p, Flush(row), org, env)
  {
  }

  lemma BrokenPlaced(p: Prog, pc: int, row: seq<byte>, env: Env)
    ensures Placed(p, Broken(p, pc, row), pc - |row|, env)
    ensures SizeAll(Broken(p, pc, row), env) == |row| - |Kept(p, pc, row)|
  {
    BrokenSize(p, pc, row, 0, env);
    hide Flush, LabelItem, Placed, SizeAll;
    var a: seq<Item> := if pc in p.labels then Flush(row) else [];
    FlushPlaced(p, row, pc - |row|, env);
    NothingPlaced(p, pc - |row|, env);
    FlushSize(row, 0, env);
    LabelPlaced(p, pc, env);
    if pc in p.labels {
      PlacedInTwo(p, a, LabelItem(p, pc), pc - |row|, env);
    } else {
      NoLabel(p, pc, pc - |row|, env);
    }
  }

  lemma NoLabel(p: Prog, pc: int, org: int, env: Env)
    requires pc !in p.labels
    ensures Placed(p, [] + LabelItem(p, pc), org, env)
  {
  }

  lemma ItemPlaced(p: Prog, i: Item, rest: seq<Item>, org: int, env: Env)
    requires !i.Label? && Placed(p, rest, org + Size(i, env), env)
    ensures Placed(p, [i] + rest, org, env)
  {
    OneItem(i, org, env);
    PlacedInTwo(p, [i], rest, org, env);
  }

  lemma {:induction false} DataPlaced(p: Prog, r: Region, pc: int, row: seq<byte>, env: Env)
    requires ROM_BASE <= pc <= r.hi <= ROM_END && (AreVectors(r) ==> (r.hi - pc) % 2 == 0 && row == [])
    ensures Placed(p, EmitData(p, r, pc, row), pc - |row|, env)
    decreases r.hi - pc
  {
    hide EmitData, Broken, Size, Flush, LabelItem, SizeAll, ByteAt, Placed;
    if pc == r.hi {
      EmitDataEnd(p, r, row);
      FlushPlaced(p, row, pc - |row|, env);
    } else {
      EmitDataStep(p, r, pc, row);
      var rest := Kept(p, pc, row);
      BrokenPlaced(p, pc, row, env);
      if AreVectors(r) {
        DataPlaced(p, r, pc + 2, rest, env);
        ItemSize(VectorAt(p, pc), [], env);
        ItemPlaced(p, VectorAt(p, pc), EmitData(p, r, pc + 2, rest), pc, env);
      } else if |rest| == 7 {
        DataPlaced(p, r, pc + 1, [], env);
        ItemSize(Data(rest + [ByteAt(p.img, pc)]), [], env);
        ItemPlaced(p, Data(rest + [ByteAt(p.img, pc)]), EmitData(p, r, pc + 1, []), pc - 7, env);
      } else {
        DataPlaced(p, r, pc + 1, rest + [ByteAt(p.img, pc)], env);
      }
      PlacedInTwo(p, Broken(p, pc, row), DataTail(p, r, pc, rest), pc - |row|, env);
    }
  }

  lemma RegionPlaced(p: Prog, r: Region, env: Env)
    requires Sound(p) && Knows(p, env) && Apart(p, env) && ROM_BASE <= r.lo <= r.hi <= ROM_END
    ensures Placed(p, EmitRegion(p, r), r.lo, env)
  {
    hide Sound, Knows, Apart, Placed, EmitCode, EmitData;
    if r.code {
      CodePlaced(p, r.lo, r.hi, env);
    } else {
      DataPlaced(p, r, r.lo, [], env);
    }
  }

  lemma JoinPlaced(p: Prog, a: seq<Item>, b: seq<Item>, lo: int, mid: int, env: Env)
    requires SizeAll(a, env) == mid - lo && Placed(p, a, lo, env) && Placed(p, b, mid, env)
    ensures Placed(p, a + b, lo, env)
  {
    hide SizeAll, Placed;
    PlacedInTwo(p, a, b, lo, env);
  }

  lemma {:induction false} AllPlaced(p: Prog, rs: seq<Region>, lo: int, hi: int, env: Env)
    requires Sound(p) && Knows(p, env) && Apart(p, env) && Tiles(rs, lo, hi) && ROM_BASE <= lo && hi <= ROM_END
    ensures forall k :: 0 <= k < |rs| ==> ROM_BASE <= rs[k].lo <= rs[k].hi <= ROM_END
    ensures Within(p, rs) ==> Placed(p, EmitAll(p, rs), lo, env)
    decreases |rs|
  {
    TilesGrow(rs, lo, hi);
    hide Sound, Knows, Apart, CodeEnd, Placed, EmitRegion, SizeAll, Within;
    if rs == [] {
      NothingPlaced(p, lo, env);
    } else if Within(p, rs) {
      WithinParts(p, rs);
      AllPlaced(p, rs[1..], rs[0].hi, hi, env);
      RegionSize(p, rs[0], env);
      RegionPlaced(p, rs[0], env);
      JoinPlaced(p, EmitRegion(p, rs[0]), EmitAll(p, rs[1..]), lo, rs[0].hi, env);
    }
  }

  // ---- bytes ----------------------------------------------------------------------------

  lemma AbsValue(p: Prog, pc: int, v: int, m: Mnemonic, env: Env)
    requires Sound(p) && Knows(p, env) && Right(p, env) && 0 <= v < 0x10000
    requires pc in p.t.bias ==> v == p.t.bias[pc].site + p.t.bias[pc].delta
    ensures var e := AbsName(p, pc, v, m).0;
            (e.Sym? ==> Upper(e.name) in env) ==> Value(e, env) == Some(v)
  {
    hide Upper, NoCollision, CellName, RegisterName, ZpName, Nearest;
    if pc in p.t.bias {
      assert p.t.bias[pc].site in p.labels;
    } else if v in p.t.riot {
      assert Equated(p.t.equates, p.t.riot[v], v);
    } else if 0x80 <= v < 0x100 {
      ZpValue(p, v, m, env);
    }
  }

  lemma OperandIsRight(p: Prog, pc: int, env: Env)
    requires Sound(p) && Knows(p, env) && Right(p, env) && pc in p.starts && Biased(p, pc)
    requires Uses(InstrAt(p, pc)) <= env.Keys
    ensures Value(OperandOf(p, pc).0, env) == Some(ValueAt(p.img, pc))
  {
    var o, e := OpAt(p.img, pc), OperandOf(p, pc).0;
    assert e.Sym? ==> Upper(e.name) in env;
    hide Decode, Upper, NoCollision, ZpName, AbsName, WellFormed, Uses;
    if Wide(o.mode) {
      AbsValue(p, pc, Word(p.img, pc + 1), o.mnemonic, env);
    } else if o.mode in {Zp, Zpx, Zpy, Izx, Izy} {
      ZpValue(p, ByteAt(p.img, pc + 1), o.mnemonic, env);
    }
  }

  /** The bytes of the image from `a` to `b`. */
  function Slice(img: Image, a: int, b: int): seq<byte>
    requires ROM_BASE <= a <= b <= ROM_END
  {
    img[a - ROM_BASE..b - ROM_BASE]
  }

  lemma SliceInTwo(img: Image, a: int, b: int, c: int)
    requires ROM_BASE <= a <= b <= c <= ROM_END
    ensures Slice(img, a, c) == Slice(img, a, b) + Slice(img, b, c)
    ensures Slice(img, a, a) == []
  {
  }

  lemma FewBytes(img: Image, pc: int, n: int)
    requires ROM_BASE <= pc && 1 <= n <= 3 && pc + n <= ROM_END
    ensures Slice(img, pc, pc + n) == [ByteAt(img, pc)] +
              if n == 1 then [] else if n == 2 then [ByteAt(img, pc + 1)] else [ByteAt(img, pc + 1), ByteAt(img, pc + 2)]
  {
  }

  /** The signed offset of a branch, back as a byte. */
  lemma OffsetByte(b: byte)
    ensures -128 <= Signed(b) < 128 && Signed(b) % 256 == b as int
  {
  }

  /** A decoded instruction is its opcode and its operand bytes. */
  lemma BytesOf(img: Image, pc: int)
    requires Decodes(img, pc)
    ensures var o := OpAt(img, pc);
            var tail := Operand(o.mode, ValueAt(img, pc), pc);
            tail.Some? && [ByteAt(img, pc)] + tail.value == Slice(img, pc, pc + LengthAt(img, pc))
  {
    FewBytes(img, pc, LengthAt(img, pc));
    if OpAt(img, pc).mode == Rel {
      OffsetByte(ByteAt(img, pc + 1));
    }
    hide Decode, ByteAt, Slice, Signed, Word;
  }

  lemma InstrBytes(p: Prog, pc: int, env: Env)
    requires Sound(p) && Knows(p, env) && Apart(p, env) && Right(p, env) && pc in p.starts && Biased(p, pc)
    requires Uses(InstrAt(p, pc)) <= env.Keys
    ensures Emitted(InstrAt(p, pc), pc, env) == Some(Slice(p.img, pc, pc + LengthAt(p.img, pc)))
  {
    hide Sound, Knows, Apart, Right, Uses, Decode, Encode, OperandOf, Value, ValueAt, Operand, Slice, Pick, Short;
    SoundStart(p, pc);
    ModeIsBack(p, pc, env);
    OperandIsRight(p, pc, env);
    BytesOf(p.img, pc);
    DecodeEncode(ByteAt(p.img, pc));
  }

  lemma StepBytes(p: Prog, pc: int, i: Item, rest: seq<Item>, env: Env)
    requires !i.Label?
    ensures var b, q := Emitted(i, pc, env), Assemble(rest, pc + Size(i, env), env);
            Assemble(LabelItem(p, pc) + [i] + rest, pc, env) == if b.None? || q.None? then None else Some(b.value + q.value)
  {
    hide Size, Emitted, LabelItem;
    LabelSize(p, pc, pc, env);
    OneItem(i, pc, env);
    AssembleInTwo(LabelItem(p, pc), [i], pc, env);
    SizeInTwo(LabelItem(p, pc), [i], env);
    AssembleInTwo(LabelItem(p, pc) + [i], rest, pc, env);
    var b := Emitted(i, pc, env);
    if b.Some? {
      assert [] + b.value == b.value;
    }
  }

  lemma DefinedParts(a: seq<Item>, b: seq<Item>, env: Env)
    ensures Defined(a + b, env) <==> Defined(a, env) && Defined(b, env)
  {
    hide Uses;
    assert forall k :: 0 <= k < |a| ==> (a + b)[k] == a[k];
    assert forall k :: 0 <= k < |b| ==> (a + b)[|a| + k] == b[k];
    assert forall k :: |a| <= k < |a + b| ==> (a + b)[k] == b[k - |a|];
  }

  lemma DefinedOne(i: Item, env: Env)
    ensures Defined([i], env) <==> Uses(i) <= env.Keys
  {
    hide Uses;
    assert [i][0] == i;
  }

  lemma DefinedStep(p: Prog, pc: int, i: Item, rest: seq<Item>, env: Env)
    ensures Defined(LabelItem(p, pc) + [i] + rest, env) ==> Uses(i) <= env.Keys && Defined(rest, env)
  {
    hide Uses, LabelItem, Defined;
    DefinedParts(LabelItem(p, pc) + [i], rest, env);
    DefinedParts(LabelItem(p, pc), [i], env);
    DefinedOne(i, env);
  }

  lemma {:induction false} CodeBytes(p: Prog, pc: int, hi: int, env: Env)
    requires Sound(p) && Knows(p, env) && Apart(p, env) && Right(p, env) && ROM_BASE <= pc && hi <= ROM_END
    requires Defined(EmitCode(p, pc, hi), env) && CodeEnd(p, pc, hi) == hi
    requires forall q :: Visits(p, pc, hi, q) ==> Biased(p, q)
    ensures Assemble(EmitCode(p, pc, hi), pc, env) == Some(Slice(p.img, pc, hi))
    decreases hi - pc
  {
    hide Sound, Knows, Apart, Right, LabelItem, InstrAt, Slice, Emitted, Size, Assemble, SizeAll, Defined, Uses, Biased, Shaped;
    if pc >= hi {
      NoBytes([], pc, env);
      SliceInTwo(p.img, pc, pc, pc);
    } else if pc in p.starts {
      SoundStart(p, pc);
      var nxt := pc + LengthAt(p.img, pc);
      DefinedStep(p, pc, InstrAt(p, pc), EmitCode(p, nxt, hi), env);
      CodeBytes(p, nxt, hi, env);
      InstrSize(p, pc, env);
      InstrBytes(p, pc, env);
      IsInstr(p, pc);
      StepBytes(p, pc, InstrAt(p, pc), EmitCode(p, nxt, hi), env);
      SliceInTwo(p.img, pc, nxt, hi);
    } else {
      var i := Data([ByteAt(p.img, pc)]);
      DefinedStep(p, pc, i, EmitCode(p, pc + 1, hi), env);
      CodeBytes(p, pc + 1, hi, env);
      OneByte(p.img, pc, env);
      StepBytes(p, pc, i, EmitCode(p, pc + 1, hi), env);
      SliceInTwo(p.img, pc, pc + 1, hi);
    }
  }

  lemma IsInstr(p: Prog, pc: int)
    requires Sound(p) && pc in p.starts
    ensures InstrAt(p, pc).Instr?
  {
  }

  lemma OneByte(img: Image, pc: int, env: Env)
    requires InRom(pc)
    ensures Emitted(Data([ByteAt(img, pc)]), pc, env) == Some(Slice(img, pc, pc + 1))
    ensures Size(Data([ByteAt(img, pc)]), env) == 1
  {
    assert Slice(img, pc, pc + 1) == [ByteAt(img, pc)];
  }

  lemma VectorBytes(p: Prog, pc: int, loc: int, env: Env)
    requires Right(p, env) && InRom(pc) && InRom(pc + 1) && Uses(VectorAt(p, pc)) <= env.Keys
    ensures Emitted(VectorAt(p, pc), loc, env) == Some(Slice(p.img, pc, pc + 2))
    ensures Size(VectorAt(p, pc), env) == 2
  {
    hide Upper;
    assert Slice(p.img, pc, pc + 2) == [ByteAt(p.img, pc), ByteAt(p.img, pc + 1)];
  }

  lemma ItemBytes(i: Item, rest: seq<Item>, loc: int, env: Env)
    ensures var b, q := Emitted(i, loc, env), Assemble(rest, loc + Size(i, env), env);
            Assemble([i] + rest, loc, env) == if b.None? || q.None? then None else Some(b.value + q.value)
    ensures Defined([i] + rest, env) ==> Uses(i) <= env.Keys && Defined(rest, env)
  {
    hide Size, Emitted, Uses, Defined;
    OneItem(i, loc, env);
    AssembleInTwo([i], rest, loc, env);
    DefinedParts([i], rest, env);
    DefinedOne(i, env);
  }

  lemma {:induction false} DataBytes(p: Prog, r: Region, pc: int, row: seq<byte>, env: Env)
    requires ROM_BASE <= pc <= r.hi <= ROM_END && (AreVectors(r) ==> (r.hi - pc) % 2 == 0 && row == [])
    requires Right(p, env) && Defined(EmitData(p, r, pc, row), env)
    ensures Assemble(EmitData(p, r, pc, row), pc - |row|, env) == Some(row + Slice(p.img, pc, r.hi))
    decreases r.hi - pc
  {
    hide EmitData, Broken, Size, Flush, LabelItem, SizeAll, Assemble, Emitted, Slice, Right, Defined, Uses, ByteAt, VectorAt;
    if pc == r.hi {
      EmitDataEnd(p, r, row);
      FlushSize(row, pc - |row|, env);
      SliceInTwo(p.img, pc, pc, pc);
      assert row + [] == row;
    } else {
      EmitDataStep(p, r, pc, row);
      var rest := Kept(p, pc, row);
      var loc := pc - |rest|;
      BrokenSize(p, pc, row, pc - |row|, env);
      var first := Assemble(Broken(p, pc, row), pc - |row|, env).value;
      AssembleInTwo(Broken(p, pc, row), DataTail(p, r, pc, rest), pc - |row|, env);
      DefinedParts(Broken(p, pc, row), DataTail(p, r, pc, rest), env);
      DataTailBytes(p, r, pc, rest, env);
      assert first + (rest + Slice(p.img, pc, r.hi)) == (first + rest) + Slice(p.img, pc, r.hi);
    }
  }

  lemma {:induction false} DataTailBytes(p: Prog, r: Region, pc: int, rest: seq<byte>, env: Env)
    requires ROM_BASE <= pc < r.hi <= ROM_END && (AreVectors(r) ==> (r.hi - pc) % 2 == 0 && rest == [])
    requires Right(p, env) && Defined(DataTail(p, r, pc, rest), env)
    ensures Assemble(DataTail(p, r, pc, rest), pc - |rest|, env) == Some(rest + Slice(p.img, pc, r.hi))
    decreases r.hi - pc, 0
  {
    hide EmitData, Size, SizeAll, Assemble, Emitted, Slice, Right, Defined, Uses, ByteAt, VectorAt;
    if AreVectors(r) {
      var i := VectorAt(p, pc);
      ItemBytes(i, EmitData(p, r, pc + 2, []), pc, env);
      VectorBytes(p, pc, pc, env);
      DataBytes(p, r, pc + 2, [], env);
      SliceInTwo(p.img, pc, pc + 2, r.hi);
      assert [] + Slice(p.img, pc, r.hi) == Slice(p.img, pc, r.hi);
      assert [] + Slice(p.img, pc + 2, r.hi) == Slice(p.img, pc + 2, r.hi);
    } else {
      var row := rest + [ByteAt(p.img, pc)];
      RowGrows(p.img, pc, r.hi, rest);
      if |rest| == 7 {
        ItemBytes(Data(row), EmitData(p, r, pc + 1, []), pc - 7, env);
        RowBytes(row, pc - 7, env);
        DataBytes(p, r, pc + 1, [], env);
        assert [] + Slice(p.img, pc + 1, r.hi) == Slice(p.img, pc + 1, r.hi);
      } else {
        DataBytes(p, r, pc + 1, row, env);
      }
    }
  }

  lemma RowBytes(row: seq<byte>, loc: int, env: Env)
    ensures Emitted(Data(row), loc, env) == Some(row) && Size(Data(row), env) == |row|
  {
  }

  lemma RowGrows(img: Image, pc: int, hi: int, rest: seq<byte>)
    requires ROM_BASE <= pc < hi <= ROM_END
    ensures rest + Slice(img, pc, hi) == (rest + [ByteAt(img, pc)]) + Slice(img, pc + 1, hi)
  {
    assert Slice(img, pc, hi) == [ByteAt(img, pc)] + Slice(img, pc + 1, hi);
  }

  lemma RegionBytes(p: Prog, r: Region, env: Env)
    requires Sound(p) && Knows(p, env) && Apart(p, env) && Right(p, env) && ROM_BASE <= r.lo <= r.hi <= ROM_END
    requires Defined(EmitRegion(p, r), env) && (r.code ==> CodeEnd(p, r.lo, r.hi) == r.hi)
    requires BiasesHold(p, [r])
    ensures Assemble(EmitRegion(p, r), r.lo, env) == Some(Slice(p.img, r.lo, r.hi))
  {
    hide Sound, Knows, Apart, Right, EmitCode, EmitData, Defined, Assemble, Slice, Visits, Biased, Shaped;
    assert [r][0] == r;
    if r.code {
      CodeBytes(p, r.lo, r.hi, env);
    } else {
      DataBytes(p, r, r.lo, [], env);
      assert [] + Slice(p.img, r.lo, r.hi) == Slice(p.img, r.lo, r.hi);
    }
  }

  lemma WithinParts(p: Prog, rs: seq<Region>)
    requires Sound(p) && rs != [] && forall k :: 0 <= k < |rs| ==> ROM_BASE <= rs[k].lo && rs[k].hi <= ROM_END
    requires Within(p, rs)
    ensures forall k :: 0 <= k < |rs[1..]| ==> ROM_BASE <= rs[1..][k].lo && rs[1..][k].hi <= ROM_END
    ensures Within(p, rs[1..]) && (rs[0].code ==> CodeEnd(p, rs[0].lo, rs[0].hi) == rs[0].hi)
  {
    hide Sound, CodeEnd;
    assert forall k :: 0 <= k < |rs[1..]| ==> rs[1..][k] == rs[k + 1];
  }

  lemma BiasParts(p: Prog, rs: seq<Region>)
    requires Shaped(p) && rs != [] && forall k :: 0 <= k < |rs| ==> ROM_BASE <= rs[k].lo <= rs[k].hi <= ROM_END
    requires BiasesHold(p, rs)
    ensures forall k :: 0 <= k < |rs[1..]| ==> ROM_BASE <= rs[1..][k].lo <= rs[1..][k].hi <= ROM_END
    ensures BiasesHold(p, rs[1..]) && BiasesHold(p, [rs[0]])
  {
    hide Shaped, Visits, Biased;
    assert forall k :: 0 <= k < |rs[1..]| ==> rs[1..][k] == rs[k + 1];
  }

  lemma JoinBytes(p: Prog, a: seq<Item>, b: seq<Item>, lo: int, mid: int, hi: int, env: Env)
    requires ROM_BASE <= lo <= mid <= hi <= ROM_END && SizeAll(a, env) == mid - lo
    requires Assemble(a, lo, env) == Some(Slice(p.img, lo, mid)) && Assemble(b, mid, env) == Some(Slice(p.img, mid, hi))
    ensures Assemble(a + b, lo, env) == Some(Slice(p.img, lo, hi))
  {
    hide Assemble, SizeAll, Slice;
    AssembleInTwo(a, b, lo, env);
    SliceInTwo(p.img, lo, mid, hi);
  }

  lemma {:induction false} AllBytes(p: Prog, rs: seq<Region>, lo: int, hi: int, env: Env)
    requires Sound(p) && Knows(p, env) && Apart(p, env) && Right(p, env)
    requires Tiles(rs, lo, hi) && ROM_BASE <= lo <= hi <= ROM_END
    ensures forall k :: 0 <= k < |rs| ==> ROM_BASE <= rs[k].lo <= rs[k].hi <= ROM_END
    ensures Within(p, rs) && Defined(EmitAll(p, rs), env) && BiasesHold(p, rs) ==> Assemble(EmitAll(p, rs), lo, env) == Some(Slice(p.img, lo, hi))
    decreases |rs|
  {
    TilesGrow(rs, lo, hi);
    hide Sound, Knows, Apart, Right, EmitRegion, Defined, Assemble, Slice, SizeAll, Within, CodeEnd, BiasesHold, Shaped;
    if rs == [] {
      NoBytes([], lo, env);
      SliceInTwo(p.img, lo, lo, lo);
    } else if Within(p, rs) && Defined(EmitAll(p, rs), env) && BiasesHold(p, rs) {
      WithinParts(p, rs);
      BiasParts(p, rs);
      DefinedParts(EmitRegion(p, rs[0]), EmitAll(p, rs[1..]), env);
      TilesGrow(rs[1..], rs[0].hi, hi);
      AllBytes(p, rs[1..], rs[0].hi, hi, env);
      RegionBytes(p, rs[0], env);
      RegionSize(p, rs[0], env);
      JoinBytes(p, EmitRegion(p, rs[0]), EmitAll(p, rs[1..]), lo, rs[0].hi, hi, env);
    }
  }

  // ---- the theorem ----------------------------------------------------------------------

  lemma LabelIsNoEquate(p: Prog, a: int)
    requires Sound(p) && a in p.labels
    ensures Upper(p.labels[a]) !in p.t.equates
  {
    hide Upper, Hex4;
  }

  /** In a settled table, a name that is a label's is where a label item of that name is. */
  lemma LabelItemOf(p: Prog, env: Env, a: int) returns (k: nat)
    requires Sound(p) && Settled(Source(p), ROM_BASE, p.t.equates, env)
    requires a in p.labels && Upper(p.labels[a]) in env
    ensures k < |Source(p)| && Source(p)[k].Label? && Upper(Source(p)[k].name) == Upper(p.labels[a])
    ensures env[Upper(p.labels[a])] == ROM_BASE + SizeAll(Source(p)[..k], env)
  {
    hide Upper, Sound, SizeAll, EmitAll;
    LabelIsNoEquate(p, a);
    k :| 0 <= k < |Source(p)| && Source(p)[k].Label? && Upper(Source(p)[k].name) == Upper(p.labels[a]);
  }

  lemma SettledIsApart(p: Prog, env: Env)
    requires Sound(p) && Settled(Source(p), ROM_BASE, p.t.equates, env)
    ensures Knows(p, env) && Apart(p, env)
  {
    hide Upper, SizeAll, Source, Sound;
    forall a | a in p.labels && Upper(p.labels[a]) in env
      ensures env[Upper(p.labels[a])] >= ROM_BASE
    {
      var k := LabelItemOf(p, env, a);
    }
  }

  lemma UniqueLabel(p: Prog, a: int, b: int)
    requires Sound(p) && a in p.labels && b in p.labels && Upper(p.labels[a]) == Upper(p.labels[b])
    ensures a == b
  {
    hide Upper;
  }

  lemma SettledIsRight(p: Prog, env: Env)
    requires Sound(p) && Settled(Source(p), ROM_BASE, p.t.equates, env)
    requires Placed(p, Source(p), ROM_BASE, env)
    ensures Right(p, env)
  {
    hide Upper, SizeAll, Source, Sound, Placed;
    forall a | a in p.labels && Upper(p.labels[a]) in env
      ensures env[Upper(p.labels[a])] == a
    {
      var k := LabelItemOf(p, env, a);
      PlacedAt(p, Source(p), ROM_BASE, env, k);
      UniqueLabel(p, a, ROM_BASE + SizeAll(Source(p)[..k], env));
    }
  }

  /** Every instruction stays in its region. */
  ghost predicate NothingCrosses(p: Prog)
    requires Sound(p)
  {
    RegionsLie(p);
    Within(p, p.t.regions)
  }

  /** Print, then assemble: when the disassembler has reported no problem, then whatever settled symbol
      table the assembler works with, it makes the image again, byte for byte, exactly when every name
      the source uses is one it defines and no instruction crosses the end of its region. */
  lemma PrintThenAssemble(p: Prog, env: Env)
    requires Sound(p) && Settled(Source(p), ROM_BASE, p.t.equates, env)
    ensures Assemble(Source(p), ROM_BASE, env) == Some(p.img[..]) <==> Defined(Source(p), env) && NothingCrosses(p)
  {
    SoundTiles(p);
    SettledIsApart(p, env);
    RegionsLie(p);
    hide Sound, Settled, Knows, Apart, Right, EmitAll, Assemble, Defined, SizeAll, Placed, Within;
    AllSize(p, p.t.regions, ROM_BASE, ROM_END, env);
    if NothingCrosses(p) {
      AllPlaced(p, p.t.regions, ROM_BASE, ROM_END, env);
      SettledIsRight(p, env);
      AllBytes(p, p.t.regions, ROM_BASE, ROM_END, env);
      assert Slice(p.img, ROM_BASE, ROM_END) == p.img[..];
    }
    AssembledSize(Source(p), ROM_BASE, env);
    UndefinedStops(Source(p), ROM_BASE, env);
  }

  lemma SoundTiles(p: Prog)
    requires Sound(p)
    ensures Tiles(p.t.regions, ROM_BASE, ROM_END)
    ensures forall k :: 0 <= k < |p.t.regions| ==> ROM_BASE <= p.t.regions[k].lo <= p.t.regions[k].hi <= ROM_END
    ensures BiasesHold(p, p.t.regions)
  {
    RegionsLie(p);
  }

  // ---- and it does assemble -------------------------------------------------------------

  /** The names the labels in a listing define. */
  ghost function LabelNames(items: seq<Item>): set<string> {
    set i | i in items && i.Label? :: Upper(i.name)
  }

  ghost predicate Names(p: Prog, n: string, a: int) {
    a in p.labels && a >= ROM_BASE && Upper(p.labels[a]) == n
  }

  ghost function AddressOf(p: Prog, n: string): (a: int)
    ensures (exists b :: Names(p, n, b)) ==> Names(p, n, a)
  {
    if exists b :: Names(p, n, b) then
      var b :| Names(p, n, b);
      b
    else 0
  }

  /** The equates, and every label item's name at the address of the label. */
  ghost function Table(p: Prog): Env
    requires Sound(p)
  {
    map n | n in p.t.equates.Keys + LabelNames(Source(p)) && (n in p.t.equates || exists a :: Names(p, n, a)) ::
      if n in p.t.equates then p.t.equates[n] else AddressOf(p, n)
  }

  lemma TableKnows(p: Prog)
    requires Sound(p)
    ensures Knows(p, Table(p)) && Apart(p, Table(p)) && Right(p, Table(p))
  {
    hide Upper, Sound, Source;
    forall a | a in p.labels && Upper(p.labels[a]) in Table(p)
      ensures Table(p)[Upper(p.labels[a])] >= ROM_BASE && Table(p)[Upper(p.labels[a])] == a
    {
      LabelIsNoEquate(p, a);
      var b := AddressOf(p, Upper(p.labels[a]));
      UniqueLabel(p, a, b);
    }
  }

  /** There is a settled table when nothing crosses. */
  lemma TableSettles(p: Prog)
    requires Sound(p) && NothingCrosses(p)
    ensures Settled(Source(p), ROM_BASE, p.t.equates, Table(p))
    ensures Table(p).Keys == p.t.equates.Keys + LabelNames(Source(p))
  {
    hide Upper, Sound, EmitAll, Placed, Within, Knows, Apart, Right, SizeAll;
    SoundTiles(p);
    RegionsLie(p);
    TableKnows(p);
    var env, items := Table(p), Source(p);
    AllPlaced(p, p.t.regions, ROM_BASE, ROM_END, env);
    forall k | 0 <= k < |items| && items[k].Label?
      ensures Upper(items[k].name) in env && env[Upper(items[k].name)] == ROM_BASE + SizeAll(items[..k], env)
    {
      PlacedAt(p, items, ROM_BASE, env, k);
      var loc := ROM_BASE + SizeAll(items[..k], env);
      LabelIsNoEquate(p, loc);
      assert Names(p, Upper(items[k].name), loc);
      assert items[k] in items && Upper(items[k].name) in LabelNames(items);
      UniqueLabel(p, loc, AddressOf(p, Upper(items[k].name)));
    }
    forall n | n in LabelNames(items)
      ensures n in env
    {
      var k :| 0 <= k < |items| && items[k].Label? && Upper(items[k].name) == n;
    }
  }

  /** Every name the source uses is equated, or is a label's that the source prints. */
  ghost predicate NamesLand(p: Prog)
    requires Sound(p)
  {
    forall k :: 0 <= k < |Source(p)| ==> Uses(Source(p)[k]) <= p.t.equates.Keys + LabelNames(Source(p))
  }

  /** Print, then assemble is the identity: for every image with no problem reported, whose instructions
      stay in their regions and whose names are all printed, there is a settled symbol table, and with
      it the assembler gives the image back byte for byte. */
  lemma SourceAssembles(p: Prog)
    requires Sound(p) && NothingCrosses(p) && NamesLand(p)
    ensures Settled(Source(p), ROM_BASE, p.t.equates, Table(p))
    ensures Assemble(Source(p), ROM_BASE, Table(p)) == Some(p.img[..])
  {
    hide Sound, NothingCrosses, Settled, Assemble, Source, Table, Uses, LabelNames;
    TableSettles(p);
    PrintThenAssemble(p, Table(p));
  }
}
