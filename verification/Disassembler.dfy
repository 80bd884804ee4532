/** The disassembler as it is: sets, a label table and a list of problems filled in place. */
module Disassembler {
  import opened Bytes
  import opened DgMap
  import opened Isa
  import opened Printer
  import opened Trace
  import F = Flow
  import L = Listing

  datatype Problem =
    | Undefined(pc: int)
    | RunsOff(pc: int)
    | Collides(name: string, a: int)
    | ReachedAsCode(a: int)
    | NeverReached(a: int)
    | BadBias(pc: int)

  // ---- labels ---------------------------------------------------------------------------

  /** The label an address gets, if it gets one: a data table's or a code symbol's name, a target's, or
      a reference's unless it lies inside an instruction. */
  function LabelAt(t: Tables, starts: set<int>, covered: set<int>, targets: set<int>, refs: set<int>, a: int): Option<string> {
    if a in t.dataLabels then Some(t.dataLabels[a])
    else if a in t.symbols then Some(t.symbols[a])
    else if a in targets then Some("L_" + Hex4(a))
    else if a in refs && InRom(a) && (a in starts || (a !in covered && !IsCode(t.regions, a))) then
      Some((if IsCode(t.regions, a) then "L_" else "D_") + Hex4(a))
    else None
  }

  /** Names that have passed the check: none a register's, no two addresses under one name. */
  ghost predicate Passed(t: Tables, names: set<(int, string)>) {
    && (forall x :: x in names ==> !RegisterName(t, L.Upper(x.1)))
    && (forall x, y :: x in names && y in names && L.Upper(x.1) == L.Upper(y.1) ==> x.0 == y.0)
  }

  ghost function Named(table: map<int, string>): set<(int, string)> {
    set a | a in table :: (a, table[a])
  }

  ghost function AllNames(t: Tables, labels: map<int, string>): set<(int, string)> {
    Named(labels) + Named(t.zp)
  }

  lemma PassedIsNoCollision(t: Tables, labels: map<int, string>)
    ensures Passed(t, AllNames(t, labels)) <==> NoCollision(t, labels)
  {
    hide L.Upper, RegisterName;
    var names := AllNames(t, labels);
    assert forall a :: a in labels ==> (a, labels[a]) in names;
    assert forall a :: a in t.zp ==> (a, t.zp[a]) in names;
  }

  class Disassembler {
    const t: Tables
    const img: Image
    var starts: set<int>
    var covered: set<int>
    var refs: set<int>
    var targets: set<int>
    var labels: map<int, string>
    var problems: seq<Problem>
    var out: seq<L.Item>

    constructor (t: Tables, img: Image)
      requires WellFormed(t)
      ensures this.t == t && this.img == img && Traced() && Explored() && starts == {} && labels == map[]
      ensures problems == [] && out == []
    {
      this.t := t;
      this.img := img;
      starts, covered, refs, targets, labels, problems, out := {}, {}, {}, {}, map[], [], [];
    }

    ghost function View(): Prog
      reads this`starts, this`labels
    {
      Prog(t, img, starts, labels)
    }

    /** What the four sets say about each other. */
    ghost predicate Traced()
      reads this`starts, this`covered, this`targets, this`refs
    {
      && (forall a :: a in starts ==> Decodes(img, a))
      && (forall a :: a in covered <==> CoveredBy(img, starts, a))
      && (forall a :: a in targets <==> TargetOf(img, starts, a))
      && (forall a :: a in refs <==> RefOf(img, starts, a))
    }

    /** Nothing is left to follow. */
    ghost predicate Explored()
      reads this`starts
    {
      Closed(img, starts)
    }

    /** One instruction decoded. */
    method Take(pc: int)
      requires Traced() && Decodes(img, pc) && pc !in starts
      modifies this`starts, this`covered, this`refs, this`targets
      ensures Traced() && starts == old(starts) + {pc}
    {
      hide Targets, Refs, Decodes, OpAt;
      var n := LengthAt(img, pc);
      starts := starts + {pc};
      var i := 0;
      while i < n
        invariant 0 <= i <= n
        invariant forall a :: a in covered <==> a in old(covered) || pc <= a < pc + i
        modifies this`covered
      {
        covered := covered + {pc + i};
        i := i + 1;
      }
      targets := targets + Targets(img, pc);
      refs := refs + Refs(img, pc);
    }

    /** Where an instruction goes: on to `next`, what it names stacked for later, or nowhere. */
    method Turn(pc: int, stack: seq<int>) returns (on: bool, next: int, pending: seq<int>)
      requires Decodes(img, pc)
      ensures Elements(stack) + Successors(img, pc) == if on then Elements(pending) + {next} else Elements(pending)
      ensures |stack| <= |pending|
    {
      hide Decodes, Successors, Decode, Signed, Elements, Word, ByteAt, OpAt, LengthAt, BranchTarget, Terminal, Length;
      WaysOn(img, pc);
      var o := Decode(ByteAt(img, pc)).value;
      on, next, pending := true, pc + Length(o.mode), stack;
      if o.mode == Rel {
        var tgt := next + Signed(ByteAt(img, pc + 1));
        PushOne(stack, tgt, next);
        pending := stack + [tgt];
      } else if o.mnemonic == JSR {
        PushOne(stack, Word(img, pc + 1), next);
        pending := stack + [Word(img, pc + 1)];
      } else if o.mnemonic == JMP && o.mode == Abs {
        next := Word(img, pc + 1);
      } else if Terminal(o) {
        on := false;
      }
    }

    /** The inner loop: a straight line of instructions from `pc`, its branch and JSR targets stacked for
        later. */
    method Line(entry: int, start: int, stack: seq<int>, ghost before: set<int>, ghost found: seq<Problem>)
      returns (pending: seq<int>)
      requires Traced() && found <= problems
      requires Going(img, entry, before, starts, Elements(stack) + {start}, |problems| == |found|)
      modifies this`starts, this`covered, this`refs, this`targets, this`problems
      ensures Traced() && found <= problems
      ensures Going(img, entry, before, starts, Elements(pending), |problems| == |found|)
      ensures |Unseen(starts)| < |Unseen(old(starts))| || (starts == old(starts) && |pending| == |stack|)
    {
      hide Decodes, Successors, Reachable, Targets, Going, Closed, Traced, Decode, Unseen, Signed, Elements, Word,
           ByteAt;
      pending := stack;
      var pc := start;
      while true
        invariant Traced() && found <= problems
        invariant Going(img, entry, before, starts, Elements(pending) + {pc}, |problems| == |found|)
        invariant |Unseen(starts)| < |Unseen(old(starts))| || (starts == old(starts) && |pending| == |stack|)
        decreases |Unseen(starts)|
      {
        DecodesIff(img, pc);
        if !InRom(pc) || pc in starts {
          GoPast(img, entry, before, starts, pc, Elements(pending), |problems| == |found|);
          return;
        }
        var op := Decode(ByteAt(img, pc));
        if op.None? {
          assert !Decodes(img, pc);
          GoPast(img, entry, before, starts, pc, Elements(pending), |problems| == |found|);
          problems := problems + [Undefined(pc)];
          return;
        }
        var o := op.value;
        if pc + Length(o.mode) > ROM_END {
          GoPast(img, entry, before, starts, pc, Elements(pending), |problems| == |found|);
          problems := problems + [RunsOff(pc)];
          return;
        }
        FewerUnseen(starts, pc);
        GoOn(img, entry, before, starts, pc, Elements(pending), |problems| == |found|);
        Take(pc);
        var on, next, more := Turn(pc, pending);
        pending := more;
        if !on {
          return;
        }
        pc := next;
      }
    }

    /** `walk`: recursive descent over a stack of addresses. It ends on every image; what it has decoded
        then is exactly what it had before and every whole instruction the entry reaches; and a first
        walk complains exactly when the entry reaches a place in the cartridge where there is none. */
    method Walk(entry: int)
      requires Traced() && Explored()
      modifies this`starts, this`covered, this`refs, this`targets, this`problems
      ensures Traced() && Explored() && old(problems) <= problems
      ensures forall a :: a in starts <==> a in old(starts) || (Decodes(img, a) && F.Reaches(img, entry, a))
      ensures old(starts) == {} ==>
                (|problems| == |old(problems)| <==> forall a :: F.Reaches(img, entry, a) && InRom(a) ==> Decodes(img, a))
    {
      Begin(img, entry, starts);
      hide Decodes, F.Reaches, Going, Closed, Unseen, Elements, CoveredBy, TargetOf, RefOf;
      ghost var before, found := starts, problems;
      var pending := [entry];
      while pending != []
        invariant Traced() && found <= problems
        invariant Going(img, entry, before, starts, Elements(pending), |problems| == |found|)
        decreases |Unseen(starts)|, |pending|
      {
        Pop(pending);
        pending := Line(entry, pending[|pending| - 1], pending[..|pending| - 1], before, found);
      }
      End(img, entry, before, starts, |problems| == |found|);
    }

    // ---- labels -------------------------------------------------------------------------

    /** `build_labels`: the map's names first, then the targets', then the references'. */
    method BuildLabels()
      requires WellFormed(t) && Traced() && labels == map[]
      modifies this`labels
      ensures forall a :: a in labels <==> LabelAt(t, starts, covered, targets, refs, a).Some?
      ensures forall a :: a in labels ==> labels[a] == LabelAt(t, starts, covered, targets, refs, a).value
    {
      hide Decodes, Traced, Hex4, WellFormed, IsCode;
      labels := t.symbols + t.dataLabels;
      ghost var named := labels;
      var todo := targets;
      while todo != {}
        invariant todo <= targets
        invariant forall a :: a in labels <==> a in named || (a in targets && a !in todo)
        invariant forall a :: a in labels ==> labels[a] == if a in named then named[a] else "L_" + Hex4(a)
        decreases |todo|
      {
        NonEmpty(todo);
        var a :| a in todo;
        if a !in labels {
          labels := labels[a := "L_" + Hex4(a)];
        }
        todo := todo - {a};
      }
      todo := refs;
      ghost var kept := labels;
      while todo != {}
        invariant todo <= refs
        invariant forall a :: a in labels <==> a in kept || (a in refs && a !in todo && Referable(a))
        invariant forall a :: a in labels ==>
                    labels[a] == if a in kept then kept[a] else (if IsCode(t.regions, a) then "L_" else "D_") + Hex4(a)
        decreases |todo|
      {
        NonEmpty(todo);
        var a :| a in todo;
        var inside := a in covered && a !in starts;
        var code := IsCode(t.regions, a);
        if InRom(a) && a !in labels && !inside && !(code && a !in starts) {
          labels := labels[a := (if code then "L_" else "D_") + Hex4(a)];
        }
        todo := todo - {a};
      }
    }

    ghost predicate Referable(a: int)
      reads this`starts, this`covered
    {
      InRom(a) && (a in starts || (a !in covered && !IsCode(t.regions, a)))
    }

    /** One name of the check: not a register's, and not another address's. */
    method CheckName(name: string, a: int, registers: set<string>, seen: map<string, int>, ghost names: set<(int, string)>)
      returns (after: map<string, int>)
      requires forall n :: n in registers <==> RegisterName(t, n)
      requires Checked(t, names, seen)
      modifies this`problems
      ensures old(problems) <= problems
      ensures Checked(t, names + {(a, name)}, after)
      ensures Passed(t, names) ==> (|problems| == |old(problems)| <==> Passed(t, names + {(a, name)}))
    {
      hide L.Upper, RegisterName;
      var key := L.Upper(name);
      if key in registers {
        problems := problems + [Collides(name, a)];
      }
      if key in seen && seen[key] != a {
        problems := problems + [Collides(name, a)];
      }
      after := seen[key := a];
      NameChecked(t, names, a, name, seen);
    }

    /** The check over the names of one table. */
    method CheckAll(table: map<int, string>, registers: set<string>, before: map<string, int>, ghost names: set<(int, string)>)
      returns (seen: map<string, int>)
      requires forall n :: n in registers <==> RegisterName(t, n)
      requires Checked(t, names, before)
      modifies this`problems
      ensures old(problems) <= problems
      ensures Checked(t, names + Named(table), seen)
      ensures Passed(t, names) ==> (|problems| == |old(problems)| <==> Passed(t, names + Named(table)))
      ensures !Passed(t, names) ==> !Passed(t, names + Named(table))
    {
      hide L.Upper, RegisterName, Passed, Checked;
      seen := before;
      ghost var found, now := problems, names;
      var todo := table.Keys;
      assert now == names + set a | a in table && a !in todo :: (a, table[a]);
      while todo != {}
        invariant todo <= table.Keys && found <= problems
        invariant now == names + set a | a in table && a !in todo :: (a, table[a])
        invariant Checked(t, now, seen) && (Passed(t, names) ==> (|problems| == |found| <==> Passed(t, now)))
        invariant !Passed(t, names) ==> !Passed(t, now)
        decreases |todo|
      {
        NonEmpty(todo);
        var a :| a in todo;
        StillChecked(t, now, a, table[a]);
        seen := CheckName(table[a], a, registers, seen, now);
        now := now + {(a, table[a])};
        todo := todo - {a};
      }
      assert now == names + Named(table);
    }

    /** The case-insensitive name check over the labels and the cells. */
    method CheckNames()
      requires WellFormed(t)
      modifies this`problems
      ensures old(problems) <= problems
      ensures |problems| == |old(problems)| <==> NoCollision(t, labels)
    {
      hide L.Upper, WellFormed, RegisterName, Passed, Checked, NoCollision, Named;
      var registers := (set i | 0 <= i < |t.tiaW| :: L.Upper(t.tiaW[i])) + (set i | 0 <= i < |t.tiaR| :: L.Upper(t.tiaR[i]))
                       + (set a | a in t.riot :: L.Upper(t.riot[a]));
      Registers(t);
      NoNames(t);
      var seen := CheckAll(labels, registers, map[], {});
      ghost var labelled := Named(labels);
      assert {} + labelled == labelled;
      seen := CheckAll(t.zp, registers, seen, labelled);
      PassedIsNoCollision(t, labels);
    }

    // ---- region agreement -----------------------------------------------------------------

    /** The bytes the map declares as code. */
    method Declared() returns (declared: set<int>)
      ensures forall a :: a in declared <==> IsCode(t.regions, a)
    {
      declared := {};
      var k := 0;
      while k < |t.regions|
        invariant k <= |t.regions|
        invariant forall a :: a in declared <==> exists j :: 0 <= j < k && Holds(t.regions[j], a) && t.regions[j].code
      {
        if t.regions[k].code {
          declared := declared + set a | t.regions[k].lo <= a < t.regions[k].hi && Holds(t.regions[k], a);
        }
        k := k + 1;
      }
    }

    /** One complaint for each address of a set. */
    method Complain(addresses: set<int>, asCode: bool)
      modifies this`problems
      ensures |problems| == |old(problems)| + |addresses| && old(problems) <= problems
    {
      ghost var found := problems;
      var todo := addresses;
      while todo != {}
        invariant |problems| == |found| + |addresses| - |todo| && found <= problems
        decreases |todo|
      {
        NonEmpty(todo);
        var a :| a in todo;
        problems := problems + [if asCode then ReachedAsCode(a) else NeverReached(a)];
        todo := todo - {a};
      }
    }

    /** `regions_agree`: it complains exactly when the bytes reached as code are not the bytes declared
        as code. */
    method RegionsAgree()
      modifies this`problems
      ensures old(problems) <= problems
      ensures |problems| == |old(problems)| <==> forall a :: a in covered <==> IsCode(t.regions, a)
    {
      var declared := Declared();
      Complain(covered - declared, true);
      Complain(declared - covered, false);
      SameSets(covered, declared);
    }

    // ---- emission -------------------------------------------------------------------------

    /** One instruction printed, and its biased operand checked. */
    method Render(pc: int) returns (item: L.Item)
      requires Shaped(View()) && pc in starts
      modifies this`problems
      ensures item == InstrAt(View(), pc) && old(problems) <= problems
      ensures |problems| == |old(problems)| <==> Biased(View(), pc)
    {
      if pc in t.bias && LengthAt(img, pc) != 2 {
        if !InRom(pc + 2) || Word(img, pc + 1) != t.bias[pc].site + t.bias[pc].delta {
          problems := problems + [BadBias(pc)];
        }
      }
      item := InstrAt(Prog(t, img, starts, labels), pc);
    }

    /** `emit_code`. */
    method EmitCode(lo: int, hi: int)
      requires Shaped(View()) && ROM_BASE <= lo && hi <= ROM_END
      modifies this`out, this`problems
      ensures out == old(out) + Printer.EmitCode(View(), lo, hi) && old(problems) <= problems
      ensures |problems| == |old(problems)| <==> AllBiased(View(), lo, hi)
    {
      hide Shaped, Decodes, InstrAt, LabelItem, Biased, Printer.EmitCode, Visits, AllBiased;
      ghost var p, before, found := View(), out, problems;
      var pc := lo;
      while pc < hi
        invariant lo <= pc && found <= problems
        invariant out + Printer.EmitCode(p, pc, hi) == before + Printer.EmitCode(p, lo, hi)
        invariant |problems| == |found| && AllBiased(p, pc, hi) <==> AllBiased(p, lo, hi)
        decreases hi - pc
      {
        EmitCodeStep(p, pc, hi, out);
        BiasStep(p, pc, hi);
        if pc in labels {
          out := out + [L.Label(labels[pc])];
        }
        if pc !in starts {
          out := out + [L.Data([ByteAt(img, pc)])];
          pc := pc + 1;
        } else {
          var item := Render(pc);
          out := out + [item];
          pc := pc + LengthAt(img, pc);
        }
      }
      EmitCodeEnds(p, pc, hi);
      assert out + [] == out;
    }

    /** `emit_data`: rows of eight, broken at labels; the vectors as words. */
    method EmitData(r: Region)
      requires ROM_BASE <= r.lo <= r.hi <= ROM_END
      modifies this`out
      ensures out == old(out) + Printer.EmitData(View(), r, r.lo, [])
    {
      hide LabelItem, VectorAt, ByteAt, Printer.EmitData;
      ghost var p, before := View(), out;
      var pc, row: seq<byte> := r.lo, [];
      while pc < r.hi
        invariant r.lo <= pc <= r.hi && (AreVectors(r) ==> (r.hi - pc) % 2 == 0)
        invariant out + Printer.EmitData(p, r, pc, row) == before + Printer.EmitData(p, r, r.lo, [])
        decreases r.hi - pc
      {
        DataRound(p, r, pc, row, out);
        if pc in labels && row != [] {
          out := out + [L.Data(row)];
          row := [];
        }
        if pc in labels {
          out := out + [L.Label(labels[pc])];
        }
        if AreVectors(r) {
          out := out + [VectorAt(Prog(t, img, starts, labels), pc)];
          pc := pc + 2;
        } else {
          row := row + [ByteAt(img, pc)];
          pc := pc + 1;
          if |row| == 8 {
            out := out + [L.Data(row)];
            row := [];
          }
        }
      }
      EmitDataEnd(p, r, row);
      assert out + [] == out;
      if row != [] {
        out := out + [L.Data(row)];
      }
    }

    /** One region. */
    method EmitOne(r: Region)
      requires Shaped(View()) && ROM_BASE <= r.lo <= r.hi <= ROM_END
      modifies this`out, this`problems
      ensures out == old(out) + EmitRegion(View(), r) && old(problems) <= problems
      ensures |problems| == |old(problems)| <==> (r.code ==> AllBiased(View(), r.lo, r.hi))
    {
      hide Shaped, AllBiased, Printer.EmitCode, Printer.EmitData;
      if r.code {
        EmitCode(r.lo, r.hi);
      } else {
        EmitData(r);
      }
    }

    /** `emit`: region by region. */
    method Emit()
      requires Shaped(View())
      modifies this`out, this`problems
      ensures out == old(out) + Source(View()) && old(problems) <= problems
      ensures |problems| == |old(problems)| <==> AllBiasesHold(View())
    {
      hide Shaped, EmitRegion, AllBiased, Source, AllBiasesHold, EmitFrom, BiasedTo;
      ghost var p, before, found := View(), out, problems;
      FromEnds(p, out);
      var k := 0;
      while k < |t.regions|
        invariant k <= |t.regions| && found <= problems
        invariant out + EmitFrom(p, k) == before + Source(p)
        invariant |problems| == |found| <==> BiasedTo(p, k)
      {
        FromStep(p, k, out);
        EmitOne(t.regions[k]);
        k := k + 1;
      }
      FromEnds(p, out);
    }

    /** The whole run, and when it reports no problem: the entry reaches only whole instructions, names
        are unique, the bytes reached are the bytes declared, and every biased operand comes out right.
        Then what it has printed is the source of a sound program. */
    method Disassemble() returns (ok: bool)
      requires WellFormed(t) && Traced() && Explored() && starts == {} && labels == map[] && problems == [] && out == []
      modifies this
      ensures Shaped(View()) && out == Source(View())
      ensures forall a :: a in starts <==> Decodes(img, a) && F.Reaches(img, ROM_BASE, a)
      ensures ok <==> && (forall a :: F.Reaches(img, ROM_BASE, a) && InRom(a) ==> Decodes(img, a))
                      && NoCollision(t, labels)
                      && (forall a :: CoveredBy(img, starts, a) <==> IsCode(t.regions, a))
                      && AllBiasesHold(View())
      ensures ok ==> Sound(View())
    {
      hide WellFormed, F.Reaches, NoCollision, IsCode, AllBiasesHold, Source, Decodes, CoveredBy, Closed, Shaped;
      Walk(ROM_BASE);
      ghost var n1 := |problems|;
      BuildLabels();
      CheckNames();
      ghost var n2 := |problems|;
      RegionsAgree();
      ghost var n3 := |problems|;
      LabelsAreShaped(View(), covered, targets, refs);
      Emit();
      assert [] + Source(View()) == Source(View());
      ok := problems == [];
    }
  }

  /** The names seen so far, under the addresses they were seen at. */
  ghost predicate Checked(t: Tables, names: set<(int, string)>, seen: map<string, int>) {
    && (forall n :: n in seen <==> exists x :: x in names && L.Upper(x.1) == n)
    && (Passed(t, names) ==> forall x :: x in names ==> seen[L.Upper(x.1)] == x.0)
  }

  lemma NoNames(t: Tables)
    ensures Passed(t, {}) && Checked(t, {}, map[])
  {
  }

  lemma StillChecked(t: Tables, names: set<(int, string)>, a: int, name: string)
    ensures !Passed(t, names) ==> !Passed(t, names + {(a, name)})
  {
    hide L.Upper, RegisterName;
  }

  lemma Registers(t: Tables)
    ensures forall n :: RegisterName(t, n) <==>
              n in (set i | 0 <= i < |t.tiaW| :: L.Upper(t.tiaW[i])) + (set i | 0 <= i < |t.tiaR| :: L.Upper(t.tiaR[i]))
                   + (set a | a in t.riot :: L.Upper(t.riot[a]))
  {
    hide L.Upper;
  }

  lemma NameChecked(t: Tables, names: set<(int, string)>, a: int, name: string, seen: map<string, int>)
    requires Checked(t, names, seen)
    ensures Checked(t, names + {(a, name)}, seen[L.Upper(name) := a])
    ensures Passed(t, names) ==>
              (Passed(t, names + {(a, name)}) <==>
                 !RegisterName(t, L.Upper(name)) && (L.Upper(name) in seen ==> seen[L.Upper(name)] == a))
  {
    hide L.Upper, RegisterName;
  }

  lemma LabelThen(p: Prog, pc: int, out: seq<L.Item>, rest: seq<L.Item>)
    ensures (if pc in p.labels then out + [L.Label(p.labels[pc])] else out) + rest == out + (LabelItem(p, pc) + rest)
  {
  }

  /** What one round of the code emitter adds, and what is left. */
  lemma EmitCodeStep(p: Prog, pc: int, hi: int, out: seq<L.Item>)
    requires Shaped(p) && ROM_BASE <= pc < hi <= ROM_END
    ensures pc in p.starts ==> Decodes(p.img, pc)
    ensures var out1 := if pc in p.labels then out + [L.Label(p.labels[pc])] else out;
            && (pc in p.starts ==>
                  (out1 + [InstrAt(p, pc)]) + EmitCode(p, pc + LengthAt(p.img, pc), hi) == out + EmitCode(p, pc, hi))
            && (pc !in p.starts ==>
                  (out1 + [L.Data([ByteAt(p.img, pc)])]) + EmitCode(p, pc + 1, hi) == out + EmitCode(p, pc, hi))
  {
    hide InstrAt, LabelItem;
    if pc in p.starts {
      var i, rest := InstrAt(p, pc), EmitCode(p, pc + LengthAt(p.img, pc), hi);
      LabelThen(p, pc, out, [i] + rest);
      assert LabelItem(p, pc) + ([i] + rest) == (LabelItem(p, pc) + [i]) + rest;
    } else {
      var i, rest := L.Data([ByteAt(p.img, pc)]), EmitCode(p, pc + 1, hi);
      LabelThen(p, pc, out, [i] + rest);
      assert LabelItem(p, pc) + ([i] + rest) == (LabelItem(p, pc) + [i]) + rest;
    }
  }

  /** Every biased operand the emitter comes to is right. */
  ghost predicate AllBiased(p: Prog, pc: int, hi: int)
    requires Shaped(p) && ROM_BASE <= pc && hi <= ROM_END
  {
    forall q :: Visits(p, pc, hi, q) ==> Biased(p, q)
  }

  lemma BiasStep(p: Prog, pc: int, hi: int)
    requires Shaped(p) && ROM_BASE <= pc < hi <= ROM_END
    ensures AllBiased(p, pc, hi) <==>
              (pc in p.starts ==> Biased(p, pc)) && AllBiased(p, pc + if pc in p.starts then LengthAt(p.img, pc) else 1, hi)
  {
    var next := pc + if pc in p.starts then LengthAt(p.img, pc) else 1;
    hide Shaped, Biased, LengthAt;
    if AllBiased(p, pc, hi) {
      assert pc in p.starts ==> Visits(p, pc, hi, pc);
      forall q | Visits(p, next, hi, q)
        ensures Biased(p, q)
      {
        assert Visits(p, pc, hi, q);
      }
    }
  }

  lemma EmitCodeEnds(p: Prog, pc: int, hi: int)
    requires Shaped(p) && ROM_BASE <= pc && hi <= pc && hi <= ROM_END
    ensures EmitCode(p, pc, hi) == [] && AllBiased(p, pc, hi)
  {
  }

  /** What is still to print, and whether the operands printed are right, at region `k`. */
  ghost function EmitFrom(p: Prog, k: nat): seq<L.Item>
    requires Shaped(p) && k <= |p.t.regions|
  {
    RegionsLie(p);
    EmitAll(p, p.t.regions[k..])
  }

  ghost predicate BiasedTo(p: Prog, k: nat)
    requires Shaped(p) && k <= |p.t.regions|
  {
    RegionsLie(p);
    BiasesHold(p, p.t.regions[..k])
  }

  lemma FromEnds(p: Prog, out: seq<L.Item>)
    requires Shaped(p)
    ensures EmitFrom(p, 0) == Source(p) && BiasedTo(p, 0)
    ensures out + EmitFrom(p, |p.t.regions|) == out && (BiasedTo(p, |p.t.regions|) <==> AllBiasesHold(p))
  {
    RegionsLie(p);
    assert p.t.regions[0..] == p.t.regions && p.t.regions[..|p.t.regions|] == p.t.regions;
    hide Shaped;
  }

  lemma EmitsNext(p: Prog, k: nat)
    requires Shaped(p) && k < |p.t.regions|
    ensures var r := p.t.regions[k];
            ROM_BASE <= r.lo <= r.hi <= ROM_END && EmitFrom(p, k) == EmitRegion(p, r) + EmitFrom(p, k + 1)
  {
    hide Shaped, EmitRegion;
    RegionsLie(p);
    var rs := p.t.regions;
    assert rs[k..][1..] == rs[k + 1..] && rs[k..][0] == rs[k];
  }

  lemma BiasesNext(p: Prog, k: nat)
    requires Shaped(p) && k < |p.t.regions|
    ensures var r := p.t.regions[k];
            && ROM_BASE <= r.lo <= r.hi <= ROM_END
            && (BiasedTo(p, k + 1) <==> BiasedTo(p, k) && (r.code ==> AllBiased(p, r.lo, r.hi)))
  {
    hide Shaped, Visits, Biased;
    RegionsLie(p);
    var rs := p.t.regions;
    assert forall j :: 0 <= j < k ==> rs[..k + 1][j] == rs[..k][j];
    assert rs[..k + 1][k] == rs[k];
  }

  lemma FromStep(p: Prog, k: nat, out: seq<L.Item>)
    requires Shaped(p) && k < |p.t.regions|
    ensures var r := p.t.regions[k];
            && ROM_BASE <= r.lo <= r.hi <= ROM_END
            && (out + EmitRegion(p, r)) + EmitFrom(p, k + 1) == out + EmitFrom(p, k)
            && (BiasedTo(p, k + 1) <==> BiasedTo(p, k) && (r.code ==> AllBiased(p, r.lo, r.hi)))
  {
    hide Shaped, EmitRegion, EmitFrom, BiasedTo, AllBiased;
    EmitsNext(p, k);
    BiasesNext(p, k);
    Associate(out, EmitRegion(p, p.t.regions[k]), EmitFrom(p, k + 1));
  }

  lemma DataRound(p: Prog, r: Region, pc: int, row: seq<byte>, out: seq<L.Item>)
    requires ROM_BASE <= pc < r.hi <= ROM_END && (AreVectors(r) ==> (r.hi - pc) % 2 == 0)
    ensures var cut := pc in p.labels;
            var out1 := if cut && row != [] then out + [L.Data(row)] else out;
            var rest := if cut then [] else row;
            var out2 := if cut then out1 + [L.Label(p.labels[pc])] else out1;
            out + EmitData(p, r, pc, row) ==
              if AreVectors(r) then (out2 + [VectorAt(p, pc)]) + EmitData(p, r, pc + 2, rest)
              else if |rest| == 7 then (out2 + [L.Data(rest + [ByteAt(p.img, pc)])]) + EmitData(p, r, pc + 1, [])
              else out2 + EmitData(p, r, pc + 1, rest + [ByteAt(p.img, pc)])
  {
    EmitDataStep(p, r, pc, row);
    hide VectorAt, ByteAt, EmitData;
    var rest, flushed, name := Kept(p, pc, row), if pc in p.labels then Flush(row) else [], LabelItem(p, pc);
    Associate(out, flushed + name, DataTail(p, r, pc, rest));
    Associate(out, flushed, name);
    if AreVectors(r) {
      Associate((out + flushed) + name, [VectorAt(p, pc)], EmitData(p, r, pc + 2, rest));
    } else if |rest| == 7 {
      Associate((out + flushed) + name, [L.Data(rest + [ByteAt(p.img, pc)])], EmitData(p, r, pc + 1, []));
    }
    assert out + [] == out && (out + flushed) + [] == out + flushed;
  }

  lemma Associate<T>(a: seq<T>, b: seq<T>, c: seq<T>)
    ensures a + (b + c) == (a + b) + c
  {
  }

  lemma LabelsAreShaped(p: Prog, covered: set<int>, targets: set<int>, refs: set<int>)
    requires WellFormed(p.t) && forall a :: a in p.starts ==> Decodes(p.img, a)
    requires forall a :: a in p.labels <==> LabelAt(p.t, p.starts, covered, targets, refs, a).Some?
    requires forall a :: a in p.labels ==> p.labels[a] == LabelAt(p.t, p.starts, covered, targets, refs, a).value
    ensures Shaped(p)
  {
    hide Hex4, IsCode, Decodes;
  }

  lemma SameSets(s: set<int>, z: set<int>)
    ensures |s - z| + |z - s| == 0 <==> forall a :: a in s <==> a in z
  {
    if |s - z| + |z - s| == 0 {
      assert s - z == {} && z - s == {};
      forall a
        ensures a in s <==> a in z
      {
        assert a !in s - z && a !in z - s;
      }
    }
    if forall a :: a in s <==> a in z {
      assert s - z == {} && z - s == {};
    }
  }

  lemma NonEmpty(s: set<int>)
    ensures s == {} || exists a :: a in s
  {
    if forall a :: a !in s {
      assert s == {};
    }
  }

  function Elements(s: seq<int>): set<int> {
    set a | a in s
  }

  lemma Push(s: seq<int>, a: int)
    ensures Elements(s + [a]) == Elements(s) + {a}
    ensures Elements([]) == {} && Elements([]) + {a} == {a}
  {
  }

  lemma PushOne(s: seq<int>, a: int, next: int)
    ensures Elements(s) + {a, next} == Elements(s + [a]) + {next}
  {
  }

  lemma Pop(s: seq<int>)
    requires s != []
    ensures Elements(s) == Elements(s[..|s| - 1]) + {s[|s| - 1]}
  {
    Push(s[..|s| - 1], s[|s| - 1]);
    assert s[..|s| - 1] + [s[|s| - 1]] == s;
  }

  lemma Begin(img: Image, entry: int, starts: set<int>)
    requires Closed(img, starts) && forall a :: a in starts ==> Decodes(img, a)
    ensures Going(img, entry, starts, starts, Elements([entry]), true)
  {
    GoFirst(img, entry, starts);
    Push([], entry);
    assert [] + [entry] == [entry];
  }

  lemma End(img: Image, entry: int, before: set<int>, starts: set<int>, fine: bool)
    requires Going(img, entry, before, starts, Elements([]), fine)
    ensures Closed(img, starts)
    ensures forall a :: a in starts <==> a in before || (Decodes(img, a) && F.Reaches(img, entry, a))
    ensures before == {} ==> (fine <==> forall a :: F.Reaches(img, entry, a) && InRom(a) ==> Decodes(img, a))
  {
    hide Decodes, Reachable, F.Reaches;
    assert Elements([]) == {};
    GoEnd(img, entry, before, starts, fine);
    forall a
      ensures Reachable(img, entry, a) <==> F.Reaches(img, entry, a)
    {
      F.ReachableByBytes(img, entry, a);
    }
  }

  ghost function Unseen(s: set<int>): set<int> {
    (set a | ROM_BASE <= a < ROM_END && InRom(a)) - s
  }

  lemma FewerUnseen(s: set<int>, a: int)
    requires InRom(a) && a !in s
    ensures |Unseen(s + {a})| < |Unseen(s)|
  {
    assert Unseen(s) == Unseen(s + {a}) + {a};
  }

  lemma DecodesIff(img: Image, pc: int)
    ensures Decodes(img, pc) <==>
              InRom(pc) && Decode(ByteAt(img, pc)).Some? && pc + Length(Decode(ByteAt(img, pc)).value.mode) <= ROM_END
  {
  }

  /** Where control goes, case by case as the walk takes it. */
  lemma WaysOn(img: Image, pc: int)
    requires Decodes(img, pc)
    ensures InRom(pc) && Decode(ByteAt(img, pc)).Some?
    ensures var o, n, w := OpAt(img, pc), LengthAt(img, pc), Successors(img, pc);
            && o == Decode(ByteAt(img, pc)).value && n == Length(o.mode)
            && (o.mode == Rel ==> n == 2 && w == {BranchTarget(img, pc), pc + n} && BranchTarget(img, pc) == pc + n + Signed(ByteAt(img, pc + 1)))
            && (o.mnemonic == JSR ==> o.mode == Abs && n == 3 && w == {Word(img, pc + 1), pc + n})
            && (o.mnemonic == JMP && o.mode == Abs ==> n == 3 && w == {Word(img, pc + 1)})
            && (o.mode != Rel && o.mnemonic != JSR && !(o.mnemonic == JMP && o.mode == Abs) ==>
                  w == if Terminal(o) then {} else {pc + n})
  {
    hide Decode;
    DecodeEncode(ByteAt(img, pc));
  }
}
