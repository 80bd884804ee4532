/** The game bank's routines as they are: one entry byte full of flags, two rings and the game's RAM
    updated in place. Every routine is proved to do what module `Console` says. */
module Cells {
  import opened Bytes
  import opened Sim
  import opened Wire
  import C = Console
  import R = Restage

  const E_WARM := 1
  const E_NET := 2
  const E_ROLE := 4
  const E_RAN := 8
  const E_LEFT := 16
  const E_RSY := 32

  // ---- the entry byte -------------------------------------------------------------------

  /** The entry byte taken apart. */
  datatype Flags = Flags(phase: C.Phase, rsy: bool, left: bool, ran: bool, role: bool, net: bool, warm: bool)

  function FlagsOf(e: byte): Flags {
    Flags(e / 64, Has(e, E_RSY), Has(e, E_LEFT), Has(e, E_RAN), Has(e, E_ROLE), Has(e, E_NET), Has(e, E_WARM))
  }

  function Bit(b: bool): int {
    if b then 1 else 0
  }

  function Pack(f: Flags): (e: byte) {
    64 * f.phase + 32 * Bit(f.rsy) + 16 * Bit(f.left) + 8 * Bit(f.ran) + 4 * Bit(f.role) + 2 * Bit(f.net) + Bit(f.warm)
  }

  lemma Quotient(e: byte, n: int, q: int, low: int)
    requires n in {1, 2, 4, 8, 16, 32, 64, 128}
    requires e == n * q + low && 0 <= low < n
    ensures e / n == q
  {
    if n == 1 {}
    else if n == 2 {}
    else if n == 4 {}
    else if n == 8 {}
    else if n == 16 {}
    else if n == 32 {}
    else if n == 64 {}
    else {}
  }

  /** The quotient and the bit at a power of two, from the parts of a number. */
  lemma BitAt(e: byte, n: int, high: int, bit: bool, low: int)
    requires n in {1, 2, 4, 8, 16, 32, 64, 128}
    requires e == n * (2 * high + Bit(bit)) + low && 0 <= low < n
    ensures e / n == 2 * high + Bit(bit) && Has(e, n) == bit
  {
    Quotient(e, n, 2 * high + Bit(bit), low);
  }

  lemma PackHigh(f: Flags)
    ensures var e := Pack(f); e / 64 == f.phase && Has(e, E_RSY) == f.rsy && Has(e, E_LEFT) == f.left
  {
    hide Has;
    var e := Pack(f);
    var p: int, low := f.phase, 8 * Bit(f.ran) + 4 * Bit(f.role) + 2 * Bit(f.net) + Bit(f.warm);
    BitAt(e, 64, p / 2, p % 2 == 1, 32 * Bit(f.rsy) + 16 * Bit(f.left) + low);
    BitAt(e, 32, p, f.rsy, 16 * Bit(f.left) + low);
    BitAt(e, 16, 2 * p + Bit(f.rsy), f.left, low);
  }

  lemma PackLow(f: Flags)
    ensures var e := Pack(f);
            Has(e, E_RAN) == f.ran && Has(e, E_ROLE) == f.role && Has(e, E_NET) == f.net && Has(e, E_WARM) == f.warm
  {
    hide Has;
    var e := Pack(f);
    var h := 4 * f.phase + 2 * Bit(f.rsy) + Bit(f.left);
    BitAt(e, 8, h, f.ran, 4 * Bit(f.role) + 2 * Bit(f.net) + Bit(f.warm));
    BitAt(e, 4, 2 * h + Bit(f.ran), f.role, 2 * Bit(f.net) + Bit(f.warm));
    BitAt(e, 2, 4 * h + 2 * Bit(f.ran) + Bit(f.role), f.net, Bit(f.warm));
    BitAt(e, 1, 8 * h + 4 * Bit(f.ran) + 2 * Bit(f.role) + Bit(f.net), f.warm, 0);
  }

  lemma PackUnpacks(f: Flags)
    ensures FlagsOf(Pack(f)) == f
  {
    hide Has, Pack;
    PackHigh(f);
    PackLow(f);
  }

  lemma Halve(e: byte, n: int)
    requires n in {1, 2, 4, 8, 16, 32}
    ensures e / n == 2 * (e / (2 * n)) + Bit(Has(e, n))
  {
    if n == 1 {}
    else if n == 2 {}
    else if n == 4 {}
    else if n == 8 {}
    else if n == 16 {}
    else {}
  }

  lemma UnpackPacks(e: byte)
    ensures Pack(FlagsOf(e)) == e
  {
    hide Has;
    Halve(e, 1);
    Halve(e, 2);
    Halve(e, 4);
    Halve(e, 8);
    Halve(e, 16);
    Halve(e, 32);
  }

  /** A flag written is a flag of the parts written: setting, clearing and bumping touch their own
      bits and no other. */
  lemma SetIsOneFlag(e: byte)
    ensures FlagsOf(Set(e, E_RAN)) == FlagsOf(e).(ran := true)
    ensures FlagsOf(Set(e, E_RSY)) == FlagsOf(e).(rsy := true)
    ensures FlagsOf(Set(e, E_LEFT)) == FlagsOf(e).(left := true)
  {
    hide Has;
    var f := FlagsOf(e);
    UnpackPacks(e);
    PackUnpacks(f.(ran := true));
    PackUnpacks(f.(rsy := true));
    PackUnpacks(f.(left := true));
  }

  lemma ClearIsOneFlag(e: byte)
    ensures FlagsOf(Clear(e, E_RAN)) == FlagsOf(e).(ran := false)
    ensures FlagsOf(Clear(e, E_RSY)) == FlagsOf(e).(rsy := false)
  {
    hide Has;
    var f := FlagsOf(e);
    UnpackPacks(e);
    PackUnpacks(f.(ran := false));
    PackUnpacks(f.(rsy := false));
  }

  lemma ClearLeavesMatch(e: byte)
    ensures FlagsOf(Clear(e, E_NET)) == FlagsOf(e).(net := false)
    ensures FlagsOf(Clear(e, E_WARM)) == FlagsOf(e).(warm := false)
  {
    hide Has;
    var f := FlagsOf(e);
    UnpackPacks(e);
    PackUnpacks(f.(net := false));
    PackUnpacks(f.(warm := false));
  }

  lemma SetIsWarm(e: byte)
    ensures FlagsOf(Set(e, E_WARM)) == FlagsOf(e).(warm := true)
  {
    hide Has;
    UnpackPacks(e);
    PackUnpacks(FlagsOf(e).(warm := true));
  }

  lemma NetFlag(e: byte)
    ensures FlagsOf(e).net == Has(e, E_NET)
  {
  }

  /** Adding $40 bumps the phase and drops the carry. */
  lemma PhaseWraps(e: byte)
    ensures FlagsOf(Low(e + 64)) == FlagsOf(e).(phase := C.NextPhase(FlagsOf(e).phase))
  {
    hide Has, FlagsOf;
    var f := FlagsOf(e);
    UnpackPacks(e);
    var z := f.(phase := C.NextPhase(f.phase));
    PackUnpacks(z);
    PackPhase(f);
    hide Pack;
  }

  lemma PackPhase(f: Flags)
    ensures var z := f.(phase := C.NextPhase(f.phase));
            Pack(z) == if f.phase < 3 then Pack(f) + 64 else Pack(f) - 192
  {
  }

  // ---- the mailbox ----------------------------------------------------------------------

  /** What the cartridge shows the game bank. */
  datatype Box = Box(acks: byte, err: byte, dev: byte, avLo: byte, avHi: byte, rxLo: byte, reply: seq<byte>)

  function MailSeen(b: Box, seqNo: byte): C.Mail {
    C.Mail(b.acks == seqNo, b.err, b.dev, b.avLo, b.avHi, b.rxLo, b.reply)
  }

  /** Only the answer to the transaction in flight counts: with another's number in the mailbox the machine
      waits as it stands, and with its own it does not. */
  lemma OnlyItsOwnAnswer(c: C.Con, box: Box, seqNo: byte)
    requires c.nst in {C.WriteAck, C.StatusAck, C.ReadAck}
    ensures C.Step(c, MailSeen(box, seqNo)) == c <==> box.acks != seqNo
  {
    hide C.Bite;
  }

  /** The dispatch byte's states, two apart. */
  function StateOf(nst: byte): C.NetState {
    match nst
    case 2 => C.WriteIssue
    case 4 => C.WriteAck
    case 6 => C.StatusIssue
    case 8 => C.StatusAck
    case 10 => C.ReadIssue
    case 12 => C.ReadAck
    case 14 => C.Consume
    case 16 => C.Fail
    case _ => C.Idle
  }

  class Console {
    var ent: byte
    var seqNo: byte          // the sequence number waited for
    var err: byte
    var tick: byte
    var nst: byte
    var crcv: byte
    var adv: byte
    var trig0: byte
    var trig1: byte
    var swb: byte
    var rwat: byte
    var rdn: byte
    var w0: byte             // the host's wire byte, and scratch for the transport
    var w1: byte
    const ring: array<byte>
    const loc: array<byte>
    const ram: array<byte>

    ghost predicate Valid()
      reads this, ring, loc, ram
    {
      ring.Length == 8 && loc.Length == 4 && ram.Length == RAM_LEN
      && ring != loc && ring != ram && loc != ram
      && nst in {0, 2, 4, 6, 8, 10, 12, 14, 16}
    }

    /** The cells as module `Console` names them. */
    ghost function View(): C.Con
      reads this, ring, loc, ram
      requires Valid()
    {
      var f := FlagsOf(ent);
      C.Con(tick, rwat, ring[..], loc[..], crcv, Pads(trig0, trig1, swb % 4),
            f.phase, f.ran, f.rsy, f.net, f.warm, f.left, f.role,
            adv != 0, err, StateOf(nst), rdn)
    }

    /** CSREAD's last act: seed both rings and leave the cells the first boundary expects. */
    constructor Handover(role: bool)
      ensures Valid() && C.Handover(View(), role)
      ensures fresh(ring) && fresh(loc) && fresh(ram)
    {
      ring := new byte[8];
      loc := new byte[4];
      ram := new byte[RAM_LEN];
      tick, err, rwat, nst := 0xFF, 0, 0xFE, 2;
      ent := Pack(Flags(0, false, false, true, role, true, false));
      seqNo, crcv, adv, trig0, trig1, swb, rdn, w0, w1 := 0, 0, 0, 0, 0, 0, 0, 0, 0;
      new;
      PackUnpacks(Flags(0, false, false, true, role, true, false));
      var x: nat := 12;
      while x > 0
        invariant x <= 12 && Valid()
        invariant forall k :: 0 <= k < 4 && x <= k + 8 ==> loc[k] == IDLE
        invariant forall k :: x <= k < 8 ==> ring[k] == IDLE
        invariant fresh(ring) && fresh(loc) && fresh(ram)
        modifies ring, loc
      {
        x := x - 1;
        if x >= 8 {
          loc[x - 8] := IDLE;
        } else {
          ring[x] := IDLE;
        }
      }
      assert ring[..] == [IDLE, IDLE, IDLE, IDLE, IDLE, IDLE, IDLE, IDLE];
      assert loc[..] == [IDLE, IDLE, IDLE, IDLE];
    }

    // ---- the frame half -------------------------------------------------------------------

    /** DGPHI. */
    method BumpPhase()
      requires Valid()
      modifies this`ent
      ensures View() == old(View()).(phase := C.NextPhase(old(View()).phase))
    {
      PhaseWraps(ent);
      ent := Low(ent + 64);
    }

    /** DGCLK. */
    method TickClock()
      requires Valid()
      modifies ram
      ensures Valid() && View() == old(View()) && ram[..] == Clock(old(ram[..]))
    {
      ram[FRAME_CNT] := Inc(ram[FRAME_CNT]);
      if ram[FRAME_CNT] == 0 {
        ram[ATTRACT] := Inc(ram[ATTRACT]);
        if ram[ATTRACT] == 0 {
          ram[ATTRACT] := 128;
        }
      }
    }

    /** DGCRC: two counted loops and four steps. */
    method Checksum() returns (a: byte)
      requires Valid()
      ensures a == Crc(ram[..])
    {
      ghost var first := Descending(ram[..], RPM, RPM_LAST);
      ghost var second := Descending(ram[..], RACE_DONE, RACE_LAST);
      a := 0;
      var x: int := RPM_LAST;
      while x >= 0
        invariant -1 <= x <= RPM_LAST
        invariant FoldAll(0, first) == FoldAll(a, first[RPM_LAST - x..])
      {
        FoldStep(a, first, RPM_LAST - x);
        a := Fold(a, ram[RPM + x]);
        x := x - 1;
      }
      ghost var mid := a;
      x := RACE_LAST;
      while x >= 0
        invariant -1 <= x <= RACE_LAST
        invariant FoldAll(mid, second) == FoldAll(a, second[RACE_LAST - x..])
      {
        FoldStep(a, second, RACE_LAST - x);
        a := Fold(a, ram[RACE_DONE + x]);
        x := x - 1;
      }
      ghost var late := a;
      a := Fold(a, ram[GAME_VAR]);
      a := Fold(a, ram[FRAME_CNT]);
      a := Fold(a, ram[LFSR]);
      a := Fold(a, ram[COUNTDOWN]);
      LastFour(late, ram[GAME_VAR], ram[FRAME_CNT], ram[LFSR], ram[COUNTDOWN]);
      FoldInTwo(0, first, second);
      FoldInTwo(0, first + second, [ram[GAME_VAR], ram[FRAME_CNT], ram[LFSR], ram[COUNTDOWN]]);
    }

    /** DGRSY: a pending repair presses RESET into this byte, once. */
    method PressRepair(a: byte) returns (b: byte)
      requires Valid()
      modifies this`ent
      ensures b == if old(View()).rsy then Clear(a, IW_RST) else a
      ensures View() == old(View()).(rsy := false)
    {
      b := a;
      if Has(ent, E_RSY) {
        ClearIsOneFlag(ent);
        ent := Clear(ent, E_RSY);
        b := Clear(a, IW_RST);
      }
    }

    /** DGCAP: stick, trigger, RESET and SELECT into one byte, the inert bit forced on. */
    method CaptureByte(p: Ports) returns (b: byte)
      requires Valid()
      modifies this`ent
      ensures b == C.Captured(old(View()), p)
      ensures View() == old(View()).(rsy := false)
    {
      var tmp := p.swcha / 16;
      tmp := p.inpt4 / 128 * 128 + tmp;
      b := p.swchb % 4 * 16 + tmp;
      b := b + 64;
      b := PressRepair(b);
    }

    /** DGSTALL, and DGGONE when the count is full. */
    method Stall()
      requires Valid()
      modifies this`adv, this`err, this`ent
      ensures View() == C.Stall(old(View()))
    {
      adv := 0;
      if err >= 0xF0 {
        ClearLeavesMatch(ent);
        ClearLeavesMatch(Clear(ent, E_NET));
        SetIsOneFlag(Clear(Clear(ent, E_NET), E_WARM));
        ent := Set(Clear(Clear(ent, E_NET), E_WARM), E_LEFT);
      } else {
        err := err + 16;
      }
    }

    /** DGMIX: the two wire bytes into the sticks, the triggers and the switches. Only the B&W bit is
        this console's own. */
    method MixInputs(swchb: byte)
      requires Valid()
      modifies this`trig0, this`trig1, this`swb, ram
      ensures Valid() && ram[..] == WriteSticks(old(ram[..]), Mix(w0, w1))
      ensures ram[JOY0] == w0 % 16 && ram[JOY1] == w1 % 16
      ensures View() == old(View()).(pads := Mix(w0, w1).pads)
      ensures swb / 8 % 2 == swchb / 8 % 2
    {
      hide FlagsOf, StateOf, AndBit;
      ram[JOY0] := w0 % 16;
      ram[JOY1] := w1 % 16;
      trig0 := w0 / 128 * 128;
      trig1 := w1 / 128 * 128;
      var reset, select := AndBit(w0 / 16, w1 / 16), AndBit(w0 / 32, w1 / 32);
      SwitchByte(swchb / 8 % 2, reset, select);
      swb := 0xF4 + swchb / 8 % 2 * 8 + reset + 2 * select;
    }

    /** The tick number and the checksum move on together. */
    method NextTick()
      requires Valid()
      modifies this`tick, this`ent, this`crcv
      ensures Valid() && View() == old(View()).(tick := Inc(old(tick)), ran := false, crcv := Crc(ram[..]))
    {
      hide Clear, Crc, StateOf;
      tick := Inc(tick);
      ClearIsOneFlag(ent);
      ent := Clear(ent, E_RAN);
      crcv := Checksum();
    }

    /** The boundary after a tick that ran: the tick, the checksum and the capture, together. */
    method EnterTick(p: Ports)
      requires Valid()
      modifies this`tick, this`ent, this`crcv, loc
      ensures Valid() && View() == C.EnterTick(old(View()), ram[..], p)
    {
      hide Crc, StateOf;
      if Has(ent, E_RAN) {
        NextTick();
        var b := CaptureByte(p);
        loc[(tick + C.D) % 4] := b;
      }
    }

    /** The two bytes of the current tick, our own and the peer's, the guest's changing places. */
    method LoadInputs()
      requires Valid()
      modifies this`w0, this`w1
      ensures Valid() && View() == old(View()) && Pair(w0, w1) == C.Inputs(View())
    {
      w0 := loc[tick % 4];
      w1 := ring[tick % 8];
      if Has(ent, E_ROLE) {
        w0, w1 := w1, w0;
      }
    }

    /** DGNT2: the tick runs, on our own byte and the peer's. */
    method RunTick(swchb: byte)
      requires Valid()
      modifies this`err, this`w0, this`w1, this`trig0, this`trig1, this`swb, this`ent, ram
      ensures Valid() && View() == C.RunTick(old(View()))
      ensures ram[..] == Clock(WriteSticks(old(ram[..]), C.MixOf(C.Inputs(old(View())))))
    {
      hide Has, Set, Mix, C.NextPhase, WriteSticks, Clock, StateOf, FlagsOf;
      ghost var d := C.RunTick(View());
      err := err % 16;
      LoadInputs();
      MixInputs(swchb);
      SetIsOneFlag(ent);
      ent := Set(ent, E_RAN);
      BumpPhase();
      TickClock();
      assert View().pads == d.pads && View().err == d.err && View().phase == d.phase && View().ran == d.ran;
    }

    /** DGSHIM in a match. */
    method Shim(p: Ports)
      requires Valid()
      modifies this`adv, this`tick, this`ent, this`crcv, this`err, this`w0, this`w1,
               this`trig0, this`trig1, this`swb, loc, ram
      ensures Valid() && View() == C.Shim(old(View()), old(ram[..]), p).0
      ensures ram[..] == C.Shim(old(View()), old(ram[..]), p).1
    {
      hide Has, Set, Mix, C.NextPhase, WriteSticks, Clock, StateOf, C.RunTick, C.EnterTick, C.Stall, C.MixOf, C.Inputs;
      ghost var c := View();
      adv := 0xFF;
      assert View() == c.(adv := true);
      if ent / 64 != 0 {
        BumpPhase();
        TickClock();
      } else {
        EnterTick(p);
        if (rwat - tick) % 256 < 128 {
          RunTick(p.swchb);
        } else {
          Stall();
        }
      }
    }

    // ---- the restage ------------------------------------------------------------------------

    /** DGCLR: the clear from page zero cell `seed` up to the bound, the shadows back to idle in a
        match, and WARM. Says whether `StageRace` comes next; otherwise it is `NewGame`. The TIA
        registers below the RAM are strobed and not modelled. */
    method SweepRam(seed: byte) returns (restage: bool)
      requires Valid() && seed < RAM_LO + RAM_LEN
      modifies this`ent, ram
      ensures Valid() && View() == old(View()).(warm := true)
      ensures var from := if seed < RAM_LO then 0 else seed - RAM_LO;
              ram[..] == R.Swept(old(ram[..]), from, old(View()).net)
      ensures restage == (ram[LFSR] != 0) == R.Seeded(ram[..])
    {
      hide FlagsOf, StateOf;
      var x: int := seed;
      ghost var from := if seed < RAM_LO then 0 else seed - RAM_LO;
      while true
        modifies ram
        invariant seed <= x < RAM_LO + RAM_LEN
        invariant forall k :: 0 <= k < RAM_LEN ==>
                    ram[k] == if from <= k < x - RAM_LO then 0 else old(ram[k])
        decreases RAM_LO + RAM_LEN - x
      {
        if x >= RAM_LO {
          ram[x - RAM_LO] := 0;
        }
        x := x + 1;
        if x == RAM_LO + RAM_LEN {
          break;
        }
      }
      assert ram[..] == R.Cleared(old(ram[..]), from);
      NetFlag(ent);
      if Has(ent, E_NET) {
        ram[JOY0] := R.NOTHING_PUSHED;
        ram[JOY1] := R.NOTHING_PUSHED;
      }
      SetIsWarm(ent);
      ent := Set(ent, E_WARM);
      restage := ram[LFSR] != 0;
    }

    // ---- the transport half ---------------------------------------------------------------

    /** DGLNCH: the next sequence number after the one the cartridge last answered, never zero and
        never the one already answered, so a stale answer cannot pass for this one's. */
    method Launch(state: byte, acks: byte)
      requires Valid() && state in {4, 8, 12}
      modifies this`nst, this`seqNo
      ensures Valid() && seqNo != acks && seqNo != 0 && nst == state
      ensures View() == old(View()).(nst := StateOf(state))
    {
      hide FlagsOf;
      nst := state;
      seqNo := Inc(acks);
      if seqNo == 0 {
        seqNo := 1;
      }
    }

    /** The three window bytes counted off the local ring, each into the check byte as it goes out. */
    method SendWindow(ghost r: Rec) returns (bytes: seq<byte>)
      requires Valid() && r == C.RecordOf(View()) && w0 == Low(tick + C.D) && w1 == Xor(w0, SEED)
      modifies this`w0, this`w1
      ensures Valid() && View() == old(View()) && bytes == [r.w0, r.w1, r.w2] && w1 == CheckAfter(r, WIN)
    {
      hide Has, FlagsOf, Xor, Low;
      bytes := [];
      var x: nat := WIN;
      while x > 0
        invariant x <= WIN && w0 == Low(tick + C.D - (WIN - x))
        invariant bytes == [r.w0, r.w1, r.w2][..WIN - x] && w1 == CheckAfter(r, WIN - x)
      {
        LowIndex(tick + C.D - (WIN - x), 0);
        LowIndex(tick + C.D - (WIN - x), -1);
        var b := loc[w0 % 4];
        bytes := bytes + [b];
        w1 := Xor(b, w1);
        w0 := Low(w0 - 1);
        x := x - 1;
      }
    }

    /** DGSWISS: the record for `tick + d`, its check byte accumulated as the frame goes out. */
    method WriteIssue(acks: byte) returns (tx: seq<byte>)
      requires Valid()
      modifies this`nst, this`seqNo, this`w0, this`w1
      ensures Valid() && View() == old(View()).(nst := C.WriteAck)
      ensures tx == [2, 8, 0] + Encode(Input(C.RecordOf(old(View()))))
      ensures seqNo != acks && seqNo != 0
    {
      hide Has, FlagsOf, Xor, Low, CheckAfter;
      ghost var r := C.RecordOf(View());
      w0 := Low(tick + C.D);
      w1 := Xor(w0, SEED);
      tx := [2, 8, 0] + [7, T_INPUT, w0];
      var window := SendWindow(r);
      WindowCheck(r);
      tx := tx + window + [crcv, Xor(crcv, w1)];
      assert tx == [2, 8, 0] + Encode(Input(r));
      Launch(4, acks);
    }

    /** DGSFAIL. */
    method Fail()
      requires Valid()
      modifies this`err, this`nst
      ensures Valid() && View() == C.Failed(old(View()))
    {
      err := err / 16 * 16 + C.FNE_BAD;
      nst := 2;
    }

    /** The desync test: only when the record's checksum samples the tick this console is on, and
        only when no repair is armed yet. */
    method CompareChecksums(r: Rec)
      requires Valid()
      modifies this`ent
      ensures Valid() && View() == old(View()).(rsy := old(View()).rsy || (C.Comparable(tick, r) && r.crc != crcv))
    {
      if Low(r.tick - C.D) == tick {
        if !Has(ent, E_RSY) {
          if r.crc != crcv {
            SetIsOneFlag(ent);
            ent := Set(ent, E_RSY);
          }
        }
      }
    }

    /** Three bytes, each into its own tick's slot. */
    method StoreWindow(r: Rec)
      requires Valid()
      modifies ring
      ensures Valid() && ring[..] == C.StoreWindow(old(ring[..]), r)
    {
      ring[r.tick % 8] := r.w0;
      ring[(r.tick - 1) % 8] := r.w1;
      ring[(r.tick - 2) % 8] := r.w2;
    }

    /** A record that passed its check: its window stored, the checksums compared, and the watermark moved if the record is newer. */
    method TakeRecord(r: Rec)
      requires Valid()
      modifies this`ent, this`rwat, ring
      ensures Valid() && View() == C.Absorb(old(View()), r)
    {
      hide Has, Low, StateOf, FlagsOf, C.StoreWindow, C.Comparable;
      ghost var d := C.Absorb(View(), r);
      assert d.rwat == if (r.tick - rwat) % 256 < 128 then r.tick else rwat;
      StoreWindow(r);
      CompareChecksums(r);
      if (r.tick - rwat) % 256 < 128 {
        rwat := r.tick;
      }
      assert View().ring == d.ring && View().rsy == d.rsy;
    }

    /** The peer said goodbye: the stall count saturates, and the next boundary that stalls ends the match. */
    method PeerLeft()
      requires Valid()
      modifies this`err
      ensures Valid() && View() == old(View()).(err := 0xF0 + C.FNE_PEER)
    {
      err := 0xF0 + C.FNE_PEER;
    }

    /** What taking the frame at `y` comes to, by the bytes of the reply. */
    static lemma FrameTaken(c: C.Con, reply: seq<byte>, y: nat)
      requires y + FRAME_LEN <= |reply|
      ensures C.TakeFrame(c, reply[y..y + FRAME_LEN]) ==
                if reply[y + 1] == T_INPUT then
                  if Xor(Xor(Xor(Xor(Xor(reply[y + 2], reply[y + 3]), reply[y + 4]), reply[y + 5]), reply[y + 6]), SEED) == reply[y + 7]
                  then C.Absorb(c, Rec(reply[y + 2], reply[y + 3], reply[y + 4], reply[y + 5], reply[y + 6])) else c
                else if reply[y + 1] == T_LEFT then c.(err := 0xF0 + C.FNE_PEER)
                else c
    {
      hide Xor, C.Absorb;
    }

    /** The frame at the cursor, read in place out of the reply window. */
    method ConsumeAt(reply: seq<byte>, y: nat)
      requires Valid() && y + FRAME_LEN <= |reply|
      modifies this`err, this`ent, this`rwat, ring
      ensures Valid() && View() == C.TakeFrame(old(View()), reply[y..y + FRAME_LEN])
    {
      hide Has, Set, Xor, StateOf, FlagsOf, C.Absorb, Decode, C.TakeFrame;
      FrameTaken(View(), reply, y);
      if reply[y + 1] == T_INPUT {
        var check := Xor(Xor(Xor(Xor(Xor(reply[y + 2], reply[y + 3]), reply[y + 4]), reply[y + 5]), reply[y + 6]), SEED);
        if check == reply[y + 7] {
          TakeRecord(Rec(reply[y + 2], reply[y + 3], reply[y + 4], reply[y + 5], reply[y + 6]));
        }
      } else if reply[y + 1] == T_LEFT {
        PeerLeft();
      }
    }

    /** DGSCONS for one record: the cursor counts down, eight bytes a frame. */
    method ConsumeOne(reply: seq<byte>)
      requires Valid() && 1 <= rdn <= 31 && FRAME_LEN * rdn as nat <= |reply|
      modifies this`rdn, this`err, this`ent, this`rwat, ring
      ensures Valid()
      ensures View() == C.TakeFrame(old(View()).(rdn := old(rdn) - 1), reply[FRAME_LEN * (old(rdn) - 1)..FRAME_LEN * old(rdn)])
    {
      hide Has, Set, StateOf, FlagsOf, C.TakeFrame;
      rdn := rdn - 1;
      ghost var c := View();
      var y := Low(rdn * 8);
      assert y as int == FRAME_LEN * rdn;
      ConsumeAt(reply, y as int);
    }

    /** DGSWACK. */
    method WriteAck(box: Box)
      requires Valid() && nst == 4
      modifies this`nst, this`err
      ensures Valid() && View() == C.Step(old(View()), MailSeen(box, seqNo))
    {
      if box.acks == seqNo {
        if box.err != 0 {
          Fail();
        } else {
          nst := 6;
        }
      }
    }

    /** DGSSACK: how many whole frames to read, if any. */
    method StatusAck(box: Box)
      requires Valid() && nst == 8
      modifies this`nst, this`rdn, this`err
      ensures Valid() && View() == C.Step(old(View()), MailSeen(box, seqNo))
    {
      if box.acks == seqNo {
        if box.err != 0 || box.dev != 1 {
          Fail();
        } else if box.avHi != 0 {
          rdn, nst := 0xF8, 10;
        } else {
          var whole := box.avLo / 8 * 8;
          if whole == 0 {
            nst := 2;
          } else {
            rdn, nst := whole, 10;
          }
        }
      }
    }

    /** DGSRACK: the length is captured now, in records. */
    method ReadAck(box: Box)
      requires Valid() && nst == 12
      modifies this`nst, this`rdn, this`err
      ensures Valid() && View() == C.Step(old(View()), MailSeen(box, seqNo))
    {
      if box.acks == seqNo {
        if box.err != 0 {
          Fail();
        } else {
          rdn, nst := box.rxLo / 8, 14;
        }
      }
    }

    /** DGSCONS: one record a step, newest first, then back to sending. */
    method Consume(box: Box)
      requires Valid() && nst == 14 && C.WindowHolds(View(), MailSeen(box, seqNo))
      modifies this`nst, this`rdn, this`err, this`ent, this`rwat, ring
      ensures Valid() && View() == C.Step(old(View()), MailSeen(box, seqNo))
    {
      hide FlagsOf, C.TakeFrame;
      if rdn == 0 {
        nst := 2;
      } else {
        ConsumeOne(box.reply);
      }
    }

    /** DGNSTEP: one bounded step, dispatched on the state cell. What goes out is a transaction's
        parameter bytes, or nothing. */
    method NStep(box: Box) returns (tx: seq<byte>)
      requires Valid() && C.WindowHolds(View(), MailSeen(box, seqNo))
      modifies this`nst, this`seqNo, this`w0, this`w1, this`rdn, this`err, this`ent, this`rwat, ring
      ensures Valid() && View() == C.Step(old(View()), MailSeen(box, old(seqNo)))
      ensures C.PutsOut(old(View()), tx)
      ensures if tx == [] then seqNo == old(seqNo) else seqNo != box.acks && seqNo != 0
    {
      hide FlagsOf, Encode, C.RecordOf, C.WindowHolds, MailSeen;
      ghost var m := MailSeen(box, seqNo);
      tx := [];
      if nst == 0 {
      } else if nst == 2 {
        tx := WriteIssue(box.acks);
      } else if nst == 4 {
        hide C.Step;
        WriteAck(box);
      } else if nst == 6 {
        tx := [1, 0, 1, 0];
        Launch(8, box.acks);
      } else if nst == 8 {
        hide C.Step;
        StatusAck(box);
      } else if nst == 10 {
        tx := [2, rdn, 0];
        Launch(12, box.acks);
      } else if nst == 12 {
        hide C.Step;
        ReadAck(box);
      } else if nst == 14 {
        hide C.Step;
        Consume(box);
      } else {
        Fail();
      }
    }
  }

  /** The check byte after the tick and the first `k` window bytes. */
  function CheckAfter(r: Rec, k: nat): byte
    requires k <= WIN
  {
    if k == 0 then Xor(r.tick, SEED) else Xor([r.w0, r.w1, r.w2][k - 1], CheckAfter(r, k - 1))
  }

  lemma SwitchByte(local: int, reset: byte, select: byte)
    requires 0 <= local < 2 && reset < 2 && select < 2
    ensures (0xF4 + local * 8 + reset + 2 * select) % 4 == reset + 2 * select
    ensures (0xF4 + local * 8 + reset + 2 * select) / 8 % 2 == local
  {
  }

  lemma WindowCheck(r: Rec)
    ensures SenderCheck(r) == Xor(r.crc, CheckAfter(r, WIN))
  {
    assert CheckAfter(r, 1) == Xor(r.w0, CheckAfter(r, 0));
    assert CheckAfter(r, 2) == Xor(r.w1, CheckAfter(r, 1));
    assert CheckAfter(r, 3) == Xor(r.w2, CheckAfter(r, 2));
  }

  lemma FoldStep(a: byte, cells: seq<byte>, k: nat)
    requires k < |cells|
    ensures FoldAll(a, cells[k..]) == FoldAll(Fold(a, cells[k]), cells[k + 1..])
  {
    assert cells[k..][1..] == cells[k + 1..];
  }

  lemma LastFour(a: byte, p: byte, q: byte, r: byte, s: byte)
    ensures FoldAll(a, [p, q, r, s]) == Fold(Fold(Fold(Fold(a, p), q), r), s)
  {
    var cells := [p, q, r, s];
    FoldStep(a, cells, 0);
    FoldStep(Fold(a, p), cells, 1);
    FoldStep(Fold(Fold(a, p), q), cells, 2);
    FoldStep(Fold(Fold(Fold(a, p), q), r), cells, 3);
    assert cells[0..] == cells && cells[4..] == [];
  }
}
