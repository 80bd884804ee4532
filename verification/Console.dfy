/** One console in a match: what each routine of the game bank does to its cells. The entry byte's
    bits are named flags here; the class `Cells.Console` keeps them in one byte and is proved to
    do the same. */
module Console {
  import opened Bytes
  import opened Sim
  import opened Wire

  const D := 2               // the input delay, in ticks
  const FNE_BAD: byte := 0x02
  const FNE_PEER: byte := 0x03

  datatype NetState = Idle | WriteIssue | WriteAck | StatusIssue | StatusAck | ReadIssue | ReadAck | Consume | Fail

  type Remote = s: seq<byte> | |s| == 8 witness seq(8, (_: nat) => 0 as byte)
  type Local = s: seq<byte> | |s| == 4 witness seq(4, (_: nat) => 0 as byte)
  type Phase = n: nat | n < 4

  datatype Con = Con(
    tick: byte, rwat: byte, ring: Remote, loc: Local, crcv: byte, pads: Pads,
    phase: Phase, ran: bool, rsy: bool, net: bool, warm: bool, left: bool, guest: bool,
    adv: bool, err: byte, nst: NetState, rdn: byte)

  // ---- the frame half: DGSHIM in a match ------------------------------------------------

  function NextPhase(p: Phase): Phase {
    (p + 1) % 4
  }

  /** The byte captured on a boundary: the ports, with RESET pressed when a repair is armed. */
  function Captured(c: Con, p: Ports): byte {
    if c.rsy then Clear(Capture(p), IW_RST) else Capture(p)
  }

  /** A boundary after a tick that ran: advance, sample the checksum, capture for `D` ticks on.
      A boundary that is a retry does none of it. */
  function EnterTick(c: Con, r: Ram, p: Ports): Con {
    if !c.ran then c else
      var t := Inc(c.tick);
      c.(tick := t, ran := false, rsy := false, crcv := Crc(r), loc := c.loc[(t + D) % 4 := Captured(c, p)])
  }

  predicate MayRun(c: Con) {
    NotBehind(c.rwat, c.tick)
  }

  /** The two wire bytes of the current tick, in lane order. */
  function Inputs(c: Con): Pair {
    var own, peer := c.loc[c.tick % 4], c.ring[c.tick % 8];
    if c.guest then Pair(peer, own) else Pair(own, peer)
  }

  function MixOf(p: Pair): Mixed {
    Mix(p.host, p.guest)
  }

  function RunTick(c: Con): Con {
    c.(err := c.err % 16, pads := MixOf(Inputs(c)).pads, ran := true, phase := NextPhase(c.phase))
  }

  /** A boundary whose input has not come: one more stalled frame, or the end of the match. */
  function Stall(c: Con): Con {
    if c.err >= 0xF0 then c.(adv := false, net := false, warm := false, left := true)
    else c.(adv := false, err := c.err + 16)
  }

  function Shim(c: Con, r: Ram, p: Ports): (Con, Ram) {
    var c0 := c.(adv := true);
    if c.phase != 0 then (c0.(phase := NextPhase(c.phase)), Clock(r)) else
      var c1 := EnterTick(c0, r, p);
      if MayRun(c1) then
        var c2 := RunTick(c1);
        (c2, Clock(WriteSticks(r, MixOf(Inputs(c1)))))
      else (Stall(c1), r)
  }

  // ---- the transport half: DGNSTEP ------------------------------------------------------

  /** What the cartridge shows a micro-step: whether the transaction is answered, its error, the
      STATUS reply and the READ reply. */
  datatype Mail = Mail(acked: bool, err: byte, dev: byte, avLo: byte, avHi: byte, rxLo: byte, reply: seq<byte>)

  /** The record a WRITE issued now would carry. */
  function RecordOf(c: Con): Rec {
    Rec(Low(c.tick + D), c.loc[(c.tick + 2) % 4], c.loc[(c.tick + 1) % 4], c.loc[c.tick % 4], c.crcv)
  }

  /** One parameter of two bytes, low byte first, whose value is `n`: how the cartridge is told a
      length. */
  predicate AsksFor(tx: seq<byte>, n: nat) {
    |tx| >= 3 && tx[0] == 2 && (tx[1] as int) + 256 * (tx[2] as int) == n
  }

  /** What goes out of each state: a WRITE's length and then its frame, whole; STATUS's two parameters of
      one byte, both zero; a READ's length; and otherwise nothing. */
  predicate PutsOut(c: Con, tx: seq<byte>) {
    match c.nst
    case WriteIssue => AsksFor(tx, FRAME_LEN) && tx[3..] == Encode(Input(RecordOf(c)))
    case StatusIssue => tx == [1, 0, 1, 0]
    case ReadIssue => AsksFor(tx, c.rdn) && |tx| == 3
    case _ => tx == []
  }

  function Failed(c: Con): Con {
    c.(err := c.err / 16 * 16 + FNE_BAD, nst := WriteIssue)
  }

  /** The three window bytes, each into the slot of its own tick. */
  function StoreWindow(ring: Remote, r: Rec): Remote {
    ring[r.tick % 8 := r.w0][(r.tick - 1) % 8 := r.w1][(r.tick - 2) % 8 := r.w2]
  }

  /** Whether the record's checksum samples the tick this console is on. */
  predicate Comparable(tick: byte, r: Rec) {
    Low(r.tick - D) == tick
  }

  function Absorb(c: Con, r: Rec): Con {
    c.(ring := StoreWindow(c.ring, r),
       rsy := c.rsy || (Comparable(c.tick, r) && r.crc != c.crcv),
       rwat := if NotBehind(r.tick, c.rwat) then r.tick else c.rwat)
  }

  function TakeFrame(c: Con, s: seq<byte>): Con
    requires |s| == FRAME_LEN
  {
    match Decode(s)
    case Record(r) => Absorb(c, r)
    case PeerLeft => c.(err := 0xF0 + FNE_PEER)
    case Dropped => c
  }

  /** Whole frames among the bytes STATUS reports, and never more than 248 bytes. */
  function Bite(avLo: byte, avHi: byte): (n: byte)
    ensures n % 8 == 0 && n <= 248 && n <= avHi * 256 + avLo
    ensures n == 0 <==> avHi * 256 + avLo < 8
  {
    if avHi != 0 then 248 else avLo / 8 * 8
  }

  /** The reply window holds every record still to be consumed. */
  predicate WindowHolds(c: Con, m: Mail) {
    c.nst == Consume ==> c.rdn <= 31 && FRAME_LEN * c.rdn as nat <= |m.reply|
  }

  function Step(c: Con, m: Mail): Con
    requires WindowHolds(c, m)
  {
    match c.nst
    case Idle => c
    case WriteIssue => c.(nst := WriteAck)
    case WriteAck =>
      if !m.acked then c else if m.err != 0 then Failed(c) else c.(nst := StatusIssue)
    case StatusIssue => c.(nst := StatusAck)
    case StatusAck =>
      if !m.acked then c
      else if m.err != 0 || m.dev != 1 then Failed(c)
      else if Bite(m.avLo, m.avHi) == 0 then c.(nst := WriteIssue)
      else c.(rdn := Bite(m.avLo, m.avHi), nst := ReadIssue)
    case ReadIssue => c.(nst := ReadAck)
    case ReadAck =>
      if !m.acked then c else if m.err != 0 then Failed(c) else c.(rdn := m.rxLo / 8, nst := Consume)
    case Consume =>
      if c.rdn == 0 then c.(nst := WriteIssue)
      else TakeFrame(c.(rdn := c.rdn - 1), m.reply[FRAME_LEN * (c.rdn - 1)..FRAME_LEN * c.rdn])
    case Fail => Failed(c)
  }

  // ---- the handover ---------------------------------------------------------------------

  /** The cells the boot bank leaves behind when START has been read. */
  predicate Handover(c: Con, guest: bool) {
    && c.ring == [IDLE, IDLE, IDLE, IDLE, IDLE, IDLE, IDLE, IDLE]
    && c.loc == [IDLE, IDLE, IDLE, IDLE]
    && c.tick == 0xFF && c.rwat == 0xFE && c.err == 0
    && c.nst == WriteIssue
    && c.phase == 0 && c.ran && c.net && !c.rsy && !c.warm && !c.left && c.guest == guest
  }
}
