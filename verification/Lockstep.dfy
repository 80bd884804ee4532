/** Two consoles and the relay between them, as one step system. Each side keeps, beside its cells,
    the unbounded values those cells are truncations of and the history of what it captured, sent
    and ran; no step reads the history to decide what to do. */
module Lockstep {
  import opened Bytes
  import opened Sim
  import opened Wire
  import opened Console

  datatype Side = Side(
    con: Con, ram: Ram,
    reply: seq<byte>,        // the READ reply window
    arrived: nat,            // bytes of the peer's stream that have arrived here...
    read: nat,               // ...and that a READ has taken
    sent: seq<Msg>,          // every frame this side ever sent, in order
    closed: bool,            // the relay has said goodbye on this side's behalf
    // history
    T: int,                  // the tick, unbounded
    R: int,                  // the watermark, unbounded
    caps: seq<byte>,         // the byte of every tick: two seeds, then the captures
    entered: seq<Ram>,       // the state entering every tick
    log: seq<Pair>,          // the inputs each tick was run with
    ends: seq<int>,          // the last tick of the window of each frame sent
    lo: nat,                 // the first frame of the batch in the reply window
    frames: nat,             // simulated frames
    arms: nat,               // times a repair was armed
    pressed: seq<int>)       // the ticks whose byte carries a repair's RESET

  datatype World = World(s0: Side, s1: Side)

  /** How the cartridge answers a micro-step that waits for it. */
  datatype Answer =
    | NotYet
    | Refused(lost: bool)    // an error; a READ's bytes may or may not be gone
    | Done(reported: nat)    // STATUS reports this many bytes

  datatype Event =
    | Frame(i: nat, ports: Ports)       // the hook, then the logic if the gate let it
    | Net(i: nat, answer: Answer)       // one transport micro-step
    | Arrive(i: nat, n: nat)            // more of the peer's bytes, cut anywhere
    | Goodbye(i: nat)                   // the relay tells the peer this side has left
    | Draw(i: nat, cells: map<nat, byte>) // the sound engine and the kernel write these

  function Me(w: World, i: nat): Side {
    if i == 0 then w.s0 else w.s1
  }

  function Peer(w: World, i: nat): Side {
    if i == 0 then w.s1 else w.s0
  }

  function With(w: World, i: nat, s: Side): World {
    if i == 0 then w.(s0 := s) else w.(s1 := s)
  }

  // ---- steps ----------------------------------------------------------------------------

  predicate Enabled(w: World, e: Event) {
    && e.i < 2
    && match e
       case Frame(i, _) => Me(w, i).con.net
       case Net(i, a) =>
         // DGWAIT runs the shim before its step loop, so the first boundary comes first.
         && Me(w, i).con.net && Me(w, i).T >= 0
         && (a.Done? && Me(w, i).con.nst == StatusAck ==>
               a.reported < 65536 && Me(w, i).read + a.reported <= Me(w, i).arrived)
       case Arrive(i, n) => Me(w, i).arrived + n <= FRAME_LEN * |Peer(w, i).sent|
       case Goodbye(i) => !Me(w, i).closed
       case Draw(_, _) => true
  }

  function ApplyFrame(g: Logic, s: Side, p: Ports): Side {
    var (c, r) := Shim(s.con, s.ram, p);
    var boundary := s.con.phase == 0;
    var s1 := if !(boundary && s.con.ran) then s else
      s.(T := s.T + 1,
         caps := s.caps + [Captured(s.con, p)],
         entered := s.entered + [s.ram],
         pressed := if s.con.rsy then s.pressed + [s.T + 1 + D] else s.pressed);
    s1.(con := c,
        ram := if c.adv then g(r, c.pads) else r,
        log := if boundary && c.ran then s.log + [Inputs(c)] else s.log,
        frames := if c.adv then s.frames + 1 else s.frames)
  }

  /** The bytes a READ of `n` fetches when the stream has them. */
  function Fetch(stream: seq<Msg>, from: nat, n: nat): seq<byte> {
    if from + n <= FRAME_LEN * |stream| then EncodeAll(stream)[from..from + n] else []
  }

  function MailOf(s: Side, peer: Side, a: Answer): Mail {
    var reply := if s.con.nst == ReadAck then Fetch(peer.sent, s.read, s.con.rdn) else s.reply;
    match a
    case NotYet => Mail(false, 0, 1, 0, 0, 0, reply)
    case Refused(_) => Mail(true, 1, 0, 0, 0, 0, reply)
    case Done(n) => Mail(true, 0, 1, Low(n), Low(n / 256), s.con.rdn, reply)
  }

  function ApplyNet(s: Side, peer: Side, a: Answer): Side {
    var m := MailOf(s, peer, a);
    if !WindowHolds(s.con, m) then s else
    var c := Step(s.con, m);
    match s.con.nst
    case WriteIssue =>
      if s.closed || a.Refused? then s.(con := c)
      else s.(con := c, sent := s.sent + [Input(RecordOf(s.con))], ends := s.ends + [s.T + D])
    case ReadAck =>
      if a.Done? then s.(con := c, reply := m.reply, lo := s.read / FRAME_LEN, read := s.read + s.con.rdn)
      else if a.Refused? && a.lost then s.(con := c, read := s.read + s.con.rdn)
      else s.(con := c)
    case Consume =>
      if s.con.rdn == 0 then s.(con := c) else
        var k := s.lo + s.con.rdn - 1;
        s.(con := c,
           R := if k < |peer.sent| && k < |peer.ends| && peer.sent[k].Input? && peer.ends[k] > s.R
                then peer.ends[k] else s.R,
           arms := if c.rsy && !s.con.rsy then s.arms + 1 else s.arms)
    case _ => s.(con := c)
  }

  function Apply(g: Logic, w: World, e: Event): World
    requires Enabled(w, e)
  {
    match e
    case Frame(i, p) => With(w, i, ApplyFrame(g, Me(w, i), p))
    case Net(i, a) => With(w, i, ApplyNet(Me(w, i), Peer(w, i), a))
    case Arrive(i, n) => With(w, i, Me(w, i).(arrived := Me(w, i).arrived + n))
    case Goodbye(i) =>
      var s := Me(w, i);
      With(w, i, s.(sent := s.sent + [Left], ends := s.ends + [s.T + D], closed := true))
    case Draw(i, cells) => With(w, i, Me(w, i).(ram := Drawn(Me(w, i).ram, cells)))
  }

  // ---- runs -----------------------------------------------------------------------------

  predicate InitSide(s: Side, guest: bool) {
    && Handover(s.con, guest)
    && s.reply == [] && s.arrived == 0 && s.read == 0 && s.sent == [] && !s.closed
    && s.T == -1 && s.R == -2
    && s.caps == [IDLE, IDLE] && s.entered == [] && s.log == [] && s.ends == []
    && s.lo == 0 && s.frames == 0 && s.arms == 0 && s.pressed == []
  }

  predicate Init(w: World) {
    InitSide(w.s0, false) && InitSide(w.s1, true)
  }

  predicate Runs(g: Logic, w: World, es: seq<Event>)
    decreases |es|, 0
  {
    es == [] || (Runs(g, w, es[..|es| - 1]) && Enabled(Exec(g, w, es[..|es| - 1]), es[|es| - 1]))
  }

  function Exec(g: Logic, w: World, es: seq<Event>): World
    requires Runs(g, w, es)
    decreases |es|, 1
  {
    if es == [] then w else Apply(g, Exec(g, w, es[..|es| - 1]), es[|es| - 1])
  }

  lemma {:induction false} PrefixRuns(g: Logic, w: World, es: seq<Event>, k: nat)
    requires Runs(g, w, es) && k <= |es|
    ensures Runs(g, w, es[..k])
    decreases |es|
  {
    hide Enabled, Apply;
    if k == |es| {
      assert es[..k] == es;
    } else {
      PrefixRuns(g, w, es[..|es| - 1], k);
      assert es[..|es| - 1][..k] == es[..k];
    }
  }

  /** The world after the first `k` events of a run. */
  ghost function After(g: Logic, w: World, es: seq<Event>, k: nat): World
    requires Runs(g, w, es) && k <= |es|
  {
    PrefixRuns(g, w, es, k);
    Exec(g, w, es[..k])
  }
}
