/** What travels between two consoles during play: eight-byte frames, and nothing else. */
module Wire {
  import opened Bytes

  const WIN := 3            // ticks of input in every record
  const FRAME_LEN := 8
  const T_INPUT: byte := 0x06
  const T_LEFT: byte := 0x0B
  const SEED: byte := 0xA5  // the check byte's salt

  /** An INPUT record: the tick its window ends at, the window newest first, and the checksum. */
  datatype Rec = Rec(tick: byte, w0: byte, w1: byte, w2: byte, crc: byte)

  datatype Msg = Input(rec: Rec) | Left

  /** The check byte in the order the sender accumulates it. */
  function SenderCheck(r: Rec): byte {
    Xor(r.crc, Xor(r.w2, Xor(r.w1, Xor(r.w0, Xor(r.tick, SEED)))))
  }

  /** The check byte in the order the receiver folds bytes 2-6 of a frame. */
  function ReceiverCheck(r: Rec): byte {
    Xor(Xor(Xor(Xor(Xor(r.tick, r.w0), r.w1), r.w2), r.crc), SEED)
  }

  lemma ChecksAgree(r: Rec)
    ensures SenderCheck(r) == ReceiverCheck(r)
  {
    var a := Xor(r.tick, SEED);
    XorCommutes(r.w0, a);
    XorAssociates(r.tick, SEED, r.w0);
    XorCommutes(SEED, r.w0);
    XorAssociates(r.tick, r.w0, SEED);
    var b := Xor(r.tick, r.w0);
    Shuffle(b, r.w1);
    var c := Xor(b, r.w1);
    Shuffle(c, r.w2);
    var d := Xor(c, r.w2);
    Shuffle(d, r.crc);
  }

  lemma Shuffle(a: byte, w: byte)
    ensures Xor(w, Xor(a, SEED)) == Xor(Xor(a, w), SEED)
  {
    XorAssociates(w, a, SEED);
    XorCommutes(w, a);
  }

  function Encode(m: Msg): (s: seq<byte>)
    ensures |s| == FRAME_LEN
  {
    match m
    case Input(r) => [7, T_INPUT, r.tick, r.w0, r.w1, r.w2, r.crc, SenderCheck(r)]
    case Left => [7, T_LEFT, 0, 0, 0, 0, 0, 0]
  }

  /** How the console reads one whole frame: by its type byte, and dropping a record whose check
      byte is wrong. */
  datatype Read = Record(rec: Rec) | PeerLeft | Dropped

  function Decode(s: seq<byte>): Read
    requires |s| == FRAME_LEN
  {
    if s[1] == T_INPUT then
      var r := Rec(s[2], s[3], s[4], s[5], s[6]);
      if ReceiverCheck(r) == s[7] then Record(r) else Dropped
    else if s[1] == T_LEFT then PeerLeft
    else Dropped
  }

  /** What a console sends, the other reads. */
  lemma DecodeEncode(m: Msg)
    ensures Decode(Encode(m)) == match m case Input(r) => Record(r) case Left => PeerLeft
  {
    if m.Input? {
      ChecksAgree(m.rec);
    }
  }

  /** A record damaged in any one of the five checked bytes is dropped, never acted on. */
  lemma OneBadByteIsDropped(r: Rec, k: nat, v: byte)
    requires 2 <= k < 7 && Encode(Input(r))[k] != v
    ensures Decode(Encode(Input(r))[k := v]) == Dropped
  {
    ChecksAgree(r);
    var s := Encode(Input(r))[k := v];
    var q := Rec(s[2], s[3], s[4], s[5], s[6]);
    if ReceiverCheck(q) == s[7] {
      var a, b := Xor(r.tick, r.w0), Xor(q.tick, q.w0);
      var c, d := Xor(a, r.w1), Xor(b, q.w1);
      var e, f := Xor(c, r.w2), Xor(d, q.w2);
      XorCancels(Xor(e, r.crc), Xor(f, q.crc), SEED);
      if k == 6 {
        XorCommutes(e, r.crc);
        XorCommutes(f, q.crc);
        XorCancels(r.crc, q.crc, e);
      } else {
        XorCancels(e, f, r.crc);
        if k == 5 {
          XorCommutes(c, r.w2);
          XorCommutes(d, q.w2);
          XorCancels(r.w2, q.w2, c);
        } else {
          XorCancels(c, d, r.w2);
          if k == 4 {
            XorCommutes(a, r.w1);
            XorCommutes(b, q.w1);
            XorCancels(r.w1, q.w1, a);
          } else {
            XorCancels(a, b, r.w1);
            XorCommutes(r.tick, r.w0);
            XorCommutes(q.tick, q.w0);
            if k == 3 {
              XorCancels(r.w0, q.w0, r.tick);
            } else {
              XorCommutes(r.tick, r.w0);
              XorCancels(r.tick, q.tick, r.w0);
            }
          }
        }
      }
    }
  }

  /** The exclusive or of all of them. */
  function XorAll(s: seq<byte>): byte {
    if s == [] then 0 else Xor(XorAll(s[..|s| - 1]), s[|s| - 1])
  }

  lemma SixInARow(s: seq<byte>)
    requires |s| == 8
    ensures XorAll(s[2..8]) == Xor(Xor(Xor(Xor(Xor(s[2], s[3]), s[4]), s[5]), s[6]), s[7])
  {
    hide Xor;
    var t := s[2..8];
    assert t[..5][..4] == t[..4] && t[..4][..3] == t[..3] && t[..3][..2] == t[..2] && t[..2][..1] == t[..1];
    assert XorAll(t[..1]) == Xor(0, s[2]);
    XorZero(s[2]);
    assert XorAll(t[..2]) == Xor(XorAll(t[..1]), s[3]);
    assert XorAll(t[..3]) == Xor(XorAll(t[..2]), s[4]);
    assert XorAll(t[..4]) == Xor(XorAll(t[..3]), s[5]);
    assert XorAll(t[..5]) == Xor(XorAll(t[..4]), s[6]);
  }

  lemma SaltedExactly(a: byte, b: byte)
    ensures Xor(a, SEED) == b <==> Xor(a, b) == SEED
  {
    XorSelf(a);
    XorAssociates(a, a, SEED);
    XorAssociates(a, a, b);
    XorZero(SEED);
    XorZero(b);
  }

  /** Which frames a console acts on: a record whose last six bytes come to $A5 together, with the tick
      first, the window newest first and the checksum fifth; a goodbye; and no other. */
  lemma TakenExactly(s: seq<byte>)
    requires |s| == 8
    ensures Decode(s).Record? <==> s[1] == 0x06 && XorAll(s[2..8]) == 0xA5
    ensures Decode(s).Record? ==> Decode(s).rec == Rec(s[2], s[3], s[4], s[5], s[6])
    ensures Decode(s).PeerLeft? <==> s[1] == 0x0B
  {
    hide Xor, XorAll;
    SixInARow(s);
    SaltedExactly(Xor(Xor(Xor(Xor(s[2], s[3]), s[4]), s[5]), s[6]), s[7]);
  }

  /** What goes out: a length byte, the type, and those six bytes; for a goodbye, zeros. */
  lemma SentLayout(m: Msg)
    ensures var s := Encode(m);
            && s[0] == 7
            && (m.Input? ==> s[1] == 0x06 && s[2..7] == [m.rec.tick, m.rec.w0, m.rec.w1, m.rec.w2, m.rec.crc]
                             && XorAll(s[2..8]) == 0xA5)
            && (m.Left? ==> s[1] == 0x0B && forall k :: 2 <= k < 8 ==> s[k] == 0)
  {
    DecodeEncode(m);
    TakenExactly(Encode(m));
    hide XorAll, Xor;
  }

  /** A stream of frames, back to back. */
  function EncodeAll(ms: seq<Msg>): (s: seq<byte>)
    ensures |s| == FRAME_LEN * |ms|
  {
    if ms == [] then [] else EncodeAll(ms[..|ms| - 1]) + Encode(ms[|ms| - 1])
  }

  /** Eight bytes at a multiple of eight are one whole frame. */
  lemma {:induction false} FrameAt(ms: seq<Msg>, k: nat)
    requires k < |ms|
    ensures EncodeAll(ms)[FRAME_LEN * k..FRAME_LEN * (k + 1)] == Encode(ms[k])
  {
    hide Encode;
    var n := |ms| - 1;
    if k < n {
      FrameAt(ms[..n], k);
      assert EncodeAll(ms)[FRAME_LEN * k..FRAME_LEN * (k + 1)]
          == EncodeAll(ms[..n])[FRAME_LEN * k..FRAME_LEN * (k + 1)];
    }
  }
}
