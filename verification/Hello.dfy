/** Which HELLOs the relay takes, and the name it gives, spelt out over the bytes of the frame. */
module Hello {
  import opened Bytes
  import opened Relay

  // ---- the frame ------------------------------------------------------------------------

  predicate Padding(s: seq<byte>) {
    forall k :: 0 <= k < |s| ==> s[k] == 0 || s[k] == 32
  }

  /** `t` is `n` in either case, letter by letter and digit by digit. */
  predicate Spells(t: seq<byte>, n: Name) {
    |t| == |n| && forall k :: 0 <= k < |n| ==>
      || ('a' as int <= t[k] <= 'z' as int && n[k] == t[k] - 32)
      || (('A' as int <= t[k] <= 'Z' as int || '0' as int <= t[k] <= '9' as int) && n[k] == t[k])
  }

  /** Protocol two; NTSC or PAL; and, between blanks and zeros or nothing, two to eight letters and digits
      that spell `n`. */
  ghost predicate HelloFrom(payload: seq<byte>, n: Name) {
    exists tv: byte, lead: seq<byte>, text: seq<byte>, trail: seq<byte> ::
      && payload == [2, tv] + lead + text + trail && tv <= 1
      && Padding(lead) && Padding(trail) && 2 <= |text| <= 8 && Spells(text, n)
  }

  lemma {:induction false} StripsLead(lead: seq<byte>, rest: seq<byte>)
    requires Padding(lead) && rest != [] && !Blank(rest[0])
    ensures LeftStrip(lead + rest) == rest
    decreases |lead|
  {
    if lead == [] {
      assert lead + rest == rest;
    } else {
      assert (lead + rest)[1..] == lead[1..] + rest;
      StripsLead(lead[1..], rest);
    }
  }

  lemma {:induction false} StripsTrail(rest: seq<byte>, trail: seq<byte>)
    requires Padding(trail) && rest != [] && !Blank(rest[|rest| - 1])
    ensures RightStrip(rest + trail) == rest
    decreases |trail|
  {
    var s := rest + trail;
    if trail == [] {
      assert s == rest;
    } else {
      assert s[..|s| - 1] == rest + trail[..|trail| - 1];
      StripsTrail(rest, trail[..|trail| - 1]);
    }
  }

  lemma {:induction false} LeadStripped(s: seq<byte>) returns (lead: seq<byte>)
    ensures s == lead + LeftStrip(s) && Padding(lead)
    decreases |s|
  {
    if s != [] && Blank(s[0]) {
      lead := LeadStripped(s[1..]);
      lead := [s[0]] + lead;
    } else {
      lead := [];
    }
  }

  lemma {:induction false} TrailStripped(s: seq<byte>) returns (trail: seq<byte>)
    ensures s == RightStrip(s) + trail && Padding(trail)
    decreases |s|
  {
    if s != [] && Blank(s[|s| - 1]) {
      trail := TrailStripped(s[..|s| - 1]);
      trail := trail + [s[|s| - 1]];
    } else {
      trail := [];
    }
  }

  lemma SpellsIsUpper(t: seq<byte>, n: Name)
    ensures 2 <= |t| <= 8 && Spells(t, n) <==> Upper(t) == n && ValidName(n)
  {
    if Upper(t) == n && ValidName(n) {
      forall k | 0 <= k < |n|
        ensures || ('a' as int <= t[k] <= 'z' as int && n[k] == t[k] - 32)
                || (('A' as int <= t[k] <= 'Z' as int || '0' as int <= t[k] <= '9' as int) && n[k] == t[k])
      {
        assert n[k] == UpperByte(t[k]) && NameByte(n[k]);
      }
    }
  }

  lemma FrameIsAsked(payload: seq<byte>, tv: byte, lead: seq<byte>, text: seq<byte>, trail: seq<byte>, n: Name)
    requires payload == [2, tv] + lead + text + trail && tv <= 1
    requires Padding(lead) && Padding(trail) && 2 <= |text| <= 8 && Spells(text, n)
    ensures Asked(payload) == Some(n)
  {
    assert payload[2..] == lead + (text + trail);
    assert (text + trail)[0] == text[0];
    assert !Blank(text[0]) && !Blank(text[|text| - 1]);
    StripsLead(lead, text + trail);
    StripsTrail(text, trail);
    SpellsIsUpper(text, n);
  }

  lemma Stripped(s: seq<byte>) returns (lead: seq<byte>, trail: seq<byte>)
    ensures s == lead + RightStrip(LeftStrip(s)) + trail && Padding(lead) && Padding(trail)
  {
    hide LeftStrip, RightStrip, Padding;
    lead := LeadStripped(s);
    trail := TrailStripped(LeftStrip(s));
  }

  lemma AskedIsFrame(payload: seq<byte>, n: Name)
    requires Asked(payload) == Some(n)
    ensures HelloFrom(payload, n)
  {
    hide LeftStrip, RightStrip, Padding, Upper, ValidName, Spells;
    var lead, trail := Stripped(payload[2..]);
    var text := RightStrip(LeftStrip(payload[2..]));
    SpellsIsUpper(text, n);
    assert payload == [2, payload[1]] + lead + text + trail;
  }

  lemma AskedExactly(payload: seq<byte>, n: Name)
    ensures Asked(payload) == Some(n) <==> HelloFrom(payload, n)
  {
    if HelloFrom(payload, n) {
      var tv: byte, lead: seq<byte>, text: seq<byte>, trail: seq<byte> :|
        && payload == [2, tv] + lead + text + trail && tv <= 1
        && Padding(lead) && Padding(trail) && 2 <= |text| <= 8 && Spells(text, n);
      FrameIsAsked(payload, tv, lead, text, trail, n);
    }
    if Asked(payload) == Some(n) {
      AskedIsFrame(payload, n);
    }
  }

  // ---- the name given -------------------------------------------------------------------

  /** The `k`th name tried for a console that asks for `n`: `n` itself, and then each time the first
      seven characters of the last one and the digit drawn. */
  function Tried(cfg: Config, n: Name, at: nat, k: nat): Name {
    if k == 0 then n else
      var m := Tried(cfg, n, at, k - 1);
      (if |m| >= 8 then m[..7] else m) + ['0' as int + cfg.digits(at + k - 1)]
  }

  /** The `k`th is the first that nobody has. */
  predicate FreeAt(cfg: Config, names: map<Name, Id>, n: Name, at: nat, k: nat) {
    Tried(cfg, n, at, k) !in names && forall j :: 0 <= j < k ==> Tried(cfg, n, at, j) in names
  }

  lemma {:induction false} TriedOneLess(cfg: Config, n: Name, at: nat, k: nat)
    requires |n| <= 8
    ensures Tried(cfg, n, at, k + 1) == Tried(cfg, Variant(n, cfg.digits(at)), at + 1, k)
    decreases k
  {
    if k > 0 {
      TriedOneLess(cfg, n, at, k - 1);
    } else {
      assert Tried(cfg, n, at, 0) == n;
    }
  }

  lemma {:induction false} FirstFree(cfg: Config, names: map<Name, Id>, n: Name, at: nat, tries: nat, k: nat)
    requires |n| <= 8 && k <= tries && FreeAt(cfg, names, n, at, k)
    ensures Resolve(cfg, names, n, at, tries) == Some((Tried(cfg, n, at, k), at + k))
    decreases tries
  {
    if k > 0 {
      var v, next := Variant(n, cfg.digits(at)), at + 1;
      assert Tried(cfg, n, at, 0) in names;
      TriedOneLess(cfg, n, at, k - 1);
      forall j | 0 <= j < k - 1
        ensures Tried(cfg, v, next, j) in names
      {
        TriedOneLess(cfg, n, at, j);
      }
      FirstFree(cfg, names, v, next, tries - 1, k - 1);
    }
  }

  lemma {:induction false} FreeSomewhere(cfg: Config, names: map<Name, Id>, n: Name, at: nat, tries: nat) returns (k: nat)
    requires |n| <= 8 && Resolve(cfg, names, n, at, tries).Some?
    ensures k <= tries && FreeAt(cfg, names, n, at, k)
    decreases tries
  {
    k := 0;
    if n in names {
      var v := Variant(n, cfg.digits(at));
      var j := FreeSomewhere(cfg, names, v, at + 1, tries - 1);
      TriedOneLess(cfg, n, at, j);
      forall m | 0 <= m < j + 1
        ensures Tried(cfg, n, at, m) in names
      {
        if m > 0 {
          TriedOneLess(cfg, n, at, m - 1);
        }
      }
      k := j + 1;
    }
  }

  // ---- what a HELLO does ----------------------------------------------------------------

  /** The sender is in, under the name tried `k`th for the one its frame spells. */
  ghost predicate Admitted(cfg: Config, w: Room, r: Room, id: Id, n: Name, k: nat) {
    && Live(r, id) && id in r.clients && r.clients[id].name == Tried(cfg, n, w.drawn, k)
    && r.names == w.names[Tried(cfg, n, w.drawn, k) := id]
  }

  lemma PairKeepsName(cfg: Config, w: Room, id: Id)
    requires id in w.clients && w.clients[id].name != []
    ensures var r := TryPair(cfg, w, id);
            r.clients[id].name == w.clients[id].name && r.order == w.order && r.names == w.names && r.stuck == w.stuck
  {
    hide Oldest, StartFrame, Short;
  }

  lemma HelloNames(cfg: Config, w: Room, id: Id, payload: seq<byte>, n: Name, k: nat)
    requires id in w.clients && Live(w, id) && |payload| < 255
    requires HelloFrom(payload, n) && k <= 1000 && FreeAt(cfg, w.names, n, w.drawn, k)
    ensures var name := Tried(cfg, n, w.drawn, k);
            && name !in w.names && ValidName(name)
            && Handle(cfg, w, id, Packet(1, payload)) == TryPair(cfg, Rename(w, id, name, w.drawn + k), id)
  {
    hide Asked, Resolve, HelloFrom, TryPair, Tried, ValidName, Rename;
    AskedExactly(payload, n);
    AskedIsValid(payload, n);
    FirstFree(cfg, w.names, n, w.drawn, 1000, k);
    hide FreeAt;
  }

  lemma AskedIsValid(payload: seq<byte>, n: Name)
    requires Asked(payload) == Some(n)
    ensures ValidName(n) && |n| <= 8
  {
  }

  lemma HelloAdmits(cfg: Config, w: Room, id: Id, payload: seq<byte>, n: Name, k: nat)
    requires id in w.clients && Live(w, id) && |payload| < 255
    requires HelloFrom(payload, n) && k <= 1000 && FreeAt(cfg, w.names, n, w.drawn, k)
    ensures var r := Handle(cfg, w, id, Packet(1, payload));
            r.stuck == w.stuck && Admitted(cfg, w, r, id, n, k) && ValidName(r.clients[id].name)
  {
    hide HelloFrom, FreeAt, Handle, Tried, TryPair;
    HelloNames(cfg, w, id, payload, n, k);
    PairKeepsName(cfg, Rename(w, id, Tried(cfg, n, w.drawn, k), w.drawn + k), id);
  }

  lemma HelloRefuses(cfg: Config, w: Room, id: Id, payload: seq<byte>)
    requires id in w.clients && Live(w, id) && |payload| < 255
    requires forall n :: !HelloFrom(payload, n)
    ensures Handle(cfg, w, id, Packet(1, payload)) == Drop(w, id) && !Live(Drop(w, id), id)
  {
    if Asked(payload).Some? {
      AskedExactly(payload, Asked(payload).value);
    }
    hide HelloFrom;
  }

  lemma NoneFree(cfg: Config, names: map<Name, Id>, n: Name, at: nat)
    requires |n| <= 8 && forall k :: 0 <= k <= 1000 ==> !FreeAt(cfg, names, n, at, k)
    ensures Resolve(cfg, names, n, at, 1000).None?
  {
    hide Resolve, FreeAt;
    if Resolve(cfg, names, n, at, 1000).Some? {
      var k := FreeSomewhere(cfg, names, n, at, 1000);
    }
  }

  lemma HelloGivesUp(cfg: Config, w: Room, id: Id, payload: seq<byte>, n: Name)
    requires id in w.clients && Live(w, id) && |payload| < 255
    requires HelloFrom(payload, n) && forall k :: 0 <= k <= 1000 ==> !FreeAt(cfg, w.names, n, w.drawn, k)
    ensures var r := Handle(cfg, w, id, Packet(1, payload)); if cfg.port then !Live(r, id) else r.stuck
  {
    hide Asked, Resolve, HelloFrom, FreeAt, Drop, ValidName;
    AskedExactly(payload, n);
    AskedIsValid(payload, n);
    NoneFree(cfg, w.names, n, w.drawn);
  }

  /** A HELLO leaves its sender in, live and named, exactly when its frame spells a name and that name or
      one of a thousand variants drawn is free; the name is the first that is. Any padding and either case
      will do. Every other HELLO costs its sender the connection, or the Python server its progress when
      the draws run out. */
  lemma HelloTakenExactly(cfg: Config, w: Room, id: Id, payload: seq<byte>)
    requires id in w.clients && Live(w, id) && |payload| < 255 && !w.stuck
    ensures var r := Handle(cfg, w, id, Packet(1, payload));
            && (!r.stuck && Live(r, id) <==>
                  exists n, k :: 0 <= k <= 1000 && HelloFrom(payload, n) && FreeAt(cfg, w.names, n, w.drawn, k))
            && (forall n, k :: 0 <= k <= 1000 && HelloFrom(payload, n) && FreeAt(cfg, w.names, n, w.drawn, k) ==>
                  Admitted(cfg, w, r, id, n, k) && ValidName(r.clients[id].name))
  {
    hide Handle, HelloFrom, FreeAt, Drop, ValidName;
    forall n, k | 0 <= k <= 1000 && HelloFrom(payload, n) && FreeAt(cfg, w.names, n, w.drawn, k)
      ensures var r := Handle(cfg, w, id, Packet(1, payload));
              r.stuck == w.stuck && Admitted(cfg, w, r, id, n, k) && ValidName(r.clients[id].name)
    {
      HelloAdmits(cfg, w, id, payload, n, k);
    }
    if n :| HelloFrom(payload, n) {
      if forall k :: 0 <= k <= 1000 ==> !FreeAt(cfg, w.names, n, w.drawn, k) {
        HelloGivesUp(cfg, w, id, payload, n);
        OneName(payload, n);
      }
    } else {
      HelloRefuses(cfg, w, id, payload);
    }
  }

  /** `o` is one of those waiting, and none has been connected longer. */
  predicate Longest(w: Room, id: Id, o: Id) {
    o in w.order && Waits(w, id, o)
    && forall x :: x in w.order && Waits(w, id, x) ==> w.clients[o].born <= w.clients[x].born
  }

  /** With somebody waiting, `id` is in a new match with the one that connected first, who hosts, and both
      start with empty checksum logs; with nobody, no link is made or broken. */
  ghost predicate Joined(w: Room, r: Room, id: Id) {
    && id in w.clients && id in r.clients
    && if exists o :: o in w.order && Waits(w, id, o) then
         exists o :: Longest(w, id, o) && o in r.clients
           && r.clients[id].partner == Some(o) && r.clients[o].partner == Some(id)
           && r.clients[o].role == 0 && r.clients[id].role == 1
           && r.clients[o].crc == [] && r.clients[id].crc == [] && r.matched == w.matched + 1
       else r.clients[id].partner == w.clients[id].partner && r.matched == w.matched
  }

  lemma OldestIsLongest(w: Room, id: Id)
    requires forall i :: i in w.order ==> i in w.clients
    ensures var o := Oldest(w, id, |w.order|);
            && (o.Some? ==> Longest(w, id, o.value))
            && (o.None? ==> forall x :: x in w.order ==> !Waits(w, id, x))
  {
    var o := Oldest(w, id, |w.order|);
    assert w.order[..|w.order|] == w.order;
    forall x | x in w.order && Waits(w, id, x)
      ensures o.Some? && w.clients[o.value].born <= w.clients[x].born
    {
      var k :| 0 <= k < |w.order| && w.order[k] == x;
    }
  }

  lemma PairJoins(cfg: Config, w: Room, id: Id)
    requires id in w.clients && w.clients[id].name != [] && forall i :: i in w.order ==> i in w.clients
    ensures Joined(w, TryPair(cfg, w, id), id)
  {
    OldestIsLongest(w, id);
    hide StartFrame, Short, Oldest;
  }

  lemma RenamedJoins(w: Room, z: Room, r: Room, id: Id)
    requires z.order == w.order && z.clients.Keys == w.clients.Keys && z.matched == w.matched
    requires forall o :: o in w.clients && o != id ==> z.clients[o] == w.clients[o]
    requires id in w.clients && z.clients[id].partner == w.clients[id].partner && Joined(z, r, id)
    ensures Joined(w, r, id)
  {
    assert forall o :: Waits(z, id, o) <==> Waits(w, id, o);
    assert forall o :: Longest(z, id, o) <==> Longest(w, id, o);
  }

  /** And whoever is admitted plays at once when somebody waits. */
  lemma AdmittedPlays(cfg: Config, w: Room, id: Id, payload: seq<byte>, n: Name, k: nat)
    requires id in w.clients && Live(w, id) && |payload| < 255 && (forall i :: i in w.order ==> i in w.clients)
    requires HelloFrom(payload, n) && k <= 1000 && FreeAt(cfg, w.names, n, w.drawn, k)
    ensures Joined(w, Handle(cfg, w, id, Packet(1, payload)), id)
  {
    hide HelloFrom, FreeAt, Handle, Tried, TryPair, Joined;
    HelloNames(cfg, w, id, payload, n, k);
    var z := Rename(w, id, Tried(cfg, n, w.drawn, k), w.drawn + k);
    PairJoins(cfg, z, id);
    RenamedJoins(w, z, TryPair(cfg, z, id), id);
  }

  /** No frame spells two names. */
  lemma OneName(payload: seq<byte>, n: Name)
    requires HelloFrom(payload, n)
    ensures forall m :: HelloFrom(payload, m) ==> m == n
  {
    hide HelloFrom;
    forall m | HelloFrom(payload, m)
      ensures m == n
    {
      AskedExactly(payload, m);
      AskedExactly(payload, n);
    }
  }

  const ANN: Name := [0x41, 0x4E, 0x4E]
  const ANN_HELLO: seq<byte> := [2, 1, 0x41, 0x4E, 0x4E]

  lemma AnnSpells()
    ensures HelloFrom(ANN_HELLO, ANN)
  {
    assert ANN_HELLO == [2, 1] + [] + ANN + [];
    assert Padding([]);
    assert Spells(ANN, ANN);
  }

  lemma AnnParses()
    ensures Parse([6, 1] + ANN_HELLO) == Parsed([Packet(1, ANN_HELLO)], [], false)
  {
    var s := [6, 1] + ANN_HELLO;
    assert s[2..7] == ANN_HELLO && s[7..] == [];
  }

  /** A PAL console that calls itself Ann, in capitals. */
  lemma AnnIsTaken(cfg: Config, w: Room, id: Id)
    requires id in w.clients && Live(w, id) && !w.stuck && ANN !in w.names
    ensures Parse([6, 1, 2, 1, 0x41, 0x4E, 0x4E]) == Parsed([Packet(1, ANN_HELLO)], [], false)
    ensures var r := Handle(cfg, w, id, Packet(1, ANN_HELLO)); Live(r, id) && r.clients[id].name == ANN
  {
    AnnSpells();
    AnnParses();
    assert [6, 1] + ANN_HELLO == [6, 1, 2, 1, 0x41, 0x4E, 0x4E];
    hide Parse, Handle, HelloFrom;
    assert Tried(cfg, ANN, w.drawn, 0) == ANN;
    HelloAdmits(cfg, w, id, ANN_HELLO, ANN, 0);
  }
}
