/** The relay's verdict on a match: two consoles' checksums paired by a tick rebuilt from its low
    eight bits. */
module Checksums {
  import opened Bytes
  import opened Relay

  // ---- the lap --------------------------------------------------------------------------

  /** Whether one side's counters stand at the true tick `t`. */
  predicate Stands(c: Client, t: Option<nat>) {
    if t.None? then c.lap == 0 && c.last.None?
    else c.last == Some(Low(t.value)) && c.lap * 256 + Low(t.value) == t.value
  }

  /** A side's next tick: within the first lap to begin with, then forward by less than half a lap. */
  predicate Follows(t: Option<nat>, n: nat) {
    if t.None? then n < 256 else t.value <= n <= t.value + 127
  }

  /** One step of the reconstruction is right exactly when the tick moved less than half a lap or did
      not wrap. */
  lemma LapStepExactly(lap: nat, t: nat, d: nat)
    requires d < 256 && lap * 256 + Low(t) == t
    ensures LapAfter(lap, Some(Low(t)), Low(t + d)) * 256 + Low(t + d) == t + d <==> d < 128 || Low(t) + d < 256
  {
    var low := Low(t);
    assert t + d == 256 * lap + (low + d);
    WholeLaps(lap, low + d);
    if low + d < 256 {
      assert Low(t + d) == low + d;
    } else {
      assert low + d == 256 + (low + d - 256);
      WholeLaps(1, low + d - 256);
      assert Low(t + d) == low + d - 256;
      assert (Low(t + d) - low) % 256 == d by { WholeLaps(-1, d); }
    }
  }

  lemma LapIsTrue(c: Client, t: Option<nat>, n: nat)
    requires Stands(c, t) && Follows(t, n)
    ensures LapAfter(c.lap, c.last, Low(n)) * 256 + Low(n) == n
  {
    if t.Some? {
      LapStepExactly(c.lap, t.value, n - t.value);
    }
  }

  // ---- reports --------------------------------------------------------------------------

  /** One INPUT record as the relay sees it: whose, the tick it stands for, and its payload. */
  datatype Report = Report(host: bool, tick: nat, payload: seq<byte>)

  /** Two consoles in a match with nobody in between. */
  ghost predicate Playing(w: Room, a: Id, b: Id) {
    && a in w.clients && b in w.clients && a != b
    && w.clients[a].partner == Some(b) && w.clients[b].partner == Some(a)
  }

  function Sender(a: Id, b: Id, r: Report): Id {
    if r.host then a else b
  }

  ghost predicate Carries(r: Report) {
    |r.payload| >= GAME_PAYLOAD && r.payload[0] == Low(r.tick)
  }

  function ReportAll(w: Room, a: Id, b: Id, rs: seq<Report>): (z: Room)
    requires a in w.clients && b in w.clients
    requires forall k :: 0 <= k < |rs| ==> |rs[k].payload| >= GAME_PAYLOAD
    ensures z.clients.Keys == w.clients.Keys
    decreases |rs|
  {
    if rs == [] then w else
      LogCrc(ReportAll(w, a, b, rs[..|rs| - 1]), Sender(a, b, rs[|rs| - 1]), rs[|rs| - 1].payload)
  }

  /** The last tick one side reported. */
  function LastOf(rs: seq<Report>, host: bool): Option<nat> {
    if rs == [] then None
    else if rs[|rs| - 1].host == host then Some(rs[|rs| - 1].tick)
    else LastOf(rs[..|rs| - 1], host)
  }

  /** Each side's ticks in a match's stream: in order, in steps of less than half a lap. */
  ghost predicate InStep(rs: seq<Report>) {
    forall k :: 0 <= k < |rs| ==> Carries(rs[k]) && Follows(LastOf(rs[..k], rs[k].host), rs[k].tick)
  }

  lemma InStepPrefix(rs: seq<Report>)
    requires InStep(rs) && rs != []
    ensures InStep(rs[..|rs| - 1])
  {
    var before := rs[..|rs| - 1];
    forall k | 0 <= k < |before|
      ensures Carries(before[k]) && Follows(LastOf(before[..k], before[k].host), before[k].tick)
    {
      assert before[..k] == rs[..k] && before[k] == rs[k];
    }
  }

  // ---- one report -----------------------------------------------------------------------

  ghost predicate Told(m: seq<Entry>, truth: nat -> byte) {
    forall k :: 0 <= k < |m| ==> m[k].crc == truth(m[k].key)
  }

  lemma MapsStayTold(m: seq<Entry>, key: nat, crc: byte, i: nat, truth: nat -> byte)
    requires Told(m, truth) && crc == truth(key)
    ensures Told(SetEntry(m, key, crc), truth) && Told(Newest(SetEntry(m, key, crc), 8), truth)
    ensures i < |m| ==> Told(DropEntry(m, i), truth)
  {
  }

  /** What one report does to the sender, to the partner and to the counts; the links stay. */
  lemma OneReport(w: Room, a: Id, b: Id, payload: seq<byte>)
    requires Playing(w, a, b) && |payload| >= GAME_PAYLOAD
    ensures var c, p := w.clients[a], w.clients[b];
            var lap := LapAfter(c.lap, c.last, payload[0]);
            var key := lap * 256 + payload[0];
            var i := Find(p.crc, key);
            var m := SetEntry(c.crc, key, payload[4]);
            var z := LogCrc(w, a, payload);
            && Playing(z, a, b)
            && z.clients[a].lap == lap && z.clients[a].last == Some(payload[0])
            && z.clients[b].lap == p.lap && z.clients[b].last == p.last
            && (i == |p.crc| ==> z.clients[a].crc == Newest(m, 8) && z.clients[b].crc == p.crc && z.stats == w.stats)
            && (i < |p.crc| ==>
                  && z.clients[a].crc == m && z.clients[b].crc == DropEntry(p.crc, i)
                  && z.stats == if p.crc[i].crc != payload[4] then w.stats.(bad := w.stats.bad + 1)
                                else w.stats.(ok := w.stats.ok + 1))
  {
    hide Find, SetEntry, Newest, DropEntry, LapAfter;
  }

  /** The alarm goes up exactly when the partner's entry for the same tick is still there and says
      otherwise; when it says the same, that is what is counted, and without an entry nothing is. */
  lemma BadRisesExactly(w: Room, a: Id, b: Id, t: Option<nat>, n: nat, payload: seq<byte>)
    requires Playing(w, a, b) && Stands(w.clients[a], t) && Follows(t, n)
    requires |payload| >= GAME_PAYLOAD && payload[0] == Low(n)
    ensures var p := w.clients[b].crc;
            var i := Find(p, n);
            LogCrc(w, a, payload).stats == w.stats.(
              bad := w.stats.bad + if i < |p| && p[i].crc != payload[4] then 1 else 0,
              ok := w.stats.ok + if i < |p| && p[i].crc == payload[4] then 1 else 0)
  {
    hide LogCrc, Find, SetEntry, Newest, DropEntry, LapAfter, Stands;
    LapIsTrue(w.clients[a], t, n);
    OneReport(w, a, b, payload);
  }

  // ---- no false alarm -------------------------------------------------------------------

  ghost predicate Sound(w: Room, a: Id, b: Id, ta: Option<nat>, tb: Option<nat>, truth: nat -> byte) {
    && Playing(w, a, b)
    && Stands(w.clients[a], ta) && Stands(w.clients[b], tb)
    && Told(w.clients[a].crc, truth) && Told(w.clients[b].crc, truth)
  }

  lemma ReportStaysSound(w: Room, a: Id, b: Id, ta: Option<nat>, tb: Option<nat>, truth: nat -> byte, n: nat, payload: seq<byte>)
    requires Sound(w, a, b, ta, tb, truth) && Follows(ta, n)
    requires |payload| >= GAME_PAYLOAD && payload[0] == Low(n) && payload[4] == truth(n)
    ensures Sound(LogCrc(w, a, payload), a, b, Some(n), tb, truth) && LogCrc(w, a, payload).stats.bad == w.stats.bad
  {
    hide LogCrc, SetEntry, Newest, DropEntry, LapAfter;
    LapIsTrue(w.clients[a], ta, n);
    OneReport(w, a, b, payload);
    var p := w.clients[b].crc;
    MapsStayTold(w.clients[a].crc, n, payload[4], 0, truth);
    MapsStayTold(p, n, payload[4], Find(p, n), truth);
  }

  lemma SoundBothWays(w: Room, a: Id, b: Id, ta: Option<nat>, tb: Option<nat>, truth: nat -> byte)
    ensures Sound(w, a, b, ta, tb, truth) == Sound(w, b, a, tb, ta, truth)
  {
  }

  /** In a client's first match the alarm is never false: if for every tick both consoles report the
      same checksum, the count of mismatches does not move, however the two streams interleave. */
  lemma {:induction false} NoFalseAlarm(w: Room, a: Id, b: Id, rs: seq<Report>, truth: nat -> byte)
    requires Sound(w, a, b, None, None, truth) && InStep(rs)
    requires forall k :: 0 <= k < |rs| ==> |rs[k].payload| >= GAME_PAYLOAD && rs[k].payload[4] == truth(rs[k].tick)
    ensures var z := ReportAll(w, a, b, rs);
            && Sound(z, a, b, LastOf(rs, true), LastOf(rs, false), truth) && z.stats.bad == w.stats.bad
    decreases |rs|
  {
    hide Sound, LogCrc, Follows;
    SoundKeys(w, a, b, None, None, truth);
    if rs != [] {
      var before, r := rs[..|rs| - 1], rs[|rs| - 1];
      InStepPrefix(rs);
      NoFalseAlarm(w, a, b, before, truth);
      var y := ReportAll(w, a, b, before);
      var ta, tb := LastOf(before, true), LastOf(before, false);
      assert Carries(r) && Follows(LastOf(before, r.host), r.tick);
      if r.host {
        ReportStaysSound(y, a, b, ta, tb, truth, r.tick, r.payload);
      } else {
        SoundBothWays(y, a, b, ta, tb, truth);
        SoundKeys(y, a, b, ta, tb, truth);
        ReportStaysSound(y, b, a, tb, ta, truth, r.tick, r.payload);
        SoundBothWays(LogCrc(y, b, r.payload), b, a, Some(r.tick), ta, truth);
      }
    }
  }

  lemma SoundKeys(w: Room, a: Id, b: Id, ta: Option<nat>, tb: Option<nat>, truth: nat -> byte)
    requires Sound(w, a, b, ta, tb, truth)
    ensures a in w.clients && b in w.clients
  {
  }

  // ---- no missed difference -------------------------------------------------------------

  /** The entry for `key` is there with this value, and at most `n` younger entries behind it. */
  predicate Holds(m: seq<Entry>, key: nat, crc: byte, n: nat) {
    var i := Find(m, key); i < |m| && m[i].crc == crc && |m| - 1 - i <= n
  }

  lemma {:induction false} FindFrom(m: seq<Entry>, key: nat, i: nat)
    requires i < |m| && m[i].key == key && forall k :: 0 <= k < i ==> m[k].key != key
    ensures Find(m, key) == i
  {
  }

  /** An entry survives another key's report as long as fewer than eight are younger than it. */
  lemma HoldsOn(m: seq<Entry>, key: nat, crc: byte, n: nat, other: nat, v: byte)
    requires Holds(m, key, crc, n) && other != key
    ensures Holds(SetEntry(m, other, v), key, crc, n + 1)
    ensures n < 7 ==> Holds(Newest(SetEntry(m, other, v), 8), key, crc, n + 1)
    ensures Find(m, other) < |m| ==> Holds(DropEntry(m, Find(m, other)), key, crc, n)
  {
    hide DropEntry, Newest, SetEntry;
    SetHolds(m, key, crc, n, other, v);
    if n < 7 {
      TrimHolds(SetEntry(m, other, v), key, crc, n + 1);
    }
    if Find(m, other) < |m| {
      DropHolds(m, key, crc, n, Find(m, other));
    }
  }

  lemma SetHolds(m: seq<Entry>, key: nat, crc: byte, n: nat, other: nat, v: byte)
    requires Holds(m, key, crc, n) && other != key
    ensures Holds(SetEntry(m, other, v), key, crc, n + 1)
  {
    FindFrom(SetEntry(m, other, v), key, Find(m, key));
  }

  lemma TrimHolds(m: seq<Entry>, key: nat, crc: byte, n: nat)
    requires Holds(m, key, crc, n) && n < 8
    ensures Holds(Newest(m, 8), key, crc, n)
  {
    hide Find;
    var s := Newest(m, 8);
    FindFrom(s, key, Find(m, key) - (|m| - |s|));
  }

  lemma DropHolds(m: seq<Entry>, key: nat, crc: byte, n: nat, j: nat)
    requires Holds(m, key, crc, n) && j < |m| && m[j].key != key
    ensures Holds(DropEntry(m, j), key, crc, n)
  {
    var i := Find(m, key);
    FindFrom(DropEntry(m, j), key, if i < j then i else i - 1);
  }

  /** `a`'s report for tick `t` waits to be paired, with at most `n` younger. */
  ghost predicate Waiting(w: Room, a: Id, b: Id, ta: Option<nat>, tb: Option<nat>, t: nat, crc: byte, n: nat) {
    && Playing(w, a, b) && Stands(w.clients[a], ta) && Stands(w.clients[b], tb)
    && Holds(w.clients[a].crc, t, crc, n)
  }

  /** How many more reports the same side makes. */
  function CountOf(rs: seq<Report>, host: bool): (n: nat) {
    if rs == [] then 0 else CountOf(rs[..|rs| - 1], host) + if rs[|rs| - 1].host == host then 1 else 0
  }

  lemma OwnReportWaits(w: Room, a: Id, b: Id, ta: Option<nat>, tb: Option<nat>, t: nat, crc: byte, n: nat, k: nat, payload: seq<byte>)
    requires Waiting(w, a, b, ta, tb, t, crc, n) && n < 7 && Follows(ta, k) && k != t
    requires |payload| >= GAME_PAYLOAD && payload[0] == Low(k)
    ensures Waiting(LogCrc(w, a, payload), a, b, Some(k), tb, t, crc, n + 1)
  {
    hide LogCrc, SetEntry, Newest, DropEntry, LapAfter, Holds;
    LapIsTrue(w.clients[a], ta, k);
    OneReport(w, a, b, payload);
    HoldsOn(w.clients[a].crc, t, crc, n, k, payload[4]);
  }

  lemma OtherReportWaits(w: Room, a: Id, b: Id, ta: Option<nat>, tb: Option<nat>, t: nat, crc: byte, n: nat, k: nat, payload: seq<byte>)
    requires Waiting(w, a, b, ta, tb, t, crc, n) && Follows(tb, k) && k != t
    requires |payload| >= GAME_PAYLOAD && payload[0] == Low(k)
    ensures Waiting(LogCrc(w, b, payload), a, b, ta, Some(k), t, crc, n)
  {
    hide LogCrc, SetEntry, Newest, DropEntry, LapAfter, Holds;
    LapIsTrue(w.clients[b], tb, k);
    OneReport(w, b, a, payload);
    HoldsOn(w.clients[a].crc, t, crc, n, k, payload[4]);
  }

  /** Each side's ticks go on from where they stood. */
  ghost predicate GoesOn(ta: Option<nat>, tb: Option<nat>, rs: seq<Report>) {
    forall k :: 0 <= k < |rs| ==> Carries(rs[k]) && Follows(Now(ta, tb, rs[..k], rs[k].host), rs[k].tick)
  }

  function Now(ta: Option<nat>, tb: Option<nat>, rs: seq<Report>, host: bool): Option<nat> {
    var t := LastOf(rs, host);
    if t.Some? then t else if host then ta else tb
  }

  lemma GoesOnPrefix(ta: Option<nat>, tb: Option<nat>, rs: seq<Report>)
    requires GoesOn(ta, tb, rs) && rs != []
    ensures GoesOn(ta, tb, rs[..|rs| - 1])
  {
    var before := rs[..|rs| - 1];
    forall k | 0 <= k < |before|
      ensures Carries(before[k]) && Follows(Now(ta, tb, before[..k], before[k].host), before[k].tick)
    {
      assert before[..k] == rs[..k] && before[k] == rs[k];
    }
  }

  lemma {:induction false} StillWaiting(w: Room, a: Id, b: Id, ta: Option<nat>, tb: Option<nat>, t: nat, crc: byte, rs: seq<Report>)
    requires Waiting(w, a, b, ta, tb, t, crc, 0) && GoesOn(ta, tb, rs)
    requires forall k :: 0 <= k < |rs| ==> |rs[k].payload| >= GAME_PAYLOAD && rs[k].tick != t
    requires CountOf(rs, true) <= 7
    ensures Waiting(ReportAll(w, a, b, rs), a, b, Now(ta, tb, rs, true), Now(ta, tb, rs, false), t, crc, CountOf(rs, true))
    decreases |rs|
  {
    hide Waiting, LogCrc, Follows, GoesOn;
    WaitingKeys(w, a, b, ta, tb, t, crc);
    if rs != [] {
      var before, r := rs[..|rs| - 1], rs[|rs| - 1];
      GoesOnPrefix(ta, tb, rs);
      StillWaiting(w, a, b, ta, tb, t, crc, before);
      var y := ReportAll(w, a, b, before);
      NextGoesOn(ta, tb, rs);
      var sa, sb, n := Now(ta, tb, before, true), Now(ta, tb, before, false), CountOf(before, true);
      if r.host {
        OwnReportWaits(y, a, b, sa, sb, t, crc, n, r.tick, r.payload);
      } else {
        OtherReportWaits(y, a, b, sa, sb, t, crc, n, r.tick, r.payload);
      }
    }
  }

  lemma WaitingKeys(w: Room, a: Id, b: Id, ta: Option<nat>, tb: Option<nat>, t: nat, crc: byte)
    requires Waiting(w, a, b, ta, tb, t, crc, 0)
    ensures a in w.clients && b in w.clients
  {
  }

  lemma NextGoesOn(ta: Option<nat>, tb: Option<nat>, rs: seq<Report>)
    requires GoesOn(ta, tb, rs) && rs != []
    ensures var r := rs[|rs| - 1]; Carries(r) && Follows(Now(ta, tb, rs[..|rs| - 1], r.host), r.tick)
  {
  }

  /** A difference is seen: one console has just reported tick `t`; whatever the two report after that,
      as long as the first reports fewer than eight other ticks, the other's report for `t` raises
      the alarm exactly when it differs. */
  lemma DifferenceIsSeen(w: Room, a: Id, b: Id, ta: Option<nat>, tb: Option<nat>, t: nat, crc: byte, rs: seq<Report>, payload: seq<byte>)
    requires Waiting(w, a, b, ta, tb, t, crc, 0) && GoesOn(ta, tb, rs)
    requires forall k :: 0 <= k < |rs| ==> |rs[k].payload| >= GAME_PAYLOAD && rs[k].tick != t
    requires CountOf(rs, true) <= 7
    requires Follows(Now(ta, tb, rs, false), t) && |payload| >= GAME_PAYLOAD && payload[0] == Low(t)
    ensures var z := ReportAll(w, a, b, rs);
            LogCrc(z, b, payload).stats.bad == z.stats.bad + if payload[4] != crc then 1 else 0
  {
    hide LogCrc, Follows, GoesOn, LastOf, Stands;
    StillWaiting(w, a, b, ta, tb, t, crc, rs);
    var z := ReportAll(w, a, b, rs);
    BadRisesExactly(z, b, a, Now(ta, tb, rs, false), t, payload);
  }

  // ---- the map is not bounded -------------------------------------------------------------

  /** How far one report lets the sender's map grow. Past eight entries, or past any bound from there on,
      it goes exactly when the partner has an entry for the same tick and the sender's map was past the
      bound already, or stood at it and has none for that tick: the paired path never trims. */
  lemma MapGrowsExactly(w: Room, a: Id, b: Id, payload: seq<byte>, bound: nat)
    requires Playing(w, a, b) && |payload| >= GAME_PAYLOAD && bound >= 8
    ensures var c, p := w.clients[a], w.clients[b];
            var key := LapAfter(c.lap, c.last, payload[0]) * 256 + payload[0];
            var z := LogCrc(w, a, payload);
            && z.clients.Keys == w.clients.Keys
            && (|z.clients[a].crc| > bound <==>
                  && Find(p.crc, key) < |p.crc|
                  && (|c.crc| > bound || (|c.crc| == bound && Find(c.crc, key) == |c.crc|)))
            && |z.clients[b].crc| == |p.crc| - if Find(p.crc, key) < |p.crc| then 1 else 0
  {
    hide LogCrc, LapAfter, Find;
    OneReport(w, a, b, payload);
  }

  function Record0(n: nat): (p: seq<byte>)
    ensures |p| == GAME_PAYLOAD
  {
    [Low(n), 0, 0, 0, 0, 0]
  }

  /** One tick reported by both, `a` first: `a`'s entry is paired off and `b`'s stays behind. */
  lemma OneRound(w: Room, a: Id, b: Id, t: Option<nat>, n: nat)
    requires Playing(w, a, b) && Stands(w.clients[a], t) && Stands(w.clients[b], t) && Follows(t, n)
    requires w.clients[a].crc == [] && Find(w.clients[b].crc, n) == |w.clients[b].crc|
    ensures var z := LogCrc(LogCrc(w, a, Record0(n)), b, Record0(n));
            && Playing(z, a, b) && Stands(z.clients[a], Some(n)) && Stands(z.clients[b], Some(n))
            && z.clients[a].crc == [] && z.clients[b].crc == w.clients[b].crc + [Entry(n, 0)]
  {
    hide LogCrc, LapAfter;
    LapIsTrue(w.clients[a], t, n);
    OneReport(w, a, b, Record0(n));
    var x := LogCrc(w, a, Record0(n));
    LapIsTrue(x.clients[b], t, n);
    OneReport(x, b, a, Record0(n));
    FindFrom([Entry(n, 0)], n, 0);
  }

  /** Ticks 0 to `n - 1`, each reported by the host and then by the guest, with the same checksum. */
  function InTurn(n: nat): (rs: seq<Report>)
    ensures |rs| == 2 * n
    ensures forall k :: 0 <= k < |rs| ==> |rs[k].payload| >= GAME_PAYLOAD
    ensures forall k :: 0 <= k < |rs| ==> rs[k] == Report(k % 2 == 0, k / 2, Record0(k / 2))
  {
    if n == 0 then [] else InTurn(n - 1) + [Report(true, n - 1, Record0(n - 1)), Report(false, n - 1, Record0(n - 1))]
  }

  lemma NextInTurn(n: nat)
    requires n > 0
    ensures InTurn(n) == InTurn(n - 1) + [Report(true, n - 1, Record0(n - 1))] + [Report(false, n - 1, Record0(n - 1))]
  {
  }

  lemma {:induction false} LastInTurn(rs: seq<Report>, m: nat)
    requires |rs| == m && forall k :: 0 <= k < m ==> rs[k] == Report(k % 2 == 0, k / 2, Record0(k / 2))
    ensures LastOf(rs, true) == if m == 0 then None else Some((m - 1) / 2)
    ensures LastOf(rs, false) == if m < 2 then None else Some((m - 2) / 2)
  {
    if m > 0 {
      LastInTurn(rs[..m - 1], m - 1);
    }
  }

  lemma InTurnIsInStep(n: nat)
    ensures InStep(InTurn(n))
  {
    var rs := InTurn(n);
    forall k | 0 <= k < |rs|
      ensures Carries(rs[k]) && Follows(LastOf(rs[..k], rs[k].host), rs[k].tick)
    {
      LastInTurn(rs[..k], k);
    }
  }

  lemma OneMoreReport(w: Room, a: Id, b: Id, rs: seq<Report>, x: Report)
    requires a in w.clients && b in w.clients && |x.payload| >= GAME_PAYLOAD
    requires forall k :: 0 <= k < |rs| ==> |rs[k].payload| >= GAME_PAYLOAD
    ensures ReportAll(w, a, b, rs + [x]) == LogCrc(ReportAll(w, a, b, rs), Sender(a, b, x), x.payload)
  {
    hide LogCrc;
    assert (rs + [x])[..|rs + [x]| - 1] == rs;
  }

  /** The first side's map is empty and the second's holds the first `n` ticks, all of them. */
  ghost predicate Grown(w: Room, a: Id, b: Id, n: nat) {
    var t := if n == 0 then None else Some(n - 1);
    && Playing(w, a, b) && Stands(w.clients[a], t) && Stands(w.clients[b], t)
    && w.clients[a].crc == [] && |w.clients[b].crc| == n
    && forall k :: 0 <= k < n ==> w.clients[b].crc[k] == Entry(k, 0)
  }

  lemma GrowsByOne(y: Room, a: Id, b: Id, n: nat)
    requires Grown(y, a, b, n)
    ensures Grown(LogCrc(LogCrc(y, a, Record0(n)), b, Record0(n)), a, b, n + 1)
  {
    hide LogCrc, Stands, Record0;
    OneRound(y, a, b, if n == 0 then None else Some(n - 1), n);
  }

  /** What the comment on the C port's table overlooks: two consoles in step that report the same
      checksum for every tick, one always second, leave the second's map one entry for every tick, as
      many as the run is long. */
  lemma {:induction false} SecondSideGrows(w: Room, a: Id, b: Id, n: nat)
    requires Grown(w, a, b, 0)
    ensures InStep(InTurn(n)) && a in w.clients && b in w.clients && Grown(ReportAll(w, a, b, InTurn(n)), a, b, n)
  {
    hide Grown, InStep, LogCrc, InTurn, ReportAll, Record0;
    InTurnIsInStep(n);
    GrownKeys(w, a, b);
    if n == 0 {
      NoReports(w, a, b);
    } else {
      SecondSideGrows(w, a, b, n - 1);
      NextInTurn(n);
      OneMoreReport(w, a, b, InTurn(n - 1), Report(true, n - 1, Record0(n - 1)));
      OneMoreReport(w, a, b, InTurn(n - 1) + [Report(true, n - 1, Record0(n - 1))], Report(false, n - 1, Record0(n - 1)));
      GrowsByOne(ReportAll(w, a, b, InTurn(n - 1)), a, b, n - 1);
    }
  }

  lemma NoReports(w: Room, a: Id, b: Id)
    requires a in w.clients && b in w.clients
    ensures InTurn(0) == [] && ReportAll(w, a, b, InTurn(0)) == w
  {
  }

  lemma GrownKeys(w: Room, a: Id, b: Id)
    requires Grown(w, a, b, 0)
    ensures a in w.clients && b in w.clients
  {
  }
}
