/** The branch of `accept_client` below its two caps: it is reached, and what it costs. */
module Refusal {
  import opened Relay
  import opened RelayStore
  import opened RelayC

  /** Connections at one moment, eight from each address. */
  function Crowd(n: nat): (es: seq<Event>)
    ensures |es| == n
  {
    if n == 0 then [] else Crowd(n - 1) + [Connect(n - 1, (n - 1) / MAX_PER_IP, 0)]
  }

  ghost predicate Crowded(w: Room, n: nat) {
    && w.names == map[] && !w.stuck && |w.order| == n
    && (forall k :: 0 <= k < n ==> w.order[k] == k && k in w.clients)
    && (forall i :: i in w.clients ==> i < n && w.clients[i] == NEW.(ip := i / MAX_PER_IP, born := 0))
  }

  /** How many of the first `k` come from one address. */
  lemma {:induction false} CrowdCounts(w: Room, n: nat, ip: nat, k: nat)
    requires Crowded(w, n) && k <= n
    ensures FromAddress(w, ip, k) ==
            if k <= MAX_PER_IP * ip then 0 else if k - MAX_PER_IP * ip < MAX_PER_IP then k - MAX_PER_IP * ip else MAX_PER_IP
    decreases k
  {
    if k > 0 {
      CrowdCounts(w, n, ip, k - 1);
      assert w.clients[w.order[k - 1]].ip == (k - 1) / MAX_PER_IP;
    }
  }

  lemma CrowdTakesOne(w: Room, n: nat)
    requires Crowded(w, n) && n < MAX_CLIENTS
    ensures FromAddress(w, n / MAX_PER_IP, n) < MAX_PER_IP && Crowded(Accept(w, n, n / MAX_PER_IP, 0), n + 1)
    ensures |w.order| == n && n !in w.clients && forall i :: i in w.clients ==> w.clients[i].born <= 0
  {
    CrowdCounts(w, n, n / MAX_PER_IP, n);
    hide FromAddress;
  }

  lemma CrowdGrows(cfg: Config, n: nat)
    requires n < MAX_CLIENTS && Runs(cfg, EMPTY, Crowd(n)) && Crowded(Exec(cfg, EMPTY, Crowd(n)).room, n)
    ensures var h := Exec(cfg, EMPTY, Crowd(n));
            && |h.room.order| == n && FromAddress(h.room, n / MAX_PER_IP, n) < MAX_PER_IP && Runs(cfg, EMPTY, Crowd(n + 1))
            && Exec(cfg, EMPTY, Crowd(n + 1)) == Hub(Accept(h.room, n, n / MAX_PER_IP, 0), h.rx[n := []])
            && Crowded(Exec(cfg, EMPTY, Crowd(n + 1)).room, n + 1)
  {
    var h := Exec(cfg, EMPTY, Crowd(n));
    CrowdTakesOne(h.room, n);
    hide FromAddress, Crowded, Accept;
    assert Crowd(n + 1)[..n] == Crowd(n);
    assert Enabled(h, Connect(n, n / MAX_PER_IP, 0));
  }

  lemma NobodyYet(cfg: Config)
    ensures Crowd(0) == [] && Runs(cfg, EMPTY, []) && Exec(cfg, EMPTY, []) == EMPTY && Crowded(EMPTY.room, 0)
  {
  }

  lemma FirstIsKnown(st: Store, h: Hub)
    requires Models(st, h) && Crowded(h.room, MAX_CLIENTS) && st.cs[0].inUse && st.cs[0].gen == 0
    ensures Known(h, 0)
  {
    assert SlotIs(st.cs, 0, h);
    assert h.room.order[0] == 0;
  }

  /** One of sixty-four hung up: both caps allow another connection, and the tables have room for the
      goodbye. */
  lemma CrowdThins(w: Room)
    requires Crowded(w, MAX_CLIENTS)
    ensures Roomy(Drop(w, 0)) && |Drop(w, 0).order| == MAX_CLIENTS - 1
    ensures FromAddress(Drop(w, 0), MAX_PER_IP, MAX_CLIENTS - 1) == 0
  {
    var r := Drop(w, 0);
    assert w.order == [0] + w.order[1..];
    assert r.order == w.order[1..];
    NoneThere(r, MAX_PER_IP, MAX_CLIENTS - 1);
  }

  lemma {:induction false} NoneThere(w: Room, ip: int, n: nat)
    requires n <= |w.order| && forall i :: i in w.clients ==> w.clients[i].ip != ip
    ensures FromAddress(w, ip, n) == 0
    decreases n
  {
    if n > 0 {
      NoneThere(w, ip, n - 1);
    }
  }

  /** A room with a client more is not what unchanged tables hold. */
  lemma NotWithOneMore(st: Store, h: Hub, id: Id, ip: int, born: int)
    requires Models(st, h) && |h.room.order| < MAX_CLIENTS && FromAddress(h.room, ip, |h.room.order|) < MAX_PER_IP
    ensures !Models(st, Hub(Accept(h.room, id, ip, born), h.rx[id := []]))
  {
    SameLength(st, h);
    hide FromAddress;
    var r := Hub(Accept(h.room, id, ip, born), h.rx[id := []]);
    if Models(st, r) {
      SameLength(st, r);
    }
  }

  lemma HungUp(cfg: Config, es: seq<Event>, id: Id)
    requires Runs(cfg, EMPTY, es) && Enabled(Exec(cfg, EMPTY, es), Hangup(id))
    ensures Runs(cfg, EMPTY, es + [Hangup(id)])
    ensures var h := Exec(cfg, EMPTY, es); id in h.room.clients && Exec(cfg, EMPTY, es + [Hangup(id)]) == h.(room := Drop(h.room, id))
  {
    assert (es + [Hangup(id)])[..|es|] == es;
  }

  /** Sixty-four connections taken, each in the slot of its number. */
  method FillUp(cfg: Original) returns (s: RelayC.Server, ghost h: Hub)
    ensures fresh(s) && fresh(s.clients) && fresh(s.order) && fresh(s.byName) && s.Holds(h)
    ensures Runs(cfg, EMPTY, Crowd(MAX_CLIENTS)) && h == Exec(cfg, EMPTY, Crowd(MAX_CLIENTS)) && Crowded(h.room, MAX_CLIENTS)
    ensures forall k :: 0 <= k < MAX_CLIENTS ==> s.clients[k].gen == 0 && s.clients[k].inUse
  {
    hide Models, Sane, Accept, FromAddress, SameIp, Crowded, Crowd, Runs, Exec;
    NobodyYet(cfg);
    s := new RelayC.Server(Port(cfg));
    h := EMPTY;
    var i := 0;
    while i < MAX_CLIENTS
      invariant i <= MAX_CLIENTS && s.Holds(h) && fresh(s) && fresh(s.clients) && fresh(s.order) && fresh(s.byName)
      invariant Runs(cfg, EMPTY, Crowd(i)) && h == Exec(cfg, EMPTY, Crowd(i)) && Crowded(h.room, i)
      invariant forall k :: 0 <= k < MAX_CLIENTS ==> s.clients[k].gen == 0 && (s.clients[k].inUse <==> k < i)
    {
      CrowdGrows(cfg, i);
      assert !s.Snap().cs[i].inUse;
      var _, _, _ := s.AcceptClient(i / MAX_PER_IP, 0, h);
      h, i := Exec(cfg, EMPTY, Crowd(i + 1)), i + 1;
    }
  }

  /** One of them hung up, and its slot not yet freed. */
  method HangOneUp(cfg: Original) returns (s: RelayC.Server, ghost h: Hub)
    ensures fresh(s) && fresh(s.clients) && fresh(s.order) && fresh(s.byName) && s.Holds(h)
    ensures var es := Crowd(MAX_CLIENTS) + [Hangup(0)]; Runs(cfg, EMPTY, es) && h == Exec(cfg, EMPTY, es)
    ensures |h.room.order| == MAX_CLIENTS - 1 && FromAddress(h.room, MAX_PER_IP, MAX_CLIENTS - 1) == 0
    ensures forall k :: 0 <= k < MAX_CLIENTS ==> s.Snap().cs[k].inUse
  {
    hide Models, Sane, Accept, Drop, FromAddress, SameIp, Crowded, Crowd, Runs, Exec, Roomy, Without;
    s, h := FillUp(cfg);
    FirstIsKnown(s.Snap(), h);
    HungUp(cfg, Crowd(MAX_CLIENTS), 0);
    CrowdThins(h.room);
    s.Drop(0, h);
    h := Exec(cfg, EMPTY, Crowd(MAX_CLIENTS) + [Hangup(0)]);
  }

  /** The C comment calls this branch unreachable. Sixty-four connections over eight addresses, a hangup,
      and in the same batch a connection from a ninth address: sixty-three are live and none is from
      there, so the Python server takes it; every slot is in use, so the C port refuses it, and from
      then on holds the room without it. */
  method RefusedBelowTheCaps(cfg: Original)
    returns (s: RelayC.Server, ghost es: seq<Event>, ghost h: Hub, accepted: bool)
    ensures s.Valid() && es == Crowd(MAX_CLIENTS) + [Hangup(0)] && Runs(cfg, EMPTY, es) && h == Exec(cfg, EMPTY, es)
    ensures |h.room.order| == MAX_CLIENTS - 1 && FromAddress(h.room, MAX_PER_IP, MAX_CLIENTS - 1) == 0
    ensures forall k :: 0 <= k < MAX_CLIENTS ==> s.Uses(k)
    ensures !accepted && s.Holds(h)
    ensures forall id :: !s.Holds(Hub(Accept(h.room, id, MAX_PER_IP, 0), h.rx[id := []]))
  {
    hide Models, Sane, Accept, FromAddress, SameIp, Crowd, Runs, Exec;
    s, h := HangOneUp(cfg);
    es := Crowd(MAX_CLIENTS) + [Hangup(0)];
    ghost var st := s.Snap();
    var refused, _, _ := s.AcceptClient(MAX_PER_IP, 0, h);
    accepted := refused;
    assert s.Snap() == st;
    forall id: Id
      ensures !s.Holds(Hub(Accept(h.room, id, MAX_PER_IP, 0), h.rx[id := []]))
    {
      NotWithOneMore(s.Snap(), h, id, MAX_PER_IP, 0);
    }
  }
}
