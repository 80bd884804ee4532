/** What the relay sends for each kind of frame, byte by byte, and what it keeps of its clients. */
module Answers {
  import opened Bytes
  import opened Relay
  import opened Pairing

  /** Nothing but one client's output has moved, and that by these bytes. */
  ghost predicate OnlySent(w: Room, r: Room, id: Id, f: seq<byte>) {
    && id in w.clients
    && r == w.(clients := r.clients) && r.clients.Keys == w.clients.Keys
    && forall i :: i in w.clients ==>
         r.clients[i] == if i == id then w.clients[i].(tx := w.clients[i].tx + f) else w.clients[i]
  }

  lemma SendsOnly(w: Room, id: Id, f: seq<byte>)
    requires id in w.clients
    ensures OnlySent(w, Send(w, id, f), id, f)
  {
  }

  // ---- the short ones -------------------------------------------------------------------

  /** A PING is answered with a PONG, to its sender and to nobody else; a BYE is a drop; a frame of no known
      kind does nothing at all. */
  lemma ShortAnswers(cfg: Config, w: Room, id: Id, p: Packet)
    requires id in w.clients && |p.payload| < 200
    ensures var r := Handle(cfg, w, id, p);
            && (p.kind == 12 ==> OnlySent(w, r, id, [1, 13]))
            && (p.kind == 10 ==> r == Drop(w, id) && !Live(r, id))
            && (p.kind !in {1, 2, 4, 6, 7, 8, 9, 10, 12} ==> r == w)
  {
    hide Forward, LogCrc, OnHello, TryPair, SendLobby, Drop, Send;
    SendsOnly(w, id, Frame(T_PONG, []));
    assert Frame(T_PONG, []) == [1, 13];
  }

  // ---- what is passed on ----------------------------------------------------------------

  /** The frame a partner gets: the kind and the payload it was sent with, filled up with zeros to six. */
  function PassedOn(p: Packet): seq<byte>
    requires |p.payload| < 200
  {
    if |p.payload| >= 6 then [|p.payload| + 1, p.kind] + p.payload
    else [7, p.kind] + p.payload + seq(6 - |p.payload|, (_: nat) => 0 as byte)
  }

  lemma PassedIsFrame(p: Packet)
    requires |p.payload| < 200
    ensures PassedOn(p) == Frame(p.kind, Pad(p.payload, GAME_PAYLOAD))
  {
  }

  /** INPUT, CRC, STATE and RESYNC go to the sender's partner, and no other output moves; without a partner
      none does. */
  lemma PassedToPartner(cfg: Config, w: Room, id: Id, p: Packet)
    requires id in w.clients && |p.payload| < 200 && p.kind in {6, 7, 8, 9}
    requires w.clients[id].partner.Some? ==> w.clients[id].partner.value in w.clients
    ensures var r := Handle(cfg, w, id, p);
            && LinksAlike(w, r)
            && forall i :: i in w.clients ==>
                 r.clients[i].tx == w.clients[i].tx + if w.clients[id].partner == Some(i) then PassedOn(p) else []
  {
    hide LogCrc, Pad, Frame, LinksAlike, PassedOn;
    PassedIsFrame(p);
    var f := PassedOn(p);
    var w1 := Forward(w, id, p);
    ForwardsOnly(w, id, p);
    if p.kind == 6 && |p.payload| >= 6 {
      LogKeepsLinks(w1, id, p.payload);
      LinksTrans(w, w1, LogCrc(w1, id, p.payload));
    }
    forall i | i in w.clients
      ensures w1.clients[i].tx == w.clients[i].tx + if w.clients[id].partner == Some(i) then PassedOn(p) else []
    {
    }
  }

  lemma ForwardsOnly(w: Room, id: Id, p: Packet)
    requires id in w.clients && |p.payload| < 200
    requires w.clients[id].partner.Some? ==> w.clients[id].partner.value in w.clients
    ensures var r := Forward(w, id, p);
            && LinksAlike(w, r)
            && forall i :: i in w.clients ==>
                 r.clients[i].tx == w.clients[i].tx + if w.clients[id].partner == Some(i) then PassedOn(p) else []
  {
    hide Pad, Frame, PassedOn;
    PassedIsFrame(p);
    var q := w.clients[id].partner;
    if q.Some? {
      SendKeepsLinks(w, q.value, PassedOn(p));
      SendsOnly(w, q.value, PassedOn(p));
    } else {
      LinksSelf(w);
    }
  }

  lemma LinksSelf(w: Room)
    ensures LinksAlike(w, w)
  {
  }

  // ---- the lobby ------------------------------------------------------------------------

  predicate Named(w: Room, o: Id) {
    o in w.clients && w.clients[o].name != []
  }

  /** These places in the accept order, from the front, are the first eight of named clients. */
  ghost predicate FirstNamed(w: Room, n: nat, ids: seq<Id>, places: seq<nat>)
    requires n <= |w.order|
  {
    && |ids| == |places| <= 8
    && (forall k :: 0 <= k < |places| ==> places[k] < n && ids[k] == w.order[places[k]] && Named(w, ids[k]))
    && (forall j, k :: 0 <= j < k < |places| ==> places[j] < places[k])
    && (forall j :: 0 <= j < n && Named(w, w.order[j]) ==> j in places || (|places| == 8 && places[7] < j))
  }

  lemma {:induction false} ListedAreFirst(w: Room, n: nat) returns (places: seq<nat>)
    requires n <= |w.order|
    ensures FirstNamed(w, n, Listed(w, n), places)
  {
    places := [];
    if n > 0 {
      places := ListedAreFirst(w, n - 1);
      if Named(w, w.order[n - 1]) && |places| < 8 {
        places := places + [n - 1];
      }
    }
  }

  /** One row of the reply: eight characters of a name, zeros behind a shorter one, and whether its client
      is playing. */
  predicate RowReads(row: seq<byte>, c: Client) {
    && |row| == 9
    && (forall j :: 0 <= j < 8 ==> row[j] == if j < |c.name| then c.name[j] else 0)
    && row[8] == if c.partner.Some? then 1 else 0
  }

  lemma RowIs(c: Client)
    ensures RowReads(Pad(Short(c.name), 8) + [if c.partner.Some? then 1 else 0], c)
  {
  }

  lemma {:induction false} RowsAre(w: Room, ids: seq<Id>, k: nat)
    requires k < |ids| && forall j :: 0 <= j < |ids| ==> ids[j] in w.clients
    ensures RowReads(LobbyRows(w, ids)[9 * k..9 * k + 9], w.clients[ids[k]])
    decreases |ids|
  {
    hide RowReads, Pad, Short;
    var n := |ids| - 1;
    var before, c := LobbyRows(w, ids[..n]), w.clients[ids[n]];
    var row := Pad(Short(c.name), 8) + [if c.partner.Some? then 1 else 0];
    assert LobbyRows(w, ids) == before + row;
    if k < n {
      RowsAre(w, ids[..n], k);
      assert (before + row)[9 * k..9 * k + 9] == before[9 * k..9 * k + 9];
    } else {
      RowIs(c);
      assert (before + row)[9 * k..9 * k + 9] == row;
    }
  }

  lemma RowBehind(head: seq<byte>, rows: seq<byte>, at: nat)
    requires at + 9 <= |rows|
    ensures (head + rows)[|head| + at..|head| + at + 9] == rows[at..at + 9]
  {
  }

  lemma LobbyFrame(w: Room, ids: seq<Id>) returns (f: seq<byte>)
    requires |ids| <= 8 && forall k :: 0 <= k < |ids| ==> ids[k] in w.clients
    ensures f == Frame(T_LOBBY, [|ids|] + LobbyRows(w, ids))
    ensures |f| == 3 + 9 * |ids| && f[0] == 2 + 9 * |ids| && f[1] == 3 && f[2] == |ids|
    ensures forall k :: 0 <= k < |ids| ==> RowReads(f[3 + 9 * k..12 + 9 * k], w.clients[ids[k]])
  {
    hide RowReads, LobbyRows;
    var head, rows := [2 + 9 * |ids|, 3, |ids|], LobbyRows(w, ids);
    f := head + rows;
    forall k | 0 <= k < |ids|
      ensures RowReads(f[3 + 9 * k..12 + 9 * k], w.clients[ids[k]])
    {
      RowsAre(w, ids, k);
      RowBehind(head, rows, 9 * k);
    }
  }

  /** A LIST is answered with the first eight named clients in connection order: a length, the kind, how
      many, and a row for each. */
  lemma ListIsAnswered(cfg: Config, w: Room, id: Id, payload: seq<byte>) returns (f: seq<byte>, ids: seq<Id>, places: seq<nat>)
    requires id in w.clients && |payload| < 200
    ensures OnlySent(w, Handle(cfg, w, id, Packet(2, payload)), id, f)
    ensures FirstNamed(w, |w.order|, ids, places)
    ensures |f| == 3 + 9 * |ids| && f[0] == 2 + 9 * |ids| && f[1] == 3 && f[2] == |ids|
    ensures forall k :: 0 <= k < |ids| ==> ids[k] in w.clients && RowReads(f[3 + 9 * k..12 + 9 * k], w.clients[ids[k]])
  {
    hide RowReads, LobbyRows, Send;
    ids := Listed(w, |w.order|);
    places := ListedAreFirst(w, |w.order|);
    f := LobbyFrame(w, ids);
    SendsOnly(w, id, f);
  }

  // ---- a send ---------------------------------------------------------------------------

  /** One send on a socket: a broken one is a drop; otherwise what was taken is gone from the front of what
      waits, nothing else of any client has changed, and the client is dropped exactly when more than 65,536
      bytes are still waiting. */
  lemma FlushExactly(w: Room, id: Id, s: Sent)
    requires id in w.clients && Live(w, id) && w.clients[id].tx != [] && (s.Took? ==> s.n <= |w.clients[id].tx|)
    ensures s.Broken? ==> Flush(w, id, s) == Drop(w, id)
    ensures !s.Broken? ==>
              var left := if s.Took? then w.clients[id].tx[s.n..] else w.clients[id].tx;
              var sent := w.(clients := w.clients[id := w.clients[id].(tx := left)]);
              if |left| <= 65536 then Flush(w, id, s) == sent
              else Flush(w, id, s) == Drop(sent.(stats := w.stats.(txDrops := w.stats.txDrops + 1)), id)
  {
    hide Drop;
  }

  // ---- the counts -----------------------------------------------------------------------

  /** No count of bad frames, backlogs or refusals moves, and one match is counted for each seed drawn. */
  ghost predicate CountsOnlyMatches(w: Room, r: Room) {
    && r.stats.badFrames == w.stats.badFrames && r.stats.txDrops == w.stats.txDrops
    && r.stats.ipRejects == w.stats.ipRejects && r.clients.Keys == w.clients.Keys
    && r.stats.matches - w.stats.matches == r.matched - w.matched
  }

  lemma PiecesCount(cfg: Config, w: Room, id: Id, payload: seq<byte>)
    requires id in w.clients && |payload| >= GAME_PAYLOAD
    ensures CountsOnlyMatches(w, LogCrc(w, id, payload)) && CountsOnlyMatches(w, Drop(w, id))
  {
    hide Find, Newest, SetEntry, DropEntry, LapAfter, Unname, Frame, Without;
  }

  lemma PairCounts(cfg: Config, w: Room, id: Id)
    requires id in w.clients
    ensures CountsOnlyMatches(w, TryPair(cfg, w, id))
  {
    hide Oldest, StartFrame, Short, Raises;
  }

  lemma HelloCounts(cfg: Config, w: Room, id: Id, payload: seq<byte>)
    requires id in w.clients
    ensures CountsOnlyMatches(w, OnHello(cfg, w, id, payload))
  {
    hide Asked, Resolve, Drop, TryPair;
    PiecesCount(cfg, w, id, [0, 0, 0, 0, 0, 0]);
    if Asked(payload).Some? {
      var free := Resolve(cfg, w.names, Asked(payload).value, w.drawn, MAX_TRIES);
      if free.Some? {
        PairCounts(cfg, Rename(w, id, free.value.0, free.value.1), id);
      }
    }
  }

  lemma HandleCounts(cfg: Config, w: Room, id: Id, p: Packet)
    requires id in w.clients && |p.payload| < 255
    ensures CountsOnlyMatches(w, Handle(cfg, w, id, p))
  {
    hide LogCrc, OnHello, TryPair, Drop, Frame, Pad, Listed, LobbyRows;
    PairCounts(cfg, w, id);
    HelloCounts(cfg, w, id, p.payload);
    PiecesCount(cfg, w, id, [0, 0, 0, 0, 0, 0]);
    if |p.payload| >= GAME_PAYLOAD {
      PiecesCount(cfg, Forward(w, id, p), id, p.payload);
    }
  }

  lemma {:induction false} AllCount(cfg: Config, w: Room, id: Id, ps: seq<Packet>)
    requires id in w.clients && Framed(ps)
    ensures CountsOnlyMatches(w, HandleAll(cfg, w, id, ps))
    decreases |ps|
  {
    hide Handle;
    if ps != [] {
      AllCount(cfg, w, id, ps[..|ps| - 1]);
      HandleCounts(cfg, HandleAll(cfg, w, id, ps[..|ps| - 1]), id, ps[|ps| - 1]);
    }
  }

  /** A receive counts one bad frame exactly when it ends in a length no frame may carry, and closes the
      connection then. */
  lemma BadIsCountedOnce(cfg: Config, h: Hub, id: Id, data: seq<byte>)
    requires id in h.room.clients && id in h.rx
    ensures var p, r := Parse(h.rx[id] + data), Receive(cfg, h, id, data);
            && r.room.stats.badFrames == h.room.stats.badFrames + (if p.bad then 1 else 0)
            && (p.bad ==> !Live(r.room, id)) && r.rx == h.rx[id := p.rest]
  {
    hide HandleAll, Parse, Drop;
    var p := Parse(h.rx[id] + data);
    ParseFrames(h.rx[id] + data);
    AllCount(cfg, h.room, id, p.packets);
    PiecesCount(cfg, CountBad(HandleAll(cfg, h.room, id, p.packets)), id, [0, 0, 0, 0, 0, 0]);
  }
}
