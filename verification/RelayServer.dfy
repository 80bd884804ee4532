/** The Python server as it is: dictionaries and buffers changed in place, one method for each of its
    methods, proved to do what module `Relay` says. */
module RelayServer {
  import opened Bytes
  import opened Relay
  import R = Reassembly
  import W = Wire

  class Server {
    const cfg: Original
    var clients: map<Id, Client>   // every client object, dropped ones included
    var order: seq<Id>             // the `clients` dict: the live ones, in insertion order
    var names: map<Name, Id>
    var rx: map<Id, seq<byte>>
    var drawn: nat
    var matched: nat
    var stuck: bool
    var stats: Stats

    ghost function Inside(): Room
      reads this
    {
      Room(clients, order, names, drawn, matched, stuck, stats)
    }

    ghost function View(): Hub
      reads this
    {
      Hub(Inside(), rx)
    }

    constructor (cfg: Original)
      ensures this.cfg == cfg && View() == EMPTY
    {
      this.cfg := cfg;
      clients, order, names, rx := map[], [], map[], map[];
      drawn, matched, stuck, stats := 0, 0, false, Stats(0, 0, 0, 0, 0, 0);
    }

    /** `accept`: the connection cap, then the cap for one address. */
    method Accept(id: Id, ip: int, born: int)
      modifies this
      ensures View() == Hub(Relay.Accept(old(Inside()), id, ip, born), old(rx)[id := []])
    {
      rx := rx[id := []];
      if |order| >= MAX_CLIENTS {
        return;
      }
      var same, k := 0, 0;
      while k < |order|
        invariant k <= |order| && same == FromAddress(Inside(), ip, k)
      {
        if order[k] in clients && clients[order[k]].ip == ip {
          same := same + 1;
        }
        k := k + 1;
      }
      if same >= MAX_PER_IP {
        stats := stats.(ipRejects := stats.ipRejects + 1);
        return;
      }
      clients := clients[id := NEW.(ip := ip, born := born)];
      order := order + [id];
    }

    /** `Client.send`. */
    method Send(id: Id, data: seq<byte>)
      requires id in clients
      modifies this`clients
      ensures Inside() == Relay.Send(old(Inside()), id, data)
    {
      clients := clients[id := clients[id].(tx := clients[id].tx + data)];
    }

    /** `min(others, key=born)` over the idle clients that are not the caller. */
    method OldestWaiting(id: Id) returns (other: Option<Id>)
      ensures other == Oldest(Inside(), id, |order|)
    {
      other := None;
      var k := 0;
      while k < |order|
        invariant k <= |order| && other == Oldest(Inside(), id, k)
      {
        var o := order[k];
        if o != id && o in clients && clients[o].name != [] && clients[o].partner == None {
          if other == None || clients[o].born < clients[other.value].born {
            other := Some(o);
          }
        }
        k := k + 1;
      }
    }

    /** `try_pair`: link the two, then greet the host and the guest. A caller without a name is linked and
        then raises out of the server, before anything is queued: what is left of the room is marked. */
    method TryPair(id: Id)
      requires id in clients
      modifies this`clients, this`matched, this`stats, this`stuck
      ensures Inside() == Relay.TryPair(cfg, old(Inside()), id)
    {
      hide Oldest, StartFrame, Short;
      var other := OldestWaiting(id);
      if other == None {
        return;
      }
      if clients[id].name == [] {
        stuck := true;
        return;
      }
      var host, guest := other.value, id;
      var seed := cfg.seeds(matched);
      clients := clients[host := clients[host].(partner := Some(guest), role := 0)];
      clients := clients[guest := clients[guest].(partner := Some(host), role := 1)];
      matched := matched + 1;
      clients := clients[host := clients[host].(crc := [],
        tx := clients[host].tx + StartFrame(cfg, 0, seed, Short(clients[guest].name)))];
      clients := clients[guest := clients[guest].(crc := [],
        tx := clients[guest].tx + StartFrame(cfg, 1, seed, Short(clients[host].name)))];
      stats := stats.(matches := stats.matches + 1);
      assert clients == Relay.TryPair(cfg, old(Inside()), id).clients;
    }

    /** The duplicate-name loop, up to the C port's bound. */
    method FreeName(asked: Name) returns (free: Option<(Name, nat)>)
      ensures free == Resolve(cfg, names, asked, drawn, MAX_TRIES)
    {
      hide Resolve;
      var name: Name, at, tries := asked, drawn, MAX_TRIES;
      while name in names && tries > 0
        invariant 0 <= tries
        invariant Resolve(cfg, names, asked, drawn, MAX_TRIES) == Resolve(cfg, names, name, at, tries)
        decreases tries
      {
        ResolveStep(cfg, names, name, at, tries);
        name, at, tries := (if |name| > 7 then name[..7] else name) + [48 + cfg.digits(at)], at + 1, tries - 1;
      }
      ResolveStep(cfg, names, name, at, tries);
      free := if name in names then None else Some((name, at));
    }

    method OnHello(id: Id, payload: seq<byte>)
      requires id in clients
      modifies this
      ensures Inside() == Relay.OnHello(cfg, old(Inside()), id, payload) && rx == old(rx)
    {
      hide Relay.Drop, Relay.TryPair, Asked, Resolve;
      var asked := Asked(payload);
      if asked == None {
        Drop(id);
        return;
      }
      var free := FreeName(asked.value);
      if free == None {
        stuck := true;
        return;
      }
      clients := clients[id := clients[id].(name := free.value.0)];
      names := names[free.value.0 := id];
      drawn := free.value.1;
      TryPair(id);
    }

    /** `send_lobby`: the first eight named clients in connection order. */
    method SendLobby(id: Id)
      requires id in clients
      modifies this`clients
      ensures Inside() == Relay.SendLobby(old(Inside()), id)
    {
      var entries: seq<byte>, n, k := [], 0, 0;
      while k < |order|
        invariant k <= |order| && n == |Listed(Inside(), k)| && entries == LobbyRows(Inside(), Listed(Inside(), k))
      {
        var o := order[k];
        if o in clients && clients[o].name != [] && n < 8 {
          ghost var ids := Listed(Inside(), k);
          assert (ids + [o])[..|ids|] == ids;
          entries := entries + Pad(Short(clients[o].name), 8) + [if clients[o].partner.Some? then 1 else 0];
          n := n + 1;
        }
        k := k + 1;
      }
      Send(id, Frame(T_LOBBY, [n] + entries));
    }

    /** The oldest unpaired values go, one at a time, until eight are left. */
    method Trim(id: Id)
      requires id in clients
      modifies this`clients
      ensures Inside() == Relay.Trim(old(Inside()), id)
    {
      var kept := clients[id].crc;
      while |kept| > 8
        invariant Newest(kept, 8) == Newest(clients[id].crc, 8)
      {
        kept := kept[1..];
      }
      clients := clients[id := clients[id].(crc := kept)];
    }

    /** `log_crc`: pair by rebuilt tick, and evict by age when there is no pair. */
    method LogCrc(id: Id, payload: seq<byte>)
      requires id in clients && |payload| >= GAME_PAYLOAD
      modifies this`clients, this`stats
      ensures Inside() == Relay.LogCrc(old(Inside()), id, payload)
    {
      hide SetEntry, DropEntry, Find, Relay.Trim;
      var c, tick, crc := clients[id], payload[0], payload[4];
      var lap := c.lap;
      if c.last.Some? {
        var delta := (tick - c.last.value) % 256;
        if 0 < delta < 128 && tick < c.last.value {
          lap := lap + 1;
        }
      }
      var key := lap * 256 + tick;
      clients := clients[id := c.(lap := lap, last := Some(tick), crc := SetEntry(c.crc, key, crc))];
      var p := c.partner;
      assert lap == LapAfter(c.lap, c.last, tick);
      if p == None || p.value !in clients || Find(clients[p.value].crc, key) == |clients[p.value].crc| {
        Trim(id);
        return;
      }
      var i := Find(clients[p.value].crc, key);
      var other := clients[p.value].crc[i].crc;
      clients := clients[p.value := clients[p.value].(crc := DropEntry(clients[p.value].crc, i))];
      if other != crc {
        stats := stats.(bad := stats.bad + 1);
      } else {
        stats := stats.(ok := stats.ok + 1);
      }
    }

    method Handle(id: Id, kind: byte, payload: seq<byte>)
      requires id in clients && |payload| < 255
      modifies this
      ensures Inside() == Relay.Handle(cfg, old(Inside()), id, Packet(kind, payload)) && rx == old(rx)
    {
      if Relayed(kind) {
        if clients[id].partner.Some? && clients[id].partner.value in clients {
          Send(clients[id].partner.value, Frame(kind, Pad(payload, GAME_PAYLOAD)));
        }
        if kind == W.T_INPUT && |payload| >= 6 {
          LogCrc(id, payload);
        }
        return;
      }
      if kind == T_HELLO {
        OnHello(id, payload);
      } else if kind == T_LIST {
        SendLobby(id);
      } else if kind == T_JOIN {
        TryPair(id);
      } else if kind == T_PING {
        Send(id, Frame(T_PONG, []));
      } else if kind == T_BYE {
        Drop(id);
      }
    }

    /** `drop`: the name freed if it is still this client's, the survivor told, the connection gone. */
    method Drop(id: Id)
      requires id in clients
      modifies this`clients, this`order, this`names
      ensures Inside() == Relay.Drop(old(Inside()), id)
    {
      if id !in order {
        return;
      }
      var c := clients[id];
      if c.name != [] && c.name in names && names[c.name] == id {
        names := names - {c.name};
      }
      order := Without(order, id);
      if c.partner.Some? && c.partner.value in clients {
        var p := c.partner.value;
        clients := clients[p := clients[p].(partner := None)];
        Send(p, Frame(W.T_LEFT, seq(GAME_PAYLOAD, (_: nat) => 0 as byte)));
      }
    }

    /** `service`: the frame loop. It does not ask whether a frame ended the connection. */
    method Service(id: Id)
      requires id in clients && id in rx
      modifies this
      ensures rx == old(rx)[id := Parse(old(rx[id])).rest]
      ensures Framed(Parse(old(rx[id])).packets)
      ensures Inside() == Deliver(cfg, old(Inside()), id, Parse(old(rx[id])))
    {
      hide Parse, Relay.Handle, Relay.Drop, R.Head, R.Tail, HandleAll, R.ParsedTo;
      ghost var w, p := Inside(), Parse(rx[id]);
      ParseFrames(rx[id]);
      ghost var done: seq<Packet> := [];
      R.Begun(cfg, w, id, rx[id]);
      while true
        invariant id in clients && id in rx && rx == old(rx)[id := rx[id]]
        invariant Framed(done) && Inside() == HandleAll(cfg, w, id, done)
        invariant R.ParsedTo(p, done, rx[id])
        decreases |rx[id]|
      {
        var buffer := rx[id];
        if |buffer| < 1 {
          R.Stopped(p, done, buffer);
          return;
        }
        var n: int := buffer[0];
        if n < 1 || n > MAX_LEN {
          R.Stopped(p, done, buffer);
          stats := stats.(badFrames := stats.badFrames + 1);
          Drop(id);
          return;
        }
        if |buffer| < n + 1 {
          R.Stopped(p, done, buffer);
          return;
        }
        var body := buffer[1..n + 1];
        R.CutFrame(buffer);
        rx := rx[id := buffer[n + 1..]];
        R.Advanced(p, done, buffer);
        Handle(id, body[0], body[1..]);
        R.OneMore(cfg, w, id, done, R.Head(buffer));
        done := done + [R.Head(buffer)];
      }
    }

    /** What the loop does with one socket that is ready to read. */
    method ReceiveBytes(id: Id, data: seq<byte>)
      requires id in clients && id in rx
      modifies this
      ensures View() == Receive(cfg, old(View()), id, data)
    {
      hide Parse, Deliver, HandleAll;
      rx := rx[id := rx[id] + data];
      Service(id);
    }

    /** `flush`: one send, then the backlog check on what is left. */
    method Flush(id: Id, sent: Sent)
      requires id in clients && (sent.Took? ==> sent.n <= |clients[id].tx|)
      modifies this
      ensures Inside() == Relay.Flush(old(Inside()), id, sent) && rx == old(rx)
    {
      hide Relay.Drop;
      if clients[id].tx == [] {
        return;
      }
      match sent {
        case Took(n) => clients := clients[id := clients[id].(tx := clients[id].tx[n..])];
        case Blocked => clients := clients[id := clients[id]];
        case Broken =>
          Drop(id);
          return;
      }
      if |clients[id].tx| > MAX_BACKLOG {
        stats := stats.(txDrops := stats.txDrops + 1);
        Drop(id);
      }
    }
  }
}
