/** From START to the handover: what the boot bank makes of the first bytes of its stream. */
module Session {
  import opened Bytes
  import C = Console
  import P = Pairing
  import R = Relay

  const START_LEN := 15

  /** Still waiting for the whole of START, handed over in a role, or gone back to playing alone. */
  datatype Boot = Waiting | Plays(guest: bool) | Alone

  /** STATUS until fifteen bytes are there, one READ of fifteen, then the type, the role and the delay:
      the delay is checked against the one the rings are built for, not obeyed. */
  function Started(stream: seq<byte>): Boot {
    if |stream| < START_LEN then Waiting
    else if stream[1] != R.T_START || stream[5] != C.D then Alone
    else Plays(stream[2] % 2 == 1)
  }

  /** What is left for the game bank. */
  function Rest(stream: seq<byte>): seq<byte>
    requires |stream| >= START_LEN
  {
    stream[START_LEN..]
  }

  lemma StartFirst(start: seq<byte>, play: seq<byte>)
    requires |start| == START_LEN
    ensures Started(start + play) == Started(start) && Rest(start + play) == play
    ensures start[1] == R.T_START ==> Started(start) == if start[5] == C.D then Plays(start[2] % 2 == 1) else Alone
  {
  }

  /** What a client has been sent on top of what waited. */
  function Since(c: R.Client, z: R.Client): seq<byte> {
    if |c.tx| <= |z.tx| then z.tx[|c.tx|..] else []
  }

  /** A match begins on both consoles or on neither: of the two STARTs a pairing sends, one hands over
      the host and the other the guest exactly when the relay's delay is the ROM's, and both send
      their console back to playing alone when it is not. */
  lemma BothStart(cfg: R.Config, w: R.Room, id: R.Id, o: R.Id, hostPlay: seq<byte>, guestPlay: seq<byte>)
    requires P.NamesOwned(w) && id in w.clients && R.Live(w, id) && w.clients[id].name != []
    requires R.Oldest(w, id, |w.order|) == R.Some(o)
    ensures var z := R.TryPair(cfg, w, id);
            var host, guest := Since(w.clients[o], z.clients[o]), Since(w.clients[id], z.clients[id]);
            && w.clients[o].tx <= z.clients[o].tx && w.clients[id].tx <= z.clients[id].tx
            && |host| == |guest| == START_LEN
            && Started(host + hostPlay) == (if cfg.delay == C.D then Plays(false) else Alone)
            && Started(guest + guestPlay) == (if cfg.delay == C.D then Plays(true) else Alone)
            && Rest(host + hostPlay) == hostPlay && Rest(guest + guestPlay) == guestPlay
  {
    hide P.NamesOwned, R.Oldest, R.TryPair, Started, Rest;
    var host, guest := P.BothStartsAgree(cfg, w, id, o);
    var z := R.TryPair(cfg, w, id);
    assert Since(w.clients[o], z.clients[o]) == host && Since(w.clients[id], z.clients[id]) == guest;
    assert guest[5] == guest[3..7][2] && host[5] == host[3..7][2];
    StartFirst(host, hostPlay);
    StartFirst(guest, guestPlay);
  }
}
