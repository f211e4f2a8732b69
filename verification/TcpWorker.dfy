/** Viewer's TCP thread: one listening socket, at most one client at a time. */
module TcpWorker {

  datatype Setup = NoSocket | BindOrListenFailed | Listening

  /** What one `poll` brought: an error, or which descriptors are readable and
    * what the following `accept` or `recv` returns. */
  datatype Turn = Error | Interrupted | Ready(stop: bool, net: bool, result: int)

  datatype Action = Accept(fd: nat) | Receive(fd: nat, n: nat) | Close(fd: nat) | CloseServer

  /** The descriptors open while a trace is played, or its misuse of one. */
  datatype Sockets = Sockets(server: bool, client: int) | Misuse

  function Next(s: Sockets, a: Action): Sockets {
    match s
    case Misuse => Misuse
    case Sockets(server, client) =>
      match a
      case Accept(fd) => if server && client < 0 then Sockets(server, fd) else Misuse
      case Receive(fd, _) => if client == fd then s else Misuse
      case Close(fd) => if client == fd then Sockets(server, -1) else Misuse
      case CloseServer => if server && client < 0 then Sockets(false, -1) else Misuse
  }

  function Play(s: Sockets, trace: seq<Action>): Sockets
    decreases |trace|
  {
    if trace == [] then s else Play(Next(s, trace[0]), trace[1..])
  }

  function Accepts(trace: seq<Action>): nat {
    if trace == [] then 0 else (if trace[0].Accept? then 1 else 0) + Accepts(trace[1..])
  }

  function Closes(trace: seq<Action>): nat {
    if trace == [] then 0 else (if trace[0].Close? then 1 else 0) + Closes(trace[1..])
  }

  /** What the turns from the i-th on ask for, with `client` the connection held:
    * accept only when there is none, otherwise receive, closing when the peer
    * has gone. */
  function Served(client: int, turns: seq<Turn>, i: nat): seq<Action>
    requires client >= -1 && i <= |turns|
    decreases |turns| - i
  {
    if i == |turns| || turns[i].Error? || (turns[i].Ready? && turns[i].stop) then Ended(client)
    else if turns[i].Interrupted? || !turns[i].net then Served(client, turns, i + 1)
    else if client < 0 then
      if turns[i].result >= 0
      then [Accept(turns[i].result)] + Served(turns[i].result, turns, i + 1)
      else Served(-1, turns, i + 1)
    else if turns[i].result > 0
    then [Receive(client, turns[i].result)] + Served(client, turns, i + 1)
    else [Close(client)] + Served(-1, turns, i + 1)
  }

  function Ended(client: int): seq<Action> {
    if client >= 0 then [Close(client), CloseServer] else [CloseServer]
  }

  lemma First(s: Sockets, a: Action, rest: seq<Action>)
    ensures Play(s, [a] + rest) == Play(Next(s, a), rest)
    ensures Accepts([a] + rest) == Accepts(rest) + if a.Accept? then 1 else 0
    ensures Closes([a] + rest) == Closes(rest) + if a.Close? then 1 else 0
  {
    assert ([a] + rest)[1..] == rest;
  }

  /** A trace that leaves nothing open, uses nothing it has not open, and closes
    * whatever it accepts and the client it started with. */
  ghost predicate Clean(client: int, trace: seq<Action>) {
    && Play(Sockets(true, client), trace) == Sockets(false, -1)
    && Closes(trace) == Accepts(trace) + if client >= 0 then 1 else 0
  }

  lemma EndedIsClean(client: int)
    requires client >= -1
    ensures Clean(client, Ended(client))
  {
    First(Sockets(true, -1), CloseServer, []);
    assert [CloseServer] + [] == [CloseServer];
    if client >= 0 {
      First(Sockets(true, client), Close(client), [CloseServer]);
      assert [Close(client)] + [CloseServer] == Ended(client);
    }
  }

  /** Whatever the calls return, the thread has at most one client open, reads
    * only from it, and has closed every client it accepted exactly once, and
    * then the listening socket, when it returns. */
  lemma {:induction false} ServedIsClean(client: int, turns: seq<Turn>, i: nat)
    requires client >= -1 && i <= |turns|
    ensures Clean(client, Served(client, turns, i))
    decreases |turns| - i
  {
    var s := Sockets(true, client);
    if i == |turns| || turns[i].Error? || (turns[i].Ready? && turns[i].stop) {
      EndedIsClean(client);
    } else if turns[i].Interrupted? || !turns[i].net {
      ServedIsClean(client, turns, i + 1);
    } else {
      var result := turns[i].result;
      if client < 0 {
        var next := if result >= 0 then result else -1;
        ServedIsClean(next, turns, i + 1);
        if result >= 0 { First(s, Accept(result), Served(result, turns, i + 1)); }
      } else if result > 0 {
        ServedIsClean(client, turns, i + 1);
        First(s, Receive(client, result), Served(client, turns, i + 1));
      } else {
        ServedIsClean(-1, turns, i + 1);
        First(s, Close(client), Served(-1, turns, i + 1));
      }
    }
  }

  // ------------------------------------- what each turn calls for, by what is open

  /** The client a trace leaves open, -1 for none. */
  function Held(trace: seq<Action>): int {
    match Play(Sockets(true, -1), trace) case Sockets(_, client) => client case Misuse => -1
  }

  predicate Stops(t: Turn) { t.Error? || (t.Ready? && t.stop) }

  /** Turns before the first that ends the loop; an interruption does not. */
  function Loops(turns: seq<Turn>): (n: nat)
    ensures n <= |turns| && (forall i :: 0 <= i < n ==> !Stops(turns[i])) && (n < |turns| ==> Stops(turns[n]))
  {
    if turns == [] || Stops(turns[0]) then 0 else 1 + Loops(turns[1..])
  }

  /** What a turn calls for when `client` is open: everything that arrives from it
    * is received, and it is closed exactly when it has gone. */
  function Reaction(client: int, t: Turn): seq<Action> {
    if !t.Ready? || !t.net then []
    else if client < 0 then (if t.result >= 0 then [Accept(t.result)] else [])
    else if t.result > 0 then [Receive(client, t.result)] else [Close(client)]
  }

  /** The client open after it. */
  function Holding(client: int, t: Turn): (after: int)
    requires client >= -1
    ensures after >= -1
  {
    if !t.Ready? || !t.net then client
    else if client < 0 then (if t.result >= 0 then t.result else -1)
    else if t.result > 0 then client else -1
  }

  function Done(turns: seq<Turn>, i: nat): seq<Action>
    requires i <= |turns|
  {
    if i == 0 then [] else Done(turns, i - 1) + Reaction(Held(Done(turns, i - 1)), turns[i - 1])
  }

  lemma {:induction false} PlayConcat(s: Sockets, a: seq<Action>, b: seq<Action>)
    ensures Play(s, a + b) == Play(Play(s, a), b)
    decreases |a|
  {
    if a == [] {
      assert a + b == b;
    } else {
      PlayConcat(Next(s, a[0]), a[1..], b);
      assert (a + b)[1..] == a[1..] + b;
    }
  }

  lemma ReactionStep(trace: seq<Action>, client: int, t: Turn)
    requires client >= -1 && Play(Sockets(true, -1), trace) == Sockets(true, client) && !Stops(t)
    ensures Play(Sockets(true, -1), trace + Reaction(client, t)) == Sockets(true, Holding(client, t))
  {
    var r := Reaction(client, t);
    PlayConcat(Sockets(true, -1), trace, r);
    if r != [] { First(Sockets(true, client), r[0], []); assert [r[0]] + [] == r; }
  }

  /** The i-th turn of the loop meets what the turns before it left open, and the
    * loop answers it as that calls for. */
  lemma {:induction false} ServedAsCalledFor(turns: seq<Turn>, i: nat)
    requires i <= Loops(turns)
    ensures Play(Sockets(true, -1), Done(turns, i)) == Sockets(true, Held(Done(turns, i)))
    ensures Held(Done(turns, i)) >= -1
    ensures Served(-1, turns, 0) == Done(turns, i) + Served(Held(Done(turns, i)), turns, i)
  {
    if i == 0 {
      assert [] + Served(-1, turns, 0) == Served(-1, turns, 0);
    } else {
      ServedAsCalledFor(turns, i - 1);
      OneTurn(turns, i - 1, Done(turns, i - 1), Held(Done(turns, i - 1)), Served(-1, turns, 0));
    }
  }

  lemma OneTurn(turns: seq<Turn>, i: nat, done: seq<Action>, client: int, all: seq<Action>)
    requires i < |turns| && !Stops(turns[i]) && client >= -1
    requires Play(Sockets(true, -1), done) == Sockets(true, client) && all == done + Served(client, turns, i)
    ensures var now, after := done + Reaction(client, turns[i]), Holding(client, turns[i]);
            Play(Sockets(true, -1), now) == Sockets(true, after) && all == now + Served(after, turns, i + 1)
  {
    ReactionStep(done, client, turns[i]);
    ServedStep(client, turns, i);
    Assoc(done, Reaction(client, turns[i]), Served(Holding(client, turns[i]), turns, i + 1));
  }

  lemma Assoc(a: seq<Action>, b: seq<Action>, c: seq<Action>)
    ensures (a + b) + c == a + (b + c)
  {
  }

  lemma ServedStep(client: int, turns: seq<Turn>, i: nat)
    requires client >= -1 && i < |turns| && !Stops(turns[i])
    ensures Served(client, turns, i) ==
            Reaction(client, turns[i]) + Served(Holding(client, turns[i]), turns, i + 1)
  {
    assert [] + Served(client, turns, i + 1) == Served(client, turns, i + 1);
    assert [] + Served(-1, turns, i + 1) == Served(-1, turns, i + 1);
  }

  /** So the whole trace is the answers to all turns up to the one that ends the
    * loop, then the client still open, then the listening socket. */
  lemma ServesEveryTurn(turns: seq<Turn>)
    ensures Served(-1, turns, 0) ==
            Done(turns, Loops(turns)) +
            if Held(Done(turns, Loops(turns))) >= 0
            then [Close(Held(Done(turns, Loops(turns)))), CloseServer] else [CloseServer]
  {
    ServedAsCalledFor(turns, Loops(turns));
  }

  lemma Regroup(trace: seq<Action>, a: Action, rest: seq<Action>)
    ensures trace + ([a] + rest) == (trace + [a]) + rest
  {
  }

  /** One turn of the loop with something readable on the network side. */
  method ServeTurn(client: int, result: int, trace: seq<Action>, ghost turns: seq<Turn>, ghost i: nat)
    returns (client': int, trace': seq<Action>)
    requires client >= -1 && i < |turns| && turns[i] == Ready(false, true, result)
    ensures client' >= -1
    ensures trace' + Served(client', turns, i + 1) == trace + Served(client, turns, i)
  {
    client', trace' := client, trace;
    if client < 0 {
      if result >= 0 {
        Regroup(trace, Accept(result), Served(result, turns, i + 1));
        client', trace' := result, trace + [Accept(result)];
      }
    } else if result > 0 {
      Regroup(trace, Receive(client, result), Served(client, turns, i + 1));
      trace' := trace + [Receive(client, result)];
    } else {
      Regroup(trace, Close(client), Served(-1, turns, i + 1));
      client', trace' := -1, trace + [Close(client)];
    }
  }

  method CloseAll(client: int) returns (trace: seq<Action>)
    ensures trace == Ended(client)
  {
    trace := [];
    if client >= 0 {
      trace := [Close(client)];
    }
    trace := trace + [CloseServer];
  }

  method Run(setup: Setup, turns: seq<Turn>) returns (trace: seq<Action>)
    ensures trace == if setup.NoSocket? then [] else if setup.BindOrListenFailed? then [CloseServer]
                     else Served(-1, turns, 0)
    ensures !setup.NoSocket? ==> Clean(-1, trace)
  {
    trace := [];
    if setup.NoSocket? {
      return;
    }
    EndedIsClean(-1);
    if setup.BindOrListenFailed? {
      return [CloseServer];
    }
    var client, i := -1, 0;
    while i < |turns|            // one round per poll until shutdown is requested
      invariant i <= |turns| && client >= -1
      invariant trace + Served(client, turns, i) == Served(-1, turns, 0)
    {
      var t := turns[i];
      if t.Error? || (t.Ready? && t.stop) {
        break;
      }
      if t.Ready? && t.net {
        client, trace := ServeTurn(client, t.result, trace, turns, i);
      }
      i := i + 1;
    }
    var closing := CloseAll(client);
    trace := trace + closing;
    ServedIsClean(-1, turns, 0);
  }
}
