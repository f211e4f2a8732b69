/** The management socket: one request answered per call, a drain loop, and the
  * three counters other threads may read and reset between the steps. */
module MgmtSocket {
  import opened FixedWidth
  import opened HandlerTable
  import opened MgmtProtocol
  import opened Registry

  /** What the system calls of one `mgmt_socket_process_one` come back with: the
    * receive timeout, the request (or an error or timeout), the reply. */
  datatype Turn = Turn(timeoutSet: bool, request: Ptr<Request>, sent: bool)

  predicate Received(t: Turn) { t.timeoutSet && t.request.To? }

  predicate Replied(t: Turn) { Received(t) && t.sent }

  const NO_RESPONSE: Response := Response(0, 0, ZERO_TIME, ZERO_TIME, [])

  datatype Counters = Counters(requests: nat, responses: nat, failed: nat)

  const FRESH: Counters := Counters(0, 0, 0)

  /** The socket's counters beside the registry it dispatches to. */
  datatype Book = Book(counters: Counters, table: Table)

  function Counted(c: Counters, sent: bool, code: int): Counters {
    Counters(Inc64(c.requests),
             if sent then Inc64(c.responses) else c.responses,
             if code != 0 then Inc64(c.failed) else c.failed)
  }

  function Answer(b: Book, turn: Turn, run: Handlers): Dispatch
    requires Received(turn)
  {
    Dispatched(b.table, turn.request.value, NO_RESPONSE, run)
  }

  /** One call: a request received is counted and dispatched whether or not its
    * reply goes out. */
  function Step(b: Book, turn: Turn, run: Handlers): Book {
    if !Received(turn) then b
    else
      var d := Answer(b, turn, run);
      Book(Counted(b.counters, turn.sent, d.code), d.table)
  }

  /** After the first `n` turns. */
  function After(b: Book, turns: seq<Turn>, run: Handlers, n: nat): Book
    requires n <= |turns|
  {
    if n == 0 then b else Step(After(b, turns, run, n - 1), turns[n - 1], run)
  }

  /** The number of replies before the first turn without one. */
  function Drained(turns: seq<Turn>): (n: nat)
    ensures n <= |turns| && (forall i :: 0 <= i < n ==> Replied(turns[i]))
    ensures n < |turns| ==> !Replied(turns[n])
  {
    if turns == [] || !Replied(turns[0]) then 0 else 1 + Drained(turns[1..])
  }

  lemma {:induction false} DrainedIs(turns: seq<Turn>, n: nat)
    requires n <= |turns| && (forall i :: 0 <= i < n ==> Replied(turns[i]))
    requires n < |turns| ==> !Replied(turns[n])
    ensures Drained(turns) == n
  {
    if n > 0 { DrainedIs(turns[1..], n - 1); }
  }

  class Socket {
    const registry: HandlerRegistry
    var open: bool
    var requests: nat
    var responses: nat
    var failed: nat

    ghost function Contents(): Book
      reads this, registry, registry.entries
      requires registry.Valid()
    {
      Book(Counters(requests, responses, failed), registry.Contents())
    }

    constructor (registry: HandlerRegistry)
      requires registry.Valid()
      ensures open && this.registry == registry && Contents() == Book(FRESH, registry.Contents())
    {
      this.registry := registry;
      open, requests, responses, failed := true, 0, 0, 0;
    }

    method Process(turn: Turn, run: Handlers) returns (code: int, reply: Response)
      requires registry.Valid()
      modifies this`requests, this`responses, this`failed, registry, registry.entries
      ensures registry.Valid()
      ensures code == if open && Replied(turn) then 0 else -1
      ensures Contents() == if open then Step(old(Contents()), turn, run) else old(Contents())
      ensures open && Received(turn) ==> reply == Answer(old(Contents()), turn, run).resp
    {
      code, reply := -1, NO_RESPONSE;
      if !open || !turn.timeoutSet || turn.request.Null? {
        return;
      }
      requests := Inc64(requests);
      var result;
      result, reply := registry.HandleRequest(turn.request, NO_RESPONSE, run);
      if result != 0 {
        failed := Inc64(failed);
      }
      if !turn.sent {
        return;
      }
      responses := Inc64(responses);
      code := 0;
    }

    /** `mgmt_socket_process_one`: -1 unless a request came in and its reply
      * went out; what the reply means, and when the request counts as failed. */
    method ProcessOne(turn: Turn, run: Handlers) returns (code: int, reply: Response)
      requires registry.Valid()
      modifies this`requests, this`responses, this`failed, registry, registry.entries
      ensures registry.Valid()
      ensures code == if open && Replied(turn) then 0 else -1
      ensures Contents() == if open then Step(old(Contents()), turn, run) else old(Contents())
      ensures open && Received(turn) ==>
        exists result ::
          && Answers(AsMap(old(Contents()).table.live), turn.request.value, NO_RESPONSE, run, result, reply)
          && (result != 0 <==> failed != old(failed))
      ensures open && Received(turn) && AnswerOk(run) ==>
        && (reply.code == MGMT_RESULT_OK <==> failed == old(failed))
        && (reply.code == MGMT_RESULT_OK ==> reply.id == turn.request.value.id)
    {
      ghost var before := Contents();
      code, reply := Process(turn, run);
      if open && Received(turn) {
        ghost var m, d := AsMap(before.table.live), Answer(before, turn, run);
        DispatchAnswers(before.table, turn.request.value, NO_RESPONSE, run);
        assert Answers(m, turn.request.value, NO_RESPONSE, run, d.code, reply);
        if AnswerOk(run) { OkMeansZero(m, turn.request.value, NO_RESPONSE, run, d.code, reply); }
      }
    }

    /** `mgmt_socket_process_all`: answers requests until one cannot be had or
      * cannot be answered, and returns how many it answered. */
    method ProcessAll(turns: seq<Turn>, run: Handlers) returns (processed: int)
      requires registry.Valid()
      modifies this`requests, this`responses, this`failed, registry, registry.entries
      ensures registry.Valid()
      ensures processed == if open then Drained(turns) else -1
      ensures Contents() ==
        if !open then old(Contents())
        else After(old(Contents()), turns, run, if processed < |turns| then processed + 1 else processed)
    {
      if !open {
        return -1;
      }
      processed := 0;
      ghost var was := Contents();
      while processed < |turns|           // afterwards the receive times out
        invariant 0 <= processed <= |turns| && registry.Valid()
        invariant forall i :: 0 <= i < processed ==> Replied(turns[i])
        invariant Contents() == After(was, turns, run, processed)
      {
        var code, _ := Process(turns[processed], run);
        if code < 0 {
          break;
        }
        processed := processed + 1;
      }
      DrainedIs(turns, processed);
    }

    /** `mgmt_socket_stats_reset`. */
    method ResetStats()
      requires registry.Valid()
      modifies this`requests, this`responses, this`failed
      ensures Contents() == Book(FRESH, old(Contents()).table)
    {
      requests, responses, failed := 0, 0, 0;
    }
  }

  // --------------------------------------------------- what the counters count

  ghost function ReceivedIn(turns: seq<Turn>, n: nat): set<nat>
    requires n <= |turns|
  {
    set i | 0 <= i < n && Received(turns[i])
  }

  ghost function RepliedIn(turns: seq<Turn>, n: nat): set<nat>
    requires n <= |turns|
  {
    set i | 0 <= i < n && Replied(turns[i])
  }

  /** Return code of each turn's dispatch, 0 where there was none. */
  ghost function Codes(b: Book, turns: seq<Turn>, run: Handlers, n: nat): (codes: seq<int>)
    requires n <= |turns|
    ensures |codes| == n
  {
    if n == 0 then []
    else
      var before, turn := After(b, turns, run, n - 1), turns[n - 1];
      Codes(b, turns, run, n - 1) + [if Received(turn) then Answer(before, turn, run).code else 0]
  }

  ghost function NonZero(codes: seq<int>): set<nat> {
    set i | 0 <= i < |codes| && codes[i] != 0
  }

  lemma Bounded(s: set<nat>, n: nat)
    requires forall i :: i in s ==> i < n
    ensures |s| <= n
  {
    if n > 0 {
      Bounded(s - {n - 1}, n - 1);
    } else {
      assert s == {};
    }
  }

  /** Turn `n` joins those counted before it, or does not. */
  lemma Grows(s: set<nat>, s': set<nat>, n: nat, hit: bool)
    requires (forall i :: i in s ==> i < n) && s' == if hit then s + {n} else s
    ensures |s'| == |s| + (if hit then 1 else 0) && |s| <= n
  {
    Bounded(s, n);
  }

  lemma ReceivedGrows(turns: seq<Turn>, n: nat)
    requires n < |turns|
    ensures |ReceivedIn(turns, n + 1)| == |ReceivedIn(turns, n)| + if Received(turns[n]) then 1 else 0
    ensures |ReceivedIn(turns, n)| <= n
  {
    Grows(ReceivedIn(turns, n), ReceivedIn(turns, n + 1), n, Received(turns[n]));
  }

  lemma RepliedGrows(turns: seq<Turn>, n: nat)
    requires n < |turns|
    ensures |RepliedIn(turns, n + 1)| == |RepliedIn(turns, n)| + if Replied(turns[n]) then 1 else 0
    ensures |RepliedIn(turns, n)| <= n
  {
    Grows(RepliedIn(turns, n), RepliedIn(turns, n + 1), n, Replied(turns[n]));
  }

  lemma NonZeroGrows(codes: seq<int>, code: int)
    ensures |NonZero(codes + [code])| == |NonZero(codes)| + if code != 0 then 1 else 0
    ensures |NonZero(codes)| <= |codes|
  {
    Grows(NonZero(codes), NonZero(codes + [code]), |codes|, code != 0);
  }

  lemma CountsGrow(c: Counters, turns: seq<Turn>, codes: seq<int>, code: int)
    requires |codes| < |turns| && |codes| + 1 < 0x1_0000_0000_0000_0000
    requires Received(turns[|codes|]) || code == 0
    requires c == Counters(|ReceivedIn(turns, |codes|)|, |RepliedIn(turns, |codes|)|, |NonZero(codes)|)
    ensures var n, turn := |codes| + 1, turns[|codes|];
            (if Received(turn) then Counted(c, turn.sent, code) else c) ==
            Counters(|ReceivedIn(turns, n)|, |RepliedIn(turns, n)|, |NonZero(codes + [code])|)
  {
    ReceivedGrows(turns, |codes|);
    RepliedGrows(turns, |codes|);
    NonZeroGrows(codes, code);
  }

  lemma StepCounters(b: Book, turn: Turn, run: Handlers)
    ensures Step(b, turn, run).counters ==
            if Received(turn) then Counted(b.counters, turn.sent, Answer(b, turn, run).code) else b.counters
  {
  }

  /** From a reset on, and until 2^64, the counters are the numbers of turns that
    * received a request, that had a reply sent, and whose dispatch failed. */
  lemma {:induction false} CountersAreExact(b: Book, turns: seq<Turn>, run: Handlers, n: nat)
    requires b.counters == FRESH && n <= |turns| && n < 0x1_0000_0000_0000_0000
    ensures After(b, turns, run, n).counters ==
      Counters(|ReceivedIn(turns, n)|, |RepliedIn(turns, n)|, |NonZero(Codes(b, turns, run, n))|)
  {
    if n == 0 {
      assert ReceivedIn(turns, 0) == RepliedIn(turns, 0) == NonZero([]) == {};
    } else {
      CountersAreExact(b, turns, run, n - 1);
      var before, turn := After(b, turns, run, n - 1), turns[n - 1];
      StepCounters(before, turn, run);
      CountsGrow(before.counters, turns, Codes(b, turns, run, n - 1),
                 if Received(turn) then Answer(before, turn, run).code else 0);
    }
  }

  /** The turns whose reply carried anything but OK. */
  ghost function BadReplies(b: Book, turns: seq<Turn>, run: Handlers, n: nat): (bad: set<nat>)
    requires n <= |turns|
    ensures forall i :: i in bad <==>
      0 <= i < n && Received(turns[i]) && Answer(After(b, turns, run, i), turns[i], run).resp.code != MGMT_RESULT_OK
    ensures forall i :: i in bad ==> i < n
  {
    if n == 0 then {}
    else
      var before, turn := After(b, turns, run, n - 1), turns[n - 1];
      BadReplies(b, turns, run, n - 1) +
      if Received(turn) && Answer(before, turn, run).resp.code != MGMT_RESULT_OK then {n - 1} else {}
  }

  lemma CodeMatchesReply(b: Book, turn: Turn, run: Handlers)
    requires Received(turn) && AnswerOk(run)
    ensures Answer(b, turn, run).resp.code != MGMT_RESULT_OK <==> Answer(b, turn, run).code != 0
  {
    var req, d := turn.request.value, Answer(b, turn, run);
    DispatchAnswers(b.table, req, NO_RESPONSE, run);
    OkMeansZero(AsMap(b.table.live), req, NO_RESPONSE, run, d.code, d.resp);
  }

  lemma {:induction false} BadIsNonZero(b: Book, turns: seq<Turn>, run: Handlers, n: nat)
    requires n <= |turns| && AnswerOk(run)
    ensures BadReplies(b, turns, run, n) == NonZero(Codes(b, turns, run, n))
  {
    if n > 0 {
      BadIsNonZero(b, turns, run, n - 1);
      var before, turn := After(b, turns, run, n - 1), turns[n - 1];
      if Received(turn) { CodeMatchesReply(before, turn, run); }
      NonZeroSnoc(Codes(b, turns, run, n - 1), if Received(turn) then Answer(before, turn, run).code else 0);
    }
  }

  lemma NonZeroSnoc(codes: seq<int>, code: int)
    ensures NonZero(codes + [code]) == NonZero(codes) + if code != 0 then {|codes|} else {}
  {
  }

  /** With the shipped handlers the failed requests are exactly those answered
    * with anything but OK. */
  lemma FailedAreBadReplies(b: Book, turns: seq<Turn>, run: Handlers, n: nat)
    requires b.counters == FRESH && n <= |turns| && n < 0x1_0000_0000_0000_0000 && AnswerOk(run)
    ensures After(b, turns, run, n).counters.failed == |BadReplies(b, turns, run, n)|
  {
    CountersAreExact(b, turns, run, n);
    BadIsNonZero(b, turns, run, n);
  }
}
