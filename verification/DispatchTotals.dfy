/** What one entry's invocation count and total latency are made of, in every
  * run of `DispatchThreads`. */
module DispatchTotals {
  import opened FixedWidth
  import opened HandlerTable
  import opened MgmtProtocol
  import opened Registry
  import opened DispatchThreads

  // ------------------------------------------------------------ on the table

  /** An entry hidden behind an earlier one of the same key has no counts. */
  ghost predicate Hidden(es: seq<Entry>) {
    forall i :: 0 <= i < |es| && Find(es, KeyOf(es[i])) != i ==> es[i].invocations == es[i].latency == 0
  }

  /** An entry shows these totals in its widths. */
  predicate Shown(e: Entry, calls: nat, latency: nat) {
    e.invocations == calls % 0x1_0000_0000 && e.latency == latency % 0x1_0000_0000_0000_0000
  }

  /** The entry a search for `x` finds shows these totals; where there is none
    * they are zero. */
  ghost predicate Shows(es: seq<Entry>, x: Key, calls: nat, latency: nat) {
    var p := Find(es, x);
    if p < |es| then Shown(es[p], calls, latency) else calls == latency == 0
  }

  lemma ZeroShown(e: Entry)
    requires e.invocations == e.latency == 0
    ensures Shown(e, 0, 0)
  {
  }

  lemma OneMore(e: Entry, term: nat, calls: nat, latency: nat)
    requires Shown(e, calls, latency)
    ensures Shown(e.(invocations := Inc32(e.invocations), latency := Add64(e.latency, term)), calls + 1, latency + term)
  {
  }

  lemma SameKeysHidden(es: seq<Entry>, es': seq<Entry>)
    requires |es| == |es'| && (forall i :: 0 <= i < |es| ==> KeyOf(es'[i]) == KeyOf(es[i]))
    requires forall i :: 0 <= i < |es| && Find(es, KeyOf(es[i])) != i ==> es'[i].invocations == es'[i].latency == 0
    ensures Hidden(es') && forall x :: Find(es', x) == Find(es, x)
  {
    forall x ensures Find(es', x) == Find(es, x) { FindInLonger(es, es', x); }
  }

  lemma CreditedShows(es: seq<Entry>, i: nat, latency: nat, x: Key, calls: nat, total: nat)
    requires i < |es| && Find(es, KeyOf(es[i])) == i && Hidden(es) && Shows(es, x, calls, total)
    ensures Hidden(Credited(es, i, latency))
    ensures KeyOf(es[i]) == x ==> Shows(Credited(es, i, latency), x, calls + 1, total + latency)
    ensures KeyOf(es[i]) != x ==> Shows(Credited(es, i, latency), x, calls, total)
  {
    var es', p := Credited(es, i, latency), Find(es, x);
    SameKeysHidden(es, es');
    assert Find(es', x) == p;
    if KeyOf(es[i]) == x {
      OneMore(es[i], latency, calls, total);
    } else if p < |es| {
      assert es'[p] == es[p];
    }
  }

  lemma ClearedShows(es: seq<Entry>, x: Key)
    ensures Hidden(Cleared(es)) && Shows(Cleared(es), x, 0, 0)
  {
  }

  lemma AppendedShows(es: seq<Entry>, e: Entry, x: Key, calls: nat, total: nat)
    requires Hidden(es) && e.invocations == e.latency == 0 && Shows(es, x, calls, total)
    ensures Hidden(es + [e]) && Shows(es + [e], x, calls, total)
  {
    var es' := es + [e];
    forall i | 0 <= i < |es'| && Find(es', KeyOf(es'[i])) != i ensures es'[i].invocations == es'[i].latency == 0 {
      if i < |es| { FindInLonger(es, es', KeyOf(es[i])); }
    }
    if Find(es, x) < |es| { FindInLonger(es, es', x); }
  }

  lemma RegisteredShows(es: seq<Entry>, k: Key, h: int, c: int, x: Key, calls: nat, total: nat)
    requires |es| <= MAX_EVENT_HANDLERS && Hidden(es) && Shows(es, x, calls, total)
    ensures var es' := Registered(es, k, h, c).0;
            Hidden(es') && (if k == x then Shows(es', x, 0, 0) else Shows(es', x, calls, total))
  {
    var p := Find(es, k);
    var es' := Registered(es, k, h, c).0;
    if p < |es| {
      SameKeysHidden(es, es');
    } else if |es| < MAX_EVENT_HANDLERS {
      AppendedShows(es, NewEntry(k, h, c), x, calls, total);
    }
  }

  /** Where a search for `x` ends after the first `k` was removed. */
  lemma FindRemoved(es: seq<Entry>, k: Key, x: Key)
    requires Find(es, k) < |es| && x != k
    ensures var p, i := Find(es, k), Find(es, x);
            Find(RemoveAt(es, p), x) == if i < p then i else i - 1
  {
    var p, i := Find(es, k), Find(es, x);
    FirstMatch(RemoveAt(es, p), x, if i < p then i else i - 1);
  }

  lemma RemovedHidden(es: seq<Entry>, p: nat)
    requires p < |es| && Hidden(es)
    ensures Hidden(RemoveAt(es, p))
  {
    var es' := RemoveAt(es, p);
    forall i | 0 <= i < |es'| && Find(es', KeyOf(es'[i])) != i ensures es'[i].invocations == es'[i].latency == 0 {
      var j := Find(es', KeyOf(es'[i]));
      assert j < i && KeyOf(es'[j]) == KeyOf(es'[i]);
      var a, b := if j < p then j else j + 1, if i < p then i else i + 1;
      assert a < b && es[a] == es'[j] && es[b] == es'[i];
    }
  }

  lemma UnregisteredShows(es: seq<Entry>, k: Key, x: Key, calls: nat, total: nat)
    requires Hidden(es) && Shows(es, x, calls, total)
    ensures var es' := Unregistered(es, k).0;
            Hidden(es') && (if k == x then Shows(es', x, 0, 0) else Shows(es', x, calls, total))
  {
    var p := Find(es, k);
    if p < |es| {
      RemovedHidden(es, p);
      if x != k { FindRemoved(es, k, x); } else { NextShows(es, k); }
    }
  }

  /** Once the first `k` is gone, a search ends at one that was hidden. */
  lemma NextShows(es: seq<Entry>, k: Key)
    requires Hidden(es) && Find(es, k) < |es|
    ensures Shows(RemoveAt(es, Find(es, k)), k, 0, 0)
  {
    var p := Find(es, k);
    var es' := RemoveAt(es, p);
    var i := Find(es', k);
    if i < |es'| {
      var j := if i < p then i else i + 1;
      assert es[j] == es'[i] && KeyOf(es[j]) == k && j != p;
      ZeroShown(es'[i]);
    }
  }

  // -------------------------------------------------------------- over a run

  /** What the finished dispatches of a key add up to: their number, the
    * latencies credited, the exact differences in nanoseconds, never negative,
    * between response and request, and the response times. */
  datatype Total = Total(calls: nat, latency: nat, exact: nat, clock: nat)

  const NOTHING: Total := Total(0, 0, 0, 0)

  function Exact(pc: Pc, resp: Response): nat
    requires pc.Called?
  {
    var d := Nanos(resp.responseTime) - Nanos(pc.req.timestamp);
    if d > 0 then d else 0
  }

  function Plus(was: Total, pc: Pc, resp: Response): Total
    requires pc.Called?
  {
    Total(was.calls + 1, was.latency + LatencyUs(resp), was.exact + Exact(pc, resp),
          was.clock + Micros(resp.responseTime))
  }

  /** The response the handler left when this event was its return. */
  function Answer(s: State, e: Event): Response
    requires e.Credit? && At(s, e.t).Called?
  {
    Outcome(At(s, e.t), e.resp, e.run).1
  }

  predicate CreditsKey(s: State, e: Event, k: Key) {
    e.Credit? && At(s, e.t).Called? && Asked(At(s, e.t).req) == k
  }

  predicate Restarts(e: Event, k: Key) { e.Reset? || ((e.Register? || e.Unregister?) && e.key == k) }

  /** A registration, removal or reset starts the totals of its keys afresh. */
  function Tally(s: State, e: Event, k: Key, was: Total): Total {
    if Restarts(e, k) then NOTHING
    else if CreditsKey(s, e, k) then Plus(was, At(s, e.t), Answer(s, e))
    else was
  }

  ghost function Tallied(ss: seq<State>, es: seq<Event>, k: Key, i: nat): Total
    requires i <= |es| && i < |ss|
  {
    if i == 0 then NOTHING else Tally(ss[i - 1], es[i - 1], k, Tallied(ss, es, k, i - 1))
  }

  lemma TallyCredit(s: State, e: Event, k: Key, was: Total)
    requires e.Credit? && At(s, e.t).Called?
    ensures var now, hit := Tally(s, e, k, was), Asked(At(s, e.t).req) == k;
            && now.calls == was.calls + (if hit then 1 else 0)
            && now.latency == was.latency + if hit then LatencyUs(Answer(s, e)) else 0
  {
  }

  lemma CreditShows(s: State, e: Event, k: Key, was: Total)
    requires Inv(s) && Enabled(s, e) && e.Credit?
    requires Hidden(Live(s)) && Shows(Live(s), k, was.calls, was.latency)
    ensures Shape(Apply(s, e)) && Hidden(Live(Apply(s, e)))
    ensures var now := Tally(s, e, k, was); Shows(Live(Apply(s, e)), k, now.calls, now.latency)
  {
    var pc := At(s, e.t);
    assert Points(s, pc);
    CreditLive(s, e);
    TallyCredit(s, e, k, was);
    CreditedShows(Live(s), pc.slot, LatencyUs(Answer(s, e)), k, was.calls, was.latency);
  }

  lemma TableShows(s: State, e: Event, k: Key, was: Total)
    requires Shape(s) && (e.Register? || e.Unregister? || e.Reset?)
    requires Hidden(Live(s)) && Shows(Live(s), k, was.calls, was.latency)
    ensures Shape(Apply(s, e)) && Hidden(Live(Apply(s, e)))
    ensures var now := Tally(s, e, k, was); Shows(Live(Apply(s, e)), k, now.calls, now.latency)
  {
    if e.Register? { RegisteredShows(Live(s), e.key, e.handler, e.context, k, was.calls, was.latency); }
    if e.Unregister? { UnregisteredShows(Live(s), e.key, k, was.calls, was.latency); }
    if e.Reset? { ClearedShows(Live(s), k); }
  }

  lemma StepShows(s: State, e: Event, s': State, k: Key, was: Total)
    requires Inv(s) && Enabled(s, e) && s' == Apply(s, e)
    requires Hidden(Live(s)) && Shows(Live(s), k, was.calls, was.latency)
    ensures Shape(s') && Hidden(Live(s'))
    ensures var now := Tally(s, e, k, was); Shows(Live(s'), k, now.calls, now.latency)
  {
    if e.Credit? {
      CreditShows(s, e, k, was);
    } else if e.Register? || e.Unregister? || e.Reset? {
      TableShows(s, e, k, was);
    } else {
      assert Live(s') == Live(s);
    }
  }

  /** However the threads interleave, the entry a search for `k` finds shows the
    * number and the latencies of exactly the dispatches that looked `k` up and
    * finished since it was registered, removed or reset. */
  lemma {:induction false} TotalsAreItsOwn(ss: seq<State>, es: seq<Event>, k: Key, i: nat)
    requires IsRun(ss, es) && i < |ss|
    requires forall j :: 0 <= j < i ==> Shape(ss[j]) && Harmless(ss[j], es[j])
    ensures Shape(ss[i]) && Hidden(Live(ss[i]))
    ensures var total := Tallied(ss, es, k, i); Shows(Live(ss[i]), k, total.calls, total.latency)
  {
    if i > 0 {
      TotalsAreItsOwn(ss, es, k, i - 1);
      RunInv(ss, es, i - 1);
      StepShows(ss[i - 1], es[i - 1], ss[i], k, Tallied(ss, es, k, i - 1));
    }
  }

  // ---------------------------------------------------- how exact the total is

  /** The j-th event credited `k`, whose totals have not restarted since. */
  ghost predicate Counted(ss: seq<State>, es: seq<Event>, k: Key, j: nat, i: nat) {
    && j < i <= |es| && j < |ss| && CreditsKey(ss[j], es[j], k)
    && forall m :: j < m < i ==> !Restarts(es[m], k)
  }

  lemma CountedStays(ss: seq<State>, es: seq<Event>, k: Key, n: nat)
    requires n < |es| && !Restarts(es[n], k)
    ensures forall j: nat :: Counted(ss, es, k, j, n) ==> Counted(ss, es, k, j, n + 1)
  {
  }

  /** The handler that answered left the request time where dispatch had stored
    * it, and both clocks were sane. */
  ghost predicate Timed(s: State, e: Event)
    requires e.Credit? && At(s, e.t).Called?
  {
    && Answer(s, e).requestTime == At(s, e.t).req.timestamp
    && Sane(At(s, e.t).req.timestamp) && Sane(Answer(s, e).responseTime)
  }

  lemma TermIsAccurate(s: State, e: Event)
    requires e.Credit? && At(s, e.t).Called? && Timed(s, e)
    ensures -999 <= 1000 * LatencyUs(Answer(s, e)) - Exact(At(s, e.t), Answer(s, e)) <= 999
  {
    LatencyIsAccurate(Answer(s, e));
  }

  lemma {:induction false} SumIsAccurate(ss: seq<State>, es: seq<Event>, k: Key, i: nat)
    requires i <= |es| && i < |ss| && forall j: nat :: Counted(ss, es, k, j, i) ==> Timed(ss[j], es[j])
    ensures var total := Tallied(ss, es, k, i);
            -999 * total.calls <= 1000 * total.latency - total.exact <= 999 * total.calls
  {
    if i > 0 && !Restarts(es[i - 1], k) {
      var n := i - 1;
      CountedStays(ss, es, k, n);
      SumIsAccurate(ss, es, k, n);
      if CreditsKey(ss[n], es[n], k) {
        assert Counted(ss, es, k, n, i);
        TermIsAccurate(ss[n], es[n]);
      }
    }
  }

  lemma Unwrapped(n: nat)
    ensures n < 0x1_0000_0000_0000_0000 ==> n % 0x1_0000_0000_0000_0000 == n
  {
  }

  /** Where the handlers that answered left the request time alone, an entry's
    * total latency is, until it wraps, the sum over its dispatches of response
    * minus request time, less than one microsecond off for each of them. */
  lemma TotalLatencyIsAccurate(ss: seq<State>, es: seq<Event>, k: Key, i: nat)
    requires IsRun(ss, es) && i < |ss|
    requires forall j :: 0 <= j < i ==> Shape(ss[j]) && Harmless(ss[j], es[j])
    requires forall j: nat :: Counted(ss, es, k, j, i) ==> Timed(ss[j], es[j])
    ensures Shape(ss[i])
    ensures var total, p := Tallied(ss, es, k, i), Find(Live(ss[i]), k);
            p < ss[i].count && total.latency < 0x1_0000_0000_0000_0000 ==>
            var n := 1000 * Live(ss[i])[p].latency; -999 * total.calls <= n - total.exact <= 999 * total.calls
  {
    TotalsAreItsOwn(ss, es, k, i);
    SumIsAccurate(ss, es, k, i);
    Unwrapped(Tallied(ss, es, k, i).latency);
  }

  lemma {:induction false} SumIsClock(ss: seq<State>, es: seq<Event>, k: Key, i: nat)
    requires i <= |es| && i < |ss|
    requires forall j: nat :: Counted(ss, es, k, j, i) ==> Answer(ss[j], es[j]).requestTime == ZERO_TIME
    ensures Tallied(ss, es, k, i).latency == Tallied(ss, es, k, i).clock
  {
    if i > 0 && !Restarts(es[i - 1], k) {
      var n := i - 1;
      CountedStays(ss, es, k, n);
      SumIsClock(ss, es, k, n);
      if CreditsKey(ss[n], es[n], k) {
        assert Counted(ss, es, k, n, i);
        LatencyFromZero(Answer(ss[n], es[n]));
      }
    }
  }

  /** Where they erased it, as `mgmt_response_init` in every shipped handler does,
    * it is instead the sum of the response times themselves. */
  lemma ShippedTotalIsTheClock(ss: seq<State>, es: seq<Event>, k: Key, i: nat)
    requires IsRun(ss, es) && i < |ss|
    requires forall j :: 0 <= j < i ==> Shape(ss[j]) && Harmless(ss[j], es[j])
    requires forall j: nat :: Counted(ss, es, k, j, i) ==> Answer(ss[j], es[j]).requestTime == ZERO_TIME
    ensures Shape(ss[i])
    ensures var p := Find(Live(ss[i]), k);
            p < ss[i].count ==>
            Live(ss[i])[p].latency == Tallied(ss, es, k, i).clock % 0x1_0000_0000_0000_0000
  {
    TotalsAreItsOwn(ss, es, k, i);
    SumIsClock(ss, es, k, i);
  }
}
