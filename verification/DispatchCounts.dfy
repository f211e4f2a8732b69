/** What the dispatch counters add up to in every run of `DispatchThreads`. */
module DispatchCounts {
  import opened FixedWidth
  import opened HandlerTable
  import opened MgmtProtocol
  import opened Registry
  import opened DispatchThreads

  function Sum(es: seq<Entry>): nat {
    if es == [] then 0 else es[0].invocations + Sum(es[1..])
  }

  lemma {:induction false} SumAppend(a: seq<Entry>, b: seq<Entry>)
    ensures Sum(a + b) == Sum(a) + Sum(b)
  {
    if a == [] {
      assert a + b == b;
    } else {
      SumAppend(a[1..], b);
      assert (a + b)[1..] == a[1..] + b;
    }
  }

  lemma SumSplit(es: seq<Entry>, i: nat)
    requires i < |es|
    ensures Sum(es) == Sum(es[..i]) + es[i].invocations + Sum(es[i + 1..])
  {
    assert es == es[..i] + ([es[i]] + es[i + 1..]);
    SumAppend(es[..i], [es[i]] + es[i + 1..]);
  }

  lemma SumUpdate(es: seq<Entry>, i: nat, e: Entry)
    requires i < |es|
    ensures Sum(es[i := e]) == Sum(es) - es[i].invocations + e.invocations
  {
    SumSplit(es, i);
    SumSplit(es[i := e], i);
    assert es[i := e][..i] == es[..i] && es[i := e][i + 1..] == es[i + 1..];
  }

  lemma {:induction false} SumCleared(es: seq<Entry>)
    requires forall i :: 0 <= i < |es| ==> es[i].invocations == 0
    ensures Sum(es) == 0
  {
    if es != [] { SumCleared(es[1..]); }
  }

  const TWO32: nat := 0x1_0000_0000

  /** Dispatches an event makes the live entries forget: those of an entry that
    * is overwritten or removed, and one whose pointer has gone stale. */
  function Forgets(s: State, e: Event): nat
    requires Shape(s) && Enabled(s, e)
  {
    match e
    case Register(k, _, _) => if Find(Live(s), k) < s.count then Live(s)[Find(Live(s), k)].invocations else 0
    case Unregister(k) => if Find(Live(s), k) < s.count then Live(s)[Find(Live(s), k)].invocations else 0
    case Credit(t, _, _) => if At(s, t).slot >= s.count then 1 else 0
    case _ => 0
  }

  /** Dispatches forgotten since the last reset. */
  ghost function Forgotten(ss: seq<State>, es: seq<Event>, i: nat): nat
    requires IsRun(ss, es) && i <= |es|
  {
    if i == 0 || es[i - 1].Reset? then 0 else Forgotten(ss, es, i - 1) + Forgets(ss[i - 1], es[i - 1])
  }

  /** Totals after `n` dispatches, none of which can have wrapped a counter. */
  ghost predicate Counts(s: State, forgotten: nat, n: nat) {
    && Shape(s)
    && s.failures <= s.dispatches == n
    && Sum(Live(s)) + forgotten == s.dispatches
    && forall i :: 0 <= i < s.count ==> s.slots[i].invocations <= n
  }

  lemma RegisterCounts(s: State, e: Event, f: nat, n: nat)
    requires Counts(s, f, n) && e.Register?
    ensures Counts(Apply(s, e), f + Forgets(s, e), n)
  {
    var live, s' := Live(s), Apply(s, e);
    var i := Find(live, e.key);
    var live' := Live(s');
    if i < |live| {
      assert live' == live[i := live'[i]];
      SumUpdate(live, i, live'[i]);
    } else if |live| < MAX_EVENT_HANDLERS {
      SumAppend(live, [NewEntry(e.key, e.handler, e.context)]);
    }
    forall j | 0 <= j < s'.count ensures s'.slots[j].invocations <= n {
      assert s'.slots[j] == live'[j];
      if j < s.count { assert live[j] == s.slots[j]; }
    }
  }

  lemma UnregisterCounts(s: State, e: Event, f: nat, n: nat)
    requires Counts(s, f, n) && e.Unregister?
    ensures Counts(Apply(s, e), f + Forgets(s, e), n)
  {
    var live, s' := Live(s), Apply(s, e);
    var i := Find(live, e.key);
    if i < |live| {
      SumSplit(live, i);
      SumAppend(live[..i], live[i + 1..]);
    }
    forall j | 0 <= j < s'.count ensures s'.slots[j].invocations <= n {
      assert s'.slots[j] == Live(s')[j];
      assert live[j] == s.slots[j];
      if j + 1 < s.count { assert live[j + 1] == s.slots[j + 1]; }
    }
  }

  lemma ConcludeCounts(s: State, t: Tid, failed: bool, latency: nat, f: nat, n: nat)
    requires Counts(s, f, n) && At(s, t).Called? && At(s, t).slot < |s.slots| && n + 1 < TWO32
    ensures Counts(Conclude(s, t, failed, latency), f + (if At(s, t).slot >= s.count then 1 else 0), n + 1)
  {
    var live, s' := Live(s), Conclude(s, t, failed, latency);
    var i := At(s, t).slot;
    if i < s.count {
      assert Live(s') == live[i := s'.slots[i]] && live[i] == s.slots[i];
      SumUpdate(live, i, s'.slots[i]);
    } else {
      assert Live(s') == live;
    }
  }

  lemma CreditCounts(s: State, e: Event, f: nat, n: nat)
    requires Counts(s, f, n) && e.Credit? && Enabled(s, e) && n + 1 < TWO32
    ensures Counts(Apply(s, e), f + Forgets(s, e), n + 1)
  {
    var answer := Outcome(At(s, e.t), e.resp, e.run);
    ConcludeCounts(s, e.t, answer.0 != 0, LatencyUs(answer.1), f, n);
  }

  lemma ResetCounts(s: State)
    requires Shape(s)
    ensures Counts(Apply(s, Reset), 0, 0)
  {
    var s' := Apply(s, Reset);
    assert forall i :: 0 <= i < s'.count ==> s'.slots[i] == Live(s')[i];
    SumCleared(Live(s'));
  }

  /** Dispatches finished since the last reset. */
  function Since(es: seq<Event>, i: nat): nat
    requires i <= |es|
  {
    if i == 0 || es[i - 1].Reset? then 0 else Since(es, i - 1) + if es[i - 1].Credit? then 1 else 0
  }

  lemma StepCounts(s: State, e: Event, f: nat, n: nat)
    requires Counts(s, f, n) && Enabled(s, e) && !e.Reset? && (e.Credit? ==> n + 1 < TWO32)
    ensures Counts(Apply(s, e), f + Forgets(s, e), if e.Credit? then n + 1 else n)
  {
    if e.Register? {
      RegisterCounts(s, e, f, n);
    } else if e.Unregister? {
      UnregisterCounts(s, e, f, n);
    } else if e.Credit? {
      CreditCounts(s, e, f, n);
    } else {
      assert Live(Apply(s, e)) == Live(s);
    }
  }

  /** In every run, as long as fewer than 2^32 dispatches finished since the last
    * reset, the failures are among the dispatches, and every one of those
    * dispatches is counted by a live entry or was forgotten by a named event. */
  lemma {:induction false} CountsHold(ss: seq<State>, es: seq<Event>, i: nat)
    requires IsRun(ss, es) && i < |ss| && Since(es, i) < TWO32
    ensures Counts(ss[i], Forgotten(ss, es, i), Since(es, i))
  {
    if i == 0 {
      assert Live(ss[0]) == [];
    } else if es[i - 1].Reset? {
      ResetCounts(ss[i - 1]);
    } else {
      CountsHold(ss, es, i - 1);
      StepCounts(ss[i - 1], es[i - 1], Forgotten(ss, es, i - 1), Since(es, i - 1));
    }
  }

  /** Dispatches since the last reset whose handler returned non-zero. */
  ghost function Failed(ss: seq<State>, es: seq<Event>, i: nat): nat
    requires IsRun(ss, es) && i <= |es|
  {
    if i == 0 || es[i - 1].Reset? then 0
    else Failed(ss, es, i - 1) + if Fails(ss[i - 1], es[i - 1]) then 1 else 0
  }

  predicate Fails(s: State, e: Event) {
    e.Credit? && At(s, e.t).Called? && Outcome(At(s, e.t), e.resp, e.run).0 != 0
  }

  lemma TotalsStep(s: State, e: Event)
    requires Shape(s) && Enabled(s, e) && !e.Reset?
    ensures Apply(s, e).dispatches == if e.Credit? then Inc32(s.dispatches) else s.dispatches
    ensures Apply(s, e).failures == if Fails(s, e) then Inc32(s.failures) else s.failures
  {
  }

  lemma Wraps(n: nat)
    ensures Inc32(n % 0x1_0000_0000) == (n + 1) % 0x1_0000_0000
  {
  }

  /** In every run, however long, the two totals are the numbers of dispatches and
    * of failed dispatches since the last reset, in 32 bits. */
  lemma {:induction false} TotalsAreCounts(ss: seq<State>, es: seq<Event>, i: nat)
    requires IsRun(ss, es) && i < |ss|
    ensures ss[i].dispatches == Since(es, i) % 0x1_0000_0000
    ensures ss[i].failures == Failed(ss, es, i) % 0x1_0000_0000
  {
    if i > 0 && !es[i - 1].Reset? {
      TotalsAreCounts(ss, es, i - 1);
      TotalsStep(ss[i - 1], es[i - 1]);
      Wraps(Since(es, i - 1));
      Wraps(Failed(ss, es, i - 1));
    } else if i > 0 {
      assert ss[i] == Apply(ss[i - 1], es[i - 1]);
    }
  }

  /** An index from which there was no reset up to `i`. */
  ghost predicate SinceReset(es: seq<Event>, j: nat, i: nat) {
    j < i <= |es| && forall m :: j <= m < i ==> !es[m].Reset?
  }

  /** The j-th event made the live entries forget nothing. */
  ghost predicate Keeps(ss: seq<State>, es: seq<Event>, j: nat) {
    j < |es| && j < |ss| && Shape(ss[j]) && Enabled(ss[j], es[j]) && Forgets(ss[j], es[j]) == 0
  }

  lemma {:induction false} ForgottenExactly(ss: seq<State>, es: seq<Event>, i: nat)
    requires IsRun(ss, es) && i <= |es|
    ensures Forgotten(ss, es, i) == 0 <==>
      forall j: nat :: SinceReset(es, j, i) ==> Keeps(ss, es, j)
  {
    if i > 0 {
      ForgottenExactly(ss, es, i - 1);
      if es[i - 1].Reset? {
        assert forall j: nat :: !SinceReset(es, j, i);
      } else {
        assert SinceReset(es, i - 1, i);
        assert Keeps(ss, es, i - 1) <==> Forgets(ss[i - 1], es[i - 1]) == 0;
        assert forall j: nat :: SinceReset(es, j, i) <==> j == i - 1 || SinceReset(es, j, i - 1);
      }
    }
  }

  /** The live entries account for all dispatches exactly when, since the last
    * reset, no entry with counts was overwritten or removed and no statistics
    * step came through a pointer to a dead slot. */
  lemma CountsAreExact(ss: seq<State>, es: seq<Event>, i: nat)
    requires IsRun(ss, es) && i < |ss| && Since(es, i) < TWO32
    ensures Shape(ss[i])
    ensures Sum(Live(ss[i])) == ss[i].dispatches <==>
      forall j: nat :: SinceReset(es, j, i) ==> Keeps(ss, es, j)
  {
    CountsHold(ss, es, i);
    ForgottenExactly(ss, es, i);
  }

  /** A removal before the reset is enough: its stale pointer is credited after
    * it, in a slot that is no longer live. */
  lemma StaleCreditAfterReset(s0: State, k: Key, t: Tid, run: Handlers)
    returns (ss: seq<State>, es: seq<Event>)
    requires Init(s0) && Askable(k)
    ensures IsRun(ss, es) && ss[0] == s0 && |es| == 7
    ensures es[4..6] == [Unregister(k), Reset] && es[6].Credit?
    ensures Shape(ss[7]) && ss[7].dispatches == 1 && Sum(Live(ss[7])) == 0
  {
    ss, es := CallsOnly(s0, k, t);
    ss, es := Extend(ss, es, Unregister(k));
    assert Live(ss[5]) == [];
    ss, es := Extend(ss, es, Reset);
    assert Live(ss[6]) == [];
    ss, es := Extend(ss, es, Credit(t, Response(0, 0, ZERO_TIME, ZERO_TIME, []), run));
    assert Live(ss[7]) == [];
  }
}
