/** The management socket's counters when another thread resets them while a
  * call is under way: one event per locked section. */
module SocketStats {
  import opened FixedWidth
  import opened MgmtSocket

  datatype Phase = Idle | Dispatching | Sending

  /** One event per locked section of `mgmt_socket_process_one`, and the reset. */
  datatype Event = Receive | Dispatch(ok: bool) | Send(ok: bool) | Reset

  datatype Watch = Watch(c: Counters, phase: Phase)

  predicate Enabled(w: Watch, e: Event) {
    match e
    case Receive => w.phase.Idle?
    case Dispatch(_) => w.phase.Dispatching?
    case Send(_) => w.phase.Sending?
    case Reset => true
  }

  function Apply(w: Watch, e: Event): Watch {
    match e
    case Receive => Watch(w.c.(requests := Inc64(w.c.requests)), Dispatching)
    case Dispatch(ok) => Watch(if ok then w.c else w.c.(failed := Inc64(w.c.failed)), Sending)
    case Send(ok) => Watch(if ok then w.c.(responses := Inc64(w.c.responses)) else w.c, Idle)
    case Reset => w.(c := FRESH)
  }

  ghost predicate IsRun(ws: seq<Watch>, es: seq<Event>) {
    && |ws| == |es| + 1 && ws[0] == Watch(FRESH, Idle)
    && forall i {:trigger es[i]} :: 0 <= i < |es| ==> Enabled(ws[i], es[i]) && ws[i + 1] == Apply(ws[i], es[i])
  }

  /** The m-th event came after the last reset before `i`. */
  ghost predicate SinceReset(es: seq<Event>, m: nat, i: nat) {
    m < i <= |es| && forall n :: m <= n < i ==> !es[n].Reset?
  }

  /** The last reset before `i` is the j-th event, and fell into a call. */
  ghost predicate ResetInside(ws: seq<Watch>, es: seq<Event>, j: nat, i: nat) {
    && j < i <= |es| && j < |ws| && es[j].Reset? && !ws[j].phase.Idle?
    && forall n :: j < n < i ==> !es[n].Reset?
  }

  // ------------------------------------------------------------ the balance

  /** Replies that failed since the last reset. */
  ghost function Failed(es: seq<Event>, i: nat): nat
    requires i <= |es|
  {
    if i == 0 || es[i - 1].Reset? then 0 else Failed(es, i - 1) + if es[i - 1] == Send(false) then 1 else 0
  }

  /** The last reset, if any, fell into a call. */
  ghost predicate Straddled(ws: seq<Watch>, es: seq<Event>, i: nat)
    requires i <= |es| && i <= |ws|
  {
    i > 0 && if es[i - 1].Reset? then !ws[i - 1].phase.Idle? else Straddled(ws, es, i - 1)
  }

  /** Since the last reset, every call counted or under way at the reset was
    * answered, failed to be answered, or is still under way. */
  ghost predicate Balanced(w: Watch, straddled: bool, failed: nat) {
    w.c.requests + (if straddled then 1 else 0)
    == w.c.responses + failed + if w.phase.Idle? then 0 else 1
  }

  /** Requests received since the last reset. */
  function Receives(es: seq<Event>, i: nat): nat
    requires i <= |es|
  {
    if i == 0 || es[i - 1].Reset? then 0 else Receives(es, i - 1) + if es[i - 1].Receive? then 1 else 0
  }

  /** Events of one kind since the last reset. */
  function Times(es: seq<Event>, e: Event, i: nat): nat
    requires i <= |es|
  {
    if i == 0 || es[i - 1].Reset? then 0 else Times(es, e, i - 1) + if es[i - 1] == e then 1 else 0
  }

  lemma Wraps(n: nat)
    ensures Inc64(n % 0x1_0000_0000_0000_0000) == (n + 1) % 0x1_0000_0000_0000_0000
  {
  }

  /** However resets fall, each counter is the number of its events since the last
    * one, in 64 bits: requests received, replies sent, dispatches that failed. */
  lemma {:induction false} CountersAreEvents(ws: seq<Watch>, es: seq<Event>, i: nat)
    requires IsRun(ws, es) && i < |ws|
    ensures ws[i].c.requests == Times(es, Receive, i) % 0x1_0000_0000_0000_0000
    ensures ws[i].c.responses == Times(es, Send(true), i) % 0x1_0000_0000_0000_0000
    ensures ws[i].c.failed == Times(es, Dispatch(false), i) % 0x1_0000_0000_0000_0000
  {
    if i > 0 {
      assert ws[i] == Apply(ws[i - 1], es[i - 1]);
      if !es[i - 1].Reset? {
        CountersAreEvents(ws, es, i - 1);
        Wraps(Times(es, Receive, i - 1));
        Wraps(Times(es, Send(true), i - 1));
        Wraps(Times(es, Dispatch(false), i - 1));
      }
    }
  }

  lemma StepBalanced(w: Watch, e: Event, straddled: bool, failed: nat)
    requires Balanced(w, straddled, failed) && Enabled(w, e) && !e.Reset?
    requires w.c.requests + 1 < 0x1_0000_0000_0000_0000
    ensures Balanced(Apply(w, e), straddled, failed + if e == Send(false) then 1 else 0)
    ensures Apply(w, e).c.requests == w.c.requests + if e.Receive? then 1 else 0
  {
  }

  lemma {:induction false} RunBalanced(ws: seq<Watch>, es: seq<Event>, i: nat)
    requires IsRun(ws, es) && i < |ws| && Receives(es, i) + 1 < 0x1_0000_0000_0000_0000
    ensures Balanced(ws[i], Straddled(ws, es, i), Failed(es, i))
    ensures ws[i].c.requests == Receives(es, i)
  {
    if i > 0 && !es[i - 1].Reset? {
      RunBalanced(ws, es, i - 1);
      StepBalanced(ws[i - 1], es[i - 1], Straddled(ws, es, i - 1), Failed(es, i - 1));
    }
  }

  lemma {:induction false} FailedExactly(es: seq<Event>, i: nat)
    requires i <= |es|
    ensures Failed(es, i) == 0 <==> forall m: nat :: SinceReset(es, m, i) ==> es[m] != Send(false)
  {
    if i > 0 {
      var n := i - 1;
      FailedExactly(es, n);
      if es[n].Reset? {
        assert forall m: nat :: !SinceReset(es, m, i);
      } else {
        assert SinceReset(es, n, i);
        assert forall m: nat :: SinceReset(es, m, i) <==> m == n || SinceReset(es, m, n);
      }
    }
  }

  lemma {:induction false} StraddledExactly(ws: seq<Watch>, es: seq<Event>, i: nat)
    requires i <= |es| && i <= |ws|
    ensures Straddled(ws, es, i) <==> exists j: nat :: ResetInside(ws, es, j, i)
  {
    if i > 0 {
      var n := i - 1;
      StraddledExactly(ws, es, n);
      if es[n].Reset? {
        assert ResetInside(ws, es, n, i) <==> !ws[n].phase.Idle?;
        assert forall j: nat :: ResetInside(ws, es, j, i) ==> j == n;
      } else {
        assert forall j: nat :: ResetInside(ws, es, j, i) <==> ResetInside(ws, es, j, n);
      }
    }
  }

  /** In every run, as long as the counters cannot have wrapped since the last
    * reset, they show more responses than requests exactly when that reset fell
    * into a call, no reply since has failed, and no call is under way. */
  lemma ResponsesExceedExactly(ws: seq<Watch>, es: seq<Event>, i: nat)
    requires IsRun(ws, es) && i < |ws| && Receives(es, i) + 1 < 0x1_0000_0000_0000_0000
    ensures ws[i].c.responses > ws[i].c.requests <==>
      && (exists j: nat :: ResetInside(ws, es, j, i))
      && (forall m: nat :: SinceReset(es, m, i) ==> es[m] != Send(false))
      && ws[i].phase.Idle?
  {
    RunBalanced(ws, es, i);
    FailedExactly(es, i);
    StraddledExactly(ws, es, i);
  }

  /** So with resets only between calls the responses never exceed the requests. */
  lemma ResponsesWithinRequests(ws: seq<Watch>, es: seq<Event>, i: nat)
    requires IsRun(ws, es) && i < |ws| && Receives(es, i) + 1 < 0x1_0000_0000_0000_0000
    requires forall j :: 0 <= j < i && es[j].Reset? ==> ws[j].phase.Idle?
    ensures ws[i].c.responses <= ws[i].c.requests
  {
    ResponsesExceedExactly(ws, es, i);
  }

  /** The exception is reachable. */
  lemma ResetInsideACall()
    ensures exists ws: seq<Watch>, es: seq<Event> ::
      IsRun(ws, es) && |es| == 4 && ws[4].c.responses > ws[4].c.requests
  {
    var es := [Receive, Reset, Dispatch(true), Send(true)];
    var w0 := Watch(FRESH, Idle);
    var w1 := Apply(w0, es[0]);
    var w2 := Apply(w1, es[1]);
    var w3 := Apply(w2, es[2]);
    var ws := [w0, w1, w2, w3, Apply(w3, es[3])];
    assert IsRun(ws, es) && ws[4].c.responses > ws[4].c.requests;
  }
}
