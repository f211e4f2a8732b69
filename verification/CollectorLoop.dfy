/** Collector's reactor: one thread that relays datagrams, answers management
  * requests and, when its flag is down, tears everything down in order. The
  * flag is lowered by the SHUTDOWN handler, inside the loop, and by signals,
  * which arrive between any two steps and interrupt only a `poll` in progress.
  */
module CollectorLoop {

  datatype Pc =
    | Testing                        // about to read g_keep_running
    | Entering                       // it was up; poll not entered yet
    | Polling
    | Reading(mgmt: bool)            // UDP readable; the management socket too
    | Receiving                      // in mgmt_socket_process_one
    | Dispatching(shutdown: bool)
    | Replying
    | CloseShm | CloseUdp | CloseSocket | DestroyRegistry
    | Done

  datatype State = State(
    flag: bool,
    interrupted: bool,               // a signal has arrived during this poll
    datagrams: nat,
    requests: seq<bool>,             // waiting requests; true for a SHUTDOWN
    socket: bool,
    registry: bool,
    pc: Pc)

  datatype Act =
    | Test | Enter
    | Ready | Interrupted | PollError
    | Read | Recv(ok: bool) | Dispatch | Reply(ok: bool)
    | Close

  datatype Event = T(a: Act) | Datagram | Request(shutdown: bool) | Signal

  const START: State := State(true, false, 0, [], true, true, Testing)

  predicate Closing(pc: Pc) { pc.CloseShm? || pc.CloseUdp? || pc.CloseSocket? || pc.DestroyRegistry? }

  predicate Waiting(s: State) { s.datagrams > 0 || s.requests != [] }

  predicate CanStep(s: State, a: Act) {
    match a
    case Test => s.pc.Testing?
    case Enter => s.pc.Entering?
    case Ready => s.pc.Polling? && Waiting(s)
    case Interrupted => s.pc.Polling? && s.interrupted
    case PollError => s.pc.Polling?
    case Read => s.pc.Reading? && s.datagrams > 0
    case Recv(ok) => s.pc.Receiving? && (ok ==> s.requests != [])
    case Dispatch => s.pc.Dispatching?
    case Reply(_) => s.pc.Replying?
    case Close => Closing(s.pc)
  }

  predicate Enabled(s: State, e: Event) { e.T? ==> CanStep(s, e.a) }

  function NextPc(s: State, a: Act): Pc
    requires CanStep(s, a)
  {
    match a
    case Test => if s.flag then Entering else CloseShm
    case Enter => Polling
    case Ready => if s.datagrams > 0 then Reading(s.requests != []) else Receiving
    case Interrupted => CloseShm
    case PollError => CloseShm
    case Read => if s.pc.mgmt then Receiving else Testing
    case Recv(ok) => if ok then Dispatching(s.requests[0]) else Testing
    case Dispatch => Replying
    case Reply(_) => Testing
    case Close =>
      match s.pc {
        case CloseShm => CloseUdp
        case CloseUdp => CloseSocket
        case CloseSocket => DestroyRegistry
        case _ => Done
      }
  }

  function Step(s: State, a: Act): State
    requires CanStep(s, a)
  {
    s.(flag := s.flag && !(a.Dispatch? && s.pc.shutdown),
       interrupted := false,
       datagrams := if a.Read? then s.datagrams - 1 else s.datagrams,
       requests := if a == Recv(true) then s.requests[1..] else s.requests,
       socket := s.socket && !(a.Close? && s.pc.CloseSocket?),
       registry := s.registry && !(a.Close? && s.pc.DestroyRegistry?),
       pc := NextPc(s, a))
  }

  function Apply(s: State, e: Event): State
    requires Enabled(s, e)
  {
    match e
    case T(a) => Step(s, a)
    case Datagram => s.(datagrams := s.datagrams + 1)
    case Request(shutdown) => s.(requests := s.requests + [shutdown])
    case Signal => s.(flag := false, interrupted := s.pc.Polling?)
  }

  ghost predicate IsRun(ss: seq<State>, es: seq<Event>) {
    && |ss| == |es| + 1 && ss[0] == START
    && forall i {:trigger es[i]} :: 0 <= i < |es| ==> Enabled(ss[i], es[i]) && ss[i + 1] == Apply(ss[i], es[i])
  }

  ghost predicate Inv(s: State) {
    && (s.socket <==> !s.pc.DestroyRegistry? && !s.pc.Done?)
    && (s.registry <==> !s.pc.Done?)
    && (s.interrupted ==> s.pc.Polling? && !s.flag)
    && (s.pc.Reading? ==> s.datagrams > 0)
  }

  lemma {:induction false} RunInv(ss: seq<State>, es: seq<Event>, i: nat)
    requires IsRun(ss, es) && i < |ss|
    ensures Inv(ss[i])
  {
    if i > 0 {
      RunInv(ss, es, i - 1);
      assert ss[i] == Apply(ss[i - 1], es[i - 1]);
    }
  }

  // ------------------------------------------------------------------ safety

  /** A request is dispatched only while the registry exists and the socket is
    * open to answer on, and the socket closes before the registry goes. */
  lemma NoDispatchAfterDestroy(ss: seq<State>, es: seq<Event>, i: nat)
    requires IsRun(ss, es) && i < |es|
    ensures es[i] == T(Dispatch) || (es[i].T? && es[i].a.Reply?) ==> ss[i].registry && ss[i].socket
    ensures ss[i].socket ==> ss[i].registry
  {
    RunInv(ss, es, i);
  }

  lemma {:induction false} AwaitingReply(ss: seq<State>, es: seq<Event>, i: nat, j: nat)
    requires IsRun(ss, es) && i < j < |ss| && es[i] == T(Dispatch)
    requires forall k :: i < k < j ==> !(es[k].T? && es[k].a.Reply?)
    ensures ss[j].pc.Replying?
    decreases j
  {
    if j > i + 1 {
      AwaitingReply(ss, es, i, j - 1);
      assert ss[j] == Apply(ss[j - 1], es[j - 1]);
    } else {
      assert ss[j] == Apply(ss[i], es[i]);
    }
  }

  /** Every dispatched request, SHUTDOWN included, has its reply attempted before
    * the next one is dispatched and before the socket or the registry goes. */
  lemma ReplyBeforeClose(ss: seq<State>, es: seq<Event>, i: nat, j: nat)
    requires IsRun(ss, es) && i < j < |es| && es[i] == T(Dispatch)
    requires es[j] == T(Dispatch) || es[j] == T(Close) || !ss[j].socket || !ss[j].registry
    ensures exists k :: i < k < j && es[k].T? && es[k].a.Reply?
  {
    RunInv(ss, es, j);
    if forall k :: i < k < j ==> !(es[k].T? && es[k].a.Reply?) {
      AwaitingReply(ss, es, i, j);
    }
  }

  lemma {:induction false} EndsAfterShutdown(ss: seq<State>, es: seq<Event>, i: nat, j: nat)
    requires IsRun(ss, es) && i < j < |ss| && es[i] == T(Dispatch) && ss[i].pc == Dispatching(true)
    ensures !ss[j].flag && (ss[j].pc.Replying? || ss[j].pc.Testing? || Closing(ss[j].pc) || ss[j].pc.Done?)
    decreases j
  {
    if j > i + 1 {
      EndsAfterShutdown(ss, es, i, j - 1);
      assert ss[j] == Apply(ss[j - 1], es[j - 1]);
    } else {
      assert ss[j] == Apply(ss[i], es[i]);
    }
  }

  /** Nothing is received, dispatched or relayed after an accepted SHUTDOWN. */
  lemma NothingServedAfterShutdown(ss: seq<State>, es: seq<Event>, i: nat, j: nat)
    requires IsRun(ss, es) && i < j < |es| && es[i] == T(Dispatch) && ss[i].pc == Dispatching(true)
    ensures es[j].T? ==> !es[j].a.Dispatch? && !es[j].a.Read? && !es[j].a.Recv? && !es[j].a.Enter?
  {
    EndsAfterShutdown(ss, es, i, j);
  }

  // ------------------------------------------------------- who is served, and why

  /** All requests sent so far, true for a SHUTDOWN. */
  function Sent(es: seq<Event>, i: nat): seq<bool>
    requires i <= |es|
  {
    if i == 0 then [] else Sent(es, i - 1) + if es[i - 1].Request? then [es[i - 1].shutdown] else []
  }

  /** The requests received so far, as they were then dispatched. */
  function Taken(ss: seq<State>, es: seq<Event>, i: nat): seq<bool>
    requires i <= |es| && i < |ss|
  {
    if i == 0 then []
    else Taken(ss, es, i - 1) +
         if es[i - 1] == T(Recv(true)) && ss[i].pc.Dispatching? then [ss[i].pc.shutdown] else []
  }

  /** Requests are taken in the order they were sent, each as what it is. */
  lemma {:induction false} FirstSentFirstTaken(ss: seq<State>, es: seq<Event>, i: nat)
    requires IsRun(ss, es) && i < |ss|
    ensures Sent(es, i) == Taken(ss, es, i) + ss[i].requests
  {
    if i > 0 {
      FirstSentFirstTaken(ss, es, i - 1);
      RequestStep(ss[i - 1], es[i - 1]);
      Regroup(Taken(ss, es, i - 1), ss[i - 1].requests, if es[i - 1].Request? then [es[i - 1].shutdown] else []);
      Regroup(Taken(ss, es, i - 1), TakenBy(ss[i - 1], es[i - 1]), ss[i].requests);
    }
  }

  /** What one step takes off the waiting requests. */
  function TakenBy(s: State, e: Event): seq<bool>
    requires Enabled(s, e)
  {
    if e == T(Recv(true)) && Apply(s, e).pc.Dispatching? then [Apply(s, e).pc.shutdown] else []
  }

  lemma RequestStep(s: State, e: Event)
    requires Enabled(s, e)
    ensures s.requests + (if e.Request? then [e.shutdown] else []) == TakenBy(s, e) + Apply(s, e).requests
  {
    if e == T(Recv(true)) { assert s.requests == [s.requests[0]] + s.requests[1..]; }
  }

  lemma Regroup(a: seq<bool>, b: seq<bool>, c: seq<bool>)
    ensures (a + b) + c == a + (b + c)
  {
  }

  /** What lowers the flag: a signal, or the dispatch of a SHUTDOWN. */
  predicate Lowers(s: State, e: Event) { e == Signal || (e == T(Dispatch) && s.pc == Dispatching(true)) }

  predicate LoweredAt(ss: seq<State>, es: seq<Event>, j: nat) { j < |es| && j < |ss| && Lowers(ss[j], es[j]) }

  /** In every run the flag is down exactly when one of them has happened. */
  lemma {:induction false} FlagDownExactly(ss: seq<State>, es: seq<Event>, i: nat)
    requires IsRun(ss, es) && i < |ss|
    ensures !ss[i].flag <==> exists j :: 0 <= j < i && LoweredAt(ss, es, j)
  {
    if i > 0 {
      FlagDownExactly(ss, es, i - 1);
      LowerStep(ss[i - 1], es[i - 1]);
      assert LoweredAt(ss, es, i - 1) <==> Lowers(ss[i - 1], es[i - 1]);
    }
  }

  lemma LowerStep(s: State, e: Event)
    requires Enabled(s, e)
    ensures !Apply(s, e).flag <==> !s.flag || Lowers(s, e)
  {
  }

  /** What ends the loop: the flag found down, or `poll` interrupted or failing. */
  predicate Ends(s: State, e: Event) {
    (e == T(Test) && !s.flag) || e == T(Interrupted) || e == T(PollError)
  }

  predicate EndedAt(ss: seq<State>, es: seq<Event>, j: nat) { j < |es| && j < |ss| && Ends(ss[j], es[j]) }

  /** In every run the loop is over exactly when one of them has happened. */
  lemma {:induction false} LoopOverExactly(ss: seq<State>, es: seq<Event>, i: nat)
    requires IsRun(ss, es) && i < |ss|
    ensures Closing(ss[i].pc) || ss[i].pc.Done? <==> exists j :: 0 <= j < i && EndedAt(ss, es, j)
  {
    if i > 0 {
      LoopOverExactly(ss, es, i - 1);
      EndStep(ss[i - 1], es[i - 1]);
      assert EndedAt(ss, es, i - 1) <==> Ends(ss[i - 1], es[i - 1]);
    }
  }

  lemma EndStep(s: State, e: Event)
    requires Enabled(s, e)
    ensures Closing(Apply(s, e).pc) || Apply(s, e).pc.Done? <==> Closing(s.pc) || s.pc.Done? || Ends(s, e)
  {
  }

  /** Where a round stands that `poll` began with these descriptors readable. */
  ghost predicate Owes(pc: Pc, read: bool, received: bool, udp: bool, mgmt: bool) {
    match pc
    case Reading(m) => udp && !read && !received && m == mgmt
    case Receiving => mgmt && !received && (udp ==> read)
    case Dispatching(_) => mgmt && received && (udp ==> read)
    case Replying => mgmt && received && (udp ==> read)
    case Testing => (udp ==> read) && (mgmt ==> received)
    case _ => false
  }

  ghost predicate Did(es: seq<Event>, i: nat, j: nat, recv: bool) {
    exists k :: i < k < j <= |es| && es[k].T? && if recv then es[k].a.Recv? else es[k].a.Read?
  }

  lemma {:induction false} RoundOwes(ss: seq<State>, es: seq<Event>, i: nat, j: nat)
    requires IsRun(ss, es) && i < j < |ss| && es[i] == T(Ready)
    requires forall k :: i < k < j ==> !ss[k].pc.Testing?
    ensures Owes(ss[j].pc, Did(es, i, j, false), Did(es, i, j, true), ss[i].datagrams > 0, ss[i].requests != [])
    decreases j
  {
    if j == i + 1 {
      assert ss[j] == Apply(ss[i], es[i]);
      assert !Did(es, i, j, false) && !Did(es, i, j, true);
    } else {
      RoundOwes(ss, es, i, j - 1);
      var n := j - 1;
      assert ss[j] == Apply(ss[n], es[n]);
      assert Did(es, i, j, false) <==> Did(es, i, n, false) || (es[n].T? && es[n].a.Read?);
      assert Did(es, i, j, true) <==> Did(es, i, n, true) || (es[n].T? && es[n].a.Recv?);
    }
  }

  /** Whatever `poll` reported readable is read before the flag is tested again:
    * the datagram, and the request. */
  lemma ReportedIsServed(ss: seq<State>, es: seq<Event>, i: nat, j: nat)
    requires IsRun(ss, es) && i < j < |ss| && es[i] == T(Ready) && ss[j].pc.Testing?
    requires forall k :: i < k < j ==> !ss[k].pc.Testing?
    ensures ss[i].datagrams > 0 ==> Did(es, i, j, false)
    ensures ss[i].requests != [] ==> Did(es, i, j, true)
  {
    RoundOwes(ss, es, i, j);
  }

  // ---------------------------------------------------------------- shutdown

  /** Steps left to the end once the flag is down. */
  function Left(pc: Pc): nat {
    match pc
    case Done => 0 case DestroyRegistry => 1 case CloseSocket => 2 case CloseUdp => 3 case CloseShm => 4
    case Testing => 5 case Replying => 6 case Dispatching(_) => 7 case Receiving => 8 case Reading(_) => 9
    case Polling => 10 case Entering => 11
  }

  lemma ClosingDecreases(s: State, e: Event)
    requires Inv(s) && !s.flag && Enabled(s, e)
    ensures !Apply(s, e).flag && (if e.T? then Left(Apply(s, e).pc) < Left(s.pc) else Apply(s, e).pc == s.pc)
  {
  }

  /** No step is possible, other than `poll` failing. */
  ghost predicate Stuck(s: State) { forall a :: a != PollError ==> !CanStep(s, a) }

  /** With the flag down the thread waits exactly inside a `poll` that was not
    * interrupted and has nothing to report. */
  lemma WaitsExactly(s: State)
    requires Inv(s) && !s.flag
    ensures Stuck(s) <==> s.pc.Done? || (s.pc.Polling? && !s.interrupted && !Waiting(s))
  {
    assert CanStep(s, Test) <==> s.pc.Testing?;
    assert CanStep(s, Enter) <==> s.pc.Entering?;
    assert CanStep(s, Ready) <==> s.pc.Polling? && Waiting(s);
    assert CanStep(s, Interrupted) <==> s.pc.Polling? && s.interrupted;
    assert CanStep(s, Read) <==> s.pc.Reading? && s.datagrams > 0;
    assert CanStep(s, Recv(false)) <==> s.pc.Receiving?;
    assert CanStep(s, Dispatch) <==> s.pc.Dispatching?;
    assert CanStep(s, Reply(true)) <==> s.pc.Replying?;
    assert CanStep(s, Close) <==> Closing(s.pc);
  }

  /** The j-th event is a signal between the test of the flag and the `poll` the
    * thread is in at `i`. */
  ghost predicate InGap(ss: seq<State>, es: seq<Event>, j: nat, i: nat) {
    && j < i <= |es| && j < |ss| && es[j] == Signal && ss[j].pc.Entering?
    && forall m :: j < m < i ==> es[m].T? ==> es[m] == T(Enter)
  }

  lemma {:induction false} GapExactly(ss: seq<State>, es: seq<Event>, i: nat)
    requires IsRun(ss, es) && i < |ss|
    requires ss[i].pc.Entering? || (ss[i].pc.Polling? && !ss[i].interrupted)
    ensures !ss[i].flag <==> exists j: nat :: InGap(ss, es, j, i)
  {
    if i > 0 {
      var n := i - 1;
      var s, e := ss[n], es[n];
      assert ss[i] == Apply(s, e);
      if e == T(Test) {
        assert forall j: nat :: !InGap(ss, es, j, i);
      } else {
        GapExactly(ss, es, n);
        assert e == Signal ==> s.pc.Entering? && InGap(ss, es, n, i);
        assert forall j: nat :: j != n ==> (InGap(ss, es, j, i) <==> InGap(ss, es, j, n));
      }
    }
  }

  /** In every run the thread waits with its flag down exactly when a signal fell
    * between the test of the flag and this `poll`, none came during it, and
    * nothing has arrived; a datagram or request then ends the wait. */
  lemma ShutdownDelayedExactly(ss: seq<State>, es: seq<Event>, i: nat)
    requires IsRun(ss, es) && i < |ss| && !ss[i].pc.Done?
    ensures !ss[i].flag && Stuck(ss[i]) <==>
      && ss[i].pc.Polling? && !ss[i].interrupted && !Waiting(ss[i])
      && exists j: nat :: InGap(ss, es, j, i)
  {
    RunInv(ss, es, i);
    if !ss[i].flag { WaitsExactly(ss[i]); }
    if ss[i].pc.Polling? && !ss[i].interrupted { GapExactly(ss, es, i); }
  }

  /** Such a run, with nobody sending anything. */
  lemma DelayPossible()
    ensures exists ss: seq<State>, es: seq<Event> ::
      IsRun(ss, es) && es == [T(Test), Signal, T(Enter)] && !ss[3].flag && Stuck(ss[3])
  {
    var es := [T(Test), Signal, T(Enter)];
    var s1 := Apply(START, es[0]);
    var s2 := Apply(s1, es[1]);
    var ss := [START, s1, s2, Apply(s2, es[2])];
    assert IsRun(ss, es);
    WaitsExactly(ss[3]);
  }

  function Steps(es: seq<Event>): nat {
    if es == [] then 0 else (if es[0].T? then 1 else 0) + Steps(es[1..])
  }

  /** Once the flag is down at most eleven steps remain, so nothing but that
    * wait stands between a signal or SHUTDOWN and the end. */
  lemma {:induction false} ShutdownCompletes(ss: seq<State>, es: seq<Event>, k: nat)
    requires IsRun(ss, es) && k < |ss| && !ss[k].flag
    ensures Steps(es[k..]) <= Left(ss[k].pc) <= 11
    ensures !ss[|es|].flag && Left(ss[|es|].pc) + Steps(es[k..]) <= Left(ss[k].pc)
    decreases |ss| - k
  {
    if k < |es| {
      RunInv(ss, es, k);
      ClosingDecreases(ss[k], es[k]);
      ShutdownCompletes(ss, es, k + 1);
      assert es[k..][1..] == es[k + 1..];
    }
  }
}
