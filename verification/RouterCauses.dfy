/** Why Router goes down, and when its worker gives up or leaves, over every run
  * of `RouterShutdown`. */
module RouterCauses {
  import opened RouterShutdown

  /** Reasons to end with a QUIT first: a SHUTDOWN request, a signal, a broken
    * connection. */
  predicate TermCause(s: State, e: Event) {
    e == G(Shutdown) || e == S(Arrive) || e == W(SendBroken)
  }

  /** Reasons to end with the pipe alone: no socket, or no retries left. */
  predicate FatalCause(s: State, e: Event) {
    e == W(SocketFail) || (e == W(PauseOver) && s.worker == Pausing(0))
  }

  predicate OtherCause(e: Event) { e == M(RecvError) || e == M(Create(false)) }

  datatype Kind = Term | Fatality | AnyKind

  predicate Causes(s: State, e: Event, kind: Kind) {
    match kind
    case Term => TermCause(s, e)
    case Fatality => FatalCause(s, e)
    case AnyKind => TermCause(s, e) || FatalCause(s, e) || OtherCause(e)
  }

  ghost predicate CausedAt(ss: seq<State>, es: seq<Event>, kind: Kind, j: nat, i: nat) {
    && j < i <= |es| && j < |ss| && Causes(ss[j], es[j], kind)
    && forall m :: j < m < i ==> !NewRun(es[m])
  }

  /** A reason of this kind occurred in the current run. */
  ghost predicate Caused(ss: seq<State>, es: seq<Event>, kind: Kind, i: nat) {
    exists j: nat :: CausedAt(ss, es, kind, j, i)
  }

  /** What shows that there was one. */
  ghost predicate Alarm(s: State, kind: Kind) {
    match kind
    case Term => TermAlarm(s)
    case Fatality => FatalAlarm(s)
    case AnyKind => TermAlarm(s) || FatalAlarm(s) || !s.flag || s.main.Leaving? || Other in s.events
  }

  ghost predicate TermAlarm(s: State) {
    || Signal in s.events || s.mgmt.MgmtPost? || s.sig.SigPost? || s.worker.PostTerm?
    || s.main.SigQuit? || s.main.SigClose?
  }

  ghost predicate FatalAlarm(s: State) { Fatal in s.events || s.worker.PostFatal? || s.main.FatalClose? }

  lemma InTail<T>(x: T, q: seq<T>, y: T)
    ensures q != [] && x in q[1..] ==> x in q
    ensures x in q + [y] <==> x in q || x == y
  {
  }

  lemma MainAlarm(c: Config, s: State, a: MainAct, kind: Kind)
    requires MainEnabled(c, s, a) && a != Restart && Alarm(MainStep(c, s, a), kind)
    ensures Alarm(s, kind) || Causes(s, M(a), kind)
  {
    InTail(Signal, s.events, Signal);
    InTail(Fatal, s.events, Signal);
    InTail(Other, s.events, Signal);
  }

  lemma WorkerAlarm(c: Config, s: State, a: WorkerAct, kind: Kind)
    requires WorkerEnabled(c, s, a) && Alarm(WorkerStep(c, s, a), kind)
    ensures Alarm(s, kind) || Causes(s, W(a), kind)
  {
    var posted := if s.worker.PostFatal? then Fatal else Signal;
    InTail(Signal, s.events, posted);
    InTail(Fatal, s.events, posted);
    InTail(Other, s.events, posted);
  }

  lemma OthersAlarm(c: Config, s: State, e: Event, kind: Kind)
    requires Enabled(c, s, e) && (e.G? || e.S?) && Alarm(Apply(c, s, e), kind)
    ensures Alarm(s, kind) || Causes(s, e, kind)
  {
    InTail(Signal, s.events, Signal);
    InTail(Fatal, s.events, Signal);
    InTail(Other, s.events, Signal);
  }

  lemma AlarmStep(c: Config, s: State, e: Event, kind: Kind)
    requires Enabled(c, s, e) && !NewRun(e) && Alarm(Apply(c, s, e), kind)
    ensures Alarm(s, kind) || Causes(s, e, kind)
  {
    match e {
      case M(a) => MainAlarm(c, s, a, kind);
      case W(a) => WorkerAlarm(c, s, a, kind);
      case G(_) => OthersAlarm(c, s, e, kind);
      case S(_) => OthersAlarm(c, s, e, kind);
      case E(_) =>
    }
  }

  lemma {:induction false} AlarmsAreCaused(c: Config, ss: seq<State>, es: seq<Event>, kind: Kind, i: nat)
    requires IsRun(c, ss, es) && i < |ss| && Alarm(ss[i], kind)
    ensures Caused(ss, es, kind, i)
  {
    if i > 0 && !NewRun(es[i - 1]) {
      var n := i - 1;
      AlarmStep(c, ss[n], es[n], kind);
      if Causes(ss[n], es[n], kind) {
        assert CausedAt(ss, es, kind, n, i);
      } else {
        AlarmsAreCaused(c, ss, es, kind, n);
        var j: nat :| CausedAt(ss, es, kind, j, n);
        assert CausedAt(ss, es, kind, j, i);
      }
    }
  }

  /** In every run Router goes down only for a reason that occurred in it, and
    * main answers it in kind: a QUIT from inside the loop for a request, a signal
    * or a broken connection, the pipe alone for a connection never made. */
  lemma GoesDownForAReason(c: Config, ss: seq<State>, es: seq<Event>, i: nat)
    requires IsRun(c, ss, es) && i < |ss|
    ensures !ss[i].flag ==> Caused(ss, es, AnyKind, i)
    ensures ss[i].main.SigQuit? ==> Caused(ss, es, Term, i)
    ensures ss[i].main.FatalClose? ==> Caused(ss, es, Fatality, i)
  {
    if !ss[i].flag { AlarmsAreCaused(c, ss, es, AnyKind, i); }
    if ss[i].main.SigQuit? { AlarmsAreCaused(c, ss, es, Term, i); }
    if ss[i].main.FatalClose? { AlarmsAreCaused(c, ss, es, Fatality, i); }
  }

  /** How often the management thread did this in the current run. */
  function Times(es: seq<Event>, a: MgmtAct, i: nat): nat
    requires i <= |es|
  {
    if i == 0 || NewRun(es[i - 1]) then 0 else Times(es, a, i - 1) + if es[i - 1] == G(a) then 1 else 0
  }

  lemma PostStep(c: Config, s: State, e: Event)
    requires Ladder(s) && Enabled(c, s, e) && !NewRun(e)
    ensures (if Apply(c, s, e).mgmt.MgmtPost? then 1 else 0) + (if e == G(PostEvent) then 1 else 0)
            == (if s.mgmt.MgmtPost? then 1 else 0) + if e == G(Shutdown) then 1 else 0
  {
  }

  /** The management thread posts one event for each SHUTDOWN it accepted, the
    * last one perhaps still to come, and none for any other request. */
  lemma {:induction false} PostsAreShutdowns(c: Config, ss: seq<State>, es: seq<Event>, i: nat)
    requires IsRun(c, ss, es) && i < |ss|
    ensures Times(es, PostEvent, i) + (if ss[i].mgmt.MgmtPost? then 1 else 0) == Times(es, Shutdown, i)
  {
    if i > 0 && !NewRun(es[i - 1]) {
      PostsAreShutdowns(c, ss, es, i - 1);
      RunInv(c, ss, es, i - 1);
      PostStep(c, ss[i - 1], es[i - 1]);
    }
  }

  // --------------------------------------------------- when the worker gives up

  /** Connection attempts that failed in the current run. */
  function Refusals(es: seq<Event>, i: nat): nat
    requires i <= |es|
  {
    if i == 0 || NewRun(es[i - 1]) then 0
    else Refusals(es, i - 1) + if es[i - 1] == W(ConnectFail) then 1 else 0
  }

  ghost predicate Retrying(pc: WorkerPc, refusals: nat) {
    && (pc.NotStarted? || pc.Opening? ==> refusals == 0)
    && (pc.Connecting? || pc.Pausing? ==> pc.left + refusals == CONNECT_MAX_RETRIES)
    && (pc.Connecting? ==> pc.left >= 1)
  }

  /** Nobody but the worker moves the worker, except that main starts it. */
  lemma OnlyStarted(c: Config, s: State, e: Event)
    requires Ladder(s) && Enabled(c, s, e) && !NewRun(e) && !e.W?
    ensures Apply(c, s, e).worker == s.worker || (s.worker.NotStarted? && Apply(c, s, e).worker.Opening?)
  {
  }

  lemma WorkerRetries(c: Config, s: State, a: WorkerAct, refusals: nat)
    requires WorkerEnabled(c, s, a) && Retrying(s.worker, refusals)
    ensures Retrying(WorkerStep(c, s, a).worker, refusals + if a.ConnectFail? then 1 else 0)
  {
  }

  lemma RetryStep(c: Config, s: State, e: Event, refusals: nat)
    requires Ladder(s) && Enabled(c, s, e) && !NewRun(e) && Retrying(s.worker, refusals)
    ensures Retrying(Apply(c, s, e).worker, refusals + if e == W(ConnectFail) then 1 else 0)
  {
    if e.W? { WorkerRetries(c, s, e.w, refusals); } else { OnlyStarted(c, s, e); }
  }

  lemma {:induction false} RunRetrying(c: Config, ss: seq<State>, es: seq<Event>, i: nat)
    requires IsRun(c, ss, es) && i < |ss|
    ensures Retrying(ss[i].worker, Refusals(es, i))
  {
    if i > 0 && !NewRun(es[i - 1]) {
      RunRetrying(c, ss, es, i - 1);
      RunInv(c, ss, es, i - 1);
      RetryStep(c, ss[i - 1], es[i - 1], Refusals(es, i - 1));
    }
  }

  /** The worker gives up connecting after exactly five refusals, and tries again
    * after every earlier pause. */
  lemma GivesUpExactly(c: Config, ss: seq<State>, es: seq<Event>, i: nat)
    requires IsRun(c, ss, es) && i < |es| && es[i] == W(PauseOver)
    ensures ss[i + 1].worker.PostFatal? <==> Refusals(es, i) == 5
    ensures ss[i + 1].worker.Connecting? <==> Refusals(es, i) < 5
  {
    RunRetrying(c, ss, es, i);
    assert ss[i + 1] == Apply(c, ss[i], es[i]);
  }

  /** The steps a worker leaves by: the closed pipe during a pause, a QUIT of any
    * sender, the event that says it cannot go on. */
  predicate Leaves(s: State, e: Event) {
    || e == W(PauseStop) || e == W(Post)
    || (e == W(Receive) && s.q != [] && s.q[0].status == QUIT_STATUS)
  }

  ghost predicate LeftAt(ss: seq<State>, es: seq<Event>, j: nat, i: nat) {
    && j < i <= |es| && j < |ss| && Leaves(ss[j], es[j])
    && forall m :: j < m < i ==> !NewRun(es[m])
  }

  lemma LeaveStep(c: Config, s: State, e: Event)
    requires Ladder(s) && Enabled(c, s, e) && !NewRun(e)
    ensures Apply(c, s, e).worker.Exited? <==> s.worker.Exited? || Leaves(s, e)
  {
    if e.W? { WorkerLeaves(c, s, e.w); } else { OnlyStarted(c, s, e); }
  }

  lemma WorkerLeaves(c: Config, s: State, a: WorkerAct)
    requires WorkerEnabled(c, s, a)
    ensures WorkerStep(c, s, a).worker.Exited? <==> s.worker.Exited? || Leaves(s, W(a))
  {
  }

  /** In every run the worker is gone exactly when it has taken one of them. */
  lemma {:induction false} WorkerGoneExactly(c: Config, ss: seq<State>, es: seq<Event>, i: nat)
    requires IsRun(c, ss, es) && i < |ss|
    ensures ss[i].worker.Exited? <==> exists j: nat :: LeftAt(ss, es, j, i)
  {
    if i > 0 {
      var n := i - 1;
      if NewRun(es[n]) {
        assert forall j: nat :: LeftAt(ss, es, j, i) ==> j == n;
      } else {
        WorkerGoneExactly(c, ss, es, n);
        RunInv(c, ss, es, n);
        LeaveStep(c, ss[n], es[n]);
        assert LeftAt(ss, es, n, i) <==> Leaves(ss[n], es[n]);
        assert forall j: nat :: j != n ==> (LeftAt(ss, es, j, i) <==> LeftAt(ss, es, j, n));
      }
    }
  }

  // ------------------------------------------------ when the other threads leave

  datatype Who = MgmtThread | SigThread | MainLoop

  /** The management thread leaves when it cannot open its socket or finds the flag
    * down between requests; the signal thread when it finds the flag down before
    * waiting, fails to wait, has posted its signal, or is cancelled; main leaves
    * its loop when it finds the flag down or cannot receive, and never enters it
    * without a management thread. */
  predicate StepsOut(s: State, e: Event, who: Who) {
    match who
    case MgmtThread => e == G(OpenFail) || (e == G(Check) && !s.flag)
    case SigThread =>
      (e == S(CheckFlag) && !s.flag) || e == S(WaitError) || e == S(PostSignal) || e == S(Cancelled)
    case MainLoop => e == M(RecvError) || e == M(Create(false)) || (e == M(Go) && s.main.Looping? && !s.flag)
  }

  predicate Out(s: State, who: Who) {
    match who
    case MgmtThread => s.mgmt.MgmtClose? || s.mgmt.MgmtExited?
    case SigThread => s.sig.SigExited?
    case MainLoop =>
      && Started(s.main) && !s.main.Looping?
      && !s.main.SigQuit? && !s.main.SigClose? && !s.main.FatalClose?
  }

  ghost predicate SteppedOutAt(ss: seq<State>, es: seq<Event>, who: Who, j: nat, i: nat) {
    && j < i <= |es| && j < |ss| && StepsOut(ss[j], es[j], who)
    && forall m :: j < m < i ==> !NewRun(es[m])
  }

  lemma MainOut(c: Config, s: State, a: MainAct, who: Who)
    requires Ladder(s) && MainEnabled(c, s, a) && a != Restart
    ensures Out(MainStep(c, s, a), who) <==> Out(s, who) || StepsOut(s, M(a), who)
  {
  }

  lemma OutStep(c: Config, s: State, e: Event, who: Who)
    requires Ladder(s) && Enabled(c, s, e) && !NewRun(e)
    ensures Out(Apply(c, s, e), who) <==> Out(s, who) || StepsOut(s, e, who)
  {
    if e.M? { MainOut(c, s, e.m, who); }
  }

  /** In every run they are out exactly when they took such a step in it: no
    * timeout and no request ends the management thread, and main, having answered
    * an event, goes back to its loop. */
  lemma {:induction false} OutExactly(c: Config, ss: seq<State>, es: seq<Event>, who: Who, i: nat)
    requires IsRun(c, ss, es) && i < |ss|
    ensures Out(ss[i], who) <==> exists j: nat :: SteppedOutAt(ss, es, who, j, i)
  {
    if i > 0 {
      var n := i - 1;
      if NewRun(es[n]) {
        assert forall j: nat :: SteppedOutAt(ss, es, who, j, i) ==> j == n;
      } else {
        OutExactly(c, ss, es, who, n);
        RunInv(c, ss, es, n);
        OutStep(c, ss[n], es[n], who);
        SteppedStep(ss, es, who, n, i);
      }
    }
  }

  lemma SteppedStep(ss: seq<State>, es: seq<Event>, who: Who, n: nat, i: nat)
    requires n + 1 == i <= |es| && i <= |ss| && !NewRun(es[n])
    ensures (exists j: nat :: SteppedOutAt(ss, es, who, j, i)) <==>
            StepsOut(ss[n], es[n], who) || exists j: nat :: SteppedOutAt(ss, es, who, j, n)
  {
    assert SteppedOutAt(ss, es, who, n, i) <==> StepsOut(ss[n], es[n], who);
    assert forall j: nat :: j != n ==> (SteppedOutAt(ss, es, who, j, i) <==> SteppedOutAt(ss, es, who, j, n));
  }

  lemma UnmanagedStep(c: Config, s: State, e: Event)
    requires Ladder(s) && Enabled(c, s, e) && (Started(s.main) && s.mgmt.NoMgmt? ==> !s.flag)
    ensures var t := Apply(c, s, e); Started(t.main) && t.mgmt.NoMgmt? ==> !t.flag
  {
  }

  /** Without a management thread Router is on its way down. */
  lemma {:induction false} UnmanagedEnds(c: Config, ss: seq<State>, es: seq<Event>, i: nat)
    requires IsRun(c, ss, es) && i < |ss|
    ensures Started(ss[i].main) && ss[i].mgmt.NoMgmt? ==> !ss[i].flag
  {
    if i > 0 {
      UnmanagedEnds(c, ss, es, i - 1);
      RunInv(c, ss, es, i - 1);
      UnmanagedStep(c, ss[i - 1], es[i - 1]);
    }
  }
}
