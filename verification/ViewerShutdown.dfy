/** Viewer's threads: main waits twice on a condition variable, first for the
  * signal thread to be ready and then for a shutdown request, and then wakes
  * each thread its own way: SIGUSR1 for the signal thread, a byte in a pipe
  * for the TCP thread, a cleared flag for the management thread.
  */
module ViewerShutdown {

  datatype Owner = Nobody | ByMain | BySig | ByMgmt

  datatype MainPc =
    | LockA | TestA | SleepA | WakeA | UnlockA          // wait for signal_thread_ready
    | Launch
    | FailLock | FailSet | FailSignal | FailUnlock      // management could not be started
    | LockB | TestB | SleepB | WakeB | UnlockB          // wait for shutdown_requested
    | ClearRun | Kill | WritePipe
    | JoinSig | JoinTcp | JoinMgmt | Cleanup
    | Done

  datatype SigPc =
    | SLock0 | SReady | SSignal0 | SUnlock0
    | SWait
    | SLock1 | SReq | SSignal1 | SUnlock1
    | SExited

  datatype TcpPc = TNone | TOpen | TCheck | TPoll | TServe | TClose | TExited

  datatype MgmtPc =
    | GNone | GOpen | GCheck | GRecv | GDispatch
    | GClear | GLock | GReq | GSignal | GUnlock         // handler_shutdown
    | GReply | GClose | GExited

  datatype State = State(
    mtx: Owner,
    ready: bool,
    req: bool,              // shutdown_requested
    running: bool,          // g_mgmt_running
    pipeByte: bool,
    usr1: bool,             // SIGUSR1 pending for the signal thread
    ext: bool,              // SIGINT or SIGTERM pending
    registry: bool,
    main: MainPc, sig: SigPc, tcp: TcpPc, mgmt: MgmtPc)

  datatype MainAct = Step | Spurious | Create(registryOk: bool, threadOk: bool) | Join
  datatype SigAct = SStep | TakeExt | TakeUsr1
  datatype TcpAct = TFail | TStep | Net | Stop | Interrupted
  datatype MgmtAct = OpenFail | GStep | Timeout | Datagram | Shutdown | Plain | Reply
  /** `Deliver` is a signal from outside: SIGINT or SIGTERM, or SIGUSR1. */
  datatype Event = M(m: MainAct) | S(s: SigAct) | T(t: TcpAct) | G(g: MgmtAct) | Deliver(usr1: bool)

  ghost predicate Init(s: State) {
    s == State(Nobody, false, false, true, false, false, false, false, LockA, SLock0, TNone, GNone)
  }

  /** `pthread_cond_signal`: only main ever waits. */
  function Woken(pc: MainPc): MainPc {
    match pc case SleepA => WakeA case SleepB => WakeB case _ => pc
  }

  // ------------------------------------------------------------ main thread

  predicate MainEnabled(s: State, a: MainAct) {
    match a
    case Spurious => s.main.SleepA? || s.main.SleepB?
    case Create(_, _) => s.main.Launch?
    case Join =>
      || (s.main.JoinSig? && s.sig.SExited?)
      || (s.main.JoinTcp? && s.tcp.TExited?)
      || (s.main.JoinMgmt? && (s.mgmt.GNone? || s.mgmt.GExited?))
    case Step =>
      (match s.main
       case SleepA => false
       case SleepB => false
       case Launch => false
       case JoinSig => false
       case JoinTcp => false
       case JoinMgmt => false
       case Done => false
       case _ => MainLocks(s.main) ==> s.mtx.Nobody?)
  }

  function NextMain(s: State, a: MainAct): MainPc {
    match s.main
    case LockA => TestA
    case TestA => if s.ready then UnlockA else SleepA
    case SleepA => WakeA
    case WakeA => TestA
    case UnlockA => Launch
    case Launch => if a.Create? && a.registryOk && a.threadOk then LockB else FailLock
    case FailLock => FailSet
    case FailSet => FailSignal
    case FailSignal => FailUnlock
    case FailUnlock => LockB
    case LockB => TestB
    case TestB => if s.req then UnlockB else SleepB
    case SleepB => WakeB
    case WakeB => TestB
    case UnlockB => ClearRun
    case ClearRun => Kill
    case Kill => WritePipe
    case WritePipe => JoinSig
    case JoinSig => JoinTcp
    case JoinTcp => JoinMgmt
    case JoinMgmt => Cleanup
    case Cleanup => Done
    case Done => Done
  }

  /** A thread returning from `pthread_cond_wait` takes the mutex again. */
  predicate MainLocks(pc: MainPc) { pc.LockA? || pc.WakeA? || pc.FailLock? || pc.LockB? || pc.WakeB? }

  predicate MainUnlocks(pc: MainPc, next: MainPc) {
    pc.UnlockA? || pc.FailUnlock? || pc.UnlockB? || next.SleepA? || next.SleepB?
  }

  /** What main's step does to each field. */
  function MainStep(s: State, a: MainAct): State
    requires MainEnabled(s, a)
  {
    var next := NextMain(s, a);
    s.(mtx := if MainLocks(s.main) then ByMain else if MainUnlocks(s.main, next) then Nobody else s.mtx,
       req := s.req || s.main.FailSet?,
       running := s.running && !s.main.ClearRun?,
       usr1 := s.usr1 || s.main.Kill?,
       pipeByte := s.pipeByte || s.main.WritePipe?,
       registry := if a.Create? then a.registryOk else s.registry && !s.main.Cleanup?,
       tcp := if a.Create? then TOpen else s.tcp,
       mgmt := if a.Create? && a.registryOk && a.threadOk then GOpen else s.mgmt,
       main := next)
  }

  // ----------------------------------------------------------- other threads

  predicate SigEnabled(s: State, a: SigAct) {
    match a
    case SStep => !s.sig.SWait? && !s.sig.SExited? && (s.sig.SLock0? || s.sig.SLock1? ==> s.mtx.Nobody?)
    case TakeExt => s.sig.SWait? && s.ext
    case TakeUsr1 => s.sig.SWait? && s.usr1
  }

  function NextSig(pc: SigPc, a: SigAct): SigPc {
    match pc
    case SLock0 => SReady
    case SReady => SSignal0
    case SSignal0 => SUnlock0
    case SUnlock0 => SWait
    case SWait => if a.TakeExt? then SLock1 else SExited
    case SLock1 => SReq
    case SReq => SSignal1
    case SSignal1 => SUnlock1
    case SUnlock1 => SWait
    case SExited => SExited
  }

  function SigStep(s: State, a: SigAct): State
    requires SigEnabled(s, a)
  {
    var next := NextSig(s.sig, a);
    s.(mtx := if s.sig.SLock0? || s.sig.SLock1? then BySig
              else if s.sig.SUnlock0? || s.sig.SUnlock1? then Nobody else s.mtx,
       ready := s.ready || s.sig.SReady?,
       req := s.req || s.sig.SReq?,
       main := if s.sig.SSignal0? || s.sig.SSignal1? then Woken(s.main) else s.main,
       ext := s.ext && !a.TakeExt?,
       usr1 := s.usr1 && !a.TakeUsr1?,
       sig := next)
  }

  predicate TcpEnabled(s: State, a: TcpAct) {
    match a
    case TFail => s.tcp.TOpen? || s.tcp.TPoll?
    case TStep => s.tcp.TOpen? || s.tcp.TCheck? || s.tcp.TServe? || s.tcp.TClose?
    case Net => s.tcp.TPoll? && !s.pipeByte
    case Stop => s.tcp.TPoll? && s.pipeByte
    case Interrupted => s.tcp.TPoll?
  }

  function TcpStep(s: State, a: TcpAct): State
    requires TcpEnabled(s, a)
  {
    s.(tcp :=
      match s.tcp
      case TOpen => if a.TFail? then TExited else TCheck
      case TCheck => if s.req then TClose else TPoll
      case TPoll => if a.Net? then TServe else if a.Interrupted? then TCheck else TClose
      case TServe => TCheck
      case _ => TExited)
  }

  predicate MgmtEnabled(s: State, a: MgmtAct) {
    match a
    case OpenFail => s.mgmt.GOpen?
    case Timeout => s.mgmt.GRecv?
    case Datagram => s.mgmt.GRecv?
    case Shutdown => s.mgmt.GDispatch?
    case Plain => s.mgmt.GDispatch?
    case Reply => s.mgmt.GReply?
    case GStep =>
      && !s.mgmt.GNone? && !s.mgmt.GRecv? && !s.mgmt.GDispatch? && !s.mgmt.GReply? && !s.mgmt.GExited?
      && (s.mgmt.GLock? ==> s.mtx.Nobody?)
  }

  function NextMgmt(s: State, a: MgmtAct): MgmtPc {
    match s.mgmt
    case GNone => GNone
    case GOpen => if a.OpenFail? then GExited else GCheck
    case GCheck => if s.running then GRecv else GClose
    case GRecv => if a.Timeout? then GCheck else GDispatch
    case GDispatch => if a.Shutdown? then GClear else GReply
    case GClear => GLock
    case GLock => GReq
    case GReq => GSignal
    case GSignal => GUnlock
    case GUnlock => GReply
    case GReply => GCheck
    case GClose => GExited
    case GExited => GExited
  }

  function MgmtStep(s: State, a: MgmtAct): State
    requires MgmtEnabled(s, a)
  {
    var next := NextMgmt(s, a);
    s.(mtx := if s.mgmt.GLock? then ByMgmt else if s.mgmt.GUnlock? then Nobody else s.mtx,
       running := s.running && !s.mgmt.GClear?,
       req := s.req || s.mgmt.GReq?,
       main := if s.mgmt.GSignal? then Woken(s.main) else s.main,
       mgmt := next)
  }

  predicate Enabled(s: State, e: Event) {
    match e
    case M(a) => MainEnabled(s, a)
    case S(a) => SigEnabled(s, a)
    case T(a) => TcpEnabled(s, a)
    case G(a) => MgmtEnabled(s, a)
    case Deliver(_) => true
  }

  function Apply(s: State, e: Event): State
    requires Enabled(s, e)
  {
    match e
    case M(a) => MainStep(s, a)
    case S(a) => SigStep(s, a)
    case T(a) => TcpStep(s, a)
    case G(a) => MgmtStep(s, a)
    case Deliver(usr1) => if usr1 then s.(usr1 := true) else s.(ext := true)
  }

  // -------------------------------------------------------------- invariant

  predicate MainHolds(pc: MainPc) {
    pc.TestA? || pc.UnlockA? || pc.FailSet? || pc.FailSignal? || pc.FailUnlock? || pc.TestB? || pc.UnlockB?
  }

  predicate SigHolds(pc: SigPc) {
    pc.SReady? || pc.SSignal0? || pc.SUnlock0? || pc.SReq? || pc.SSignal1? || pc.SUnlock1?
  }

  predicate MgmtHolds(pc: MgmtPc) { pc.GReq? || pc.GSignal? || pc.GUnlock? }

  ghost predicate Mutexed(s: State) {
    && (s.mtx.ByMain? <==> MainHolds(s.main))
    && (s.mtx.BySig? <==> SigHolds(s.sig))
    && (s.mtx.ByMgmt? <==> MgmtHolds(s.mgmt))
  }

  /** Main asleep means its predicate is false, or the thread that made it
    * true still holds the mutex and has the signal ahead of it. */
  ghost predicate NoLostWakeup(s: State) {
    && (s.main.SleepA? ==> !s.ready || s.sig.SSignal0?)
    && (s.main.SleepB? ==> !s.req || s.sig.SSignal1? || s.mgmt.GSignal?)
  }

  predicate BeforeLaunch(pc: MainPc) {
    pc.LockA? || pc.TestA? || pc.SleepA? || pc.WakeA? || pc.UnlockA? || pc.Launch?
  }

  /** Main has seen the request and only has to wake and join the others. */
  predicate Joining(pc: MainPc) { pc.JoinSig? || pc.JoinTcp? || pc.JoinMgmt? || pc.Cleanup? || pc.Done? }
  predicate Closing(pc: MainPc) { pc.Kill? || pc.WritePipe? || Joining(pc) }
  predicate Killed(pc: MainPc) { Closing(pc) && !pc.Kill? }
  predicate Seen(pc: MainPc) { pc.UnlockB? || pc.ClearRun? || Closing(pc) }

  ghost predicate Flags(s: State) {
    && (s.ready <==> !s.sig.SLock0? && !s.sig.SReady?)
    && (s.sig.SSignal1? || s.sig.SUnlock1? || s.mgmt.GSignal? || s.mgmt.GUnlock? ==> s.req)
    && (s.main.FailSignal? || s.main.FailUnlock? ==> s.req)
    && (Seen(s.main) ==> s.req)
    && (Closing(s.main) ==> !s.running)
    && (Killed(s.main) ==> s.usr1 || s.sig.SExited?)
    && (s.pipeByte <==> Joining(s.main))
  }

  ghost predicate Alive(s: State) {
    && (BeforeLaunch(s.main) <==> s.tcp.TNone?)
    && (BeforeLaunch(s.main) ==> s.mgmt.GNone?)
    && (s.main.JoinTcp? || s.main.JoinMgmt? || s.main.Cleanup? || s.main.Done? ==> s.sig.SExited?)
    && (s.main.JoinMgmt? || s.main.Cleanup? || s.main.Done? ==> s.tcp.TExited?)
    && (s.main.Cleanup? || s.main.Done? ==> s.mgmt.GNone? || s.mgmt.GExited?)
    && (!s.mgmt.GNone? && !s.main.Done? ==> s.registry)
    && (s.main.Done? ==> !s.registry)
  }

  ghost predicate Wired(s: State) {
    Flags(s) && Alive(s)
  }

  ghost predicate Inv(s: State) {
    Mutexed(s) && NoLostWakeup(s) && Wired(s)
  }

  lemma MainMutexed(s: State, a: MainAct)
    requires Inv(s) && MainEnabled(s, a)
    ensures Mutexed(MainStep(s, a)) && NoLostWakeup(MainStep(s, a))
  {
  }

  lemma MainFlags(s: State, a: MainAct)
    requires Inv(s) && MainEnabled(s, a)
    ensures Flags(MainStep(s, a))
  {
  }

  lemma MainWired(s: State, a: MainAct)
    requires Inv(s) && MainEnabled(s, a)
    ensures Wired(MainStep(s, a))
  {
    MainFlags(s, a);
  }

  lemma SigInv(s: State, a: SigAct)
    requires Inv(s) && SigEnabled(s, a)
    ensures Inv(SigStep(s, a))
  {
  }

  lemma TcpInv(s: State, a: TcpAct)
    requires Inv(s) && TcpEnabled(s, a)
    ensures Inv(TcpStep(s, a))
  {
  }

  lemma MgmtInv(s: State, a: MgmtAct)
    requires Inv(s) && MgmtEnabled(s, a)
    ensures Inv(MgmtStep(s, a))
  {
  }

  lemma StepInv(s: State, e: Event)
    requires Inv(s) && Enabled(s, e)
    ensures Inv(Apply(s, e))
  {
    match e {
      case M(a) => MainMutexed(s, a); MainWired(s, a);
      case S(a) => SigInv(s, a);
      case T(a) => TcpInv(s, a);
      case G(a) => MgmtInv(s, a);
      case Deliver(_) =>
    }
  }

  ghost predicate IsRun(ss: seq<State>, es: seq<Event>) {
    && |ss| == |es| + 1 && Init(ss[0])
    && forall i {:trigger es[i]} :: 0 <= i < |es| ==> Enabled(ss[i], es[i]) && ss[i + 1] == Apply(ss[i], es[i])
  }

  lemma {:induction false} RunInv(ss: seq<State>, es: seq<Event>, i: nat)
    requires IsRun(ss, es) && i < |ss|
    ensures Inv(ss[i])
  {
    if i > 0 {
      RunInv(ss, es, i - 1);
      StepInv(ss[i - 1], es[i - 1]);
    }
  }

  // --------------------------------------------------------------- results

  /** No wake-up is lost in either wait, spurious wake-ups included. */
  lemma NeverSleepsThroughIt(ss: seq<State>, es: seq<Event>, i: nat)
    requires IsRun(ss, es) && i < |ss|
    ensures ss[i].main.SleepA? && ss[i].ready ==> ss[i].mtx.BySig? && ss[i].sig.SSignal0?
    ensures ss[i].main.SleepB? && ss[i].req ==>
      (ss[i].mtx.BySig? && ss[i].sig.SSignal1?) || (ss[i].mtx.ByMgmt? && ss[i].mgmt.GSignal?)
  {
    RunInv(ss, es, i);
  }

  /** While main joins, every thread has exited or has its own wake source:
    * the pending SIGUSR1, the unread pipe byte, the cleared flag. */
  lemma EveryoneIsWoken(ss: seq<State>, es: seq<Event>, i: nat)
    requires IsRun(ss, es) && i < |ss| && Joining(ss[i].main)
    ensures ss[i].sig.SExited? || ss[i].usr1
    ensures ss[i].tcp.TExited? || (ss[i].pipeByte && ss[i].req)
    ensures !ss[i].running
  {
    RunInv(ss, es, i);
  }

  /** Reasons to ask for a shutdown: a SHUTDOWN request, a signal taken by the
    * signal thread, and management that could not be started. */
  predicate Reason(e: Event) {
    || e == G(Shutdown) || e == S(TakeExt)
    || (e.M? && e.m.Create? && !(e.m.registryOk && e.m.threadOk))
  }

  ghost predicate Reasoned(es: seq<Event>, i: nat) { exists j :: 0 <= j < i <= |es| && Reason(es[j]) }

  /** What shows that there was one. */
  predicate Asking(s: State) {
    || s.req || !s.running
    || s.main.FailLock? || s.main.FailSet? || s.main.FailSignal? || s.main.FailUnlock?
    || s.sig.SLock1? || s.sig.SReq? || s.mgmt.GClear? || s.mgmt.GLock? || s.mgmt.GReq?
  }

  lemma MainAsks(s: State, a: MainAct)
    requires Wired(s) && MainEnabled(s, a) && Asking(MainStep(s, a))
    ensures Asking(s) || Reason(M(a))
  {
  }

  lemma OthersAsk(s: State, e: Event)
    requires Wired(s) && Enabled(s, e) && !e.M? && Asking(Apply(s, e))
    ensures Asking(s) || Reason(e)
  {
  }

  lemma {:induction false} AskedForAReason(ss: seq<State>, es: seq<Event>, i: nat)
    requires IsRun(ss, es) && i < |ss| && Asking(ss[i])
    ensures Reasoned(es, i)
  {
    if i > 0 {
      RunWired(ss, es, i - 1);
      var s, e := ss[i - 1], es[i - 1];
      if e.M? { MainAsks(s, e.m); } else { OthersAsk(s, e); }
      if Asking(s) { AskedForAReason(ss, es, i - 1); }
    }
  }

  /** In every run a shutdown is requested, and the management flag cleared, only
    * after a SHUTDOWN request, a signal, or a failure to start management; no
    * other request does it. */
  lemma RequestedForAReason(ss: seq<State>, es: seq<Event>, i: nat)
    requires IsRun(ss, es) && i < |ss| && (ss[i].req || !ss[i].running)
    ensures Reasoned(es, i)
  {
    AskedForAReason(ss, es, i);
  }

  /** Which thread, and the steps it leaves its loop by: the TCP thread when it
    * cannot listen or poll, finds the pipe readable or the request set; the
    * management thread when it cannot open its socket or finds the flag down; the
    * signal thread on SIGUSR1. */
  datatype Thread = Tcp | Mgmt | Sig

  predicate Leaves(s: State, e: Event, who: Thread) {
    match who
    case Tcp => e == T(TFail) || e == T(Stop) || (e == T(TStep) && s.tcp.TCheck? && s.req)
    case Mgmt => e == G(OpenFail) || (e == G(GStep) && s.mgmt.GCheck? && !s.running)
    case Sig => e == S(TakeUsr1)
  }

  predicate Gone(s: State, who: Thread) {
    match who
    case Tcp => s.tcp.TClose? || s.tcp.TExited?
    case Mgmt => s.mgmt.GClose? || s.mgmt.GExited?
    case Sig => s.sig.SExited?
  }

  predicate LeftAt(ss: seq<State>, es: seq<Event>, who: Thread, j: nat) {
    j < |es| && j < |ss| && Leaves(ss[j], es[j], who)
  }

  lemma MainLeavesNobody(s: State, a: MainAct, who: Thread)
    requires Wired(s) && MainEnabled(s, a)
    ensures Gone(MainStep(s, a), who) <==> Gone(s, who)
  {
  }

  lemma LeaveStep(s: State, e: Event, who: Thread)
    requires Wired(s) && Enabled(s, e)
    ensures Gone(Apply(s, e), who) <==> Gone(s, who) || Leaves(s, e, who)
  {
    if e.M? { MainLeavesNobody(s, e.m, who); }
  }

  /** In every run a thread has left exactly when it took one of those steps; an
    * interrupted poll, a timeout or any other request does not end it. */
  lemma {:induction false} LeavesExactly(ss: seq<State>, es: seq<Event>, who: Thread, i: nat)
    requires IsRun(ss, es) && i < |ss|
    ensures Gone(ss[i], who) <==> exists j :: 0 <= j < i && LeftAt(ss, es, who, j)
  {
    if i > 0 {
      LeavesExactly(ss, es, who, i - 1);
      RunWired(ss, es, i - 1);
      LeaveStep(ss[i - 1], es[i - 1], who);
      assert LeftAt(ss, es, who, i - 1) <==> Leaves(ss[i - 1], es[i - 1], who);
    }
  }

  ghost predicate Accounted(s: State) {
    !BeforeLaunch(s.main) && s.mgmt.GNone? ==> s.req || s.main.FailLock? || s.main.FailSet?
  }

  lemma AccountedStep(s: State, e: Event)
    requires Wired(s) && Enabled(s, e) && Accounted(s)
    ensures Accounted(Apply(s, e))
  {
    if e.M? { AccountedMain(s, e.m); }
  }

  lemma AccountedMain(s: State, a: MainAct)
    requires Wired(s) && MainEnabled(s, a) && Accounted(s)
    ensures Accounted(MainStep(s, a))
  {
  }

  /** Without a management thread Viewer is on its way down: once main waits for
    * requests, the shutdown has been requested. */
  lemma {:induction false} UnmanagedEnds(ss: seq<State>, es: seq<Event>, i: nat)
    requires IsRun(ss, es) && i < |ss|
    ensures Accounted(ss[i])
  {
    if i > 0 {
      UnmanagedEnds(ss, es, i - 1);
      RunWired(ss, es, i - 1);
      AccountedStep(ss[i - 1], es[i - 1]);
    }
  }

  ghost predicate OutsideUsr1(es: seq<Event>, i: nat) {
    exists j :: 0 <= j < i <= |es| && es[j] == Deliver(true)
  }

  lemma DeafStep(s: State, e: Event)
    requires Enabled(s, e) && !Killed(Apply(s, e).main)
    ensures !Killed(s.main)
    ensures var t := Apply(s, e);
            t.usr1 || t.sig.SExited? <==> s.usr1 || s.sig.SExited? || e == Deliver(true)
  {
    match e {
      case M(a) => DeafMain(s, a);
      case S(a) => DeafSig(s, a);
      case T(_) =>
      case G(a) => DeafMgmt(s, a);
      case Deliver(_) =>
    }
  }

  lemma DeafMain(s: State, a: MainAct)
    requires MainEnabled(s, a) && !Killed(MainStep(s, a).main)
    ensures !Killed(s.main) && MainStep(s, a).usr1 == s.usr1 && MainStep(s, a).sig == s.sig
  {
  }

  lemma DeafSig(s: State, a: SigAct)
    requires SigEnabled(s, a) && !Killed(SigStep(s, a).main)
    ensures !Killed(s.main)
    ensures SigStep(s, a).usr1 || SigStep(s, a).sig.SExited? <==> s.usr1 || s.sig.SExited?
  {
  }

  lemma DeafMgmt(s: State, a: MgmtAct)
    requires MgmtEnabled(s, a) && !Killed(MgmtStep(s, a).main)
    ensures !Killed(s.main) && MgmtStep(s, a).usr1 == s.usr1 && MgmtStep(s, a).sig == s.sig
  {
  }

  /** Before main sends its own SIGUSR1 the signal thread is on its way out, and
    * so deaf to SIGINT and SIGTERM, exactly when somebody outside has sent one. */
  lemma {:induction false} DeafExactly(ss: seq<State>, es: seq<Event>, i: nat)
    requires IsRun(ss, es) && i < |ss| && !Killed(ss[i].main)
    ensures ss[i].usr1 || ss[i].sig.SExited? <==> OutsideUsr1(es, i)
  {
    if i > 0 {
      DeafStep(ss[i - 1], es[i - 1]);
      DeafExactly(ss, es, i - 1);
    }
  }

  /** The registry outlives the management thread. */
  lemma NoDispatchAfterDestroy(ss: seq<State>, es: seq<Event>, i: nat)
    requires IsRun(ss, es) && i < |ss|
    ensures !ss[i].mgmt.GNone? && !ss[i].mgmt.GExited? ==> ss[i].registry
  {
    RunInv(ss, es, i);
  }

  predicate InRequest(pc: MgmtPc) { pc.GClear? || pc.GLock? || MgmtHolds(pc) || pc.GReply? }

  lemma EntersRequest(s: State)
    requires Enabled(s, G(Shutdown))
    ensures InRequest(Apply(s, G(Shutdown)).mgmt)
  {
  }

  lemma RunWired(ss: seq<State>, es: seq<Event>, i: nat)
    requires IsRun(ss, es) && i < |ss|
    ensures Wired(ss[i])
  {
    RunInv(ss, es, i);
  }

  lemma StaysInRequest(s: State, e: Event)
    requires Wired(s) && Enabled(s, e) && InRequest(s.mgmt)
    requires e != G(Reply)
    ensures InRequest(Apply(s, e).mgmt)
  {
    match e {
      case M(a) => assert !s.main.Launch?;
      case S(_) =>
      case T(_) =>
      case G(_) =>
      case Deliver(_) =>
    }
  }

  lemma {:induction false} AwaitingReply(ss: seq<State>, es: seq<Event>, i: nat, j: nat)
    requires IsRun(ss, es) && i < j < |ss| && es[i] == G(Shutdown)
    requires forall k :: i < k < j ==> es[k] != G(Reply)
    ensures InRequest(ss[j].mgmt)
    decreases j
  {
    assert Enabled(ss[j - 1], es[j - 1]) && ss[j] == Apply(ss[j - 1], es[j - 1]);
    if j == i + 1 {
      EntersRequest(ss[i]);
    } else {
      AwaitingReply(ss, es, i, j - 1);
      RunWired(ss, es, j - 1);
      StaysInRequest(ss[j - 1], es[j - 1]);
    }
  }

  /** The reply to an accepted SHUTDOWN is attempted before the management
    * socket is closed and before main is done. */
  lemma ReplyBeforeClose(ss: seq<State>, es: seq<Event>, i: nat, j: nat)
    requires IsRun(ss, es) && i < j < |ss| && es[i] == G(Shutdown)
    requires ss[j].mgmt.GClose? || ss[j].mgmt.GExited? || ss[j].main.Done?
    ensures exists k :: i < k < j && es[k] == G(Reply)
  {
    RunInv(ss, es, j);
    if forall k :: i < k < j ==> es[k] != G(Reply) {
      AwaitingReply(ss, es, i, j);
    }
  }

  // ------------------------------------------------------------ termination

  /** Steps that wait for the outside. */
  predicate Outside(e: Event) {
    e.Deliver? || e == T(Net) || e == T(TFail) || e == T(Interrupted) || e == G(Datagram) || e == M(Spurious)
  }

  ghost predicate Stuck(s: State) {
    forall e :: Enabled(s, e) ==> Outside(e)
  }

  /** The step of the thread main is, directly or through the mutex, waiting
    * for. */
  function Helper(s: State): Event {
    if s.mtx.BySig? then S(SStep)
    else if s.mtx.ByMgmt? then G(GStep)
    else match s.main
      case Launch => M(Create(true, true))
      case SleepA => S(SStep)
      case JoinSig =>
        if s.sig.SExited? then M(Join) else if s.sig.SWait? then S(TakeUsr1) else S(SStep)
      case JoinTcp =>
        if s.tcp.TExited? then M(Join) else if s.tcp.TPoll? then T(Stop) else T(TStep)
      case JoinMgmt =>
        if s.mgmt.GNone? || s.mgmt.GExited? then M(Join)
        else if s.mgmt.GRecv? then G(Timeout) else if s.mgmt.GDispatch? then G(Plain)
        else if s.mgmt.GReply? then G(Reply) else G(GStep)
      case _ => M(Step)
  }

  lemma HelperEnabled(s: State)
    requires Inv(s) && s.req && !s.main.Done?
    ensures Enabled(s, Helper(s)) && !Outside(Helper(s))
  {
  }

  /** Once a shutdown has been requested the threads never deadlock. */
  lemma NeverStuck(ss: seq<State>, es: seq<Event>, i: nat)
    requires IsRun(ss, es) && i < |ss| && ss[i].req
    ensures Stuck(ss[i]) ==> ss[i].main.Done?
  {
    RunInv(ss, es, i);
    if !ss[i].main.Done? {
      HelperEnabled(ss[i]);
      var e := Helper(ss[i]);
      assert Enabled(ss[i], e) && !Outside(e);
    }
  }

  function MainLeft(pc: MainPc): nat {
    match pc
    case Done => 0 case Cleanup => 1 case JoinMgmt => 2 case JoinTcp => 3 case JoinSig => 4
    case WritePipe => 5 case Kill => 6 case _ => 7
  }

  function SigLeft(pc: SigPc): nat {
    match pc
    case SExited => 0 case SWait => 1
    case SUnlock0 => 2 case SSignal0 => 3 case SReady => 4 case SLock0 => 5
    case SUnlock1 => 2 case SSignal1 => 3 case SReq => 4 case SLock1 => 5
  }

  function TcpLeft(pc: TcpPc): nat {
    match pc
    case TNone => 0 case TExited => 0
    case TClose => 1 case TCheck => 2 case TServe => 3 case TPoll => 4 case TOpen => 5
  }

  function MgmtLeft(pc: MgmtPc): nat {
    match pc
    case GNone => 0 case GExited => 0
    case GClose => 1 case GCheck => 2 case GReply => 3 case GUnlock => 4 case GSignal => 5
    case GReq => 6 case GLock => 7 case GClear => 8 case GDispatch => 9 case GRecv => 10 case GOpen => 11
  }

  /** What is left to do once main has cleared the flag; a pending SIGINT or
    * SIGTERM costs one more round of the signal thread. */
  function Measure(s: State): nat {
    MainLeft(s.main) + SigLeft(s.sig) + (if s.ext then 5 else 0) + TcpLeft(s.tcp) + MgmtLeft(s.mgmt)
  }

  lemma MainDecreases(s: State, a: MainAct)
    requires Closing(s.main) && MainEnabled(s, a)
    ensures var t := MainStep(s, a);
            && Closing(t.main) && MainLeft(t.main) < MainLeft(s.main)
            && t.sig == s.sig && t.ext == s.ext && t.tcp == s.tcp && t.mgmt == s.mgmt
  {
  }

  lemma SigDecreases(s: State, a: SigAct)
    requires Closing(s.main) && SigEnabled(s, a)
    ensures var t := SigStep(s, a);
            && t.main == s.main && t.tcp == s.tcp && t.mgmt == s.mgmt
            && SigLeft(t.sig) + (if t.ext then 5 else 0) < SigLeft(s.sig) + (if s.ext then 5 else 0)
  {
  }

  lemma TcpDecreases(s: State, a: TcpAct)
    requires s.req && TcpEnabled(s, a)
    ensures var t := TcpStep(s, a); t == s.(tcp := t.tcp) && TcpLeft(t.tcp) < TcpLeft(s.tcp)
  {
  }

  lemma MgmtDecreases(s: State, a: MgmtAct)
    requires Closing(s.main) && !s.running && MgmtEnabled(s, a)
    ensures var t := MgmtStep(s, a);
            && t.main == s.main && t.sig == s.sig && t.ext == s.ext && t.tcp == s.tcp
            && MgmtLeft(t.mgmt) < MgmtLeft(s.mgmt)
  {
  }

  lemma ClosingDecreases(s: State, e: Event)
    requires Inv(s) && Closing(s.main) && Enabled(s, e)
    ensures Closing(Apply(s, e).main)
    ensures !e.Deliver? ==> Measure(Apply(s, e)) < Measure(s)
    ensures e.Deliver? ==> Measure(Apply(s, e)) <= Measure(s) + 5
  {
    match e {
      case M(a) => MainDecreases(s, a);
      case S(a) => SigDecreases(s, a);
      case T(a) => TcpDecreases(s, a);
      case G(a) => MgmtDecreases(s, a);
      case Deliver(_) =>
    }
  }

  function Deliveries(es: seq<Event>): nat {
    if es == [] then 0 else (if es[0].Deliver? then 1 else 0) + Deliveries(es[1..])
  }

  ghost predicate Continues(ss: seq<State>, es: seq<Event>) {
    && |ss| == |es| + 1
    && forall i {:trigger es[i]} :: 0 <= i < |es| ==> Enabled(ss[i], es[i]) && ss[i + 1] == Apply(ss[i], es[i])
  }

  /** All joins complete: from the moment main has cleared the flag, the
    * threads take at most `Measure` steps, five more for every signal the
    * outside still delivers, and can stop only when main is done. */
  lemma {:induction false} JoinsComplete(ss: seq<State>, es: seq<Event>)
    requires Continues(ss, es) && Inv(ss[0]) && Closing(ss[0].main)
    ensures |es| - Deliveries(es) <= Measure(ss[0]) + 5 * Deliveries(es)
    ensures Stuck(ss[|es|]) ==> ss[|es|].main.Done?
    decreases |es|
  {
    if es == [] {
      if !ss[0].main.Done? {
        HelperEnabled(ss[0]);
        assert Enabled(ss[0], Helper(ss[0])) && !Outside(Helper(ss[0]));
      }
    } else {
      ClosingDecreases(ss[0], es[0]);
      StepInv(ss[0], es[0]);
      JoinsComplete(ss[1..], es[1..]);
    }
  }

  /** The same for every run of the program, from any such moment on. */
  lemma JoinsCompleteInEveryRun(ss: seq<State>, es: seq<Event>, k: nat)
    requires IsRun(ss, es) && k < |ss| && Closing(ss[k].main)
    ensures |es| - k - Deliveries(es[k..]) <= Measure(ss[k]) + 5 * Deliveries(es[k..])
    ensures Stuck(ss[|es|]) ==> ss[|es|].main.Done?
  {
    RunInv(ss, es, k);
    var tt, ff := ss[k..], es[k..];
    forall i | 0 <= i < |ff| ensures Enabled(tt[i], ff[i]) && tt[i + 1] == Apply(tt[i], ff[i]) {
      assert tt[i] == ss[k + i] && tt[i + 1] == ss[k + i + 1] && ff[i] == es[k + i];
    }
    JoinsComplete(tt, ff);
  }
}
