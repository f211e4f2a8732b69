/** Router's threads over any number of successive runs: start-up purge, event
  * loop, shutdown ladder and joins, with the worker, management and signal
  * threads, the notification queue shared with Collector, and the event queue.
  *
  * QUIT travels through the same bounded queue as Collector's notifications
  * and is told apart by its status id alone. The `origin` of a note is not
  * visible to the program; it is there to state who sent what.
  */
module RouterShutdown {

  const CONNECT_MAX_RETRIES: nat := 5
  const DATA_STATUS: int := 100
  const QUIT_STATUS: int := 2

  /** Room in the notification queue and in the event queue. */
  datatype Config = Config(slots: nat, eventSlots: nat)

  datatype Origin = Collector | Main(run: nat)
  datatype Note = Note(status: int, origin: Origin)

  datatype MainEvent = Signal | Fatal | Other

  datatype MainPc =
    | Purging | Creating
    | Looping
    | SigQuit | SigClose                    // EV_SIGNAL: QUIT, then the pipe
    | FatalClose                            // EV_FATAL: the pipe only
    | FailQuit | FailClose                  // management thread could not be started
    | Leaving | LastClose | LastQuit        // after the loop
    | JoinMgmt | JoinWorker | CancelSig | JoinSig | Cleanup
    | Done

  datatype WorkerPc =
    | NotStarted | Opening
    | Connecting(left: nat) | Pausing(left: nat)
    | Receiving | Reading | Sending
    | PostFatal | PostTerm
    | Exited

  datatype MgmtPc =
    | NoMgmt | MgmtOpen | MgmtCheck | MgmtRecv | MgmtDispatch | MgmtPost | MgmtReply | MgmtClose | MgmtExited

  datatype SigPc = NoSig | SigCheck | SigWait | SigPost | SigExited

  datatype State = State(
    run: nat,
    flag: bool,                 // g_keep_running
    pipeOpen: bool,
    cancel: bool,
    registry: bool,
    q: seq<Note>,
    events: seq<MainEvent>,
    main: MainPc,
    worker: WorkerPc,
    mgmt: MgmtPc,
    sig: SigPc,
    quits: nat,                 // QUITs sent in this run
    taken: nat)                 // QUITs consumed by this run's worker

  datatype MainAct = PurgeOne | PurgeDone | Create(mgmtOk: bool) | Take | RecvError | Go | Quit | Close | Join | Restart
  datatype WorkerAct =
    | SocketFail | SocketOk | ConnectOk | ConnectFail | PauseOver | PauseStop
    | Receive | ReadOk | ReadFail | SendDone | SendBroken | Post
  datatype MgmtAct = OpenOk | OpenFail | Check | Timeout | Request | Shutdown | Plain | PostEvent | Reply | CloseSocket
  datatype SigAct = CheckFlag | Arrive | WaitError | PostSignal | Cancelled
  datatype EnvAct = Collect | ForeignPurge | Kill

  datatype Event = M(m: MainAct) | W(w: WorkerAct) | G(g: MgmtAct) | S(s: SigAct) | E(e: EnvAct)

  function Fresh(run: nat, q: seq<Note>): State {
    State(run, true, true, false, false, q, [], Purging, NotStarted, NoMgmt, NoSig, 0, 0)
  }

  ghost predicate Init(c: Config, s: State) {
    c.slots >= 1 && c.eventSlots >= 1 && s == Fresh(0, [])
  }

  // ------------------------------------------------------------ main thread

  predicate AtQuit(pc: MainPc) { pc.SigQuit? || pc.FailQuit? || pc.LastQuit? }
  predicate AtClose(pc: MainPc) { pc.SigClose? || pc.FatalClose? || pc.FailClose? || pc.LastClose? }

  predicate MainEnabled(c: Config, s: State, a: MainAct) {
    match a
    case PurgeOne => s.main.Purging? && s.q != []
    case PurgeDone => s.main.Purging? && s.q == []
    case Create(_) => s.main.Creating?
    case Take => s.main.Looping? && s.flag && s.events != []
    case RecvError => s.main.Looping? && s.flag
    case Go => (s.main.Looping? && !s.flag) || (s.main.Leaving? || s.main.CancelSig? || s.main.Cleanup?)
    case Quit => AtQuit(s.main) && |s.q| < c.slots
    case Close => AtClose(s.main)
    case Join =>
      || (s.main.JoinMgmt? && (s.mgmt.NoMgmt? || s.mgmt.MgmtExited?))
      || (s.main.JoinWorker? && s.worker.Exited?)
      || (s.main.JoinSig? && s.sig.SigExited?)
    case Restart => s.main.Done?
  }

  function NextMain(s: State, a: MainAct): MainPc {
    match s.main
    case Purging => if a.PurgeDone? then Creating else Purging
    case Creating => if a.Create? && a.mgmtOk then Looping else FailQuit
    case Looping =>
      if a.Take? && s.events != [] then
        (match s.events[0] case Signal => SigQuit case Fatal => FatalClose case Other => Looping)
      else Leaving
    case SigQuit => SigClose
    case SigClose => Looping
    case FatalClose => Looping
    case FailQuit => FailClose
    case FailClose => JoinWorker
    case Leaving => LastClose
    case LastClose => LastQuit
    case LastQuit => JoinMgmt
    case JoinMgmt => JoinWorker
    case JoinWorker => CancelSig
    case CancelSig => JoinSig
    case JoinSig => Cleanup
    case Cleanup => Done
    case Done => Purging
  }

  /** The flag is cleared on a terminating event, when management cannot be
    * started, and once more after the loop. */
  predicate Clears(s: State, next: MainPc) {
    next.SigQuit? || next.FatalClose? || next.FailQuit? || s.main.Leaving?
  }

  function NextQueue(s: State, a: MainAct): seq<Note> {
    if a.PurgeOne? && s.q != [] then s.q[1..]
    else if a.Quit? then s.q + [Note(QUIT_STATUS, Main(s.run))]
    else s.q
  }

  /** What main's step does to each field. */
  function MainStep(c: Config, s: State, a: MainAct): State
    requires MainEnabled(c, s, a)
  {
    var next := NextMain(s, a);
    if a.Restart? then Fresh(s.run + 1, s.q)
    else s.(
      flag := s.flag && !Clears(s, next),
      pipeOpen := s.pipeOpen && !AtClose(s.main),
      cancel := s.cancel || s.main.CancelSig?,
      registry := if a.Create? then true else s.registry && !s.main.Cleanup?,
      q := NextQueue(s, a),
      events := if a.Take? then s.events[1..] else s.events,
      worker := if a.Create? then Opening else s.worker,
      sig := if a.Create? then SigCheck else s.sig,
      mgmt := if a.Create? && a.mgmtOk then MgmtOpen else s.mgmt,
      quits := if a.Quit? then s.quits + 1 else s.quits,
      main := next)
  }

  // ---------------------------------------------------------- worker thread

  predicate WorkerEnabled(c: Config, s: State, a: WorkerAct) {
    match a
    case SocketFail => s.worker.Opening?
    case SocketOk => s.worker.Opening?
    case ConnectOk => s.worker.Connecting?
    case ConnectFail => s.worker.Connecting? && s.worker.left >= 1
    case PauseOver => s.worker.Pausing?
    case PauseStop => s.worker.Pausing? && !s.pipeOpen
    case Receive => s.worker.Receiving? && s.q != []
    case ReadOk => s.worker.Reading?
    case ReadFail => s.worker.Reading?
    case SendDone => s.worker.Sending?
    case SendBroken => s.worker.Sending?
    case Post => (s.worker.PostFatal? || s.worker.PostTerm?) && |s.events| < c.eventSlots
  }

  function NextWorker(s: State, a: WorkerAct): WorkerPc {
    match s.worker
    case NotStarted => NotStarted
    case Opening => if a.SocketFail? then PostFatal else Connecting(CONNECT_MAX_RETRIES)
    case Connecting(left) => if a.ConnectOk? || left == 0 then Receiving else Pausing(left - 1)
    case Pausing(left) => if a.PauseStop? then Exited else if left == 0 then PostFatal else Connecting(left)
    case Receiving => if s.q != [] && s.q[0].status == QUIT_STATUS then Exited else Reading
    case Reading => if a.ReadOk? then Sending else Receiving
    case Sending => if a.SendDone? then Receiving else PostTerm
    case PostFatal => Exited
    case PostTerm => Exited
    case Exited => Exited
  }

  function WorkerStep(c: Config, s: State, a: WorkerAct): State
    requires WorkerEnabled(c, s, a)
  {
    var next := NextWorker(s, a);
    s.(q := if a.Receive? then s.q[1..] else s.q,
       taken := if a.Receive? && next.Exited? then s.taken + 1 else s.taken,
       events := if a.Post? then s.events + [if s.worker.PostFatal? then Fatal else Signal] else s.events,
       worker := next)
  }

  // ------------------------------------- management, signal and environment

  predicate MgmtEnabled(c: Config, s: State, a: MgmtAct) {
    match a
    case OpenOk => s.mgmt.MgmtOpen?
    case OpenFail => s.mgmt.MgmtOpen?
    case Check => s.mgmt.MgmtCheck?
    case Timeout => s.mgmt.MgmtRecv?
    case Request => s.mgmt.MgmtRecv?
    case Shutdown => s.mgmt.MgmtDispatch?
    case Plain => s.mgmt.MgmtDispatch?
    case PostEvent => s.mgmt.MgmtPost? && |s.events| < c.eventSlots
    case Reply => s.mgmt.MgmtReply?
    case CloseSocket => s.mgmt.MgmtClose?
  }

  function NextMgmt(s: State, a: MgmtAct): MgmtPc {
    match s.mgmt
    case NoMgmt => NoMgmt
    case MgmtOpen => if a.OpenOk? then MgmtCheck else MgmtExited
    case MgmtCheck => if s.flag then MgmtRecv else MgmtClose
    case MgmtRecv => if a.Timeout? then MgmtCheck else MgmtDispatch
    case MgmtDispatch => if a.Shutdown? then MgmtPost else MgmtReply
    case MgmtPost => MgmtReply
    case MgmtReply => MgmtCheck
    case MgmtClose => MgmtExited
    case MgmtExited => MgmtExited
  }

  function MgmtStep(c: Config, s: State, a: MgmtAct): State
    requires MgmtEnabled(c, s, a)
  {
    s.(events := if a.PostEvent? then s.events + [Signal] else s.events,
       mgmt := NextMgmt(s, a))
  }

  predicate SigEnabled(c: Config, s: State, a: SigAct) {
    match a
    case CheckFlag => s.sig.SigCheck?
    case Arrive => s.sig.SigWait?
    case WaitError => s.sig.SigWait?
    case PostSignal => s.sig.SigPost? && |s.events| < c.eventSlots
    case Cancelled => s.cancel && (s.sig.SigWait? || s.sig.SigPost?)
  }

  function SigStep(c: Config, s: State, a: SigAct): State
    requires SigEnabled(c, s, a)
  {
    s.(events := if a.PostSignal? then s.events + [Signal] else s.events,
       sig := match a
              case CheckFlag => if s.flag then SigWait else SigExited
              case Arrive => SigPost
              case _ => SigExited)
  }

  /** Collector never blocks: a full queue drops its notification. Router may be
    * killed at any point; the queue and what is in it survive, and the next run
    * starts. */
  predicate EnvEnabled(c: Config, s: State, a: EnvAct) {
    match a
    case Collect => |s.q| < c.slots
    case ForeignPurge => s.q != []
    case Kill => true
  }

  function EnvStep(c: Config, s: State, a: EnvAct): State
    requires EnvEnabled(c, s, a)
  {
    match a
    case Collect => s.(q := s.q + [Note(DATA_STATUS, Collector)])
    case ForeignPurge => s.(q := s.q[1..])
    case Kill => Fresh(s.run + 1, s.q)
  }

  predicate Enabled(c: Config, s: State, e: Event) {
    match e
    case M(a) => MainEnabled(c, s, a)
    case W(a) => WorkerEnabled(c, s, a)
    case G(a) => MgmtEnabled(c, s, a)
    case S(a) => SigEnabled(c, s, a)
    case E(a) => EnvEnabled(c, s, a)
  }

  function Apply(c: Config, s: State, e: Event): State
    requires Enabled(c, s, e)
  {
    match e
    case M(a) => MainStep(c, s, a)
    case W(a) => WorkerStep(c, s, a)
    case G(a) => MgmtStep(c, s, a)
    case S(a) => SigStep(c, s, a)
    case E(a) => EnvStep(c, s, a)
  }

  // ------------------------------------------------------------- invariants

  predicate HasQuit(q: seq<Note>) {
    exists i :: 0 <= i < |q| && q[i].status == QUIT_STATUS
  }

  /** Status ids identify the sender, and past the purge every QUIT queued
    * belongs to the current run. */
  ghost predicate Tagged(s: State) {
    forall i :: 0 <= i < |s.q| ==>
      && (s.q[i].status == QUIT_STATUS <==> s.q[i].origin.Main?)
      && (s.q[i].origin.Main? ==>
            if s.main.Purging? then s.q[i].origin.run < s.run else s.q[i].origin.run == s.run)
  }

  predicate Started(pc: MainPc) { !pc.Purging? && !pc.Creating? }
  predicate MayRun(pc: MainPc) { pc.Purging? || pc.Creating? || pc.Looping? || pc.Leaving? }
  predicate SigJoined(pc: MainPc) { pc.Cleanup? || pc.Done? }
  predicate Cancelling(pc: MainPc) { pc.JoinSig? || SigJoined(pc) }
  predicate WorkerJoined(pc: MainPc) { pc.CancelSig? || Cancelling(pc) }
  predicate MgmtJoined(pc: MainPc) { pc.JoinWorker? || WorkerJoined(pc) }
  predicate PastQuit(pc: MainPc) { pc.JoinMgmt? || MgmtJoined(pc) }
  predicate WorkerLive(pc: WorkerPc) { !pc.NotStarted? && !pc.PostFatal? && !pc.PostTerm? && !pc.Exited? }

  /** Who is alive, and which wake sources are set, at each point of main. */
  ghost predicate Ladder(s: State) {
    && (Started(s.main) <==> !s.worker.NotStarted?)
    && (Started(s.main) <==> !s.sig.NoSig?)
    && (s.flag ==> MayRun(s.main))
    && (s.main.FailQuit? || s.main.FailClose? ==> s.mgmt.NoMgmt?)
    && (PastQuit(s.main) || s.main.LastQuit? ==> !s.pipeOpen)
    && (MgmtJoined(s.main) ==> s.mgmt.NoMgmt? || s.mgmt.MgmtExited?)
    && (WorkerJoined(s.main) ==> s.worker.Exited?)
    && (Cancelling(s.main) ==> s.cancel)
    && (SigJoined(s.main) ==> s.sig.SigExited?)
    && (!Started(s.main) ==> s.mgmt.NoMgmt?)
    && (s.registry <==> Started(s.main) && !s.main.Done?)
  }

  function MaxQuits(s: State): nat {
    match s.main
    case Purging => 0 case Creating => 0
    case Looping => if s.flag then 0 else 1
    case SigQuit => 0 case SigClose => 1 case FatalClose => 0
    case FailQuit => 0 case FailClose => 1
    case Leaving => 1 case LastClose => 1 case LastQuit => 1
    case _ => 2
  }

  ghost predicate Quits(s: State) {
    && s.quits <= MaxQuits(s) && s.taken <= 1
    && (s.taken == 1 ==> s.worker.Exited?)
    && (PastQuit(s.main) || (s.main.SigClose? || s.main.FailClose?) ==> s.quits >= 1)
    && (s.main.Purging? ==> s.quits == 0)
  }

  ghost predicate Inv(c: Config, s: State) {
    && c.slots >= 1 && c.eventSlots >= 1 && |s.q| <= c.slots
    && Tagged(s) && Ladder(s) && Quits(s)
  }

  lemma QuitKept(q: seq<Note>, x: Note)
    ensures HasQuit(q) ==> HasQuit(q + [x])
    ensures x.status == QUIT_STATUS ==> HasQuit(q + [x])
    ensures q != [] && q[0].status != QUIT_STATUS && HasQuit(q) ==> HasQuit(q[1..])
  {
    assert (q + [x])[|q|] == x;
    if HasQuit(q) {
      var i :| 0 <= i < |q| && q[i].status == QUIT_STATUS;
      assert (q + [x])[i] == q[i];
      if i > 0 { assert q[1..][i - 1] == q[i]; }
    }
  }

  lemma MainTagged(c: Config, s: State, a: MainAct)
    requires Inv(c, s) && MainEnabled(c, s, a)
    ensures Tagged(MainStep(c, s, a)) && |MainStep(c, s, a).q| <= c.slots
  {
  }

  lemma MainLadder(c: Config, s: State, a: MainAct)
    requires Ladder(s) && MainEnabled(c, s, a)
    ensures Ladder(MainStep(c, s, a))
  {
  }

  lemma MainQuits(c: Config, s: State, a: MainAct)
    requires Ladder(s) && Quits(s) && MainEnabled(c, s, a)
    ensures Quits(MainStep(c, s, a))
  {
  }

  lemma WorkerInv(c: Config, s: State, a: WorkerAct)
    requires Inv(c, s) && WorkerEnabled(c, s, a)
    ensures Inv(c, WorkerStep(c, s, a))
  {
  }

  lemma MgmtInv(c: Config, s: State, a: MgmtAct)
    requires Inv(c, s) && MgmtEnabled(c, s, a)
    ensures Inv(c, MgmtStep(c, s, a))
  {
    var t := MgmtStep(c, s, a);
    assert t == s.(mgmt := t.mgmt, events := t.events);
  }

  lemma SigInv(c: Config, s: State, a: SigAct)
    requires Inv(c, s) && SigEnabled(c, s, a)
    ensures Inv(c, SigStep(c, s, a))
  {
    var t := SigStep(c, s, a);
    assert t == s.(sig := t.sig, events := t.events);
  }

  lemma EnvInv(c: Config, s: State, a: EnvAct)
    requires Inv(c, s) && EnvEnabled(c, s, a)
    ensures Inv(c, EnvStep(c, s, a))
  {
    assert a.Collect? ==> Note(DATA_STATUS, Collector).status != QUIT_STATUS;
  }

  lemma StepInv(c: Config, s: State, e: Event)
    requires Inv(c, s) && Enabled(c, s, e)
    ensures Inv(c, Apply(c, s, e))
  {
    match e {
      case M(a) => MainTagged(c, s, a); MainLadder(c, s, a); MainQuits(c, s, a);
      case W(a) => WorkerInv(c, s, a);
      case E(a) => EnvInv(c, s, a);
      case G(a) => MgmtInv(c, s, a);
      case S(a) => SigInv(c, s, a);
    }
  }

  ghost predicate IsRun(c: Config, ss: seq<State>, es: seq<Event>) {
    && |ss| == |es| + 1 && Init(c, ss[0])
    && forall i {:trigger es[i]} :: 0 <= i < |es| ==> Enabled(c, ss[i], es[i]) && ss[i + 1] == Apply(c, ss[i], es[i])
  }

  lemma {:induction false} RunInv(c: Config, ss: seq<State>, es: seq<Event>, i: nat)
    requires IsRun(c, ss, es) && i < |ss|
    ensures Inv(c, ss[i])
  {
    if i > 0 {
      RunInv(c, ss, es, i - 1);
      StepInv(c, ss[i - 1], es[i - 1]);
    }
  }

  // --------------------------------------------------------- safety results

  /** Across all runs, whether they ended or were killed: at most two QUITs are sent per run and at most one is
    * consumed; a worker stops on a note exactly when Router's own main sent it
    * in this very run, so neither a notification nor a QUIT left over from an
    * earlier run ever stops a worker. */
  lemma QuitsStayInTheirRun(c: Config, ss: seq<State>, es: seq<Event>, i: nat)
    requires IsRun(c, ss, es) && i < |es|
    ensures ss[i].quits <= 2 && ss[i].taken <= 1
    ensures es[i] == W(Receive) ==>
      (ss[i + 1].worker.Exited? <==> ss[i].q[0].origin == Main(ss[i].run))
  {
    RunInv(c, ss, es, i);
  }

  /** The worker has stopped reading the queue, or a QUIT is in it. */
  ghost predicate Woken(s: State) { WorkerLive(s.worker) ==> HasQuit(s.q) }

  /** Somebody else discards the only QUIT a live worker has to read. */
  ghost predicate Robs(s: State, e: Event) {
    && e == E(ForeignPurge) && WorkerLive(s.worker)
    && s.q != [] && s.q[0].status == QUIT_STATUS && !HasQuit(s.q[1..])
  }

  /** A foreign purge takes away the worker's wake source exactly when the note
    * it discards is the only QUIT queued and the worker is still reading. */
  lemma PurgeRobsExactly(c: Config, s: State)
    requires Woken(s) && Enabled(c, s, E(ForeignPurge))
    ensures Woken(Apply(c, s, E(ForeignPurge))) <==> !Robs(s, E(ForeignPurge))
  {
    QuitKept(s.q, s.q[0]);
  }

  /** One run ends, or was ended, and the next begins. */
  predicate NewRun(e: Event) { e == M(Restart) || e == E(Kill) }

  /** Steps on either side of which the queue holds QUITs of different sendings. */
  predicate NewQuit(e: Event) { e == M(Quit) || NewRun(e) }

  lemma WorkerKeepsQuit(c: Config, s: State, a: WorkerAct)
    requires WorkerEnabled(c, s, a)
    ensures var t := WorkerStep(c, s, a);
            WorkerLive(t.worker) ==> WorkerLive(s.worker) && (HasQuit(t.q) <==> HasQuit(s.q))
  {
    if a.Receive? { QuitKept(s.q, s.q[0]); QuitLost(s.q); }
  }

  lemma EnvKeepsQuit(c: Config, s: State, a: EnvAct)
    requires EnvEnabled(c, s, a) && WorkerLive(s.worker) && a != Kill
    ensures HasQuit(EnvStep(c, s, a).q) <==> HasQuit(s.q) && !Robs(s, E(a))
  {
    if a.Collect? {
      NoQuitAdded(s.q, Note(DATA_STATUS, Collector));
      QuitKept(s.q, Note(DATA_STATUS, Collector));
    } else {
      QuitKept(s.q, s.q[0]);
      QuitLost(s.q);
    }
  }

  lemma MainKeepsQuit(c: Config, s: State, a: MainAct)
    requires Inv(c, s) && MainEnabled(c, s, a) && s.quits >= 1 && a != Quit && a != Restart
    ensures var t := MainStep(c, s, a); t.q == s.q && t.worker == s.worker && t.quits == s.quits
  {
  }

  lemma QuitStep(c: Config, s: State, e: Event)
    requires Inv(c, s) && Enabled(c, s, e) && s.quits >= 1 && !NewQuit(e)
    ensures var t := Apply(c, s, e);
            && t.quits == s.quits && (WorkerLive(t.worker) ==> WorkerLive(s.worker))
            && (WorkerLive(t.worker) ==> (HasQuit(t.q) <==> HasQuit(s.q) && !Robs(s, e)))
  {
    match e {
      case M(a) => MainKeepsQuit(c, s, a);
      case W(a) => WorkerKeepsQuit(c, s, a);
      case E(a) => if WorkerLive(s.worker) { EnvKeepsQuit(c, s, a); }
      case G(_) =>
      case S(_) =>
    }
  }

  lemma QuitLost(q: seq<Note>)
    requires q != []
    ensures HasQuit(q[1..]) ==> HasQuit(q)
  {
    if HasQuit(q[1..]) {
      var i :| 0 <= i < |q[1..]| && q[1..][i].status == QUIT_STATUS;
      assert q[i + 1] == q[1..][i];
    }
  }

  lemma NoQuitAdded(q: seq<Note>, x: Note)
    requires x.status != QUIT_STATUS
    ensures HasQuit(q + [x]) ==> HasQuit(q)
  {
    if HasQuit(q + [x]) {
      var i :| 0 <= i < |q + [x]| && (q + [x])[i].status == QUIT_STATUS;
      assert q[i] == (q + [x])[i];
    }
  }

  ghost predicate RobbedAt(ss: seq<State>, es: seq<Event>, j: nat, i: nat) {
    && j < i <= |es| && j < |ss| && Robs(ss[j], es[j])
    && forall m :: j <= m < i ==> !NewQuit(es[m])
  }

  ghost predicate Robbed(ss: seq<State>, es: seq<Event>, i: nat) {
    exists j: nat :: RobbedAt(ss, es, j, i)
  }

  /** Once a QUIT was sent, a worker still reading has one to read exactly when
    * nobody robbed it since the last one was sent. */
  lemma {:induction false} WokenExactly(c: Config, ss: seq<State>, es: seq<Event>, i: nat)
    requires IsRun(c, ss, es) && i < |ss| && ss[i].quits >= 1
    ensures Woken(ss[i]) <==> !WorkerLive(ss[i].worker) || !Robbed(ss, es, i)
  {
    if i > 0 {
      var s, e := ss[i - 1], es[i - 1];
      RunInv(c, ss, es, i - 1);
      if NewQuit(e) {
        QuitKept(s.q, Note(QUIT_STATUS, Main(s.run)));
        assert !Robbed(ss, es, i);
      } else {
        WokenExactly(c, ss, es, i - 1);
        QuitStep(c, s, e);
        RobbedStep(ss, es, i - 1, i);
      }
    }
  }

  lemma RobbedStep(ss: seq<State>, es: seq<Event>, n: nat, i: nat)
    requires n + 1 == i <= |es| && i <= |ss| && !NewQuit(es[n])
    ensures Robbed(ss, es, i) <==> Robs(ss[n], es[n]) || Robbed(ss, es, n)
  {
    if Robs(ss[n], es[n]) { assert RobbedAt(ss, es, n, i); }
    if Robbed(ss, es, n) {
      var j: nat :| RobbedAt(ss, es, j, n);
      assert RobbedAt(ss, es, j, i);
    }
    if Robbed(ss, es, i) {
      var j: nat :| RobbedAt(ss, es, j, i);
      assert j == n || RobbedAt(ss, es, j, n);
    }
  }

  /** Every thread main is about to wait for has exited or can be woken, unless
    * it was robbed: the worker by a queued QUIT, or in its retry loop by the
    * closed pipe; the signal thread by cancellation; the management thread by
    * the cleared flag. */
  lemma WakeSources(c: Config, ss: seq<State>, es: seq<Event>, i: nat)
    requires IsRun(c, ss, es) && i < |ss| && PastQuit(ss[i].main)
    ensures !ss[i].flag && !ss[i].pipeOpen && (ss[i].main.JoinSig? ==> ss[i].cancel)
    ensures Woken(ss[i]) || Robbed(ss, es, i)
  {
    RunInv(c, ss, es, i);
    WokenExactly(c, ss, es, i);
  }

  /** A request is dispatched only while the registry exists, and Router is
    * done only after every thread it created has exited. */
  lemma NoDispatchAfterDestroy(c: Config, ss: seq<State>, es: seq<Event>, i: nat)
    requires IsRun(c, ss, es) && i < |ss|
    ensures (!ss[i].mgmt.NoMgmt? && !ss[i].mgmt.MgmtExited?) ==> ss[i].registry
    ensures ss[i].main.Done? ==>
      ss[i].worker.Exited? && ss[i].sig.SigExited? && (ss[i].mgmt.NoMgmt? || ss[i].mgmt.MgmtExited?)
  {
    RunInv(c, ss, es, i);
  }

  lemma StaysInRequest(c: Config, s: State, e: Event)
    requires Ladder(s) && Enabled(c, s, e) && e != G(Reply) && e != E(Kill)
    requires s.mgmt.MgmtPost? || s.mgmt.MgmtReply?
    ensures Apply(c, s, e).mgmt.MgmtPost? || Apply(c, s, e).mgmt.MgmtReply?
  {
  }

  /** Between accepting SHUTDOWN and its reply the management thread stays
    * inside that one request. */
  lemma {:induction false} AwaitingReply(c: Config, ss: seq<State>, es: seq<Event>, i: nat, j: nat)
    requires IsRun(c, ss, es) && i < j < |ss| && es[i] == G(Shutdown)
    requires forall k :: i < k < j ==> es[k] != G(Reply) && es[k] != E(Kill)
    ensures ss[j].mgmt.MgmtPost? || ss[j].mgmt.MgmtReply?
    decreases j
  {
    if j > i + 1 {
      AwaitingReply(c, ss, es, i, j - 1);
      RunInv(c, ss, es, j - 1);
      StaysInRequest(c, ss[j - 1], es[j - 1]);
    }
  }

  /** The reply to an accepted SHUTDOWN is attempted before the management
    * socket is closed and before the registry is destroyed. */
  lemma ReplyBeforeClose(c: Config, ss: seq<State>, es: seq<Event>, i: nat, j: nat)
    requires IsRun(c, ss, es) && i < j < |es| && es[i] == G(Shutdown)
    requires forall k :: i < k < j ==> es[k] != E(Kill)
    requires es[j] == G(CloseSocket) || !ss[j].registry
    ensures exists k :: i < k < j && es[k] == G(Reply)
  {
    RunInv(c, ss, es, j);
    if forall k :: i < k < j ==> es[k] != G(Reply) {
      AwaitingReply(c, ss, es, i, j);
    }
  }

  // ------------------------------------------------------------ termination

  /** Main has posted its last QUIT and only joins and cleanup remain. */
  predicate Ending(s: State) {
    PastQuit(s.main) && !s.main.Done?
  }

  predicate RouterStep(e: Event) { !e.E? && e != M(Restart) }

  /** Steps that wait for the outside: a signal, an error or a request. */
  predicate Outside(e: Event) { e == S(Arrive) || e == S(WaitError) || e == G(Request) }

  /** Threads that may still post to the event queue nobody empties any more. */
  function Posters(s: State): nat {
    (if s.worker.NotStarted? || s.worker.Exited? then 0 else 1) +
    (if s.mgmt.MgmtRecv? || s.mgmt.MgmtDispatch? || s.mgmt.MgmtPost? then 1 else 0) +
    (if s.sig.SigWait? || s.sig.SigPost? then 1 else 0)
  }

  predicate Room(c: Config, s: State) {
    |s.events| + Posters(s) <= c.eventSlots
  }

  /** Notes ahead of the last QUIT queued. */
  ghost function Ahead(q: seq<Note>): nat {
    if q == [] || !HasQuit(q[1..]) then 0 else 1 + Ahead(q[1..])
  }

  lemma {:induction false} AheadAppend(q: seq<Note>, x: Note)
    requires HasQuit(q) && x.status != QUIT_STATUS
    ensures Ahead(q + [x]) == Ahead(q)
  {
    assert (q + [x])[1..] == q[1..] + [x];
    QuitKept(q[1..], x);
    NoQuitAdded(q[1..], x);
    if HasQuit(q[1..]) { AheadAppend(q[1..], x); }
  }

  ghost function WorkerLeft(q: seq<Note>, pc: WorkerPc): nat {
    var ahead := 4 * Ahead(q);
    match pc
    case NotStarted => 0
    case Exited => 0
    case PostFatal => 1
    case PostTerm => 1
    case Receiving => ahead + 2
    case Sending => ahead + 4
    case Reading => ahead + 5
    case Connecting(left) => ahead + 3 + 2 * left
    case Pausing(left) => ahead + 4 + 2 * left
    case Opening => ahead + 4 + 2 * CONNECT_MAX_RETRIES
  }

  function MgmtLeft(pc: MgmtPc): nat {
    match pc
    case NoMgmt => 0 case MgmtExited => 0
    case MgmtClose => 1 case MgmtCheck => 2 case MgmtOpen => 3
    case MgmtReply => 3 case MgmtPost => 4 case MgmtDispatch => 5 case MgmtRecv => 6
  }

  function SigLeft(pc: SigPc): nat {
    match pc case NoSig => 0 case SigExited => 0 case SigPost => 1 case SigWait => 2 case SigCheck => 3
  }

  function MainLeft(pc: MainPc): nat {
    match pc
    case Done => 0 case Cleanup => 1 case JoinSig => 2 case CancelSig => 3
    case JoinWorker => 4 case JoinMgmt => 5 case LastQuit => 6 case LastClose => 7 case Leaving => 8
    case Looping => 9 case SigClose => 10 case FatalClose => 10 case SigQuit => 11
    case FailClose => 5 case FailQuit => 6
    case Creating => 12 case Purging => 13
  }

  /** Retries left plus messages ahead of the last QUIT, with what the other
    * threads and main still have to do. */
  ghost function Measure(s: State): nat {
    MainLeft(s.main) + WorkerLeft(s.q, s.worker) + MgmtLeft(s.mgmt) + SigLeft(s.sig)
  }

  lemma WorkerDecreases(c: Config, s: State, a: WorkerAct)
    requires Inv(c, s) && Ending(s) && Woken(s) && WorkerEnabled(c, s, a)
    ensures var t := WorkerStep(c, s, a);
            && t.main == s.main && t.mgmt == s.mgmt && t.sig == s.sig
            && WorkerLeft(t.q, t.worker) < WorkerLeft(s.q, s.worker)
            && (Room(c, s) ==> Room(c, t))
  {
    if a.Receive? { ReceiveDecreases(s); }
  }

  lemma ReceiveDecreases(s: State)
    requires Woken(s) && s.worker.Receiving? && s.q != []
    ensures WorkerLeft(s.q[1..], NextWorker(s, Receive)) < WorkerLeft(s.q, s.worker)
  {
    QuitKept(s.q, s.q[0]);
  }

  lemma MgmtDecreases(c: Config, s: State, a: MgmtAct)
    requires !s.flag && MgmtEnabled(c, s, a)
    ensures var t := MgmtStep(c, s, a);
            && t == s.(mgmt := t.mgmt, events := t.events)
            && MgmtLeft(t.mgmt) < MgmtLeft(s.mgmt)
            && (Room(c, s) ==> Room(c, t))
  {
  }

  lemma SigDecreases(c: Config, s: State, a: SigAct)
    requires !s.flag && SigEnabled(c, s, a)
    ensures var t := SigStep(c, s, a);
            && t == s.(sig := t.sig, events := t.events)
            && SigLeft(t.sig) < SigLeft(s.sig)
            && (Room(c, s) ==> Room(c, t))
  {
  }

  lemma MainDecreases(c: Config, s: State, a: MainAct)
    requires Ending(s) && MainEnabled(c, s, a)
    ensures var t := MainStep(c, s, a);
            && t.q == s.q && t.worker == s.worker && t.mgmt == s.mgmt && t.sig == s.sig
            && t.events == s.events
            && PastQuit(t.main) && MainLeft(t.main) < MainLeft(s.main)
  {
  }

  lemma EnvDecreases(c: Config, s: State, a: EnvAct)
    requires Woken(s) && EnvEnabled(c, s, a) && !Robs(s, E(a)) && a != Kill
    ensures var t := EnvStep(c, s, a);
            && t == s.(q := t.q) && WorkerLeft(t.q, t.worker) <= WorkerLeft(s.q, s.worker)
            && (a.Collect? ==> WorkerLeft(t.q, t.worker) == WorkerLeft(s.q, s.worker))
  {
    if WorkerLive(s.worker) {
      if a.Collect? {
        AheadAppend(s.q, Note(DATA_STATUS, Collector));
      } else {
        QuitKept(s.q, s.q[0]);
      }
    }
  }

  lemma EndingDecreases(c: Config, s: State, e: Event)
    requires Inv(c, s) && Ending(s) && Woken(s) && Room(c, s)
    requires Enabled(c, s, e) && !NewRun(e) && !Robs(s, e)
    ensures var t := Apply(c, s, e);
            && PastQuit(t.main) && Woken(t) && Room(c, t)
            && (RouterStep(e) ==> Measure(t) < Measure(s))
            && (e.E? ==> Measure(t) <= Measure(s)) && (e == E(Collect) ==> Measure(t) == Measure(s))
  {
    QuitStep(c, s, e);
    match e {
      case W(a) => WorkerDecreases(c, s, a);
      case G(a) => MgmtDecreases(c, s, a);
      case S(a) => SigDecreases(c, s, a);
      case M(a) => MainDecreases(c, s, a);
      case E(a) => EnvDecreases(c, s, a);
    }
  }

  /** The thread main is waiting for can step. */
  lemma EndingCanStep(c: Config, s: State) returns (e: Event)
    requires Inv(c, s) && Ending(s) && Woken(s) && Room(c, s)
    ensures RouterStep(e) && !Outside(e) && Enabled(c, s, e)
  {
    match s.main {
      case JoinMgmt =>
        match s.mgmt {
          case MgmtOpen => e := G(OpenFail);
          case MgmtCheck => e := G(Check);
          case MgmtRecv => e := G(Timeout);
          case MgmtDispatch => e := G(Plain);
          case MgmtPost => e := G(PostEvent);
          case MgmtReply => e := G(Reply);
          case MgmtClose => e := G(CloseSocket);
          case _ => e := M(Join);
        }
      case JoinWorker =>
        match s.worker {
          case Opening => e := W(SocketFail);
          case Connecting(_) => e := W(ConnectOk);
          case Pausing(_) => e := W(PauseStop);
          case Receiving => e := W(Receive);
          case Reading => e := W(ReadFail);
          case Sending => e := W(SendDone);
          case PostFatal => e := W(Post);
          case PostTerm => e := W(Post);
          case _ => e := M(Join);
        }
      case JoinSig =>
        match s.sig {
          case SigCheck => e := S(CheckFlag);
          case SigWait => e := S(Cancelled);
          case SigPost => e := S(Cancelled);
          case _ => e := M(Join);
        }
      case _ => e := M(Go);
    }
  }

  /** A state from which no thread of Router can step by itself. */
  ghost predicate Stuck(c: Config, s: State) {
    forall e :: RouterStep(e) && !Outside(e) ==> !Enabled(c, s, e)
  }

  function RouterSteps(es: seq<Event>): nat {
    if es == [] then 0 else (if RouterStep(es[0]) then 1 else 0) + RouterSteps(es[1..])
  }

  /** States `ss` visited by `es` from any state, without a restart and without
    * anybody robbing the worker of its QUIT. */
  ghost predicate Continues(c: Config, ss: seq<State>, es: seq<Event>) {
    && |ss| == |es| + 1
    && forall i {:trigger es[i]} :: 0 <= i < |es| ==>
         && !NewRun(es[i]) && !Robs(ss[i], es[i])
         && Enabled(c, ss[i], es[i]) && ss[i + 1] == Apply(c, ss[i], es[i])
  }

  lemma EndingStep(c: Config, s: State, e: Event)
    requires Inv(c, s) && Woken(s) && Ending(s) && Room(c, s)
    requires Enabled(c, s, e) && !NewRun(e) && !Robs(s, e)
    ensures var t := Apply(c, s, e);
            && Inv(c, t) && Woken(t) && PastQuit(t.main) && Room(c, t)
            && Measure(t) + (if RouterStep(e) then 1 else 0) <= Measure(s)
  {
    EndingDecreases(c, s, e);
    StepInv(c, s, e);
  }

  /** Shutdown never sticks: once the last QUIT is queued and the event queue
    * has room for what the other threads may still post, Router's threads take
    * at most `Measure` further steps however much Collector keeps appending
    * or purging, and they stop only when everything has been joined. */
  lemma {:induction false} ShutdownCompletes(c: Config, ss: seq<State>, es: seq<Event>)
    requires Continues(c, ss, es) && Inv(c, ss[0])
    requires PastQuit(ss[0].main) && Woken(ss[0]) && Room(c, ss[0])
    ensures RouterSteps(es) <= Measure(ss[0])
    ensures Stuck(c, ss[|es|]) ==> ss[|es|].main.Done?
    decreases |es|
  {
    if ss[0].main.Done? {
      StaysDone(c, ss, es);
    } else if es == [] {
      var e := EndingCanStep(c, ss[0]);
      assert RouterStep(e) && !Outside(e) && Enabled(c, ss[0], e);
    } else {
      EndingStep(c, ss[0], es[0]);
      ShutdownCompletes(c, ss[1..], es[1..]);
    }
  }

  lemma {:induction false} StaysDone(c: Config, ss: seq<State>, es: seq<Event>)
    requires Continues(c, ss, es) && Inv(c, ss[0]) && ss[0].main.Done?
    ensures ss[|es|].main.Done? && RouterSteps(es) == 0
    decreases |es|
  {
    if es != [] {
      StepInv(c, ss[0], es[0]);
      StaysDone(c, ss[1..], es[1..]);
    }
  }

  /** The same for every run of the whole system, from any point at which main
    * has passed its last QUIT. */
  lemma ShutdownNeverSticks(c: Config, ss: seq<State>, es: seq<Event>, k: nat)
    requires IsRun(c, ss, es) && k < |ss|
    requires PastQuit(ss[k].main) && Woken(ss[k]) && Room(c, ss[k])
    requires forall i :: k <= i < |es| ==> !NewRun(es[i]) && !Robs(ss[i], es[i])
    ensures RouterSteps(es[k..]) <= Measure(ss[k])
    ensures Stuck(c, ss[|es|]) ==> ss[|es|].main.Done?
  {
    RunInv(c, ss, es, k);
    var tt, ff := ss[k..], es[k..];
    forall i | 0 <= i < |ff|
      ensures !NewRun(ff[i]) && !Robs(tt[i], ff[i])
      ensures Enabled(c, tt[i], ff[i]) && tt[i + 1] == Apply(c, tt[i], ff[i])
    {
      assert tt[i] == ss[k + i] && tt[i + 1] == ss[k + i + 1] && ff[i] == es[k + i];
    }
    ShutdownCompletes(c, tt, ff);
  }

  // ------------------------------------------------- exactly when it can stick

  predicate EventsFull(c: Config, s: State) { |s.events| >= c.eventSlots }

  predicate WorkerIdle(c: Config, s: State) {
    || s.worker.Exited?
    || (s.worker.Receiving? && s.q == [])
    || ((s.worker.PostFatal? || s.worker.PostTerm?) && EventsFull(c, s))
  }

  predicate MgmtIdle(c: Config, s: State) {
    || (s.mgmt.NoMgmt? || s.mgmt.MgmtExited?)
    || (s.mgmt.MgmtPost? && EventsFull(c, s))
  }

  predicate SigIdle(c: Config, s: State) {
    || s.sig.SigExited?
    || (!s.cancel && (s.sig.SigWait? || (s.sig.SigPost? && EventsFull(c, s))))
  }

  /** Main cannot go on by itself: its QUIT finds no room, or the thread it
    * joins has not exited. */
  predicate MainIdle(c: Config, s: State) {
    || (AtQuit(s.main) && |s.q| >= c.slots)
    || (s.main.JoinMgmt? && (!s.mgmt.NoMgmt? && !s.mgmt.MgmtExited?))
    || (s.main.JoinWorker? && !s.worker.Exited?)
    || (s.main.JoinSig? && !s.sig.SigExited?)
  }

  predicate Shutting(s: State) {
    (!s.main.Purging? && !s.main.Creating? && !s.main.Done?) && (s.main.Looping? ==> !s.flag)
  }

  /** Shutdown sticks in exactly three ways, and nowhere else: a QUIT that finds
    * the queue full after the worker has stopped draining it, a thread that is
    * being joined while it waits for room in the event queue, and a worker being
    * joined while it waits at an empty queue. */
  lemma SticksExactly(c: Config, s: State)
    requires Inv(c, s) && Shutting(s)
    ensures Stuck(c, s) <==>
      && WorkerIdle(c, s) && MgmtIdle(c, s) && SigIdle(c, s)
      && (|| (AtQuit(s.main) && |s.q| >= c.slots)
          || (s.main.JoinMgmt? && s.mgmt.MgmtPost?)
          || (s.main.JoinWorker? && !s.worker.Exited?))
  {
    WorkerIdleExactly(c, s);
    MgmtSigIdleExactly(c, s);
    MainIdleExactly(c, s);
    StuckByThread(c, s);
  }

  /** The last of the three happens only to a worker that was robbed. */
  lemma EmptyQueueMeansRobbed(c: Config, ss: seq<State>, es: seq<Event>, i: nat)
    requires IsRun(c, ss, es) && i < |ss| && ss[i].main.JoinWorker? && ss[i].worker.Receiving? && ss[i].q == []
    ensures Robbed(ss, es, i)
  {
    RunInv(c, ss, es, i);
    WokenExactly(c, ss, es, i);
  }

  lemma StuckByThread(c: Config, s: State)
    ensures Stuck(c, s) <==>
      && (forall a :: a != Restart ==> !MainEnabled(c, s, a))
      && (forall a :: !WorkerEnabled(c, s, a))
      && (forall a :: a != Request ==> !MgmtEnabled(c, s, a))
      && (forall a: SigAct :: !a.Arrive? && !a.WaitError? ==> !SigEnabled(c, s, a))
  {
    if Stuck(c, s) {
      forall a | a != Restart ensures !MainEnabled(c, s, a) { assert !Enabled(c, s, M(a)); }
      forall a ensures !WorkerEnabled(c, s, a) { assert !Enabled(c, s, W(a)); }
      forall a | a != Request ensures !MgmtEnabled(c, s, a) { assert !Enabled(c, s, G(a)); }
      forall a: SigAct | !a.Arrive? && !a.WaitError? ensures !SigEnabled(c, s, a) { assert !Enabled(c, s, S(a)); }
    }
  }

  lemma WorkerIdleExactly(c: Config, s: State)
    requires Inv(c, s) && Shutting(s)
    ensures WorkerIdle(c, s) <==> forall a :: !WorkerEnabled(c, s, a)
  {
    match s.worker {
      case Opening => assert WorkerEnabled(c, s, SocketOk);
      case Connecting(_) => assert WorkerEnabled(c, s, ConnectOk);
      case Pausing(_) => assert WorkerEnabled(c, s, PauseOver);
      case Receiving => assert WorkerEnabled(c, s, Receive) <==> s.q != [];
      case Reading => assert WorkerEnabled(c, s, ReadOk);
      case Sending => assert WorkerEnabled(c, s, SendDone);
      case PostFatal => assert WorkerEnabled(c, s, Post) <==> !EventsFull(c, s);
      case PostTerm => assert WorkerEnabled(c, s, Post) <==> !EventsFull(c, s);
      case _ =>
    }
  }

  lemma MgmtSigIdleExactly(c: Config, s: State)
    requires Inv(c, s) && Shutting(s)
    ensures MgmtIdle(c, s) <==> forall a :: a != Request ==> !MgmtEnabled(c, s, a)
    ensures SigIdle(c, s) <==> forall a: SigAct :: !a.Arrive? && !a.WaitError? ==> !SigEnabled(c, s, a)
  {
    match s.mgmt {
      case MgmtOpen => assert MgmtEnabled(c, s, OpenOk);
      case MgmtCheck => assert MgmtEnabled(c, s, Check);
      case MgmtRecv => assert MgmtEnabled(c, s, Timeout);
      case MgmtDispatch => assert MgmtEnabled(c, s, Plain);
      case MgmtReply => assert MgmtEnabled(c, s, Reply);
      case MgmtClose => assert MgmtEnabled(c, s, CloseSocket);
      case _ => assert MgmtEnabled(c, s, PostEvent) <==> s.mgmt.MgmtPost? && !EventsFull(c, s);
    }
    match s.sig {
      case SigCheck => assert SigEnabled(c, s, CheckFlag);
      case SigWait => assert SigEnabled(c, s, Cancelled) <==> s.cancel;
      case SigPost =>
        assert SigEnabled(c, s, PostSignal) <==> !EventsFull(c, s);
        assert SigEnabled(c, s, Cancelled) <==> s.cancel;
      case _ =>
    }
  }

  lemma MainIdleExactly(c: Config, s: State)
    requires Inv(c, s) && Shutting(s)
    ensures MainIdle(c, s) <==> forall a :: a != Restart ==> !MainEnabled(c, s, a)
  {
    assert MainEnabled(c, s, Quit) <==> AtQuit(s.main) && |s.q| < c.slots;
    assert MainEnabled(c, s, Close) <==> AtClose(s.main);
    assert MainEnabled(c, s, Go) <==> (s.main.Looping? || s.main.Leaving? || s.main.CancelSig? || s.main.Cleanup?);
    assert MainEnabled(c, s, Join) || !(
      || (s.main.JoinMgmt? && (s.mgmt.NoMgmt? || s.mgmt.MgmtExited?))
      || (s.main.JoinWorker? && s.worker.Exited?)
      || (s.main.JoinSig? && s.sig.SigExited?));
  }

  lemma Extend(c: Config, ss: seq<State>, es: seq<Event>, e: Event)
    returns (ss': seq<State>, es': seq<Event>)
    requires IsRun(c, ss, es) && Enabled(c, ss[|es|], e)
    ensures IsRun(c, ss', es') && es' == es + [e] && ss'[|es'|] == Apply(c, ss[|es|], e)
  {
    es', ss' := es + [e], ss + [Apply(c, ss[|es|], e)];
    forall i | 0 <= i < |es'| ensures Enabled(c, ss'[i], es'[i]) && ss'[i + 1] == Apply(c, ss'[i], es'[i]) {
      if i < |es| { assert ss'[i] == ss[i] && ss'[i + 1] == ss[i + 1] && es'[i] == es[i]; }
    }
  }

  lemma Created(c: Config) returns (ss: seq<State>, es: seq<Event>)
    requires c.slots >= 1 && c.eventSlots >= 1
    ensures IsRun(c, ss, es)
    ensures ss[|es|] == Fresh(0, []).(
      main := Looping, worker := Opening, mgmt := MgmtOpen, sig := SigCheck, registry := true)
  {
    ss, es := [Fresh(0, [])], [];
    ss, es := Extend(c, ss, es, M(PurgeDone));
    ss, es := Extend(c, ss, es, M(Create(true)));
  }

  /** Router in its loop, connected, its management socket having failed. */
  lemma Connected(c: Config) returns (ss: seq<State>, es: seq<Event>)
    requires c.slots >= 1 && c.eventSlots >= 1
    ensures IsRun(c, ss, es)
    ensures ss[|es|] == Fresh(0, []).(
      main := Looping, worker := Receiving, mgmt := MgmtExited, sig := SigWait, registry := true)
  {
    ss, es := Created(c);
    ss, es := Extend(c, ss, es, W(SocketOk));
    ss, es := Extend(c, ss, es, W(ConnectOk));
    ss, es := Extend(c, ss, es, S(CheckFlag));
    ss, es := Extend(c, ss, es, G(OpenFail));
  }

  lemma Closed(c: Config) returns (ss: seq<State>, es: seq<Event>)
    requires c.slots >= 1 && c.eventSlots >= 1
    ensures IsRun(c, ss, es)
    ensures ss[|es|] == State(0, false, false, false, true, [], [],
                              LastQuit, Receiving, MgmtExited, SigWait, 0, 0)
  {
    ss, es := Connected(c);
    ss, es := Extend(c, ss, es, M(RecvError));
    ss, es := Extend(c, ss, es, M(Go));
    ss, es := Extend(c, ss, es, M(Close));
  }

  lemma Joining(c: Config) returns (ss: seq<State>, es: seq<Event>)
    requires c.slots >= 1 && c.eventSlots >= 1
    ensures IsRun(c, ss, es)
    ensures ss[|es|] == State(0, false, false, false, true, [Note(QUIT_STATUS, Main(0))], [],
                              JoinWorker, Receiving, MgmtExited, SigWait, 1, 0)
  {
    ss, es := Closed(c);
    ss, es := Extend(c, ss, es, M(Quit));
    ss, es := Extend(c, ss, es, M(Join));
  }

  /** A Collector that starts while Router is shutting down discards the QUIT
    * and the join never returns. */
  lemma ForeignPurgeSticks(c: Config) returns (ss: seq<State>, es: seq<Event>)
    requires c.slots >= 1 && c.eventSlots >= 1
    ensures IsRun(c, ss, es) && es != [] && es[|es| - 1] == E(ForeignPurge)
    ensures ss[|es|].main.JoinWorker? && ss[|es|].worker.Receiving? && Stuck(c, ss[|es|])
  {
    ss, es := Joining(c);
    ss, es := Extend(c, ss, es, E(ForeignPurge));
    StuckByThread(c, ss[|es|]);
  }

  /** Collector can always fill the queue. */
  lemma Fill(c: Config, ss: seq<State>, es: seq<Event>)
    returns (ss': seq<State>, es': seq<Event>, q: seq<Note>)
    requires IsRun(c, ss, es) && |ss[|es|].q| <= c.slots
    ensures IsRun(c, ss', es') && ss'[|es'|] == ss[|es|].(q := q) && |q| == c.slots
    decreases c.slots - |ss[|es|].q|
  {
    ss', es', q := ss, es, ss[|es|].q;
    if |q| < c.slots {
      ss', es' := Extend(c, ss, es, E(Collect));
      ss', es', q := Fill(c, ss', es');
    }
  }

  /** Router in its loop, connected, its management thread serving. */
  lemma Managed(c: Config) returns (ss: seq<State>, es: seq<Event>)
    requires c.slots >= 1 && c.eventSlots >= 1
    ensures IsRun(c, ss, es)
    ensures ss[|es|] == Fresh(0, []).(
      main := Looping, worker := Opening, mgmt := MgmtCheck, sig := SigWait, registry := true)
  {
    ss, es := Created(c);
    ss, es := Extend(c, ss, es, S(CheckFlag));
    ss, es := Extend(c, ss, es, G(OpenOk));
  }

  /** One SHUTDOWN request up to the event it has to post. */
  lemma Asked(c: Config, ss: seq<State>, es: seq<Event>) returns (ss': seq<State>, es': seq<Event>)
    requires IsRun(c, ss, es) && ss[|es|].mgmt.MgmtCheck? && ss[|es|].flag
    ensures IsRun(c, ss', es') && ss'[|es'|] == ss[|es|].(mgmt := MgmtPost)
  {
    ss', es' := Extend(c, ss, es, G(Check));
    ss', es' := Extend(c, ss', es', G(Request));
    ss', es' := Extend(c, ss', es', G(Shutdown));
  }

  ghost predicate Signals(events: seq<MainEvent>) { forall i :: 0 <= i < |events| ==> events[i] == Signal }

  /** Requests can fill the event queue while main takes nothing from it. */
  lemma FillEvents(c: Config, ss: seq<State>, es: seq<Event>)
    returns (ss': seq<State>, es': seq<Event>, events: seq<MainEvent>)
    requires IsRun(c, ss, es) && ss[|es|].mgmt.MgmtCheck? && ss[|es|].flag
    requires |ss[|es|].events| <= c.eventSlots && Signals(ss[|es|].events)
    ensures IsRun(c, ss', es') && ss'[|es'|] == ss[|es|].(events := events)
    ensures |events| == c.eventSlots && Signals(events)
    decreases c.eventSlots - |ss[|es|].events|
  {
    ss', es', events := ss, es, ss[|es|].events;
    if |events| < c.eventSlots {
      ss', es' := Asked(c, ss, es);
      ss', es' := Extend(c, ss', es', G(PostEvent));
      ss', es' := Extend(c, ss', es', G(Reply));
      ss', es', events := FillEvents(c, ss', es');
    }
  }

  /** The event queue is full, one more SHUTDOWN waits for room in it, and main
    * has taken the first event but a signal has filled the place. */
  lemma Crowded(c: Config) returns (ss: seq<State>, es: seq<Event>, events: seq<MainEvent>)
    requires c.slots >= 1 && c.eventSlots >= 1
    ensures IsRun(c, ss, es) && |events| == c.eventSlots
    ensures ss[|es|] == Fresh(0, []).(flag := false, events := events,
      main := SigQuit, worker := Receiving, mgmt := MgmtPost, sig := SigExited, registry := true)
  {
    ss, es := Managed(c);
    ss, es, events := FillEvents(c, ss, es);
    ss, es := Asked(c, ss, es);
    ss, es := Crowd(c, ss, es);
    events := ss[|es|].events;
  }

  lemma Crowd(c: Config, ss: seq<State>, es: seq<Event>) returns (ss': seq<State>, es': seq<Event>)
    requires IsRun(c, ss, es)
    requires var s := ss[|es|];
             && s.main.Looping? && s.flag && s.worker.Opening? && s.sig.SigWait?
             && |s.events| == c.eventSlots >= 1 && Signals(s.events)
    ensures IsRun(c, ss', es')
    ensures ss'[|es'|] == ss[|es|].(flag := false, events := ss[|es|].events[1..] + [Signal],
                                    main := SigQuit, worker := Receiving, sig := SigExited)
  {
    ss', es' := Extend(c, ss, es, W(SocketOk));
    ss', es' := Extend(c, ss', es', W(ConnectOk));
    ss', es' := Extend(c, ss', es', M(Take));
    ss', es' := Extend(c, ss', es', S(Arrive));
    ss', es' := Extend(c, ss', es', S(PostSignal));
  }

  /** Main closes the pipe and posts its last QUIT. */
  lemma Finish(c: Config, ss: seq<State>, es: seq<Event>) returns (ss': seq<State>, es': seq<Event>)
    requires IsRun(c, ss, es) && ss[|es|].main.LastClose? && |ss[|es|].q| < c.slots
    ensures IsRun(c, ss', es')
    ensures var s, t := ss[|es|], ss'[|es'|];
            t == s.(main := JoinMgmt, pipeOpen := false, q := t.q, quits := t.quits)
  {
    ss', es' := Extend(c, ss, es, M(Close));
    ss', es' := Extend(c, ss', es', M(Quit));
  }

  /** Main posts a QUIT, the worker leaves on it, and main goes on. */
  lemma QuitTaken(c: Config, ss: seq<State>, es: seq<Event>) returns (ss': seq<State>, es': seq<Event>)
    requires IsRun(c, ss, es) && c.slots >= 1
    requires var s := ss[|es|]; s.main.SigQuit? && s.worker.Receiving? && s.q == []
    ensures IsRun(c, ss', es')
    ensures var s, t := ss[|es|], ss'[|es'|];
            t == s.(main := Looping, worker := Exited, pipeOpen := false, quits := t.quits, taken := t.taken)
  {
    ss', es' := Extend(c, ss, es, M(Quit));
    ss', es' := Extend(c, ss', es', W(Receive));
    ss', es' := Extend(c, ss', es', M(Close));
  }

  /** From its QUIT on to the first join, with the worker leaving on the way. */
  lemma ToJoin(c: Config, ss: seq<State>, es: seq<Event>) returns (ss': seq<State>, es': seq<Event>)
    requires IsRun(c, ss, es) && c.slots >= 1
    requires var s := ss[|es|]; s.main.SigQuit? && !s.flag && s.worker.Receiving? && s.q == []
    ensures IsRun(c, ss', es')
    ensures var s, t := ss[|es|], ss'[|es'|];
            t == s.(main := JoinMgmt, worker := Exited, pipeOpen := false, q := t.q,
                    quits := t.quits, taken := t.taken)
  {
    ss', es' := QuitTaken(c, ss, es);
    ss', es' := Extend(c, ss', es', M(Go));
    ss', es' := Extend(c, ss', es', M(Go));
    ss', es' := Finish(c, ss', es');
  }

  /** The management thread waits for room in an event queue main no longer
    * empties, and main waits for the management thread. */
  lemma FullEventsStick(c: Config) returns (ss: seq<State>, es: seq<Event>)
    requires c.slots >= 1 && c.eventSlots >= 1
    ensures IsRun(c, ss, es)
    ensures ss[|es|].main.JoinMgmt? && ss[|es|].mgmt.MgmtPost? && Stuck(c, ss[|es|])
  {
    var events;
    ss, es, events := Crowded(c);
    ss, es := ToJoin(c, ss, es);
    StuckByThread(c, ss[|es|]);
  }

  /** A worker that could not open its socket waits for room there likewise. */
  lemma FullEventsStickWorker(c: Config) returns (ss: seq<State>, es: seq<Event>)
    requires c.slots >= 1 && c.eventSlots >= 1
    ensures IsRun(c, ss, es)
    ensures ss[|es|].main.JoinWorker? && ss[|es|].worker.PostFatal? && Stuck(c, ss[|es|])
  {
    ss, es := Managed(c);
    var events;
    ss, es, events := FillEvents(c, ss, es);
    ss, es := Extend(c, ss, es, W(SocketFail));
    ss, es := Extend(c, ss, es, M(RecvError));
    ss, es := Extend(c, ss, es, M(Go));
    ss, es := Abandoned(c, ss, es);
    StuckByThread(c, ss[|es|]);
  }

  lemma Abandoned(c: Config, ss: seq<State>, es: seq<Event>) returns (ss': seq<State>, es': seq<Event>)
    requires IsRun(c, ss, es) && c.slots >= 1
    requires var s := ss[|es|]; s.main.LastClose? && !s.flag && s.mgmt.MgmtCheck? && s.q == []
    ensures IsRun(c, ss', es')
    ensures var s, t := ss[|es|], ss'[|es'|];
            t == s.(main := JoinWorker, mgmt := MgmtExited, pipeOpen := false, q := t.q, quits := t.quits)
  {
    ss', es' := Extend(c, ss, es, G(Check));
    ss', es' := Extend(c, ss', es', G(CloseSocket));
    ss', es' := Finish(c, ss', es');
    ss', es' := Extend(c, ss', es', M(Join));
  }

  /** The worker has left on a broken connection and main is about to say so. */
  lemma Broken(c: Config) returns (ss: seq<State>, es: seq<Event>)
    requires c.slots >= 1 && c.eventSlots >= 1
    ensures IsRun(c, ss, es)
    ensures ss[|es|] == Fresh(0, []).(
      main := Looping, worker := Exited, mgmt := MgmtExited, sig := SigWait, registry := true, events := [Signal])
  {
    ss, es := Connected(c);
    ss, es := Extend(c, ss, es, E(Collect));
    ss, es := Extend(c, ss, es, W(Receive));
    ss, es := Extend(c, ss, es, W(ReadOk));
    ss, es := Extend(c, ss, es, W(SendBroken));
    ss, es := Extend(c, ss, es, W(Post));
  }

  /** With the queue filled by Collector, a worker that leaves on a broken
    * connection leaves main blocked on its QUIT for good. */
  lemma FullQueueSticks(c: Config) returns (ss: seq<State>, es: seq<Event>)
    requires c.slots >= 1 && c.eventSlots >= 1
    ensures IsRun(c, ss, es)
    ensures ss[|es|].main.SigQuit? && ss[|es|].worker.Exited? && Stuck(c, ss[|es|])
  {
    ss, es := Broken(c);
    ss, es := Extend(c, ss, es, M(Take));
    var q;
    ss, es, q := Fill(c, ss, es);
    StuckByThread(c, ss[|es|]);
  }
}
