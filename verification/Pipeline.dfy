/** The data path from Collector to Router.
  *
  * Collector overwrites the register and then posts a notification to a
  * bounded queue without blocking; a full queue drops it. Router takes a
  * notification and relays whatever the register holds by then. The register
  * is atomic (see `SharedRegister`), so a write and a read are one step each.
  */
module Pipeline {
  import opened CText
  import opened Relay

  /** Room in the notification queue, the text the register keeps of a
    * datagram, and the line composed from that text. Everything below holds
    * for any two such functions; `RelayedExactly` fills in the program's. */
  datatype Config = Config(slots: nat, store: string -> string, compose: string -> string)

  /** A notification carries the number of the write that queued it, which
    * the program does not see; QUIT shares the queue. */
  datatype Note = Data(origin: nat) | Quit

  datatype CollectorPc = Polling | Got(datagram: string) | Written

  datatype RouterPc =
    | Waiting
    | Holding(origin: nat)                          // notification taken, register not read
    | Loaded(origin: nat, idx: nat, text: string)   // register read, holding write number idx
    | Exited

  datatype SendResult = Sent | Transient | Broken

  /** One `send`: which notification it answers, which write it carries. */
  datatype Attempt = Attempt(origin: nat, idx: nat, line: string, ok: bool)

  datatype State = State(
    datagrams: seq<string>,       // one per completed write; write number i is datagrams[i - 1]
    slot: string,
    q: seq<Note>,
    col: CollectorPc,
    rtr: RouterPc,
    attempts: seq<Attempt>,
    queued: nat,
    consumed: nat,
    purged: nat,
    taken: nat,                   // origin of the notification taken last
    readIdx: nat)                 // number of the write read last

  datatype Event =
    | Receive(datagram: string)
    | WriteOk
    | WriteFail
    | Notify
    | NotifyError                 // msgsnd failed although the queue had room
    | Pop
    | ReadOk
    | ReadFail
    | Send(result: SendResult)
    | PostQuit
    | Purge                       // a starting process discards the oldest message

  ghost predicate Init(c: Config, s: State) {
    && c.slots >= 1
    && s == State([], [], [], Polling, Waiting, [], 0, 0, 0, 0, 0)
  }

  predicate Enabled(c: Config, s: State, e: Event) {
    match e
    case Receive(d) => s.col.Polling? && d != []
    case WriteOk => s.col.Got?
    case WriteFail => s.col.Got?
    case Notify => s.col.Written?
    case NotifyError => s.col.Written?
    case Pop => s.rtr.Waiting? && s.q != []
    case ReadOk => s.rtr.Holding?
    case ReadFail => s.rtr.Holding?
    case Send(_) => s.rtr.Loaded?
    case PostQuit => |s.q| < c.slots
    case Purge => s.q != []
  }

  function Apply(c: Config, s: State, e: Event): State
    requires Enabled(c, s, e)
  {
    var n := |s.datagrams|;
    match e
    case Receive(d) => s.(col := Got(d))
    case WriteOk =>
      s.(datagrams := s.datagrams + [s.col.datagram], slot := c.store(s.col.datagram), col := Written)
    case WriteFail => s.(col := Polling)
    case Notify =>
      if |s.q| < c.slots
      then s.(q := s.q + [Data(n)], queued := s.queued + 1, col := Polling)
      else s.(col := Polling)
    case NotifyError => s.(col := Polling)
    case Pop =>
      (match s.q[0]
       case Data(origin) =>
         s.(q := s.q[1..], consumed := s.consumed + 1, taken := origin, rtr := Holding(origin))
       case Quit => s.(q := s.q[1..], rtr := Exited))
    case ReadOk => s.(rtr := Loaded(s.rtr.origin, n, s.slot), readIdx := n)
    case ReadFail => s.(rtr := Waiting)
    case Send(result) =>
      var a := Attempt(s.rtr.origin, s.rtr.idx, c.compose(s.rtr.text), result.Sent?);
      s.(attempts := s.attempts + [a], rtr := if result.Broken? then Exited else Waiting)
    case PostQuit => s.(q := s.q + [Quit])
    case Purge => s.(q := s.q[1..], purged := s.purged + if s.q[0].Data? then 1 else 0)
  }

  // ------------------------------------------------------------- vocabulary

  predicate HasData(q: seq<Note>) {
    exists i :: 0 <= i < |q| && q[i].Data?
  }

  /** The run is being shut down: a QUIT is queued or Router has left. */
  predicate Quitting(s: State) {
    s.rtr.Exited? || Quit in s.q
  }

  /** The latest write has not been read and nothing will make Router read. */
  predicate Lost(s: State) {
    && s.readIdx < |s.datagrams|
    && !HasData(s.q) && !s.rtr.Holding? && !s.col.Written? && !Quitting(s)
  }

  /** The only ways to lose the latest write, each a failure at the one
    * message that still stood for it. A full queue is not among them. */
  predicate Loses(s: State, e: Event) {
    && s.readIdx < |s.datagrams| && !s.rtr.Exited?
    && match e
       case ReadFail => s.q == [] && !s.col.Written?
       case NotifyError => s.q == [] && !s.rtr.Holding?
       case Purge => |s.q| == 1 && !s.rtr.Holding? && !s.col.Written?
       case _ => false
  }

  function CountData(q: seq<Note>): nat {
    if q == [] then 0 else (if q[0].Data? then 1 else 0) + CountData(q[1..])
  }

  lemma {:induction false} CountSnoc(q: seq<Note>, x: Note)
    ensures CountData(q + [x]) == CountData(q) + if x.Data? then 1 else 0
  {
    if q == [] {
      assert q + [x] == [x];
    } else {
      CountSnoc(q[1..], x);
      assert (q + [x])[1..] == q[1..] + [x];
    }
  }

  function OkCount(a: seq<Attempt>): (n: nat)
    ensures n <= |a|
  {
    if a == [] then 0 else (if a[|a| - 1].ok then 1 else 0) + OkCount(a[..|a| - 1])
  }

  // -------------------------------------------------------------- invariant

  /** No notification stands for a write that has not queued one yet. */
  function Top(s: State): int {
    if s.col.Written? then |s.datagrams| - 1 else |s.datagrams|
  }

  ghost predicate QueueInv(s: State) {
    && 0 <= s.taken <= Top(s)
    && (forall i :: 0 <= i < |s.q| && s.q[i].Data? ==> s.taken < s.q[i].origin <= Top(s))
    && (forall i, j :: 0 <= i < j < |s.q| && s.q[i].Data? && s.q[j].Data? ==> s.q[i].origin < s.q[j].origin)
  }

  ghost predicate CountInv(s: State) {
    && s.queued == s.consumed + s.purged + CountData(s.q)
    && |s.attempts| + (if s.rtr.Holding? || s.rtr.Loaded? then 1 else 0) <= s.consumed
    && s.queued <= Top(s)
  }

  ghost predicate SlotInv(c: Config, s: State)
  {
    && s.slot == (if s.datagrams == [] then [] else c.store(s.datagrams[|s.datagrams| - 1]))
    && s.readIdx <= |s.datagrams|
    && (s.rtr.Holding? ==> 1 <= s.rtr.origin == s.taken)
    && (s.rtr.Loaded? ==>
          && 1 <= s.rtr.origin == s.taken <= s.rtr.idx == s.readIdx
          && s.rtr.text == c.store(s.datagrams[s.rtr.idx - 1]))
  }

  ghost predicate Answers(c: Config, s: State, a: Attempt)
  {
    && 1 <= a.origin <= a.idx <= s.readIdx <= |s.datagrams|
    && a.line == c.compose(c.store(s.datagrams[a.idx - 1]))
    && a.origin <= s.taken
    && (s.rtr.Holding? || s.rtr.Loaded? ==> a.origin < s.taken)
  }

  ghost predicate InOrder(a: seq<Attempt>) {
    forall j, k :: 0 <= j < k < |a| ==> a[j].origin < a[k].origin && a[j].idx <= a[k].idx
  }

  ghost predicate AttemptInv(c: Config, s: State)
  {
    && (forall k :: 0 <= k < |s.attempts| ==> Answers(c, s, s.attempts[k]))
    && InOrder(s.attempts)
    && (s.readIdx > 0 && !s.rtr.Loaded? ==>
          s.attempts != [] && s.attempts[|s.attempts| - 1].idx == s.readIdx)
  }

  ghost predicate Inv(c: Config, s: State) {
    && c.slots >= 1 && |s.q| <= c.slots
    && QueueInv(s) && CountInv(s) && SlotInv(c, s) && AttemptInv(c, s)
  }

  lemma StepQueue(c: Config, s: State, e: Event)
    requires |s.q| <= c.slots && QueueInv(s) && Enabled(c, s, e)
    ensures QueueInv(Apply(c, s, e))
  {
  }

  lemma StepCounts(c: Config, s: State, e: Event)
    requires QueueInv(s) && CountInv(s) && Enabled(c, s, e)
    ensures CountInv(Apply(c, s, e))
  {
    match e {
      case Notify => CountSnoc(s.q, Data(|s.datagrams|));
      case PostQuit => CountSnoc(s.q, Quit);
      case _ =>
    }
  }

  lemma StepSlot(c: Config, s: State, e: Event)
    requires Inv(c, s) && Enabled(c, s, e)
    ensures SlotInv(c, Apply(c, s, e))
  {
  }

  lemma StepAnswers(c: Config, s: State, e: Event, a: Attempt)
    requires Inv(c, s) && Enabled(c, s, e) && Answers(c, s, a)
    ensures Answers(c, Apply(c, s, e), a)
  {
  }

  lemma SendAttempts(c: Config, s: State, result: SendResult)
    requires Inv(c, s) && s.rtr.Loaded?
    ensures AttemptInv(c, Apply(c, s, Send(result)))
  {
    var e := Send(result);
    var s' := Apply(c, s, e);
    var n := |s.attempts|;
    forall k | 0 <= k < |s'.attempts| ensures Answers(c, s', s'.attempts[k]) {
      if k < n { StepAnswers(c, s, e, s.attempts[k]); }
    }
    forall k | 0 <= k < n
      ensures s.attempts[k].origin < s'.attempts[n].origin && s.attempts[k].idx <= s'.attempts[n].idx
    {
      assert Answers(c, s, s.attempts[k]);
    }
  }

  lemma StepAttempts(c: Config, s: State, e: Event)
    requires Inv(c, s) && Enabled(c, s, e)
    ensures AttemptInv(c, Apply(c, s, e))
  {
    if e.Send? {
      SendAttempts(c, s, e.result);
    } else {
      var s' := Apply(c, s, e);
      assert s'.attempts == s.attempts;
      forall k | 0 <= k < |s'.attempts| ensures Answers(c, s', s'.attempts[k]) {
        StepAnswers(c, s, e, s.attempts[k]);
      }
    }
  }

  lemma StepInv(c: Config, s: State, e: Event)
    requires Inv(c, s) && Enabled(c, s, e)
    ensures Inv(c, Apply(c, s, e))
  {
    StepQueue(c, s, e);
    StepCounts(c, s, e);
    StepSlot(c, s, e);
    StepAttempts(c, s, e);
  }

  /** The latest write is lost in one step from a sound state exactly when the
    * step is one of the named failures. */
  lemma LossExactly(c: Config, s: State, e: Event)
    requires Inv(c, s) && Enabled(c, s, e) && !Lost(s)
    ensures Lost(Apply(c, s, e)) <==> Loses(s, e)
  {
    var s' := Apply(c, s, e);
    match e {
      case Notify =>
        if |s.q| < c.slots {
          assert s'.q[|s.q|].Data?;
        } else {
          assert s.q[0].Data? || s.q[0] == Quit;
        }
      case PostQuit =>
        assert s'.q[|s.q|] == Quit;
      case Purge =>
        assert s.q[0].Data? || s.q[0] == Quit;
        assert forall i :: 0 <= i < |s'.q| ==> s'.q[i] == s.q[i + 1];
        assert |s.q| > 1 ==> s'.q[0].Data? || s'.q[0] == Quit;
      case Pop =>
        assert s.q[0].Data? || s.q[0] == Quit;
        assert forall i :: 0 <= i < |s'.q| ==> s'.q[i] == s.q[i + 1];
      case _ =>
    }
  }

  lemma StaysLost(c: Config, s: State, e: Event)
    requires Inv(c, s) && Enabled(c, s, e) && Lost(s)
    ensures Lost(Apply(c, s, e)) ==> |Apply(c, s, e).datagrams| == |s.datagrams|
  {
  }

  // ------------------------------------------------------------------- runs

  ghost predicate IsRun(c: Config, ss: seq<State>, es: seq<Event>) {
    && |ss| == |es| + 1 && Init(c, ss[0])
    && forall i {:trigger es[i]} :: 0 <= i < |es| ==> Enabled(c, ss[i], es[i]) && ss[i + 1] == Apply(c, ss[i], es[i])
  }

  lemma {:induction false} RunInv(c: Config, ss: seq<State>, es: seq<Event>, i: nat)
    requires IsRun(c, ss, es) && i < |ss|
    ensures Inv(c, ss[i])
  {
    if i > 0 {
      RunInv(c, ss, es, i - 1);
      StepInv(c, ss[i - 1], es[i - 1]);
    }
  }

  /** The last value is never lost: in every reachable state an unread latest
    * write still has a notification queued, taken or about to be posted, or a
    * QUIT is on its way, unless one of the named failures hit that very write.
    * Dropping a notification at a full queue is always harmless. */
  lemma {:induction false} LastValueNeverLost(c: Config, ss: seq<State>, es: seq<Event>, i: nat)
    requires IsRun(c, ss, es) && i < |ss|
    ensures Lost(ss[i]) ==>
      exists j :: 0 <= j < i && Loses(ss[j], es[j]) && |ss[j].datagrams| == |ss[i].datagrams|
  {
    if i > 0 && Lost(ss[i]) {
      RunInv(c, ss, es, i - 1);
      if Lost(ss[i - 1]) {
        LastValueNeverLost(c, ss, es, i - 1);
        StaysLost(c, ss[i - 1], es[i - 1]);
      } else {
        LossExactly(c, ss[i - 1], es[i - 1]);
        assert Loses(ss[i - 1], es[i - 1]);
      }
    }
  }

  /** Written, its notification about to be posted. */
  lemma OneWrite(c: Config, d: string) returns (ss: seq<State>, es: seq<Event>)
    requires c.slots >= 1 && d != []
    ensures IsRun(c, ss, es) && es == [Receive(d), WriteOk] && |ss| == 3
    ensures ss[2] == State([d], c.store(d), [], Written, Waiting, [], 0, 0, 0, 0, 0)
  {
    var s0 := State([], [], [], Polling, Waiting, [], 0, 0, 0, 0, 0);
    es := [Receive(d), WriteOk];
    var s1 := Apply(c, s0, es[0]);
    ss := [s0, s1, Apply(c, s1, es[1])];
    assert ss[2].datagrams == [d];
  }

  lemma Extend(c: Config, ss: seq<State>, es: seq<Event>, e: Event) returns (ss': seq<State>, es': seq<Event>)
    requires IsRun(c, ss, es) && Enabled(c, ss[|es|], e)
    ensures es' == es + [e] && ss' == ss + [Apply(c, ss[|es|], e)] && IsRun(c, ss', es')
  {
    es', ss' := es + [e], ss + [Apply(c, ss[|es|], e)];
    forall i | 0 <= i < |es'| ensures Enabled(c, ss'[i], es'[i]) && ss'[i + 1] == Apply(c, ss'[i], es'[i]) {
      if i < |es| { assert ss'[i] == ss[i] && ss'[i + 1] == ss[i + 1] && es'[i] == es[i]; }
    }
  }

  /** Each of the three failures does lose a datagram, whatever the queue's size
    * and the datagram: a failed read, a failed notification, a purge. */
  lemma EachFailureLoses(c: Config, d: string, e: Event) returns (ss: seq<State>, es: seq<Event>)
    requires c.slots >= 1 && d != [] && (e.ReadFail? || e.NotifyError? || e.Purge?)
    ensures IsRun(c, ss, es) && es != [] && es[|es| - 1] == e
    ensures Loses(ss[|es| - 1], e) && Lost(ss[|es|]) && ss[|es|].datagrams == [d]
  {
    ss, es := OneWrite(c, d);
    if !e.NotifyError? {
      ss, es := Extend(c, ss, es, Notify);
      if e.ReadFail? { ss, es := Extend(c, ss, es, Pop); }
    }
    ss, es := Extend(c, ss, es, e);
  }

  /** At rest: nothing queued, nobody in the middle of anything. */
  predicate AtRest(s: State) {
    s.q == [] && s.col.Polling? && s.rtr.Waiting?
  }

  /** The last send carried the latest datagram. */
  predicate LatestWasSent(c: Config, s: State) {
    && s.datagrams != [] && s.attempts != []
    && var a := s.attempts[|s.attempts| - 1];
       a.idx == |s.datagrams| && a.line == c.compose(c.store(s.datagrams[|s.datagrams| - 1]))
  }

  lemma RestDelivers(c: Config, s: State)
    requires Inv(c, s) && AtRest(s) && s.datagrams != []
    ensures LatestWasSent(c, s) <==> !Lost(s)
  {
    if !Lost(s) {
      assert s.readIdx == |s.datagrams|;
      assert Answers(c, s, s.attempts[|s.attempts| - 1]);
    } else if s.attempts != [] {
      assert Answers(c, s, s.attempts[|s.attempts| - 1]);
    }
  }

  /** Nothing unread can be read before the next write. */
  predicate Unreadable(s: State) {
    s.readIdx < |s.datagrams| && !HasData(s.q) && !s.rtr.Holding? && !s.col.Written?
  }

  lemma UnreadableStays(c: Config, s: State, e: Event)
    requires Unreadable(s) && Enabled(c, s, e) && |Apply(c, s, e).datagrams| == |s.datagrams|
    ensures Unreadable(Apply(c, s, e))
  {
    var s' := Apply(c, s, e);
    if e.Pop? || e.Purge? {
      assert !s.q[0].Data?;
      assert forall i :: 0 <= i < |s'.q| ==> s'.q[i] == s.q[i + 1];
    }
  }

  lemma {:induction false} DatagramsGrow(c: Config, ss: seq<State>, es: seq<Event>, j: nat, i: nat)
    requires IsRun(c, ss, es) && j <= i < |ss|
    ensures |ss[j].datagrams| <= |ss[i].datagrams|
    decreases i
  {
    if j < i {
      DatagramsGrow(c, ss, es, j, i - 1);
      assert ss[i] == Apply(c, ss[i - 1], es[i - 1]);
    }
  }

  lemma {:induction false} LossIsFinal(c: Config, ss: seq<State>, es: seq<Event>, j: nat, i: nat)
    requires IsRun(c, ss, es) && j < i < |ss| && Loses(ss[j], es[j]) && |ss[j].datagrams| == |ss[i].datagrams|
    ensures Unreadable(ss[i])
    decreases i
  {
    if i == j + 1 {
      RunInv(c, ss, es, j);
      if !Lost(ss[j]) { LossExactly(c, ss[j], es[j]); } else { UnreadableStays(c, ss[j], es[j]); }
    } else {
      DatagramsGrow(c, ss, es, j, i - 1);
      DatagramsGrow(c, ss, es, i - 1, i);
      LossIsFinal(c, ss, es, j, i - 1);
      UnreadableStays(c, ss[i - 1], es[i - 1]);
    }
  }

  /** When everything has come to rest, the last send carried the latest datagram
    * exactly when no failure hit the latest write. */
  lemma LastValueDelivered(c: Config, ss: seq<State>, es: seq<Event>, i: nat)
    requires IsRun(c, ss, es) && i < |ss| && AtRest(ss[i]) && ss[i].datagrams != []
    ensures LatestWasSent(c, ss[i]) <==>
      forall j :: 0 <= j < i && |ss[j].datagrams| == |ss[i].datagrams| ==> !Loses(ss[j], es[j])
  {
    LastValueNeverLost(c, ss, es, i);
    RunInv(c, ss, es, i);
    RestDelivers(c, ss[i]);
    forall j | 0 <= j < i && |ss[j].datagrams| == |ss[i].datagrams| && Loses(ss[j], es[j])
      ensures Lost(ss[i])
    {
      LossIsFinal(c, ss, es, j, i);
    }
  }

  /** Freshness and order: a send carries a write no older than the one whose
    * notification it answers, writes never go backwards, and no notification
    * is answered twice. */
  lemma FreshAndOrdered(c: Config, ss: seq<State>, es: seq<Event>, i: nat, j: nat, k: nat)
    requires IsRun(c, ss, es) && i < |ss| && j <= k < |ss[i].attempts|
    ensures var a, b := ss[i].attempts[j], ss[i].attempts[k];
            && 1 <= b.origin <= b.idx <= |ss[i].datagrams|
            && b.line == c.compose(c.store(ss[i].datagrams[b.idx - 1]))
            && (j < k ==> a.origin < b.origin && a.idx <= b.idx)
  {
    RunInv(c, ss, es, i);
    assert Answers(c, ss[i], ss[i].attempts[k]);
  }

  /** Conservation: every notification is queued, taken or discarded, and
    * forwards, sends, notifications and writes only get more numerous. */
  lemma Conservation(c: Config, ss: seq<State>, es: seq<Event>, i: nat)
    requires IsRun(c, ss, es) && i < |ss|
    ensures var s := ss[i];
            && s.queued == s.consumed + s.purged + CountData(s.q)
            && OkCount(s.attempts) <= |s.attempts| <= s.consumed <= s.queued <= |s.datagrams|
  {
    RunInv(c, ss, es, i);
  }

  lemma RunAnswers(c: Config, ss: seq<State>, es: seq<Event>, i: nat, k: nat)
    requires IsRun(c, ss, es) && i < |ss| && k < |ss[i].attempts|
    ensures Answers(c, ss[i], ss[i].attempts[k])
  {
    RunInv(c, ss, es, i);
  }

  /** The program itself, over a register of `cap` bytes. */
  function Program(slots: nat, cap: nat): Config
    requires cap >= 1
  {
    Config(slots, d => Stored(d, cap), text => Line(text, cap))
  }

  /** Every line sent is the prefix, a datagram's payload as far as the register
    * holds it, and a newline, for a datagram at least as recent as the one that
    * raised the notification; over the System V register it is all of the
    * payload. */
  lemma RelayedExactly(slots: nat, cap: nat, ss: seq<State>, es: seq<Event>, i: nat, k: nat)
    requires 1 <= cap <= MAX_PAYLOAD_SIZE
    requires IsRun(Program(slots, cap), ss, es) && i < |ss| && k < |ss[i].attempts|
    ensures var a := ss[i].attempts[k];
            && 1 <= a.origin <= a.idx <= |ss[i].datagrams|
            && var p := Payload(ss[i].datagrams[a.idx - 1]);
               && a.line == "[TCP-RELAY] " + Cut(p, cap) + "\n"
               && (cap == MAX_PAYLOAD_SIZE ==> Cut(p, cap) == p)
  {
    RunAnswers(Program(slots, cap), ss, es, i, k);
    RelayedLine(ss[i].datagrams[ss[i].attempts[k].idx - 1], cap);
  }

  // --------------------------------------------------------------- progress

  predicate RouterStep(e: Event) {
    e.Pop? || e.ReadOk? || e.ReadFail? || e.Send?
  }

  function Backlog(s: State): nat {
    3 * |s.q| + match s.rtr case Holding(_) => 2 case Loaded(_, _, _) => 1 case _ => 0
  }

  /** While Router has not left, it can step until nothing is queued, and each
    * of its steps shortens the backlog. */
  lemma RouterDrains(c: Config, s: State)
    requires !s.rtr.Exited?
    ensures Backlog(s) > 0 <==> exists e :: RouterStep(e) && Enabled(c, s, e)
    ensures forall e :: RouterStep(e) && Enabled(c, s, e) ==> Backlog(Apply(c, s, e)) < Backlog(s)
  {
    match s.rtr {
      case Waiting => if s.q != [] { assert RouterStep(Pop) && Enabled(c, s, Pop); }
      case Holding(_) => assert RouterStep(ReadOk) && Enabled(c, s, ReadOk);
      case Loaded(_, _, _) => assert RouterStep(Send(Sent)) && Enabled(c, s, Send(Sent));
    }
  }
}
