/** The shared-memory register: one status word and one message buffer behind
  * a process-shared mutex, used by any number of processes.
  *
  * The model is a transition system at the granularity of single stores: a
  * write stores the status, then the message byte by byte, then the
  * terminator; a read loads the status, then the message byte by byte. A
  * process may die between any two of these, in particular while it holds the
  * mutex. The same system, at two capacities, covers both back ends.
  */
module SharedRegister {
  import opened CText

  type Pid = nat

  /** A C string argument. */
  type CString = s: string | NulFree(s) witness ""

  /** `robust` is the conditionally compiled PTHREAD_MUTEX_ROBUST branch. */
  datatype Config = Config(cap: nat, robust: bool)

  const SYSV_CAP: nat := 1024
  const POSIX_CAP: nat := 256

  datatype Mutex =
    | Free
    | Held(owner: Pid, consistent: bool)
    | OwnerDead
    | NotRecoverable

  datatype Op = WriteOp(status: int, text: CString) | ReadOp

  datatype Pc =
    | Idle
    | Recovering(op: Op)                                // EOWNERDEAD, not yet marked consistent
    | WriteStatus(status: int, text: CString)
    | WriteBytes(status: int, text: CString, k: nat)    // k bytes stored
    | ReadStatus
    | ReadBytes(status: int, acc: string)
    | Unlocking
    | Dead

  /** What happened to the register, in the order it took effect. */
  datatype Entry =
    | Wrote(status: int, text: CString)
    | Got(status: int, value: string)
    | Torn                                              // died between the first and last store

  datatype State = State(
    mutex: Mutex,
    status: int,
    buf: string,
    pcs: map<Pid, Pc>,
    log: seq<Entry>)

  datatype Event = Lock(p: Pid, op: Op) | Advance(p: Pid) | Crash(p: Pid)

  function At(s: State, p: Pid): Pc {
    if p in s.pcs then s.pcs[p] else Idle
  }

  predicate Inside(pc: Pc) {
    !pc.Idle? && !pc.Dead?
  }

  ghost predicate Init(c: Config, s: State) {
    && c.cap >= 1
    && s.mutex == Free && s.status == 0 && s.pcs == map[] && s.log == []
    && |s.buf| == c.cap && (forall i :: 0 <= i < c.cap ==> s.buf[i] == NUL)
  }

  // ---------------------------------------------------------------- steps

  /** A lock on a mutex whose owner died succeeds only in a robust build. */
  predicate Lockable(c: Config, m: Mutex) {
    m.Free? || (m.OwnerDead? && c.robust)
  }

  predicate Enabled(c: Config, s: State, e: Event) {
    match e
    case Lock(p, _) => At(s, p).Idle? && Lockable(c, s.mutex)
    case Advance(p) => Inside(At(s, p))
    case Crash(p) => !At(s, p).Dead?
  }

  function Begin(op: Op): Pc {
    match op
    case WriteOp(status, text) => WriteStatus(status, text)
    case ReadOp => ReadStatus
  }

  /** Unlocking a mutex that was never made consistent ruins it for good. */
  function Unlocked(m: Mutex): Mutex {
    if m.Held? && m.consistent then Free else NotRecoverable
  }

  function Apply(c: Config, s: State, e: Event): State
    requires c.cap >= 1 && |s.buf| == c.cap
  {
    match e
    case Lock(p, op) =>
      if s.mutex.Free?
      then s.(mutex := Held(p, true), pcs := s.pcs[p := Begin(op)])
      else s.(mutex := Held(p, false), pcs := s.pcs[p := Recovering(op)])
    case Advance(p) => Advanced(c, s, p)
    case Crash(p) =>
      var pc := At(s, p);
      s.(mutex := if Inside(pc) then OwnerDead else s.mutex,
         log := if pc.WriteBytes? then s.log + [Torn] else s.log,
         pcs := s.pcs[p := Dead])
  }

  function Advanced(c: Config, s: State, p: Pid): State
    requires c.cap >= 1 && |s.buf| == c.cap
  {
    match At(s, p)
    case Recovering(op) => s.(mutex := Held(p, true), pcs := s.pcs[p := Begin(op)])
    case WriteStatus(status, text) =>
      s.(status := status, pcs := s.pcs[p := WriteBytes(status, text, 0)])
    case WriteBytes(status, text, k) =>
      var t := Cut(text, c.cap);
      if k < |t| then
        s.(buf := s.buf[k := t[k]], pcs := s.pcs[p := WriteBytes(status, text, k + 1)])
      else
        s.(buf := s.buf[|t| := NUL], pcs := s.pcs[p := Unlocking],
           log := s.log + [Wrote(status, text)])
    case ReadStatus => s.(pcs := s.pcs[p := ReadBytes(s.status, [])])
    case ReadBytes(status, acc) =>
      if |acc| < c.cap - 1 && s.buf[|acc|] != NUL then
        s.(pcs := s.pcs[p := ReadBytes(status, acc + [s.buf[|acc|]])])
      else
        s.(pcs := s.pcs[p := Unlocking], log := s.log + [Got(status, acc)])
    case Unlocking => s.(mutex := Unlocked(s.mutex), pcs := s.pcs[p := Idle])
    case Idle => s
    case Dead => s
  }

  // ------------------------------------------------- the sequential register

  datatype Value = Known(status: int, text: string) | Unknown

  /** The register's value after a history: the last completed write, cut to
    * the buffer; unknown from a torn write until the next completed one. */
  ghost function Current(c: Config, log: seq<Entry>): Value
    requires c.cap >= 1
  {
    if log == [] then Known(0, [])
    else match log[|log| - 1]
      case Wrote(status, text) => Known(status, Cut(text, c.cap))
      case Got(_, _) => Current(c, log[..|log| - 1])
      case Torn => Unknown
  }

  /** Every read returns the value of the sequential register at its place. */
  ghost predicate Legal(c: Config, log: seq<Entry>)
    requires c.cap >= 1
  {
    forall i :: 0 <= i < |log| && log[i].Got? ==>
      Current(c, log[..i]) in {Unknown, Known(log[i].status, log[i].value)}
  }

  lemma LegalSnoc(c: Config, log: seq<Entry>, x: Entry)
    requires c.cap >= 1 && Legal(c, log)
    requires x.Got? ==> Current(c, log) in {Unknown, Known(x.status, x.value)}
    ensures Legal(c, log + [x])
    ensures x.Wrote? ==> Current(c, log + [x]) == Known(x.status, Cut(x.text, c.cap))
    ensures x.Got? ==> Current(c, log + [x]) == Current(c, log)
    ensures x.Torn? ==> Current(c, log + [x]) == Unknown
  {
    var l := log + [x];
    assert l[..|log|] == log;
    forall i | 0 <= i < |l| && l[i].Got?
      ensures Current(c, l[..i]) in {Unknown, Known(l[i].status, l[i].value)}
    {
      if i < |log| { assert l[..i] == log[..i]; }
    }
  }

  // -------------------------------------------------------------- invariant

  /** At most one process is past the lock, and it is the mutex's owner. */
  ghost predicate Exclusive(s: State) {
    && !s.mutex.NotRecoverable?
    && (forall p: Pid :: Inside(At(s, p)) <==> s.mutex.Held? && s.mutex.owner == p)
    && (s.mutex.Held? ==> (s.mutex.consistent <==> !At(s, s.mutex.owner).Recovering?))
  }

  ghost predicate Settled(c: Config, s: State)
    requires c.cap >= 1
  {
    var v := Current(c, s.log);
    v.Known? ==> s.status == v.status && UpToNul(s.buf) == v.text && |v.text| <= c.cap - 1
  }

  ghost predicate Storing(c: Config, s: State, status: int, text: CString, k: nat)
    requires c.cap >= 1 && |s.buf| == c.cap
  {
    var t := Cut(text, c.cap);
    s.status == status && k <= |t| && s.buf[..k] == t[..k]
  }

  ghost predicate Loading(c: Config, s: State, status: int, acc: string)
    requires c.cap >= 1 && |s.buf| == c.cap
  {
    status == s.status && |acc| <= c.cap - 1 && acc == s.buf[..|acc|] && NulFree(acc)
  }

  ghost predicate Content(c: Config, s: State)
    requires c.cap >= 1 && |s.buf| == c.cap
  {
    var pc := if s.mutex.Held? then At(s, s.mutex.owner) else Idle;
    match pc
    case WriteBytes(status, text, k) => Storing(c, s, status, text, k)
    case ReadBytes(status, acc) => Settled(c, s) && Loading(c, s, status, acc)
    case _ => Settled(c, s)
  }

  ghost predicate Inv(c: Config, s: State) {
    && c.cap >= 1 && |s.buf| == c.cap
    && Exclusive(s) && Legal(c, s.log) && Content(c, s)
  }

  lemma InitInv(c: Config, s: State)
    requires Init(c, s)
    ensures Inv(c, s)
  {
    UpToNulIs(s.buf, []);
  }

  lemma TextComplete(c: Config, s: State, status: int, text: CString)
    requires c.cap >= 1 && |s.buf| == c.cap
    requires Storing(c, s, status, text, |Cut(text, c.cap)|)
    ensures UpToNul(s.buf[|Cut(text, c.cap)| := NUL]) == Cut(text, c.cap)
  {
    var t := Cut(text, c.cap);
    var b := s.buf[|t| := NUL];
    assert b[..|t|] == s.buf[..|t|] == t;
    UpToNulIs(b, t);
  }

  /** A load that stopped has seen exactly the visible text. */
  lemma LoadComplete(c: Config, s: State, status: int, acc: string)
    requires c.cap >= 1 && |s.buf| == c.cap
    requires Settled(c, s) && Loading(c, s, status, acc)
    requires |acc| == c.cap - 1 || s.buf[|acc|] == NUL
    ensures Current(c, s.log) in {Unknown, Known(status, acc)}
  {
    if s.buf[|acc|] == NUL {
      UpToNulIs(s.buf, acc);
    } else {
      UpToNulLongest(s.buf, acc);
    }
  }

  lemma AdvanceExclusive(c: Config, s: State, p: Pid)
    requires Inv(c, s) && Enabled(c, s, Advance(p))
    ensures Exclusive(Apply(c, s, Advance(p)))
  {
    var s' := Apply(c, s, Advance(p));
    assert s.mutex.Held? && s.mutex.owner == p;
    forall q: Pid ensures Inside(At(s', q)) <==> s'.mutex.Held? && s'.mutex.owner == q {
      assert q != p ==> At(s', q) == At(s, q);
      assert Inside(At(s, q)) <==> q == p;
    }
  }

  lemma AdvanceContent(c: Config, s: State, p: Pid)
    requires Inv(c, s) && Enabled(c, s, Advance(p))
    ensures var s' := Apply(c, s, Advance(p));
            |s'.buf| == c.cap && Legal(c, s'.log) && Content(c, s')
  {
    var s' := Apply(c, s, Advance(p));
    assert Inside(At(s, p));
    assert s.mutex.Held? && s.mutex.owner == p;
    match At(s, p) {
      case WriteBytes(status, text, k) =>
        var t := Cut(text, c.cap);
        if k < |t| {
          assert s'.buf[..k + 1] == t[..k + 1];
        } else {
          LegalSnoc(c, s.log, Wrote(status, text));
          TextComplete(c, s, status, text);
        }
      case ReadBytes(status, acc) =>
        if |acc| < c.cap - 1 && s.buf[|acc|] != NUL {
          assert s.buf[..|acc| + 1] == acc + [s.buf[|acc|]];
        } else {
          LoadComplete(c, s, status, acc);
          LegalSnoc(c, s.log, Got(status, acc));
        }
      case _ =>
    }
  }

  lemma OtherInv(c: Config, s: State, e: Event)
    requires Inv(c, s) && Enabled(c, s, e) && !e.Advance?
    ensures Inv(c, Apply(c, s, e))
  {
    var s' := Apply(c, s, e);
    forall q: Pid ensures Inside(At(s', q)) <==> s'.mutex.Held? && s'.mutex.owner == q {
      assert q != e.p ==> At(s', q) == At(s, q);
      assert Inside(At(s, q)) <==> s.mutex.Held? && s.mutex.owner == q;
    }
    if e.Crash? && At(s, e.p).WriteBytes? {
      LegalSnoc(c, s.log, Torn);
    }
  }

  lemma StepInv(c: Config, s: State, e: Event)
    requires Inv(c, s) && Enabled(c, s, e)
    ensures Inv(c, Apply(c, s, e))
  {
    match e {
      case Advance(p) => AdvanceExclusive(c, s, p); AdvanceContent(c, s, p);
      case _ => OtherInv(c, s, e);
    }
  }

  // ------------------------------------------------------------------- runs

  /** `ss` are the states visited by the events `es` from an initial state. */
  ghost predicate IsRun(c: Config, ss: seq<State>, es: seq<Event>) {
    && |ss| == |es| + 1 && Init(c, ss[0])
    && forall i {:trigger es[i]} :: 0 <= i < |es| ==>
         |ss[i].buf| == c.cap && Enabled(c, ss[i], es[i]) && ss[i + 1] == Apply(c, ss[i], es[i])
  }

  lemma {:induction false} RunInv(c: Config, ss: seq<State>, es: seq<Event>, i: nat)
    requires IsRun(c, ss, es) && i < |ss|
    ensures Inv(c, ss[i])
  {
    if i == 0 {
      InitInv(c, ss[0]);
    } else {
      RunInv(c, ss, es, i - 1);
      StepInv(c, ss[i - 1], es[i - 1]);
    }
  }

  /** Atomicity: however many processes run, die and interleave, the reads and
    * writes took effect as on one sequential register, and outside a write in
    * progress the memory holds that register's value. */
  lemma AtomicRegister(c: Config, ss: seq<State>, es: seq<Event>, i: nat)
    requires IsRun(c, ss, es) && i < |ss|
    ensures Legal(c, ss[i].log)
    ensures (forall p: Pid :: !At(ss[i], p).WriteBytes?) && Current(c, ss[i].log).Known? ==>
      Known(ss[i].status, UpToNul(ss[i].buf)) == Current(c, ss[i].log)
  {
    RunInv(c, ss, es, i);
  }

  /** A run in which nobody dies between the first and last store of a write
    * never reads anything but the last completed write. */
  lemma UntornReads(c: Config, ss: seq<State>, es: seq<Event>, i: nat, k: nat)
    requires IsRun(c, ss, es) && i < |ss| && k < |ss[i].log|
    requires ss[i].log[k].Got?
    requires forall j :: 0 <= j < k ==> !ss[i].log[j].Torn?
    ensures Current(c, ss[i].log[..k]) == Known(ss[i].log[k].status, ss[i].log[k].value)
  {
    RunInv(c, ss, es, i);
    KnownWithoutTorn(c, ss[i].log[..k]);
  }

  lemma {:induction false} KnownWithoutTorn(c: Config, log: seq<Entry>)
    requires c.cap >= 1 && forall j :: 0 <= j < |log| ==> !log[j].Torn?
    ensures Current(c, log).Known?
  {
    if log != [] && log[|log| - 1].Got? {
      KnownWithoutTorn(c, log[..|log| - 1]);
    }
  }

  /** A process died before `i` while it was past the lock. */
  ghost predicate DiedInside(ss: seq<State>, es: seq<Event>, i: nat) {
    exists j :: 0 <= j < i && CrashInside(ss, es, j)
  }

  ghost predicate CrashInside(ss: seq<State>, es: seq<Event>, j: nat) {
    j < |es| && j < |ss| && es[j].Crash? && Inside(At(ss[j], es[j].p))
  }

  lemma DeathStep(c: Config, s: State, e: Event)
    requires Inv(c, s) && Enabled(c, s, e) && !c.robust
    ensures Apply(c, s, e).mutex.OwnerDead? <==> s.mutex.OwnerDead? || (e.Crash? && Inside(At(s, e.p)))
  {
  }

  lemma {:induction false} OwnerDeadExactly(c: Config, ss: seq<State>, es: seq<Event>, i: nat)
    requires IsRun(c, ss, es) && i < |ss| && !c.robust
    ensures ss[i].mutex.OwnerDead? <==> DiedInside(ss, es, i)
  {
    if i > 0 {
      var n := i - 1;
      OwnerDeadExactly(c, ss, es, n);
      RunInv(c, ss, es, n);
      DeathStep(c, ss[n], es[n]);
      assert CrashInside(ss, es, n) <==> es[n].Crash? && Inside(At(ss[n], es[n].p));
    }
  }

  /** Locking while nobody is past the lock is possible if and only if the build
    * is robust or no process has ever died past the lock; in particular
    * recovery never leaves the mutex unusable. */
  lemma LockAfterDeath(c: Config, ss: seq<State>, es: seq<Event>, i: nat, p: Pid, op: Op)
    requires IsRun(c, ss, es) && i < |ss| && At(ss[i], p).Idle?
    requires forall q: Pid :: !Inside(At(ss[i], q))
    ensures Enabled(c, ss[i], Lock(p, op)) <==> c.robust || !DiedInside(ss, es, i)
  {
    RunInv(c, ss, es, i);
    if !c.robust { OwnerDeadExactly(c, ss, es, i); }
  }

  /** In a build without the robust branch one death past the lock is enough:
    * nobody can lock again. */
  lemma DeathBlocksEveryone(c: Config, s0: State, p: Pid, op: Op) returns (ss: seq<State>, es: seq<Event>)
    requires Init(c, s0) && !c.robust
    ensures IsRun(c, ss, es) && ss[0] == s0 && es == [Lock(p, op), Crash(p)]
    ensures forall q: Pid, op': Op :: !Enabled(c, ss[2], Lock(q, op'))
  {
    es := [Lock(p, op), Crash(p)];
    var s1 := Apply(c, s0, es[0]);
    ss := [s0, s1, Apply(c, s1, es[1])];
  }

  /** Steps the owner still needs inside the critical section. */
  ghost function Remaining(c: Config, pc: Pc): int
    requires c.cap >= 1
  {
    match pc
    case Recovering(_) => c.cap + 3
    case WriteStatus(_, _) => c.cap + 2
    case WriteBytes(_, _, k) => c.cap + 1 - k
    case ReadStatus => c.cap + 2
    case ReadBytes(_, acc) => c.cap + 1 - |acc|
    case Unlocking => 1
    case _ => 0
  }

  /** The critical section is bounded: the owner can always step, each of its
    * steps uses up one of at most cap + 3, and at zero the mutex is free. */
  lemma BoundedSection(c: Config, ss: seq<State>, es: seq<Event>, i: nat)
    requires IsRun(c, ss, es) && i < |ss| && ss[i].mutex.Held?
    ensures var s := ss[i]; var p := s.mutex.owner;
            && Enabled(c, s, Advance(p)) && |s.buf| == c.cap
            && var s' := Apply(c, s, Advance(p));
            && 0 <= Remaining(c, At(s', p)) < Remaining(c, At(s, p)) <= c.cap + 3
            && (Remaining(c, At(s', p)) == 0 <==> s'.mutex.Free?)
  {
    RunInv(c, ss, es, i);
    assert Inside(At(ss[i], ss[i].mutex.owner));
  }

  // ----------------------------------------------------- the two back ends

  /** Two registers that differ only in how much room follows the text. */
  ghost predicate SameExceptRoom(small: nat, s: State, l: State) {
    && 1 <= small == |s.buf| <= |l.buf| && s.buf == l.buf[..small]
    && s.buf[small - 1] == NUL
    && s == l.(buf := s.buf)
  }

  ghost predicate ShortText(e: Event, cap: nat) {
    e.Lock? && e.op.WriteOp? ==> |e.op.text| < cap
  }

  /** Every write under way fits the smaller buffer and every read under way
    * is still in front of the smaller buffer's last byte. */
  ghost predicate ShortPc(pc: Pc, cap: nat) {
    match pc
    case Recovering(op) => op.WriteOp? ==> |op.text| < cap
    case WriteStatus(_, text) => |text| < cap
    case WriteBytes(_, text, k) => |text| < cap && k <= |text|
    case ReadBytes(_, acc) => |acc| < cap
    case _ => true
  }

  ghost predicate ShortPcs(s: State, cap: nat) {
    forall p: Pid :: ShortPc(At(s, p), cap)
  }

  lemma BackEndsAdvance(sm: Config, lg: Config, s: State, l: State, p: Pid)
    requires 1 <= sm.cap <= lg.cap && sm.robust == lg.robust && |l.buf| == lg.cap
    requires SameExceptRoom(sm.cap, s, l) && ShortPc(At(s, p), sm.cap)
    ensures SameExceptRoom(sm.cap, Advanced(sm, s, p), Advanced(lg, l, p))
    ensures |Advanced(lg, l, p).buf| == lg.cap
    ensures ShortPc(At(Advanced(sm, s, p), p), sm.cap)
  {
    assert At(s, p) == At(l, p);
    match At(s, p) {
      case WriteBytes(_, text, k) =>
        assert Cut(text, sm.cap) == Cut(text, lg.cap) == text;
      case ReadBytes(_, acc) =>
        assert s.buf[|acc|] == l.buf[|acc|];
        assert |acc| < sm.cap - 1 || s.buf[|acc|] == NUL;
      case _ =>
    }
  }

  lemma BackEndsStep(sm: Config, lg: Config, s: State, l: State, e: Event)
    requires 1 <= sm.cap <= lg.cap && sm.robust == lg.robust && |l.buf| == lg.cap
    requires SameExceptRoom(sm.cap, s, l) && ShortPcs(s, sm.cap) && ShortText(e, sm.cap)
    ensures Enabled(sm, s, e) <==> Enabled(lg, l, e)
    ensures SameExceptRoom(sm.cap, Apply(sm, s, e), Apply(lg, l, e))
    ensures |Apply(lg, l, e).buf| == lg.cap
    ensures ShortPcs(Apply(sm, s, e), sm.cap)
  {
    assert At(s, e.p) == At(l, e.p) && ShortPc(At(s, e.p), sm.cap);
    if e.Advance? {
      BackEndsAdvance(sm, lg, s, l, e.p);
    }
    var s' := Apply(sm, s, e);
    forall p: Pid ensures ShortPc(At(s', p), sm.cap) {
      assert p != e.p ==> At(s', p) == At(s, p);
      assert ShortPc(At(s, p), sm.cap);
    }
  }

  ghost function Final(c: Config, s: State, es: seq<Event>): State
    requires c.cap >= 1 && |s.buf| == c.cap
    decreases |es|
  {
    if es == [] then s
    else if Enabled(c, s, es[0]) then Final(c, Apply(c, s, es[0]), es[1..])
    else Final(c, s, es[1..])
  }

  /** Both back ends behave alike as long as every message is shorter than the
    * smaller buffer: the same events are enabled, and the same values are
    * read, torn ones included. */
  lemma {:induction false} BackEndsAgree(sm: Config, lg: Config, s: State, l: State, es: seq<Event>)
    requires 1 <= sm.cap <= lg.cap && sm.robust == lg.robust && |l.buf| == lg.cap
    requires SameExceptRoom(sm.cap, s, l) && ShortPcs(s, sm.cap)
    requires forall i :: 0 <= i < |es| ==> ShortText(es[i], sm.cap)
    ensures Final(sm, s, es).log == Final(lg, l, es).log
    ensures Final(sm, s, es).pcs == Final(lg, l, es).pcs
    decreases |es|
  {
    if es != [] {
      BackEndsStep(sm, lg, s, l, es[0]);
      if Enabled(sm, s, es[0]) {
        BackEndsAgree(sm, lg, Apply(sm, s, es[0]), Apply(lg, l, es[0]), es[1..]);
      } else {
        BackEndsAgree(sm, lg, s, l, es[1..]);
      }
    }
  }

  /** The System V and POSIX registers, started empty, agree on messages of up
    * to 255 bytes. */
  lemma SysvAndPosixAgree(robust: bool, s: State, l: State, es: seq<Event>)
    requires Init(Config(POSIX_CAP, robust), s) && Init(Config(SYSV_CAP, robust), l)
    requires forall i :: 0 <= i < |es| ==> ShortText(es[i], POSIX_CAP)
    ensures Final(Config(POSIX_CAP, robust), s, es).log == Final(Config(SYSV_CAP, robust), l, es).log
  {
    assert s.buf == l.buf[..POSIX_CAP];
    BackEndsAgree(Config(POSIX_CAP, robust), Config(SYSV_CAP, robust), s, l, es);
  }

  /** The last operation to take effect completed this write, and none is
    * storing now. */
  ghost predicate JustWrote(s: State, status: int, text: CString) {
    && s.log != [] && s.log[|s.log| - 1] == Wrote(status, text)
    && forall p: Pid :: !At(s, p).WriteBytes?
  }

  /** Whatever the two back ends went through, after completing the same write
    * they hold the same value exactly when it has at most 255 bytes. */
  lemma AgreementIsTight(robust: bool, status: int, text: CString,
                         ss: seq<State>, es: seq<Event>, i: nat, ls: seq<State>, fs: seq<Event>, k: nat)
    requires IsRun(Config(POSIX_CAP, robust), ss, es) && i < |ss| && JustWrote(ss[i], status, text)
    requires IsRun(Config(SYSV_CAP, robust), ls, fs) && k < |ls| && JustWrote(ls[k], status, text)
    ensures ss[i].status == ls[k].status == status
    ensures UpToNul(ss[i].buf) == UpToNul(ls[k].buf) <==> |text| <= POSIX_CAP - 1
  {
    AtomicRegister(Config(POSIX_CAP, robust), ss, es, i);
    AtomicRegister(Config(SYSV_CAP, robust), ls, fs, k);
  }
}
