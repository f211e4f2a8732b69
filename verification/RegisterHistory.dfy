/** What the register's log says, in terms of the operations the processes asked
  * for when they locked it: every run of `SharedRegister` does exactly those. */
module RegisterHistory {
  import opened CText
  import opened SharedRegister

  datatype Asked = Nothing | For(op: Op)

  /** The operation a process last locked the register for. */
  function LastOp(es: seq<Event>, p: Pid, i: nat): Asked
    requires i <= |es|
  {
    if i == 0 then Nothing
    else if es[i - 1].Lock? && es[i - 1].p == p then For(es[i - 1].op)
    else LastOp(es, p, i - 1)
  }

  /** A process past the lock is doing what it asked for. */
  ghost predicate Doing(pc: Pc, asked: Asked) {
    match pc
    case Recovering(op) => asked == For(op)
    case WriteStatus(status, text) => asked == For(WriteOp(status, text))
    case WriteBytes(status, text, _) => asked == For(WriteOp(status, text))
    case ReadStatus => asked == For(ReadOp)
    case ReadBytes(_, _) => asked == For(ReadOp)
    case Unlocking => asked.For?
    case _ => true
  }

  lemma StepDoing(c: Config, s: State, e: Event, p: Pid, asked: Asked)
    requires c.cap >= 1 && |s.buf| == c.cap && Enabled(c, s, e) && Doing(At(s, p), asked)
    ensures Doing(At(Apply(c, s, e), p), if e.Lock? && e.p == p then For(e.op) else asked)
  {
    if e.p != p { assert At(Apply(c, s, e), p) == At(s, p); }
  }

  lemma {:induction false} RunDoing(c: Config, ss: seq<State>, es: seq<Event>, p: Pid, i: nat)
    requires IsRun(c, ss, es) && i < |ss|
    ensures Doing(At(ss[i], p), LastOp(es, p, i))
  {
    if i > 0 {
      RunDoing(c, ss, es, p, i - 1);
      StepDoing(c, ss[i - 1], es[i - 1], p, LastOp(es, p, i - 1));
    }
  }

  /** Whenever a process adds to the log, it adds the write it asked for, with
    * that very status and text, or the result of the read it asked for. */
  lemma LogsWhatWasAsked(c: Config, ss: seq<State>, es: seq<Event>, i: nat)
    requires IsRun(c, ss, es) && i < |es| && es[i].Advance? && ss[i + 1].log != ss[i].log
    ensures |ss[i + 1].log| == |ss[i].log| + 1 && ss[i + 1].log[..|ss[i].log|] == ss[i].log
    ensures var asked, entry := LastOp(es, es[i].p, i), ss[i + 1].log[|ss[i].log|];
            && asked.For?
            && if asked.op.WriteOp? then entry == Wrote(asked.op.status, asked.op.text) else entry.Got?
  {
    RunDoing(c, ss, es, es[i].p, i);
    assert ss[i + 1] == Apply(c, ss[i], es[i]);
  }

  /** Entries a process has logged since it last locked the register. */
  ghost function Logged(ss: seq<State>, es: seq<Event>, p: Pid, i: nat): int
    requires i <= |es| && i < |ss|
  {
    if i == 0 || (es[i - 1].Lock? && es[i - 1].p == p) then 0
    else Logged(ss, es, p, i - 1) + if es[i - 1] == Advance(p) then |ss[i].log| - |ss[i - 1].log| else 0
  }

  lemma GrowsBy(c: Config, s: State, p: Pid)
    requires c.cap >= 1 && |s.buf| == c.cap && Inside(At(s, p))
    ensures var t := Apply(c, s, Advance(p));
            |t.log| == |s.log| + if !At(s, p).Unlocking? && At(t, p).Unlocking? then 1 else 0
  {
  }

  /** One operation, one entry: none before it is done, one once it is. */
  lemma {:induction false} OneEntryEach(c: Config, ss: seq<State>, es: seq<Event>, p: Pid, i: nat)
    requires IsRun(c, ss, es) && i < |ss| && Inside(At(ss[i], p))
    ensures Logged(ss, es, p, i) == if At(ss[i], p).Unlocking? then 1 else 0
  {
    if i > 0 {
      var s, e := ss[i - 1], es[i - 1];
      assert ss[i] == Apply(c, s, e);
      if e == Advance(p) {
        GrowsBy(c, s, p);
        OneEntryEach(c, ss, es, p, i - 1);
      } else if e.p != p {
        assert At(ss[i], p) == At(s, p);
        OneEntryEach(c, ss, es, p, i - 1);
      }
    }
  }

  // ------------------------------------------------------ reads against writes

  /** The m-th event stores the last byte of a write. */
  predicate Completes(ss: seq<State>, es: seq<Event>, m: nat) {
    && m < |es| && m + 1 < |ss| && es[m].Advance?
    && At(ss[m], es[m].p).WriteBytes? && At(ss[m + 1], es[m].p).Unlocking?
  }

  /** The m-th event is a death between the first and last store of a write. */
  predicate Tears(ss: seq<State>, es: seq<Event>, m: nat) {
    m < |es| && m < |ss| && es[m].Crash? && At(ss[m], es[m].p).WriteBytes?
  }

  /** What the last write to complete before `i` was asked to store, cut to the
    * buffer; unknown from a torn write on until the next one. */
  function LastWritten(c: Config, ss: seq<State>, es: seq<Event>, i: nat): Value
    requires c.cap >= 1 && i <= |es| && i < |ss|
  {
    if i == 0 then Known(0, [])
    else if Tears(ss, es, i - 1) then Unknown
    else if Completes(ss, es, i - 1) then
      match LastOp(es, es[i - 1].p, i - 1) {
        case For(WriteOp(status, text)) => Known(status, Cut(text, c.cap))
        case _ => Unknown
      }
    else LastWritten(c, ss, es, i - 1)
  }

  lemma CurrentSnoc(c: Config, log: seq<Entry>, x: Entry)
    requires c.cap >= 1
    ensures Current(c, log + [x]) ==
            match x case Wrote(status, text) => Known(status, Cut(text, c.cap))
                    case Got(_, _) => Current(c, log)
                    case Torn => Unknown
  {
    assert (log + [x])[..|log|] == log;
  }

  /** What one step does to the register's sequential value. */
  lemma CurrentStep(c: Config, s: State, e: Event)
    requires c.cap >= 1 && |s.buf| == c.cap && Enabled(c, s, e)
    ensures var pc, t := At(s, e.p), Apply(c, s, e);
            Current(c, t.log) ==
            if e.Crash? && pc.WriteBytes? then Unknown
            else if e.Advance? && pc.WriteBytes? && At(t, e.p).Unlocking? then Known(pc.status, Cut(pc.text, c.cap))
            else Current(c, s.log)
  {
    var pc := At(s, e.p);
    if pc.WriteBytes? { CurrentSnoc(c, s.log, Wrote(pc.status, pc.text)); }
    if pc.ReadBytes? { CurrentSnoc(c, s.log, Got(pc.status, pc.acc)); }
    CurrentSnoc(c, s.log, Torn);
  }

  lemma {:induction false} CurrentIsLastWritten(c: Config, ss: seq<State>, es: seq<Event>, i: nat)
    requires IsRun(c, ss, es) && i < |ss|
    ensures Current(c, ss[i].log) == LastWritten(c, ss, es, i)
  {
    if i > 0 {
      CurrentIsLastWritten(c, ss, es, i - 1);
      CurrentStep(c, ss[i - 1], es[i - 1]);
      RunDoing(c, ss, es, es[i - 1].p, i - 1);
    }
  }

  lemma {:induction false} UntornIsKnown(c: Config, ss: seq<State>, es: seq<Event>, i: nat)
    requires IsRun(c, ss, es) && i < |ss| && forall j :: 0 <= j < i ==> !Tears(ss, es, j)
    ensures LastWritten(c, ss, es, i).Known?
  {
    if i > 0 {
      UntornIsKnown(c, ss, es, i - 1);
      RunDoing(c, ss, es, es[i - 1].p, i - 1);
    }
  }

  /** In every run a read that completes returns exactly the status and cut text
    * that the last process to complete a write was asked to store, unless that
    * text is unknown because a process died inside a write since. */
  lemma ReadsWhatWasWritten(c: Config, ss: seq<State>, es: seq<Event>, i: nat, q: Pid)
    requires IsRun(c, ss, es) && i < |es| && es[i] == Advance(q)
    requires At(ss[i], q).ReadBytes? && At(ss[i + 1], q).Unlocking?
    ensures var pc := At(ss[i], q);
            && ss[i + 1].log == ss[i].log + [Got(pc.status, pc.acc)]
            && LastWritten(c, ss, es, i) in {Unknown, Known(pc.status, pc.acc)}
            && ((forall j :: 0 <= j < i ==> !Tears(ss, es, j)) ==>
                  LastWritten(c, ss, es, i) == Known(pc.status, pc.acc))
  {
    var pc, n := At(ss[i], q), |ss[i].log|;
    assert ss[i + 1] == Apply(c, ss[i], es[i]);
    AtomicRegister(c, ss, es, i + 1);
    assert ss[i + 1].log[n] == Got(pc.status, pc.acc) && ss[i + 1].log[..n] == ss[i].log;
    CurrentIsLastWritten(c, ss, es, i);
    if forall j :: 0 <= j < i ==> !Tears(ss, es, j) { UntornIsKnown(c, ss, es, i); }
  }

  /** And outside a write in progress the memory holds it. */
  lemma MemoryIsLastWritten(c: Config, ss: seq<State>, es: seq<Event>, i: nat)
    requires IsRun(c, ss, es) && i < |ss| && forall p: Pid :: !At(ss[i], p).WriteBytes?
    ensures LastWritten(c, ss, es, i) in {Unknown, Known(ss[i].status, UpToNul(ss[i].buf))}
  {
    AtomicRegister(c, ss, es, i);
    CurrentIsLastWritten(c, ss, es, i);
  }
}
