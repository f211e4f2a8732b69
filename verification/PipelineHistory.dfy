/** What the events of a run of `Pipeline` amount to: how often each thing was
  * done, and when Router leaves its loop. */
module PipelineHistory {
  import opened Pipeline

  /** The steps Router leaves its loop by: a broken connection, and a QUIT. */
  predicate Leaves(s: State, e: Event) {
    e == Send(Broken) || (e.Pop? && s.q != [] && s.q[0] == Quit)
  }

  predicate LeftAt(ss: seq<State>, es: seq<Event>, j: nat) { j < |es| && j < |ss| && Leaves(ss[j], es[j]) }

  /** In every run Router has left exactly when it took one of them: neither a
    * send that succeeded or failed for the moment, nor a failed read, ends it. */
  lemma {:induction false} LeavesExactly(c: Config, ss: seq<State>, es: seq<Event>, i: nat)
    requires IsRun(c, ss, es) && i < |ss|
    ensures ss[i].rtr.Exited? <==> exists j :: 0 <= j < i && LeftAt(ss, es, j)
  {
    if i > 0 {
      LeavesExactly(c, ss, es, i - 1);
      LeaveStep(c, ss[i - 1], es[i - 1]);
      assert LeftAt(ss, es, i - 1) <==> Leaves(ss[i - 1], es[i - 1]);
    }
  }

  lemma LeaveStep(c: Config, s: State, e: Event)
    requires Enabled(c, s, e)
    ensures Apply(c, s, e).rtr.Exited? <==> s.rtr.Exited? || Leaves(s, e)
  {
  }

  // ------------------------------------------------------------------- counts

  datatype Deed = Write | Queue | Take | TrySend | Forward | Discard

  /** A notification is queued whenever there is room for it, and only then. */
  predicate Does(c: Config, s: State, e: Event, deed: Deed) {
    match deed
    case Write => e.WriteOk?
    case Queue => e.Notify? && |s.q| < c.slots
    case Take => e.Pop? && s.q != [] && s.q[0].Data?
    case TrySend => e.Send?
    case Forward => e == Send(Sent)
    case Discard => e.Purge? && s.q != [] && s.q[0].Data?
  }

  ghost function Times(c: Config, ss: seq<State>, es: seq<Event>, deed: Deed, i: nat): nat
    requires i <= |es| && i <= |ss|
  {
    if i == 0 then 0 else Times(c, ss, es, deed, i - 1) + if Does(c, ss[i - 1], es[i - 1], deed) then 1 else 0
  }

  function Shown(s: State, deed: Deed): nat {
    match deed
    case Write => |s.datagrams|
    case Queue => s.queued
    case Take => s.consumed
    case TrySend => |s.attempts|
    case Forward => OkCount(s.attempts)
    case Discard => s.purged
  }

  lemma DeedStep(c: Config, s: State, e: Event, deed: Deed)
    requires Enabled(c, s, e)
    ensures Shown(Apply(c, s, e), deed) == Shown(s, deed) + if Does(c, s, e, deed) then 1 else 0
  {
    if e.Send? {
      var a := Attempt(s.rtr.origin, s.rtr.idx, c.compose(s.rtr.text), e.result.Sent?);
      assert (s.attempts + [a])[..|s.attempts|] == s.attempts;
    }
  }

  /** The figures in `Conservation` are the numbers of writes that succeeded, of
    * notifications posted with room in the queue, of data notifications taken or
    * discarded, of sends, and of sends that succeeded. */
  lemma {:induction false} FiguresAreCounts(c: Config, ss: seq<State>, es: seq<Event>, deed: Deed, i: nat)
    requires IsRun(c, ss, es) && i < |ss|
    ensures Shown(ss[i], deed) == Times(c, ss, es, deed, i)
  {
    if i > 0 {
      FiguresAreCounts(c, ss, es, deed, i - 1);
      DeedStep(c, ss[i - 1], es[i - 1], deed);
    }
  }

  /** So in every run forwards ≤ sends ≤ notifications taken ≤ notifications
    * queued ≤ writes, and every one queued was taken, discarded or is there. */
  lemma EventsAreConserved(c: Config, ss: seq<State>, es: seq<Event>, i: nat)
    requires IsRun(c, ss, es) && i < |ss|
    ensures Times(c, ss, es, Forward, i) <= Times(c, ss, es, TrySend, i) <= Times(c, ss, es, Take, i)
            <= Times(c, ss, es, Queue, i) <= Times(c, ss, es, Write, i)
    ensures Times(c, ss, es, Queue, i)
            == Times(c, ss, es, Take, i) + Times(c, ss, es, Discard, i) + CountData(ss[i].q)
  {
    Conservation(c, ss, es, i);
    FiguresAreCounts(c, ss, es, Forward, i);
    FiguresAreCounts(c, ss, es, TrySend, i);
    FiguresAreCounts(c, ss, es, Take, i);
    FiguresAreCounts(c, ss, es, Queue, i);
    FiguresAreCounts(c, ss, es, Write, i);
    FiguresAreCounts(c, ss, es, Discard, i);
  }
}
