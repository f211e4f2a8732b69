/** Dispatch as several threads perform it: the search and the statistics are
  * locked, the handler runs in between without the lock, and the slot found by
  * the search is kept as a pointer across that gap. Registrations, removals
  * and resets by other threads fall into it. */
module DispatchThreads {
  import opened FixedWidth
  import opened HandlerTable
  import opened MgmtProtocol
  import opened Registry

  type Tid = nat

  datatype Pc =
    | Idle
    | Found(slot: nat, req: Request)                                  // lock released
    | HasHandler(slot: nat, req: Request, handler: int)               // function pointer loaded
    | Called(slot: nat, req: Request, handler: int, context: int)     // context loaded, handler running

  /** All 64 slots, live and dead, so that a stale pointer still points. */
  datatype State = State(
    slots: seq<Entry>,
    count: nat,
    dispatches: nat,
    failures: nat,
    threads: map<Tid, Pc>)

  /** `Credit` is the return of the handler and the statistics step after it;
    * `run` says what handlers do with the response prepared from `resp`. */
  datatype Event =
    | Look(t: Tid, req: Request)
    | LoadHandler(t: Tid)
    | LoadContext(t: Tid)
    | Credit(t: Tid, resp: Response, run: Handlers)
    | Register(key: Key, handler: int, context: int)
    | Unregister(key: Key)
    | Reset

  function Asked(req: Request): Key { Key(req.target, req.cmd) }

  predicate Shape(s: State) {
    |s.slots| == MAX_EVENT_HANDLERS && s.count <= |s.slots|
  }

  function Live(s: State): seq<Entry>
    requires Shape(s)
  {
    s.slots[..s.count]
  }

  function At(s: State, t: Tid): Pc { if t in s.threads then s.threads[t] else Idle }

  ghost predicate Init(s: State) {
    && |s.slots| == MAX_EVENT_HANDLERS
    && s == State(s.slots, 0, 0, 0, map[])
  }

  predicate Enabled(s: State, e: Event) {
    match e
    case Look(t, _) => At(s, t).Idle?
    case LoadHandler(t) => At(s, t).Found? && At(s, t).slot < |s.slots|
    case LoadContext(t) => At(s, t).HasHandler? && At(s, t).slot < |s.slots|
    case Credit(t, _, _) => At(s, t).Called? && At(s, t).slot < |s.slots|
    case _ => true
  }

  /** What the handler returned and left in the response. */
  function Outcome(pc: Pc, resp: Response, run: Handlers): (int, Response)
    requires pc.Called?
  {
    run(pc.handler, pc.context, pc.req, Prepared(pc.req, resp))
  }

  /** The array after new contents have been written over its live part; a
    * removal leaves its old last entry behind as a dead slot. */
  function Over(s: State, live: seq<Entry>): (slots: seq<Entry>)
    requires Shape(s) && |live| <= |s.slots|
    ensures |slots| == |s.slots| && slots[..|live|] == live
  {
    live + s.slots[|live|..]
  }

  /** The locked statistics step of a thread whose handler has returned. */
  function Conclude(s: State, t: Tid, failed: bool, latency: nat): State
    requires At(s, t).Called? && At(s, t).slot < |s.slots|
  {
    s.(slots := Credited(s.slots, At(s, t).slot, latency),
       dispatches := Inc32(s.dispatches),
       failures := if failed then Inc32(s.failures) else s.failures,
       threads := s.threads[t := Idle])
  }

  function Apply(s: State, e: Event): State
    requires Shape(s) && Enabled(s, e)
  {
    var live := Live(s);
    match e
    case Look(t, req) =>
      var i := Find(live, Asked(req));
      if ValidRequest(req) && i < |live| then s.(threads := s.threads[t := Found(i, req)]) else s
    case LoadHandler(t) =>
      var pc := At(s, t);
      s.(threads := s.threads[t := HasHandler(pc.slot, pc.req, s.slots[pc.slot].handler)])
    case LoadContext(t) =>
      var pc := At(s, t);
      s.(threads := s.threads[t := Called(pc.slot, pc.req, pc.handler, s.slots[pc.slot].context)])
    case Credit(t, resp, run) =>
      var answer := Outcome(At(s, t), resp, run);
      Conclude(s, t, answer.0 != 0, LatencyUs(answer.1))
    case Register(k, h, c) =>
      var live' := Registered(live, k, h, c).0;
      s.(slots := Over(s, live'), count := |live'|)
    case Unregister(k) =>
      var live' := Unregistered(live, k).0;
      s.(slots := Over(s, live'), count := |live'|)
    case Reset =>
      s.(slots := Over(s, Cleared(live)), dispatches := 0, failures := 0)
  }

  ghost predicate IsRun(ss: seq<State>, es: seq<Event>) {
    && |ss| == |es| + 1 && Init(ss[0])
    && forall i {:trigger es[i]} :: 0 <= i < |es| ==>
         Shape(ss[i]) && Enabled(ss[i], es[i]) && ss[i + 1] == Apply(ss[i], es[i])
  }

  // ------------------------------------------------- crediting the right entry

  /** A thread between its search and its statistics still points at the entry
    * a search for its request would find now. */
  ghost predicate Points(s: State, pc: Pc)
    requires Shape(s)
  {
    pc.Idle? || (pc.slot < s.count && Find(Live(s), Asked(pc.req)) == pc.slot)
  }

  ghost predicate Attributed(s: State)
    requires Shape(s)
  {
    forall t: Tid :: Points(s, At(s, t))
  }

  ghost predicate Inv(s: State) { Shape(s) && Attributed(s) }

  /** No running dispatch points at the entry a removal takes out or at one it
    * moves, unless the next entry bears the same key and takes its place. */
  ghost predicate Spares(s: State, k: Key, pc: Pc)
    requires Shape(s)
  {
    var p := Find(Live(s), k);
    || p == s.count
    || pc.Idle?
    || pc.slot < p
    || (pc.slot == p && p + 1 < s.count && KeyOf(s.slots[p + 1]) == k)
  }

  ghost predicate Harmless(s: State, e: Event)
    requires Shape(s)
  {
    e.Unregister? ==> forall t: Tid :: Spares(s, e.key, At(s, t))
  }

  /** No live slot changes its key under any event but a removal. */
  lemma LiveKeysStay(s: State, e: Event, i: nat)
    requires Shape(s) && Enabled(s, e) && !e.Unregister? && i < s.count
    ensures var s' := Apply(s, e);
            Shape(s') && s.count <= s'.count && KeyOf(s'.slots[i]) == KeyOf(s.slots[i])
  {
    var s' := Apply(s, e);
    if e.Register? || e.Reset? {
      assert s'.slots[i] == Live(s')[i];
      assert s.slots[i] == Live(s)[i];
    }
  }

  lemma PointsStays(s: State, e: Event, pc: Pc)
    requires Shape(s) && Enabled(s, e) && !e.Unregister? && Points(s, pc)
    ensures Shape(Apply(s, e)) && Points(Apply(s, e), pc)
  {
    var s' := Apply(s, e);
    if !pc.Idle? {
      LiveKeysStay(s, e, pc.slot);
      forall i | 0 <= i < s.count ensures KeyOf(Live(s')[i]) == KeyOf(Live(s)[i]) {
        LiveKeysStay(s, e, i);
      }
      FindInLonger(Live(s), Live(s'), Asked(pc.req));
    }
  }

  lemma RemovalPoints(s: State, k: Key, pc: Pc)
    requires Shape(s) && Points(s, pc)
    ensures Shape(Apply(s, Unregister(k)))
    ensures Points(Apply(s, Unregister(k)), pc) <==> Spares(s, k, pc)
  {
    var s', live, p := Apply(s, Unregister(k)), Live(s), Find(Live(s), k);
    if p == s.count {
      assert Live(s') == live;
    } else if !pc.Idle? {
      FindAfterRemoval(live, k, Asked(pc.req));
      assert Live(s') == RemoveAt(live, p);
      assert p + 1 < s.count ==> live[p + 1] == s.slots[p + 1];
    }
  }

  /** A removal keeps every running dispatch attributed exactly when it spares
    * them all. */
  lemma RemovalSafeExactly(s: State, k: Key)
    requires Inv(s)
    ensures Shape(Apply(s, Unregister(k)))
    ensures Attributed(Apply(s, Unregister(k))) <==> forall t: Tid :: Spares(s, k, At(s, t))
  {
    var s' := Apply(s, Unregister(k));
    forall t: Tid ensures Points(s', At(s', t)) <==> Spares(s, k, At(s, t)) {
      assert At(s', t) == At(s, t);
      RemovalPoints(s, k, At(s, t));
    }
  }

  lemma StepPoints(s: State, e: Event, t: Tid)
    requires Shape(s) && Points(s, At(s, t)) && Enabled(s, e) && !e.Unregister?
    ensures Shape(Apply(s, e)) && Points(Apply(s, e), At(Apply(s, e), t))
  {
    var s' := Apply(s, e);
    PointsStays(s, e, At(s, t));
    if At(s', t) != At(s, t) && !e.Credit? {
      assert Live(s') == Live(s);
    }
  }

  /** A removal keeps a thread attributed exactly when it spares it, and no other
    * event takes a thread off its entry. */
  lemma StepKeepsThread(s: State, e: Event, t: Tid)
    requires Shape(s) && Enabled(s, e) && Points(s, At(s, t))
    requires e.Unregister? ==> Spares(s, e.key, At(s, t))
    ensures Shape(Apply(s, e)) && Points(Apply(s, e), At(Apply(s, e), t))
  {
    if e.Unregister? { RemovalPoints(s, e.key, At(s, t)); } else { StepPoints(s, e, t); }
  }

  lemma {:induction false} RunPoints(ss: seq<State>, es: seq<Event>, t: Tid, i: nat)
    requires IsRun(ss, es) && i < |ss|
    requires forall j :: 0 <= j < i && es[j].Unregister? ==> Shape(ss[j]) && Spares(ss[j], es[j].key, At(ss[j], t))
    ensures Shape(ss[i]) && Points(ss[i], At(ss[i], t))
  {
    if i > 0 {
      RunPoints(ss, es, t, i - 1);
      StepKeepsThread(ss[i - 1], es[i - 1], t);
    }
  }

  lemma RunInv(ss: seq<State>, es: seq<Event>, i: nat)
    requires IsRun(ss, es) && i < |ss|
    requires forall j :: 0 <= j < i ==> Shape(ss[j]) && Harmless(ss[j], es[j])
    ensures Inv(ss[i])
  {
    RunPoints(ss, es, 0, i);
    forall t: Tid ensures Points(ss[i], At(ss[i], t)) { RunPoints(ss, es, t, i); }
  }

  /** However dispatches, registrations, resets and removals interleave, a thread
    * every removal spared credits exactly the entry a search for its original
    * (module, command) would find at that moment, whatever happened to others. */
  lemma CreditsWhatWasLookedUp(ss: seq<State>, es: seq<Event>, i: nat)
    requires IsRun(ss, es) && i < |es| && es[i].Credit?
    requires forall j :: 0 <= j < i && es[j].Unregister? ==>
      Shape(ss[j]) && Spares(ss[j], es[j].key, At(ss[j], es[i].t))
    ensures Shape(ss[i]) && Shape(ss[i + 1]) && At(ss[i], es[i].t).Called?
    ensures var pc := At(ss[i], es[i].t);
            var p := Find(Live(ss[i]), Asked(pc.req));
            && p < ss[i].count
            && Live(ss[i + 1]) == Credited(Live(ss[i]), p, LatencyUs(Outcome(pc, es[i].resp, es[i].run).1))
  {
    RunPoints(ss, es, es[i].t, i);
    CreditLive(ss[i], es[i]);
  }

  lemma CreditLive(s: State, e: Event)
    requires Shape(s) && Enabled(s, e) && e.Credit? && Points(s, At(s, e.t))
    ensures Shape(Apply(s, e))
    ensures var pc := At(s, e.t);
            && pc.slot == Find(Live(s), Asked(pc.req)) < s.count
            && Live(Apply(s, e)) == Credited(Live(s), pc.slot, LatencyUs(Outcome(pc, e.resp, e.run).1))
  {
    var answer := Outcome(At(s, e.t), e.resp, e.run);
    ConcludeLive(s, e.t, answer.0 != 0, LatencyUs(answer.1));
  }

  lemma ConcludeLive(s: State, t: Tid, failed: bool, latency: nat)
    requires Shape(s) && At(s, t).Called? && Points(s, At(s, t))
    ensures At(s, t).slot < s.count && Find(Live(s), Asked(At(s, t).req)) == At(s, t).slot
    ensures Live(Conclude(s, t, failed, latency)) == Credited(Live(s), At(s, t).slot, latency)
  {
  }

  /** A thread is past its search only with a request whose fields are in range. */
  ghost predicate InRange(pc: Pc) {
    pc.Idle? || (pc.req.cmd < 16 && pc.req.target != [] && pc.req.payloadLen <= 512)
  }

  lemma {:induction false} OnlyValidDispatched(ss: seq<State>, es: seq<Event>, t: Tid, i: nat)
    requires IsRun(ss, es) && i < |ss|
    ensures InRange(At(ss[i], t))
  {
    if i > 0 {
      OnlyValidDispatched(ss, es, t, i - 1);
      RangeStep(ss[i - 1], es[i - 1], t);
    }
  }

  lemma RangeStep(s: State, e: Event, t: Tid)
    requires Shape(s) && Enabled(s, e) && InRange(At(s, t))
    ensures InRange(At(Apply(s, e), t))
  {
  }

  /** What the unlocked loads of a running dispatch see changes only by a
    * registration of its own key, which replaces handler and context together. */
  lemma LoadsChangeExactly(s: State, e: Event, t: Tid)
    requires Inv(s) && Enabled(s, e) && !e.Unregister? && !At(s, t).Idle?
    ensures var pc := At(s, t);
            && pc.slot < |Apply(s, e).slots| && pc.slot < |s.slots|
            && var a, b := s.slots[pc.slot], Apply(s, e).slots[pc.slot];
               (b.handler, b.context) ==
               if e.Register? && e.key == Asked(pc.req) then (e.handler, e.context) else (a.handler, a.context)
  {
    var s', pc := Apply(s, e), At(s, t);
    assert Points(s, pc);
    assert Live(s)[pc.slot] == s.slots[pc.slot];
    if e.Register? || e.Reset? {
      assert s'.slots[pc.slot] == Live(s')[pc.slot];
    }
  }

  /** Left alone, the four steps are one dispatch of the sequential registry. */
  lemma AloneIsDispatched(s: State, t: Tid, req: Request, resp: Response, run: Handlers)
    requires Shape(s) && At(s, t).Idle? && ValidRequest(req) && Find(Live(s), Asked(req)) < s.count
    ensures var s1 := Apply(s, Look(t, req));
            var s2 := Apply(s1, LoadHandler(t));
            var s3 := Apply(s2, LoadContext(t));
            var s4 := Apply(s3, Credit(t, resp, run));
            Table(Live(s4), s4.dispatches, s4.failures)
            == Dispatched(Table(Live(s), s.dispatches, s.failures), req, resp, run).table
  {
    var i := Find(Live(s), Asked(req));
    var e := Live(s)[i];
    assert e == s.slots[i];
    var s3 := Apply(Apply(Apply(s, Look(t, req)), LoadHandler(t)), LoadContext(t));
    assert At(s3, t) == Called(i, req, e.handler, e.context) && Live(s3) == Live(s);
    var answer := Outcome(At(s3, t), resp, run);
    var s4 := Conclude(s3, t, answer.0 != 0, LatencyUs(answer.1));
    assert Live(s4) == Credited(Live(s), i, LatencyUs(answer.1));
  }

  // --------------------------------------------------------------- failing runs

  predicate Askable(k: Key) { |k.name| < MGMT_MODULE_NAME_SIZE && k.name != [] && k.cmd < MGMT_CMD_MAX }

  function Ask(k: Key): Request { Request(0, k.cmd, k.name, 0, ZERO_TIME) }

  lemma Extend(ss: seq<State>, es: seq<Event>, e: Event) returns (ss': seq<State>, es': seq<Event>)
    requires IsRun(ss, es) && Shape(ss[|es|]) && Enabled(ss[|es|], e)
    ensures es' == es + [e] && ss' == ss + [Apply(ss[|es|], e)] && IsRun(ss', es')
  {
    es' := es + [e];
    ss' := ss + [Apply(ss[|es|], e)];
    forall i | 0 <= i < |es'|
      ensures Shape(ss'[i]) && Enabled(ss'[i], es'[i]) && ss'[i + 1] == Apply(ss'[i], es'[i])
    {
      if i < |es| { assert es'[i] == es[i] && ss'[i] == ss[i] && ss'[i + 1] == ss[i + 1]; }
    }
  }

  /** A thread has looked up the one entry there is and loaded its handler. */
  lemma Looked(s0: State, k: Key, t: Tid) returns (ss: seq<State>, es: seq<Event>)
    requires Init(s0) && Askable(k)
    ensures IsRun(ss, es) && ss[0] == s0 && es == [Register(k, 1, 1), Look(t, Ask(k)), LoadHandler(t)]
    ensures Shape(ss[3]) && Live(ss[3]) == [NewEntry(k, 1, 1)] && ss[3].dispatches == 0
    ensures ss[3].threads == map[t := HasHandler(0, Ask(k), 1)]
  {
    es := [Register(k, 1, 1), Look(t, Ask(k)), LoadHandler(t)];
    var s1 := Apply(s0, es[0]);
    assert Live(s1) == [NewEntry(k, 1, 1)];
    assert s1.slots[0] == Live(s1)[0];
    var s2 := Apply(s1, es[1]);
    assert s2.threads == map[t := Found(0, Ask(k))];
    ss := [s0, s1, s2, Apply(s2, es[2])];
  }

  lemma CallsOnly(s0: State, k: Key, t: Tid) returns (ss: seq<State>, es: seq<Event>)
    requires Init(s0) && Askable(k)
    ensures IsRun(ss, es) && ss[0] == s0
    ensures es == [Register(k, 1, 1), Look(t, Ask(k)), LoadHandler(t), LoadContext(t)]
    ensures Shape(ss[4]) && Live(ss[4]) == [NewEntry(k, 1, 1)] && ss[4].dispatches == 0
    ensures ss[4].threads == map[t := Called(0, Ask(k), 1, 1)]
  {
    ss, es := Looked(s0, k, t);
    assert ss[3].slots[0] == Live(ss[3])[0];
    ss, es := Extend(ss, es, LoadContext(t));
  }

  /** A registration between the two loads makes a dispatch call the old
    * handler with the new context. */
  lemma MixedPairPossible(s0: State, k: Key, t: Tid)
    requires Init(s0) && Askable(k)
    ensures exists ss: seq<State>, es: seq<Event> ::
      && IsRun(ss, es) && ss[0] == s0
      && es == [Register(k, 1, 1), Look(t, Ask(k)), LoadHandler(t), Register(k, 2, 2), LoadContext(t)]
      && At(ss[5], t) == Called(0, Ask(k), 1, 2)
  {
    var ss, es := Looked(s0, k, t);
    ss, es := Extend(ss, es, Register(k, 2, 2));
    assert Live(ss[4]) == [NewEntry(k, 2, 2)];
    assert ss[4].slots[0] == Live(ss[4])[0];
    ss, es := Extend(ss, es, LoadContext(t));
  }

  lemma Misdirected(s0: State, a: Key, b: Key, t: Tid) returns (ss: seq<State>, es: seq<Event>)
    requires Init(s0) && Askable(a) && Askable(b) && a != b
    ensures IsRun(ss, es) && ss[0] == s0 && |es| == 6 && es[4..] == [Register(b, 2, 2), Unregister(a)]
    ensures Shape(ss[6]) && Live(ss[6]) == [NewEntry(b, 2, 2)]
    ensures At(ss[6], t) == Called(0, Ask(a), 1, 1)
  {
    ss, es := CallsOnly(s0, a, t);
    ss, es := Extend(ss, es, Register(b, 2, 2));
    assert Live(ss[5]) == [NewEntry(a, 1, 1), NewEntry(b, 2, 2)];
    ss, es := Extend(ss, es, Unregister(a));
  }

  lemma ConcludeFirst(s: State, t: Tid, failed: bool, latency: nat, e: Entry)
    requires Shape(s) && At(s, t).Called? && At(s, t).slot == 0 && Live(s) == [e] && e.invocations == 0
    ensures var s' := Conclude(s, t, failed, latency);
            Shape(s') && |Live(s')| == 1 && KeyOf(Live(s')[0]) == KeyOf(e) && Live(s')[0].invocations == 1
  {
    assert s.slots[0] == Live(s)[0];
  }

  /** A removal that does not spare a running dispatch makes it credit another
    * key's entry. */
  lemma RemovalMisattributes(s0: State, a: Key, b: Key, t: Tid, run: Handlers)
    returns (ss: seq<State>, es: seq<Event>)
    requires Init(s0) && Askable(a) && Askable(b) && a != b
    ensures IsRun(ss, es) && ss[0] == s0 && |es| == 7
    ensures es[4..6] == [Register(b, 2, 2), Unregister(a)] && es[6].Credit? && es[6].t == t
    ensures !At(ss[6], t).Idle? && Asked(At(ss[6], t).req) == a && Shape(ss[7])
    ensures |Live(ss[7])| == 1 && KeyOf(Live(ss[7])[0]) == b && Live(ss[7])[0].invocations == 1
  {
    ss, es := Misdirected(s0, a, b, t);
    var s := ss[6];
    var resp := Response(0, 0, ZERO_TIME, ZERO_TIME, []);
    var answer := Outcome(At(s, t), resp, run);
    ConcludeFirst(s, t, answer.0 != 0, LatencyUs(answer.1), NewEntry(b, 2, 2));
    ss, es := Extend(ss, es, Credit(t, resp, run));
  }
}
