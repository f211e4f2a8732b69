/** The metrics collector: per-process counters and latencies updated under a
  * lock, and snapshots taken from them. Every call holds the lock throughout,
  * so any interleaving is some sequence of calls. */
module Metrics {
  import opened FixedWidth
  import L = LatencyStats

  datatype CollectorPart = CollectorPart(
    events: nat, writesOk: nat, writesFailed: nat, sendsFailed: nat, bufferUtil: nat, latency: L.Stats)

  datatype RouterPart = RouterPart(
    readsTotal: nat, readsFailed: nat, forwards: nat, bytesSent: nat, conns: nat, bufferUtil: nat, latency: L.Stats)

  datatype ViewerPart = ViewerPart(
    bytesReceived: nat, messages: nat, clients: nat, outputUtil: nat, latency: L.Stats)

  datatype Counters = Counters(collector: CollectorPart, router: RouterPart, viewer: ViewerPart)

  const ZERO: Counters := Counters(
    CollectorPart(0, 0, 0, 0, 0, L.EMPTY),
    RouterPart(0, 0, 0, 0, 0, 0, L.EMPTY),
    ViewerPart(0, 0, 0, 0, L.EMPTY))

  datatype Snapshot = Snapshot(
    timestamp: int, id: nat, uptime: nat, counters: Counters, totalEvents: nat, totalErrors: nat)

  /** One call into the collector. */
  datatype Op =
    | Collected(latency: nat, ok: bool)
    | Routed(ok: bool, bytes: nat, latency: nat)
    | Viewed(bytes: nat, latency: nat)
    | SetUtil(name: string, pct: nat)
    | SetConns(name: string, n: nat)
    | Reset
    | Snap

  predicate Countable(st: L.Stats) { (st.count + 1) % 0x1_0000_0000 != 0 }

  /** A call that records a latency divides by the 32-bit sample count it is
    * about to reach, which must not have wrapped to zero. */
  predicate Safe(c: Counters, op: Op) {
    && (op.Collected? && op.ok ==> Countable(c.collector.latency))
    && (op.Routed? && op.ok ==> Countable(c.router.latency))
    && (op.Viewed? ==> Countable(c.viewer.latency))
  }

  function Collect(c: CollectorPart, latency: nat, ok: bool): CollectorPart
    requires ok ==> Countable(c.latency)
  {
    if ok then c.(events := Inc64(c.events), writesOk := Inc64(c.writesOk), latency := L.Recorded(c.latency, latency))
    else c.(events := Inc64(c.events), writesFailed := Inc64(c.writesFailed))
  }

  function Route(r: RouterPart, ok: bool, bytes: nat, latency: nat): RouterPart
    requires ok ==> Countable(r.latency)
  {
    if ok then r.(readsTotal := Inc64(r.readsTotal), forwards := Inc64(r.forwards),
                  bytesSent := Add64(r.bytesSent, bytes), latency := L.Recorded(r.latency, latency))
    else r.(readsTotal := Inc64(r.readsTotal), readsFailed := Inc64(r.readsFailed))
  }

  function View(v: ViewerPart, bytes: nat, latency: nat): ViewerPart
    requires Countable(v.latency)
  {
    v.(messages := Inc64(v.messages), bytesReceived := Add64(v.bytesReceived, bytes),
       latency := L.Recorded(v.latency, latency))
  }

  function Step(c: Counters, op: Op): Counters
    requires Safe(c, op)
  {
    match op
    case Collected(latency, ok) => c.(collector := Collect(c.collector, latency, ok))
    case Routed(ok, bytes, latency) => c.(router := Route(c.router, ok, bytes, latency))
    case Viewed(bytes, latency) => c.(viewer := View(c.viewer, bytes, latency))
    case SetUtil(name, pct) =>
      if name == "collector" then c.(collector := c.collector.(bufferUtil := pct))
      else if name == "router" then c.(router := c.router.(bufferUtil := pct))
      else if name == "viewer" then c.(viewer := c.viewer.(outputUtil := pct))
      else c
    case SetConns(name, n) =>
      if name == "router" then c.(router := c.router.(conns := n))
      else if name == "viewer" then c.(viewer := c.viewer.(clients := n))
      else c
    case Reset => ZERO
    case Snap => c
  }

  // ------------------------------------------------ what a history amounts to

  datatype Process = InCollector | InRouter | InViewer

  predicate Updates(op: Op, p: Process) {
    match p
    case InCollector => op.Collected?
    case InRouter => op.Routed?
    case InViewer => op.Viewed?
  }

  predicate Succeeds(op: Op) { op.Viewed? || (op.Collected? && op.ok) || (op.Routed? && op.ok) }

  /** The latencies of a process's successful updates since the last reset. */
  function Samples(ops: seq<Op>, p: Process): seq<nat> {
    if ops == [] || ops[|ops| - 1].Reset? then []
    else
      var op := ops[|ops| - 1];
      Samples(ops[..|ops| - 1], p) + if Updates(op, p) && Succeeds(op) then [op.latency] else []
  }

  /** Its failed updates since then. */
  function Failures(ops: seq<Op>, p: Process): nat {
    if ops == [] || ops[|ops| - 1].Reset? then 0
    else
      var op := ops[|ops| - 1];
      Failures(ops[..|ops| - 1], p) + if Updates(op, p) && !Succeeds(op) then 1 else 0
  }

  /** Snapshots taken so far, resets notwithstanding. */
  function Snaps(ops: seq<Op>): nat {
    if ops == [] then 0 else Snaps(ops[..|ops| - 1]) + if ops[|ops| - 1].Snap? then 1 else 0
  }

  lemma Snoc(ops: seq<Op>, op: Op, p: Process)
    ensures Samples(ops + [op], p) ==
            if op.Reset? then []
            else if Updates(op, p) && Succeeds(op) then Samples(ops, p) + [op.latency] else Samples(ops, p)
    ensures Failures(ops + [op], p) ==
            if op.Reset? then 0 else Failures(ops, p) + if Updates(op, p) && !Succeeds(op) then 1 else 0
    ensures Snaps(ops + [op]) == Snaps(ops) + if op.Snap? then 1 else 0
  {
    assert (ops + [op])[..|ops|] == ops;
    assert Samples(ops, p) + [] == Samples(ops, p);
  }

  function LatencyOf(c: Counters, p: Process): L.Stats {
    match p case InCollector => c.collector.latency case InRouter => c.router.latency case InViewer => c.viewer.latency
  }

  /** Counters of a process with `n` successes and `f` failures. */
  ghost predicate CollectorCounts(c: CollectorPart, n: nat, f: nat) {
    && c.latency.count == c.writesOk == n < 0x1_0000_0000
    && c.writesFailed == f % 0x1_0000_0000_0000_0000
    && c.events == (n + f) % 0x1_0000_0000_0000_0000 && c.sendsFailed == 0
  }

  ghost predicate RouterCounts(r: RouterPart, n: nat, f: nat) {
    && r.latency.count == r.forwards == n < 0x1_0000_0000
    && r.readsFailed == f % 0x1_0000_0000_0000_0000
    && r.readsTotal == (n + f) % 0x1_0000_0000_0000_0000
  }

  ghost predicate ViewerCounts(v: ViewerPart, n: nat) { v.latency.count == v.messages == n < 0x1_0000_0000 }

  /** Every update since the last reset is counted, once, by its outcome. */
  ghost predicate Counts(c: Counters, ops: seq<Op>) {
    && CollectorCounts(c.collector, |Samples(ops, InCollector)|, Failures(ops, InCollector))
    && RouterCounts(c.router, |Samples(ops, InRouter)|, Failures(ops, InRouter))
    && ViewerCounts(c.viewer, |Samples(ops, InViewer)|)
  }

  /** A process's latency is that of its successful updates. */
  ghost predicate Timed(st: L.Stats, xs: seq<nat>) { |xs| < 0x1_0000_0000 && st == L.Replay(xs) }

  ghost predicate Shows(c: Counters, ops: seq<Op>) {
    Counts(c, ops) && forall p :: Timed(LatencyOf(c, p), Samples(ops, p))
  }

  lemma Wraps(n: nat)
    ensures Inc64(n % 0x1_0000_0000_0000_0000) == (n + 1) % 0x1_0000_0000_0000_0000
    ensures n + 1 < 0x1_0000_0000 ==> Inc64(n) == n + 1
  {
  }

  lemma OneMore(n: nat)
    requires n < 0x1_0000_0000 && (n + 1) % 0x1_0000_0000 != 0
    ensures (n + 1) % 0x1_0000_0000 == n + 1 < 0x1_0000_0000
  {
  }

  lemma CollectCounts(c: CollectorPart, latency: nat, ok: bool, n: nat, f: nat)
    requires CollectorCounts(c, n, f) && (ok ==> Countable(c.latency))
    ensures if ok then CollectorCounts(Collect(c, latency, ok), n + 1, f)
            else CollectorCounts(Collect(c, latency, ok), n, f + 1)
  {
    Wraps(n + f);
    Wraps(f);
    Wraps(n);
    if ok { OneMore(n); }
  }

  lemma RouteCounts(r: RouterPart, ok: bool, bytes: nat, latency: nat, n: nat, f: nat)
    requires RouterCounts(r, n, f) && (ok ==> Countable(r.latency))
    ensures if ok then RouterCounts(Route(r, ok, bytes, latency), n + 1, f)
            else RouterCounts(Route(r, ok, bytes, latency), n, f + 1)
  {
    Wraps(n + f);
    Wraps(f);
    Wraps(n);
    if ok { OneMore(n); }
  }

  lemma ViewCounts(v: ViewerPart, bytes: nat, latency: nat, n: nat)
    requires ViewerCounts(v, n) && Countable(v.latency)
    ensures ViewerCounts(View(v, bytes, latency), n + 1)
  {
    Wraps(n);
    OneMore(n);
  }

  /** What a call does to each part, utilisation and connections aside. */
  lemma StepParts(c: Counters, op: Op)
    requires Safe(c, op)
    ensures var d := Step(c, op);
            && (op.Collected? ==> d.collector == Collect(c.collector, op.latency, op.ok))
            && (op.Routed? ==> d.router == Route(c.router, op.ok, op.bytes, op.latency))
            && (op.Viewed? ==> d.viewer == View(c.viewer, op.bytes, op.latency))
            && (op.Reset? ==> d == ZERO)
            && (!op.Collected? && !op.Reset? ==> d.collector == c.collector.(bufferUtil := d.collector.bufferUtil))
            && (!op.Routed? && !op.Reset? ==>
                  d.router == c.router.(bufferUtil := d.router.bufferUtil, conns := d.router.conns))
            && (!op.Viewed? && !op.Reset? ==>
                  d.viewer == c.viewer.(outputUtil := d.viewer.outputUtil, clients := d.viewer.clients))
  {
  }

  lemma CollectorStep(c: CollectorPart, d: CollectorPart, op: Op, ops: seq<Op>)
    requires CollectorCounts(c, |Samples(ops, InCollector)|, Failures(ops, InCollector))
    requires if op.Collected? then (op.ok ==> Countable(c.latency)) && d == Collect(c, op.latency, op.ok)
             else d == if op.Reset? then ZERO.collector else c.(bufferUtil := d.bufferUtil)
    ensures var now := ops + [op];
            CollectorCounts(d, |Samples(now, InCollector)|, Failures(now, InCollector))
  {
    Snoc(ops, op, InCollector);
    if op.Collected? {
      CollectCounts(c, op.latency, op.ok, |Samples(ops, InCollector)|, Failures(ops, InCollector));
    }
  }

  lemma RouterStep(r: RouterPart, d: RouterPart, op: Op, ops: seq<Op>)
    requires RouterCounts(r, |Samples(ops, InRouter)|, Failures(ops, InRouter))
    requires if op.Routed? then (op.ok ==> Countable(r.latency)) && d == Route(r, op.ok, op.bytes, op.latency)
             else d == if op.Reset? then ZERO.router else r.(bufferUtil := d.bufferUtil, conns := d.conns)
    ensures var now := ops + [op];
            RouterCounts(d, |Samples(now, InRouter)|, Failures(now, InRouter))
  {
    Snoc(ops, op, InRouter);
    if op.Routed? {
      RouteCounts(r, op.ok, op.bytes, op.latency, |Samples(ops, InRouter)|, Failures(ops, InRouter));
    }
  }

  lemma ViewerStep(v: ViewerPart, d: ViewerPart, op: Op, ops: seq<Op>)
    requires ViewerCounts(v, |Samples(ops, InViewer)|)
    requires if op.Viewed? then Countable(v.latency) && d == View(v, op.bytes, op.latency)
             else d == if op.Reset? then ZERO.viewer else v.(outputUtil := d.outputUtil, clients := d.clients)
    ensures ViewerCounts(d, |Samples(ops + [op], InViewer)|)
  {
    Snoc(ops, op, InViewer);
    if op.Viewed? { ViewCounts(v, op.bytes, op.latency, |Samples(ops, InViewer)|); }
  }

  lemma StepCounts(c: Counters, op: Op, ops: seq<Op>)
    requires Counts(c, ops) && Safe(c, op)
    ensures Counts(Step(c, op), ops + [op])
  {
    var d := Step(c, op);
    StepParts(c, op);
    CollectorStep(c.collector, d.collector, op, ops);
    RouterStep(c.router, d.router, op, ops);
    ViewerStep(c.viewer, d.viewer, op, ops);
  }

  /** A call changes a process's latency only by recording its own. */
  lemma StepLatency(c: Counters, op: Op, p: Process)
    requires Safe(c, op)
    ensures Updates(op, p) && Succeeds(op) ==> Countable(LatencyOf(c, p))
    ensures LatencyOf(Step(c, op), p) ==
            if op.Reset? then L.EMPTY
            else if Updates(op, p) && Succeeds(op) then L.Recorded(LatencyOf(c, p), op.latency)
            else LatencyOf(c, p)
  {
  }

  lemma StepTimed(c: Counters, op: Op, ops: seq<Op>, p: Process)
    requires Timed(LatencyOf(c, p), Samples(ops, p)) && Safe(c, op)
    ensures Timed(LatencyOf(Step(c, op), p), Samples(ops + [op], p))
  {
    StepLatency(c, op, p);
    Snoc(ops, op, p);
    if Updates(op, p) && Succeeds(op) {
      L.OneMore(Samples(ops, p), op.latency);
    }
  }

  lemma StepShows(c: Counters, op: Op, ops: seq<Op>)
    requires Shows(c, ops) && Safe(c, op)
    ensures Shows(Step(c, op), ops + [op])
  {
    StepCounts(c, op, ops);
    forall p ensures Timed(LatencyOf(Step(c, op), p), Samples(ops + [op], p)) {
      StepTimed(c, op, ops, p);
    }
  }

  /** All updates since the last reset, and those that failed. */
  function Calls(ops: seq<Op>): nat {
    |Samples(ops, InCollector)| + |Samples(ops, InRouter)| + |Samples(ops, InViewer)| + Errors(ops)
  }

  function Errors(ops: seq<Op>): nat { Failures(ops, InCollector) + Failures(ops, InRouter) }

  function TotalEvents(c: Counters): nat {
    (c.collector.events + c.router.readsTotal + c.viewer.messages) % 0x1_0000_0000_0000_0000
  }

  function TotalErrors(c: Counters): nat {
    (c.collector.writesFailed + c.collector.sendsFailed + c.router.readsFailed) % 0x1_0000_0000_0000_0000
  }

  lemma AddWrapped(a: nat, b: nat, d: nat)
    ensures (a % 0x1_0000_0000_0000_0000 + b % 0x1_0000_0000_0000_0000 + d) % 0x1_0000_0000_0000_0000
            == (a + b + d) % 0x1_0000_0000_0000_0000
  {
  }

  /** Totals count the calls since the last reset, in 64 bits. */
  lemma TotalsCount(c: Counters, ops: seq<Op>)
    requires Counts(c, ops)
    ensures TotalEvents(c) == Calls(ops) % 0x1_0000_0000_0000_0000
    ensures TotalErrors(c) == Errors(ops) % 0x1_0000_0000_0000_0000
  {
    var n, m := |Samples(ops, InCollector)|, |Samples(ops, InRouter)|;
    var f, g := Failures(ops, InCollector), Failures(ops, InRouter);
    AddWrapped(n + f, m + g, |Samples(ops, InViewer)|);
    AddWrapped(f, g, 0);
  }

  lemma Unwrapped(n: nat)
    requires n < 0x1_0000_0000_0000_0000
    ensures n % 0x1_0000_0000_0000_0000 == n
  {
  }

  /** Until the calls reach 2^64 the parts of each process add up, each sample
    * count is its success count, and errors are at most events. */
  lemma PartsAddUp(c: Counters, ops: seq<Op>)
    requires Counts(c, ops) && Calls(ops) < 0x1_0000_0000_0000_0000
    ensures Laws(c)
  {
    TotalsCount(c, ops);
    Unwrapped(Calls(ops));
    Unwrapped(Errors(ops));
    Unwrapped(Failures(ops, InCollector));
    Unwrapped(Failures(ops, InRouter));
    Unwrapped(|Samples(ops, InCollector)| + Failures(ops, InCollector));
    Unwrapped(|Samples(ops, InRouter)| + Failures(ops, InRouter));
  }

  /** The conservation laws. */
  predicate Laws(c: Counters) {
    && c.collector.events == c.collector.writesOk + c.collector.writesFailed
    && c.router.readsTotal == c.router.forwards + c.router.readsFailed
    && c.collector.latency.count == c.collector.writesOk
    && c.router.latency.count == c.router.forwards
    && c.viewer.latency.count == c.viewer.messages
    && TotalErrors(c) <= TotalEvents(c)
  }

  // ----------------------------------------------------------------- in place

  /** The collector object. Null handles are not modelled. */
  class Collector {
    var counters: Counters
    var nextId: nat
    const startup: int
    ghost var history: seq<Op>

    /** The counters say what the calls so far amount to. */
    ghost predicate Valid()
      reads this
    {
      Shows(counters, history) && nextId == Snaps(history) % 0x1_0000_0000
    }

    constructor (now: int)
      ensures Valid() && history == [] && startup == now
    {
      counters, nextId, startup := ZERO, 0, now;
      history := [];
    }

    /** Every call is entered into the history; `Shows` says what it counts. */
    ghost method Enter(op: Op)
      requires Shows(counters, history + [op]) && nextId == Snaps(history) % 0x1_0000_0000 && !op.Snap?
      modifies this`history
      ensures Valid() && history == old(history) + [op]
    {
      OtherSnaps(history, op);
      history := history + [op];
    }

    method UpdateCollector(latency: nat, ok: bool)
      requires Valid() && Safe(counters, Collected(latency, ok))
      modifies this`counters, this`history
      ensures Valid() && history == old(history) + [Collected(latency, ok)]
    {
      ghost var before := counters;
      var c := counters.collector.(events := Inc64(counters.collector.events));
      if ok {
        c := c.(writesOk := Inc64(c.writesOk), latency := L.Recorded(c.latency, latency));
      } else {
        c := c.(writesFailed := Inc64(c.writesFailed));
      }
      counters := counters.(collector := c);
      StepShows(before, Collected(latency, ok), history);
      Enter(Collected(latency, ok));
    }

    method UpdateRouter(ok: bool, bytes: nat, latency: nat)
      requires Valid() && Safe(counters, Routed(ok, bytes, latency))
      modifies this`counters, this`history
      ensures Valid() && history == old(history) + [Routed(ok, bytes, latency)]
      ensures counters.router.bytesSent ==
              if ok then Add64(old(counters.router.bytesSent), bytes) else old(counters.router.bytesSent)
    {
      ghost var before := counters;
      var r := counters.router.(readsTotal := Inc64(counters.router.readsTotal));
      if ok {
        r := r.(forwards := Inc64(r.forwards));
        r := r.(bytesSent := Add64(r.bytesSent, bytes), latency := L.Recorded(r.latency, latency));
      } else {
        r := r.(readsFailed := Inc64(r.readsFailed));
      }
      counters := counters.(router := r);
      StepShows(before, Routed(ok, bytes, latency), history);
      Enter(Routed(ok, bytes, latency));
    }

    method UpdateViewer(bytes: nat, latency: nat)
      requires Valid() && Safe(counters, Viewed(bytes, latency))
      modifies this`counters, this`history
      ensures Valid() && history == old(history) + [Viewed(bytes, latency)]
      ensures counters.viewer.bytesReceived == Add64(old(counters.viewer.bytesReceived), bytes)
    {
      ghost var before := counters;
      var v := counters.viewer.(messages := Inc64(counters.viewer.messages));
      v := v.(bytesReceived := Add64(v.bytesReceived, bytes), latency := L.Recorded(v.latency, latency));
      counters := counters.(viewer := v);
      assert counters == Step(before, Viewed(bytes, latency));
      StepShows(before, Viewed(bytes, latency), history);
      Enter(Viewed(bytes, latency));
    }

    method SetBufferUtil(name: string, pct: nat) returns (code: int)
      requires Valid()
      modifies this`counters, this`history
      ensures Valid() && history == old(history) + [SetUtil(name, pct)]
      ensures code == if name in {"collector", "router", "viewer"} then 0 else -1
      ensures counters.collector ==
        old(counters).collector.(bufferUtil := if name == "collector" then pct else old(counters).collector.bufferUtil)
      ensures counters.router ==
        old(counters).router.(bufferUtil := if name == "router" then pct else old(counters).router.bufferUtil)
      ensures counters.viewer ==
        old(counters).viewer.(outputUtil := if name == "viewer" then pct else old(counters).viewer.outputUtil)
    {
      ghost var before := counters;
      code := 0;
      if name == "collector" {
        counters := counters.(collector := counters.collector.(bufferUtil := pct));
      } else if name == "router" {
        counters := counters.(router := counters.router.(bufferUtil := pct));
      } else if name == "viewer" {
        counters := counters.(viewer := counters.viewer.(outputUtil := pct));
      } else {
        code := -1;
      }
      StepShows(before, SetUtil(name, pct), history);
      Enter(SetUtil(name, pct));
    }

    method SetActiveConnections(name: string, n: nat) returns (code: int)
      requires Valid()
      modifies this`counters, this`history
      ensures Valid() && history == old(history) + [SetConns(name, n)]
      ensures code == if name in {"router", "viewer"} then 0 else -1
      ensures counters.collector == old(counters).collector
      ensures counters.router ==
        old(counters).router.(conns := if name == "router" then n else old(counters).router.conns)
      ensures counters.viewer ==
        old(counters).viewer.(clients := if name == "viewer" then n else old(counters).viewer.clients)
    {
      ghost var before := counters;
      code := 0;
      if name == "router" {
        counters := counters.(router := counters.router.(conns := n));
      } else if name == "viewer" {
        counters := counters.(viewer := counters.viewer.(clients := n));
      } else {
        code := -1;
      }
      StepShows(before, SetConns(name, n), history);
      Enter(SetConns(name, n));
    }

    method ResetAll()
      requires Valid()
      modifies this`counters, this`history
      ensures Valid() && history == old(history) + [Reset] && counters == ZERO
    {
      ghost var before := counters;
      counters := ZERO;
      StepShows(before, Reset, history);
      Enter(Reset);
    }

    /** A snapshot copies the counters, totals the calls since the last reset,
      * and bears the number of snapshots before it. */
    method TakeSnapshot(now: int) returns (s: Snapshot)
      requires Valid()
      modifies this`nextId, this`history
      ensures Valid() && history == old(history) + [Snap] && s.counters == counters
      ensures s.id == Snaps(old(history)) % 0x1_0000_0000
      ensures s.totalEvents == Calls(old(history)) % 0x1_0000_0000_0000_0000
      ensures s.totalErrors == Errors(old(history)) % 0x1_0000_0000_0000_0000
      ensures s.timestamp == now && s.uptime == (now - startup) % 0x1_0000_0000
    {
      s := Snapshot(now, nextId, (now - startup) % 0x1_0000_0000, counters,
                    TotalEvents(counters), TotalErrors(counters));
      nextId := (nextId + 1) % 0x1_0000_0000;
      TotalsCount(counters, history);
      SnapShows(counters, history);
      SnapCounts(history);
      history := history + [Snap];
    }
  }

  lemma SnapShows(c: Counters, ops: seq<Op>)
    requires Shows(c, ops)
    ensures Shows(c, ops + [Snap])
  {
    assert Step(c, Snap) == c;
    StepShows(c, Snap, ops);
  }

  lemma SnapCounts(ops: seq<Op>)
    ensures (Snaps(ops) % 0x1_0000_0000 + 1) % 0x1_0000_0000 == Snaps(ops + [Snap]) % 0x1_0000_0000
  {
    Snoc(ops, Snap, InCollector);
    NextId(Snaps(ops));
  }

  lemma OtherSnaps(ops: seq<Op>, op: Op)
    requires !op.Snap?
    ensures Snaps(ops + [op]) == Snaps(ops)
  {
    Snoc(ops, op, InCollector);
  }

  lemma NextId(k: nat)
    ensures (k % 0x1_0000_0000 + 1) % 0x1_0000_0000 == (k + 1) % 0x1_0000_0000
  {
  }

  // ------------------------------------------------------------- histories

  datatype World = World(counters: Counters, nextId: nat)

  /** `ws` are the states of a fresh collector under the calls `ops`, none of
    * which divided by zero. */
  ghost predicate IsHistory(ws: seq<World>, ops: seq<Op>) {
    && |ws| == |ops| + 1 && ws[0] == World(ZERO, 0)
    && forall i {:trigger ops[i]} :: 0 <= i < |ops| ==>
         && Safe(ws[i].counters, ops[i])
         && ws[i + 1].counters == Step(ws[i].counters, ops[i])
         && ws[i + 1].nextId == if ops[i].Snap? then (ws[i].nextId + 1) % 0x1_0000_0000 else ws[i].nextId
  }

  /** After every history the counters are exactly what its calls since the last
    * reset amount to. */
  lemma {:induction false} HistoryShows(ws: seq<World>, ops: seq<Op>, i: nat)
    requires IsHistory(ws, ops) && i < |ws|
    ensures Shows(ws[i].counters, ops[..i])
  {
    if i > 0 {
      HistoryShows(ws, ops, i - 1);
      StepShows(ws[i - 1].counters, ops[i - 1], ops[..i - 1]);
      assert ops[..i] == ops[..i - 1] + [ops[i - 1]];
    }
  }

  /** Snapshots number themselves 0, 1, 2, ... in 32 bits, resets
    * notwithstanding. */
  lemma {:induction false} SnapshotIds(ws: seq<World>, ops: seq<Op>, i: nat)
    requires IsHistory(ws, ops) && i < |ws|
    ensures ws[i].nextId == Snaps(ops[..i]) % 0x1_0000_0000
  {
    if i > 0 {
      SnapshotIds(ws, ops, i - 1);
      assert ops[..i] == ops[..i - 1] + [ops[i - 1]];
      Snoc(ops[..i - 1], ops[i - 1], InCollector);
      NextId(Snaps(ops[..i - 1]));
    }
  }

  /** So in every history, until a counter reaches 2^64, events are successes
    * plus failures and errors are at most events. */
  lemma SnapshotsAddUp(ws: seq<World>, ops: seq<Op>, i: nat)
    requires IsHistory(ws, ops) && i < |ws| && Calls(ops[..i]) < 0x1_0000_0000_0000_0000
    ensures Laws(ws[i].counters)
  {
    HistoryShows(ws, ops, i);
    PartsAddUp(ws[i].counters, ops[..i]);
  }

  lemma UnsafeExactly(c: Counters, ops: seq<Op>, op: Op, p: Process)
    requires Counts(c, ops) && Updates(op, p)
    ensures !Safe(c, op) <==> Succeeds(op) && |Samples(ops, p)| == 0xFFFF_FFFF
  {
  }

  /** After any history the next call divides by zero exactly when it is the
    * 2^32nd success of its process since the last reset. */
  lemma DividesByZeroExactly(ws: seq<World>, ops: seq<Op>, op: Op, p: Process)
    requires IsHistory(ws, ops) && Updates(op, p)
    ensures !Safe(ws[|ops|].counters, op) <==> Succeeds(op) && |Samples(ops, p)| == 0xFFFF_FFFF
  {
    HistoryShows(ws, ops, |ops|);
    assert ops[..|ops|] == ops;
    UnsafeExactly(ws[|ops|].counters, ops, op, p);
  }

  lemma ExtendHistory(ws: seq<World>, ops: seq<Op>, op: Op) returns (ws': seq<World>)
    requires IsHistory(ws, ops) && Safe(ws[|ops|].counters, op) && !op.Snap?
    ensures IsHistory(ws', ops + [op])
  {
    var w := ws[|ops|];
    ws' := ws + [World(Step(w.counters, op), w.nextId)];
    var all := ops + [op];
    forall i | 0 <= i < |all|
      ensures Safe(ws'[i].counters, all[i]) && ws'[i + 1].counters == Step(ws'[i].counters, all[i])
      ensures ws'[i + 1].nextId == if all[i].Snap? then (ws'[i].nextId + 1) % 0x1_0000_0000 else ws'[i].nextId
    {
      if i < |ops| { assert all[i] == ops[i] && ws'[i] == ws[i] && ws'[i + 1] == ws[i + 1]; }
    }
  }

  /** Any number of messages below 2^32 can have been counted. */
  lemma {:induction false} Busy(n: nat) returns (ws: seq<World>, ops: seq<Op>)
    requires n < 0x1_0000_0000
    ensures IsHistory(ws, ops) && |Samples(ops, InViewer)| == n
  {
    if n == 0 {
      ws, ops := [World(ZERO, 0)], [];
    } else {
      ws, ops := Busy(n - 1);
      DividesByZeroExactly(ws, ops, Viewed(0, 0), InViewer);
      Snoc(ops, Viewed(0, 0), InViewer);
      ws := ExtendHistory(ws, ops, Viewed(0, 0));
      ops := ops + [Viewed(0, 0)];
    }
  }

  /** So a collector that is never reset does reach the division by zero. */
  lemma DivisionByZeroReached() returns (ws: seq<World>, ops: seq<Op>)
    ensures IsHistory(ws, ops) && !Safe(ws[|ops|].counters, Viewed(0, 0))
  {
    ws, ops := Busy(0xFFFF_FFFF);
    DividesByZeroExactly(ws, ops, Viewed(0, 0), InViewer);
  }

  /** What a snapshot reports of any process's latency is honest about its
    * samples since the last reset. */
  lemma ReportedLatencyIsHonest(ws: seq<World>, ops: seq<Op>, i: nat, p: Process)
    requires IsHistory(ws, ops) && i < |ws| && L.Below(Samples(ops[..i], p), 0x1_0000_0000)
    ensures L.Honest(LatencyOf(ws[i].counters, p), Samples(ops[..i], p))
  {
    HistoryShows(ws, ops, i);
    assert Timed(LatencyOf(ws[i].counters, p), Samples(ops[..i], p));
    L.ReplayIsHonest(Samples(ops[..i], p));
  }
}
