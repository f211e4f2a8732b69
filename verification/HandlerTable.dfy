/** The management handler table as a value: the live entries in array order,
  * what each registry operation does to them, and the map they stand for.
  */
module HandlerTable {
  import opened CText
  import opened FixedWidth

  const MAX_EVENT_HANDLERS: nat := 64
  const MGMT_MODULE_NAME_SIZE: nat := 64
  const MGMT_CMD_MAX: nat := 16

  /** A pointer argument; handlers are known by a number. */
  datatype Ptr<T> = Null | To(value: T)

  datatype Key = Key(name: string, cmd: nat)

  datatype Entry = Entry(
    cmd: nat, name: string, handler: int, context: int,
    invocations: nat, latency: nat)

  function KeyOf(e: Entry): Key { Key(e.name, e.cmd) }

  function NewEntry(k: Key, handler: int, context: int): Entry {
    Entry(k.cmd, Cut(k.name, MGMT_MODULE_NAME_SIZE), handler, context, 0, 0)
  }

  /** The linear search every operation starts with: the first entry whose
    * stored name and command equal the ones asked for. */
  function Find(es: seq<Entry>, k: Key): (i: nat)
    ensures i <= |es|
    ensures i < |es| ==> KeyOf(es[i]) == k
    ensures forall j :: 0 <= j < i ==> KeyOf(es[j]) != k
  {
    if es == [] || KeyOf(es[0]) == k then 0 else 1 + Find(es[1..], k)
  }

  // ------------------------------------------------------------- operations

  function Registered(es: seq<Entry>, k: Key, handler: int, context: int): (r: (seq<Entry>, int))
    requires |es| <= MAX_EVENT_HANDLERS
    ensures |r.0| <= MAX_EVENT_HANDLERS
  {
    var i := Find(es, k);
    if i < |es| then (es[i := es[i].(handler := handler, context := context, invocations := 0, latency := 0)], 0)
    else if |es| >= MAX_EVENT_HANDLERS then (es, -1)
    else (es + [NewEntry(k, handler, context)], 0)
  }

  function RemoveAt(es: seq<Entry>, i: nat): (r: seq<Entry>)
    requires i < |es|
    ensures |r| == |es| - 1
    ensures forall j :: 0 <= j < |r| ==> r[j] == es[if j < i then j else j + 1]
  {
    es[..i] + es[i + 1..]
  }

  function Unregistered(es: seq<Entry>, k: Key): (seq<Entry>, int) {
    var i := Find(es, k);
    if i < |es| then (RemoveAt(es, i), 0) else (es, -1)
  }

  function Credited(es: seq<Entry>, i: nat, latency: nat): seq<Entry>
    requires i < |es|
  {
    es[i := es[i].(invocations := Inc32(es[i].invocations), latency := Add64(es[i].latency, latency))]
  }

  function Cleared(es: seq<Entry>): (r: seq<Entry>)
    ensures |r| == |es|
    ensures forall i :: 0 <= i < |es| ==> r[i] == es[i].(invocations := 0, latency := 0)
  {
    seq(|es|, i requires 0 <= i < |es| => es[i].(invocations := 0, latency := 0))
  }

  // --------------------------------------------------------- the map it is

  ghost predicate Distinct(es: seq<Entry>) {
    forall i, j :: 0 <= i < j < |es| ==> KeyOf(es[i]) != KeyOf(es[j])
  }

  /** Registered order, which `handler_list` shows. */
  ghost function Keys(es: seq<Entry>): (ks: seq<Key>)
    ensures |ks| == |es| && forall i :: 0 <= i < |es| ==> ks[i] == KeyOf(es[i])
  {
    seq(|es|, i requires 0 <= i < |es| => KeyOf(es[i]))
  }

  lemma {:induction false} FirstMatch(es: seq<Entry>, k: Key, i: nat)
    requires i <= |es| && forall j :: 0 <= j < i ==> KeyOf(es[j]) != k
    requires i == |es| || KeyOf(es[i]) == k
    ensures Find(es, k) == i
  {
    if i > 0 { FirstMatch(es[1..], k, i - 1); }
  }

  /** A key that is found stays found where it is when the array only grows. */
  lemma FindInLonger(es: seq<Entry>, es': seq<Entry>, k: Key)
    requires |es| <= |es'| && (forall i :: 0 <= i < |es| ==> KeyOf(es'[i]) == KeyOf(es[i]))
    requires Find(es, k) < |es| || |es| == |es'|
    ensures Find(es', k) == Find(es, k)
  {
    FirstMatch(es', k, Find(es, k));
  }

  /** A search for `x` still ends at the same index after `k` was removed just
    * when that index came before, or when the next entry took its place. */
  lemma FindAfterRemoval(es: seq<Entry>, k: Key, x: Key)
    requires Find(es, k) < |es| && Find(es, x) < |es|
    ensures var p, i := Find(es, k), Find(es, x);
            Find(RemoveAt(es, p), x) == i < |es| - 1 <==>
            i < p || (i == p && p + 1 < |es| && KeyOf(es[p + 1]) == k)
  {
    var p, i := Find(es, k), Find(es, x);
    var es' := RemoveAt(es, p);
    if i < p || (i == p && p + 1 < |es| && KeyOf(es[p + 1]) == k) {
      FirstMatch(es', x, i);
    } else if i > p {
      assert KeyOf(es'[i - 1]) == x;
    }
  }

  /** In a table with distinct keys a lookup finds the one entry there is. */
  lemma FindIs(es: seq<Entry>, i: nat, k: Key)
    requires Distinct(es) && i < |es| && KeyOf(es[i]) == k
    ensures Find(es, k) == i
  {
    FirstMatch(es, k, i);
  }

  lemma FindNone(es: seq<Entry>, k: Key)
    requires forall i :: 0 <= i < |es| ==> KeyOf(es[i]) != k
    ensures Find(es, k) == |es|
  {
    FirstMatch(es, k, |es|);
  }

  /** What a search answers: the entry, or nothing. */
  function Lookup(es: seq<Entry>, k: Key): Ptr<Entry> {
    if Find(es, k) < |es| then To(es[Find(es, k)]) else Null
  }

  /** Replacing an entry under the same key changes that answer only. */
  lemma LookupAfterUpdate(es: seq<Entry>, p: nat, e: Entry, x: Key)
    requires Distinct(es) && p < |es| && KeyOf(e) == KeyOf(es[p])
    ensures Distinct(es[p := e])
    ensures Lookup(es[p := e], x) == if x == KeyOf(e) then To(e) else Lookup(es, x)
  {
    var es' := es[p := e];
    assert forall i :: 0 <= i < |es| ==> KeyOf(es'[i]) == KeyOf(es[i]);
    var i := Find(es, x);
    if i < |es| { FindIs(es', i, x); FindIs(es, i, x); } else { FindNone(es', x); }
    if x == KeyOf(e) { FindIs(es, p, x); }
  }

  lemma LookupAfterAppend(es: seq<Entry>, e: Entry, x: Key)
    requires Distinct(es) && Find(es, KeyOf(e)) == |es|
    ensures Distinct(es + [e])
    ensures Lookup(es + [e], x) == if x == KeyOf(e) then To(e) else Lookup(es, x)
  {
    var es' := es + [e];
    var i := Find(es, x);
    if x == KeyOf(e) { FindIs(es', |es|, x); }
    else if i < |es| { FindIs(es', i, x); }
    else { FindNone(es', x); }
  }

  lemma LookupAfterRemove(es: seq<Entry>, p: nat, x: Key)
    requires Distinct(es) && p < |es|
    ensures Distinct(RemoveAt(es, p))
    ensures Lookup(RemoveAt(es, p), x) == if x == KeyOf(es[p]) then Null else Lookup(es, x)
  {
    var es' := RemoveAt(es, p);
    var i := Find(es, x);
    if x == KeyOf(es[p]) {
      FindIs(es, p, x);
      forall j | 0 <= j < |es'| ensures KeyOf(es'[j]) != x {
        assert es'[j] == es[if j < p then j else j + 1];
      }
      FindNone(es', x);
    } else if i < |es| {
      FindIs(es', if i < p then i else i - 1, x);
    } else {
      FindNone(es', x);
    }
  }

  ghost function AsMap(es: seq<Entry>): (m: map<Key, Entry>)
    ensures forall k :: k in m <==> Lookup(es, k).To?
    ensures forall k :: k in m ==> m[k] == Lookup(es, k).value
  {
    var ks := set i | 0 <= i < |es| :: KeyOf(es[i]);
    assert forall k :: k in ks ==> Find(es, k) < |es|;
    map k | k in ks :: es[Find(es, k)]
  }

  lemma MapIs(es: seq<Entry>, m: map<Key, Entry>)
    requires forall x :: Lookup(es, x) == if x in m then To(m[x]) else Null
    ensures AsMap(es) == m
  {
  }

  lemma UpdateIsMapUpdate(es: seq<Entry>, p: nat, e: Entry)
    requires Distinct(es) && p < |es| && KeyOf(e) == KeyOf(es[p])
    ensures Distinct(es[p := e]) && AsMap(es[p := e]) == AsMap(es)[KeyOf(e) := e]
  {
    var m := AsMap(es)[KeyOf(e) := e];
    forall x ensures Lookup(es[p := e], x) == if x in m then To(m[x]) else Null {
      LookupAfterUpdate(es, p, e, x);
    }
    MapIs(es[p := e], m);
    LookupAfterUpdate(es, p, e, KeyOf(e));
  }

  lemma AppendIsMapUpdate(es: seq<Entry>, e: Entry)
    requires Distinct(es) && KeyOf(e) !in AsMap(es)
    ensures Distinct(es + [e]) && AsMap(es + [e]) == AsMap(es)[KeyOf(e) := e]
  {
    var m := AsMap(es)[KeyOf(e) := e];
    forall x ensures Lookup(es + [e], x) == if x in m then To(m[x]) else Null {
      LookupAfterAppend(es, e, x);
    }
    MapIs(es + [e], m);
    LookupAfterAppend(es, e, KeyOf(e));
  }

  lemma RemoveIsMapRemoval(es: seq<Entry>, p: nat)
    requires Distinct(es) && p < |es|
    ensures Distinct(RemoveAt(es, p)) && AsMap(RemoveAt(es, p)) == AsMap(es) - {KeyOf(es[p])}
  {
    var m := AsMap(es) - {KeyOf(es[p])};
    forall x ensures Lookup(RemoveAt(es, p), x) == if x in m then To(m[x]) else Null {
      LookupAfterRemove(es, p, x);
    }
    MapIs(RemoveAt(es, p), m);
    LookupAfterRemove(es, p, KeyOf(es[p]));
  }

  /** Registration of a name that fits is a map update that keeps the order:
    * an existing key stays where it is and loses its counts, a new one goes
    * last, and only a new key can be refused, by a full table. */
  lemma RegisterRefinesMap(es: seq<Entry>, k: Key, handler: int, context: int)
    requires |es| <= MAX_EVENT_HANDLERS && Distinct(es) && |k.name| < MGMT_MODULE_NAME_SIZE
    ensures var (es', code) := Registered(es, k, handler, context);
            && Distinct(es')
            && (code == 0 <==> k in AsMap(es) || |es| < MAX_EVENT_HANDLERS)
            && AsMap(es') == (if code == 0 then AsMap(es)[k := NewEntry(k, handler, context)] else AsMap(es))
  {
    var e := NewEntry(k, handler, context);
    var p := Find(es, k);
    if p < |es| {
      UpdateIsMapUpdate(es, p, e);
      assert Registered(es, k, handler, context) == (es[p := e], 0);
    } else {
      AppendIsMapUpdate(es, e);
    }
  }

  lemma RegisterKeepsOrder(es: seq<Entry>, k: Key, handler: int, context: int)
    requires |es| <= MAX_EVENT_HANDLERS && |k.name| < MGMT_MODULE_NAME_SIZE
    ensures var (es', code) := Registered(es, k, handler, context);
            Keys(es') == if code == 0 && k !in AsMap(es) then Keys(es) + [k] else Keys(es)
  {
    var es' := Registered(es, k, handler, context).0;
    assert forall i :: 0 <= i < |es| ==> KeyOf(es'[i]) == KeyOf(es[i]);
  }

  /** Removal is removal from the map, and keeps the order of the rest. */
  lemma UnregisterRefinesMap(es: seq<Entry>, k: Key)
    requires Distinct(es)
    ensures var (es', code) := Unregistered(es, k);
            && Distinct(es')
            && (code == 0 <==> k in AsMap(es))
            && AsMap(es') == AsMap(es) - {k}
  {
    var p := Find(es, k);
    if p < |es| {
      RemoveIsMapRemoval(es, p);
    }
  }

  lemma UnregisterKeepsOrder(es: seq<Entry>, k: Key)
    requires k in AsMap(es)
    ensures var i := Find(es, k);
            Keys(Unregistered(es, k).0) == Keys(es)[..i] + Keys(es)[i + 1..]
  {
  }

  /** Statistics never move, add or drop a key. */
  lemma StatisticsKeepKeys(es: seq<Entry>, i: nat, latency: nat)
    requires Distinct(es) && i < |es|
    ensures Keys(Credited(es, i, latency)) == Keys(es) == Keys(Cleared(es))
    ensures AsMap(Credited(es, i, latency)) == AsMap(es)[KeyOf(es[i]) := Credited(es, i, latency)[i]]
  {
    UpdateIsMapUpdate(es, i, Credited(es, i, latency)[i]);
    assert forall j :: 0 <= j < |es| ==> KeyOf(Cleared(es)[j]) == KeyOf(es[j]);
  }

  // ------------------------------------------------------- whole histories

  /** One registry call; `Tally` is the statistics step of a dispatch. */
  datatype Op =
    | Put(key: Key, handler: int, context: int)
    | Drop(key: Key)
    | Tally(key: Key, latency: nat)
    | Clear

  function Run(es: seq<Entry>, op: Op): (es': seq<Entry>)
    requires |es| <= MAX_EVENT_HANDLERS
    ensures |es'| <= MAX_EVENT_HANDLERS
  {
    match op
    case Put(k, h, c) => Registered(es, k, h, c).0
    case Drop(k) => Unregistered(es, k).0
    case Tally(k, latency) => if Find(es, k) < |es| then Credited(es, Find(es, k), latency) else es
    case Clear => Cleared(es)
  }

  /** The same call on a map of bounded size. */
  ghost function RunMap(m: map<Key, Entry>, op: Op): map<Key, Entry> {
    match op
    case Put(k, h, c) => if k in m || |m| < MAX_EVENT_HANDLERS then m[k := NewEntry(k, h, c)] else m
    case Drop(k) => m - {k}
    case Tally(k, latency) =>
      if k in m
      then m[k := m[k].(invocations := Inc32(m[k].invocations), latency := Add64(m[k].latency, latency))]
      else m
    case Clear => map k | k in m :: m[k].(invocations := 0, latency := 0)
  }

  predicate Fits(op: Op) { op.Put? ==> |op.key.name| < MGMT_MODULE_NAME_SIZE }

  lemma SizeGrows(m: map<Key, Entry>, k: Key, e: Entry)
    requires k !in m
    ensures |m[k := e]| == |m| + 1
  {
    assert m[k := e].Keys == m.Keys + {k};
  }

  lemma {:induction false} SizeIs(es: seq<Entry>)
    requires Distinct(es)
    ensures |AsMap(es)| == |es|
  {
    if es == [] {
      assert AsMap(es) == map[];
    } else {
      var n := |es| - 1;
      var e := es[n];
      SizeIs(es[..n]);
      FindNone(es[..n], KeyOf(e));
      AppendIsMapUpdate(es[..n], e);
      assert es[..n] + [e] == es;
      SizeGrows(AsMap(es[..n]), KeyOf(e), e);
    }
  }

  lemma ResetIsMapReset(es: seq<Entry>)
    requires Distinct(es)
    ensures Distinct(Cleared(es)) && AsMap(Cleared(es)) == RunMap(AsMap(es), Clear)
  {
    var es' := Cleared(es);
    assert forall i :: 0 <= i < |es| ==> KeyOf(es'[i]) == KeyOf(es[i]);
    var m := RunMap(AsMap(es), Clear);
    forall x ensures Lookup(es', x) == if x in m then To(m[x]) else Null {
      var i := Find(es, x);
      if i < |es| { FindIs(es', i, x); } else { FindNone(es', x); }
    }
    MapIs(es', m);
  }

  lemma StepRefinesMap(es: seq<Entry>, op: Op)
    requires |es| <= MAX_EVENT_HANDLERS && Distinct(es) && Fits(op)
    ensures Distinct(Run(es, op)) && AsMap(Run(es, op)) == RunMap(AsMap(es), op)
  {
    match op {
      case Put(k, h, c) => RegisterRefinesMap(es, k, h, c); SizeIs(es);
      case Drop(k) => UnregisterRefinesMap(es, k);
      case Tally(k, latency) =>
        var i := Find(es, k);
        if i < |es| { UpdateIsMapUpdate(es, i, Credited(es, i, latency)[i]); }
      case Clear => ResetIsMapReset(es);
    }
  }

  function RunAll(es: seq<Entry>, ops: seq<Op>): (es': seq<Entry>)
    requires |es| <= MAX_EVENT_HANDLERS
    ensures |es'| <= MAX_EVENT_HANDLERS
    decreases |ops|
  {
    if ops == [] then es else RunAll(Run(es, ops[0]), ops[1..])
  }

  ghost function RunAllMap(m: map<Key, Entry>, ops: seq<Op>): map<Key, Entry>
    decreases |ops|
  {
    if ops == [] then m else RunAllMap(RunMap(m, ops[0]), ops[1..])
  }

  /** Every history of calls with names that fit leaves distinct keys and the
    * contents of a map of capacity 64 run through the same history. */
  lemma {:induction false} TableRefinesMap(es: seq<Entry>, ops: seq<Op>)
    requires |es| <= MAX_EVENT_HANDLERS && Distinct(es)
    requires forall i :: 0 <= i < |ops| ==> Fits(ops[i])
    ensures Distinct(RunAll(es, ops)) && AsMap(RunAll(es, ops)) == RunAllMap(AsMap(es), ops)
    decreases |ops|
  {
    if ops != [] {
      StepRefinesMap(es, ops[0]);
      TableRefinesMap(Run(es, ops[0]), ops[1..]);
    }
  }

  // ------------------------------------------------------- names that do not fit

  /** Names as registration stores them. */
  ghost predicate Stored(es: seq<Entry>) {
    forall i :: 0 <= i < |es| ==> |es[i].name| < MGMT_MODULE_NAME_SIZE
  }

  lemma LongNamesAreMissed(es: seq<Entry>, k: Key)
    requires Stored(es) && |k.name| >= MGMT_MODULE_NAME_SIZE
    ensures Find(es, k) == |es|
  {
    FirstMatch(es, k, |es|);
  }

  /** A name of 64 bytes or more is stored cut and compared whole, so a later
    * search for it never succeeds; one that fits is found again at once. */
  lemma FoundAgainExactly(es: seq<Entry>, k: Key, handler: int, context: int)
    requires |es| <= MAX_EVENT_HANDLERS && Stored(es) && Registered(es, k, handler, context).1 == 0
    ensures var es' := Registered(es, k, handler, context).0;
            Find(es', k) < |es'| <==> |k.name| < MGMT_MODULE_NAME_SIZE
  {
    var es' := Registered(es, k, handler, context).0;
    if |k.name| < MGMT_MODULE_NAME_SIZE {
      assert KeyOf(es'[Find(es, k)]) == k;
    } else {
      LongNamesAreMissed(es, k);
      LongNamesAreMissed(es', k);
    }
  }

  /** Whatever the table holds already, an accepted registration answers under
    * the name it is stored by exactly when the name fits or that name is new to
    * the table; otherwise the entry that was there still does. */
  lemma MostRecentWinsExactly(es: seq<Entry>, k: Key, handler: int, context: int)
    requires |es| <= MAX_EVENT_HANDLERS && Stored(es) && Registered(es, k, handler, context).1 == 0
    ensures var es' := Registered(es, k, handler, context).0;
            var stored := Key(Cut(k.name, MGMT_MODULE_NAME_SIZE), k.cmd);
            var was, now := Find(es, stored), Find(es', stored);
            && now < |es'|
            && if |k.name| < MGMT_MODULE_NAME_SIZE || was == |es|
               then es'[now] == NewEntry(k, handler, context)
               else now == was && es'[now] == es[was] && es' == es + [NewEntry(k, handler, context)]
  {
    var es' := Registered(es, k, handler, context).0;
    var stored := Key(Cut(k.name, MGMT_MODULE_NAME_SIZE), k.cmd);
    if |k.name| >= MGMT_MODULE_NAME_SIZE { LongNamesAreMissed(es, k); }
    FirstMatch(es', stored, Find(es, stored));
  }
}
