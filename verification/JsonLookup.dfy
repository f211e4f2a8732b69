/** Looking names up in what was read. */
module JsonLookup {
  import opened Json

  datatype Found = Missing | Is(value: Value)

  /** The value of the first member of that name. */
  function Pick(ms: seq<Member>, name: string): Found {
    if ms == [] then Missing else if ms[0].name == name then Is(ms[0].value) else Pick(ms[1..], name)
  }

  /** The number found by following names from the outside in, or -1. */
  function NumberAt(v: Value, path: seq<string>): int
    decreases |path|
  {
    if path == [] then (if v.Num? then v.n else -1)
    else if !v.Obj? then -1
    else match Pick(v.members, path[0]) case Missing => -1 case Is(w) => NumberAt(w, path[1..])
  }

  lemma {:induction false} PickIs(ms: seq<Member>, i: nat)
    requires i < |ms| && forall j :: 0 <= j < i ==> ms[j].name != ms[i].name
    ensures Pick(ms, ms[i].name) == Is(ms[i].value)
    decreases |ms|
  {
    if i > 0 {
      assert ms[1..][i - 1] == ms[i];
      PickIs(ms[1..], i - 1);
    }
  }

  lemma NumberIs(ms: seq<Member>, i: nat, n: nat)
    requires i < |ms| && ms[i].value == Num(n) && forall j :: 0 <= j < i ==> ms[j].name != ms[i].name
    ensures NumberAt(Obj(ms), [ms[i].name]) == n
  {
    PickIs(ms, i);
    assert [ms[i].name][1..] == [];
  }

  lemma NestedIs(ms: seq<Member>, i: nat, inner: seq<Member>, j: nat, n: nat)
    requires i < |ms| && ms[i].value == Obj(inner) && forall k :: 0 <= k < i ==> ms[k].name != ms[i].name
    requires j < |inner| && inner[j].value == Num(n) && forall k :: 0 <= k < j ==> inner[k].name != inner[j].name
    ensures NumberAt(Obj(ms), [ms[i].name, inner[j].name]) == n
  {
    PickIs(ms, i);
    NumberIs(inner, j, n);
    assert [ms[i].name, inner[j].name][1..] == [inner[j].name];
  }

  ghost predicate Apart(ms: seq<Member>) {
    forall i, j :: 0 <= i < j < |ms| ==> ms[i].name != ms[j].name
  }
}
