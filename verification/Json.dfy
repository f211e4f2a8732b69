/** A reader for JSON text, following the grammar of sections 2 to 7 of RFC
  * 8259 without fractions, exponents, escapes and the three literal names,
  * and a compact writer. Everything the writer prints reads back. */
module Json {

  datatype Value =
    | Str(text: string)
    | Num(n: nat)
    | Arr(items: seq<Value>)
    | Obj(members: seq<Member>)

  datatype Member = Member(name: string, value: Value)

  datatype Parsed<T> = Fail | Ok(value: T, rest: string)

  // ---------------------------------------------------------------- numbers

  predicate IsDigit(c: char) { '0' <= c <= '9' }

  function Digit(d: nat): (c: char)
    requires d < 10
    ensures IsDigit(c) && c as int - '0' as int == d
  {
    (d + '0' as int) as char
  }

  /** `%u` and `%lu`. */
  function Dec(n: nat): (s: string)
    ensures s != [] && forall i :: 0 <= i < |s| ==> IsDigit(s[i])
    ensures (|s| == 1 <==> n < 10) && (n > 0 ==> s[0] != '0')
  {
    if n < 10 then [Digit(n)] else Dec(n / 10) + [Digit(n % 10)]
  }

  function Val(s: string): nat
    requires forall i :: 0 <= i < |s| ==> IsDigit(s[i])
  {
    if s == [] then 0
    else
      assert IsDigit(s[|s| - 1]);
      Val(s[..|s| - 1]) * 10 + (s[|s| - 1] as int - '0' as int)
  }

  lemma {:induction false} ValDec(n: nat)
    ensures Val(Dec(n)) == n
  {
    if n >= 10 {
      ValDec(n / 10);
      assert Dec(n)[..|Dec(n)| - 1] == Dec(n / 10);
    } else {
      assert Dec(n)[..0] == [];
    }
  }

  function Digits(s: string): (k: nat)
    ensures k <= |s| && (forall i :: 0 <= i < k ==> IsDigit(s[i]))
    ensures k == |s| || !IsDigit(s[k])
  {
    if s == [] || !IsDigit(s[0]) then 0 else 1 + Digits(s[1..])
  }

  predicate NoDigit(s: string) { s == [] || !IsDigit(s[0]) }

  lemma {:induction false} DigitsStop(d: string, rest: string)
    requires NoDigit(rest) && forall i :: 0 <= i < |d| ==> IsDigit(d[i])
    ensures Digits(d + rest) == |d|
  {
    if d == [] {
      assert d + rest == rest;
    } else {
      DigitsStop(d[1..], rest);
      assert (d + rest)[1..] == d[1..] + rest;
    }
  }

  // ---------------------------------------------------------------- strings

  /** Characters that stand for themselves inside a string. */
  predicate Unescaped(c: char) { c >= ' ' && c != '"' && c != '\\' }

  ghost predicate PlainText(s: string) {
    forall i :: 0 <= i < |s| ==> Unescaped(s[i])
  }

  function Run(s: string): (k: nat)
    ensures k <= |s| && (k == |s| || !Unescaped(s[k]))
    ensures forall i :: 0 <= i < k ==> Unescaped(s[i])
  {
    if s == [] || !Unescaped(s[0]) then 0 else 1 + Run(s[1..])
  }

  lemma {:induction false} RunStop(t: string, rest: string)
    requires PlainText(t) && (rest == [] || !Unescaped(rest[0]))
    ensures Run(t + rest) == |t|
  {
    if t == [] {
      assert t + rest == rest;
    } else {
      RunStop(t[1..], rest);
      assert (t + rest)[1..] == t[1..] + rest;
    }
  }

  function ParseString(s: string): (r: Parsed<string>)
    ensures r.Ok? ==> |r.rest| < |s|
  {
    if s == [] || s[0] != '"' then Fail
    else
      var k := 1 + Run(s[1..]);
      if k < |s| && s[k] == '"' then Ok(s[1..k], s[k + 1..]) else Fail
  }

  function Quoted(t: string): string { ['"'] + t + ['"'] }

  lemma QuotedParses(t: string, rest: string)
    requires PlainText(t)
    ensures ParseString(Quoted(t) + rest) == Ok(t, rest)
  {
    var s := Quoted(t) + rest;
    var tail := ['"'] + rest;
    assert s[1..] == t + tail;
    RunStop(t, tail);
    assert s[1..1 + |t|] == t;
    assert s[|t| + 1] == '"';
    assert s[|t| + 2..] == rest;
  }

  // ----------------------------------------------------------------- values

  function SkipWs(s: string): (r: string)
    ensures |r| <= |s|
  {
    if s != [] && s[0] in " \t\n\r" then SkipWs(s[1..]) else s
  }

  function ParseValue(s: string): (r: Parsed<Value>)
    ensures r.Ok? ==> |r.rest| < |s|
    decreases |s|, 0
  {
    var t := SkipWs(s);
    if t == [] then Fail
    else if t[0] == '"' then
      (match ParseString(t) case Fail => Fail case Ok(x, rest) => Ok(Str(x), rest))
    else if IsDigit(t[0]) then
      var k := Digits(t);
      if k > 1 && t[0] == '0' then Fail else Ok(Num(Val(t[..k])), t[k..])
    else if t[0] == '[' then
      var u := SkipWs(t[1..]);
      if u != [] && u[0] == ']' then Ok(Arr([]), u[1..])
      else (match ParseItems(u) case Fail => Fail case Ok(xs, rest) => Ok(Arr(xs), rest))
    else if t[0] == '{' then
      var u := SkipWs(t[1..]);
      if u != [] && u[0] == '}' then Ok(Obj([]), u[1..])
      else (match ParseMembers(u) case Fail => Fail case Ok(ms, rest) => Ok(Obj(ms), rest))
    else Fail
  }

  /** One or more values up to and including the closing bracket. */
  function ParseItems(s: string): (r: Parsed<seq<Value>>)
    ensures r.Ok? ==> |r.rest| < |s|
    decreases |s|, 1
  {
    match ParseValue(s)
    case Fail => Fail
    case Ok(v, rest) =>
      var t := SkipWs(rest);
      if t == [] then Fail
      else if t[0] == ']' then Ok([v], t[1..])
      else if t[0] == ',' then
        (match ParseItems(t[1..]) case Fail => Fail case Ok(vs, rest') => Ok([v] + vs, rest'))
      else Fail
  }

  /** One or more members up to and including the closing brace. */
  function ParseMembers(s: string): (r: Parsed<seq<Member>>)
    ensures r.Ok? ==> |r.rest| < |s|
    decreases |s|, 1
  {
    match ParseString(SkipWs(s))
    case Fail => Fail
    case Ok(name, rest) =>
      var t := SkipWs(rest);
      if t == [] || t[0] != ':' then Fail
      else
        match ParseValue(t[1..])
        case Fail => Fail
        case Ok(v, rest') =>
          var u := SkipWs(rest');
          if u == [] then Fail
          else if u[0] == '}' then Ok([Member(name, v)], u[1..])
          else if u[0] == ',' then
            (match ParseMembers(u[1..]) case Fail => Fail case Ok(ms, r'') => Ok([Member(name, v)] + ms, r''))
          else Fail
  }

  /** A document is one value with nothing but white space around it. */
  function Parse(s: string): Parsed<Value> {
    match ParseValue(s)
    case Fail => Fail
    case Ok(v, rest) => if SkipWs(rest) == [] then Ok(v, []) else Fail
  }

  // ---------------------------------------------------------------- writing

  function Compact(v: Value): (s: string)
    ensures s != [] && s[0] !in " \t\n\r]}"
    decreases v, 0
  {
    match v
    case Str(t) => Quoted(t)
    case Num(n) => Dec(n)
    case Arr(items) => "[" + CompactItems(items) + "]"
    case Obj(members) => "{" + CompactMembers(members) + "}"
  }

  /** One `"name":text` of a format string. */
  function Field(name: string, text: string): string { Quoted(name) + ":" + text }

  function CompactItems(vs: seq<Value>): string
    decreases vs, 1
  {
    if vs == [] then ""
    else if |vs| == 1 then Compact(vs[0])
    else Compact(vs[0]) + "," + CompactItems(vs[1..])
  }

  function CompactMember(m: Member): string
    decreases m, 1
  {
    Field(m.name, Compact(m.value))
  }

  function CompactMembers(ms: seq<Member>): string
    decreases ms, 2
  {
    if ms == [] then ""
    else if |ms| == 1 then CompactMember(ms[0])
    else CompactMember(ms[0]) + "," + CompactMembers(ms[1..])
  }

  /** Every string in the value can be written without escapes. */
  ghost predicate Plain(v: Value) {
    match v
    case Str(t) => PlainText(t)
    case Num(_) => true
    case Arr(items) => forall i :: 0 <= i < |items| ==> Plain(items[i])
    case Obj(members) => PlainMembers(members)
  }

  ghost predicate PlainMembers(members: seq<Member>) {
    forall i :: 0 <= i < |members| ==> PlainText(members[i].name) && Plain(members[i].value)
  }

  lemma NumberParses(n: nat, rest: string)
    requires NoDigit(rest)
    ensures ParseValue(Dec(n) + rest) == Ok(Num(n), rest)
  {
    var s := Dec(n) + rest;
    assert s[0] == Dec(n)[0];
    DigitsStop(Dec(n), rest);
    ValDec(n);
    assert s[..|Dec(n)|] == Dec(n) && s[|Dec(n)|..] == rest;
  }

  lemma StringParses(t: string, rest: string)
    requires PlainText(t)
    ensures ParseValue(Quoted(t) + rest) == Ok(Str(t), rest)
  {
    QuotedParses(t, rest);
    assert (Quoted(t) + rest)[0] == '"';
  }

  lemma ArrayOpens(u: string)
    requires u != [] && SkipWs(u) == u
    ensures ParseValue("[" + u) ==
      if u[0] == ']' then Ok(Arr([]), u[1..])
      else match ParseItems(u) case Fail => Fail case Ok(xs, rest) => Ok(Arr(xs), rest)
  {
    var s := "[" + u;
    assert s[0] == '[' && s[1..] == u && SkipWs(s) == s;
  }

  lemma ObjectOpens(u: string)
    requires u != [] && SkipWs(u) == u
    ensures ParseValue("{" + u) ==
      if u[0] == '}' then Ok(Obj([]), u[1..])
      else match ParseMembers(u) case Fail => Fail case Ok(ms, rest) => Ok(Obj(ms), rest)
  {
    var s := "{" + u;
    assert s[0] == '{' && s[1..] == u && SkipWs(s) == s;
  }

  /** Reading back what was written, in front of anything that is not a digit. */
  lemma {:induction false} CompactParses(v: Value, rest: string)
    requires Plain(v) && NoDigit(rest)
    ensures ParseValue(Compact(v) + rest) == Ok(v, rest)
    decreases v, 0
  {
    match v {
      case Str(t) => StringParses(t, rest);
      case Num(n) => NumberParses(n, rest);
      case Arr(items) =>
        if items != [] { ItemsParse(items, rest); }
        ArrayParses(items, rest);
      case Obj(members) =>
        if members != [] { MembersParse(members, rest); }
        ObjectParses(members, rest);
    }
  }

  lemma ArrayParses(items: seq<Value>, rest: string)
    requires items != [] ==> ParseItems(CompactItems(items) + ("]" + rest)) == Ok(items, rest)
    ensures ParseValue(Compact(Arr(items)) + rest) == Ok(Arr(items), rest)
  {
    var tail := "]" + rest;
    var u := CompactItems(items) + tail;
    assert Compact(Arr(items)) + rest == "[" + u;
    if items == [] {
      assert u == tail && tail[1..] == rest;
    } else {
      ItemsStart(items, tail);
    }
    ArrayOpens(u);
  }

  lemma ObjectParses(members: seq<Member>, rest: string)
    requires members != [] ==> ParseMembers(CompactMembers(members) + ("}" + rest)) == Ok(members, rest)
    ensures ParseValue(Compact(Obj(members)) + rest) == Ok(Obj(members), rest)
  {
    var tail := "}" + rest;
    var u := CompactMembers(members) + tail;
    assert Compact(Obj(members)) + rest == "{" + u;
    if members == [] {
      assert u == tail && tail[1..] == rest;
    } else {
      MembersStart(members, tail);
    }
    ObjectOpens(u);
  }

  lemma FirstOf(a: string, b: string)
    requires a != []
    ensures a + b != [] && (a + b)[0] == a[0]
  {
  }

  lemma ItemsStart(vs: seq<Value>, rest: string)
    requires vs != []
    ensures var s := CompactItems(vs) + rest; s != [] && SkipWs(s) == s && s[0] != ']'
  {
    var first, all := Compact(vs[0]), CompactItems(vs);
    if |vs| > 1 { FirstOf(first, ","); FirstOf(first + ",", CompactItems(vs[1..])); }
    assert all != [] && all[0] == first[0];
    FirstOf(all, rest);
  }

  lemma MembersStart(ms: seq<Member>, rest: string)
    requires ms != []
    ensures var s := CompactMembers(ms) + rest; s != [] && SkipWs(s) == s && s[0] == '"'
  {
    var first, all := CompactMember(ms[0]), CompactMembers(ms);
    FirstOf(Quoted(ms[0].name), ":");
    FirstOf(Quoted(ms[0].name) + ":", Compact(ms[0].value));
    assert first != [] && first[0] == '"';
    if |ms| > 1 { FirstOf(first, ","); FirstOf(first + ",", CompactMembers(ms[1..])); }
    assert all != [] && all[0] == first[0];
    FirstOf(all, rest);
  }

  // ------------------------------------------------- what can be read at all

  /** Whatever the reader returns could be written without escapes. */
  lemma {:induction false} ReadIsPlain(s: string)
    ensures ParseValue(s).Ok? ==> Plain(ParseValue(s).value)
    decreases |s|, 0
  {
    var t := SkipWs(s);
    if t != [] {
      var u := SkipWs(t[1..]);
      if t[0] == '[' { ItemsReadPlain(u); }
      if t[0] == '{' { MembersReadPlain(u); }
    }
  }

  lemma {:induction false} ItemsReadPlain(s: string)
    ensures ParseItems(s).Ok? ==> forall i :: 0 <= i < |ParseItems(s).value| ==> Plain(ParseItems(s).value[i])
    decreases |s|, 1
  {
    ReadIsPlain(s);
    if ParseValue(s).Ok? {
      var t := SkipWs(ParseValue(s).rest);
      if t != [] { ItemsReadPlain(t[1..]); }
    }
  }

  lemma {:induction false} MembersReadPlain(s: string)
    ensures ParseMembers(s).Ok? ==> PlainMembers(ParseMembers(s).value)
    decreases |s|, 1
  {
    if ParseMembers(s).Ok? {
      var (m, body, tail) := FirstMember(s);
      ReadIsPlain(body);
      MembersReadPlain(tail[1..]);
      AfterMemberPlain(m, tail);
    }
  }

  /** The first member of a list that reads, the text its value is read from and
    * what follows it. */
  ghost function FirstMember(s: string): (r: (Member, string, string))
    requires ParseMembers(s).Ok?
    ensures |r.1| < |s| && |r.2| < |s| && r.2 != [] && PlainText(r.0.name)
    ensures ParseValue(r.1).Ok? && ParseValue(r.1).value == r.0.value
    ensures ParseMembers(s) == AfterMember(r.0, r.2)
  {
    var name := ParseString(SkipWs(s));
    var body := SkipWs(name.rest)[1..];
    var v := ParseValue(body);
    (Member(name.value, v.value), body, SkipWs(v.rest))
  }

  lemma PlainCons(m: Member, ms: seq<Member>)
    requires PlainText(m.name) && Plain(m.value) && PlainMembers(ms)
    ensures PlainMembers([m] + ms)
  {
  }

  lemma AfterMemberPlain(m: Member, tail: string)
    requires tail != [] && PlainText(m.name) && Plain(m.value)
    requires ParseMembers(tail[1..]).Ok? ==> PlainMembers(ParseMembers(tail[1..]).value)
    ensures AfterMember(m, tail).Ok? ==> PlainMembers(AfterMember(m, tail).value)
  {
    PlainCons(m, []);
    assert [m] + [] == [m];
    if ParseMembers(tail[1..]).Ok? { PlainCons(m, ParseMembers(tail[1..]).value); }
  }

  /** What the reader does after a value of a list. */
  function AfterItem(v: Value, tail: string): (r: Parsed<seq<Value>>)
    requires tail != []
  {
    if tail[0] == ']' then Ok([v], tail[1..])
    else if tail[0] == ',' then
      (match ParseItems(tail[1..]) case Fail => Fail case Ok(vs, r) => Ok([v] + vs, r))
    else Fail
  }

  lemma ItemStep(s: string, v: Value, tail: string)
    requires tail != [] && SkipWs(tail) == tail && ParseValue(s) == Ok(v, tail)
    ensures ParseItems(s) == AfterItem(v, tail)
  {
  }

  /** What follows the first value of a list. */
  function ItemsTail(vs: seq<Value>, rest: string): (tail: string)
    requires vs != []
    ensures tail != [] && SkipWs(tail) == tail && NoDigit(tail)
  {
    if |vs| == 1 then "]" + rest else "," + (CompactItems(vs[1..]) + ("]" + rest))
  }

  lemma ItemsText(vs: seq<Value>, rest: string)
    requires vs != []
    ensures CompactItems(vs) + ("]" + rest) == Compact(vs[0]) + ItemsTail(vs, rest)
  {
    if |vs| > 1 {
      Regroup(Compact(vs[0]), ",", CompactItems(vs[1..]), "]" + rest);
    }
  }

  lemma {:induction false} ItemsParse(vs: seq<Value>, rest: string)
    requires vs != [] && forall i :: 0 <= i < |vs| ==> Plain(vs[i])
    ensures ParseItems(CompactItems(vs) + ("]" + rest)) == Ok(vs, rest)
    decreases vs, 1
  {
    var v, tail := vs[0], ItemsTail(vs, rest);
    CompactParses(v, tail);
    ItemStep(Compact(v) + tail, v, tail);
    ItemsText(vs, rest);
    if |vs| > 1 { ItemsParse(vs[1..], rest); }
    LastItem(vs, rest);
  }

  lemma LastItem(vs: seq<Value>, rest: string)
    requires vs != []
    requires |vs| > 1 ==> ParseItems(CompactItems(vs[1..]) + ("]" + rest)) == Ok(vs[1..], rest)
    ensures AfterItem(vs[0], ItemsTail(vs, rest)) == Ok(vs, rest)
  {
    var tail := ItemsTail(vs, rest);
    if |vs| == 1 {
      assert tail[1..] == rest && vs == [vs[0]];
    } else {
      assert tail[1..] == CompactItems(vs[1..]) + ("]" + rest);
      assert vs == [vs[0]] + vs[1..];
    }
  }

  /** What the reader does with the value of a member it has named. */
  function AfterMember(m: Member, tail: string): (r: Parsed<seq<Member>>)
    requires tail != []
  {
    if tail[0] == '}' then Ok([m], tail[1..])
    else if tail[0] == ',' then
      (match ParseMembers(tail[1..]) case Fail => Fail case Ok(ms, r) => Ok([m] + ms, r))
    else Fail
  }

  /** A name, a colon, a value after optional white space, and what follows. */
  lemma MemberStep(name: string, body: string, v: Value, tail: string)
    requires PlainText(name) && tail != [] && SkipWs(tail) == tail
    requires ParseValue(body) == Ok(v, tail)
    ensures ParseMembers(Quoted(name) + (":" + body)) == AfterMember(Member(name, v), tail)
  {
    var after := ":" + body;
    var s := Quoted(name) + after;
    assert s[0] == '"' && SkipWs(s) == s;
    QuotedParses(name, after);
    assert after[0] == ':' && SkipWs(after) == after && after[1..] == body;
  }

  /** What follows the value of the first member. */
  function MembersTail(ms: seq<Member>, rest: string): (tail: string)
    requires ms != []
    ensures tail != [] && SkipWs(tail) == tail && NoDigit(tail)
  {
    if |ms| == 1 then "}" + rest else "," + (CompactMembers(ms[1..]) + ("}" + rest))
  }

  lemma MembersText(ms: seq<Member>, rest: string)
    requires ms != []
    ensures CompactMembers(ms) + ("}" + rest)
            == Quoted(ms[0].name) + (":" + (Compact(ms[0].value) + MembersTail(ms, rest)))
  {
    var a, b := Quoted(ms[0].name), Compact(ms[0].value);
    if |ms| == 1 {
      Regroup(a, ":", b, "}" + rest);
    } else {
      var c, end := CompactMembers(ms[1..]), "}" + rest;
      Regroup(a + ":" + b, ",", c, end);
      Regroup(a, ":", b, "," + (c + end));
    }
  }

  lemma Regroup(a: string, b: string, c: string, d: string)
    ensures a + b + c + d == a + (b + (c + d))
  {
    assert (a + b) + c == a + (b + c);
    assert (a + (b + c)) + d == a + ((b + c) + d);
    assert (b + c) + d == b + (c + d);
  }

  lemma {:induction false} MembersParse(ms: seq<Member>, rest: string)
    requires ms != []
    requires forall i :: 0 <= i < |ms| ==> PlainText(ms[i].name) && Plain(ms[i].value)
    ensures ParseMembers(CompactMembers(ms) + ("}" + rest)) == Ok(ms, rest)
    decreases ms, 1
  {
    var m, tail := ms[0], MembersTail(ms, rest);
    CompactParses(m.value, tail);
    MemberStep(m.name, Compact(m.value) + tail, m.value, tail);
    MembersText(ms, rest);
    if |ms| > 1 { MembersParse(ms[1..], rest); }
    LastMember(ms, rest);
  }

  lemma LastMember(ms: seq<Member>, rest: string)
    requires ms != []
    requires |ms| > 1 ==> ParseMembers(CompactMembers(ms[1..]) + ("}" + rest)) == Ok(ms[1..], rest)
    ensures AfterMember(ms[0], MembersTail(ms, rest)) == Ok(ms, rest)
  {
    var tail := MembersTail(ms, rest);
    if |ms| == 1 {
      assert tail[1..] == rest && ms == [ms[0]];
    } else {
      assert tail[1..] == CompactMembers(ms[1..]) + ("}" + rest);
      assert ms == [ms[0]] + ms[1..];
    }
  }
}
