/** What `handler_list` prints is JSON, and says what the registry holds. */
module HandlerListJson {
  import opened CText
  import opened HandlerTable
  import opened Registry
  import opened Json
  import opened JsonLookup
  import opened Printing
  import opened HandlerList

  /** What the document says about an entry. */
  function EntryValue(e: Entry): Value {
    Obj([Member("module", Str(e.name)), Member("command", Str(CommandStr(e.cmd))),
         Member("invocations", Num(e.invocations)), Member("avg_latency_us", Num(AvgLatency(e)))])
  }

  function Values(es: seq<Entry>): (vs: seq<Value>)
    ensures |vs| == |es| && forall i :: 0 <= i < |es| ==> vs[i] == EntryValue(es[i])
  {
    seq(|es|, i requires 0 <= i < |es| => EntryValue(es[i]))
  }

  function DocumentValue(t: Table): Value {
    Obj([Member("handlers", Arr(Values(t.live))),
         Member("total_dispatches", Num(t.dispatches)),
         Member("total_failures", Num(t.failures))])
  }

  lemma Members4(a: Member, b: Member, c: Member, d: Member)
    ensures CompactMembers([a, b, c, d]) ==
      CompactMember(a) + "," + (CompactMember(b) + "," + (CompactMember(c) + "," + CompactMember(d)))
  {
    assert [a, b, c, d][1..] == [b, c, d];
    assert [b, c, d][1..] == [c, d];
    assert [c, d][1..] == [d];
    assert CompactMembers([d]) == CompactMember(d);
    assert CompactMembers([c, d]) == CompactMember(c) + "," + CompactMember(d);
    assert CompactMembers([b, c, d]) == CompactMember(b) + "," + CompactMembers([c, d]);
  }

  lemma Flatten(a: string, b: string, c: string, d: string)
    ensures "{" + a + "," + b + "," + c + "," + d + "}" == "{" + (a + "," + (b + "," + (c + "," + d))) + "}"
  {
    var cd := c + "," + d;
    var bcd := b + "," + cd;
    Regroup("{" + a + "," + b, ",", c, "," + d);
    Regroup("{" + a, ",", b, "," + cd);
    Regroup("", "{" + a, ",", bcd);
    Regroup("{", a, ",", bcd);
    assert "{" + a + "," + b + "," + c + "," + d == "{" + a + "," + b + "," + cd;
    assert "{" + a + "," + b + "," + cd == "{" + a + "," + bcd;
    assert "{" + a + "," + bcd == "{" + (a + "," + bcd);
  }

  lemma EntryTextIsCompact(e: Entry)
    ensures EntryText(e) == Compact(EntryValue(e))
  {
    var a, b := Member("module", Str(e.name)), Member("command", Str(CommandStr(e.cmd)));
    var c, d := Member("invocations", Num(e.invocations)), Member("avg_latency_us", Num(AvgLatency(e)));
    Members4(a, b, c, d);
    Flatten(CompactMember(a), CompactMember(b), CompactMember(c), CompactMember(d));
  }

  lemma Shift(a: string, m: string, z: string)
    ensures a + "," + (m + "," + z) == a + "," + m + "," + z
  {
    Regroup(a + ",", m, ",", z);
    Regroup("", m, ",", z);
    assert "" + m == m;
  }

  lemma {:induction false} ItemsSnoc(vs: seq<Value>, v: Value)
    requires vs != []
    ensures CompactItems(vs + [v]) == CompactItems(vs) + "," + Compact(v)
  {
    var ws := vs + [v];
    assert ws[0] == vs[0] && ws[1..] == vs[1..] + [v];
    if |vs| == 1 {
      assert ws[1..] == [v];
    } else {
      ItemsSnoc(vs[1..], v);
      Shift(Compact(vs[0]), CompactItems(vs[1..]), Compact(v));
    }
  }

  /** Joining the texts of values is writing their list. */
  lemma {:induction false} JoinIsItems(ts: seq<string>, vs: seq<Value>)
    requires |ts| == |vs| && forall i :: 0 <= i < |ts| ==> ts[i] == Compact(vs[i])
    ensures Join(ts) == CompactItems(vs)
  {
    if ts != [] {
      var n := |ts| - 1;
      JoinIsItems(ts[..n], vs[..n]);
      assert vs == vs[..n] + [vs[n]];
      if n > 0 { ItemsSnoc(vs[..n], vs[n]); }
    }
  }

  lemma TextsAreItems(es: seq<Entry>)
    ensures Join(Texts(es)) == CompactItems(Values(es))
  {
    forall i | 0 <= i < |es| ensures Texts(es)[i] == Compact(Values(es)[i]) {
      EntryTextIsCompact(es[i]);
    }
    JoinIsItems(Texts(es), Values(es));
  }

  // ------------------------------------------------------- the whole document

  lemma SpaceBeforeValue(s: string)
    ensures ParseValue(" " + s) == ParseValue(s)
  {
    assert (" " + s)[0] == ' ' && (" " + s)[1..] == s;
    assert SkipWs(" " + s) == SkipWs(s);
  }

  lemma SpaceBeforeMembers(s: string)
    ensures ParseMembers(" " + s) == ParseMembers(s)
  {
    assert (" " + s)[0] == ' ' && (" " + s)[1..] == s;
    assert SkipWs(" " + s) == SkipWs(s);
  }

  lemma FieldText(name: string, text: string, tail: string)
    ensures Field(name, " " + text) + tail == Quoted(name) + (":" + (" " + (text + tail)))
  {
    Regroup(Quoted(name), ":", " " + text, tail);
    assert (" " + text) + tail == " " + (text + tail);
  }

  /** `"name": text` in front of `tail`. */
  lemma SpacedField(name: string, text: string, v: Value, tail: string)
    requires PlainText(name) && tail != [] && SkipWs(tail) == tail
    requires ParseValue(text + tail) == Ok(v, tail)
    ensures ParseMembers(Field(name, " " + text) + tail) == AfterMember(Member(name, v), tail)
  {
    SpaceBeforeValue(text + tail);
    MemberStep(name, " " + (text + tail), v, tail);
    FieldText(name, text, tail);
  }

  lemma LastField(name: string, text: string, v: Value)
    requires PlainText(name) && ParseValue(text + "}") == Ok(v, "}")
    ensures ParseMembers(Field(name, " " + text) + "}") == Ok([Member(name, v)], "")
  {
    SpacedField(name, text, v, "}");
  }

  lemma NextField(name: string, text: string, v: Value, rest: string, ms: seq<Member>)
    requires PlainText(name) && ParseMembers(rest) == Ok(ms, "")
    requires ParseValue(text + (", " + rest)) == Ok(v, ", " + rest)
    ensures ParseMembers(Field(name, " " + text) + (", " + rest)) == Ok([Member(name, v)] + ms, "")
  {
    CommaText(rest);
    SpacedField(name, text, v, ", " + rest);
    AfterComma(Member(name, v), rest, ms);
  }

  lemma CommaText(rest: string)
    ensures var tail := ", " + rest; tail[0] == ',' && tail[1..] == " " + rest && SkipWs(tail) == tail
  {
  }

  lemma AfterComma(m: Member, rest: string, ms: seq<Member>)
    requires ParseMembers(rest) == Ok(ms, "")
    ensures AfterMember(m, ", " + rest) == Ok([m] + ms, "")
  {
    CommaText(rest);
    SpaceBeforeMembers(rest);
  }

  lemma FieldNamesArePlain()
    ensures PlainText("handlers") && PlainText("total_dispatches") && PlainText("total_failures")
  {
  }

  lemma CommaIsNoDigit(rest: string)
    ensures NoDigit(", " + rest)
  {
  }

  function Failures(f: nat): string { Field("total_failures", " " + Dec(f)) + "}" }

  function Totals(d: nat, f: nat): string {
    Field("total_dispatches", " " + Dec(d)) + (", " + Failures(f))
  }

  function Members(text: string, d: nat, f: nat): string {
    Field("handlers", " " + text) + (", " + Totals(d, f))
  }

  lemma FailuresRead(f: nat)
    ensures ParseMembers(Failures(f)) == Ok([Member("total_failures", Num(f))], "")
  {
    FieldNamesArePlain();
    NumberParses(f, "}");
    LastField("total_failures", Dec(f), Num(f));
  }

  lemma TotalsRead(d: nat, f: nat)
    ensures ParseMembers(Totals(d, f)) == Ok([Member("total_dispatches", Num(d)), Member("total_failures", Num(f))], "")
  {
    FailuresRead(f);
    var last := [Member("total_failures", Num(f))];
    FieldNamesArePlain();
    CommaIsNoDigit(Failures(f));
    NumberParses(d, ", " + Failures(f));
    NextField("total_dispatches", Dec(d), Num(d), Failures(f), last);
    assert [Member("total_dispatches", Num(d))] + last == [Member("total_dispatches", Num(d)), last[0]];
  }

  lemma MembersRead(v: Value, d: nat, f: nat)
    requires Plain(v)
    ensures ParseMembers(Members(Compact(v), d, f)) ==
      Ok([Member("handlers", v), Member("total_dispatches", Num(d)), Member("total_failures", Num(f))], "")
  {
    FieldNamesArePlain();
    TotalsRead(d, f);
    var ms := [Member("total_dispatches", Num(d)), Member("total_failures", Num(f))];
    CommaIsNoDigit(Totals(d, f));
    CompactParses(v, ", " + Totals(d, f));
    NextField("handlers", Compact(v), v, Totals(d, f), ms);
    assert [Member("handlers", v)] + ms == [Member("handlers", v), ms[0], ms[1]];
  }

  lemma MembersOpen(text: string, d: nat, f: nat)
    ensures var u := Members(text, d, f); u != [] && u[0] == '"' && SkipWs(u) == u
  {
  }

  lemma DocumentText(t: Table)
    ensures Document(t) == "{" + Members(Compact(Arr(Values(t.live))), t.dispatches, t.failures)
  {
    TextsAreItems(t.live);
    HeaderText();
    Stitch(Quoted("handlers"), CompactItems(Values(t.live)),
           Field("total_dispatches", " " + Dec(t.dispatches)), Field("total_failures", " " + Dec(t.failures)));
  }

  lemma HeaderText()
    ensures HEADER == "{" + Quoted("handlers") + ":" + " ["
    ensures |HEADER| == 14
  {
  }

  lemma Stitch(h: string, items: string, d: string, f: string)
    ensures ("{" + h + ":" + " [") + items + ("], " + d + ", " + f + "}")
            == "{" + ((h + ":" + (" " + ("[" + items + "]"))) + (", " + (d + (", " + (f + "}")))))
  {
    var e := ", " + (f + "}");
    var g := ", " + (d + e);
    Regroup("], " + d, ", ", f, "}");
    assert "], " + d + e == "]" + g;
    var head := "{" + h + ":" + " [";
    assert head + items + ("]" + g) == (head + items + "]") + g;
    BracketText(h, items);
    assert ("{" + (h + ":" + (" " + ("[" + items + "]")))) + g == "{" + ((h + ":" + (" " + ("[" + items + "]"))) + g);
  }

  lemma BracketText(h: string, items: string)
    ensures "{" + h + ":" + " [" + items + "]" == "{" + (h + ":" + (" " + ("[" + items + "]")))
  {
    var b := " " + ("[" + items + "]");
    assert " [" + items + "]" == b;
    Regroup("{" + h + ":", " [", items, "]");
    Regroup("{", h, ":", b);
    Regroup("", h, ":", b);
    assert " [" + (items + "]") == b;
    assert "" + h == h;
  }

  ghost predicate PlainNames(es: seq<Entry>) {
    forall i :: 0 <= i < |es| ==> PlainText(es[i].name)
  }

  lemma FirstCommandsArePlain(cmd: nat)
    requires cmd <= 4
    ensures PlainText(CommandStr(cmd))
  {
    match cmd { case 0 => case 1 => case 2 => case 3 => case 4 => }
  }

  lemma CommandIsPlain(cmd: nat)
    ensures PlainText(CommandStr(cmd))
  {
    match cmd {
      case 5 => case 6 => case 7 => case 8 => case 9 =>
      case _ => if cmd <= 4 { FirstCommandsArePlain(cmd); }
    }
  }

  lemma EntryIsPlain(e: Entry)
    requires PlainText(e.name)
    ensures Plain(EntryValue(e))
  {
    CommandIsPlain(e.cmd);
    assert PlainText("module") && PlainText("command") && PlainText("invocations") && PlainText("avg_latency_us");
  }

  /** Read as JSON, the document gives back every entry in registration order,
    * with its counts, and the two totals, exactly when no name needs escaping. */
  lemma DocumentReadsBack(t: Table)
    ensures Parse(Document(t)) == Ok(DocumentValue(t), "") <==> PlainNames(t.live)
  {
    var vs := Values(t.live);
    if PlainNames(t.live) {
      forall i | 0 <= i < |vs| ensures Plain(vs[i]) { EntryIsPlain(t.live[i]); }
      MembersRead(Arr(vs), t.dispatches, t.failures);
      DocumentText(t);
      var u := Members(Compact(Arr(vs)), t.dispatches, t.failures);
      MembersOpen(Compact(Arr(vs)), t.dispatches, t.failures);
      ObjectOpens(u);
    } else if Parse(Document(t)) == Ok(DocumentValue(t), "") {
      ReadIsPlain(Document(t));
      DocumentPlain(t);
    }
  }

  lemma PlainItem(v: Value, i: nat)
    requires Plain(v) && v.Arr? && i < |v.items|
    ensures Plain(v.items[i])
  {
  }

  lemma PlainMember(v: Value, i: nat)
    requires Plain(v) && v.Obj? && i < |v.members|
    ensures Plain(v.members[i].value)
  {
  }

  lemma DocumentPlain(t: Table)
    requires Plain(DocumentValue(t))
    ensures PlainNames(t.live)
  {
    var v := Arr(Values(t.live));
    PlainMember(DocumentValue(t), 0);
    assert DocumentValue(t).members[0].value == v;
    forall i | 0 <= i < |t.live| ensures PlainText(t.live[i].name) {
      PlainItem(v, i);
      PlainMember(EntryValue(t.live[i]), 0);
      assert EntryValue(t.live[i]).members[0].value == Str(t.live[i].name);
    }
  }

  lemma {:induction false} JoinNulFree(ts: seq<string>)
    requires forall i :: 0 <= i < |ts| ==> NulFree(ts[i])
    ensures NulFree(Join(ts))
  {
    if |ts| > 1 { JoinNulFree(ts[..|ts| - 1]); }
  }

  lemma FieldNulFree(name: string, text: string)
    requires NulFree(name) && NulFree(text)
    ensures NulFree(Field(name, text)) && NulFree(Quoted(text))
  {
  }

  lemma EntryNulFree(e: Entry)
    requires PlainText(e.name)
    ensures NulFree(EntryText(e))
  {
    CommandIsPlain(e.cmd);
    var a, b := Quoted(e.name), Quoted(CommandStr(e.cmd));
    FieldNulFree("module", e.name);
    FieldNulFree("command", CommandStr(e.cmd));
    FieldNulFree("module", a);
    FieldNulFree("command", b);
    FieldNulFree("invocations", Dec(e.invocations));
    FieldNulFree("avg_latency_us", Dec(AvgLatency(e)));
    Parts(Field("module", a), Field("command", b),
          Field("invocations", Dec(e.invocations)), Field("avg_latency_us", Dec(AvgLatency(e))));
  }

  lemma Parts(a: string, b: string, c: string, d: string)
    requires NulFree(a) && NulFree(b) && NulFree(c) && NulFree(d)
    ensures NulFree("{" + a + "," + b + "," + c + "," + d + "}")
  {
  }

  lemma TailNulFree(t: Table)
    ensures NulFree(Tail(t))
  {
    var d, f := " " + Dec(t.dispatches), " " + Dec(t.failures);
    FieldNulFree("total_dispatches", d);
    FieldNulFree("total_failures", f);
  }

  lemma DocumentNulFree(t: Table)
    requires PlainNames(t.live)
    ensures NulFree(Document(t))
  {
    forall i | 0 <= i < |t.live| ensures NulFree(Texts(t.live)[i]) { EntryNulFree(t.live[i]); }
    JoinNulFree(Texts(t.live));
    TailNulFree(t);
    assert NulFree(HEADER);
  }

  /** A buffer with room for the whole document ends up holding JSON text that
    * reads back as the registry. */
  lemma BufferReadsBack(t: Table, buf: array<char>)
    requires Shows(buf, Document(t)) && |Document(t)| < buf.Length && PlainNames(t.live)
    ensures Parse(UpToNul(buf[..])) == Ok(DocumentValue(t), "")
  {
    DocumentNulFree(t);
    ShowsWhole(buf, Document(t));
    DocumentReadsBack(t);
  }

  /** Module, command, count and average can be told from the entry's text, for
    * the commands that have a name. */
  lemma EntryIsDetermined(a: Entry, b: Entry)
    requires EntryValue(a) == EntryValue(b) && a.cmd <= 9
    ensures KeyOf(a) == KeyOf(b) && a.invocations == b.invocations && AvgLatency(a) == AvgLatency(b)
  {
    var x, y := EntryValue(a).members, EntryValue(b).members;
    assert x[0] == y[0] && x[1] == y[1] && x[2] == y[2] && x[3] == y[3];
  }

  // ------------------------------------------------------------- looking it up

  /** What an entry of the list says under each of its names. */
  ghost predicate EntrySays(v: Value, e: Entry) {
    && v.Obj?
    && Pick(v.members, "module") == Is(Str(e.name))
    && Pick(v.members, "command") == Is(Str(CommandStr(e.cmd)))
    && Pick(v.members, "invocations") == Is(Num(e.invocations))
    && Pick(v.members, "avg_latency_us") == Is(Num(if e.invocations == 0 then 0 else e.latency / e.invocations))
  }

  lemma EntryLookup(e: Entry)
    ensures EntrySays(EntryValue(e), e)
  {
    var ms := EntryValue(e).members;
    assert ms[0].name == "module" && ms[1].name == "command";
    assert ms[2].name == "invocations" && ms[3].name == "avg_latency_us";
    PickIs(ms, 0);
    PickIs(ms, 1);
    PickIs(ms, 2);
    PickIs(ms, 3);
  }

  /** The document says, under their names, the two totals and, in registration
    * order, what each live entry holds. */
  ghost predicate DocumentSays(v: Value, t: Table) {
    && v.Obj?
    && Pick(v.members, "total_dispatches") == Is(Num(t.dispatches))
    && Pick(v.members, "total_failures") == Is(Num(t.failures))
    && var hs := Pick(v.members, "handlers");
       && hs.Is? && hs.value.Arr? && |hs.value.items| == |t.live|
       && forall i :: 0 <= i < |t.live| ==> EntrySays(hs.value.items[i], t.live[i])
  }

  lemma DocumentLookup(t: Table)
    ensures DocumentSays(DocumentValue(t), t)
  {
    var ms := DocumentValue(t).members;
    assert ms[0].name == "handlers" && ms[1].name == "total_dispatches" && ms[2].name == "total_failures";
    PickIs(ms, 0);
    PickIs(ms, 1);
    PickIs(ms, 2);
    forall i | 0 <= i < |t.live| ensures EntrySays(Values(t.live)[i], t.live[i]) { EntryLookup(t.live[i]); }
  }

  /** Looking each name up in the printed list gives what the registry holds. */
  lemma ListReadsBack(t: Table)
    requires PlainNames(t.live)
    ensures var r := Parse(Document(t)); r.Ok? && r.rest == "" && DocumentSays(r.value, t)
  {
    DocumentReadsBack(t);
    DocumentLookup(t);
  }
}
