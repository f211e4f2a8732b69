/** The metrics printer's text is JSON that says what the snapshot holds. */
module SnapshotText {
  import opened CText
  import opened Json
  import opened JsonLookup
  import opened Printing
  import opened Metrics
  import opened MetricsJson

  // -------------------------------------------------------- text, right to left

  /** The pieces in front of `rest`. */
  function Then(ps: seq<string>, rest: string): string {
    if ps == [] then rest else ps[0] + Then(ps[1..], rest)
  }

  lemma {:induction false} CatThen(ps: seq<string>, rest: string)
    ensures Cat(ps) + rest == Then(ps, rest)
    decreases |ps|
  {
    if ps == [] {
      assert "" + rest == rest;
    } else {
      var n := |ps| - 1;
      CatThen(ps[..n], ps[n] + rest);
      assert (Cat(ps[..n]) + ps[n]) + rest == Cat(ps[..n]) + (ps[n] + rest);
      ThenSnoc(ps[..n], ps[n], rest);
      assert ps[..n] + [ps[n]] == ps;
    }
  }

  lemma {:induction false} ThenSnoc(ps: seq<string>, p: string, rest: string)
    ensures Then(ps + [p], rest) == Then(ps, p + rest)
    decreases |ps|
  {
    if ps == [] {
      assert (ps + [p])[1..] == [];
    } else {
      ThenSnoc(ps[1..], p, rest);
      assert (ps + [p])[1..] == ps[1..] + [p];
    }
  }

  lemma {:induction false} ThenAppend(ps: seq<string>, qs: seq<string>, rest: string)
    ensures Then(ps + qs, rest) == Then(ps, Then(qs, rest))
    decreases |ps|
  {
    if ps == [] {
      assert ps + qs == qs;
    } else {
      ThenAppend(ps[1..], qs, rest);
      assert (ps + qs)[1..] == ps[1..] + qs;
    }
  }

  lemma ThenOne(p: string, rest: string)
    ensures Then([p], rest) == p + rest
  {
    assert [p][1..] == [];
  }

  // ------------------------------------------------------------ reading members

  ghost predicate PlainNames(fs: seq<(string, nat)>) {
    forall i :: 0 <= i < |fs| ==> PlainText(fs[i].0)
  }

  function Numbers(fs: seq<(string, nat)>): (ms: seq<Member>)
    ensures |ms| == |fs| && forall i :: 0 <= i < |fs| ==> ms[i] == Member(fs[i].0, Num(fs[i].1))
  {
    seq(|fs|, i requires 0 <= i < |fs| => Member(fs[i].0, Num(fs[i].1)))
  }

  lemma FieldText(name: string, text: string, tail: string)
    ensures Field(name, text) + tail == Quoted(name) + (":" + (text + tail))
  {
    assert (Quoted(name) + ":") + text == Quoted(name) + (":" + text);
    assert (Quoted(name) + (":" + text)) + tail == Quoted(name) + ((":" + text) + tail);
    assert (":" + text) + tail == ":" + (text + tail);
  }

  lemma NumField(name: string, n: nat, tail: string)
    requires PlainText(name) && tail != [] && SkipWs(tail) == tail && NoDigit(tail)
    ensures ParseMembers(Field(name, Dec(n)) + tail) == AfterMember(Member(name, Num(n)), tail)
  {
    NumberParses(n, tail);
    MemberStep(name, Dec(n) + tail, Num(n), tail);
    FieldText(name, Dec(n), tail);
  }

  lemma CommaTail(rest: string)
    ensures var t := "," + rest; t[0] == ',' && t[1..] == rest && SkipWs(t) == t && NoDigit(t)
    ensures var t := "}" + rest; t[0] == '}' && t[1..] == rest && SkipWs(t) == t && NoDigit(t)
  {
  }

  lemma NumThen(name: string, n: nat, rest: string, ms: seq<Member>, end: string)
    requires PlainText(name) && ParseMembers(rest) == Ok(ms, end)
    ensures ParseMembers(Field(name, Dec(n)) + ("," + rest)) == Ok([Member(name, Num(n))] + ms, end)
  {
    CommaTail(rest);
    NumField(name, n, "," + rest);
  }

  lemma NumLast(name: string, n: nat, rest: string)
    requires PlainText(name)
    ensures ParseMembers(Field(name, Dec(n)) + ("}" + rest)) == Ok([Member(name, Num(n))], rest)
  {
    CommaTail(rest);
    NumField(name, n, "}" + rest);
  }

  lemma FieldsThen(fs: seq<(string, nat)>, rest: string)
    requires |fs| > 1
    ensures Then(FieldPieces(fs), rest) == Field(fs[0].0, Dec(fs[0].1)) + ("," + Then(FieldPieces(fs[1..]), rest))
  {
    var f, more := Field(fs[0].0, Dec(fs[0].1)), FieldPieces(fs[1..]);
    assert FieldPieces(fs)[1..] == more;
    assert (f + ",") + Then(more, rest) == f + ("," + Then(more, rest));
  }

  lemma OneFieldThen(f: (string, nat), rest: string)
    ensures Then(FieldPieces([f]), rest) == Field(f.0, Dec(f.1)) + rest
  {
    assert [f][1..] == [];
    assert FieldPieces([f]) == [Field(f.0, Dec(f.1)) + ""];
    assert Field(f.0, Dec(f.1)) + "" == Field(f.0, Dec(f.1));
    ThenOne(Field(f.0, Dec(f.1)), rest);
  }

  lemma {:induction false} FieldsRead(fs: seq<(string, nat)>, rest: string)
    requires fs != [] && PlainNames(fs)
    ensures ParseMembers(Then(FieldPieces(fs), "}" + rest)) == Ok(Numbers(fs), rest)
    decreases |fs|
  {
    if |fs| == 1 {
      SingleRead(fs, rest);
    } else {
      FieldsRead(fs[1..], rest);
      OneMore(fs, rest, Numbers(fs[1..]));
      NumbersCons(fs);
    }
  }

  lemma SingleRead(fs: seq<(string, nat)>, rest: string)
    requires |fs| == 1 && PlainNames(fs)
    ensures ParseMembers(Then(FieldPieces(fs), "}" + rest)) == Ok(Numbers(fs), rest)
  {
    var f := fs[0];
    var text := Then(FieldPieces([f]), "}" + rest);
    LastRead(f, rest);
    assert Numbers(fs) == [Member(f.0, Num(f.1))];
    assert ParseMembers(text) == Ok(Numbers(fs), rest);
    assert fs == [f];
  }

  lemma NumbersCons(fs: seq<(string, nat)>)
    requires fs != []
    ensures Numbers(fs) == [Member(fs[0].0, Num(fs[0].1))] + Numbers(fs[1..])
  {
  }

  lemma LastRead(f: (string, nat), rest: string)
    requires PlainText(f.0)
    ensures ParseMembers(Then(FieldPieces([f]), "}" + rest)) == Ok([Member(f.0, Num(f.1))], rest)
  {
    OneFieldThen(f, "}" + rest);
    NumLast(f.0, f.1, rest);
  }

  lemma OneMore(fs: seq<(string, nat)>, rest: string, ms: seq<Member>)
    requires |fs| > 1 && PlainText(fs[0].0)
    requires ParseMembers(Then(FieldPieces(fs[1..]), "}" + rest)) == Ok(ms, rest)
    ensures ParseMembers(Then(FieldPieces(fs), "}" + rest)) == Ok([Member(fs[0].0, Num(fs[0].1))] + ms, rest)
  {
    FieldsThen(fs, "}" + rest);
    NumThen(fs[0].0, fs[0].1, Then(FieldPieces(fs[1..]), "}" + rest), ms, rest);
  }

  lemma FieldsStart(fs: seq<(string, nat)>, rest: string)
    requires fs != []
    ensures var u := Then(FieldPieces(fs), rest); u != [] && u[0] == '"' && SkipWs(u) == u
  {
    var first, more := FieldPieces(fs)[0], Then(FieldPieces(fs)[1..], rest);
    FirstOf(Quoted(fs[0].0), ":");
    FirstOf(Quoted(fs[0].0) + ":", Dec(fs[0].1));
    FirstOf(Field(fs[0].0, Dec(fs[0].1)), if |fs| == 1 then "" else ",");
    FirstOf(first, more);
  }

  lemma GroupText(name: string, fs: seq<(string, nat)>, rest: string)
    ensures Then(GroupPieces(name, fs), rest)
            == Quoted(name) + (":" + ("{" + Then(FieldPieces(fs), "}" + ("," + rest))))
  {
    var inner := FieldPieces(fs);
    ThenAppend([Field(name, "{")] + inner, ["},"], rest);
    ThenOne("},", rest);
    assert "}," + rest == "}" + ("," + rest);
    ThenAppend([Field(name, "{")], inner, "}," + rest);
    ThenOne(Field(name, "{"), Then(inner, "}," + rest));
    FieldText(name, "{", Then(inner, "}," + rest));
  }

  lemma GroupRead(name: string, fs: seq<(string, nat)>, rest: string, ms: seq<Member>, end: string)
    requires PlainText(name) && fs != [] && PlainNames(fs) && ParseMembers(rest) == Ok(ms, end)
    ensures ParseMembers(Then(GroupPieces(name, fs), rest)) == Ok([Member(name, Obj(Numbers(fs)))] + ms, end)
  {
    var tail := "," + rest;
    var u := Then(FieldPieces(fs), "}" + tail);
    FieldsRead(fs, tail);
    FieldsStart(fs, "}" + tail);
    ObjectOpens(u);
    CommaTail(rest);
    MemberStep(name, "{" + u, Obj(Numbers(fs)), tail);
    GroupText(name, fs, rest);
  }

  // ----------------------------------------------------------------- the whole

  function Fields(s: Snapshot): seq<Member>
    requires s.timestamp >= 0
  {
    [Member("timestamp", Num(s.timestamp))] +
    ([Member("snapshot_id", Num(s.id))] + ([Member("uptime_seconds", Num(s.uptime))] + PartMembers(s)))
  }

  function PartMembers(s: Snapshot): seq<Member> {
    [Member("collector", Obj(Numbers(CollectorFields(s.counters.collector))))] +
    ([Member("router", Obj(Numbers(RouterFields(s.counters.router))))] +
     ([Member("viewer", Obj(Numbers(ViewerFields(s.counters.viewer))))] + Totals(s)))
  }

  function Totals(s: Snapshot): seq<Member> {
    [Member("total_events", Num(s.totalEvents))] + [Member("total_errors", Num(s.totalErrors))]
  }

  lemma TotalsRead(s: Snapshot)
    ensures ParseMembers(Then(TotalPieces(s), "")) == Ok(Totals(s), "")
  {
    var a, b := Field("total_events", Dec(s.totalEvents)), Field("total_errors", Dec(s.totalErrors));
    assert TotalPieces(s) == [a + ","] + [b + "}"];
    ThenAppend([a + ","], [b + "}"], "");
    ThenOne(b + "}", "");
    assert (b + "}") + "" == b + ("}" + "");
    ThenOne(a + ",", b + ("}" + ""));
    assert (a + ",") + (b + ("}" + "")) == a + ("," + (b + ("}" + "")));
    assert PlainText("total_events") && PlainText("total_errors");
    NumLast("total_errors", s.totalErrors, "");
    NumThen("total_events", s.totalEvents, b + ("}" + ""), [Member("total_errors", Num(s.totalErrors))], "");
  }

  lemma CollectorNamesArePlain(c: CollectorPart)
    ensures PlainNames(CollectorFields(c))
  {
    assert PlainText("events_processed") && PlainText("buffer_util_pct");
    assert PlainText("latency_avg_us") && PlainText("latency_p99_us");
  }

  lemma OtherNamesArePlain(r: RouterPart, v: ViewerPart)
    ensures PlainNames(RouterFields(r)) && PlainNames(ViewerFields(v))
  {
    assert PlainText("shm_reads_total") && PlainText("tcp_forwards_total") && PlainText("active_tcp_conns");
    assert PlainText("messages_processed") && PlainText("tcp_bytes_received") && PlainText("active_clients");
  }

  /** The text after the three leading numbers. */
  function Parts(s: Snapshot): string {
    Then(GroupPieces("collector", CollectorFields(s.counters.collector)),
         Then(GroupPieces("router", RouterFields(s.counters.router)),
              Then(GroupPieces("viewer", ViewerFields(s.counters.viewer)), Then(TotalPieces(s), ""))))
  }

  /** Three objects in front of a text that reads. */
  lemma ThreeGroups(a: string, f: seq<(string, nat)>, b: string, g: seq<(string, nat)>,
                    d: string, h: seq<(string, nat)>, t: string, ms: seq<Member>)
    requires PlainText(a) && PlainText(b) && PlainText(d) && ParseMembers(t) == Ok(ms, "")
    requires f != [] && g != [] && h != [] && PlainNames(f) && PlainNames(g) && PlainNames(h)
    ensures ParseMembers(Then(GroupPieces(a, f), Then(GroupPieces(b, g), Then(GroupPieces(d, h), t)))) ==
            Ok([Member(a, Obj(Numbers(f)))] + ([Member(b, Obj(Numbers(g)))] + ([Member(d, Obj(Numbers(h)))] + ms)), "")
  {
    GroupRead(d, h, t, ms, "");
    var ms3 := [Member(d, Obj(Numbers(h)))] + ms;
    var t3 := Then(GroupPieces(d, h), t);
    GroupRead(b, g, t3, ms3, "");
    GroupRead(a, f, Then(GroupPieces(b, g), t3), [Member(b, Obj(Numbers(g)))] + ms3, "");
  }

  lemma GroupNamesArePlain()
    ensures PlainText("collector") && PlainText("router") && PlainText("viewer")
    ensures PlainText("timestamp") && PlainText("snapshot_id") && PlainText("uptime_seconds")
  {
  }

  lemma PartsRead(s: Snapshot)
    ensures ParseMembers(Parts(s)) == Ok(PartMembers(s), "")
  {
    TotalsRead(s);
    CollectorNamesArePlain(s.counters.collector);
    OtherNamesArePlain(s.counters.router, s.counters.viewer);
    GroupNamesArePlain();
    ThreeGroups("collector", CollectorFields(s.counters.collector), "router", RouterFields(s.counters.router),
                "viewer", ViewerFields(s.counters.viewer), Then(TotalPieces(s), ""), Totals(s));
  }

  lemma PiecesText(s: Snapshot)
    ensures Cat(Pieces(s)) == HeadPiece(s) + Parts(s)
  {
    var c := GroupPieces("collector", CollectorFields(s.counters.collector));
    var r := GroupPieces("router", RouterFields(s.counters.router));
    var v := GroupPieces("viewer", ViewerFields(s.counters.viewer));
    var t := TotalPieces(s);
    CatThen(Pieces(s), "");
    assert Cat(Pieces(s)) + "" == Cat(Pieces(s));
    ThenAppend([HeadPiece(s)], c + (r + (v + t)), "");
    ThenAppend(c, r + (v + t), "");
    ThenAppend(r, v + t, "");
    ThenAppend(v, t, "");
    ThenOne(HeadPiece(s), Parts(s));
  }

  lemma HeadText(s: Snapshot, rest: string)
    requires s.timestamp >= 0
    ensures HeadPiece(s) + rest ==
      "{" + (Field("timestamp", Dec(s.timestamp)) + ("," + (Field("snapshot_id", Dec(s.id)) +
      ("," + (Field("uptime_seconds", Dec(s.uptime)) + ("," + rest))))))
  {
    Shift6("{", Field("timestamp", Dec(s.timestamp)), ",", Field("snapshot_id", Dec(s.id)), ",",
           Field("uptime_seconds", Dec(s.uptime)), ",", rest);
  }

  lemma Shift6(a: string, b: string, c: string, d: string, e: string, f: string, g: string, h: string)
    ensures (a + (b + (c + (d + (e + (f + g)))))) + h == a + (b + (c + (d + (e + (f + (g + h))))))
  {
    assert (f + g) + h == f + (g + h);
    assert (e + (f + g)) + h == e + ((f + g) + h);
    assert (d + (e + (f + g))) + h == d + ((e + (f + g)) + h);
    assert (c + (d + (e + (f + g)))) + h == c + ((d + (e + (f + g))) + h);
    assert (b + (c + (d + (e + (f + g))))) + h == b + ((c + (d + (e + (f + g)))) + h);
  }

  /** Three numbers in front of a text that reads, as an object. */
  lemma ThreeNumbers(a: string, x: nat, b: string, y: nat, d: string, z: nat, t: string, ms: seq<Member>)
    requires PlainText(a) && PlainText(b) && PlainText(d) && ParseMembers(t) == Ok(ms, "")
    ensures Parse("{" + (Field(a, Dec(x)) + ("," + (Field(b, Dec(y)) + ("," + (Field(d, Dec(z)) + ("," + t))))))) ==
            Ok(Obj([Member(a, Num(x))] + ([Member(b, Num(y))] + ([Member(d, Num(z))] + ms))), "")
  {
    NumThen(d, z, t, ms, "");
    var t3, ms3 := Field(d, Dec(z)) + ("," + t), [Member(d, Num(z))] + ms;
    NumThen(b, y, t3, ms3, "");
    var t2, ms2 := Field(b, Dec(y)) + ("," + t3), [Member(b, Num(y))] + ms3;
    NumThen(a, x, t2, ms2, "");
    Start(a, x, "," + t2);
    ObjectOpens(Field(a, Dec(x)) + ("," + t2));
  }

  /** The whole text reads as one object of these members. */
  lemma TextReads(s: Snapshot)
    requires s.timestamp >= 0
    ensures Parse(Cat(Pieces(s))) == Ok(Obj(Fields(s)), "")
  {
    PartsRead(s);
    GroupNamesArePlain();
    ThreeNumbers("timestamp", s.timestamp, "snapshot_id", s.id, "uptime_seconds", s.uptime, Parts(s), PartMembers(s));
    PiecesText(s);
    HeadText(s, Parts(s));
  }

  lemma Start(name: string, n: nat, rest: string)
    ensures var u := Field(name, Dec(n)) + rest; u != [] && u[0] == '"' && SkipWs(u) == u
  {
    FirstOf(Quoted(name), ":");
    FirstOf(Quoted(name) + ":", Dec(n));
    FirstOf(Field(name, Dec(n)), rest);
  }

  // ------------------------------------------------------------- looking it up

  lemma TopApart(s: Snapshot)
    requires s.timestamp >= 0
    ensures |Fields(s)| == 8 && Apart(Fields(s))
  {
    var ms := Fields(s);
    TopNames(ms);
  }

  lemma TopNames(ms: seq<Member>)
    requires |ms| == 8
    requires ms[0].name == "timestamp"
    requires ms[1].name == "snapshot_id"
    requires ms[2].name == "uptime_seconds"
    requires ms[3].name == "collector"
    requires ms[4].name == "router"
    requires ms[5].name == "viewer"
    requires ms[6].name == "total_events"
    requires ms[7].name == "total_errors"
    ensures Apart(ms)
  {
    // by length, or by the first letter that differs
    assert ms[0].name[0] == 't' && ms[3].name[0] == 'c';
    assert ms[4].name[0] == 'r' && ms[5].name[0] == 'v';
    assert ms[6].name[7] == 'v' && ms[7].name[7] == 'r';
  }

  lemma CollectorApart(c: CollectorPart)
    ensures Apart(Numbers(CollectorFields(c)))
  {
    var ms := Numbers(CollectorFields(c));
    assert ms[0].name == "events_processed" && ms[1].name == "buffer_util_pct";
    assert ms[2].name == "latency_avg_us" && ms[3].name == "latency_p99_us";
    assert ms[2].name[8] == 'a' && ms[3].name[8] == 'p';
  }

  lemma RouterApart(r: RouterPart)
    ensures Apart(Numbers(RouterFields(r)))
  {
    var ms := Numbers(RouterFields(r));
    assert ms[0].name == "shm_reads_total" && ms[1].name == "tcp_forwards_total" && ms[2].name == "active_tcp_conns";
  }

  lemma ViewerApart(v: ViewerPart)
    ensures Apart(Numbers(ViewerFields(v)))
  {
    var ms := Numbers(ViewerFields(v));
    assert ms[0].name == "messages_processed" && ms[1].name == "tcp_bytes_received" && ms[2].name == "active_clients";
    assert ms[0].name[0] == 'm' && ms[1].name[0] == 't';
  }

  /** What the text is for: following its names leads to the snapshot's fields. */
  ghost predicate Says(v: Value, s: Snapshot) {
    && NumberAt(v, ["timestamp"]) == s.timestamp
    && NumberAt(v, ["snapshot_id"]) == s.id
    && NumberAt(v, ["uptime_seconds"]) == s.uptime
    && NumberAt(v, ["total_events"]) == s.totalEvents
    && NumberAt(v, ["total_errors"]) == s.totalErrors
    && SaysCollector(v, s.counters.collector)
    && SaysRouter(v, s.counters.router)
    && SaysViewer(v, s.counters.viewer)
  }

  ghost predicate SaysCollector(v: Value, c: CollectorPart) {
    && NumberAt(v, ["collector", "events_processed"]) == c.events
    && NumberAt(v, ["collector", "buffer_util_pct"]) == c.bufferUtil
    && NumberAt(v, ["collector", "latency_avg_us"]) == c.latency.avg
    && NumberAt(v, ["collector", "latency_p99_us"]) == c.latency.p99
  }

  ghost predicate SaysRouter(v: Value, r: RouterPart) {
    && NumberAt(v, ["router", "shm_reads_total"]) == r.readsTotal
    && NumberAt(v, ["router", "tcp_forwards_total"]) == r.forwards
    && NumberAt(v, ["router", "active_tcp_conns"]) == r.conns
  }

  ghost predicate SaysViewer(v: Value, w: ViewerPart) {
    && NumberAt(v, ["viewer", "messages_processed"]) == w.messages
    && NumberAt(v, ["viewer", "tcp_bytes_received"]) == w.bytesReceived
    && NumberAt(v, ["viewer", "active_clients"]) == w.clients
  }

  lemma SaysTop(s: Snapshot)
    requires s.timestamp >= 0
    ensures var v := Obj(Fields(s));
            && NumberAt(v, ["timestamp"]) == s.timestamp && NumberAt(v, ["snapshot_id"]) == s.id
            && NumberAt(v, ["uptime_seconds"]) == s.uptime
            && NumberAt(v, ["total_events"]) == s.totalEvents && NumberAt(v, ["total_errors"]) == s.totalErrors
  {
    var ms := Fields(s);
    TopApart(s);
    NumberIs(ms, 0, s.timestamp);
    NumberIs(ms, 1, s.id);
    NumberIs(ms, 2, s.uptime);
    NumberIs(ms, 6, s.totalEvents);
    NumberIs(ms, 7, s.totalErrors);
  }

  lemma SaysParts(s: Snapshot)
    requires s.timestamp >= 0
    ensures var v := Obj(Fields(s));
            SaysCollector(v, s.counters.collector) && SaysRouter(v, s.counters.router)
            && SaysViewer(v, s.counters.viewer)
  {
    var ms := Fields(s);
    TopApart(s);
    CollectorNumbers(ms, s.counters.collector);
    RouterNumbers(ms, s.counters.router);
    ViewerNumbers(ms, s.counters.viewer);
  }

  lemma CollectorNumbers(ms: seq<Member>, c: CollectorPart)
    requires |ms| > 3 && Apart(ms) && ms[3] == Member("collector", Obj(Numbers(CollectorFields(c))))
    ensures SaysCollector(Obj(ms), c)
  {
    var inner := Numbers(CollectorFields(c));
    CollectorApart(c);
    NestedIs(ms, 3, inner, 0, c.events);
    NestedIs(ms, 3, inner, 1, c.bufferUtil);
    NestedIs(ms, 3, inner, 2, c.latency.avg);
    NestedIs(ms, 3, inner, 3, c.latency.p99);
  }

  lemma RouterNumbers(ms: seq<Member>, r: RouterPart)
    requires |ms| > 4 && Apart(ms) && ms[4] == Member("router", Obj(Numbers(RouterFields(r))))
    ensures SaysRouter(Obj(ms), r)
  {
    var inner := Numbers(RouterFields(r));
    RouterApart(r);
    NestedIs(ms, 4, inner, 0, r.readsTotal);
    NestedIs(ms, 4, inner, 1, r.forwards);
    NestedIs(ms, 4, inner, 2, r.conns);
  }

  lemma ViewerNumbers(ms: seq<Member>, v: ViewerPart)
    requires |ms| > 5 && Apart(ms) && ms[5] == Member("viewer", Obj(Numbers(ViewerFields(v))))
    ensures SaysViewer(Obj(ms), v)
  {
    var inner := Numbers(ViewerFields(v));
    ViewerApart(v);
    NestedIs(ms, 5, inner, 0, v.messages);
    NestedIs(ms, 5, inner, 1, v.bytesReceived);
    NestedIs(ms, 5, inner, 2, v.clients);
  }

  /** For every snapshot not from before 1970 the printed text is JSON with nothing
    * left over, and looking each name up in it gives that field. */
  lemma SnapshotReadsBack(s: Snapshot)
    requires s.timestamp >= 0
    ensures var r := Parse(Cat(Pieces(s))); r.Ok? && r.rest == "" && Says(r.value, s)
  {
    TextReads(s);
    SaysTop(s);
    SaysParts(s);
  }

  /** So equal texts mean equal printed fields. */
  lemma TextDetermines(s: Snapshot, t: Snapshot)
    requires s.timestamp >= 0 && t.timestamp >= 0 && Cat(Pieces(s)) == Cat(Pieces(t))
    ensures s.timestamp == t.timestamp && s.id == t.id && s.uptime == t.uptime
    ensures s.totalEvents == t.totalEvents && s.totalErrors == t.totalErrors
    ensures CollectorFields(s.counters.collector) == CollectorFields(t.counters.collector)
    ensures RouterFields(s.counters.router) == RouterFields(t.counters.router)
    ensures ViewerFields(s.counters.viewer) == ViewerFields(t.counters.viewer)
  {
    SnapshotReadsBack(s);
    SnapshotReadsBack(t);
  }

  // ---------------------------------------------------------------- in a buffer

  lemma {:induction false} CatNulFree(ps: seq<string>)
    requires forall i :: 0 <= i < |ps| ==> NulFree(ps[i])
    ensures NulFree(Cat(ps))
  {
    if ps != [] { CatNulFree(ps[..|ps| - 1]); }
  }

  lemma FieldNulFree(name: string, text: string)
    requires NulFree(name) && NulFree(text)
    ensures NulFree(Field(name, text))
  {
  }

  lemma JoinedNulFree(a: string, b: string)
    requires NulFree(a) && NulFree(b)
    ensures NulFree(a + b)
  {
  }

  ghost predicate NulFreeNames(fs: seq<(string, nat)>) { forall i :: 0 <= i < |fs| ==> NulFree(fs[i].0) }

  lemma PlainIsNulFree(fs: seq<(string, nat)>)
    requires PlainNames(fs)
    ensures NulFreeNames(fs)
  {
  }

  ghost predicate AllNulFree(ps: seq<string>) { forall i :: 0 <= i < |ps| ==> NulFree(ps[i]) }

  lemma {:induction false} FieldsNulFree(fs: seq<(string, nat)>)
    requires NulFreeNames(fs)
    ensures AllNulFree(FieldPieces(fs))
    decreases |fs|
  {
    if fs != [] {
      FieldsNulFree(fs[1..]);
      FieldNulFree(fs[0].0, Dec(fs[0].1));
      JoinedNulFree(Field(fs[0].0, Dec(fs[0].1)), if |fs| == 1 then "" else ",");
    }
  }

  lemma GroupNulFree(name: string, fs: seq<(string, nat)>)
    requires NulFree(name) && NulFreeNames(fs)
    ensures AllNulFree(GroupPieces(name, fs))
  {
    FieldsNulFree(fs);
    FieldNulFree(name, "{");
  }

  lemma EndsNulFree(s: Snapshot)
    ensures NulFree(HeadPiece(s)) && AllNulFree(TotalPieces(s))
  {
    var a, b, d := Field("timestamp", Signed(s.timestamp)), Field("snapshot_id", Dec(s.id)),
                   Field("uptime_seconds", Dec(s.uptime));
    FieldNulFree("timestamp", Signed(s.timestamp));
    FieldNulFree("snapshot_id", Dec(s.id));
    FieldNulFree("uptime_seconds", Dec(s.uptime));
    JoinedNulFree(d, ",");
    JoinedNulFree(",", d + ",");
    JoinedNulFree(b, "," + (d + ","));
    JoinedNulFree(",", b + ("," + (d + ",")));
    JoinedNulFree(a, "," + (b + ("," + (d + ","))));
    JoinedNulFree("{", a + ("," + (b + ("," + (d + ",")))));
    FieldNulFree("total_events", Dec(s.totalEvents));
    FieldNulFree("total_errors", Dec(s.totalErrors));
    JoinedNulFree(Field("total_events", Dec(s.totalEvents)), ",");
    JoinedNulFree(Field("total_errors", Dec(s.totalErrors)), "}");
  }

  lemma PiecesNulFree(s: Snapshot)
    ensures AllNulFree(Pieces(s))
  {
    CollectorNamesArePlain(s.counters.collector);
    OtherNamesArePlain(s.counters.router, s.counters.viewer);
    PlainIsNulFree(CollectorFields(s.counters.collector));
    PlainIsNulFree(RouterFields(s.counters.router));
    PlainIsNulFree(ViewerFields(s.counters.viewer));
    GroupNulFree("collector", CollectorFields(s.counters.collector));
    GroupNulFree("router", RouterFields(s.counters.router));
    GroupNulFree("viewer", ViewerFields(s.counters.viewer));
    EndsNulFree(s);
  }

  /** A buffer the printer filled without giving up holds a C string that says
    * what the snapshot holds. */
  lemma BufferReadsBack(s: Snapshot, buf: array<char>)
    requires s.timestamp >= 0 && |Cat(Pieces(s))| < buf.Length
    requires buf[..|Cat(Pieces(s))|] == Cat(Pieces(s)) && buf[|Cat(Pieces(s))|] == NUL
    ensures var r := Parse(UpToNul(buf[..])); r.Ok? && r.rest == "" && Says(r.value, s)
  {
    PiecesNulFree(s);
    CatNulFree(Pieces(s));
    UpToNulIs(buf[..], Cat(Pieces(s)));
    SnapshotReadsBack(s);
  }
}
