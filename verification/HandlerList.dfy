/** `handler_list`: the registry printed as JSON into a caller's buffer. */
module HandlerList {
  import opened HandlerTable
  import opened Registry
  import opened Json
  import opened Printing

  const HEADER: string := "{\"handlers\": ["

  function CommandStr(cmd: nat): string {
    match cmd
    case 0 => "PING"
    case 1 => "SET_LOG_LEVEL"
    case 2 => "GET_STATUS"
    case 3 => "GET_METRICS"
    case 4 => "SET_BUFFER_SIZE"
    case 5 => "ENABLE_PROFILING"
    case 6 => "RESET_METRICS"
    case 7 => "SHUTDOWN"
    case 8 => "GET_CONFIG"
    case 9 => "ENABLE_TRACING"
    case _ => "UNKNOWN"
  }

  function AvgLatency(e: Entry): nat {
    if e.invocations > 0 then e.latency / e.invocations else 0
  }

  function EntryText(e: Entry): string {
    "{" + Field("module", Quoted(e.name)) + "," + Field("command", Quoted(CommandStr(e.cmd)))
    + "," + Field("invocations", Dec(e.invocations)) + "," + Field("avg_latency_us", Dec(AvgLatency(e))) + "}"
  }

  function Tail(t: Table): string {
    "], " + Field("total_dispatches", " " + Dec(t.dispatches)) + ", "
    + Field("total_failures", " " + Dec(t.failures)) + "}"
  }

  function Texts(es: seq<Entry>): (ts: seq<string>)
    ensures |ts| == |es|
  {
    seq(|es|, i requires 0 <= i < |es| => EntryText(es[i]))
  }

  /** Texts separated by commas. */
  function Join(ts: seq<string>): string {
    if ts == [] then ""
    else if |ts| == 1 then ts[0]
    else Join(ts[..|ts| - 1]) + "," + ts[|ts| - 1]
  }

  function Document(t: Table): string {
    HEADER + Join(Texts(t.live)) + Tail(t)
  }

  // ----------------------------------------------------- the calls it makes

  /** The calls for one entry: a comma, unless it is the first, and its text. */
  function EntryCalls(size: nat, off: nat, comma: bool, len: nat): seq<Call> {
    if comma then [Call(off, Room(size, off), 1), Call(off + 1, Room(size, off + 1), len)]
    else [Call(off, Room(size, off), len)]
  }

  function Past(off: nat, comma: bool, len: nat): nat { off + (if comma then 1 else 0) + len }

  /** The calls from entry `i` on, given the lengths of the texts. */
  function CallsFrom(size: nat, off: nat, lens: seq<nat>, i: nat, tail: nat): seq<Call>
    requires i <= |lens|
    decreases |lens| - i
  {
    if i == |lens| then [Call(off, Room(size, off), tail)]
    else
      var next := Past(off, i > 0, lens[i]);
      EntryCalls(size, off, i > 0, lens[i]) +
      if next >= size - 1 then [] else CallsFrom(size, next, lens, i + 1, tail)
  }

  function Calls(size: nat, header: nat, lens: seq<nat>, tail: nat): seq<Call> {
    if size == 0 then [] else [Call(0, Room(size, 0), header)] + CallsFrom(size, header, lens, 0, tail)
  }

  function Lengths(ts: seq<string>): seq<nat> { seq(|ts|, i requires 0 <= i < |ts| => |ts[i]|) }

  // ----------------------------------------------------------- the printer

  lemma {:induction false} JoinGrows(ts: seq<string>, i: nat)
    requires i <= |ts|
    ensures |Join(ts[..i])| <= |Join(ts)|
  {
    if i < |ts| {
      var n := |ts| - 1;
      JoinGrows(ts[..n], i);
      assert ts[..n][..i] == ts[..i];
    } else {
      assert ts[..i] == ts;
    }
  }

  lemma JoinStep(head: string, ts: seq<string>, i: nat)
    requires i < |ts|
    ensures head + Join(ts[..i]) + (if i > 0 then "," else "") + ts[i] == head + Join(ts[..i + 1])
  {
    var us := ts[..i + 1];
    assert us[..i] == ts[..i] && us[i] == ts[i];
    if i > 0 {
      Regroup(head, Join(ts[..i]), ",", ts[i]);
      Regroup("", Join(ts[..i]), ",", ts[i]);
    } else {
      assert head + "" + "" == head;
    }
  }

  /** A comma, except before the first entry, and the entry. */
  method AppendEntry(buf: array<char>, off: nat, comma: bool, text: string, ghost before: string)
    returns (n: nat, ghost calls: seq<Call>)
    requires |before| == off && Shows(buf, before)
    modifies buf
    ensures off + n == Past(off, comma, |text|) && n == |(if comma then "," else "") + text|
    ensures Shows(buf, before + (if comma then "," else "") + text)
    ensures calls == EntryCalls(buf.Length, off, comma, |text|)
  {
    n, calls := 0, [];
    ghost var done, call := before + "", Call(0, 0, 0);
    if comma {
      n, call := Append(buf, off, ",", before);
      done, calls := before + ",", [call];
    }
    assert comma || done == before;
    var m;
    m, call := Append(buf, off + n, text, done);
    n, calls := n + m, calls + [call];
  }

  /** The calls made so far and those from entry `i` on are all there are. */
  ghost predicate Onward(all: seq<Call>, calls: seq<Call>, size: nat, off: nat, lens: seq<nat>, i: nat, tail: nat) {
    i <= |lens| && calls + CallsFrom(size, off, lens, i, tail) == all
  }

  lemma OnwardStart(size: nat, header: nat, lens: seq<nat>, tail: nat)
    requires size > 0
    ensures Onward(Calls(size, header, lens, tail), [Call(0, Room(size, 0), header)], size, header, lens, 0, tail)
  {
  }

  lemma OnwardEnd(all: seq<Call>, calls: seq<Call>, size: nat, off: nat, lens: seq<nat>, tail: nat)
    requires Onward(all, calls, size, off, lens, |lens|, tail)
    ensures calls + [Call(off, Room(size, off), tail)] == all
  {
  }

  lemma OnwardStep(
    all: seq<Call>, calls: seq<Call>, size: nat, off: nat, lens: seq<nat>, i: nat, tail: nat, more: seq<Call>)
    requires i < |lens| && Onward(all, calls, size, off, lens, i, tail)
    requires more == EntryCalls(size, off, i > 0, lens[i])
    ensures var next := Past(off, i > 0, lens[i]);
            if next >= size - 1 then calls + more == all
            else Onward(all, calls + more, size, next, lens, i + 1, tail)
  {
    var next := Past(off, i > 0, lens[i]);
    if next < size - 1 {
      var rest := CallsFrom(size, next, lens, i + 1, tail);
      assert calls + more + rest == calls + (more + rest);
    } else {
      assert more + [] == more;
    }
  }

  /** The header and the first `i` entries. */
  ghost function Upto(header: string, ts: seq<string>, i: nat): string
    requires i <= |ts|
  {
    header + Join(ts[..i])
  }

  lemma UptoEnds(header: string, ts: seq<string>)
    ensures Upto(header, ts, 0) == header && Upto(header, ts, |ts|) == header + Join(ts)
  {
    assert ts[..|ts|] == ts;
  }

  method PrintEntry(buf: array<char>, off: nat, ts: seq<string>, i: nat, ghost header: string)
    returns (n: nat, ghost calls: seq<Call>)
    requires i < |ts| && off == |Upto(header, ts, i)| && Shows(buf, Upto(header, ts, i))
    modifies buf
    ensures off + n == |Upto(header, ts, i + 1)| == Past(off, i > 0, |ts[i]|)
    ensures Shows(buf, Upto(header, ts, i + 1))
    ensures calls == EntryCalls(buf.Length, off, i > 0, |ts[i]|)
  {
    n, calls := AppendEntry(buf, off, i > 0, ts[i], Upto(header, ts, i));
    JoinStep(header, ts, i);
  }

  /** The printing loop, for any header, entries and tail: refused, with -1,
    * exactly when some entry did not leave room for two more bytes; otherwise
    * the number of entries, with as much of the document as fits. A cut tail
    * is not reported. It makes the calls listed above. */
  method Print(header: string, ts: seq<string>, tail: string, buf: array<char>)
    returns (code: int, ghost calls: seq<Call>)
    requires 1 <= buf.Length < 0x8000_0000 && |header| <= buf.Length
    modifies buf
    ensures code == -1 <==> ts != [] && |header + Join(ts)| >= buf.Length - 1
    ensures code != -1 ==> code == |ts| && Shows(buf, header + Join(ts) + tail)
    ensures calls == Calls(buf.Length, |header|, Lengths(ts), |tail|)
  {
    var size := buf.Length;
    ghost var lens := Lengths(ts);
    ghost var all := Calls(size, |header|, lens, |tail|);
    ghost var call, more;
    var offset;
    offset, call := Append(buf, 0, header, "");
    calls := [call];
    OnwardStart(size, |header|, lens, |tail|);
    UptoEnds(header, ts);
    assert "" + header == header;
    var i := 0;
    while i < |ts|
      invariant i <= |ts| && offset == |Upto(header, ts, i)| && Shows(buf, Upto(header, ts, i))
      invariant i > 0 ==> offset < size - 1
      invariant Onward(all, calls, size, offset, lens, i, |tail|)
    {
      var n;
      n, more := PrintEntry(buf, offset, ts, i, header);
      OnwardStep(all, calls, size, offset, lens, i, |tail|, more);
      offset, calls, i := offset + n, calls + more, i + 1;
      if offset >= size - 1 {
        JoinGrows(ts, i);
        return -1, calls;
      }
    }
    OnwardEnd(all, calls, size, offset, lens, |tail|);
    var n;
    n, call := Append(buf, offset, tail, header + Join(ts));
    return |ts|, calls + [call];
  }

  // ------------------------------------------------- staying inside the buffer

  predicate Inside(size: nat, c: Call) {
    c.room == 0 || c.off + (if c.len < c.room then c.len + 1 else c.room) <= size
  }

  ghost predicate AllInside(size: nat, cs: seq<Call>) {
    forall i :: 0 <= i < |cs| ==> Inside(size, cs[i])
  }

  lemma CallInside(size: nat, off: nat, len: nat)
    requires off <= size
    ensures Inside(size, Call(off, Room(size, off), len))
  {
  }

  lemma EntryInside(size: nat, off: nat, comma: bool, len: nat)
    requires if comma then off < size else off <= size
    ensures AllInside(size, EntryCalls(size, off, comma, len))
  {
    CallInside(size, off, if comma then 1 else len);
    if comma { CallInside(size, off + 1, len); }
  }

  lemma InsideAppend(size: nat, a: seq<Call>, b: seq<Call>)
    requires AllInside(size, a) && AllInside(size, b)
    ensures AllInside(size, a + b)
  {
  }

  lemma {:induction false} FromInside(size: nat, off: nat, lens: seq<nat>, i: nat, tail: nat)
    requires i <= |lens| && (if i == 0 then off <= size else off < size - 1)
    ensures AllInside(size, CallsFrom(size, off, lens, i, tail))
    decreases |lens| - i
  {
    if i == |lens| {
      CallInside(size, off, tail);
    } else {
      var next := Past(off, i > 0, lens[i]);
      EntryInside(size, off, i > 0, lens[i]);
      if next < size - 1 {
        FromInside(size, next, lens, i + 1, tail);
        InsideAppend(size, EntryCalls(size, off, i > 0, lens[i]), CallsFrom(size, next, lens, i + 1, tail));
      } else {
        InsideAppend(size, EntryCalls(size, off, i > 0, lens[i]), []);
      }
    }
  }

  /** Every write stays inside the buffer exactly when the header's length, 14,
    * does not exceed the buffer's, or the buffer is refused as empty. */
  lemma StaysInsideExactly(size: nat, header: nat, lens: seq<nat>, tail: nat)
    requires size < 0x8000_0000 && header < 0x8000_0000
    ensures AllInside(size, Calls(size, header, lens, tail)) <==> size == 0 || header <= size
  {
    if header <= size {
      FromInside(size, header, lens, 0, tail);
    } else if size > 0 {
      var c := CallsFrom(size, header, lens, 0, tail)[0];
      assert Calls(size, header, lens, tail)[1] == c;
      assert c.off == header && c.room == 0x1_0000_0000_0000_0000 - (header - size);
    }
  }

  // ------------------------------------------------------------ the whole call

  /** The return value, or that C gives the call no meaning. */
  datatype Listed = Returned(code: int) | Undefined

  /** `handler_list` for any buffer. `later` is the number of entries when it is
    * read for the return value, after the lock was given up. The call is
    * undefined exactly when one of its writes would leave the buffer. */
  method List(t: Table, later: nat, buf: array<char>) returns (r: Listed)
    requires buf.Length < 0x8000_0000
    modifies buf
    ensures r.Undefined? <==>
      !AllInside(buf.Length, Calls(buf.Length, |HEADER|, Lengths(Texts(t.live)), |Tail(t)|))
    ensures r == Returned(-1) <==>
      buf.Length == 0 || (|HEADER| <= buf.Length && t.live != [] && |HEADER + Join(Texts(t.live))| >= buf.Length - 1)
    ensures r.Returned? && r.code != -1 ==> r.code == later && Shows(buf, Document(t))
  {
    StaysInsideExactly(buf.Length, |HEADER|, Lengths(Texts(t.live)), |Tail(t)|);
    if buf.Length == 0 {
      return Returned(-1);
    }
    if buf.Length < |HEADER| {
      return Undefined;
    }
    var code, _ := Print(HEADER, Texts(t.live), Tail(t), buf);
    return Returned(if code == -1 then -1 else later);
  }
}
