/** `metrics_snapshot_to_json`: pieces appended to a buffer one after the
  * other, giving up as soon as fewer than two bytes would be left. */
module MetricsJson {
  import opened CText
  import opened Json
  import opened Printing
  import opened Metrics

  function Cat(ps: seq<string>): string {
    if ps == [] then "" else Cat(ps[..|ps| - 1]) + ps[|ps| - 1]
  }

  lemma {:induction false} CatGrows(ps: seq<string>, i: nat)
    requires i <= |ps|
    ensures |Cat(ps[..i])| <= |Cat(ps)|
  {
    if i < |ps| {
      var n := |ps| - 1;
      CatGrows(ps[..n], i);
      assert ps[..n][..i] == ps[..i];
    } else {
      assert ps[..i] == ps;
    }
  }

  /** `%ld`. */
  function Signed(n: int): string { if n < 0 then "-" + Dec(-n) else Dec(n) }

  /** The numbers printed for each process, under the names they are given. */
  function CollectorFields(c: CollectorPart): seq<(string, nat)> {
    [("events_processed", c.events), ("buffer_util_pct", c.bufferUtil),
     ("latency_avg_us", c.latency.avg), ("latency_p99_us", c.latency.p99)]
  }

  function RouterFields(r: RouterPart): seq<(string, nat)> {
    [("shm_reads_total", r.readsTotal), ("tcp_forwards_total", r.forwards), ("active_tcp_conns", r.conns)]
  }

  function ViewerFields(v: ViewerPart): seq<(string, nat)> {
    [("messages_processed", v.messages), ("tcp_bytes_received", v.bytesReceived), ("active_clients", v.clients)]
  }

  /** One append per number, with a comma after all but the last. */
  function FieldPieces(fs: seq<(string, nat)>): seq<string> {
    if fs == [] then []
    else [Field(fs[0].0, Dec(fs[0].1)) + if |fs| == 1 then "" else ","] + FieldPieces(fs[1..])
  }

  function GroupPieces(name: string, fs: seq<(string, nat)>): seq<string> {
    [Field(name, "{")] + FieldPieces(fs) + ["},"]
  }

  function HeadPiece(s: Snapshot): string {
    "{" + (Field("timestamp", Signed(s.timestamp)) +
    ("," + (Field("snapshot_id", Dec(s.id)) + ("," + (Field("uptime_seconds", Dec(s.uptime)) + ",")))))
  }

  function TotalPieces(s: Snapshot): seq<string> {
    [Field("total_events", Dec(s.totalEvents)) + ",", Field("total_errors", Dec(s.totalErrors)) + "}"]
  }

  function Pieces(s: Snapshot): (ps: seq<string>)
    ensures ps != []
  {
    [HeadPiece(s)] +
    (GroupPieces("collector", CollectorFields(s.counters.collector)) +
     (GroupPieces("router", RouterFields(s.counters.router)) +
      (GroupPieces("viewer", ViewerFields(s.counters.viewer)) + TotalPieces(s))))
  }

  /** The append loop for any pieces: the whole length when it leaves at least
    * two bytes of the buffer, with the whole text in it, and -1 otherwise. */
  method Print(ps: seq<string>, buf: array<char>) returns (code: int)
    requires ps != [] && buf.Length < 0x8000_0000
    modifies buf
    ensures if |Cat(ps)| <= buf.Length - 2
            then code == |Cat(ps)| && buf[..code] == Cat(ps) && buf[code] == NUL
            else code == -1
  {
    if buf.Length == 0 {
      return -1;
    }
    var offset, i := 0, 0;
    while i < |ps|
      invariant i <= |ps| && offset == |Cat(ps[..i])|
      invariant i > 0 ==> offset < buf.Length - 1 && Printing.Shows(buf, Cat(ps[..i]))
    {
      var n, _ := Append(buf, offset, ps[i], Cat(ps[..i]));
      offset := offset + n;
      assert ps[..i + 1][..i] == ps[..i];
      i := i + 1;
      if offset >= buf.Length - 1 {
        CatGrows(ps, i);
        return -1;
      }
    }
    assert ps[..i] == ps;
    return offset;
  }

  method SnapshotToJson(s: Snapshot, buf: array<char>) returns (code: int)
    requires buf.Length < 0x8000_0000
    modifies buf
    ensures var text := Cat(Pieces(s));
            if |text| <= buf.Length - 2
            then code == |text| && buf[..code] == text && buf[code] == NUL
            else code == -1
  {
    code := Print(Pieces(s), buf);
  }
}
