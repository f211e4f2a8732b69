/** Management requests and responses, and the latency computed from their
  * timestamps. */
module MgmtProtocol {
  import opened CText
  import opened HandlerTable

  const MGMT_RESULT_OK: int := 0
  const MGMT_RESULT_INVALID_CMD: int := 1
  const MGMT_RESULT_MODULE_NOT_FOUND: int := 2
  const MGMT_RESULT_HANDLER_FAILED: int := 3
  const MGMT_PAYLOAD_REQUEST_SIZE: nat := 512

  datatype Timespec = Timespec(sec: int, nsec: int)

  datatype Request = Request(id: nat, cmd: nat, target: string, payloadLen: nat, timestamp: Timespec)

  datatype Response = Response(
    id: nat, code: int, requestTime: Timespec, responseTime: Timespec, source: string)

  const ZERO_TIME: Timespec := Timespec(0, 0)

  /** C division truncates towards zero. */
  function TruncDiv(a: int, b: int): int
    requires b > 0
  {
    if a >= 0 then a / b else -(-a / b)
  }

  /** A timestamp in microseconds, in unsigned 64-bit arithmetic. */
  function Micros(t: Timespec): (us: nat)
    ensures us < 0x1_0000_0000_0000_0000
  {
    (t.sec * 1_000_000 + TruncDiv(t.nsec, 1000)) % 0x1_0000_0000_0000_0000
  }

  function LatencyUs(resp: Response): nat {
    var req, res := Micros(resp.requestTime), Micros(resp.responseTime);
    if res > req then res - req else 0
  }

  function Nanos(t: Timespec): int { t.sec * 1_000_000_000 + t.nsec }

  /** A clock reading: normalised, and small enough not to wrap. */
  predicate Sane(t: Timespec) {
    0 <= t.nsec < 1_000_000_000 && 0 <= t.sec && t.sec * 1_000_000 + 1_000_000 <= 0x1_0000_0000_0000_0000
  }

  lemma MicrosOfSane(t: Timespec)
    requires Sane(t)
    ensures 0 <= Nanos(t) - 1000 * Micros(t) < 1000
  {
    assert Micros(t) == t.sec * 1_000_000 + t.nsec / 1000;
  }

  lemma LatencyFromZero(resp: Response)
    requires resp.requestTime == ZERO_TIME
    ensures LatencyUs(resp) == Micros(resp.responseTime)
  {
    assert Micros(ZERO_TIME) == 0;
  }

  /** The latency is the response time minus the request time, never negative
    * and less than one microsecond off. */
  lemma LatencyIsAccurate(resp: Response)
    requires Sane(resp.requestTime) && Sane(resp.responseTime)
    ensures var exact := Nanos(resp.responseTime) - Nanos(resp.requestTime);
            && (exact >= 0 ==> -1000 < 1000 * LatencyUs(resp) - exact < 1000)
            && (exact <= 0 ==> LatencyUs(resp) == 0)
  {
    MicrosOfSane(resp.requestTime);
    MicrosOfSane(resp.responseTime);
  }

  /** `mgmt_response_init` clears the whole response first. */
  function ResponseInit(id: nat, code: int, source: string, now: Timespec): Response {
    Response(id, code, ZERO_TIME, now, Cut(source, MGMT_MODULE_NAME_SIZE))
  }

  /** Every shipped handler answers through `mgmt_response_init`, which erases
    * the request time stored just before, so the latency recorded for it is
    * the wall-clock reading itself. */
  lemma ShippedLatencyIsTheClock(id: nat, code: int, source: string, now: Timespec)
    requires Sane(now)
    ensures LatencyUs(ResponseInit(id, code, source, now)) == Micros(now)
    ensures 0 <= Nanos(now) - 1000 * LatencyUs(ResponseInit(id, code, source, now)) < 1000
  {
    LatencyFromZero(ResponseInit(id, code, source, now));
    MicrosOfSane(now);
  }

  predicate ValidRequest(req: Request) {
    && req.cmd < MGMT_CMD_MAX
    && req.target != []
    && req.payloadLen <= MGMT_PAYLOAD_REQUEST_SIZE
  }
}
