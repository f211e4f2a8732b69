/** The handler registry in place: a 64-slot array searched linearly, shifted
  * left on removal, with statistics updated by dispatch. Each method is proved
  * against the functions of `HandlerTable`. */
module Registry {
  import opened CText
  import opened FixedWidth
  import opened HandlerTable
  import opened MgmtProtocol

  /** What a handler, given its context, does with a request and the response
    * prepared for it: a return code and the response it leaves. */
  type Handlers = (int, int, Request, Response) -> (int, Response)

  /** The registry's value: live entries and the two totals. */
  datatype Table = Table(live: seq<Entry>, dispatches: nat, failures: nat)

  /** The answer to a request and the table after it. */
  datatype Dispatch = Dispatch(table: Table, resp: Response, code: int)

  function Prepared(req: Request, resp: Response): Response {
    resp.(id := req.id, requestTime := req.timestamp, source := Cut(req.target, MGMT_MODULE_NAME_SIZE))
  }

  /** The statistics step after the handler returned `code`. */
  function Concluded(t: Table, i: nat, code: int, resp: Response): Dispatch
    requires i < |t.live|
  {
    var resp' := if code != 0 then resp.(code := MGMT_RESULT_HANDLER_FAILED) else resp;
    Dispatch(
      Table(Credited(t.live, i, LatencyUs(resp')), Inc32(t.dispatches),
            if code != 0 then Inc32(t.failures) else t.failures),
      resp', code)
  }

  function Dispatched(t: Table, req: Request, resp: Response, run: Handlers): Dispatch {
    if !ValidRequest(req) then Dispatch(t, resp.(code := MGMT_RESULT_INVALID_CMD), -3)
    else
      var i := Find(t.live, Key(req.target, req.cmd));
      if i == |t.live| then Dispatch(t, resp.(code := MGMT_RESULT_MODULE_NOT_FOUND), -1)
      else
        var (code, resp') := run(t.live[i].handler, t.live[i].context, req, Prepared(req, resp));
        Concluded(t, i, code, resp')
  }

  /** What a dispatch answers, where `m` is the map the table stands for: a field
    * out of range, an unknown (module, command), a handler that failed, or the
    * handler's own response; and the return code that goes with it. */
  ghost predicate Answers(
    m: map<Key, Entry>, req: Request, resp: Response, run: Handlers, code: int, reply: Response)
  {
    var key := Key(req.target, req.cmd);
    if req.cmd >= 16 || req.target == [] || req.payloadLen > 512 then
      code == -3 && reply == resp.(code := MGMT_RESULT_INVALID_CMD)
    else if key !in m then
      code == -1 && reply == resp.(code := MGMT_RESULT_MODULE_NOT_FOUND)
    else
      var given := resp.(id := req.id, requestTime := req.timestamp, source := Cut(req.target, 64));
      var (result, answer) := run(m[key].handler, m[key].context, req, given);
      code == result && reply == if result == 0 then answer else answer.(code := MGMT_RESULT_HANDLER_FAILED)
  }

  lemma DispatchAnswers(t: Table, req: Request, resp: Response, run: Handlers)
    ensures var d := Dispatched(t, req, resp, run); Answers(AsMap(t.live), req, resp, run, d.code, d.resp)
  {
    assert Key(req.target, req.cmd) in AsMap(t.live) <==> Find(t.live, Key(req.target, req.cmd)) < |t.live|;
  }

  /** Handlers that, like those shipped, answer through `mgmt_response_init` with
    * the request's id and the code OK. */
  ghost predicate AnswerOk(run: Handlers) {
    forall h, c, q, r ::
      var a := run(h, c, q, r).1; a == ResponseInit(q.id, MGMT_RESULT_OK, a.source, a.responseTime)
  }

  /** With such handlers a reply says OK exactly when the dispatch returned 0, and
    * then it carries the request's id. */
  lemma OkMeansZero(m: map<Key, Entry>, req: Request, resp: Response, run: Handlers, code: int, reply: Response)
    requires Answers(m, req, resp, run, code, reply) && AnswerOk(run)
    ensures reply.code == MGMT_RESULT_OK <==> code == 0
    ensures code == 0 ==> reply.id == req.id
  {
    var key := Key(req.target, req.cmd);
    if key in m {
      var given := resp.(id := req.id, requestTime := req.timestamp, source := Cut(req.target, 64));
      var a := run(m[key].handler, m[key].context, req, given).1;
      assert a == ResponseInit(req.id, MGMT_RESULT_OK, a.source, a.responseTime);
    }
  }

  class HandlerRegistry {
    const entries: array<Entry>
    var count: nat
    var dispatches: nat
    var failures: nat

    ghost predicate Valid()
      reads this
    {
      entries.Length == MAX_EVENT_HANDLERS && count <= entries.Length
    }

    ghost function Contents(): Table
      reads this, entries
      requires Valid()
    {
      Table(entries[..count], dispatches, failures)
    }

    constructor ()
      ensures Valid() && fresh(entries) && Contents() == Table([], 0, 0)
    {
      entries := new Entry[MAX_EVENT_HANDLERS](_ => Entry(0, [], 0, 0, 0, 0));
      count, dispatches, failures := 0, 0, 0;
    }

    /** The search loop shared by all operations. */
    method Search(k: Key) returns (i: nat)
      requires Valid()
      ensures i == Find(entries[..count], k)
    {
      i := 0;
      while i < count && KeyOf(entries[i]) != k
        invariant i <= count
        invariant forall j :: 0 <= j < i ==> KeyOf(entries[j]) != k
      {
        i := i + 1;
      }
      FirstMatch(entries[..count], k, i);
    }

    /** `handler_register`; a null name or handler or an unknown command is
      * refused without touching the table. */
    method Register(name: Ptr<string>, cmd: nat, handler: Ptr<int>, context: int) returns (code: int)
      requires Valid()
      modifies this, entries
      ensures Valid() && dispatches == old(dispatches) && failures == old(failures)
      ensures if name.Null? || handler.Null? || cmd >= MGMT_CMD_MAX
              then code == -1 && Contents() == old(Contents())
              else (Contents().live, code)
                   == Registered(old(Contents()).live, Key(name.value, cmd), handler.value, context)
    {
      if name.Null? || handler.Null? || cmd >= MGMT_CMD_MAX {
        return -1;
      }
      var k := Key(name.value, cmd);
      var i := Search(k);
      if i < count {
        entries[i] := entries[i].(handler := handler.value, context := context, invocations := 0, latency := 0);
        return 0;
      }
      if count >= MAX_EVENT_HANDLERS {
        return -1;
      }
      entries[count] := NewEntry(k, handler.value, context);
      count := count + 1;
      assert entries[..count] == old(entries[..count]) + [NewEntry(k, handler.value, context)];
      return 0;
    }

    /** `handler_unregister`: shifts the later entries left by one. */
    method Unregister(name: Ptr<string>, cmd: nat) returns (code: int)
      requires Valid()
      modifies this, entries
      ensures Valid() && dispatches == old(dispatches) && failures == old(failures)
      ensures if name.Null? then code == -1 && Contents() == old(Contents())
              else (Contents().live, code) == Unregistered(old(Contents()).live, Key(name.value, cmd))
    {
      if name.Null? {
        return -1;
      }
      var i := Search(Key(name.value, cmd));
      if i == count {
        return -1;
      }
      ShiftLeft(i);
      ghost var was := old(entries[..count]);
      assert was == old(Contents()).live;
      count := count - 1;
      assert entries[..count] == RemoveAt(was, i);
      return 0;
    }

    /** Closes the gap at `i` by moving every later live entry down. */
    method ShiftLeft(i: nat)
      requires Valid() && i < count
      modifies entries
      ensures forall m :: 0 <= m < i ==> entries[m] == old(entries[m])
      ensures forall m :: i <= m < count - 1 ==> entries[m] == old(entries[m + 1])
    {
      var j := i;
      while j < count - 1
        invariant i <= j <= count - 1
        invariant forall m :: 0 <= m < i ==> entries[m] == old(entries[m])
        invariant forall m :: i <= m < j ==> entries[m] == old(entries[m + 1])
        invariant forall m :: j < m < count ==> entries[m] == old(entries[m])
      {
        entries[j] := entries[j + 1];
        j := j + 1;
      }
    }

    /** `handler_dispatch`, taken alone: search, prepare, call, credit. */
    method HandleRequest(req: Ptr<Request>, resp: Response, run: Handlers) returns (code: int, resp': Response)
      requires Valid()
      modifies this, entries
      ensures Valid()
      ensures if req.Null? then code == -3 && resp' == resp && Contents() == old(Contents())
              else Dispatch(Contents(), resp', code) == Dispatched(old(Contents()), req.value, resp, run)
      ensures req.To? ==> Answers(AsMap(old(Contents()).live), req.value, resp, run, code, resp')
    {
      if req.To? { DispatchAnswers(Contents(), req.value, resp, run); }
      if req.Null? {
        return -3, resp;
      }
      if !ValidRequest(req.value) {
        return -3, resp.(code := MGMT_RESULT_INVALID_CMD);
      }
      var i := Search(Key(req.value.target, req.value.cmd));
      if i == count {
        return -1, resp.(code := MGMT_RESULT_MODULE_NOT_FOUND);
      }
      var answer := run(entries[i].handler, entries[i].context, req.value, Prepared(req.value, resp));
      code, resp' := answer.0, answer.1;
      dispatches := Inc32(dispatches);
      if code != 0 {
        failures := Inc32(failures);
        resp' := resp'.(code := MGMT_RESULT_HANDLER_FAILED);
      }
      entries[i] := entries[i].(
        invocations := Inc32(entries[i].invocations),
        latency := Add64(entries[i].latency, LatencyUs(resp')));
    }

    /** `handler_stats_reset`. */
    method ResetStats()
      requires Valid()
      modifies this, entries
      ensures Valid() && Contents() == Table(Cleared(old(Contents()).live), 0, 0)
    {
      dispatches, failures := 0, 0;
      var i := 0;
      while i < count
        invariant i <= count == old(count) && dispatches == failures == 0
        invariant forall j :: 0 <= j < i ==> entries[j] == old(entries[j]).(invocations := 0, latency := 0)
        invariant forall j :: i <= j < count ==> entries[j] == old(entries[j])
      {
        entries[i] := entries[i].(invocations := 0, latency := 0);
        i := i + 1;
      }
    }
  }
}
