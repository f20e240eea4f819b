/** The table of agent-to-client requests: the fields that the writer updates under its lock. */
module RequestTable {
  import opened Wrappers

  const MAX_PENDING := 64

  type Task = nat
  type Id = nat

  datatype RequestError =
    Rpc(code: int, message: string) | InvalidResponse | TooLarge | Capacity | Cancelled | Disconnected

  /** A response body with its encoded size, or an error. */
  datatype Response = Success(value: string, bytes: nat) | Failed(error: RequestError)

  /** The sending half of the waiting task's channel, and the response budget. */
  datatype Entry = Entry(waiter: Task, limit: Option<nat>)

  datatype Table = Table(pending: map<Id, Entry>, closed: bool, next: Id)

  datatype Admission = Admitted | Rejected(why: RequestError)

  // ---------------------------------------------------------------- the operations on values

  function Closed(t: Table): Table {
    t.(pending := map[], closed := true)
  }

  function Verdict(t: Table): Admission {
    if t.closed then Rejected(Disconnected)
    else if |t.pending| >= MAX_PENDING then Rejected(Capacity)
    else Admitted
  }

  function Admit(t: Table, id: Id, e: Entry): Table {
    if Verdict(t) == Admitted then t.(pending := t.pending[id := e]) else t
  }

  /** Without the entry, if there is one. */
  function Without(t: Table, id: Id): Table {
    t.(pending := t.pending - {id})
  }

  /** A response over its budget becomes an error. */
  function Judged(e: Entry, r: Response): Response {
    if e.limit.Some? && r.Success? && r.bytes > e.limit.value then Failed(TooLarge) else r
  }

  /** What is handed to the waiter of that id, if it is still waiting. */
  function Delivery(t: Table, id: Id, r: Response): Option<Response> {
    if id in t.pending then Some(Judged(t.pending[id], r)) else None
  }

  /** What the waiter of an entry is to be told about a response: a failure and a success within the
      budget arrive as they are, and a success over the budget arrives as an error. */
  ghost predicate Answers(limit: Option<nat>, r: Response, told: Response) {
    && (r.Failed? ==> told == r)
    && (r.Success? && (limit == None || r.bytes <= limit.value) ==> told == r)
    && (r.Success? && limit != None && limit.value < r.bytes ==> told == Failed(TooLarge))
  }

  lemma JudgedAnswers(e: Entry, r: Response)
    ensures Answers(e.limit, r, Judged(e, r))
  {
  }

  /** When a request is admitted, when it is refused, and why. */
  ghost predicate AdmissionRule(t: Table, r: Admission) {
    && (r == Admitted <==> !t.closed && |t.pending| < 64)
    && (r == Rejected(Capacity) <==> !t.closed && 64 <= |t.pending|)
    && (r == Rejected(Disconnected) <==> t.closed)
  }

  // ---------------------------------------------------------------- what they keep

  ghost predicate Bounded(t: Table) {
    && (t.closed ==> t.pending == map[])
    && |t.pending| <= MAX_PENDING
    && forall id :: id in t.pending ==> id < t.next
  }

  lemma Shrinks(t: Table, id: Id)
    ensures |t.pending - {id}| <= |t.pending|
    ensures id in t.pending ==> |t.pending - {id}| == |t.pending| - 1
  {
    var m := t.pending - {id};
    assert m.Keys == t.pending.Keys - {id};
    assert |m| == |m.Keys| && |t.pending| == |t.pending.Keys|;
  }

  lemma Grows(m: map<Id, Entry>, id: Id, e: Entry)
    ensures |m[id := e]| <= |m| + 1
  {
    assert m[id := e].Keys == m.Keys + {id};
    assert |m[id := e]| == |m[id := e].Keys| && |m| == |m.Keys|;
  }

  lemma AdmitKeeps(t: Table, id: Id, e: Entry)
    requires Bounded(t) && id < t.next
    ensures Bounded(Admit(t, id, e)) && AdmissionRule(t, Verdict(t))
    ensures Admit(t, id, e) == if Verdict(t) == Admitted then t.(pending := t.pending[id := e]) else t
  {
    Grows(t.pending, id, e);
  }

  lemma WithoutKeeps(t: Table, id: Id)
    requires Bounded(t)
    ensures Bounded(Without(t, id))
  {
    Shrinks(t, id);
  }

  // ---------------------------------------------------------------- the object

  class Writer {
    var pending: map<Id, Entry>
    var closed: bool
    var nextId: Id

    ghost function Abstract(): Table
      reads this
    {
      Table(pending, closed, nextId)
    }

    constructor ()
      ensures Abstract() == Table(map[], false, 1) && Bounded(Abstract())
    {
      pending := map[];
      closed := false;
      nextId := 1;
    }

    method Close()
      modifies this
      ensures Abstract() == Closed(old(Abstract())) && Bounded(Abstract())
      ensures closed && pending == map[] && nextId == old(nextId)
    {
      closed := true;
      pending := map[];
    }

    method NextId() returns (id: Id)
      requires Bounded(Abstract())
      modifies `nextId
      ensures id == old(nextId) && Abstract() == old(Abstract()).(next := id + 1)
      ensures Bounded(Abstract()) && id !in pending
    {
      id := nextId;
      nextId := nextId + 1;
    }

    /** Admission of a request whose id was taken before. */
    method AdmitRequest(id: Id, waiter: Task, limit: Option<nat>) returns (r: Admission)
      requires Bounded(Abstract()) && id < nextId && id !in pending
      modifies `pending
      ensures r == Verdict(old(Abstract())) && AdmissionRule(old(Abstract()), r)
      ensures Abstract() == Admit(old(Abstract()), id, Entry(waiter, limit)) && Bounded(Abstract())
      ensures pending == if r == Admitted then old(pending)[id := Entry(waiter, limit)] else old(pending)
    {
      if closed { return Rejected(Disconnected); }
      if |pending| >= 64 { return Rejected(Capacity); }
      Grows(pending, id, Entry(waiter, limit));
      pending := pending[id := Entry(waiter, limit)];
      return Admitted;
    }

    method ResolveChecked(id: Id, result: Response) returns (sent: Option<Response>)
      requires Bounded(Abstract())
      modifies `pending
      ensures sent == Delivery(old(Abstract()), id, result)
      ensures Abstract() == Without(old(Abstract()), id) && Bounded(Abstract())
      ensures id !in old(pending) ==> sent == None && pending == old(pending)
      ensures id in old(pending) ==>
                sent.Some? && Answers(old(pending)[id].limit, result, sent.value) && pending == old(pending) - {id}
    {
      WithoutKeeps(Abstract(), id);
      if id in pending {
        var entry := pending[id];
        pending := pending - {id};
        var r := result;
        if entry.limit.Some? && result.Success? {
          if result.bytes > entry.limit.value { r := Failed(TooLarge); }
        }
        return Some(r);
      }
      assert pending - {id} == pending;
      return None;
    }

    method CancelRequest(id: Id) returns (sent: Option<Response>)
      requires Bounded(Abstract())
      modifies `pending
      ensures sent == Delivery(old(Abstract()), id, Failed(Cancelled))
      ensures sent == (if id in old(pending) then Some(Failed(Cancelled)) else None) && pending == old(pending) - {id}
      ensures Abstract() == Without(old(Abstract()), id) && Bounded(Abstract())
    {
      WithoutKeeps(Abstract(), id);
      if id in pending {
        pending := pending - {id};
        return Some(Failed(Cancelled));
      }
      assert pending - {id} == pending;
      return None;
    }

    /** The request's guard goes away, however the request ended. */
    method DropRequest(id: Id)
      requires Bounded(Abstract())
      modifies `pending
      ensures Abstract() == Without(old(Abstract()), id) && Bounded(Abstract()) && pending == old(pending) - {id}
    {
      WithoutKeeps(Abstract(), id);
      pending := pending - {id};
    }
  }
}
