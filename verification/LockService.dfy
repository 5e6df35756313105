/**
 The lock service that every global algorithm implements for one lock id: nodes ask,
 one of the nodes that asked is granted, the holder releases, a node still waiting may
 withdraw.  There are two versions: one that may grant any waiter, and one that grants
 in the order of the requests.
 */
module LockService {
  import opened LockTypes

  datatype Op =
    | Request(n: NodeId)
    | Grant(n: NodeId)
    | Release(n: NodeId)
    | Cancel(n: NodeId)

  /** At most one holder; the nodes that wait are a set. */
  datatype Service = Service(holder: Option<NodeId>, waiters: set<NodeId>)

  predicate Allowed(a: Service, op: Op)
  {
    match op
    case Request(n) => n !in a.waiters && a.holder != Some(n)
    case Grant(n) => a.holder == None && n in a.waiters
    case Release(n) => a.holder == Some(n)
    case Cancel(n) => n in a.waiters
  }

  function Do(a: Service, op: Op): Service
    requires Allowed(a, op)
  {
    match op
    case Request(n) => a.(waiters := a.waiters + {n})
    case Grant(n) => Service(Some(n), a.waiters - {n})
    case Release(n) => a.(holder := None)
    case Cancel(n) => a.(waiters := a.waiters - {n})
  }

  /** Performing the operations `ops` one after the other leads from `a` to `b`. */
  predicate Performs(a: Service, ops: seq<Op>, b: Service)
    decreases ops
  {
    if ops == [] then a == b
    else Allowed(a, ops[0]) && Performs(Do(a, ops[0]), ops[1..], b)
  }

  lemma PerformsOne(a: Service, op: Op, b: Service)
    requires Allowed(a, op) && Do(a, op) == b
    ensures Performs(a, [op], b)
  {
    assert [op][1..] == [];
  }

  lemma {:induction false} PerformsConcat(a: Service, ops: seq<Op>, b: Service, more: seq<Op>, c: Service)
    requires Performs(a, ops, b) && Performs(b, more, c)
    ensures Performs(a, ops + more, c)
    decreases ops
  {
    if ops == [] {
      assert ops + more == more;
    } else {
      PerformsConcat(Do(a, ops[0]), ops[1..], b, more, c);
      assert (ops + more)[1..] == ops[1..] + more;
    }
  }

  /** The nodes granted (released) in a history, in order. */
  function Grants(ops: seq<Op>): seq<NodeId>
  {
    if ops == [] then []
    else if ops[0].Grant? then [ops[0].n] + Grants(ops[1..])
    else Grants(ops[1..])
  }

  function Releases(ops: seq<Op>): seq<NodeId>
  {
    if ops == [] then []
    else if ops[0].Release? then [ops[0].n] + Releases(ops[1..])
    else Releases(ops[1..])
  }

  function Held(a: Service): seq<NodeId>
  {
    if a.holder == None then [] else [a.holder.value]
  }

  /**
   Mutual exclusion as a property of histories: the holder at the start followed by the
   grants is the releases followed by the holder at the end.  Each grant is therefore
   closed by a release of the same node before the next grant.
   */
  lemma {:induction false} GrantsAreReleasedInTurn(a: Service, ops: seq<Op>, b: Service)
    requires Performs(a, ops, b)
    ensures Held(a) + Grants(ops) == Releases(ops) + Held(b)
    decreases ops
  {
    if ops != [] {
      var a' := Do(a, ops[0]);
      GrantsAreReleasedInTurn(a', ops[1..], b);
      if ops[0].Grant? {
        assert Held(a') + Grants(ops[1..]) == Held(a) + Grants(ops);
      } else if ops[0].Release? {
        assert [ops[0].n] + (Held(a') + Grants(ops[1..])) == Held(a) + Grants(ops);
        assert [ops[0].n] + (Releases(ops[1..]) + Held(b)) == Releases(ops) + Held(b);
      }
    }
  }

  /** The version that grants in order: the nodes that wait are a line. */
  datatype FifoService = FifoService(holder: Option<NodeId>, line: seq<NodeId>)

  predicate Distinct(q: seq<NodeId>)
  {
    forall i, j :: 0 <= i < j < |q| ==> q[i] != q[j]
  }

  ghost predicate Proper(f: FifoService)
  {
    Distinct(f.line) && (f.holder.Some? ==> f.holder.value !in f.line)
  }

  function Without(q: seq<NodeId>, n: NodeId): (r: seq<NodeId>)
    ensures forall x :: x in r <==> x in q && x != n
  {
    if q == [] then []
    else if q[0] == n then Without(q[1..], n)
    else [q[0]] + Without(q[1..], n)
  }

  predicate FifoAllowed(f: FifoService, op: Op)
  {
    match op
    case Request(n) => n !in f.line && f.holder != Some(n)
    case Grant(n) => f.holder == None && f.line != [] && f.line[0] == n
    case Release(n) => f.holder == Some(n)
    case Cancel(n) => n in f.line
  }

  function FifoDo(f: FifoService, op: Op): FifoService
    requires FifoAllowed(f, op)
  {
    match op
    case Request(n) => f.(line := f.line + [n])
    case Grant(n) => FifoService(Some(n), f.line[1..])
    case Release(n) => f.(holder := None)
    case Cancel(n) => f.(line := Without(f.line, n))
  }

  predicate FifoPerforms(f: FifoService, ops: seq<Op>, g: FifoService)
    decreases ops
  {
    if ops == [] then f == g
    else FifoAllowed(f, ops[0]) && FifoPerforms(FifoDo(f, ops[0]), ops[1..], g)
  }

  lemma FifoPerformsOne(f: FifoService, op: Op, g: FifoService)
    requires FifoAllowed(f, op) && FifoDo(f, op) == g
    ensures FifoPerforms(f, [op], g)
  {
    assert [op][1..] == [];
  }

  lemma {:induction false} FifoPerformsConcat(a: FifoService, ops: seq<Op>, b: FifoService, more: seq<Op>, c: FifoService)
    requires FifoPerforms(a, ops, b) && FifoPerforms(b, more, c)
    ensures FifoPerforms(a, ops + more, c)
    decreases ops
  {
    if ops == [] {
      assert ops + more == more;
    } else {
      FifoPerformsConcat(FifoDo(a, ops[0]), ops[1..], b, more, c);
      assert (ops + more)[1..] == ops[1..] + more;
    }
  }

  function Forget(f: FifoService): Service
  {
    Service(f.holder, set n | n in f.line)
  }

  lemma {:induction false} WithoutDistinct(q: seq<NodeId>, n: NodeId)
    requires Distinct(q)
    ensures Distinct(Without(q, n))
  {
    if q != [] {
      assert forall i, j :: 0 <= i < j < |q[1..]| ==> q[1..][i] != q[1..][j];
      WithoutDistinct(q[1..], n);
      var r := Without(q[1..], n);
      assert q[0] !in r;
      assert Distinct([q[0]] + r);
    }
  }

  /** One operation of the FIFO service is the same operation of the service. */
  lemma FifoStepRefines(f: FifoService, op: Op)
    requires Proper(f) && FifoAllowed(f, op)
    ensures Proper(FifoDo(f, op))
    ensures Allowed(Forget(f), op) && Do(Forget(f), op) == Forget(FifoDo(f, op))
  {
    match op {
      case Request(n) =>
        assert Do(Forget(f), op).waiters == Forget(FifoDo(f, op)).waiters;
      case Grant(n) =>
        assert f.line == [n] + f.line[1..];
        assert Do(Forget(f), op).waiters == Forget(FifoDo(f, op)).waiters;
      case Release(n) =>
      case Cancel(n) =>
        WithoutDistinct(f.line, n);
        assert Do(Forget(f), op).waiters == Forget(FifoDo(f, op)).waiters;
    }
  }

  /** Every history of the FIFO service is a history of the service. */
  lemma {:induction false} FifoRefines(f: FifoService, ops: seq<Op>, g: FifoService)
    requires Proper(f) && FifoPerforms(f, ops, g)
    ensures Proper(g) && Performs(Forget(f), ops, Forget(g))
    decreases ops
  {
    if ops != [] {
      FifoStepRefines(f, ops[0]);
      FifoRefines(FifoDo(f, ops[0]), ops[1..], g);
    }
  }

  function Requests(ops: seq<Op>): seq<NodeId>
  {
    if ops == [] then []
    else if ops[0].Request? then [ops[0].n] + Requests(ops[1..])
    else Requests(ops[1..])
  }

  /** Without withdrawals, nodes are granted exactly in the order in which they asked. */
  lemma {:induction false} GrantsFollowRequests(f: FifoService, ops: seq<Op>, g: FifoService)
    requires FifoPerforms(f, ops, g)
    requires forall i :: 0 <= i < |ops| ==> !ops[i].Cancel?
    ensures Grants(ops) + g.line == f.line + Requests(ops)
    decreases ops
  {
    if ops != [] {
      var f', n, rest := FifoDo(f, ops[0]), ops[0].n, ops[1..];
      GrantsFollowRequests(f', rest, g);
      match ops[0] {
        case Grant(_) =>
          assert f.line == [n] + f'.line;
          assert Grants(ops) + g.line == [n] + (Grants(rest) + g.line);
          assert f.line + Requests(ops) == [n] + (f'.line + Requests(rest));
        case Request(_) =>
          assert f.line + ([n] + Requests(rest)) == f'.line + Requests(rest);
        case Release(_) =>
      }
    }
  }
}
