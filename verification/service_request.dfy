/** Service requests that wait for a reply or for their time to run out. */
module ServiceRequest {
  import opened Bytes

  const WORD := 0x1_0000_0000
  const MAX_DATA_SIZE := 1024

  // ----- time -----

  /** What is left of a timeout on a 32-bit clock, and 0 when the difference reads as negative. */
  function TimeRemaining(start: uint32, current: uint32, timeout: uint32): uint32 {
    var remaining := (start + timeout - current) % WORD;
    if remaining >= WORD / 2 then 0 else remaining
  }

  /** The clock may wrap: only the time gone by since the start counts. */
  lemma {:induction false} TimeRemainingIs(start: uint32, elapsed: nat, timeout: uint32)
    requires timeout < WORD / 2 && elapsed <= timeout + WORD / 2
    ensures TimeRemaining(start, (start + elapsed) % WORD, timeout) == if elapsed < timeout then timeout - elapsed else 0
  {
    var difference := start + timeout - (start + elapsed) % WORD;
    assert difference % WORD == (timeout - elapsed) % WORD;
  }

  // ----- requests as values -----

  datatype Request = Waiting(id: uint32, service: string, timeoutMs: uint32, startMs: uint32, hasCallback: bool)

  /** A call of the callback of request `id`: with a reply, or because the time is over. */
  datatype Callback = Callback(replied: bool, id: uint32)

  predicate Expired(r: Request, now: uint32) {
    TimeRemaining(r.startMs, now, r.timeoutMs) == 0
  }

  function Survivors(requests: seq<Request>, now: uint32): seq<Request>
    decreases |requests|
  {
    if requests == [] then []
    else (if Expired(requests[0], now) then [] else [requests[0]]) + Survivors(requests[1..], now)
  }

  function CallbackOf(r: Request, replied: bool): seq<Callback> {
    if r.hasCallback then [Callback(replied, r.id)] else []
  }

  /** The callbacks made when all that has expired is taken out. */
  function Expiries(requests: seq<Request>, now: uint32): seq<Callback>
    decreases |requests|
  {
    if requests == [] then []
    else (if Expired(requests[0], now) then CallbackOf(requests[0], false) else []) + Expiries(requests[1..], now)
  }

  function RemoveAt<T>(s: seq<T>, k: nat): seq<T>
    requires k < |s|
  {
    s[..k] + s[k + 1..]
  }

  /** Taking out the first expired request leaves the others to be taken out. */
  lemma {:induction false} RemoveFirstExpired(requests: seq<Request>, now: uint32, k: nat)
    requires k < |requests| && Expired(requests[k], now)
    requires forall i :: 0 <= i < k ==> !Expired(requests[i], now)
    ensures Survivors(RemoveAt(requests, k), now) == Survivors(requests, now)
    ensures Expiries(requests, now) == CallbackOf(requests[k], false) + Expiries(RemoveAt(requests, k), now)
    decreases k
  {
    if k == 0 {
      assert RemoveAt(requests, 0) == requests[1..];
    } else {
      assert RemoveAt(requests, k)[1..] == RemoveAt(requests[1..], k - 1);
      RemoveFirstExpired(requests[1..], now, k - 1);
    }
  }

  lemma {:induction false} NoneExpired(requests: seq<Request>, now: uint32)
    requires forall i :: 0 <= i < |requests| ==> !Expired(requests[i], now)
    ensures Survivors(requests, now) == requests && Expiries(requests, now) == []
    decreases |requests|
  {
    if requests != [] {
      NoneExpired(requests[1..], now);
    }
  }

  function FindId(requests: seq<Request>, id: uint32, i: nat): (n: Option<nat>)
    requires i <= |requests|
    ensures n.Some? ==> i <= n.value < |requests| && requests[n.value].id == id
    decreases |requests| - i
  {
    if i == |requests| then None else if requests[i].id == id then Some(i) else FindId(requests, id, i + 1)
  }

  // ----- the list -----

  /** What the system around a request grants: memory, the lock, the reply topic, and the sending. */
  datatype Env = Env(memory: bool, lock: bool, subscribed: bool, sent: bool)

  class RequestNode {
    const request: Request
    var next: RequestNode?

    constructor (request: Request)
      ensures this.request == request && next == null
    {
      this.request := request;
      next := null;
    }
  }

  class RequestList {
    var head: RequestNode?
    var requestCount: uint32
    ghost var nodes: seq<RequestNode>
    ghost var requests: seq<Request>
    ghost var callbacks: seq<Callback>

    ghost predicate Valid()
      reads this, nodes
    {
      && head == (if nodes == [] then null else nodes[0])
      && (forall i, j :: 0 <= i < j < |nodes| ==> nodes[i] != nodes[j])
      && (forall i {:trigger nodes[i].next} :: 0 <= i < |nodes| ==>
            nodes[i].next == if i + 1 < |nodes| then nodes[i + 1] else null)
      && |requests| == |nodes|
      && (forall i {:trigger requests[i]} {:trigger nodes[i].request} :: 0 <= i < |nodes| ==> requests[i] == nodes[i].request)
    }

    constructor ()
      ensures Valid() && requests == [] && callbacks == [] && requestCount == 0
    {
      head, requestCount, nodes, requests, callbacks := null, 0, [], [], [];
    }

    /** A request that got onto the list stays there even when its caller is told that it failed. */
    method Request(service: string, dataLen: nat, timeoutS: uint32, startMs: uint32, env: Env) returns (ok: bool)
      requires Valid()
      modifies this, nodes
      ensures Valid() && callbacks == old(callbacks)
      ensures ok == (dataLen <= MAX_DATA_SIZE && env == Env(true, true, true, true))
      ensures requestCount == if dataLen <= MAX_DATA_SIZE && env.memory then (old(requestCount) + 1) % WORD else old(requestCount)
      ensures requests == old(requests) + (if dataLen <= MAX_DATA_SIZE && env.memory && env.lock then
                [Waiting(old(requestCount), service, timeoutS * 1000 % WORD, startMs, true)] else [])
    {
      if dataLen > MAX_DATA_SIZE || !env.memory {
        return false;
      }
      var node := new RequestNode(Waiting(requestCount, service, timeoutS * 1000 % WORD, startMs, true));
      requestCount := (requestCount + 1) % WORD;
      if !env.lock {
        return false;
      }
      Add(node);
      ok := env.subscribed && env.sent;
    }

    method Add(node: RequestNode)
      requires Valid() && node !in nodes && node.next == null
      modifies this, nodes
      ensures Valid() && requests == old(requests) + [node.request]
      ensures callbacks == old(callbacks) && requestCount == old(requestCount)
      ensures nodes == old(nodes) + [node]
    {
      if head == null {
        head := node;
      } else {
        var current := head;
        ghost var k := 0;
        while current.next != null
          invariant 0 <= k < |nodes| && current == nodes[k]
          decreases |nodes| - k
        {
          current := current.next;
          k := k + 1;
        }
        current.next := node;
      }
      nodes := nodes + [node];
      requests := requests + [node.request];
    }

    method Remove(node: RequestNode, ghost k: nat)
      requires Valid() && k < |nodes| && nodes[k] == node
      modifies this, nodes
      ensures Valid() && requests == RemoveAt(old(requests), k) && nodes == RemoveAt(old(nodes), k)
      ensures callbacks == old(callbacks) && requestCount == old(requestCount)
    {
      assert nodes[k].next == if k + 1 < |nodes| then nodes[k + 1] else null;
      if head == node {
        head := node.next;
      } else {
        var current := head;
        ghost var j := 0;
        while current.next != node
          invariant 0 <= j < k && current == nodes[j]
          decreases k - j
        {
          assert nodes[j].next == nodes[j + 1];
          current := current.next;
          j := j + 1;
        }
        assert nodes[j].next == nodes[j + 1];
        current.next := node.next;
      }
      nodes := RemoveAt(nodes, k);
      requests := RemoveAt(requests, k);
    }

    method GetNodeById(id: uint32) returns (node: RequestNode?, ghost k: nat)
      requires Valid()
      ensures node == null <==> FindId(requests, id, 0) == None
      ensures FindId(requests, id, 0) == if node == null then None else Some(k)
      ensures node != null ==> k < |nodes| && node == nodes[k]
    {
      node, k := head, 0;
      while node != null
        invariant 0 <= k <= |nodes| && node == (if k < |nodes| then nodes[k] else null)
        invariant FindId(requests, id, 0) == FindId(requests, id, k)
        decreases |nodes| - k
      {
        assert requests[k] == node.request;
        if node.request.id == id {
          return;
        }
        assert nodes[k].next == if k + 1 < |nodes| then nodes[k + 1] else null;
        node := node.next;
        k := k + 1;
      }
    }

    method ExpireNode(node: RequestNode, ghost k: nat, now: uint32)
      requires Valid() && k < |nodes| && nodes[k] == node && Expired(node.request, now)
      requires forall i :: 0 <= i < k ==> !Expired(requests[i], now)
      modifies this, nodes
      ensures Valid() && requestCount == old(requestCount) && nodes == RemoveAt(old(nodes), k)
      ensures Survivors(requests, now) == Survivors(old(requests), now)
      ensures callbacks + Expiries(requests, now) == old(callbacks) + Expiries(old(requests), now)
    {
      assert requests[k] == node.request;
      RemoveFirstExpired(requests, now, k);
      callbacks := callbacks + CallbackOf(node.request, false);
      Remove(node, k);
    }

    /** After every removal the pass starts again at the head. */
    method ExpiryPass(now: uint32)
      requires Valid()
      modifies this, nodes
      ensures Valid() && requestCount == old(requestCount)
      ensures requests == Survivors(old(requests), now)
      ensures callbacks == old(callbacks) + Expiries(old(requests), now)
    {
      var current := head;
      ghost var k := 0;
      while current != null
        modifies this, old(nodes)
        invariant Valid() && requestCount == old(requestCount)
        invariant forall i :: 0 <= i < |nodes| ==> nodes[i] in old(nodes)
        invariant 0 <= k <= |nodes| && current == (if k < |nodes| then nodes[k] else null)
        invariant forall i :: 0 <= i < k ==> !Expired(requests[i], now)
        invariant Survivors(requests, now) == Survivors(old(requests), now)
        invariant callbacks + Expiries(requests, now) == old(callbacks) + Expiries(old(requests), now)
        decreases |nodes|, |nodes| - k
      {
        assert requests[k] == current.request;
        if TimeRemaining(current.request.startMs, now, current.request.timeoutMs) == 0 {
          ExpireNode(current, k, now);
          current := head;
          k := 0;
        } else {
          assert nodes[k].next == if k + 1 < |nodes| then nodes[k + 1] else null;
          current := current.next;
          k := k + 1;
        }
      }
      NoneExpired(requests, now);
    }

    method Reply(id: uint32)
      requires Valid()
      modifies this, nodes
      ensures Valid() && requestCount == old(requestCount)
      ensures match FindId(old(requests), id, 0)
        case None => requests == old(requests) && callbacks == old(callbacks)
        case Some(k) => requests == RemoveAt(old(requests), k) && callbacks == old(callbacks) + CallbackOf(old(requests)[k], true)
    {
      var node, k := GetNodeById(id);
      if node != null {
        callbacks := callbacks + CallbackOf(node.request, true);
        Remove(node, k);
      }
    }
  }

  // ----- whole runs -----

  /** `listed` has the ids whose requests got onto the list, `count` how many ids were given out. */
  datatype State = State(requests: seq<Request>, callbacks: seq<Callback>, count: nat, listed: set<nat>)

  datatype Action =
    | Ask(service: string, timeoutMs: uint32, startMs: uint32, env: Env)
    | Answer(id: uint32, lock: bool)
    | Expire(now: uint32, lock: bool)

  const START := State([], [], 0, {})

  function Next(s: State, a: Action): State {
    match a
    case Ask(service, timeoutMs, startMs, env) =>
      if !env.memory then s
      else
        var s1 := s.(count := s.count + 1);
        if !env.lock then s1
        else s1.(requests := s.requests + [Waiting(s.count % WORD, service, timeoutMs, startMs, true)],
                 listed := s.listed + {s.count})
    case Answer(id, lock) =>
      var n := FindId(s.requests, id, 0);
      if !lock || n.None? then s
      else s.(requests := RemoveAt(s.requests, n.value), callbacks := s.callbacks + CallbackOf(s.requests[n.value], true))
    case Expire(now, lock) =>
      if !lock then s
      else s.(requests := Survivors(s.requests, now), callbacks := s.callbacks + Expiries(s.requests, now))
  }

  function Exec(s: State, actions: seq<Action>): State
    decreases |actions|
  {
    if actions == [] then s else Exec(Next(s, actions[0]), actions[1..])
  }

  /** How often request `id` is on the list, and how often it was called back. */
  function Listed(requests: seq<Request>, id: int): nat
    decreases |requests|
  {
    if requests == [] then 0 else (if requests[0].id == id then 1 else 0) + Listed(requests[1..], id)
  }

  function Called(callbacks: seq<Callback>, id: int): nat
    decreases |callbacks|
  {
    if callbacks == [] then 0 else (if callbacks[0].id == id then 1 else 0) + Called(callbacks[1..], id)
  }

  lemma {:induction false} ListedAppend(a: seq<Request>, b: seq<Request>, id: int)
    ensures Listed(a + b, id) == Listed(a, id) + Listed(b, id)
    decreases |a|
  {
    if a == [] {
      assert a + b == b;
    } else {
      assert (a + b)[1..] == a[1..] + b;
      ListedAppend(a[1..], b, id);
    }
  }

  lemma {:induction false} CalledAppend(a: seq<Callback>, b: seq<Callback>, id: int)
    ensures Called(a + b, id) == Called(a, id) + Called(b, id)
    decreases |a|
  {
    if a == [] {
      assert a + b == b;
    } else {
      assert (a + b)[1..] == a[1..] + b;
      CalledAppend(a[1..], b, id);
    }
  }

  predicate AllCall(requests: seq<Request>) {
    forall r <- requests :: r.hasCallback
  }

  lemma {:induction false} OneRequest(r: Request, replied: bool, id: int)
    ensures Listed([r], id) == if r.id == id then 1 else 0
    ensures r.hasCallback ==> Called(CallbackOf(r, replied), id) == Listed([r], id)
  {
    assert [r][1..] == [] && [Callback(replied, r.id)][1..] == [];
  }

  lemma {:induction false} RemovedCount(requests: seq<Request>, k: nat, id: int)
    requires k < |requests| && AllCall(requests)
    ensures AllCall(RemoveAt(requests, k))
    ensures Listed(RemoveAt(requests, k), id) + Listed([requests[k]], id) == Listed(requests, id)
  {
    var first, rest := requests[..k], requests[k + 1..];
    assert requests == first + ([requests[k]] + rest);
    ListedAppend(first, rest, id);
    ListedAppend(first, [requests[k]] + rest, id);
    ListedAppend([requests[k]], rest, id);
  }

  /** Every request of the list survives the pass or is called back by it. */
  lemma {:induction false} ExpiredCount(requests: seq<Request>, now: uint32, id: int)
    requires AllCall(requests)
    ensures AllCall(Survivors(requests, now))
    ensures Listed(Survivors(requests, now), id) + Called(Expiries(requests, now), id) == Listed(requests, id)
    decreases |requests|
  {
    if requests != [] {
      var r, rest := requests[0], requests[1..];
      ExpiredCount(rest, now, id);
      OneRequest(r, false, id);
      if Expired(r, now) {
        CalledAppend(CallbackOf(r, false), Expiries(rest, now), id);
        assert Survivors(requests, now) == Survivors(rest, now);
      } else {
        ListedAppend([r], Survivors(rest, now), id);
        assert Expiries(requests, now) == Expiries(rest, now);
      }
    }
  }

  /** An id that got onto the list waits there or has been called back, and only once. */
  ghost predicate Accounted(s: State, id: int) {
    && AllCall(s.requests) && (forall i :: i in s.listed ==> i < s.count)
    && Listed(s.requests, id) + Called(s.callbacks, id) == if id >= 0 && id in s.listed then 1 else 0
  }

  lemma {:induction false} StepAccounts(s: State, a: Action, id: int)
    requires Accounted(s, id) && Next(s, a).count <= WORD
    ensures Accounted(Next(s, a), id)
  {
    match a {
      case Ask(service, timeoutMs, startMs, env) =>
        if env.memory && env.lock {
          var r := Waiting(s.count % WORD, service, timeoutMs, startMs, true);
          ListedAppend(s.requests, [r], id);
          OneRequest(r, true, id);
        }
      case Answer(answered, lock) =>
        var n := FindId(s.requests, answered, 0);
        if lock && n.Some? {
          RemovedCount(s.requests, n.value, id);
          OneRequest(s.requests[n.value], true, id);
          CalledAppend(s.callbacks, CallbackOf(s.requests[n.value], true), id);
        }
      case Expire(now, lock) =>
        if lock {
          ExpiredCount(s.requests, now, id);
          CalledAppend(s.callbacks, Expiries(s.requests, now), id);
        }
    }
  }

  lemma {:induction false} CountGrows(s: State, actions: seq<Action>)
    ensures s.count <= Exec(s, actions).count
    decreases |actions|
  {
    if actions != [] {
      CountGrows(Next(s, actions[0]), actions[1..]);
    }
  }

  lemma {:induction false} RunAccounts(s: State, actions: seq<Action>, id: int)
    requires Accounted(s, id) && Exec(s, actions).count <= WORD
    ensures Accounted(Exec(s, actions), id)
    decreases |actions|
  {
    if actions != [] {
      CountGrows(Next(s, actions[0]), actions[1..]);
      StepAccounts(s, actions[0], id);
      RunAccounts(Next(s, actions[0]), actions[1..], id);
    }
  }

  /**
   As long as ids have not wrapped, every request that got onto the list is called back at most once, and is
   still on the list if and only if it has not been; nothing else is ever called back.
   */
  lemma {:induction false} RequestsResolveOnce(actions: seq<Action>, id: int)
    requires Exec(START, actions).count <= WORD
    ensures var s := Exec(START, actions);
      Listed(s.requests, id) + Called(s.callbacks, id) == if id >= 0 && id in s.listed then 1 else 0
  {
    RunAccounts(START, actions, id);
  }
}
