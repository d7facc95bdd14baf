/**
 The connection pool of one host. Every step runs under the host's mutex, so a run is a sequence of steps;
 connections change state on their own at any moment between them.
 */
module ConnectionPool {
  import opened Numbers
  import opened Sorting
  import opened WideText

  /** Connections are numbered in the order they are created. */
  type Id = nat

  datatype State = Connecting | Open | Closing | Closed

  datatype PoolLimits = PoolLimits(minCount: nat, maxCount: nat, keepAlive: nat, maxAge: nat)

  type Limits = l: PoolLimits | l.minCount <= l.maxCount witness PoolLimits(0, 0, 0, 0)

  /**
   The host record, with what happens outside it: the state and creation time of every connection made,
   the connections lent out, those whose handlers were reset, and each one uncounted, in order.
   `count` is an integer so that going below zero would show.
   */
  datatype Pool = Pool(
    connections: seq<Id>, count: int, lastException: Option<string>, lastActive: nat,
    states: seq<State>, born: seq<nat>, lent: set<Id>, reset: set<Id>, uncounted: seq<Id>)

  datatype Outcome = Stopped | Failed(error: string) | Taken(id: Id) | Waiting

  /** A host's record when it is made. */
  function NewHost(now: nat): Pool {
    Pool([], 0, None, now, [], [], {}, {}, [])
  }

  // ---- The steps ----

  /** The place of the first open connection. */
  function FirstOpen(states: seq<State>, conns: seq<Id>, from: nat): (r: Option<nat>)
    requires from <= |conns| && forall i :: 0 <= i < |conns| ==> conns[i] < |states|
    ensures r.Some? ==> from <= r.value < |conns| && states[conns[r.value]] == Open
    ensures forall i :: from <= i < (if r.Some? then r.value else |conns|) ==> states[conns[i]] != Open
    decreases |conns| - from
  {
    if from == |conns| then None
    else if states[conns[from]] == Open then Some(from)
    else FirstOpen(states, conns, from + 1)
  }

  function Lend(p: Pool, i: nat, now: nat): Pool
    requires i < |p.connections|
  {
    p.(connections := p.connections[..i] + p.connections[i + 1..],
       lent := p.lent + {p.connections[i]},
       lastActive := now)
  }

  function Create(p: Pool, now: nat): Pool {
    p.(connections := p.connections + [|p.states|], count := p.count + 1,
       states := p.states + [Connecting], born := p.born + [now])
  }

  /** Creates connections until `target` are counted. */
  function Replenish(p: Pool, target: int, now: nat): Pool
    decreases target - p.count
  {
    if p.count < target then Replenish(Create(p, now), target, now) else p
  }

  /** One turn of taking a connection, from gaining the lock to returning, throwing or waiting. */
  function Take(l: Limits, p: Pool, now: nat, stop: bool, woken: bool): (Pool, Outcome)
    requires Known(p)
  {
    if stop then (p, Stopped)
    else if woken && p.lastException.Some? then (p, Failed(p.lastException.value))
    else
      match FirstOpen(p.states, p.connections, 0)
      case None => (Replenish(p, Clamp(p.count + 1, l.minCount, l.maxCount), now), Waiting)
      case Some(i) => (Replenish(Lend(p, i, now), l.minCount, now), Taken(p.connections[i]))
  }

  function Without(conns: seq<Id>, id: Id): seq<Id> {
    if conns == [] then []
    else Without(conns[..|conns| - 1], id) + if conns[|conns| - 1] == id then [] else [conns[|conns| - 1]]
  }

  /** Resets the handlers and frees the connection if it is in the list, uncounting it. */
  function Remove(p: Pool, id: Id): Pool {
    var rest := Without(p.connections, id);
    p.(connections := rest, count := p.count - (|p.connections| - |rest|), reset := p.reset + {id},
       uncounted := p.uncounted + if |rest| < |p.connections| then [id] else [])
  }

  function PutBack(p: Pool, id: Id): Pool
    requires Known(p) && id < |p.states|
  {
    var back := p.(lent := p.lent - {id});
    if p.states[id] == Open then back.(connections := p.connections + [id])
    else Remove(back.(count := p.count - 1, uncounted := p.uncounted + [id]), id)
  }

  /** The open connections among the first `n` that are too old to keep. */
  function Expired(l: Limits, p: Pool, now: nat, n: nat): (r: seq<Id>)
    requires Known(p) && n <= |p.connections|
    ensures |r| <= n && AllBelow(r, |p.states|)
  {
    if n == 0 then []
    else
      var id := p.connections[n - 1];
      Expired(l, p, now, n - 1) + if p.states[id] == Open && now - p.born[id] > l.maxAge then [id] else []
  }

  predicate AllBelow(ids: seq<Id>, n: nat) {
    forall i :: 0 <= i < |ids| ==> ids[i] < n
  }

  predicate OldestFirst(born: seq<nat>, ids: seq<Id>) {
    AllBelow(ids, |born|) && forall i, j :: 0 <= i <= j < |ids| ==> born[ids[i]] <= born[ids[j]]
  }

  /** The creation time of a connection. */
  function Birth(born: seq<nat>): Id -> int {
    (id: Id) => if id < |born| then born[id] else 0
  }

  /** Oldest first. */
  function ByAge(born: seq<nat>, ids: seq<Id>): (r: seq<Id>)
    requires AllBelow(ids, |born|)
    ensures |r| == |ids| && multiset(r) == multiset(ids) && OldestFirst(born, r)
  {
    InsertAllKeeps(Birth(born), [], ids);
    assert forall i :: 0 <= i < |InsertAll(Birth(born), [], ids)| ==>
      InsertAll(Birth(born), [], ids)[i] in multiset(InsertAll(Birth(born), [], ids));
    InsertAll(Birth(born), [], ids)
  }

  /** How many of `expired` connections may be closed now. */
  function CloseCount(l: Limits, count: int, expired: nat): (n: nat)
    ensures n <= expired
  {
    if expired > 0 && count > l.minCount then Min(count - l.minCount, expired) else 0
  }

  /** The connections that are closed: the oldest, when not all expired ones can be. */
  function ToClose(l: Limits, p: Pool, now: nat): (r: seq<Id>)
    requires Known(p)
    ensures AllBelow(r, |p.states|)
  {
    var expired := Expired(l, p, now, |p.connections|);
    var n := CloseCount(l, p.count, |expired|);
    if n < |expired| then ByAge(p.born, expired)[..n] else expired
  }

  function CloseAll(states: seq<State>, ids: seq<Id>): (r: seq<State>)
    requires AllBelow(ids, |states|)
    ensures |r| == |states|
  {
    if ids == [] then states
    else CloseAll(states, ids[..|ids| - 1])[ids[|ids| - 1] := Closing]
  }

  /** How many connections to count up to, as if all expired ones were closed already. */
  function KeepTarget(l: Limits, count: int, expired: int): int {
    Min(Max(count - expired, l.minCount) + expired, l.maxCount)
  }

  /** Closes the expired connections that can be spared, and replaces them ahead of time. */
  function KeepAlive(l: Limits, p: Pool, now: nat): Pool
    requires Known(p)
  {
    if now - p.lastActive > l.keepAlive then p
    else
      var expired := |Expired(l, p, now, |p.connections|)|;
      Replenish(p.(states := CloseAll(p.states, ToClose(l, p, now))), KeepTarget(l, p.count, expired), now)
  }

  predicate Known(p: Pool) {
    |p.born| == |p.states| && AllBelow(p.connections, |p.states|)
  }

  // ---- Runs ----

  /** What can happen next: a call, a handler, or a connection changing state by itself. */
  datatype Step =
    | TakeTurn(now: nat, stop: bool, woken: bool)
    | PutBackStep(id: Id)
    | OnOpen(id: Id)
    | OnClose(id: Id)
    | OnFail(id: Id, error: Option<string>)
    | KeepAliveStep(now: nat)
    | Change(id: Id, to: State)

  function Rank(s: State): nat {
    match s
    case Connecting => 0
    case Open => 1
    case Closing => 2
    case Closed => 3
  }

  /** Only lent connections are put back, closing is reported of closed connections, and states only go forward. */
  predicate Enabled(p: Pool, step: Step) {
    match step
    case PutBackStep(id) => id in p.lent
    case OnOpen(id) => id < |p.states|
    case OnClose(id) => id < |p.states| && p.states[id] == Closed
    case OnFail(id, _) => id < |p.states| && p.states[id] == Closed
    case Change(id, to) => id < |p.states| && Rank(p.states[id]) < Rank(to)
    case _ => true
  }

  function Apply(l: Limits, p: Pool, step: Step): Pool
    requires Known(p) && (forall id :: id in p.lent ==> id < |p.states|) && Enabled(p, step)
  {
    match step
    case TakeTurn(now, stop, woken) => Take(l, p, now, stop, woken).0
    case PutBackStep(id) => PutBack(p, id)
    case OnOpen(_) => p.(lastException := None)
    case OnClose(id) => Remove(p.(lastException := None), id)
    case OnFail(id, error) => Remove(p.(lastException := error), id)
    case KeepAliveStep(now) => KeepAlive(l, p, now)
    case Change(id, to) => p.(states := p.states[id := to])
  }

  // ---- Safety ----

  predicate Distinct(ids: seq<Id>) {
    forall i, j :: 0 <= i < j < |ids| ==> ids[i] != ids[j]
  }

  /** Every connection ever created is in exactly one place: pooled once, lent out, or uncounted once. */
  predicate Partitioned(p: Pool) {
    && Known(p)
    && Distinct(p.connections) && Distinct(p.uncounted)
    && AllBelow(p.uncounted, |p.states|) && (forall id :: id in p.lent ==> id < |p.states|)
    && (forall id :: id in p.lent ==> id !in p.connections && id !in p.uncounted)
    && (forall id :: id in p.connections ==> id !in p.uncounted)
    && (forall id :: 0 <= id < |p.states| ==> id in p.connections || id in p.lent || id in p.uncounted)
  }

  /** The count is that of the pooled and the lent ones, and within the limit. */
  predicate Counted(l: Limits, p: Pool) {
    && p.count == |p.connections| + |p.lent| <= l.maxCount
    && |p.states| == p.count + |p.uncounted|
  }

  /** A pooled connection still has its handlers, so that its closing will be noticed. */
  predicate Noticed(p: Pool) {
    && (forall id :: id in p.reset ==> id < |p.states| && (p.states[id] == Closed || id in p.uncounted))
    && (forall id :: id in p.connections ==> id !in p.reset)
  }

  predicate Safe(l: Limits, p: Pool) {
    Partitioned(p) && Counted(l, p) && Noticed(p)
  }

  /** The state after a run of a host made at `created`; steps that are not enabled do not happen. */
  function Run(l: Limits, created: nat, steps: seq<Step>): (p: Pool)
    ensures Safe(l, p)
  {
    if steps == [] then NewHost(created)
    else
      var p := Run(l, created, steps[..|steps| - 1]);
      var step := steps[|steps| - 1];
      if Enabled(p, step) then
        ApplySafe(l, p, step);
        Apply(l, p, step)
      else p
  }

  lemma {:induction false} WithoutIs(conns: seq<Id>, id: Id)
    requires Distinct(conns)
    ensures Distinct(Without(conns, id))
    ensures forall x :: x in Without(conns, id) <==> x in conns && x != id
    ensures |Without(conns, id)| == |conns| - if id in conns then 1 else 0
  {
    if conns != [] {
      var last := |conns| - 1;
      WithoutIs(conns[..last], id);
      assert conns == conns[..last] + [conns[last]];
      assert forall x :: x in conns <==> x in conns[..last] || x == conns[last];
      assert conns[last] !in conns[..last];
    }
  }

  lemma ApplySafe(l: Limits, p: Pool, step: Step)
    requires Safe(l, p) && Enabled(p, step)
    ensures Safe(l, Apply(l, p, step))
  {
    match step {
      case TakeTurn(now, stop, woken) => TakeSafe(l, p, now, stop, woken);
      case PutBackStep(id) => PutBackSafe(l, p, id);
      case OnOpen(_) =>
      case OnClose(id) => RemoveSafe(l, p.(lastException := None), id);
      case OnFail(id, error) => RemoveSafe(l, p.(lastException := error), id);
      case KeepAliveStep(now) => KeepAliveSafe(l, p, now);
      case Change(id, to) => ChangeSafe(l, p, id, to);
    }
  }

  lemma ChangeSafe(l: Limits, p: Pool, id: Id, to: State)
    requires Safe(l, p) && id < |p.states| && p.states[id] != Closed
    ensures Safe(l, p.(states := p.states[id := to]))
  {
  }

  lemma RemoveSafe(l: Limits, p: Pool, id: Id)
    requires Safe(l, p) && id < |p.states| && p.states[id] == Closed
    ensures Safe(l, Remove(p, id))
  {
    WithoutIs(p.connections, id);
    RemovePartitioned(p, id);
    var r := Remove(p, id);
    assert forall x :: x in r.uncounted <==> x in p.uncounted || (x == id && id in p.connections);
    hide Without, Partitioned;
  }

  lemma RemovePartitioned(p: Pool, id: Id)
    requires Partitioned(p) && id < |p.states|
    ensures Partitioned(Remove(p, id))
  {
    WithoutIs(p.connections, id);
    hide Without;
    var r := Remove(p, id);
    assert forall i :: 0 <= i < |r.connections| ==> r.connections[i] in p.connections;
    assert forall x :: x in r.uncounted <==> x in p.uncounted || (x == id && id in p.connections);
  }

  lemma PutBackSafe(l: Limits, p: Pool, id: Id)
    requires Safe(l, p) && id in p.lent
    ensures Safe(l, PutBack(p, id))
  {
    if p.states[id] == Open {
      ReturnSafe(l, p, id);
    } else {
      DropSafe(l, p, id);
    }
  }

  lemma ReturnSafe(l: Limits, p: Pool, id: Id)
    requires Safe(l, p) && id in p.lent && p.states[id] == Open
    ensures Safe(l, PutBack(p, id))
  {
    hide Remove;
    assert forall x :: x in PutBack(p, id).connections <==> x in p.connections || x == id;
  }

  /** What dropping a lent connection comes to. */
  function Dropped(p: Pool, id: Id): Pool {
    p.(lent := p.lent - {id}, count := p.count - 1, reset := p.reset + {id}, uncounted := p.uncounted + [id])
  }

  lemma DropIs(p: Pool, id: Id)
    requires Known(p) && id < |p.states| && p.states[id] != Open && id !in p.connections
    ensures PutBack(p, id) == Dropped(p, id)
  {
    NothingWithout(p.connections, id);
    hide Without;
    assert (p.uncounted + [id]) + [] == p.uncounted + [id];
  }

  lemma DropSafe(l: Limits, p: Pool, id: Id)
    requires Safe(l, p) && id in p.lent && p.states[id] != Open
    ensures PutBack(p, id) == Dropped(p, id)
    ensures Safe(l, PutBack(p, id))
  {
    DropIs(p, id);
    hide PutBack;
    DropPartitioned(p, id);
    DropNoticed(p, id);
    hide Partitioned, Noticed;
  }

  lemma DropNoticed(p: Pool, id: Id)
    requires Noticed(p) && id < |p.states| && id !in p.connections
    ensures Noticed(Dropped(p, id))
  {
    assert forall x :: x in Dropped(p, id).uncounted <==> x in p.uncounted || x == id;
  }

  lemma DropPartitioned(p: Pool, id: Id)
    requires Partitioned(p) && id in p.lent
    ensures Partitioned(Dropped(p, id)) && id < |p.states| && id !in p.connections
  {
    assert forall x :: x in Dropped(p, id).uncounted <==> x in p.uncounted || x == id;
  }

  lemma {:induction false} NothingWithout(conns: seq<Id>, id: Id)
    requires id !in conns
    ensures Without(conns, id) == conns
  {
    if conns != [] {
      NothingWithout(conns[..|conns| - 1], id);
      assert conns[|conns| - 1] in conns;
      assert conns == conns[..|conns| - 1] + [conns[|conns| - 1]];
    }
  }

  lemma LendSafe(l: Limits, p: Pool, i: nat, now: nat)
    requires Safe(l, p) && i < |p.connections|
    ensures Safe(l, Lend(p, i, now))
  {
    var r, id := Lend(p, i, now), p.connections[i];
    assert id in p.connections;
    assert forall x :: x in p.connections <==> x in r.connections || x == id;
  }

  lemma CreateSafe(l: Limits, p: Pool, now: nat)
    requires Safe(l, p) && p.count < l.maxCount
    ensures Safe(l, Create(p, now))
  {
    var r, id := Create(p, now), |p.states|;
    assert id !in p.connections && id !in p.lent && id !in p.uncounted;
    assert forall x :: x in r.connections <==> x in p.connections || x == id;
  }

  lemma {:induction false} ReplenishSafe(l: Limits, p: Pool, target: int, now: nat)
    requires Safe(l, p) && target <= l.maxCount
    ensures var r := Replenish(p, target, now);
      && Safe(l, r) && r.count == Max(p.count, target)
      && r.lent == p.lent && r.uncounted == p.uncounted && p.connections <= r.connections && p.states <= r.states
    decreases target - p.count
  {
    hide Safe;
    if p.count < target {
      CreateSafe(l, p, now);
      ReplenishSafe(l, Create(p, now), target, now);
    }
  }

  lemma TakeSafe(l: Limits, p: Pool, now: nat, stop: bool, woken: bool)
    requires Safe(l, p)
    ensures Safe(l, Take(l, p, now, stop, woken).0)
  {
    if !stop && !(woken && p.lastException.Some?) {
      var i := FirstOpen(p.states, p.connections, 0);
      if i.Some? {
        LendSafe(l, p, i.value, now);
        ReplenishSafe(l, Lend(p, i.value, now), l.minCount, now);
      } else {
        ReplenishSafe(l, p, Clamp(p.count + 1, l.minCount, l.maxCount), now);
      }
    }
    hide Safe, Replenish, Lend;
  }

  lemma KeepAliveSafe(l: Limits, p: Pool, now: nat)
    requires Safe(l, p)
    ensures Safe(l, KeepAlive(l, p, now))
  {
    KeepAliveCounts(l, p, now);
  }

  lemma KeepAliveCounts(l: Limits, p: Pool, now: nat)
    requires Safe(l, p)
    ensures var r := KeepAlive(l, p, now);
      && Safe(l, r) && r.uncounted == p.uncounted && r.lent == p.lent
      && (now - p.lastActive <= l.keepAlive ==>
            r.count == Max(p.count, KeepTarget(l, p.count, |Expired(l, p, now, |p.connections|)|)))
  {
    if now - p.lastActive <= l.keepAlive {
      CloseSafe(l, p, now);
      var closed := p.(states := CloseAll(p.states, ToClose(l, p, now)));
      hide Safe, ToClose, CloseAll, Expired;
      ReplenishSafe(l, closed, KeepTarget(l, p.count, |Expired(l, p, now, |p.connections|)|), now);
    }
  }

  lemma CloseSafe(l: Limits, p: Pool, now: nat)
    requires Safe(l, p)
    ensures Safe(l, p.(states := CloseAll(p.states, ToClose(l, p, now))))
  {
    ToCloseAre(l, p, now);
    ClosedAll(p.states, ToClose(l, p, now));
    hide ToClose, CloseAll;
  }

  lemma {:induction false} ClosedAll(states: seq<State>, ids: seq<Id>)
    requires AllBelow(ids, |states|)
    ensures forall i :: 0 <= i < |states| ==> CloseAll(states, ids)[i] == if i in ids then Closing else states[i]
  {
    if ids != [] {
      ClosedAll(states, ids[..|ids| - 1]);
      assert ids == ids[..|ids| - 1] + [ids[|ids| - 1]];
    }
  }

  /** Open, pooled and too old to keep. */
  predicate IsExpired(l: Limits, p: Pool, now: nat, id: Id) {
    Known(p) && id in p.connections && id < |p.states| && p.states[id] == Open && now - p.born[id] > l.maxAge
  }

  lemma ExpiredNone(l: Limits, p: Pool, now: nat)
    requires Known(p)
    ensures Expired(l, p, now, 0) == []
  {
  }

  lemma ExpiredNext(l: Limits, p: Pool, now: nat, n: nat)
    requires Known(p) && n < |p.connections|
    ensures var id := p.connections[n];
      Expired(l, p, now, n + 1) == Expired(l, p, now, n) + if p.states[id] == Open && now - p.born[id] > l.maxAge then [id] else []
  {
  }

  lemma {:induction false} ExpiredAre(l: Limits, p: Pool, now: nat, n: nat)
    requires Known(p) && n <= |p.connections|
    ensures forall id :: id in Expired(l, p, now, n) <==> id in p.connections[..n] && IsExpired(l, p, now, id)
    ensures Distinct(p.connections) ==> Distinct(Expired(l, p, now, n))
  {
    if n > 0 {
      var last := p.connections[n - 1];
      ExpiredAre(l, p, now, n - 1);
      assert p.connections[..n] == p.connections[..n - 1] + [last];
      assert last in p.connections;
      if Distinct(p.connections) {
        assert last !in p.connections[..n - 1];
      }
    }
  }

  lemma ToCloseAre(l: Limits, p: Pool, now: nat)
    requires Known(p)
    ensures forall id :: id in ToClose(l, p, now) ==> IsExpired(l, p, now, id)
  {
    var expired := Expired(l, p, now, |p.connections|);
    ExpiredAre(l, p, now, |p.connections|);
    forall id | id in ToClose(l, p, now) ensures id in expired {
      if CloseCount(l, p.count, |expired|) < |expired| {
        assert id in ByAge(p.born, expired);
        assert id in multiset(ByAge(p.born, expired));
      }
    }
  }

  // ---- What a taker gets ----

  /** Nothing but connections created at `now` was added, behind what was there. */
  predicate Extended(p: Pool, r: Pool, now: nat) {
    && p.connections <= r.connections && p.states <= r.states && p.born <= r.born
    && |r.connections| - |p.connections| == |r.states| - |p.states| == |r.born| - |p.born| == r.count - p.count
    && (forall i :: |p.connections| <= i < |r.connections| ==> r.connections[i] == |p.states| + (i - |p.connections|))
    && (forall i :: |p.states| <= i < |r.states| ==> r.states[i] == Connecting)
    && (forall i :: |p.born| <= i < |r.born| ==> r.born[i] == now)
    && r == p.(connections := r.connections, count := r.count, states := r.states, born := r.born)
  }

  lemma {:induction false} ReplenishExtends(p: Pool, target: int, now: nat)
    ensures Extended(p, Replenish(p, target, now), now)
    ensures Replenish(p, target, now).count == Max(p.count, target)
    decreases target - p.count
  {
    if p.count < target {
      ReplenishExtends(Create(p, now), target, now);
      CreateExtends(p, Replenish(Create(p, now), target, now), now);
      hide Extended;
    }
  }

  lemma CreateExtends(p: Pool, r: Pool, now: nat)
    requires Extended(Create(p, now), r, now)
    ensures Extended(p, r, now)
  {
    var c := Create(p, now);
    assert c.connections[|p.connections|] == |p.states| && c.states[|p.states|] == Connecting && c.born[|p.born|] == now;
    assert forall i :: |p.connections| <= i < |c.connections| ==> r.connections[i] == c.connections[i];
    assert forall i :: |p.states| <= i < |c.states| ==> r.states[i] == c.states[i];
    assert forall i :: |p.born| <= i < |c.born| ==> r.born[i] == c.born[i];
  }

  /** The pool with the connection at `i` taken out and lent at `now`, the others in their order. */
  predicate TakenOut(p: Pool, i: nat, rest: Pool, now: nat) {
    && i < |p.connections|
    && rest == p.(connections := rest.connections, lent := p.lent + {p.connections[i]}, lastActive := now)
    && |rest.connections| == |p.connections| - 1
    && forall k :: 0 <= k < |rest.connections| ==> rest.connections[k] == p.connections[if k < i then k else k + 1]
  }

  /**
   A taker that gets a connection gets the first open one of the pool, which is lent out from now on; connections are
   created only up to the minimum.
   */
  lemma TakenIsOpen(l: Limits, p: Pool, now: nat, stop: bool, woken: bool)
    requires Safe(l, p) && Take(l, p, now, stop, woken).1.Taken?
    ensures var (r, out) := Take(l, p, now, stop, woken);
      && (exists i, rest ::
            && 0 <= i < |p.connections| && p.connections[i] == out.id
            && (forall k :: 0 <= k < i ==> p.states[p.connections[k]] != Open)
            && TakenOut(p, i, rest, now) && Extended(rest, r, now))
      && out.id < |p.states| && p.states[out.id] == Open && out.id in r.lent && out.id !in r.connections
      && r.count == Max(p.count, l.minCount)
  {
    var i := FirstOpen(p.states, p.connections, 0).value;
    var lent := Lend(p, i, now);
    LendSafe(l, p, i, now);
    ReplenishSafe(l, lent, l.minCount, now);
    ReplenishExtends(lent, l.minCount, now);
    ExtendedKeeps(lent, Replenish(lent, l.minCount, now), now);
    assert TakenOut(p, i, lent, now);
    hide Replenish, Safe, Extended, TakenOut;
  }

  /** One that waits adds one new connection, or as many as the minimum needs, unless the pool is full. */
  lemma WaitsForNew(l: Limits, p: Pool, now: nat, stop: bool, woken: bool)
    requires Safe(l, p) && Take(l, p, now, stop, woken).1.Waiting?
    ensures var r := Take(l, p, now, stop, woken).0;
      && (forall i :: 0 <= i < |p.connections| ==> p.states[p.connections[i]] != Open)
      && Extended(p, r, now)
      && r.count == if p.count == l.maxCount then p.count else Max(p.count + 1, l.minCount)
  {
    ReplenishExtends(p, Clamp(p.count + 1, l.minCount, l.maxCount), now);
    SafeCounts(l, p);
    hide Replenish, Partitioned, Noticed, Extended;
  }

  lemma ExtendedKeeps(p: Pool, r: Pool, now: nat)
    requires Extended(p, r, now)
    ensures forall id :: id in r.connections ==> id in p.connections || id >= |p.states|
  {
    assert forall i :: 0 <= i < |p.connections| ==> r.connections[i] == p.connections[i];
  }

  /** A taker is turned away if and only if a stop was requested; otherwise only a failure it was woken by does that. */
  lemma StoppedOrFailed(l: Limits, p: Pool, now: nat, stop: bool, woken: bool)
    requires Known(p)
    ensures var (r, out) := Take(l, p, now, stop, woken);
      && (out == Stopped <==> stop) && (stop ==> r == p)
      && (forall e :: out == Failed(e) <==> !stop && woken && p.lastException == Some(e))
      && (out.Failed? ==> r == p)
  {
    hide Replenish;
  }

  /** The failure that a run leaves behind: that of the last connection reported open, closed or failed. */
  function LastFailure(l: Limits, created: nat, steps: seq<Step>): Option<string> {
    if steps == [] then None
    else
      var early, step := steps[..|steps| - 1], steps[|steps| - 1];
      if !Enabled(Run(l, created, early), step) then LastFailure(l, created, early)
      else
        match step
        case OnOpen(_) => None
        case OnClose(_) => None
        case OnFail(_, error) => error
        case _ => LastFailure(l, created, early)
  }

  /** When a connection was last taken, or else when the host was made. */
  function LastTaken(l: Limits, created: nat, steps: seq<Step>): nat {
    if steps == [] then created
    else
      var early, step := steps[..|steps| - 1], steps[|steps| - 1];
      if step.TakeTurn? && Take(l, Run(l, created, early), step.now, step.stop, step.woken).1.Taken? then step.now
      else LastTaken(l, created, early)
  }

  /** The host record keeps exactly these two. */
  lemma {:induction false} RunHistory(l: Limits, created: nat, steps: seq<Step>)
    ensures Run(l, created, steps).lastException == LastFailure(l, created, steps)
    ensures Run(l, created, steps).lastActive == LastTaken(l, created, steps)
  {
    if steps != [] {
      var p, step := Run(l, created, steps[..|steps| - 1]), steps[|steps| - 1];
      RunHistory(l, created, steps[..|steps| - 1]);
      if Enabled(p, step) {
        StepHistory(l, p, step);
      }
      hide Safe, Apply, Take, Enabled;
    }
  }

  lemma StepHistory(l: Limits, p: Pool, step: Step)
    requires Safe(l, p) && Enabled(p, step)
    ensures Apply(l, p, step).lastException
         == match step case OnOpen(_) => None case OnClose(_) => None case OnFail(_, error) => error case _ => p.lastException
    ensures Apply(l, p, step).lastActive
         == if step.TakeTurn? && Take(l, p, step.now, step.stop, step.woken).1.Taken? then step.now else p.lastActive
  {
    match step {
      case TakeTurn(now, stop, woken) => TakeHistory(l, p, now, stop, woken);
      case KeepAliveStep(now) =>
        ReplenishExtends(p.(states := CloseAll(p.states, ToClose(l, p, now))),
          KeepTarget(l, p.count, |Expired(l, p, now, |p.connections|)|), now);
      case _ =>
    }
    hide Replenish, Without, ToClose, CloseAll, Expired, KeepTarget, Partitioned, Noticed, Take;
  }

  lemma TakeHistory(l: Limits, p: Pool, now: nat, stop: bool, woken: bool)
    requires Known(p)
    ensures var (r, out) := Take(l, p, now, stop, woken);
      r.lastException == p.lastException && r.lastActive == if out.Taken? then now else p.lastActive
  {
    if !stop && !(woken && p.lastException.Some?) {
      var i := FirstOpen(p.states, p.connections, 0);
      if i.Some? {
        ReplenishExtends(Lend(p, i.value, now), l.minCount, now);
      } else {
        ReplenishExtends(p, Clamp(p.count + 1, l.minCount, l.maxCount), now);
      }
    }
    hide Replenish;
  }

  /** Over every run: a woken taker that is not stopped is told of a failure exactly when that was the last thing reported. */
  lemma WokenByFailure(l: Limits, created: nat, steps: seq<Step>, now: nat, error: string)
    ensures var p := Run(l, created, steps);
      Take(l, p, now, false, true) == (p, Failed(error)) <==> LastFailure(l, created, steps) == Some(error)
  {
    RunHistory(l, created, steps);
    StoppedOrFailed(l, Run(l, created, steps), now, false, true);
    hide Run, Take, LastFailure, Safe;
  }

  /** Over every run: a host from which nothing was taken for longer than `keepAlive` is left alone. */
  lemma IdleLeftAlone(l: Limits, created: nat, steps: seq<Step>, now: nat)
    requires now - LastTaken(l, created, steps) > l.keepAlive
    ensures Run(l, created, steps + [KeepAliveStep(now)]) == Run(l, created, steps)
  {
    RunHistory(l, created, steps);
    RunNext(l, created, steps, KeepAliveStep(now));
    hide Run, LastTaken, Safe, Expired, ToClose, Replenish;
  }

  /**
   Over every run: when a connection dies its handler takes it out of the pool if it is there, frees its place, and
   leaves the failure, or none, for the takers; a lent one stays lent.
   */
  lemma DeathNoticed(l: Limits, created: nat, steps: seq<Step>, id: Id, error: Option<string>)
    requires id < |Run(l, created, steps).states| && Run(l, created, steps).states[id] != Closed
    ensures var p, dead := Run(l, created, steps), steps + [Change(id, Closed)];
      var failed, closed := Run(l, created, dead + [OnFail(id, error)]), Run(l, created, dead + [OnClose(id)]);
      && id !in failed.connections && id !in closed.connections && failed.lent == closed.lent == p.lent
      && failed.count == closed.count == p.count - (if id in p.connections then 1 else 0)
      && failed.lastException == error && closed.lastException == None
  {
    hide *;
    var p, dead := Run(l, created, steps), steps + [Change(id, Closed)];
    RunNext(l, created, steps, Change(id, Closed));
    RunNext(l, created, dead, OnFail(id, error));
    RunNext(l, created, dead, OnClose(id));
    SafeDistinct(l, p);
    var q := p.(states := p.states[id := Closed]);
    DyingSteps(l, p, q, id, error);
    RemoveGives(q.(lastException := error), id);
    RemoveGives(q.(lastException := None), id);
  }

  lemma DyingSteps(l: Limits, p: Pool, q: Pool, id: Id, error: Option<string>)
    requires Safe(l, p) && id < |p.states| && p.states[id] != Closed && q == p.(states := p.states[id := Closed])
    ensures Enabled(p, Change(id, Closed)) && Apply(l, p, Change(id, Closed)) == q
    ensures Safe(l, q) && Enabled(q, OnFail(id, error)) && Enabled(q, OnClose(id))
    ensures Apply(l, q, OnFail(id, error)) == Remove(q.(lastException := error), id)
    ensures Apply(l, q, OnClose(id)) == Remove(q.(lastException := None), id)
  {
    ChangeSafe(l, p, id, Closed);
    hide Remove;
  }

  lemma RemoveGives(p: Pool, id: Id)
    requires Distinct(p.connections)
    ensures var r := Remove(p, id);
      && id !in r.connections && r.lent == p.lent && r.lastException == p.lastException
      && r.count == p.count - if id in p.connections then 1 else 0
  {
    WithoutIs(p.connections, id);
    hide Without;
  }

  lemma SafeDistinct(l: Limits, p: Pool)
    requires Safe(l, p)
    ensures Distinct(p.connections)
  {
  }

  /** Over every run: when a pooled connection opens, the taker its handler wakes gets a connection. */
  lemma OpeningServes(l: Limits, created: nat, steps: seq<Step>, id: Id, now: nat)
    requires id in Run(l, created, steps).connections && Run(l, created, steps).states[id] == Connecting
    ensures var ready := steps + [Change(id, Open)];
      Take(l, Run(l, created, ready + [OnOpen(id)]), now, false, true).1.Taken?
  {
    var p, ready := Run(l, created, steps), steps + [Change(id, Open)];
    RunNext(l, created, steps, Change(id, Open));
    RunNext(l, created, ready, OnOpen(id));
    var i :| 0 <= i < |p.connections| && p.connections[i] == id;
    var r := Run(l, created, ready + [OnOpen(id)]);
    assert r.connections[i] == id && r.states[id] == Open;
    hide Run, Safe, Replenish, FirstOpen;
  }

  /** Over every run: a connection given back is the pool's last one if it is open, and gone otherwise. */
  lemma GivenBack(l: Limits, created: nat, steps: seq<Step>, id: Id)
    requires id in Run(l, created, steps).lent
    ensures var p, r := Run(l, created, steps), Run(l, created, steps + [PutBackStep(id)]);
      if p.states[id] == Open then r == p.(lent := p.lent - {id}, connections := p.connections + [id])
      else
        && r.lent == p.lent - {id} && r.connections == p.connections && r.count == p.count - 1
        && r.lastException == p.lastException && r.lastActive == p.lastActive && r.states == p.states && r.born == p.born
  {
    var p := Run(l, created, steps);
    RunNext(l, created, steps, PutBackStep(id));
    if p.states[id] != Open {
      DropSafe(l, p, id);
    }
    hide Run, Remove, Safe;
  }

  /** A connection put back is not lent again while another open one is pooled. */
  lemma LastBackLastOut(l: Limits, p: Pool, id: Id, now: nat, woken: bool)
    requires Safe(l, p) && id in p.lent && p.states[id] == Open
    requires exists i :: 0 <= i < |p.connections| && p.states[p.connections[i]] == Open
    ensures Known(PutBack(p, id))
    ensures Take(l, PutBack(p, id), now, false, woken).1 != Taken(id)
  {
    var r := PutBack(p, id);
    ReturnSafe(l, p, id);
    var i :| 0 <= i < |p.connections| && p.states[p.connections[i]] == Open;
    assert r.connections[i] == p.connections[i];
    var first := FirstOpen(r.states, r.connections, 0);
    assert first.Some? && first.value <= i && r.connections[first.value] == p.connections[first.value];
    hide Replenish, FirstOpen;
  }

  /** The other connections stay in their order when one is removed. */
  lemma RemoveKeepsOrder(p: Pool, a: seq<Id>, id: Id, b: seq<Id>)
    requires p.connections == a + [id] + b && Distinct(p.connections)
    ensures Remove(p, id).connections == a + b
  {
    WithoutSplits(a, id, b);
  }

  lemma {:induction false} WithoutSplits(a: seq<Id>, id: Id, b: seq<Id>)
    requires Distinct(a + [id] + b)
    ensures Without(a + [id] + b, id) == a + b
  {
    var all := a + [id] + b;
    assert all[|a|] == id;
    if b == [] {
      assert all[..|all| - 1] == a && all[|all| - 1] == id;
      assert id !in a by { assert forall i :: 0 <= i < |a| ==> all[i] == a[i]; }
      NothingWithout(a, id);
      assert a + b == a;
    } else {
      var early := b[..|b| - 1];
      assert all[..|all| - 1] == a + [id] + early && all[|all| - 1] == b[|b| - 1];
      assert Distinct(a + [id] + early) by { assert forall i :: 0 <= i < |all| - 1 ==> all[..|all| - 1][i] == all[i]; }
      WithoutSplits(a, id, early);
      assert b == early + [b[|b| - 1]];
    }
  }

  // ---- Uncounting ----

  /**
   A connection is uncounted either when it closes while pooled, or when it is put back no longer open:
   the closing of one that is lent out leaves the count alone until then.
   */
  lemma UncountedWhen(l: Limits, p: Pool, step: Step)
    requires Safe(l, p) && Enabled(p, step)
    ensures var r := Apply(l, p, step);
      && (r.uncounted == p.uncounted
          || (step.PutBackStep? && p.states[step.id] != Open && r.uncounted == p.uncounted + [step.id])
          || ((step.OnClose? || step.OnFail?) && step.id in p.connections && r.uncounted == p.uncounted + [step.id]))
      && ((step.OnClose? || step.OnFail?) && step.id in p.lent ==> r.count == p.count && step.id in r.lent)
      && (step.PutBackStep? ==> r.count == p.count - if p.states[step.id] == Open then 0 else 1)
  {
    match step {
      case TakeTurn(now, stop, woken) => TakeUncountsNone(l, p, now, stop, woken);
      case PutBackStep(id) => PutBackUncounts(l, p, id);
      case OnClose(id) => WithoutIs(p.connections, id);
      case OnFail(id, _) => WithoutIs(p.connections, id);
      case KeepAliveStep(now) => KeepAliveCounts(l, p, now);
      case _ =>
    }
    hide Take, PutBack, Without, KeepAlive, Safe;
  }

  lemma PutBackUncounts(l: Limits, p: Pool, id: Id)
    requires Safe(l, p) && id in p.lent
    ensures var r := PutBack(p, id);
      if p.states[id] == Open then r.uncounted == p.uncounted && r.count == p.count
      else r.uncounted == p.uncounted + [id] && r.count == p.count - 1
  {
    if p.states[id] != Open {
      DropSafe(l, p, id);
    }
    hide Remove;
  }

  lemma TakeUncountsNone(l: Limits, p: Pool, now: nat, stop: bool, woken: bool)
    requires Safe(l, p)
    ensures Take(l, p, now, stop, woken).0.uncounted == p.uncounted
  {
    if !stop && !(woken && p.lastException.Some?) {
      var i := FirstOpen(p.states, p.connections, 0);
      if i.Some? {
        LendSafe(l, p, i.value, now);
        ReplenishSafe(l, Lend(p, i.value, now), l.minCount, now);
      } else {
        ReplenishSafe(l, p, Clamp(p.count + 1, l.minCount, l.maxCount), now);
      }
    }
    hide Replenish, Safe;
  }

  // ---- Waking those who wait ----

  /** A waiting taker could do nothing if it were woken: nothing is open, and no connection may be added. */
  predicate Stuck(l: Limits, p: Pool)
    requires Known(p)
  {
    (forall i :: 0 <= i < |p.connections| ==> p.states[p.connections[i]] != Open) && p.count >= l.maxCount
  }

  /** The steps that notify the waiting takers. */
  predicate Notifies(p: Pool, step: Step)
    requires Enabled(p, step) && forall id :: id in p.lent ==> id < |p.states|
  {
    step.OnOpen? || step.OnClose? || step.OnFail? || (step.PutBackStep? && p.states[step.id] == Open)
  }

  /**
   A step that ends a standstill without a notification is either a pooled connection becoming open, whose handler
   notifies next, or the dropping of a dead connection that comes back, which no notification follows.
   */
  lemma SilentRelease(l: Limits, p: Pool, step: Step)
    requires Safe(l, p) && Enabled(p, step) && Stuck(l, p)
    ensures Known(Apply(l, p, step))
    ensures !Stuck(l, Apply(l, p, step)) && !Notifies(p, step)
       <==> || (step.Change? && step.to == Open && step.id in p.connections)
            || (step.PutBackStep? && p.states[step.id] != Open)
  {
    ApplySafe(l, p, step);
    match step {
      case TakeTurn(now, stop, woken) => assert Take(l, p, now, stop, woken).0 == p;
      case PutBackStep(id) => PutBackUncounts(l, p, id);
      case Change(id, to) => ChangeReleases(l, p, id, to);
      case KeepAliveStep(now) => KeepAliveStuck(l, p, now);
      case _ =>
    }
    hide PutBack, KeepAlive, Remove, Partitioned, Noticed;
  }

  lemma ChangeReleases(l: Limits, p: Pool, id: Id, to: State)
    requires Safe(l, p) && Stuck(l, p) && id < |p.states|
    ensures Stuck(l, p.(states := p.states[id := to])) <==> !(to == Open && id in p.connections)
  {
    var r := p.(states := p.states[id := to]);
    if to == Open && id in p.connections {
      var i :| 0 <= i < |p.connections| && p.connections[i] == id;
      assert r.states[r.connections[i]] == Open;
    }
  }

  lemma KeepAliveStuck(l: Limits, p: Pool, now: nat)
    requires Safe(l, p) && Stuck(l, p)
    ensures Known(KeepAlive(l, p, now)) && Stuck(l, KeepAlive(l, p, now))
  {
    if now - p.lastActive <= l.keepAlive {
      ClosedAll(p.states, ToClose(l, p, now));
      hide ToClose, CloseAll, Expired, KeepTarget;
    }
  }

  lemma RunNext(l: Limits, created: nat, steps: seq<Step>, step: Step)
    ensures var p := Run(l, created, steps); Run(l, created, steps + [step]) == if Enabled(p, step) then Apply(l, p, step) else p
  {
    assert (steps + [step])[..|steps|] == steps;
  }

  /** The one connection of a pool, lent out to one taker while another waits. */
  function LentOut(state: State, reset: set<Id>): Pool {
    Pool([], 1, None, 0, [state], [0], {0}, reset, [])
  }

  /** Such a run: the only connection dies while lent out, which wakes the waiting taker too early; its return wakes no one. */
  lemma StrandedTaker(l: Limits)
    requires l.minCount == l.maxCount == 1
    ensures var p := LentOut(Closed, {0});
      && (exists steps :: Run(l, 0, steps) == p)
      && Stuck(l, p) && Take(l, p, 1, false, true) == (p, Waiting)
      && Enabled(p, PutBackStep(0)) && !Notifies(p, PutBackStep(0)) && !Stuck(l, PutBack(p, 0))
  {
    OneClosed(l);
    var steps := StrandingRun(l);
    hide *;
  }

  lemma StrandingRun(l: Limits) returns (steps: seq<Step>)
    requires l.minCount == l.maxCount == 1
    ensures Run(l, 0, steps) == LentOut(Closed, {0})
  {
    OneCreated(l);
    OneTaken(l);
    OneClosed(l);
    assert Run(l, 0, []) == NewHost(0);
    hide Run, Apply, OnlyOne, LentOut, Safe, NewHost;
    steps := [];
    RunNext(l, 0, steps, TakeTurn(0, false, false));
    steps := steps + [TakeTurn(0, false, false)];
    RunNext(l, 0, steps, Change(0, Open));
    steps := steps + [Change(0, Open)];
    RunNext(l, 0, steps, TakeTurn(0, false, true));
    steps := steps + [TakeTurn(0, false, true)];
    RunNext(l, 0, steps, Change(0, Closed));
    steps := steps + [Change(0, Closed)];
    RunNext(l, 0, steps, OnClose(0));
    steps := steps + [OnClose(0)];
  }

  function OnlyOne(state: State): Pool {
    Pool([0], 1, None, 0, [state], [0], {}, {}, [])
  }

  lemma OneCreated(l: Limits)
    requires l.minCount == l.maxCount == 1
    ensures Enabled(NewHost(0), TakeTurn(0, false, false)) && Apply(l, NewHost(0), TakeTurn(0, false, false)) == OnlyOne(Connecting)
    ensures Enabled(OnlyOne(Connecting), Change(0, Open)) && Apply(l, OnlyOne(Connecting), Change(0, Open)) == OnlyOne(Open)
  {
    var one := Create(NewHost(0), 0);
    assert Replenish(one, 1, 0) == one;
    assert Replenish(NewHost(0), 1, 0) == one;
    assert FirstOpen(NewHost(0).states, NewHost(0).connections, 0) == None;
  }

  lemma OneTaken(l: Limits)
    requires l.minCount == l.maxCount == 1
    ensures Enabled(OnlyOne(Open), TakeTurn(0, false, true))
    ensures Apply(l, OnlyOne(Open), TakeTurn(0, false, true)) == LentOut(Open, {})
    ensures Enabled(LentOut(Open, {}), Change(0, Closed)) && Apply(l, LentOut(Open, {}), Change(0, Closed)) == LentOut(Closed, {})
  {
    var p := OnlyOne(Open);
    assert FirstOpen(p.states, p.connections, 0) == Some(0);
    assert Lend(p, 0, 0) == LentOut(Open, {});
    assert Replenish(LentOut(Open, {}), 1, 0) == LentOut(Open, {});
  }

  lemma OneClosed(l: Limits)
    requires l.minCount == l.maxCount == 1
    ensures var p := LentOut(Closed, {0});
      && Enabled(LentOut(Closed, {}), OnClose(0)) && Apply(l, LentOut(Closed, {}), OnClose(0)) == p
      && Take(l, p, 1, false, true) == (p, Waiting)
      && Enabled(p, PutBackStep(0)) && !Notifies(p, PutBackStep(0)) && Stuck(l, p)
      && !Stuck(l, PutBack(p, 0))
  {
    var p := LentOut(Closed, {0});
    assert FirstOpen(p.states, p.connections, 0) == None;
    DropIs(p, 0);
  }

  // ---- Keeping alive ----

  /**
   No subtraction goes below zero; closing leaves at least `minCount`; and afterwards the count without
   the expired ones reaches `minCount` unless the pool is full, with no connection more than that needs.
   */
  lemma KeepAliveArithmetic(l: Limits, p: Pool, now: nat)
    requires Safe(l, p)
    ensures var expired, closed := Expired(l, p, now, |p.connections|), ToClose(l, p, now);
      && |closed| <= |expired| <= p.count
      && (closed != [] ==> p.count - |closed| >= l.minCount)
      && (|closed| < |expired| ==> |closed| == Max(p.count - l.minCount, 0))
    ensures now - p.lastActive <= l.keepAlive ==>
      var r, e := KeepAlive(l, p, now), |Expired(l, p, now, |p.connections|)|;
      && (r.count == l.maxCount || r.count - e >= l.minCount)
      && (r.count > p.count ==> r.count - e <= l.minCount)
  {
    KeepAliveCounts(l, p, now);
    hide Safe, KeepAlive, Expired;
    SafeCounts(l, p);
  }

  /** The connections to be closed are closing, no others; and only new ones are added. */
  lemma KeepAliveCloses(l: Limits, p: Pool, now: nat)
    requires Safe(l, p) && now - p.lastActive <= l.keepAlive
    ensures exists states ::
      && |states| == |p.states|
      && (forall id :: 0 <= id < |states| ==> states[id] == if id in ToClose(l, p, now) then Closing else p.states[id])
      && Extended(p.(states := states), KeepAlive(l, p, now), now)
  {
    var states := CloseAll(p.states, ToClose(l, p, now));
    ClosedAll(p.states, ToClose(l, p, now));
    ReplenishExtends(p.(states := states), KeepTarget(l, p.count, |Expired(l, p, now, |p.connections|)|), now);
    hide Extended, ToClose, CloseAll, Replenish, Expired, KeepTarget, Partitioned, Noticed;
  }

  lemma SafeCounts(l: Limits, p: Pool)
    requires Safe(l, p)
    ensures |p.connections| <= p.count <= l.maxCount
  {
  }

  /** The connections closed are open, pooled and too old, each closed once. */
  lemma ClosesExpired(l: Limits, p: Pool, now: nat)
    requires Safe(l, p)
    ensures Distinct(ToClose(l, p, now))
    ensures forall id :: id in ToClose(l, p, now) ==> IsExpired(l, p, now, id)
  {
    var expired := Expired(l, p, now, |p.connections|);
    AllExpired(l, p, now);
    ToCloseAre(l, p, now);
    hide Expired, IsExpired, Safe, ByAge;
    if CloseCount(l, p.count, |expired|) < |expired| {
      SameDistinct(expired, ByAge(p.born, expired));
    }
  }

  /** No expired connection left open is older than one closed. */
  lemma ClosesOldest(l: Limits, p: Pool, now: nat, c: Id, e: Id)
    requires Safe(l, p) && c in ToClose(l, p, now)
    requires IsExpired(l, p, now, e) && e !in ToClose(l, p, now)
    ensures c < |p.born| && p.born[c] <= p.born[e]
  {
    var expired := Expired(l, p, now, |p.connections|);
    AllExpired(l, p, now);
    hide Expired, Safe, ByAge;
    OldestAre(p.born, expired, CloseCount(l, p.count, |expired|));
  }

  lemma AllExpired(l: Limits, p: Pool, now: nat)
    requires Safe(l, p)
    ensures var expired := Expired(l, p, now, |p.connections|);
      && Known(p) && Distinct(expired) && AllBelow(expired, |p.born|)
      && forall id :: id in expired <==> IsExpired(l, p, now, id)
  {
    ExpiredAre(l, p, now, |p.connections|);
    assert p.connections[..|p.connections|] == p.connections;
  }

  lemma OldestAre(born: seq<nat>, ids: seq<Id>, n: nat)
    requires AllBelow(ids, |born|) && n <= |ids|
    ensures forall c, e :: c in ByAge(born, ids)[..n] && e in ids && e !in ByAge(born, ids)[..n] ==>
              c < |born| && e < |born| && born[c] <= born[e]
  {
    var ordered := ByAge(born, ids);
    forall c, e | c in ordered[..n] && e in ids && e !in ordered[..n] ensures c < |born| && e < |born| && born[c] <= born[e] {
      assert e in multiset(ordered);
      var j :| 0 <= j < |ordered| && ordered[j] == e;
      var i :| 0 <= i < n && ordered[..n][i] == c;
      assert forall k :: 0 <= k < n ==> ordered[k] in ordered[..n];
    }
  }

  lemma SameDistinct(a: seq<Id>, b: seq<Id>)
    requires multiset(a) == multiset(b) && Distinct(a)
    ensures Distinct(b)
  {
    forall i, j | 0 <= i < j < |b| ensures b[i] != b[j] {
      if b[i] == b[j] {
        Twice(b, i, j);
        OnceOnly(a, b[i]);
      }
    }
  }

  lemma Twice(b: seq<Id>, i: nat, j: nat)
    requires i < j < |b| && b[i] == b[j]
    ensures multiset(b)[b[i]] >= 2
  {
    assert b == b[..j] + [b[j]] + b[j + 1..];
    assert b[..j][i] == b[i];
    assert b[i] in multiset(b[..j]);
  }

  lemma {:induction false} OnceOnly(a: seq<Id>, x: Id)
    requires Distinct(a)
    ensures multiset(a)[x] <= 1
    ensures x !in a ==> multiset(a)[x] == 0
  {
    if a != [] {
      OnceOnly(a[..|a| - 1], x);
      assert a == a[..|a| - 1] + [a[|a| - 1]];
      assert a[|a| - 1] !in a[..|a| - 1];
    }
  }

  lemma NoneClosed(states: seq<State>)
    ensures CloseAll(states, []) == states
  {
  }

  lemma CloseAllNext(states: seq<State>, ids: seq<Id>, i: nat)
    requires i < |ids| && AllBelow(ids, |states|)
    ensures CloseAll(states, ids[..i + 1]) == CloseAll(states, ids[..i])[ids[i] := Closing]
  {
    assert ids[..i + 1][..i] == ids[..i];
  }

  // ---- The host record ----

  class HostInfo {
    const limits: Limits
    var connections: seq<Id>
    var count: int
    var lastException: Option<string>
    var lastActive: nat
    var states: seq<State>
    var born: seq<nat>
    ghost var lent: set<Id>
    ghost var reset: set<Id>
    ghost var uncounted: seq<Id>

    constructor (limits: Limits, now: nat)
      ensures this.limits == limits && Snapshot() == NewHost(now) && Valid()
    {
      this.limits := limits;
      connections, count, lastException, lastActive, states, born := [], 0, None, now, [], [];
      lent, reset, uncounted := {}, {}, [];
    }

    ghost function Snapshot(): Pool
      reads this
    {
      Pool(connections, count, lastException, lastActive, states, born, lent, reset, uncounted)
    }

    ghost predicate Valid()
      reads this
    {
      Safe(limits, Snapshot())
    }

    /** Takes the first open connection out of the list, if there is one. */
    method GetConnection(now: nat) returns (conn: Option<Id>)
      requires Known(Snapshot())
      modifies this`connections, this`lent, this`lastActive
      ensures var p := old(Snapshot()); var i := FirstOpen(p.states, p.connections, 0);
        if i.Some? then conn == Some(p.connections[i.value]) && Snapshot() == Lend(p, i.value, now)
        else conn == None && Snapshot() == p
    {
      var i := 0;
      while i < |connections| && states[connections[i]] != Open
        invariant 0 <= i <= |connections|
        invariant FirstOpen(states, connections, 0) == FirstOpen(states, connections, i)
      {
        i := i + 1;
      }
      if i == |connections| {
        return None;
      }
      conn := Some(connections[i]);
      lent := lent + {connections[i]};
      connections := connections[..i] + connections[i + 1..];
      lastActive := now;
    }

    method CreateConnection(now: nat)
      modifies this`connections, this`count, this`states, this`born
      ensures Snapshot() == Create(old(Snapshot()), now)
    {
      connections := connections + [|states|];
      states, born := states + [Connecting], born + [now];
      count := count + 1;
    }

    method ReplenishTo(target: int, now: nat)
      modifies this`connections, this`count, this`states, this`born
      ensures Snapshot() == Replenish(old(Snapshot()), target, now)
    {
      while count < target
        invariant Replenish(Snapshot(), target, now) == Replenish(old(Snapshot()), target, now)
        decreases target - count
      {
        CreateConnection(now);
      }
    }

    /** One turn of `TakeConnection`, from gaining the lock to leaving or waiting. */
    method TakeConnection(now: nat, stop: bool, woken: bool) returns (outcome: Outcome)
      requires Valid()
      modifies this
      ensures Valid()
      ensures (Snapshot(), outcome) == Take(limits, old(Snapshot()), now, stop, woken)
    {
      TakeSafe(limits, Snapshot(), now, stop, woken);
      hide Safe, Replenish, Lend;
      if stop {
        return Stopped;
      }
      if woken && lastException.Some? {
        return Failed(lastException.value);
      }
      var conn := GetConnection(now);
      ReplenishTo(if conn.None? then Clamp(count + 1, limits.minCount, limits.maxCount) else limits.minCount, now);
      outcome := if conn.Some? then Taken(conn.value) else Waiting;
    }

    /** Resets a connection's handlers and, if it is in the list, frees and uncounts it. */
    method RemoveConnection(id: Id)
      modifies this`connections, this`count, this`reset, this`uncounted
      ensures Snapshot() == Remove(old(Snapshot()), id)
    {
      reset := reset + {id};
      var rest, removed := [], 0;
      for i := 0 to |connections|
        invariant rest == Without(connections[..i], id)
        invariant removed == i - |rest|
      {
        assert connections[..i + 1][..i] == connections[..i];
        if connections[i] == id {
          removed := removed + 1;
        } else {
          rest := rest + [connections[i]];
        }
      }
      assert connections[..|connections|] == connections;
      if removed > 0 {
        uncounted := uncounted + [id];
      }
      connections := rest;
      count := count - removed;
    }

    /** A lent connection comes back: to the end of the list if it is open, otherwise it is dropped. */
    method PutBackConnection(id: Id)
      requires Valid() && id in lent
      modifies this
      ensures Valid()
      ensures Snapshot() == PutBack(old(Snapshot()), id)
    {
      PutBackSafe(limits, Snapshot(), id);
      hide Safe, PutBack;
      Return(id);
    }

    method Return(id: Id)
      requires Known(Snapshot()) && id < |states|
      modifies this`connections, this`count, this`reset, this`uncounted, this`lent
      ensures Snapshot() == PutBack(old(Snapshot()), id)
    {
      hide Known, Without;
      lent := lent - {id};
      if states[id] == Open {
        connections := connections + [id];
      } else {
        count := count - 1;
        uncounted := uncounted + [id];
        RemoveConnection(id);
      }
    }

    method OnOpenHandler()
      requires Valid()
      modifies this`lastException
      ensures Valid()
      ensures Snapshot() == old(Snapshot()).(lastException := None)
    {
      lastException := None;
    }

    method OnCloseHandler(id: Id)
      requires Valid() && id < |states| && states[id] == Closed
      modifies this
      ensures Valid()
      ensures Snapshot() == Remove(old(Snapshot()).(lastException := None), id)
    {
      RemoveSafe(limits, Snapshot().(lastException := None), id);
      hide Safe;
      lastException := None;
      RemoveConnection(id);
    }

    method OnFailHandler(id: Id, error: Option<string>)
      requires Valid() && id < |states| && states[id] == Closed
      modifies this
      ensures Valid()
      ensures Snapshot() == Remove(old(Snapshot()).(lastException := error), id)
    {
      RemoveSafe(limits, Snapshot().(lastException := error), id);
      hide Safe;
      lastException := error;
      RemoveConnection(id);
    }

    /** Closes what has expired, as far as the minimum allows, oldest first, and creates replacements. */
    method KeepConnectionsAlive(now: nat)
      requires Valid()
      modifies this
      ensures Valid()
      ensures Snapshot() == KeepAlive(limits, old(Snapshot()), now)
    {
      KeepAliveSafe(limits, Snapshot(), now);
      hide Safe, KeepAlive;
      Refresh(now);
    }

    method Refresh(now: nat)
      requires Known(Snapshot())
      modifies this`connections, this`count, this`states, this`born
      ensures Snapshot() == KeepAlive(limits, old(Snapshot()), now)
    {
      hide Known, Expired, ToClose, CloseAll, Replenish;
      if now - lastActive > limits.keepAlive {
        return;
      }
      var connectionsToClose := FindExpired(now);
      var expired := |connectionsToClose|;
      CloseExpired(connectionsToClose, now);
      ReplenishTo(Min(Max(count - expired, limits.minCount) + expired, limits.maxCount), now);
    }

    method FindExpired(now: nat) returns (found: seq<Id>)
      requires Known(Snapshot())
      ensures found == Expired(limits, Snapshot(), now, |connections|)
    {
      hide Expired;
      found := [];
      ExpiredNone(limits, Snapshot(), now);
      for i := 0 to |connections|
        invariant found == Expired(limits, Snapshot(), now, i)
      {
        var id := connections[i];
        ExpiredNext(limits, Snapshot(), now, i);
        if states[id] == Open && now - born[id] > limits.maxAge {
          found := found + [id];
        }
      }
    }

    method CloseExpired(expired: seq<Id>, now: nat)
      requires Known(Snapshot()) && expired == Expired(limits, Snapshot(), now, |connections|)
      modifies this`states
      ensures var p := old(Snapshot()); Snapshot() == p.(states := CloseAll(p.states, ToClose(limits, p, now)))
    {
      ghost var p := Snapshot();
      hide Expired, CloseAll, ByAge;
      NoneClosed(states);
      if |expired| > 0 && count > limits.minCount {
        var closeCount := Min(count - limits.minCount, |expired|);
        var ordered := if closeCount < |expired| then ByAge(born, expired) else expired;
        assert ordered[..closeCount] == ToClose(limits, p, now);
        hide ToClose;
        for i := 0 to closeCount
          invariant |states| == |p.states| && states == CloseAll(p.states, ordered[..i])
        {
          CloseAllNext(p.states, ordered, i);
          states := states[ordered[i] := Closing];
        }
      }
    }
  }
}
