/** The address-to-connection table of the server and the queue of route changes that feeds it
    (`SessionsControl::emptyQueue`).

    Sessions push heap-allocated route objects; a single consumer pops them, applies those that
    can be applied, keeps the blocked ones in a local queue and retries that queue in passes. */
module RouteQueue {
  import opened Sequences

  type Address = nat
  type Ptr = nat

  /** One table row: the connection an address routes to, and the cipher session of that connection. */
  datatype Entry = Entry(con: nat, aes: nat)

  /** A queued route object: register (`add`) or unregister an address. */
  datatype Route = Route(add: bool, addr: Address, entry: Entry)

  type Table = map<Address, Entry>

  /** What is left of a batch after it has been run over a table. */
  datatype Outcome = Outcome(table: Table, kept: seq<Route>)

  const QUEUE_CAPACITY: nat := 4096
  const SIZE_MAX: nat := 0xFFFF_FFFF_FFFF_FFFF

  // ----------------------------------------------------------------------------------------
  // Specification: one pass, the retry passes, a whole drain
  // ----------------------------------------------------------------------------------------

  predicate Blocked(t: Table, r: Route) {
    if r.add then r.addr in t else r.addr !in t
  }

  function Apply(t: Table, r: Route): Table {
    if r.add then t[r.addr := r.entry] else t - {r.addr}
  }

  function Step(o: Outcome, r: Route): Outcome {
    if Blocked(o.table, r) then Outcome(o.table, o.kept + [r]) else Outcome(Apply(o.table, r), o.kept)
  }

  /** Runs `rs` over `t` once, in order; blocked routes are kept in their order. */
  function Pass(t: Table, rs: seq<Route>): (o: Outcome)
    ensures |o.kept| <= |rs|
  {
    if rs == [] then Outcome(t, []) else Step(Pass(t, rs[..|rs| - 1]), rs[|rs| - 1])
  }

  lemma PassAppend(t: Table, rs: seq<Route>, r: Route)
    ensures Pass(t, rs + [r]) == Step(Pass(t, rs), r)
  {
    assert (rs + [r])[..|rs|] == rs;
  }

  /** Repeats passes until nothing is left or a pass applies nothing. */
  function Retry(t: Table, rs: seq<Route>): Outcome
    decreases |rs|
  {
    if rs == [] then Outcome(t, [])
    else
      var o := Pass(t, rs);
      if |o.kept| == |rs| then Outcome(t, rs) else Retry(o.table, o.kept)
  }

  /** A whole drain: the popping pass followed by the retry passes. */
  function Drain(t: Table, batch: seq<Route>): Outcome {
    var o := Pass(t, batch);
    Retry(o.table, o.kept)
  }

  // ----------------------------------------------------------------------------------------
  // The balance of an address
  // ----------------------------------------------------------------------------------------

  function Weight(r: Route, a: Address): int {
    if r.addr != a then 0 else if r.add then 1 else -1
  }

  /** Adds minus removes of `a`. */
  function Balance(rs: seq<Route>, a: Address): int {
    if rs == [] then 0 else Balance(rs[..|rs| - 1], a) + Weight(rs[|rs| - 1], a)
  }

  /** (present before) + adds - removes. */
  function Net(t: Table, rs: seq<Route>, a: Address): int {
    (if a in t then 1 else 0) + Balance(rs, a)
  }

  /** How many routes of `rs` concern `a`. */
  function Count(rs: seq<Route>, a: Address): nat {
    if rs == [] then 0 else Count(rs[..|rs| - 1], a) + (if rs[|rs| - 1].addr == a then 1 else 0)
  }

  lemma {:induction false} CountIsMembership(rs: seq<Route>, a: Address)
    ensures Count(rs, a) > 0 <==> exists i :: 0 <= i < |rs| && rs[i].addr == a
  {
    if rs != [] {
      var init := rs[..|rs| - 1];
      CountIsMembership(init, a);
      if Count(init, a) > 0 {
        var i :| 0 <= i < |init| && init[i].addr == a;
        assert rs[i].addr == a;
      }
      if i :| 0 <= i < |rs| && rs[i].addr == a {
        assert i < |init| ==> init[i].addr == a;
      }
    }
  }

  lemma {:induction false} BalanceConcat(xs: seq<Route>, ys: seq<Route>, a: Address)
    ensures Balance(xs + ys, a) == Balance(xs, a) + Balance(ys, a)
  {
    if ys == [] {
      assert xs + ys == xs;
    } else {
      var init := ys[..|ys| - 1];
      BalanceConcat(xs, init, a);
      assert (xs + ys)[..|xs + ys| - 1] == xs + init;
    }
  }

  /** The balance does not depend on the order of the batch. */
  lemma {:induction false} BalanceOfPermutation(xs: seq<Route>, ys: seq<Route>, a: Address)
    requires multiset(xs) == multiset(ys)
    ensures Balance(xs, a) == Balance(ys, a)
    decreases |xs|
  {
    if xs == [] {
      assert |multiset(ys)| == 0;
    } else {
      var init, r := xs[..|xs| - 1], xs[|xs| - 1];
      assert xs == init + [r];
      assert r in multiset(ys);
      var i :| 0 <= i < |ys| && ys[i] == r;
      Remainders(init, r, ys, i);
      BalanceOfPermutation(init, ys[..i] + ys[i + 1..], a);
      BalanceWithout(ys, i, a);
    }
  }

  lemma BalanceWithout(ys: seq<Route>, i: nat, a: Address)
    requires i < |ys|
    ensures Balance(ys, a) == Balance(ys[..i] + ys[i + 1..], a) + Weight(ys[i], a)
  {
    var front := ys[..i + 1];
    assert front[..i] == ys[..i] && ys == front + ys[i + 1..];
    BalanceConcat(front, ys[i + 1..], a);
    BalanceConcat(ys[..i], ys[i + 1..], a);
  }

  // ----------------------------------------------------------------------------------------
  // What a pass, the retries and a drain do, for every table and every batch
  // ----------------------------------------------------------------------------------------

  /** Applying or keeping a route never changes the balance of any address. */
  lemma {:induction false} PassKeepsNet(t: Table, rs: seq<Route>, a: Address)
    ensures Net(Pass(t, rs).table, Pass(t, rs).kept, a) == Net(t, rs, a)
  {
    if rs != [] {
      var init, r := rs[..|rs| - 1], rs[|rs| - 1];
      PassKeepsNet(t, init, a);
      var o := Pass(t, init);
      assert (o.kept + [r])[..|o.kept|] == o.kept;
    }
  }

  /** `xs` is what is left of `ys` when some elements are taken out: the order is kept. */
  ghost predicate IsSubsequence(xs: seq<Route>, ys: seq<Route>) {
    if ys == [] then xs == []
    else
      var init := ys[..|ys| - 1];
      IsSubsequence(xs, init) || (xs != [] && xs[|xs| - 1] == ys[|ys| - 1] && IsSubsequence(xs[..|xs| - 1], init))
  }

  /** Requeued routes keep their order. */
  lemma {:induction false} PassKeepsOrder(t: Table, rs: seq<Route>)
    ensures IsSubsequence(Pass(t, rs).kept, rs)
  {
    if rs != [] {
      PassKeepsOrder(t, rs[..|rs| - 1]);
      var kept := Pass(t, rs[..|rs| - 1]).kept;
      assert (kept + [rs[|rs| - 1]])[..|kept|] == kept;
    }
  }

  /** A pass that applies nothing leaves table and queue alone, and every route in it is blocked. */
  lemma {:induction false} PassWithoutProgress(t: Table, rs: seq<Route>)
    requires |Pass(t, rs).kept| == |rs|
    ensures Pass(t, rs) == Outcome(t, rs)
    ensures forall i :: 0 <= i < |rs| ==> Blocked(t, rs[i])
  {
    if rs != [] {
      var init, r := rs[..|rs| - 1], rs[|rs| - 1];
      PassWithoutProgress(t, init);
      assert init + [r] == rs;
    }
  }

  lemma {:induction false} RetryKeepsNet(t: Table, rs: seq<Route>, a: Address)
    ensures Net(Retry(t, rs).table, Retry(t, rs).kept, a) == Net(t, rs, a)
    decreases |rs|
  {
    if rs != [] {
      var o := Pass(t, rs);
      if |o.kept| != |rs| {
        PassKeepsNet(t, rs, a);
        RetryKeepsNet(o.table, o.kept, a);
      }
    }
  }

  /** Whatever survives the retries is blocked by the final table. */
  lemma {:induction false} RetryLeavesBlocked(t: Table, rs: seq<Route>)
    ensures forall r :: r in Retry(t, rs).kept ==> Blocked(Retry(t, rs).table, r)
    decreases |rs|
  {
    if rs != [] {
      var o := Pass(t, rs);
      if |o.kept| == |rs| {
        PassWithoutProgress(t, rs);
      } else {
        RetryLeavesBlocked(o.table, o.kept);
      }
    }
  }

  /** Routes that are all blocked by `t` pull each address in one direction only. */
  lemma {:induction false} BlockedBalance(t: Table, rs: seq<Route>, a: Address)
    requires forall r :: r in rs ==> Blocked(t, r)
    ensures a in t ==> Balance(rs, a) == Count(rs, a)
    ensures a !in t ==> Balance(rs, a) == -(Count(rs, a) as int)
  {
    if rs != [] {
      var init, r := rs[..|rs| - 1], rs[|rs| - 1];
      forall x | x in init ensures Blocked(t, x) { assert x in rs; }
      BlockedBalance(t, init, a);
      assert r in rs;
    }
  }

  /** The exact result of a drain, address by address: the balance alone decides whether the
      address ends up routed and how many of its routes are left over, and all that is left over
      is adds on a routed address or removes on an unrouted one. */
  lemma DrainIsDecidedByNet(t: Table, batch: seq<Route>, a: Address)
    ensures a in Drain(t, batch).table <==> Net(t, batch, a) >= 1
    ensures Count(Drain(t, batch).kept, a) == if Net(t, batch, a) >= 1 then Net(t, batch, a) - 1 else -Net(t, batch, a)
    ensures forall r :: r in Drain(t, batch).kept && r.addr == a ==> r.add == (a in Drain(t, batch).table)
  {
    var o := Pass(t, batch);
    var d := Drain(t, batch);
    PassKeepsNet(t, batch, a);
    RetryKeepsNet(o.table, o.kept, a);
    RetryLeavesBlocked(o.table, o.kept);
    BlockedBalance(d.table, d.kept, a);
  }

  /** The drain gets stuck exactly when some address is out of balance. */
  lemma DrainStuckIff(t: Table, batch: seq<Route>)
    ensures Drain(t, batch).kept != [] <==> exists a :: Net(t, batch, a) !in {0, 1}
  {
    var d := Drain(t, batch);
    if d.kept != [] {
      var a := d.kept[0].addr;
      CountIsMembership(d.kept, a);
      DrainIsDecidedByNet(t, batch, a);
      assert Net(t, batch, a) !in {0, 1};
    }
    if a :| Net(t, batch, a) !in {0, 1} {
      DrainIsDecidedByNet(t, batch, a);
      assert Count(d.kept, a) > 0;
    }
  }

  /** Order independence: two batches with the same routes in any two orders give the same set of
      routed addresses, leave the same number of routes per address, and get stuck together. */
  lemma DrainIsOrderIndependent(t: Table, xs: seq<Route>, ys: seq<Route>)
    requires multiset(xs) == multiset(ys)
    ensures Drain(t, xs).table.Keys == Drain(t, ys).table.Keys
    ensures forall a :: Count(Drain(t, xs).kept, a) == Count(Drain(t, ys).kept, a)
    ensures Drain(t, xs).kept == [] <==> Drain(t, ys).kept == []
  {
    forall a: Address
      ensures a in Drain(t, xs).table <==> a in Drain(t, ys).table
      ensures Count(Drain(t, xs).kept, a) == Count(Drain(t, ys).kept, a)
      ensures Net(t, xs, a) == Net(t, ys, a)
    {
      BalanceOfPermutation(xs, ys, a);
      DrainIsDecidedByNet(t, xs, a);
      DrainIsDecidedByNet(t, ys, a);
    }
    DrainStuckIff(t, xs);
    DrainStuckIff(t, ys);
  }

  // ----------------------------------------------------------------------------------------
  // The consumer
  // ----------------------------------------------------------------------------------------

  function Elements(ps: seq<Ptr>): set<Ptr> { set p | p in ps }

  predicate Distinct(ps: seq<Ptr>) {
    forall i, j :: 0 <= i < j < |ps| ==> ps[i] != ps[j]
  }

  predicate AllIn(ps: seq<Ptr>, h: map<Ptr, Route>) {
    forall i :: 0 <= i < |ps| ==> ps[i] in h
  }

  /** The routes that the pointers `ps` point to in the heap `h`. */
  function Deref(h: map<Ptr, Route>, ps: seq<Ptr>): (rs: seq<Route>)
    requires AllIn(ps, h)
    ensures |rs| == |ps|
  {
    seq(|ps|, i requires 0 <= i < |ps| => h[ps[i]])
  }

  /** Starting from heap `before`, the objects `done` have been handled: those in `kept` are still
      allocated, the others have been freed. */
  predicate Handled(before: map<Ptr, Route>, done: seq<Ptr>, kept: seq<Ptr>, heap: map<Ptr, Route>) {
    && AllIn(done, before)
    && Distinct(kept)
    && (forall i :: 0 <= i < |kept| ==> kept[i] in done)
    && heap == before - (Elements(done) - Elements(kept))
  }

  lemma NothingHandled(h: map<Ptr, Route>, t: Table)
    ensures Handled(h, [], [], h) && Pass(t, Deref(h, [])) == Outcome(t, [])
  {
    assert Elements([]) == {};
  }

  /** Handling one more object: either it is kept, or it is freed. */
  lemma HandleOne(before: map<Ptr, Route>, done: seq<Ptr>, kept: seq<Ptr>, heap: map<Ptr, Route>, p: Ptr)
    requires Handled(before, done, kept, heap)
    requires p in before && p !in done
    ensures p in heap && heap[p] == before[p]
    ensures Handled(before, done + [p], kept + [p], heap)
    ensures Handled(before, done + [p], kept, heap - {p})
  {
    assert Elements(done + [p]) == Elements(done) + {p};
    assert Elements(kept + [p]) == Elements(kept) + {p};
    assert p !in Elements(kept);
  }

  /** Appending one object to the handled ones is one step of the pass. */
  lemma PassOne(before: map<Ptr, Route>, t: Table, done: seq<Ptr>, p: Ptr)
    requires AllIn(done, before) && p in before
    ensures AllIn(done + [p], before)
    ensures Pass(t, Deref(before, done + [p])) == Step(Pass(t, Deref(before, done)), before[p])
  {
    assert Deref(before, done + [p]) == Deref(before, done) + [before[p]];
    PassAppend(t, Deref(before, done), before[p]);
  }

  /** What happens around one try_pop: whether it gets an object (it may fail although the queue is
      not empty), and what the sessions push meanwhile. */
  datatype Turn = Turn(pops: bool, pushed: seq<Ptr>)

  function Pushed(turns: seq<Turn>): seq<Ptr> {
    if turns == [] then [] else Pushed(turns[..|turns| - 1]) + turns[|turns| - 1].pushed
  }

  /** All that has been in the queue by the end of turn `k`. */
  function Fed(queue: seq<Ptr>, turns: seq<Turn>, k: nat): seq<Ptr>
    requires k <= |turns|
  {
    queue + Pushed(turns[..k])
  }

  /** How many of the first `j` turns get an object. */
  function Pops(turns: seq<Turn>, j: nat): nat
    requires j <= |turns|
  {
    if j == 0 then 0 else Pops(turns, j - 1) + (if turns[j - 1].pops then 1 else 0)
  }

  /** After turn `j` less has been popped than pushed. */
  predicate StillQueued(queue: seq<Ptr>, turns: seq<Turn>, j: nat) {
    j <= |turns| && Pops(turns, j) < |Fed(queue, turns, j)|
  }

  /** A queue that is popped in these turns is not empty before any of the first `k`, and is empty
      after them unless there are no more turns to come. */
  ghost predicate EmptiedBy(queue: seq<Ptr>, turns: seq<Turn>, k: nat) {
    && k <= |turns|
    && (forall j :: 0 <= j < k ==> StillQueued(queue, turns, j))
    && (k < |turns| ==> Pops(turns, k) == |Fed(queue, turns, k)|)
  }

  lemma EmptiedInTime(queue: seq<Ptr>, turns: seq<Turn>, k: nat)
    ensures EmptiedBy(queue, turns, k) ==> k <= |turns|
  {
  }

  /** There is only one such `k`: the queue is emptied by the first turn after which as many objects
      have been popped as pushed. */
  lemma EmptiedOnce(queue: seq<Ptr>, turns: seq<Turn>, k: nat, l: nat)
    requires EmptiedBy(queue, turns, k) && EmptiedBy(queue, turns, l)
    ensures k == l
  {
    var atK, atL := StillQueued(queue, turns, k), StillQueued(queue, turns, l);
  }

  /** The popping loop is before turn `k` and has popped `popped` objects. */
  ghost predicate PoppingAt(queue: seq<Ptr>, turns: seq<Turn>, k: nat, popped: nat) {
    && k <= |turns|
    && (k < |turns| ==> popped == Pops(turns, k))
    && (forall j :: 0 <= j < k ==> StillQueued(queue, turns, j))
  }

  lemma PoppingBegins(queue: seq<Ptr>, turns: seq<Turn>)
    ensures PoppingAt(queue, turns, 0, 0)
  {
  }

  lemma PoppingGoesOn(queue: seq<Ptr>, turns: seq<Turn>, k: nat, popped: nat)
    requires PoppingAt(queue, turns, k, popped) && k < |turns| && popped < |Fed(queue, turns, k)|
    ensures PoppingAt(queue, turns, k + 1, popped + (if turns[k].pops then 1 else 0))
  {
    hide Fed;
  }

  /** Beyond the last turn every pop gets an object. */
  lemma PoppingDrains(queue: seq<Ptr>, turns: seq<Turn>, popped: nat)
    requires PoppingAt(queue, turns, |turns|, popped)
    ensures PoppingAt(queue, turns, |turns|, popped + 1)
  {
  }

  lemma PoppingEnds(queue: seq<Ptr>, turns: seq<Turn>, k: nat)
    requires k <= |turns| && PoppingAt(queue, turns, k, |Fed(queue, turns, k)|)
    ensures EmptiedBy(queue, turns, k)
  {
  }

  lemma FedAtStart(queue: seq<Ptr>, turns: seq<Turn>)
    ensures Fed(queue, turns, 0) == queue
  {
    assert turns[..0] == [];
  }

  lemma FedNext(queue: seq<Ptr>, turns: seq<Turn>, k: nat)
    requires k < |turns|
    ensures Fed(queue, turns, k + 1) == Fed(queue, turns, k) + turns[k].pushed
  {
    assert turns[..k + 1][..k] == turns[..k];
    assert queue + (Pushed(turns[..k]) + turns[k].pushed) == queue + Pushed(turns[..k]) + turns[k].pushed;
  }

  lemma {:induction false} FedIsPrefix(queue: seq<Ptr>, turns: seq<Turn>, k: nat)
    requires k <= |turns|
    ensures Fed(queue, turns, k) <= Fed(queue, turns, |turns|)
    decreases |turns| - k
  {
    if k < |turns| {
      FedNext(queue, turns, k);
      FedIsPrefix(queue, turns, k + 1);
    }
  }

  /** Objects that are in the queue or will be pushed are alive and all different. */
  lemma FedIsSound(queue: seq<Ptr>, turns: seq<Turn>, k: nat, h: map<Ptr, Route>)
    requires k <= |turns| && Distinct(Fed(queue, turns, |turns|)) && AllIn(Fed(queue, turns, |turns|), h)
    ensures Distinct(Fed(queue, turns, k)) && AllIn(Fed(queue, turns, k), h)
    ensures |Fed(queue, turns, k)| <= |Fed(queue, turns, |turns|)|
  {
    FedIsPrefix(queue, turns, k);
    var part, all := Fed(queue, turns, k), Fed(queue, turns, |turns|);
    hide Fed;
    assert forall i :: 0 <= i < |part| ==> part[i] == all[i];
  }

  /** The first object still queued has not been handled, and is alive. */
  lemma NextUp(h: map<Ptr, Route>, all: seq<Ptr>, done: seq<Ptr>, queue: seq<Ptr>)
    requires Distinct(all) && AllIn(all, h) && all == done + queue && queue != []
    ensures queue[0] in h && queue[0] !in done && all == done + [queue[0]] + queue[1..]
  {
    assert queue[0] == all[|done|];
    assert forall i :: 0 <= i < |done| ==> done[i] == all[i];
  }

  class Consumer {
    var heap: map<Ptr, Route>      // route objects that have been allocated and not freed
    var tunQueue: seq<Ptr>
    var tunRouter: Table

    /** The objects in the queue and those that sessions will push during `turns` are alive, all
        different, and fit in memory. */
    ghost predicate Valid(turns: seq<Turn>)
      reads this
    {
      && Distinct(Fed(tunQueue, turns, |turns|))
      && AllIn(Fed(tunQueue, turns, |turns|), heap)
      && |Fed(tunQueue, turns, |turns|)| < SIZE_MAX
    }

    /** `delete ptr`: the object must be alive. */
    method Delete(p: Ptr)
      requires p in heap
      modifies this`heap
      ensures heap == old(heap) - {p}
    {
      heap := heap - {p};
    }

    /** Handles one popped route object: applies and frees it, or requeues it. */
    method Handle(p: Ptr, local: seq<Ptr>) returns (local': seq<Ptr>)
      requires p in heap
      modifies this`heap, this`tunRouter
      ensures Blocked(old(tunRouter), old(heap)[p]) ==>
                local' == local + [p] && heap == old(heap) && tunRouter == old(tunRouter)
      ensures !Blocked(old(tunRouter), old(heap)[p]) ==>
                local' == local && heap == old(heap) - {p} && tunRouter == Apply(old(tunRouter), old(heap)[p])
    {
      var r := heap[p];
      if r.add {
        if r.addr in tunRouter {
          return local + [p];
        }
        tunRouter := tunRouter[r.addr := r.entry];
      } else {
        if r.addr !in tunRouter {
          return local + [p];
        }
        tunRouter := tunRouter - {r.addr};
      }
      Delete(p);
      local' := local;
    }

    /** Handles one object and keeps the account of a running pass. */
    method HandleNext(p: Ptr, local: seq<Ptr>, ghost before: map<Ptr, Route>, ghost t: Table, ghost done: seq<Ptr>)
      returns (local': seq<Ptr>)
      requires Handled(before, done, local, heap)
      requires p in before && p !in done
      requires AllIn(local, before) && Outcome(tunRouter, Deref(before, local)) == Pass(t, Deref(before, done))
      modifies this`heap, this`tunRouter
      ensures Handled(before, done + [p], local', heap)
      ensures AllIn(local', before) && AllIn(done + [p], before)
      ensures Outcome(tunRouter, Deref(before, local')) == Pass(t, Deref(before, done + [p]))
    {
      hide Pass;
      HandleOne(before, done, local, heap, p);
      PassOne(before, t, done, p);
      local' := Handle(p, local);
      assert Deref(before, local + [p]) == Deref(before, local) + [before[p]];
    }

    /** One retry pass over the local queue. */
    method RetryPass(local: seq<Ptr>) returns (local': seq<Ptr>)
      requires Distinct(local) && AllIn(local, heap)
      modifies this`heap, this`tunRouter
      ensures Handled(old(heap), local, local', heap)
      ensures AllIn(local', old(heap))
      ensures Outcome(tunRouter, Deref(old(heap), local')) == Pass(old(tunRouter), Deref(old(heap), local))
    {
      hide Pass, Handled, Distinct, Deref;
      ghost var before, t := heap, tunRouter;
      NothingHandled(before, t);
      local' := [];
      var queue := local;
      ghost var done := [];
      while queue != []
        invariant local == done + queue
        invariant AllIn(done, before) && AllIn(local', before) && Handled(before, done, local', heap)
        invariant Outcome(tunRouter, Deref(before, local')) == Pass(t, Deref(before, done))
        decreases |queue|
      {
        NextUp(before, local, done, queue);
        var p := queue[0];
        queue := queue[1..];
        local' := HandleNext(p, local', before, t, done);
        done := done + [p];
      }
      assert local == done;
    }

    /** Reports and frees the routes that could not be applied. */
    method Discard(local: seq<Ptr>) returns (reported: seq<Route>)
      requires Distinct(local) && AllIn(local, heap)
      modifies this`heap
      ensures heap == old(heap) - Elements(local)
      ensures reported == Deref(old(heap), local)
    {
      reported := [];
      ghost var before := heap;
      var queue := local;
      ghost var done := [];
      while queue != []
        invariant local == done + queue
        invariant AllIn(done, before) && AllIn(queue, before)
        invariant heap == before - Elements(done)
        invariant reported == Deref(before, done)
        decreases |queue|
      {
        NextUp(before, local, done, queue);
        var p := queue[0];
        queue := queue[1..];
        reported := reported + [heap[p]];
        Delete(p);
        assert Elements(done + [p]) == Elements(done) + {p};
        done := done + [p];
      }
      assert local == done;
    }

    /** Pops until the queue is empty, applying what can be applied, while the sessions go on pushing.
        The queue is empty after turn `k`, and all that has been in it has been handled. */
    method PopAll(turns: seq<Turn>) returns (local: seq<Ptr>, k: nat)
      requires Valid(turns)
      modifies this
      ensures tunQueue == [] && EmptiedBy(old(tunQueue), turns, k)
      ensures var batch := Fed(old(tunQueue), turns, k);
              && Handled(old(heap), batch, local, heap) && AllIn(local, old(heap))
              && Outcome(tunRouter, Deref(old(heap), local)) == Pass(old(tunRouter), Deref(old(heap), batch))
    {
      hide Pass, Handled, Distinct, Deref, AllIn, Fed, PoppingAt, EmptiedBy;
      ghost var queue0, before, t := tunQueue, heap, tunRouter;
      NothingHandled(before, t);
      FedAtStart(queue0, turns);
      PoppingBegins(queue0, turns);
      local, k := [], 0;
      ghost var done := [];
      while tunQueue != []
        invariant k <= |turns| && Fed(queue0, turns, k) == done + tunQueue
        invariant PoppingAt(queue0, turns, k, |done|)
        invariant AllIn(done, before) && AllIn(local, before) && Handled(before, done, local, heap)
        invariant Outcome(tunRouter, Deref(before, local)) == Pass(t, Deref(before, done))
        decreases |turns| - k, |tunQueue|
      {
        FedIsSound(queue0, turns, k, before);
        NextUp(before, Fed(queue0, turns, k), done, tunQueue);
        var turn := if k < |turns| then turns[k] else Turn(true, []);
        if k < |turns| {
          FedNext(queue0, turns, k);
          PoppingGoesOn(queue0, turns, k, |done|);
          k := k + 1;
        } else {
          PoppingDrains(queue0, turns, |done|);
        }
        if !turn.pops {
          tunQueue := tunQueue + turn.pushed;
          continue;
        }
        var ptr := tunQueue[0];
        tunQueue := tunQueue[1..];
        local := HandleNext(ptr, local, before, t, done);
        done := done + [ptr];
        tunQueue := tunQueue + turn.pushed;
      }
      assert done + [] == done;
      PoppingEnds(queue0, turns, k);
    }

    /** Drains the queue into the table while the sessions go on pushing. `leftover` lists the routes
        reported as stuck, `passes` counts the retry passes. Every popped object has been freed,
        exactly once: `Delete` accepts live objects only. */
    method EmptyQueue(turns: seq<Turn>) returns (leftover: seq<Route>, passes: nat, k: nat)
      requires Valid(turns)
      modifies this
      ensures tunQueue == [] && EmptiedBy(old(tunQueue), turns, k)
      ensures var batch := Fed(old(tunQueue), turns, k);
              && heap == old(heap) - Elements(batch)
              && AllIn(batch, old(heap))
              && var t, routes := old(tunRouter), Deref(old(heap), batch);
                 && Outcome(tunRouter, leftover) == Drain(t, routes)
                 && passes <= |Pass(t, routes).kept| + 1
                 && (forall a :: a in tunRouter <==> Net(t, routes, a) >= 1)
                 && (leftover != [] <==> exists a :: Net(t, routes, a) !in {0, 1})
    {
      hide Pass, Net, Fed, EmptiedBy;
      ghost var before, t, queue0 := heap, tunRouter, tunQueue;
      var local;
      local, k := PopAll(turns);
      EmptiedInTime(queue0, turns, k);
      ghost var batch := Fed(queue0, turns, k);
      FedIsSound(queue0, turns, k, before);
      ghost var routes := Deref(before, batch);
      ghost var goal := Drain(t, routes);
      DrainStuckIff(t, routes);
      forall a: Address ensures a in goal.table <==> Net(t, routes, a) >= 1 {
        DrainIsDecidedByNet(t, routes, a);
      }
      leftover, passes := [], 0;
      if local == [] {
        return;
      }
      ghost var n := |local|;
      var prevSize := |local|;
      var size := SIZE_MAX;
      while true
        invariant local != [] && Handled(before, batch, local, heap) && AllIn(local, before)
        invariant Retry(tunRouter, Deref(before, local)) == goal
        invariant |local| <= n < SIZE_MAX && tunQueue == [] && leftover == []
        invariant passes == 0 ==> size == SIZE_MAX && prevSize == |local|
        invariant passes > 0 ==> size == |local| && passes + |local| <= n + 1 + (if prevSize == size then 1 else 0)
        invariant passes > 0 && prevSize == size ==> goal == Outcome(tunRouter, Deref(before, local))
        decreases n + 1 - passes
      {
        if prevSize == size {
          assert Deref(heap, local) == Deref(before, local);
          leftover := Discard(local);
          ElementsFreed(before, batch, local);
          return;
        }
        prevSize := size;
        ghost var heap1, local1, t1 := heap, local, tunRouter;
        assert Deref(heap1, local1) == Deref(before, local1);
        local := RetryPass(local);
        passes := passes + 1;
        ComposeHandled(before, batch, local1, heap1, local, heap);
        assert Deref(heap1, local) == Deref(before, local);
        if |local| == |local1| {
          PassWithoutProgress(t1, Deref(before, local1));
        }
        size := |local|;
        if size == 0 {
          ElementsFreed(before, batch, local);
          return;
        }
      }
    }
  }

  /** Two rounds of handling make one. */
  lemma ComposeHandled(before: map<Ptr, Route>, done: seq<Ptr>, kept1: seq<Ptr>, heap1: map<Ptr, Route>,
                       kept2: seq<Ptr>, heap2: map<Ptr, Route>)
    requires Handled(before, done, kept1, heap1)
    requires Handled(heap1, kept1, kept2, heap2)
    ensures Handled(before, done, kept2, heap2)
    ensures AllIn(kept2, before)
  {
    forall i | 0 <= i < |kept2| ensures kept2[i] in done && kept2[i] in before {
      assert kept2[i] in kept1;
    }
    assert Elements(kept2) <= Elements(kept1) <= Elements(done);
    assert Elements(done) - Elements(kept2) == (Elements(done) - Elements(kept1)) + (Elements(kept1) - Elements(kept2));
  }

  /** Once the kept objects are freed as well, all handled objects are. */
  lemma ElementsFreed(before: map<Ptr, Route>, done: seq<Ptr>, kept: seq<Ptr>)
    requires forall i :: 0 <= i < |kept| ==> kept[i] in done
    ensures before - (Elements(done) - Elements(kept)) - Elements(kept) == before - Elements(done)
    ensures kept == [] ==> before - (Elements(done) - Elements(kept)) == before - Elements(done)
  {
    assert Elements(kept) <= Elements(done);
    assert Elements(done) - Elements(kept) + Elements(kept) == Elements(done);
  }
}
