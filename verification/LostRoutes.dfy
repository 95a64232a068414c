/** When a live session loses its route. A session that fails between taking its address and queuing
    its add still queues a remove; drained together with the add of a later holder of the address,
    it takes that session's route away. This needs a full turn of the address counter in between. */
module LostRoutes {
  import opened AddressPool
  import opened RouteQueue
  import opened Sessions
  import opened Wrappers

  // ----------------------------------------------------------------------------------------
  // What keeps a route
  // ----------------------------------------------------------------------------------------

  lemma {:induction false} LastIsAt(rs: seq<Route>, i: nat)
    requires i < |rs| && forall j :: i < j < |rs| ==> rs[j].addr != rs[i].addr
    ensures Last(rs, rs[i].addr) == Some(rs[i])
  {
    if i < |rs| - 1 {
      LastIsAt(rs[..|rs| - 1], i);
    }
  }

  /** The add of a live session is the last route for its address, also among those popped. */
  lemma LiveAddIsLast(st: State, s: nat)
    requires Inv(st) && s < |st.sessions| && st.sessions[s].phase == Added
    requires Route(true, st.sessions[s].addr, st.sessions[s].entry) in Popped(st)
    ensures LastAdd(Popped(st), st.sessions[s].addr) == Some(st.sessions[s].entry)
  {
    var a, e := st.sessions[s].addr, st.sessions[s].entry;
    var i := LastIsInHistory(st.history, a);
    var k :| 0 <= k < st.popped && st.history[k] == Route(true, a, e);
    assert k == i;
    assert Popped(st)[i] == st.history[i];
    LastIsAt(Popped(st), i);
  }

  /** Address by address, in any run and at any time: a live session whose add has been popped is
      served, by its own connection and cipher session, if no session on its address failed before
      queuing its add, whatever happens on other addresses. */
  lemma CleanAddressIsServed(xs: seq<Action>, st: State, s: nat)
    requires Final(xs) == Some(st) && s < |st.sessions| && st.sessions[s].phase == Added
    requires st.popped <= |st.history| && CleanAt(st.history, st.sessions[s].addr)
    requires Route(true, st.sessions[s].addr, st.sessions[s].entry) in Popped(st)
    ensures st.sessions[s].addr in st.table && st.table[st.sessions[s].addr] == st.sessions[s].entry
  {
    RunKeepsInv(xs);
    LiveAddIsLast(st, s);
    assert ExactAt(st.table, Popped(st), st.local, st.sessions[s].addr);
  }

  /** Routes that balance below their number include a remove. */
  lemma {:induction false} RemoveAmong(rs: seq<Route>, a: Address) returns (i: nat)
    requires Balance(rs, a) < Count(rs, a)
    ensures i < |rs| && !rs[i].add && rs[i].addr == a
  {
    i := |rs| - 1;
    if rs[i].add || rs[i].addr != a {
      i := RemoveAmong(rs[..i], a);
    }
  }

  // ----------------------------------------------------------------------------------------
  // A run as a trace of the address pool
  // ----------------------------------------------------------------------------------------

  lemma {:induction false} PrefixRuns(xs: seq<Action>, k: nat)
    requires Final(xs).Some? && k <= |xs|
    ensures Final(xs[..k]).Some?
    ensures k < |xs| ==> && Enabled(Final(xs[..k]).value, xs[k])
                         && Final(xs[..k + 1]) == Some(Do(Final(xs[..k]).value, xs[k]))
    decreases |xs|
  {
    assert xs[..|xs|] == xs;
    if k < |xs| {
      var init := xs[..|xs| - 1];
      if k < |init| { PrefixRuns(init, k); }
      assert init[..k] == xs[..k];
      if k < |init| { assert init[..k + 1] == xs[..k + 1] && init[k] == xs[k]; }
    }
  }

  /** The state of the address pool after the first `k` steps. */
  ghost function PoolAt(xs: seq<Action>, k: nat): PoolState
    requires k <= |xs|
  {
    var st := Final(xs[..k]);
    if st.Some? then PoolState(st.value.counter, st.value.inUse) else PoolState(1, {})
  }

  ghost function Trace(xs: seq<Action>): (ps: seq<PoolState>)
    ensures |ps| == |xs| + 1 && forall k :: 0 <= k < |ps| ==> ps[k] == PoolAt(xs, k)
  {
    seq(|xs| + 1, k requires 0 <= k <= |xs| => PoolAt(xs, k))
  }

  lemma StepOfTrace(xs: seq<Action>, k: nat)
    requires Final(xs).Some? && k < |xs|
    ensures 1 <= PoolAt(xs, k).counter <= LAST_HOST
    ensures if xs[k].Grant? then IsGrant(PoolAt(xs, k), PoolAt(xs, k + 1)) && PoolAt(xs, k + 1).counter == xs[k].host
            else IsRelease(PoolAt(xs, k), PoolAt(xs, k + 1))
  {
    PrefixRuns(xs, k);
    RunKeepsInv(xs[..k]);
  }

  lemma TraceIsTrace(xs: seq<Action>)
    requires Final(xs).Some?
    ensures IsTrace(Trace(xs))
  {
    var ps := Trace(xs);
    forall i | 0 <= i < |ps| ensures 1 <= ps[i].counter <= LAST_HOST {
      PrefixRuns(xs, i);
      RunKeepsInv(xs[..i]);
    }
    forall i | 0 <= i < |ps| - 1 ensures IsGrant(ps[i], ps[i + 1]) || IsRelease(ps[i], ps[i + 1]) {
      StepOfTrace(xs, i);
    }
  }

  /** Step `i` of the run granted session `s` its address. */
  ghost predicate GrantedAt(xs: seq<Action>, st: State, i: int, s: nat) {
    && 0 <= i < |xs| && s < |st.sessions| && xs[i].Grant? && AddressOf(xs[i].host) == st.sessions[s].addr
    && Final(xs[..i]).Some? && |Final(xs[..i]).value.sessions| == s
  }

  lemma DoKeepsSessions(st: State, x: Action)
    requires Enabled(st, x)
    ensures |Do(st, x).sessions| == |st.sessions| + (if x.Grant? then 1 else 0)
    ensures forall s :: 0 <= s < |st.sessions| ==> Do(st, x).sessions[s].addr == st.sessions[s].addr
    ensures x.Grant? ==> Do(st, x).sessions[|st.sessions|].addr == AddressOf(x.host)
  {
  }

  lemma {:induction false} GrantOf(xs: seq<Action>, st: State, s: nat) returns (i: nat)
    requires Final(xs) == Some(st) && s < |st.sessions|
    ensures GrantedAt(xs, st, i, s)
  {
    var init, x := xs[..|xs| - 1], xs[|xs| - 1];
    var before := Final(init).value;
    DoKeepsSessions(before, x);
    if s == |before.sessions| {
      i := |xs| - 1;
    } else {
      i := GrantOf(init, before, s);
      assert init[..i] == xs[..i] && init[i] == xs[i];
    }
  }

  /** Sessions are numbered in the order of their grants. */
  lemma {:induction false} GrantsInOrder(xs: seq<Action>, st: State, u: nat, s: nat) returns (i: nat, j: nat)
    requires Final(xs) == Some(st) && u < s < |st.sessions|
    ensures i < j && GrantedAt(xs, st, i, u) && GrantedAt(xs, st, j, s)
  {
    var init, x := xs[..|xs| - 1], xs[|xs| - 1];
    var before := Final(init).value;
    DoKeepsSessions(before, x);
    if s == |before.sessions| {
      i := GrantOf(init, before, u);
      j := |xs| - 1;
      assert init[..i] == xs[..i] && init[i] == xs[i];
    } else {
      i, j := GrantsInOrder(init, before, u, s);
      assert init[..i] == xs[..i] && init[i] == xs[i] && init[..j] == xs[..j] && init[j] == xs[j];
    }
  }

  /** Between the grants of sessions `u` and `s`, every host number was granted, or passed by a search
      that saw it in use. */
  ghost predicate WentRound(xs: seq<Action>, st: State, u: nat, s: nat) {
    exists i: nat, j: nat :: i < j && GrantedAt(xs, st, i, u) && GrantedAt(xs, st, j, s) && AllPassed(xs, i, j)
  }

  ghost predicate AllPassed(xs: seq<Action>, i: nat, j: nat) {
    forall h: nat :: IsHost(h) ==> Passed(xs, i, j, h)
  }

  ghost predicate Passed(xs: seq<Action>, i: nat, j: nat, h: nat) {
    exists m: nat :: i < m <= j && GrantsOrSees(Trace(xs), m, h)
  }

  /** Two sessions get the same address only after a full turn of the counter. */
  lemma SameAddressWentRound(xs: seq<Action>, st: State, u: nat, s: nat)
    requires Final(xs) == Some(st) && u < s < |st.sessions| && st.sessions[u].addr == st.sessions[s].addr
    ensures WentRound(xs, st, u, s)
  {
    hide GrantedAt, AllPassed;
    var i, j := GrantsInOrder(xs, st, u, s);
    SameHostPassesAll(xs, st, i, u, j, s);
  }

  lemma SameHostPassesAll(xs: seq<Action>, st: State, i: nat, u: nat, j: nat, s: nat)
    requires Final(xs).Some? && i < j && GrantedAt(xs, st, i, u) && GrantedAt(xs, st, j, s)
    requires st.sessions[u].addr == st.sessions[s].addr
    ensures AllPassed(xs, i, j)
  {
    hide Final, GrantsOrSees, IsTrace, IsGrant, IsRelease, PoolAt;
    TraceIsTrace(xs);
    StepOfTrace(xs, i);
    StepOfTrace(xs, j);
    forall h: nat | IsHost(h) ensures Passed(xs, i, j, h) {
      var m := ReuseDistance(Trace(xs), i, j, h);
    }
  }

  // ----------------------------------------------------------------------------------------
  // The condition
  // ----------------------------------------------------------------------------------------

  /** A remove on the address of a live session is that of an earlier session, which has gone. */
  lemma RemoverIsEarlier(st: State, s: nat, k: nat) returns (u: nat)
    requires Inv(st) && s < |st.sessions| && st.sessions[s].phase == Added
    requires k < |st.history| && !st.history[k].add && st.history[k].addr == st.sessions[s].addr
    ensures u < s && st.sessions[u].addr == st.sessions[s].addr && st.sessions[u].phase == Released
    ensures st.history[k] == Route(false, st.sessions[u].addr, st.sessions[u].entry)
  {
    u := st.history[k].entry.con;
    assert u != s;
  }

  /** The current drain has popped the add of session `s`. */
  predicate AddInBatch(st: State, s: nat)
    requires s < |st.sessions|
  {
    st.drainStart <= st.popped <= |st.history| && Route(true, st.sessions[s].addr, st.sessions[s].entry) in Batch(st)
  }

  /** The drain has popped the add of the live session `s`, and leaves it unserved. */
  ghost predicate IsLost(st: State, s: nat) {
    && Enabled(st, EndDrain) && s < |st.sessions| && st.sessions[s].phase == Added && AddInBatch(st, s)
    && st.sessions[s].addr !in Do(st, EndDrain).table
  }

  /** What it takes for a live session to lose its route, in any run: if the drain that pops its add
      leaves it unserved, that drain has also popped the remove of an earlier session on the address;
      some session on the address has failed before queuing its add; and since the grants of both,
      the address counter has gone all the way round. */
  lemma LostRouteNeedsAFullTurn(xs: seq<Action>, st: State, s: nat) returns (u: nat, w: nat, k: nat)
    requires Final(xs) == Some(st) && IsLost(st, s)
    ensures u < s && st.sessions[u].addr == st.sessions[s].addr && WentRound(xs, st, u, s)
    ensures Route(false, st.sessions[u].addr, st.sessions[u].entry) in Batch(st)
    ensures w < s && st.sessions[w].addr == st.sessions[s].addr && WentRound(xs, st, w, s)
    ensures IsOrphan(st.history, k) && st.history[k].entry == st.sessions[w].entry
  {
    RunKeepsInv(xs);
    hide Inv, Do, Enabled, Final, IsOrphan, WentRound, Batch;
    var i := RemoveInBatch(xs, st, s);
    u := RemoverIsEarlier(st, s, i);
    k := OrphanOnAddress(xs, st, s);
    w := RemoverIsEarlier(st, s, k);
    SameAddressWentRound(xs, st, u, s);
    SameAddressWentRound(xs, st, w, s);
  }

  lemma RemoveInBatch(xs: seq<Action>, st: State, s: nat) returns (i: nat)
    requires Final(xs) == Some(st) && IsLost(st, s)
    ensures i < |st.history| && st.history[i] in Batch(st)
    ensures !st.history[i].add && st.history[i].addr == st.sessions[s].addr
  {
    hide Do, Enabled, Final, Retry, Batch, Balance, Count;
    var a, e := st.sessions[s].addr, st.sessions[s].entry;
    DrainOutcome(xs, st, a);
    CountIsMembership(Batch(st), a);
    var k :| 0 <= k < |Batch(st)| && Batch(st)[k] == Route(true, a, e);
    i := RemoveAmong(Batch(st), a);
    BatchIsHistory(st, i);
    i := st.drainStart + i;
  }

  lemma BatchIsHistory(st: State, i: nat)
    requires st.drainStart <= st.popped <= |st.history| && i < |Batch(st)|
    ensures st.drainStart + i < |st.history| && Batch(st)[i] == st.history[st.drainStart + i]
  {
  }

  lemma OrphanOnAddress(xs: seq<Action>, st: State, s: nat) returns (k: nat)
    requires Final(xs) == Some(st) && IsLost(st, s)
    ensures IsOrphan(st.history, k) && st.history[k].addr == st.sessions[s].addr
  {
    var st', a := Do(st, EndDrain), st.sessions[s].addr;
    RunKeepsInv(xs);
    EndDrainKeepsInv(st);
    assert Route(true, a, st.sessions[s].entry) in Popped(st');
    LiveAddIsLast(st', s);
    assert !ExactAt(st'.table, Popped(st'), st'.local, a);
    assert !CleanAt(st.history, a);
    k :| IsOrphan(st.history, k) && st.history[k].addr == a;
  }

  // ----------------------------------------------------------------------------------------
  // A route that has survived the drain of its add stays
  // ----------------------------------------------------------------------------------------

  ghost predicate IsServed(st: State, s: nat) {
    && s < |st.sessions| && st.sessions[s].phase == Added
    && st.sessions[s].addr in st.table && st.table[st.sessions[s].addr] == st.sessions[s].entry
  }

  lemma {:induction false} KeptIsAmong(t: Table, rs: seq<Route>, r: Route)
    requires r in Pass(t, rs).kept
    ensures r in rs
  {
    var init := rs[..|rs| - 1];
    if r in Pass(t, init).kept {
      KeptIsAmong(t, init, r);
    }
  }

  lemma PoppedIsInBatch(st: State, i: nat)
    requires st.drainStart <= st.popped <= |st.history|
    ensures st.drainStart <= i < st.popped ==> st.history[i] in Batch(st)
  {
    assert st.drainStart <= i < st.popped ==> Batch(st)[i - st.drainStart] == st.history[i];
  }

  /** No route on the address of a served session is still to be popped, nor held back by the drain
      unless that has popped the session's add. */
  lemma NothingElseComes(st: State, s: nat)
    requires Inv(st) && IsServed(st, s)
    ensures forall r :: r in Pending(st) ==> r.addr != st.sessions[s].addr
    ensures !AddInBatch(st, s) ==> forall r :: r in st.local ==> r.addr != st.sessions[s].addr
  {
    var a := st.sessions[s].addr;
    var i := LastIsInHistory(st.history, a);
    var k := LastIsInHistory(Popped(st), a);
    assert st.history[k] == Popped(st)[k];
    assert k == i;
    if !AddInBatch(st, s) {
      PoppedIsInBatch(st, i);
      assert i < st.drainStart;
      forall r | r in st.local ensures r.addr != a {
        KeptIsAmong(st.tableAtStart, Batch(st), r);
      }
    }
  }

  /** A served session stays served with every step until it queues its remove; only the end of the
      drain that has popped its add can take its route away. */
  lemma ServedStaysServed(xs: seq<Action>, st: State, x: Action, s: nat)
    requires Final(xs) == Some(st) && Enabled(st, x) && IsServed(st, s)
    requires x != QueueRemove(s)
    requires x == EndDrain ==> !AddInBatch(st, s)
    ensures IsServed(Do(st, x), s)
  {
    RunKeepsInv(xs);
    NothingElseComes(st, s);
    match x
    case Pop =>
      assert Pending(st)[0] == st.history[st.popped];
    case EndDrain =>
      RetryLeavesOthers(st.table, st.local, st.sessions[s].addr);
      RetryOfRemoves(st.table, st.local);
    case _ =>
  }

  // ----------------------------------------------------------------------------------------
  // A run that loses a route
  // ----------------------------------------------------------------------------------------

  /** One more step of a run. */
  lemma Go(xs: seq<Action>, st: State, x: Action) returns (xs': seq<Action>, st': State)
    requires Final(xs) == Some(st) && Enabled(st, x)
    ensures xs' == xs + [x] && Final(xs') == Some(st') && st' == Do(st, x)
  {
    xs', st' := xs + [x], Do(st, x);
    assert xs'[..|xs|] == xs;
  }

  function Holder(n: nat): Session { Session(AddressOf(FIRST_HOST + n), Entry(n, 0), Granted) }

  /** The hosts from 2 on have been granted in order to `n` sessions, and nothing else has happened. */
  ghost predicate Filled(st: State, n: nat) {
    && st.sessions == seq(n, i requires 0 <= i < n => Holder(i)) && st.counter == 1 + n
    && (forall h: nat :: AddressOf(h) in st.inUse <==> FIRST_HOST <= h < FIRST_HOST + n)
    && st.history == [] && st.popped == 0 && st.table == map[] && st.local == []
    && st.drainStart == 0 && st.tableAtStart == map[]
  }

  lemma NextHostMayBeGranted(st: State, n: nat)
    requires Filled(st, n) && n < HOSTS
    ensures MayGrant(st.counter, st.inUse, FIRST_HOST + n)
  {
    assert Distance(st.counter, FIRST_HOST + n) == 1;
  }

  lemma {:induction false} Fill(n: nat) returns (xs: seq<Action>, st: State)
    requires n <= HOSTS
    ensures Final(xs) == Some(st) && Filled(st, n)
  {
    if n == 0 {
      xs, st := [], INIT;
    } else {
      hide Final, Filled, Enabled, Do;
      var ys, before := Fill(n - 1);
      FillOne(before, n - 1);
      xs, st := Go(ys, before, Grant(FIRST_HOST + (n - 1), 0));
    }
  }

  lemma FillOne(st: State, n: nat)
    requires Filled(st, n) && n < HOSTS
    ensures Enabled(st, Grant(FIRST_HOST + n, 0)) && Filled(Do(st, Grant(FIRST_HOST + n, 0)), n + 1)
  {
    NextHostMayBeGranted(st, n);
    hide MayGrant;
    var st' := Do(st, Grant(FIRST_HOST + n, 0));
    assert st'.sessions == st.sessions + [Holder(n)];
  }

  const LOST_HOST: nat := 7
  const FAILED: nat := LOST_HOST - FIRST_HOST                    // the session that fails
  const ORPHAN := Route(false, AddressOf(LOST_HOST), Entry(FAILED, 0))
  const LIVE := Route(true, AddressOf(LOST_HOST), Entry(HOSTS, 1))   // of the session that takes its place

  /** With the pool full but for that host, the counter at its end comes to it. */
  lemma LostHostComesNext(used: set<nat>)
    requires forall h: nat :: AddressOf(h) in used <==> IsHost(h) && h != LOST_HOST
    ensures MayGrant(LAST_HOST, used, LOST_HOST)
  {
    assert Distance(LAST_HOST, LOST_HOST) == 6;
    forall k | 1 <= k < 6 ensures AddressOf(At(LAST_HOST, k)) in used {
      assert At(LAST_HOST, k) == k + 1;
    }
  }

  /** The run up to the drain. */
  lemma OrphanAndLiveAreQueued() returns (xs: seq<Action>, st: State)
    ensures Final(xs) == Some(st) && st.history == [ORPHAN, LIVE]
    ensures |st.sessions| == HOSTS + 1 && st.sessions[HOSTS] == Session(AddressOf(LOST_HOST), Entry(HOSTS, 1), Added)
    ensures st.popped == 0 && st.table == map[] && st.local == [] && st.drainStart == 0
  {
    xs, st := Fill(HOSTS);
    hide Final;
    xs, st := Go(xs, st, QueueRemove(FAILED));
    assert st.history == [ORPHAN];
    xs, st := Go(xs, st, Release(FAILED));
    LostHostComesNext(st.inUse);
    xs, st := Go(xs, st, Grant(LOST_HOST, 1));
    xs, st := Go(xs, st, QueueAdd(HOSTS));
    assert st.history == [ORPHAN, LIVE];
  }

  lemma OrphanIsRetried(t: Table)
    requires t == map[LIVE.addr := LIVE.entry]
    ensures Retry(t, [ORPHAN]) == Outcome(map[], [])
  {
    assert [ORPHAN][..0] == [] && Pass(t, []) == Outcome(t, []);
    assert t - {LIVE.addr} == map[];
    assert Pass(t, [ORPHAN]) == Outcome(map[], []);
  }

  /** It can happen: with all hosts granted, the holder of one fails before queuing its add, queues
      its remove and releases the address; the counter comes round to it, and the next holder is
      unrouted when both routes are drained together. */
  lemma FailedSessionCanUnrouteItsSuccessor() returns (xs: seq<Action>, st: State)
    ensures Final(xs) == Some(st) && IsLost(st, HOSTS)
  {
    xs, st := OrphanAndLiveAreQueued();
    hide Final;
    xs, st := Go(xs, st, Pop);
    assert st.local == [ORPHAN] && st.table == map[];
    xs, st := Go(xs, st, Pop);
    assert st.local == [ORPHAN] && st.table == map[LIVE.addr := LIVE.entry];
    OrphanIsRetried(st.table);
    assert Batch(st)[1] == LIVE;
  }
}
