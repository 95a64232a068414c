/** The life of a VPN session around the route queue (`SessionsControl::startConnection`):
    take an address, queue an add, exchange data, queue a remove, and only then release the
    address. One consumer pops the queue concurrently with the sessions. A run is any sequence of
    enabled steps. */
module Sessions {
  import opened AddressPool
  import opened RouteQueue
  import opened Wrappers

  datatype Phase = Granted | Added | Removed | Released

  /** `entry.con` is the number of the session: every session has its own connection. */
  datatype Session = Session(addr: Address, entry: Entry, phase: Phase)

  /** `history` lists everything ever queued; the first `popped` of it has been popped. The
      consumer's current drain started at `drainStart`, over the table `tableAtStart`. */
  datatype State = State(
    sessions: seq<Session>,
    counter: nat,          // the host number of the last grant
    inUse: set<Address>,
    history: seq<Route>,
    popped: nat,
    table: Table,
    local: seq<Route>,
    drainStart: nat,
    tableAtStart: Table)

  datatype Action =
    | Grant(host: nat, aes: nat)  // getNewAddress
    | QueueAdd(s: nat)
    | QueueRemove(s: nat)         // after the data exchange, or after a failure
    | Release(s: nat)
    | Pop
    | EndDrain                    // the queue was seen empty: retry, then discard what is stuck

  const INIT := State([], 1, {}, [], 0, map[], [], 0, map[])

  predicate HasRoom(st: State) { |st.history| - st.popped < QUEUE_CAPACITY }

  ghost predicate Enabled(st: State, x: Action) {
    match x
    case Grant(h, _) => MayGrant(st.counter, st.inUse, h)
    case QueueAdd(s) => s < |st.sessions| && st.sessions[s].phase == Granted && HasRoom(st)
    case QueueRemove(s) => s < |st.sessions| && st.sessions[s].phase in {Granted, Added} && HasRoom(st)
    case Release(s) => s < |st.sessions| && st.sessions[s].phase == Removed
    case Pop => st.popped < |st.history|
    case EndDrain => st.popped == |st.history|
  }

  function SetPhase(ss: seq<Session>, s: nat, p: Phase): seq<Session>
    requires s < |ss|
  {
    ss[s := ss[s].(phase := p)]
  }

  ghost function Do(st: State, x: Action): State
    requires Enabled(st, x)
  {
    match x
    case Grant(h, k) =>
      var se := Session(AddressOf(h), Entry(|st.sessions|, k), Granted);
      st.(sessions := st.sessions + [se], counter := h, inUse := st.inUse + {se.addr})
    case QueueAdd(s) =>
      var se := st.sessions[s];
      st.(sessions := SetPhase(st.sessions, s, Added), history := st.history + [Route(true, se.addr, se.entry)])
    case QueueRemove(s) =>
      var se := st.sessions[s];
      st.(sessions := SetPhase(st.sessions, s, Removed), history := st.history + [Route(false, se.addr, se.entry)])
    case Release(s) =>
      st.(sessions := SetPhase(st.sessions, s, Released), inUse := st.inUse - {st.sessions[s].addr})
    case Pop =>
      var o := Step(Outcome(st.table, st.local), st.history[st.popped]);
      st.(table := o.table, local := o.kept, popped := st.popped + 1)
    case EndDrain =>
      var o := Retry(st.table, st.local);
      st.(table := o.table, local := [], drainStart := st.popped, tableAtStart := o.table)
  }

  /** The state at the end of the run `xs`, if all its steps are enabled in turn. */
  ghost function Final(xs: seq<Action>): Option<State> {
    if xs == [] then Some(INIT)
    else
      var before := Final(xs[..|xs| - 1]);
      var x := xs[|xs| - 1];
      if before.Some? && Enabled(before.value, x) then Some(Do(before.value, x)) else None
  }

  /** The routes popped so far, those of the current drain, and those still waiting. */
  function Popped(st: State): seq<Route>
    requires st.popped <= |st.history|
  {
    st.history[..st.popped]
  }

  function Batch(st: State): seq<Route>
    requires st.drainStart <= st.popped <= |st.history|
  {
    st.history[st.drainStart..st.popped]
  }

  function Pending(st: State): seq<Route>
    requires st.popped <= |st.history|
  {
    st.history[st.popped..]
  }

  /** Route `j` is the remove of a session that never queued its add. */
  predicate IsOrphan(history: seq<Route>, j: int) {
    0 <= j < |history| && !history[j].add && Route(true, history[j].addr, history[j].entry) !in history[..j]
  }

  /** In the run so far, every session that queued its remove had queued its add before. */
  ghost predicate Clean(history: seq<Route>) { forall j :: !IsOrphan(history, j) }

  /** ... at least those on address `a`. */
  ghost predicate CleanAt(history: seq<Route>, a: Address) {
    forall j :: IsOrphan(history, j) ==> history[j].addr != a
  }

  // ----------------------------------------------------------------------------------------
  // The last route queued for an address
  // ----------------------------------------------------------------------------------------

  function Last(rs: seq<Route>, a: Address): Option<Route> {
    if rs == [] then None
    else if rs[|rs| - 1].addr == a then Some(rs[|rs| - 1])
    else Last(rs[..|rs| - 1], a)
  }

  /** The entry registered by the last route for `a`, if that route is an add. */
  function LastAdd(rs: seq<Route>, a: Address): Option<Entry> {
    var l := Last(rs, a);
    if l.Some? && l.value.add then Some(l.value.entry) else None
  }

  lemma LastOfAppend(rs: seq<Route>, r: Route, a: Address)
    ensures LastAdd(rs + [r], a) == if r.addr != a then LastAdd(rs, a) else if r.add then Some(r.entry) else None
  {
    assert (rs + [r])[..|rs|] == rs;
  }

  lemma {:induction false} LastIsInHistory(rs: seq<Route>, a: Address) returns (i: nat)
    requires LastAdd(rs, a).Some?
    ensures i < |rs| && rs[i] == Route(true, a, LastAdd(rs, a).value)
    ensures forall j :: i < j < |rs| ==> rs[j].addr != a
  {
    i := |rs| - 1;
    if rs[i].addr != a {
      i := LastIsInHistory(rs[..i], a);
    }
  }

  // ----------------------------------------------------------------------------------------
  // What a table says about a history
  // ----------------------------------------------------------------------------------------

  /** Every row was registered by the last route for its address. */
  ghost predicate Sound(t: Table, rs: seq<Route>) {
    forall a :: a in t ==> LastAdd(rs, a) == Some(t[a])
  }

  /** ... and every address whose last route is an add has a row. */
  ghost predicate Exact(t: Table, rs: seq<Route>) {
    Sound(t, rs) && forall a :: LastAdd(rs, a).Some? ==> a in t
  }

  ghost predicate RemovesOnly(rs: seq<Route>) {
    forall i :: 0 <= i < |rs| ==> !rs[i].add
  }

  lemma StepKeepsSound(t: Table, rs: seq<Route>, r: Route)
    requires Sound(t, rs)
    requires r.add ==> LastAdd(rs, r.addr).None?
    ensures r.add ==> !Blocked(t, r)
    ensures Sound(if Blocked(t, r) then t else Apply(t, r), rs + [r])
  {
    forall a: Address { LastOfAppend(rs, r, a); }
  }

  lemma StepKeepsExact(t: Table, rs: seq<Route>, r: Route)
    requires Exact(t, rs)
    requires r.add <==> LastAdd(rs, r.addr).None?
    ensures !Blocked(t, r) && Exact(Apply(t, r), rs + [r])
  {
    forall a: Address { LastOfAppend(rs, r, a); }
  }

  /** Address `a` has a row if its last route is an add, and no route waits for it. */
  ghost predicate ExactAt(t: Table, rs: seq<Route>, local: seq<Route>, a: Address) {
    (LastAdd(rs, a).Some? ==> a in t) && forall i :: 0 <= i < |local| ==> local[i].addr != a
  }

  lemma StepKeepsExactAt(t: Table, rs: seq<Route>, local: seq<Route>, r: Route, a: Address)
    requires Sound(t, rs) && ExactAt(t, rs, local, a)
    requires r.addr == a ==> (r.add <==> LastAdd(rs, a).None?)
    ensures var o := Step(Outcome(t, local), r); ExactAt(o.table, rs + [r], o.kept, a)
  {
    LastOfAppend(rs, r, a);
  }

  lemma {:induction false} PassLeavesOthers(t: Table, rs: seq<Route>, a: Address)
    requires forall i :: 0 <= i < |rs| ==> rs[i].addr != a
    ensures a in Pass(t, rs).table <==> a in t
    ensures forall i :: 0 <= i < |Pass(t, rs).kept| ==> Pass(t, rs).kept[i].addr != a
  {
    if rs != [] {
      PassLeavesOthers(t, rs[..|rs| - 1], a);
    }
  }

  /** Retrying touches no address but those of the retried routes. */
  lemma {:induction false} RetryLeavesOthers(t: Table, rs: seq<Route>, a: Address)
    requires forall i :: 0 <= i < |rs| ==> rs[i].addr != a
    ensures a in Retry(t, rs).table <==> a in t
    decreases |rs|
  {
    if rs != [] {
      var o := Pass(t, rs);
      PassLeavesOthers(t, rs, a);
      if |o.kept| != |rs| {
        RetryLeavesOthers(o.table, o.kept, a);
      }
    }
  }

  ghost predicate Submap(t: Table, u: Table) {
    forall a :: a in t ==> a in u && t[a] == u[a]
  }

  lemma {:induction false} PassOfRemoves(t: Table, rs: seq<Route>)
    requires RemovesOnly(rs)
    ensures Submap(Pass(t, rs).table, t) && RemovesOnly(Pass(t, rs).kept)
  {
    if rs != [] {
      PassOfRemoves(t, rs[..|rs| - 1]);
    }
  }

  lemma {:induction false} RetryOfRemoves(t: Table, rs: seq<Route>)
    requires RemovesOnly(rs)
    ensures Submap(Retry(t, rs).table, t) && RemovesOnly(Retry(t, rs).kept)
    decreases |rs|
  {
    if rs != [] {
      var o := Pass(t, rs);
      PassOfRemoves(t, rs);
      if |o.kept| != |rs| {
        RetryOfRemoves(o.table, o.kept);
      }
    }
  }

  // ----------------------------------------------------------------------------------------
  // The invariant
  // ----------------------------------------------------------------------------------------

  predicate Holds(ss: seq<Session>, s: int) {
    0 <= s < |ss| && ss[s].phase != Released
  }

  /** No two sessions hold the same address, an earlier holder has released it, and held addresses
      are in use. */
  ghost predicate AddressesUnique(st: State) {
    && 1 <= st.counter <= LAST_HOST
    && (forall s :: 0 <= s < |st.sessions| ==> st.sessions[s].entry.con == s)
    && (forall s :: Holds(st.sessions, s) ==> st.sessions[s].addr in st.inUse)
    && (forall s, u :: 0 <= s < u < |st.sessions| && st.sessions[s].addr == st.sessions[u].addr ==>
          st.sessions[s].phase == Released)
  }

  lemma HoldersDiffer(st: State, s: int, u: int)
    requires AddressesUnique(st) && Holds(st.sessions, s) && Holds(st.sessions, u)
    ensures st.sessions[s].addr == st.sessions[u].addr ==> s == u
  {
  }

  /** The last route for an address is an add exactly when a session on it is in phase Added. */
  ghost predicate LastIsLive(st: State) {
    && (forall s :: 0 <= s < |st.sessions| && st.sessions[s].phase == Added ==>
          LastAdd(st.history, st.sessions[s].addr) == Some(st.sessions[s].entry))
    && (forall a :: LastAdd(st.history, a).Some? ==>
          var s := LastAdd(st.history, a).value.con;
          s < |st.sessions| && st.sessions[s].phase == Added && st.sessions[s].addr == a)
  }

  /** Which routes of a session are queued depends on its phase, and a session's add comes before
      its remove. */
  ghost predicate RoutesFollowPhases(st: State) {
    && (forall j :: 0 <= j < |st.history| ==>
          var s := st.history[j].entry.con;
          && s < |st.sessions|
          && st.sessions[s].entry == st.history[j].entry && st.sessions[s].addr == st.history[j].addr
          && st.sessions[s].phase != Granted
          && (!st.history[j].add ==> st.sessions[s].phase != Added))
    && (forall i, j :: 0 <= i < j < |st.history| && st.history[i].entry == st.history[j].entry ==>
          st.history[i].add && !st.history[j].add)
  }

  /** Adds never follow adds; a remove follows its own add or has none. */
  ghost predicate Turns(history: seq<Route>) {
    forall j :: 0 <= j < |history| ==> TakesTurn(history[..j], history[j])
  }

  ghost predicate TakesTurn(rs: seq<Route>, r: Route) {
    if r.add then LastAdd(rs, r.addr).None?
    else LastAdd(rs, r.addr) == Some(r.entry) || Route(true, r.addr, r.entry) !in rs
  }

  /** The table and the local queue are the current drain so far. */
  ghost predicate ConsumerOk(st: State) {
    && st.drainStart <= st.popped <= |st.history|
    && Sound(st.table, Popped(st)) && RemovesOnly(st.local)
    && Outcome(st.table, st.local) == Pass(st.tableAtStart, Batch(st))
    && (forall a :: CleanAt(st.history, a) ==> ExactAt(st.table, Popped(st), st.local, a))
  }

  /** Where every address is clean, the whole table is exact. */
  lemma CleanIsExact(st: State)
    requires ConsumerOk(st) && Clean(st.history)
    ensures st.local == [] && Exact(st.table, Popped(st))
  {
    forall a: Address ensures CleanAt(st.history, a) && (LastAdd(Popped(st), a).Some? ==> a in st.table) {
      assert CleanAt(st.history, a);
      assert ExactAt(st.table, Popped(st), st.local, a);
    }
    var first := if st.local == [] then 0 else st.local[0].addr;
    assert CleanAt(st.history, first) && ExactAt(st.table, Popped(st), st.local, first);
  }

  ghost predicate Inv(st: State) {
    && AddressesUnique(st) && LastIsLive(st) && RoutesFollowPhases(st) && Turns(st.history) && ConsumerOk(st)
  }

  lemma OrphansStay(history: seq<Route>, r: Route, j: int)
    ensures IsOrphan(history, j) ==> IsOrphan(history + [r], j) && (history + [r])[j] == history[j]
    ensures !r.add && Route(true, r.addr, r.entry) !in history ==> IsOrphan(history + [r], |history|)
  {
    var all := history + [r];
    assert 0 <= j < |history| ==> all[j] == history[j] && all[..j] == history[..j];
    assert all[|history|] == r && all[..|history|] == history;
  }

  lemma CleanPrefix(history: seq<Route>, r: Route)
    requires Clean(history + [r])
    ensures Clean(history)
    ensures !r.add ==> Route(true, r.addr, r.entry) in history
  {
    forall j ensures !IsOrphan(history, j) { OrphansStay(history, r, j); }
    OrphansStay(history, r, |history|);
  }

  lemma CleanAtPrefix(history: seq<Route>, r: Route, a: Address)
    requires CleanAt(history + [r], a)
    ensures CleanAt(history, a)
  {
    forall j | IsOrphan(history, j) ensures history[j].addr != a { OrphansStay(history, r, j); }
  }

  lemma TurnsAppend(history: seq<Route>, r: Route)
    requires Turns(history) && TakesTurn(history, r)
    ensures Turns(history + [r])
  {
    var all := history + [r];
    forall j | 0 <= j < |all| ensures TakesTurn(all[..j], all[j]) {
      assert all[..j] == history[..j];
      if j == |history| { assert all[..j] == history; }
    }
  }

  /** Queuing a route leaves the consumer's view alone. */
  lemma QueueKeepsConsumer(st: State, st': State, r: Route)
    requires ConsumerOk(st)
    requires st' == st.(sessions := st'.sessions, history := st.history + [r])
    ensures ConsumerOk(st')
  {
    assert Popped(st') == Popped(st) && Batch(st') == Batch(st);
    forall a | CleanAt(st'.history, a) ensures ExactAt(st'.table, Popped(st'), st'.local, a) {
      CleanAtPrefix(st.history, r, a);
    }
  }

  /** The route that session `s` queues when it moves to `p`. */
  function RouteOf(st: State, s: nat, p: Phase): Route
    requires s < |st.sessions|
  {
    Route(p == Added, st.sessions[s].addr, st.sessions[s].entry)
  }

  function Queue(st: State, s: nat, p: Phase): State
    requires s < |st.sessions|
  {
    st.(sessions := SetPhase(st.sessions, s, p), history := st.history + [RouteOf(st, s, p)])
  }

  /** Session `s` may move to `p` by queuing a route. */
  predicate MayQueue(st: State, s: nat, p: Phase) {
    && s < |st.sessions|
    && ((p == Added && st.sessions[s].phase == Granted) || (p == Removed && st.sessions[s].phase in {Granted, Added}))
  }

  lemma QueueTakesTurn(st: State, s: nat, p: Phase)
    requires AddressesUnique(st) && LastIsLive(st) && RoutesFollowPhases(st) && MayQueue(st, s, p)
    ensures TakesTurn(st.history, RouteOf(st, s, p))
    ensures LastAdd(st.history, st.sessions[s].addr).Some? ==> LastAdd(st.history, st.sessions[s].addr).value.con == s
  {
    var a := st.sessions[s].addr;
    if LastAdd(st.history, a).Some? {
      HoldersDiffer(st, LastAdd(st.history, a).value.con, s);
    }
  }

  lemma QueueKeepsLive(st: State, s: nat, p: Phase)
    requires AddressesUnique(st) && LastIsLive(st) && RoutesFollowPhases(st) && MayQueue(st, s, p)
    ensures LastIsLive(Queue(st, s, p))
  {
    var st' := Queue(st, s, p);
    QueueTakesTurn(st, s, p);
    forall a: Address { LastOfAppend(st.history, RouteOf(st, s, p), a); }
    forall u | 0 <= u < |st'.sessions| && st'.sessions[u].phase == Added
      ensures LastAdd(st'.history, st'.sessions[u].addr) == Some(st'.sessions[u].entry)
    {
      if u != s && st.sessions[u].addr == st.sessions[s].addr { HoldersDiffer(st, u, s); }
    }
  }

  lemma QueueKeepsRoutes(st: State, s: nat, p: Phase)
    requires AddressesUnique(st) && RoutesFollowPhases(st) && MayQueue(st, s, p)
    ensures RoutesFollowPhases(Queue(st, s, p))
  {
  }

  lemma QueueKeepsUnique(st: State, s: nat, p: Phase)
    requires AddressesUnique(st) && MayQueue(st, s, p)
    ensures AddressesUnique(Queue(st, s, p))
  {
    forall u | Holds(Queue(st, s, p).sessions, u) ensures Holds(st.sessions, u) {}
  }

  lemma QueueStepKeepsInv(st: State, s: nat, p: Phase)
    requires Inv(st) && MayQueue(st, s, p)
    ensures Inv(Queue(st, s, p))
  {
    hide AddressesUnique, LastIsLive, RoutesFollowPhases, Turns, TakesTurn, ConsumerOk, LastAdd;
    var st' := Queue(st, s, p);
    QueueKeepsUnique(st, s, p);
    QueueTakesTurn(st, s, p);
    QueueKeepsLive(st, s, p);
    QueueKeepsRoutes(st, s, p);
    TurnsAppend(st.history, RouteOf(st, s, p));
    QueueKeepsConsumer(st, st', RouteOf(st, s, p));
  }

  /** One pop moves the first pending route to the drained ones. */
  lemma PopMovesOne(st: State)
    requires st.drainStart <= st.popped < |st.history|
    ensures var st', r := Do(st, Pop), st.history[st.popped];
            Popped(st') == Popped(st) + [r] && Batch(st') == Batch(st) + [r]
  {
    hide Step;
  }

  lemma PopKeepsExactAt(st: State, r: Route, a: Address)
    requires ConsumerOk(st) && Enabled(st, Pop) && CleanAt(st.history, a)
    requires r == st.history[st.popped] && TakesTurn(Popped(st), r)
    ensures var o := Step(Outcome(st.table, st.local), r); ExactAt(o.table, Popped(st) + [r], o.kept, a)
  {
    assert r.addr == a ==> !IsOrphan(st.history, st.popped);
    StepKeepsExactAt(st.table, Popped(st), st.local, r, a);
  }

  lemma PopKeepsConsumer(st: State, r: Route)
    requires ConsumerOk(st) && Enabled(st, Pop)
    requires r == st.history[st.popped] && TakesTurn(Popped(st), r)
    ensures ConsumerOk(Do(st, Pop))
  {
    hide Pass, LastAdd, Popped, Batch, CleanAt, ExactAt, Sound, TakesTurn;
    PopMovesOne(st);
    PassAppend(st.tableAtStart, Batch(st), r);
    PopKeepsSound(st, r);
    forall a | CleanAt(st.history, a)
      ensures ExactAt(Do(st, Pop).table, Popped(Do(st, Pop)), Do(st, Pop).local, a)
    {
      PopKeepsExactAt(st, r, a);
    }
  }

  lemma PopKeepsSound(st: State, r: Route)
    requires st.popped <= |st.history| && Sound(st.table, Popped(st)) && TakesTurn(Popped(st), r)
    ensures r.add ==> !Blocked(st.table, r)
    ensures Sound(Step(Outcome(st.table, st.local), r).table, Popped(st) + [r])
  {
    StepKeepsSound(st.table, Popped(st), r);
  }

  lemma PopKeepsInv(st: State)
    requires Inv(st) && Enabled(st, Pop)
    ensures Inv(Do(st, Pop))
  {
    assert TakesTurn(st.history[..st.popped], st.history[st.popped]);
    PopKeepsConsumer(st, st.history[st.popped]);
  }

  lemma EndDrainKeepsInv(st: State)
    requires Inv(st) && Enabled(st, EndDrain)
    ensures Inv(Do(st, EndDrain))
  {
    var st' := Do(st, EndDrain);
    RetryOfRemoves(st.table, st.local);
    assert Batch(st') == [] && Popped(st') == Popped(st);
    forall a | CleanAt(st'.history, a) ensures ExactAt(st'.table, Popped(st'), st'.local, a) {
      RetryLeavesOthers(st.table, st.local, a);
    }
  }

  lemma GrantKeepsInv(st: State, h: nat, aes: nat)
    requires Inv(st) && Enabled(st, Grant(h, aes))
    ensures Inv(Do(st, Grant(h, aes)))
  {
    var st' := Do(st, Grant(h, aes));
    assert Batch(st') == Batch(st) && Popped(st') == Popped(st);
    forall s | 0 <= s < |st.sessions| && st.sessions[s].addr == AddressOf(h) ensures st.sessions[s].phase == Released {
      assert !Holds(st.sessions, s);
    }
  }

  lemma ReleaseKeepsInv(st: State, s: nat)
    requires Inv(st) && Enabled(st, Release(s))
    ensures Inv(Do(st, Release(s)))
  {
    var st' := Do(st, Release(s));
    forall u | Holds(st'.sessions, u) ensures Holds(st.sessions, u) && u != s {}
    assert Holds(st.sessions, s);
    assert Batch(st') == Batch(st) && Popped(st') == Popped(st);
  }

  /** The invariant holds at the end of every run. */
  lemma {:induction false} RunKeepsInv(xs: seq<Action>)
    ensures Final(xs).Some? ==> Inv(Final(xs).value)
  {
    if xs != [] && Final(xs).Some? {
      RunKeepsInv(xs[..|xs| - 1]);
      var st, x := Final(xs[..|xs| - 1]).value, xs[|xs| - 1];
      match x
      case Grant(h, aes) => GrantKeepsInv(st, h, aes);
      case QueueAdd(s) => QueueStepKeepsInv(st, s, Added);
      case QueueRemove(s) => QueueStepKeepsInv(st, s, Removed);
      case Release(s) => ReleaseKeepsInv(st, s);
      case Pop => PopKeepsInv(st);
      case EndDrain => EndDrainKeepsInv(st);
    }
  }

  // ----------------------------------------------------------------------------------------
  // Main results
  // ----------------------------------------------------------------------------------------

  /** Replaying the routes that are still queued, one per step, over an exact table. */
  lemma {:induction false} ReplayIsExact(t: Table, done: seq<Route>, rest: seq<Route>)
    requires Exact(t, done) && Clean(done + rest) && Turns(done + rest)
    ensures Pass(t, rest).kept == [] && Exact(Pass(t, rest).table, done + rest)
  {
    if rest == [] {
      assert done + rest == done;
    } else {
      var init, r := rest[..|rest| - 1], rest[|rest| - 1];
      var before := done + init;
      assert done + rest == before + [r];
      CleanPrefix(before, r);
      forall j | 0 <= j < |before| ensures TakesTurn(before[..j], before[j]) {
        assert TakesTurn((before + [r])[..j], (before + [r])[j]);
        assert (before + [r])[..j] == before[..j];
      }
      ReplayIsExact(t, done, init);
      assert TakesTurn((before + [r])[..|before|], (before + [r])[|before|]);
      assert (before + [r])[..|before|] == before;
      StepKeepsExact(Pass(t, init).table, before, r);
    }
  }

  /** `t` routes exactly the sessions in phase Added, each to its own connection and cipher. */
  ghost predicate Serves(t: Table, ss: seq<Session>) {
    && (forall a :: a in t ==> t[a].con < |ss| && ss[t[a].con] == Session(a, t[a], Added))
    && (forall s :: 0 <= s < |ss| && ss[s].phase == Added ==> ss[s].addr in t && t[ss[s].addr] == ss[s].entry)
  }

  lemma ExactServes(st: State, t: Table)
    requires LastIsLive(st) && RoutesFollowPhases(st) && Exact(t, st.history)
    ensures Serves(t, st.sessions)
  {
    forall a | a in t ensures t[a].con < |st.sessions| && st.sessions[t[a].con] == Session(a, t[a], Added) {
      var i := LastIsInHistory(st.history, a);
    }
  }

  lemma PendingIsExact(st: State)
    requires ConsumerOk(st) && Turns(st.history) && Clean(st.history)
    ensures st.local == [] && Pass(st.table, Pending(st)).kept == []
    ensures Exact(Pass(st.table, Pending(st)).table, st.history)
  {
    assert Popped(st) + Pending(st) == st.history;
    hide Popped, Pending, Clean, Turns, Exact;
    CleanIsExact(st);
    ReplayIsExact(st.table, Popped(st), Pending(st));
  }

  /** In every state of a clean run, replaying the pending queue over the table never blocks and
      yields exactly the sessions that have queued their add and not their remove, each address
      with its own connection and cipher session. */
  lemma CleanRunsReplay(xs: seq<Action>, st: State)
    requires Final(xs) == Some(st) && Clean(st.history)
    ensures st.popped <= |st.history| && st.local == []
    ensures Pass(st.table, Pending(st)).kept == []
    ensures Serves(Pass(st.table, Pending(st)).table, st.sessions)
  {
    RunKeepsInv(xs);
    PendingIsExact(st);
    ExactServes(st, Pass(st.table, Pending(st)).table);
  }

  /** In every run, no two sessions that have not released their address share it. */
  lemma AddressesAreNotShared(xs: seq<Action>, st: State, s: nat, u: nat)
    requires Final(xs) == Some(st) && Holds(st.sessions, s) && Holds(st.sessions, u) && s != u
    ensures st.sessions[s].addr != st.sessions[u].addr
  {
    RunKeepsInv(xs);
    HoldersDiffer(st, s, u);
  }

  /** A clean run never reaches the error branch: at the end of a drain nothing is left to retry,
      and the table is exactly the live sessions whose routes have been popped. */
  lemma CleanDrainsFinish(xs: seq<Action>, st: State)
    requires Final(xs) == Some(st) && Clean(st.history) && Enabled(st, EndDrain)
    ensures st.drainStart <= st.popped <= |st.history|
    ensures forall a :: Net(st.tableAtStart, Batch(st), a) in {0, 1}
    ensures Do(st, EndDrain).table == st.table && Serves(st.table, st.sessions)
  {
    RunKeepsInv(xs);
    assert Popped(st) == st.history;
    CleanIsExact(st);
    DrainStuckIff(st.tableAtStart, Batch(st));
    ExactServes(st, st.table);
  }

  /** No stale route in any run, clean or not, at any time: a row belongs to a session that still
      has this address, whose add has been popped and whose remove has not. */
  lemma NoStaleRoutes(xs: seq<Action>, st: State, a: Address)
    requires Final(xs) == Some(st) && a in st.table
    ensures st.popped <= |st.history|
    ensures var s := st.table[a].con;
            && s < |st.sessions| && st.sessions[s].addr == a && st.sessions[s].entry == st.table[a]
            && Route(true, a, st.table[a]) in Popped(st)
            && (forall r :: r in Popped(st) && r.entry.con == s ==> r.add)
  {
    RunKeepsInv(xs);
    hide Final;
    RowHasItsAdd(st, a);
  }

  lemma RowHasItsAdd(st: State, a: Address)
    requires RoutesFollowPhases(st) && st.popped <= |st.history| && Sound(st.table, Popped(st)) && a in st.table
    ensures var s := st.table[a].con;
            && s < |st.sessions| && st.sessions[s].addr == a && st.sessions[s].entry == st.table[a]
            && Route(true, a, st.table[a]) in Popped(st)
            && (forall r :: r in Popped(st) && r.entry.con == s ==> r.add)
  {
    var i := LastIsInHistory(Popped(st), a);
    assert st.history[i] == Popped(st)[i] == Route(true, a, st.table[a]);
    hide Sound, LastAdd;
    forall r | r in Popped(st) && r.entry.con == st.table[a].con ensures r.add {
      var j :| 0 <= j < st.popped && Popped(st)[j] == r;
      assert st.history[j] == r;
    }
  }

  /** Exactly which routes survive a drain, in any run: only removes are ever thrown away, and a
      popped address is routed afterwards if and only if, over this drain, its balance is one. */
  lemma DrainOutcome(xs: seq<Action>, st: State, a: Address)
    requires Final(xs) == Some(st) && Enabled(st, EndDrain)
    ensures st.drainStart <= st.popped <= |st.history|
    ensures Net(st.tableAtStart, Batch(st), a) <= 1
    ensures a in Do(st, EndDrain).table <==> Net(st.tableAtStart, Batch(st), a) == 1
    ensures RemovesOnly(Retry(st.table, st.local).kept)
    ensures Count(Retry(st.table, st.local).kept, a) ==
            if Net(st.tableAtStart, Batch(st), a) == 1 then 0 else -Net(st.tableAtStart, Batch(st), a)
  {
    RunKeepsInv(xs);
    RetryOfRemoves(st.table, st.local);
    DrainIsDecidedByNet(st.tableAtStart, Batch(st), a);
    var kept := Retry(st.table, st.local).kept;
    if Count(kept, a) > 0 {
      CountIsMembership(kept, a);
      var i :| 0 <= i < |kept| && kept[i].addr == a;
      assert kept[i] in kept;
    }
  }

  /** The exact condition for a live session: a session that has queued its add and not its remove
      is served after a drain, by its own connection and cipher session, if and only if the balance
      of its address over this drain is one. */
  lemma LiveSessionIsServedIff(xs: seq<Action>, st: State, s: nat)
    requires Final(xs) == Some(st) && Enabled(st, EndDrain)
    requires s < |st.sessions| && st.sessions[s].phase == Added
    ensures st.drainStart <= st.popped <= |st.history|
    ensures var a, t := st.sessions[s].addr, Do(st, EndDrain).table;
            && (a in t && t[a] == st.sessions[s].entry <==> Net(st.tableAtStart, Batch(st), a) == 1)
            && (a in t ==> t[a] == st.sessions[s].entry)
  {
    RunKeepsInv(xs);
    DrainOutcome(xs, st, st.sessions[s].addr);
    EndDrainKeepsInv(st);
    hide Final, Retry, Net, Inv;
    RowIsItsOwn(Do(st, EndDrain), s);
  }

  /** With nothing left to pop, a row on the address of a live session is that session's. */
  lemma RowIsItsOwn(st: State, s: nat)
    requires Inv(st) && st.popped == |st.history| && s < |st.sessions| && st.sessions[s].phase == Added
    ensures st.sessions[s].addr in st.table ==> st.table[st.sessions[s].addr] == st.sessions[s].entry
  {
    assert Popped(st) == st.history;
  }
}
