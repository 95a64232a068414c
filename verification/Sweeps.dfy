/** Several sweeps over the connections at once: the timer and every accepted connection start one,
    and while one is suspended in a close, others look, close and append. */
module Sweeps {
  import opened Sweep
  import opened Wrappers

  /** Where a sweep stands: about to test its index, suspended in the close it called there, or done. */
  datatype Place = Looking(i: nat) | Suspended(i: nat) | Finished

  /** `kept` collects the connections that some sweep has looked at and left, `known` all that there
      have ever been. */
  datatype State = State(
    connections: seq<Conn>,
    sweeps: seq<Place>,
    closed: seq<Conn>,
    arrived: seq<Conn>,
    kept: set<Conn>,
    known: set<Conn>)

  datatype Action =
    | Start
    | Look(n: nat, closes: bool)   // one turn of sweep `n`, up to its close if it closes
    | Resume(n: nat)
    | Arrive(c: Conn)

  predicate Enabled(st: State, x: Action) {
    match x
    case Start => true
    case Look(n, _) => n < |st.sweeps| && st.sweeps[n].Looking?
    case Resume(n) => n < |st.sweeps| && st.sweeps[n].Suspended?
    case Arrive(c) => c !in st.known
  }

  function Put(st: State, n: nat, p: Place): State
    requires n < |st.sweeps|
  {
    st.(sweeps := st.sweeps[n := p])
  }

  function Do(st: State, x: Action): State
    requires Enabled(st, x)
  {
    match x
    case Start => st.(sweeps := st.sweeps + [Looking(0)])
    case Look(n, closes) =>
      var i, size := st.sweeps[n].i, |st.connections|;
      if i >= size then Put(st, n, Finished)
      else
        var conn := st.connections[i];
        if closes then
          Put(st, n, Suspended(i)).(
            connections := st.connections[i := st.connections[size - 1]][..size - 1], closed := st.closed + [conn])
        else Put(st, n, Looking(i + 1)).(kept := st.kept + {conn})
    case Resume(n) =>
      var i := st.sweeps[n].i;
      Put(st, n, Looking(if i > |st.connections| then |st.connections| else i))
    case Arrive(c) => st.(connections := st.connections + [c], arrived := st.arrived + [c], known := st.known + {c})
  }

  /** The state after the run `xs` from `st`, if all its steps are enabled in turn. */
  function After(st: State, xs: seq<Action>): Option<State> {
    if xs == [] then Some(st)
    else
      var before := After(st, xs[..|xs| - 1]);
      var x := xs[|xs| - 1];
      if before.Some? && Enabled(before.value, x) then Some(Do(before.value, x)) else None
  }

  /** Any state in which nothing has been logged yet, all connections are different, and a sweep is
      at its beginning; others may stand anywhere. */
  ghost predicate Fresh(st: State) {
    && st.closed == [] && st.arrived == [] && st.kept == {} && st.known == (set c | c in st.connections)
    && (forall c :: multiset(st.connections)[c] <= 1)
    && exists n :: 0 <= n < |st.sweeps| && st.sweeps[n] == Looking(0)
  }

  // ----------------------------------------------------------------------------------------
  // Nothing is lost or duplicated
  // ----------------------------------------------------------------------------------------

  /** What is there and what has been closed. */
  ghost function Parts(st: State): multiset<Conn> { multiset(st.connections) + multiset(st.closed) }

  lemma CloseKeepsParts(s: seq<Conn>, i: nat, closed: seq<Conn>)
    requires i < |s|
    ensures multiset(s[i := s[|s| - 1]][..|s| - 1]) + multiset(closed + [s[i]]) == multiset(s) + multiset(closed)
  {
    SwapRemove(s, i);
    var r := s[i := s[|s| - 1]][..|s| - 1];
    assert s == s[..i] + s[i..] && r == r[..i] + r[i..];
  }

  /** Only an arrival changes the parts. */
  lemma DoKeepsParts(st: State, x: Action)
    requires Enabled(st, x)
    ensures Parts(Do(st, x)) == Parts(st) + (if x.Arrive? then multiset{x.c} else multiset{})
    ensures multiset(Do(st, x).arrived) == multiset(st.arrived) + (if x.Arrive? then multiset{x.c} else multiset{})
    ensures Do(st, x).known == st.known + (if x.Arrive? then {x.c} else {})
  {
    if x.Look? {
      LookKeepsParts(st, x.n, x.closes);
    } else if x.Arrive? {
      OneMore(st.connections, x.c, multiset(st.closed));
      OneMore(st.arrived, x.c, multiset{});
    }
  }

  lemma OneMore(s: seq<Conn>, c: Conn, m: multiset<Conn>)
    ensures multiset(s + [c]) + m == multiset(s) + m + multiset{c}
  {
  }

  lemma LookKeepsParts(st: State, n: nat, closes: bool)
    requires Enabled(st, Look(n, closes))
    ensures Parts(Do(st, Look(n, closes))) == Parts(st)
  {
    if closes && st.sweeps[n].i < |st.connections| {
      CloseKeepsParts(st.connections, st.sweeps[n].i, st.closed);
    }
  }

  /** The parts are what was there and what has arrived, all of it known and different. */
  ghost predicate Conserved(st0: State, st: State) {
    && Parts(st) == multiset(st0.connections) + multiset(st.arrived)
    && forall c :: Parts(st)[c] <= (if c in st.known then 1 else 0)
  }

  lemma {:induction false} RunConserves(st: State, xs: seq<Action>)
    requires Fresh(st) && After(st, xs).Some?
    ensures Conserved(st, After(st, xs).value)
  {
    if xs == [] {
      assert forall c :: c in multiset(st.connections) <==> c in st.connections;
    } else {
      hide Parts, Do;
      RunConserves(st, xs[..|xs| - 1]);
      DoKeepsParts(After(st, xs[..|xs| - 1]).value, xs[|xs| - 1]);
    }
  }

  /** For every interleaving of any number of sweeps: connections and closed ones are those at the
      start and those that arrived, none is closed twice, and none is both there and closed. */
  lemma NothingLostOrClosedTwice(st: State, xs: seq<Action>, st': State, c: Conn)
    requires Fresh(st) && After(st, xs) == Some(st')
    ensures multiset(st'.connections) + multiset(st'.closed) == multiset(st.connections) + multiset(st'.arrived)
    ensures multiset(st'.connections)[c] + multiset(st'.closed)[c] <= 1
  {
    RunConserves(st, xs);
    assert Parts(st')[c] <= 1;
  }

  /** The program sets an index beyond the end back to the end when a sweep resumes. It need not: the
      test that follows ends the sweep either way, so no index out of range is ever used. */
  lemma ClampChangesNothing(st: State, n: nat, closes: bool)
    requires Enabled(st, Resume(n)) && st.sweeps[n].i > |st.connections|
    ensures Do(Do(st, Resume(n)), Look(n, closes)) == Do(Put(st, n, Looking(st.sweeps[n].i)), Look(n, closes))
    ensures Do(Do(st, Resume(n)), Look(n, closes)) == Put(st, n, Finished)
  {
    assert st.sweeps[n := Looking(|st.connections|)][n := Finished] == st.sweeps[n := Finished];
    assert st.sweeps[n := Looking(st.sweeps[n].i)][n := Finished] == st.sweeps[n := Finished];
  }

  /** One more step of a run. */
  lemma Go(st0: State, xs: seq<Action>, st: State, x: Action) returns (xs': seq<Action>, st': State)
    requires After(st0, xs) == Some(st) && Enabled(st, x)
    ensures After(st0, xs') == Some(st') && st' == Do(st, x)
  {
    xs', st' := xs + [x], Do(st, x);
    assert xs'[..|xs|] == xs;
  }

  /** The index does lie beyond the end in some runs. */
  lemma IndexCanLieBeyondTheEnd() returns (st: State, xs: seq<Action>, st': State)
    ensures Fresh(st) && After(st, xs) == Some(st')
    ensures st'.sweeps != [] && st'.sweeps[0] == Suspended(1) && |st'.connections| == 0
    ensures 12 !in st'.known && 12 !in st'.kept
  {
    st := State([10, 11], [Looking(0)], [], [], {}, {10, 11});
    assert st.sweeps[0] == Looking(0) && multiset(st.connections) == multiset{10, 11};
    xs, st' := Go(st, [], st, Look(0, false));
    xs, st' := Go(st, xs, st', Look(0, true));
    assert st'.connections == [10];
    xs, st' := Go(st, xs, st', Start);
    xs, st' := Go(st, xs, st', Look(1, true));
    assert st'.connections == [];
  }

  /** In such a run a connection that arrives just then is out of that sweep's way. */
  lemma ArrivalCanBeMissed() returns (st: State, xs: seq<Action>, st': State, c: Conn)
    ensures Fresh(st) && After(st, xs) == Some(st')
    ensures st'.sweeps != [] && st'.sweeps[0].Finished?
    ensures c in st'.arrived && c in st'.connections && c !in st'.kept
  {
    st, xs, st' := IndexCanLieBeyondTheEnd();
    hide Fresh;
    c := 12;
    xs, st' := Go(st, xs, st', Arrive(c));
    xs, st' := Go(st, xs, st', Resume(0));
    assert st'.sweeps[0] == Looking(1);
    xs, st' := Go(st, xs, st', Look(0, false));
  }

  // ----------------------------------------------------------------------------------------
  // Nothing is missed
  // ----------------------------------------------------------------------------------------

  /** A sweep at `p` has place `k` still before it. */
  predicate Ahead(p: Place, k: nat) { !p.Finished? && p.i <= k }

  /** Place `k` is still before some sweep. */
  ghost predicate Awaited(st: State, k: nat) { exists n :: 0 <= n < |st.sweeps| && Ahead(st.sweeps[n], k) }

  /** Each of the connections `there` that is still there has been looked at, or will be. */
  ghost predicate Covered(st: State, there: set<Conn>) {
    forall k :: 0 <= k < |st.connections| && st.connections[k] in there ==>
      st.connections[k] in st.kept || Awaited(st, k)
  }

  lemma AwaitedLater(st: State, st': State, k: nat, n: nat)
    requires Awaited(st, k) && n < |st.sweeps| <= |st'.sweeps|
    requires forall m :: 0 <= m < |st.sweeps| && m != n ==> st'.sweeps[m] == st.sweeps[m]
    requires Ahead(st.sweeps[n], k) ==> Ahead(st'.sweeps[n], k)
    ensures Awaited(st', k)
  {
    var m :| 0 <= m < |st.sweeps| && Ahead(st.sweeps[m], k);
    assert Ahead(st'.sweeps[m], k);
  }

  lemma DoKeepsCovered(st: State, x: Action, there: set<Conn>)
    requires Covered(st, there) && there <= st.known && Enabled(st, x)
    ensures Covered(Do(st, x), there) && there <= Do(st, x).known
  {
    var st' := Do(st, x);
    forall k | 0 <= k < |st'.connections| && st'.connections[k] in there
      ensures st'.connections[k] in st'.kept || Awaited(st', k)
    {
      match x
      case Start =>
        if Awaited(st, k) {
          var m :| 0 <= m < |st.sweeps| && Ahead(st.sweeps[m], k);
          assert Ahead(st'.sweeps[m], k);
        }
      case Arrive(c) =>
        assert st'.connections[k] == st.connections[k];
        if Awaited(st, k) {
          var m :| 0 <= m < |st.sweeps| && Ahead(st.sweeps[m], k);
          assert Ahead(st'.sweeps[m], k);
        }
      case Look(n, closes) =>
        if closes && k == st.sweeps[n].i {
          assert Ahead(st'.sweeps[n], k);
        } else {
          assert st'.connections[k] == st.connections[k];
          if Awaited(st, k) && st.connections[k] !in st'.kept { AwaitedLater(st, st', k, n); }
        }
      case Resume(n) =>
        if Awaited(st, k) { AwaitedLater(st, st', k, n); }
    }
  }

  lemma {:induction false} RunKeepsCovered(st: State, xs: seq<Action>, there: set<Conn>)
    requires Fresh(st) && there == st.known && After(st, xs).Some?
    ensures Covered(After(st, xs).value, there) && there <= After(st, xs).value.known
  {
    if xs == [] {
      var n :| 0 <= n < |st.sweeps| && st.sweeps[n] == Looking(0);
      forall k: nat ensures Awaited(st, k) { assert Ahead(st.sweeps[n], k); }
    } else {
      RunKeepsCovered(st, xs[..|xs| - 1], there);
      DoKeepsCovered(After(st, xs[..|xs| - 1]).value, xs[|xs| - 1], there);
    }
  }

  /** Together the sweeps miss nothing: once all of them are done, every connection that was there
      when one of them began, and is there still, has been looked at by one of them since, and left. */
  lemma SweepsTogetherMissNothing(st: State, xs: seq<Action>, st': State, c: Conn)
    requires Fresh(st) && After(st, xs) == Some(st')
    requires forall n :: 0 <= n < |st'.sweeps| ==> st'.sweeps[n].Finished?
    requires c in st.connections && c in st'.connections
    ensures c in st'.kept
  {
    RunKeepsCovered(st, xs, st.known);
    var k :| 0 <= k < |st'.connections| && st'.connections[k] == c;
    assert !Awaited(st', k);
  }

  /** A single sweep can miss a connection, though: while it is suspended, another one closes a
      connection at a place it has passed, and moves the last one there. */
  lemma OneSweepCanMiss() returns (st: State, xs: seq<Action>, st': State, c: Conn)
    ensures Fresh(st) && st.sweeps == [Looking(0)] && After(st, xs) == Some(st')
    ensures st'.sweeps != [] && st'.sweeps[0].Finished?
    ensures c in st.connections && c in st'.connections && c !in st'.kept
  {
    c := 12;
    st, xs := BothSuspended();
    st' := State([12, 13], [Suspended(1), Suspended(0)], [11, 10], [], {10}, {10, 11, 12, 13});
    hide Fresh;
    xs, st' := Go(st, xs, st', Resume(0));
    assert st'.sweeps == [Looking(1), Suspended(0)];
    xs, st' := Go(st, xs, st', Look(0, false));
    assert st'.sweeps == [Looking(2), Suspended(0)];
    xs, st' := Go(st, xs, st', Look(0, false));
  }

  lemma FirstSuspended() returns (st: State, xs: seq<Action>)
    ensures st == State([10, 11, 12, 13], [Looking(0)], [], [], {}, {10, 11, 12, 13})
    ensures After(st, xs) == Some(State([10, 13, 12], [Suspended(1)], [11], [], {10}, {10, 11, 12, 13}))
  {
    st := State([10, 11, 12, 13], [Looking(0)], [], [], {}, {10, 11, 12, 13});
    var st': State;
    xs, st' := Go(st, [], st, Look(0, false));
    assert st'.sweeps == [Looking(1)] && st'.kept == {10};
    xs, st' := Go(st, xs, st', Look(0, true));
    assert st'.connections == [10, 13, 12] && st'.sweeps == [Suspended(1)] && st'.closed == [11];
  }

  lemma BothSuspended() returns (st: State, xs: seq<Action>)
    ensures Fresh(st) && st.sweeps == [Looking(0)] && 12 in st.connections
    ensures After(st, xs) ==
            Some(State([12, 13], [Suspended(1), Suspended(0)], [11, 10], [], {10}, {10, 11, 12, 13}))
  {
    st, xs := FirstSuspended();
    assert Fresh(st) by {
      hide After;
      assert st.sweeps[0] == Looking(0) && multiset(st.connections) == multiset{10, 11, 12, 13};
    }
    hide Fresh;
    var st' := After(st, xs).value;
    xs, st' := Go(st, xs, st', Start);
    assert st'.sweeps == [Suspended(1), Looking(0)];
    xs, st' := Go(st, xs, st', Look(1, true));
    assert st'.connections == [12, 13] && st'.sweeps == [Suspended(1), Suspended(0)] && st'.closed == [11, 10];
  }
}
