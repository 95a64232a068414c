/** What a session can count on: it keeps what it was granted, finds room in the queue once it has been
    popped, gets its route, and comes to its end. */
module SessionLife {
  import opened AddressPool
  import opened LostRoutes
  import opened RouteQueue
  import opened Sessions
  import opened Wrappers

  // ----------------------------------------------------------------------------------------
  // What is kept
  // ----------------------------------------------------------------------------------------

  lemma DoKeepsEntries(st: State, x: Action)
    requires Enabled(st, x)
    ensures |Do(st, x).sessions| == |st.sessions| + (if x.Grant? then 1 else 0)
    ensures forall s :: 0 <= s < |st.sessions| ==>
              Do(st, x).sessions[s].addr == st.sessions[s].addr && Do(st, x).sessions[s].entry == st.sessions[s].entry
    ensures x.Grant? ==>
              Do(st, x).sessions[|st.sessions|] == Session(AddressOf(x.host), Entry(|st.sessions|, x.aes), Granted)
  {
  }

  /** Step `i` of the run is the grant of session `s`, with this host and cipher session. */
  ghost predicate GrantedWith(xs: seq<Action>, i: int, s: nat, se: Session) {
    && 0 <= i < |xs| && xs[i].Grant? && Final(xs[..i]).Some? && |Final(xs[..i]).value.sessions| == s
    && se.addr == AddressOf(xs[i].host) && se.entry == Entry(s, xs[i].aes)
  }

  /** Every session has, in every run and at any time, just the address, the connection and the cipher
      session that it was granted. */
  lemma {:induction false} SessionsAreAsGranted(xs: seq<Action>, st: State, s: nat) returns (i: nat)
    requires Final(xs) == Some(st) && s < |st.sessions|
    ensures GrantedWith(xs, i, s, st.sessions[s])
  {
    var init, x := xs[..|xs| - 1], xs[|xs| - 1];
    var before := Final(init).value;
    DoKeepsEntries(before, x);
    hide Do, Enabled;
    if s == |before.sessions| {
      i := |xs| - 1;
    } else {
      i := SessionsAreAsGranted(init, before, s);
      assert init[..i] == xs[..i] && init[i] == xs[i];
    }
  }

  /** What is waiting never exceeds the capacity of the queue. */
  lemma {:induction false} QueueNeverOverflows(xs: seq<Action>, st: State)
    requires Final(xs) == Some(st)
    ensures |st.history| - st.popped <= 1024 * 4
  {
    if xs != [] {
      QueueNeverOverflows(xs[..|xs| - 1], Final(xs[..|xs| - 1]).value);
    }
  }

  // ----------------------------------------------------------------------------------------
  // What can be reached
  // ----------------------------------------------------------------------------------------

  /** The run goes on from `xs` to `ys` by pops only, until nothing is waiting. */
  lemma {:induction false} PopRest(xs: seq<Action>, st: State) returns (ys: seq<Action>, st': State)
    requires Final(xs) == Some(st) && st.popped <= |st.history|
    ensures xs <= ys && Final(ys) == Some(st') && |ys| == |xs| + |st.history| - st.popped
    ensures forall k :: |xs| <= k < |ys| ==> ys[k] == Pop
    ensures st'.popped == |st'.history| && st'.history == st.history
    ensures st'.sessions == st.sessions && st'.inUse == st.inUse && st'.counter == st.counter
    decreases |st.history| - st.popped
  {
    ys, st' := xs, st;
    if st.popped < |st.history| {
      hide Final;
      var zs, next := Go(xs, st, Pop);
      ys, st' := PopRest(zs, next);
    }
  }

  /** Every session can come to its end: from every reachable state, pops and its own steps lead to its
      release, and its address is free again. */
  lemma EverySessionCanEnd(xs: seq<Action>, st: State, s: nat) returns (ys: seq<Action>, st': State)
    requires Final(xs) == Some(st) && s < |st.sessions|
    ensures xs <= ys && Final(ys) == Some(st')
    ensures forall k :: |xs| <= k < |ys| ==> ys[k] in {Pop, QueueRemove(s), Release(s)}
    ensures s < |st'.sessions| && st'.sessions[s].phase == Released
    ensures st.sessions[s].phase != Released ==> st.sessions[s].addr !in st'.inUse
  {
    PoppedInBounds(xs, st);
    hide Final, Step;
    ys, st' := xs, st;
    if st.sessions[s].phase in {Granted, Added} {
      ys, st' := PopRest(xs, st);
      ys, st' := Go(ys, st', QueueRemove(s));
    }
    if st'.sessions[s].phase == Removed {
      ys, st' := Go(ys, st', Release(s));
    }
  }

  lemma PoppedInBounds(xs: seq<Action>, st: State)
    requires Final(xs) == Some(st)
    ensures st.drainStart <= st.popped <= |st.history|
  {
    RunKeepsInv(xs);
  }

  lemma AddIsNoOrphan(history: seq<Route>, r: Route, a: Address)
    requires CleanAt(history, a) && r.add
    ensures CleanAt(history + [r], a)
  {
    var all := history + [r];
    forall j | IsOrphan(all, j) ensures all[j].addr != a {
      assert j < |history| && all[j] == history[j] && all[..j] == history[..j];
    }
  }

  /** Every session can get its route: from every reachable state in which it has its address and no
      session on that address has failed before queuing its add, pops and its own step lead to its
      being served. */
  lemma SessionCanBeServed(xs: seq<Action>, st: State, s: nat) returns (ys: seq<Action>, st': State)
    requires Final(xs) == Some(st) && s < |st.sessions| && st.sessions[s].phase == Granted
    requires CleanAt(st.history, st.sessions[s].addr)
    ensures xs <= ys && Final(ys) == Some(st')
    ensures forall k :: |xs| <= k < |ys| ==> ys[k] in {Pop, QueueAdd(s)}
    ensures IsServed(st', s)
  {
    PoppedInBounds(xs, st);
    hide Final, Step, CleanAt;
    ys, st' := PopRest(xs, st);
    var r := Route(true, st.sessions[s].addr, st.sessions[s].entry);
    AddIsNoOrphan(st.history, r, st.sessions[s].addr);
    ys, st' := Go(ys, st', QueueAdd(s));
    ys, st' := Go(ys, st', Pop);
    assert st'.history == st.history + [r] && st'.popped == |st'.history| && st'.sessions[s].phase == Added;
    assert Popped(st')[|st.history|] == r;
    CleanAddressIsServed(ys, st', s);
  }
}
