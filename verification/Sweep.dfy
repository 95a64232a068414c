/** The sweep over the list of connections that closes dead and expired ones
    (`SessionsControl::closeOldSessions`). A connection is taken out by moving the last one into
    its place; the sweep suspends at every close, and new connections may be appended meanwhile. */
module Sweep {
  type Conn = nat

  /** What a look at a connection finds: someone else holds its read lock, or whether it is open. */
  datatype Probe = Busy | Inactive | Active

  /** The outside world as the sweep meets it: the finding and the age at the n-th look, the age
      limit, and the connections accepted at each suspension. */
  datatype World = World(probe: (nat, Conn) -> Probe, age: (nat, Conn) -> nat, maxAge: nat, arrivals: seq<seq<Conn>>)

  /** Whether the n-th look at a connection ends with closing it. */
  predicate Closes(w: World, n: nat, c: Conn) {
    w.probe(n, c).Inactive? || (w.probe(n, c).Active? && w.age(n, c) >= w.maxAge)
  }

  /** Of the connections looked at in this order, those that were closed (`closing`) or kept. */
  function Verdicts(w: World, looked: seq<Conn>, closing: bool): seq<Conn> {
    if looked == [] then []
    else
      var n := |looked| - 1;
      Verdicts(w, looked[..n], closing) + (if Closes(w, n, looked[n]) == closing then [looked[n]] else [])
  }

  function Flatten(css: seq<seq<Conn>>): seq<Conn> {
    if css == [] then [] else Flatten(css[..|css| - 1]) + css[|css| - 1]
  }

  /** The connections accepted in the first `k` suspensions. */
  function Arrived(w: World, k: nat): seq<Conn> {
    if k <= |w.arrivals| then Flatten(w.arrivals[..k]) else Flatten(w.arrivals)
  }

  lemma VerdictsAppend(w: World, looked: seq<Conn>, c: Conn, closing: bool)
    ensures Verdicts(w, looked + [c], closing) ==
            if Closes(w, |looked|, c) == closing then Verdicts(w, looked, closing) + [c]
            else Verdicts(w, looked, closing)
  {
    assert (looked + [c])[..|looked|] == looked;
  }

  lemma ArrivedNext(w: World, k: nat)
    ensures Arrived(w, k + 1) == Arrived(w, k) + ArrivedAt(w, k)
  {
    if k < |w.arrivals| {
      assert w.arrivals[..k + 1][..k] == w.arrivals[..k];
    }
    assert w.arrivals[..|w.arrivals|] == w.arrivals;
  }

  /** Moving the last element into place `i` and dropping the last place takes out element `i`. */
  lemma SwapRemove(s: seq<Conn>, i: nat)
    requires i < |s|
    ensures var r := s[i := s[|s| - 1]][..|s| - 1];
            r[..i] == s[..i] && multiset(s[i..]) == multiset(r[i..]) + multiset{s[i]}
  {
    var n := |s| - 1;
    var r := s[i := s[n]][..n];
    if i < n {
      var mid := s[i + 1..n];
      assert s[i..] == [s[i]] + mid + [s[n]];
      assert r[i..] == [s[n]] + mid;
    } else {
      assert s[i..] == [s[i]] && r[i..] == [];
    }
  }

  lemma Appended(s: seq<Conn>, i: nat, more: seq<Conn>)
    requires i <= |s|
    ensures (s + more)[..i] == s[..i] && multiset((s + more)[i..]) == multiset(s[i..]) + multiset(more)
  {
    assert (s + more)[i..] == s[i..] + more;
  }

  /** The connections accepted during suspension `k`. */
  function ArrivedAt(w: World, k: nat): seq<Conn> { if k < |w.arrivals| then w.arrivals[k] else [] }

  class Control {
    var connections: seq<Conn>

    /** Takes out connection `i` and suspends in its close, during which others arrive. */
    method TakeOut(i: nat, w: World, k: nat) returns (conn: Conn)
      requires i < |connections|
      modifies this
      ensures conn == old(connections)[i]
      ensures |connections| == |old(connections)| - 1 + |ArrivedAt(w, k)|
      ensures connections[..i] == old(connections)[..i]
      ensures multiset(connections[i..]) + multiset{conn} == multiset(old(connections)[i..]) + multiset(ArrivedAt(w, k))
    {
      hide ArrivedAt;
      conn := connections[i];
      SwapRemove(connections, i);
      connections := connections[i := connections[|connections| - 1]][..|connections| - 1];
      Appended(connections, i, ArrivedAt(w, k));
      connections := connections + ArrivedAt(w, k);
    }

    /** `looked` lists the connections in the order they were examined, `closed` those passed to
        close, `k` counts the suspensions. All that was there at the start or came meanwhile is
        examined as often as it occurs; what remains is exactly what was kept, in that order. */
    method CloseOldSessions(w: World) returns (looked: seq<Conn>, closed: seq<Conn>, k: nat)
      modifies this
      ensures multiset(looked) == multiset(old(connections)) + multiset(Arrived(w, k))
      ensures connections == Verdicts(w, looked, false)
      ensures closed == Verdicts(w, looked, true) && k == |closed|
    {
      hide Verdicts, Arrived, Balanced;
      ghost var there := connections;
      looked, closed, k := [], [], 0;
      var i := 0;
      NothingYet(w);
      BalancedAtStart(there);
      while i < |connections|
        invariant 0 <= i <= |connections| && k == |closed|
        invariant connections[..i] == Verdicts(w, looked, false)
        invariant closed == Verdicts(w, looked, true)
        invariant Balanced(looked, connections[i..], there, Arrived(w, k))
        decreases if k < |w.arrivals| then |w.arrivals| - k else 0, |connections| - i
      {
        var conn := connections[i];
        var opt, age := w.probe(|looked|, conn), w.age(|looked|, conn);
        VerdictsAppend(w, looked, conn, true);
        VerdictsAppend(w, looked, conn, false);
        LookOne(looked, connections, i, there, Arrived(w, k));
        assert connections[..i + 1] == connections[..i] + [conn];
        ghost var seen, rest := looked, connections[i..];
        looked := looked + [conn];
        if opt.Busy? {
          i := i + 1;
          continue;
        }
        if opt.Inactive? || age >= w.maxAge {
          conn := TakeOut(i, w, k);
          closed := closed + [conn];
          ArrivedNext(w, k);
          MoveOne(seen, rest, connections[i..], there, Arrived(w, k), ArrivedAt(w, k), conn);
          k := k + 1;
          if i > |connections| {
            i := |connections|;
          }
        } else {
          i := i + 1;
        }
      }
      assert connections[..i] == connections && connections[i..] == [];
      BalancedAtEnd(looked, there, Arrived(w, k));
    }
  }

  /** What has been looked at and what is still to come is what was there and what arrived. */
  ghost predicate Balanced(looked: seq<Conn>, rest: seq<Conn>, there: seq<Conn>, arrived: seq<Conn>) {
    multiset(looked) + multiset(rest) == multiset(there) + multiset(arrived)
  }

  lemma BalancedAtStart(there: seq<Conn>)
    ensures Balanced([], there[0..], there, [])
  {
    assert there[0..] == there;
  }

  lemma BalancedAtEnd(looked: seq<Conn>, there: seq<Conn>, arrived: seq<Conn>)
    requires Balanced(looked, [], there, arrived)
    ensures multiset(looked) == multiset(there) + multiset(arrived)
  {
  }

  lemma LookOne(looked: seq<Conn>, all: seq<Conn>, i: nat, there: seq<Conn>, arrived: seq<Conn>)
    requires i < |all| && Balanced(looked, all[i..], there, arrived)
    ensures Balanced(looked + [all[i]], all[i + 1..], there, arrived)
  {
    assert all[i..] == [all[i]] + all[i + 1..];
    assert multiset(looked + [all[i]]) == multiset(looked) + multiset{all[i]};
  }

  lemma MoveOne(looked: seq<Conn>, rest: seq<Conn>, rest': seq<Conn>, there: seq<Conn>, arrived: seq<Conn>,
                more: seq<Conn>, c: Conn)
    requires Balanced(looked, rest, there, arrived)
    requires multiset(rest') + multiset{c} == multiset(rest) + multiset(more)
    ensures Balanced(looked + [c], rest', there, arrived + more)
  {
    assert multiset(arrived + more) == multiset(arrived) + multiset(more);
    assert multiset(looked + [c]) == multiset(looked) + multiset{c};
    forall x
      ensures (multiset(looked + [c]) + multiset(rest'))[x] == (multiset(there) + multiset(arrived + more))[x]
    {
      assert (multiset(looked) + multiset(rest))[x] == (multiset(there) + multiset(arrived))[x];
      assert (multiset(rest') + multiset{c})[x] == (multiset(rest) + multiset(more))[x];
    }
  }

  lemma NothingYet(w: World)
    ensures Verdicts(w, [], true) == Verdicts(w, [], false) == Arrived(w, 0) == []
  {
  }

  /** If all connections are different, none is looked at twice, and closed and kept ones part them. */
  lemma LookedAtOnce(looked: seq<Conn>, there: seq<Conn>, arrived: seq<Conn>)
    requires multiset(looked) == multiset(there) + multiset(arrived)
    requires forall c :: multiset(there)[c] + multiset(arrived)[c] <= 1
    ensures forall i, j :: 0 <= i < j < |looked| ==> looked[i] != looked[j]
    ensures forall c :: c in there || c in arrived <==> c in looked
  {
    forall i, j | 0 <= i < j < |looked| ensures looked[i] != looked[j] {
      assert looked == looked[..j] + [looked[j]] + looked[j + 1..];
      assert looked[..j][i] == looked[i] && multiset(looked[..j])[looked[i]] >= 1;
      assert multiset(looked)[looked[i]] <= 1;
    }
    forall c ensures c in there || c in arrived <==> c in looked {
      assert c in looked <==> c in multiset(looked);
    }
  }

  /** Every connection looked at is either closed or kept: nothing is lost. */
  lemma {:induction false} VerdictsPart(w: World, looked: seq<Conn>)
    ensures multiset(looked) == multiset(Verdicts(w, looked, true)) + multiset(Verdicts(w, looked, false))
  {
    if looked == [] {
      NothingYet(w);
    } else {
      hide Verdicts;
      var init, c := looked[..|looked| - 1], looked[|looked| - 1];
      VerdictsPart(w, init);
      assert looked == init + [c];
      VerdictsAppend(w, init, c, true);
      VerdictsAppend(w, init, c, false);
      PartOne(multiset(init), Verdicts(w, init, true), Verdicts(w, init, false), c);
    }
  }

  lemma PartOne(m: multiset<Conn>, xs: seq<Conn>, ys: seq<Conn>, c: Conn)
    requires m == multiset(xs) + multiset(ys)
    ensures m + multiset{c} == multiset(xs + [c]) + multiset(ys) == multiset(xs) + multiset(ys + [c])
  {
    forall x
      ensures (m + multiset{c})[x] == (multiset(xs + [c]) + multiset(ys))[x] == (multiset(xs) + multiset(ys + [c]))[x]
    {
      assert multiset(xs + [c]) == multiset(xs) + multiset{c} && multiset(ys + [c]) == multiset(ys) + multiset{c};
    }
  }

  /** Every survivor had been found busy, or open and younger than the limit. */
  lemma {:induction false} SurvivorsWereBusyOrYoung(w: World, looked: seq<Conn>, c: Conn) returns (n: nat)
    requires c in Verdicts(w, looked, false)
    ensures n < |looked| && looked[n] == c
    ensures w.probe(n, c).Busy? || (w.probe(n, c).Active? && w.age(n, c) < w.maxAge)
  {
    n := |looked| - 1;
    if c in Verdicts(w, looked[..n], false) {
      n := SurvivorsWereBusyOrYoung(w, looked[..n], c);
    }
  }

  /** Every closed connection had been found inactive, or active and as old as the limit. */
  lemma {:induction false} ClosedWereInactiveOrOld(w: World, looked: seq<Conn>, c: Conn) returns (n: nat)
    requires c in Verdicts(w, looked, true)
    ensures n < |looked| && looked[n] == c
    ensures w.probe(n, c).Inactive? || (w.probe(n, c).Active? && w.age(n, c) >= w.maxAge)
  {
    n := |looked| - 1;
    if c in Verdicts(w, looked[..n], true) {
      n := ClosedWereInactiveOrOld(w, looked[..n], c);
    }
  }

  /** Look by look: a connection is kept if and only if it was busy, or active and young. */
  lemma {:induction false} VerdictsByLook(w: World, looked: seq<Conn>, n: nat)
    requires n < |looked|
    ensures looked[n] in Verdicts(w, looked, Closes(w, n, looked[n]))
    ensures Closes(w, n, looked[n]) <==>
            !(w.probe(n, looked[n]).Busy? || (w.probe(n, looked[n]).Active? && w.age(n, looked[n]) < w.maxAge))
  {
    if n < |looked| - 1 {
      VerdictsByLook(w, looked[..|looked| - 1], n);
    }
  }

  /** What has arrived in the first `k` suspensions is what came in any of them. */
  lemma {:induction false} FlattenHas(css: seq<seq<Conn>>, c: Conn)
    ensures c in Flatten(css) <==> exists j :: 0 <= j < |css| && c in css[j]
  {
    if css != [] {
      var init := css[..|css| - 1];
      FlattenHas(init, c);
      if j :| 0 <= j < |css| && c in css[j] {
        assert j < |init| ==> c in init[j];
      }
      if j :| 0 <= j < |init| && c in init[j] {
        assert c in css[j];
      }
    }
  }

  lemma ArrivedHas(w: World, k: nat, c: Conn)
    ensures c in Arrived(w, k) <==> exists j :: 0 <= j < k && c in ArrivedAt(w, j)
  {
    var part := if k <= |w.arrivals| then w.arrivals[..k] else w.arrivals;
    FlattenHas(part, c);
    if j :| 0 <= j < |part| && c in part[j] { assert c in ArrivedAt(w, j); }
    if j :| 0 <= j < k && c in ArrivedAt(w, j) { assert c in part[j]; }
  }
}
