/** The pool of client addresses 10.123.x.y (`SessionsControl::getNewAddress` and the release at
    the end of `startConnection`): a 16-bit counter that walks the host numbers 2..65534 in a
    circle, and the set of addresses in use. */
module AddressPool {
  import opened Cipher
  import opened Wrappers

  const ADDRESS_BEGIN: nat := 0x0A7B_0000   // 10.123.0.0
  const COUNTER_MAX: nat := 0xFFFF
  const FIRST_HOST: nat := 2
  const LAST_HOST: nat := 65534
  const HOSTS: nat := 65533

  predicate IsHost(h: int) { FIRST_HOST <= h <= LAST_HOST }

  /** The address of a host number. The program joins the two halves with a bitwise or, which is a
      sum here (`AddressIsOr`). */
  function AddressOf(h: nat): nat { ADDRESS_BEGIN + h }

  lemma OrIsSum(h: bv32)
    requires h <= 0xFFFF
    ensures ((10 << 24) | (123 << 16)) | h == 0x0A7B_0000 + h
  {
  }

  /** The number of the address a.b.c.d. */
  function Dotted(a: nat, b: nat, c: nat, d: nat): nat { a * 0x100_0000 + b * 0x1_0000 + c * 0x100 + d }

  lemma LowBit(n: nat)
    ensures Bit(n, 0) <==> n % 2 == 1
  {
    assert Pow2(0) == 1;
  }

  lemma ZeroBits(k: nat)
    ensures !Bit(0, k)
  {
    assert 0 / Pow2(k) == 0;
  }

  /** The bits of a sum whose terms have no bit in common: one is a multiple of a power of two that
      the other is below. */
  lemma {:induction false} DisjointBits(m: nat, n: nat, h: nat, k: nat)
    requires h < Pow2(n)
    ensures Bit(Pow2(n) * m + h, k) <==> Bit(Pow2(n) * m, k) || Bit(h, k)
    decreases n
  {
    hide Bit;
    if n == 0 {
      ZeroBits(k);
    } else {
      var b := Pow2(n - 1) * m;
      assert Pow2(n) * m == 2 * b;
      LowBit(2 * b + h);
      LowBit(2 * b);
      LowBit(h);
      if k > 0 {
        DisjointBits(m, n - 1, h / 2, k - 1);
        BitOfHalf(2 * b + h, k);
        BitOfHalf(2 * b, k);
        BitOfHalf(h, k);
      }
    }
  }

  /** The address of a 16-bit host number is the bitwise or of subnet and host number. */
  lemma AddressIsOr(h: nat, k: nat)
    requires h <= COUNTER_MAX
    ensures Bit(AddressOf(h), k) <==> Bit(Dotted(10, 123, 0, 0), k) || Bit(h, k)
  {
    assert Pow2(8) == 0x100 && Pow2(16) == 0x1_0000;
    DisjointBits(10 * 0x100 + 123, 16, h, k);
  }

  /** Where the counter stands `k` increments after standing at `c`. */
  function At(c: int, k: int): int { FIRST_HOST + (c - FIRST_HOST + k) % HOSTS }

  /** The number of increments, 1..HOSTS, that take the counter from `c` to the host `h`. */
  function Distance(c: int, h: int): int { (h - c - 1) % HOSTS + 1 }

  lemma AtAt(c: int, j: int, k: int)
    ensures At(At(c, j), k) == At(c, j + k)
  {
    var x := c - FIRST_HOST + j;
    assert x == HOSTS * (x / HOSTS) + x % HOSTS;
    ModShift(x % HOSTS + k, x / HOSTS);
  }

  lemma ModShift(x: int, q: int)
    ensures (x + HOSTS * q) % HOSTS == x % HOSTS
  {
  }

  lemma NextAt(start: nat, k: nat, c: nat)
    requires 1 <= start <= LAST_HOST && c == if k == 0 then start else At(start, k)
    ensures (if c + 1 == COUNTER_MAX then 2 else c + 1) == At(start, k + 1)
  {
    if k > 0 { AtAt(start, k, 1); }
  }

  lemma AtDistance(c: int, h: int)
    requires IsHost(h)
    ensures At(c, Distance(c, h)) == h
    ensures forall k :: 1 <= k < Distance(c, h) ==> At(c, k) != h
  {
    var x := h - c - 1;
    var d := Distance(c, h);
    assert x == HOSTS * (x / HOSTS) + x % HOSTS;
    assert c - FIRST_HOST + d == h - FIRST_HOST + HOSTS * (-(x / HOSTS));
    ModShift(h - FIRST_HOST, -(x / HOSTS));
    forall k | 1 <= k < d ensures At(c, k) != h {
      assert c - FIRST_HOST + k == (h - FIRST_HOST - (d - k)) + HOSTS * (-(x / HOSTS));
      ModShift(h - FIRST_HOST - (d - k), -(x / HOSTS));
    }
  }

  /** No more increments than it takes are counted. */
  lemma DistanceOfAt(c: int, k: int)
    requires k >= 1
    ensures IsHost(At(c, k)) && Distance(c, At(c, k)) <= k
  {
    AtDistance(c, At(c, k));
  }

  /** A grant from the pool (`counter`, `used`) may yield host `h`: it is free, and every host the
      counter passes on the way is in use. */
  ghost predicate MayGrant(counter: nat, used: set<nat>, h: nat) {
    && IsHost(h) && AddressOf(h) !in used
    && forall k :: 1 <= k < Distance(counter, h) ==> AddressOf(At(counter, k)) in used
  }

  /** All hosts up to `k` increments on are in use. */
  ghost predicate AllUsed(counter: nat, used: set<nat>, k: nat) {
    forall j :: 1 <= j <= k ==> AddressOf(At(counter, j)) in used
  }

  lemma FirstFree(start: nat, used: set<nat>, k: nat, h: nat)
    requires k >= 1 && AllUsed(start, used, k - 1) && h == At(start, k) && AddressOf(h) !in used
    ensures MayGrant(start, used, h) && Distance(start, h) <= k && Distance(start, h) <= HOSTS
  {
    DistanceOfAt(start, k);
  }

  lemma NoneWithin(start: nat, used: set<nat>, k: nat)
    requires AllUsed(start, used, k)
    ensures forall h: nat :: IsHost(h) && AddressOf(h) !in used ==> Distance(start, h) > k && HOSTS > k
  {
    forall h: nat | IsHost(h) && AddressOf(h) !in used ensures Distance(start, h) > k && HOSTS > k {
      AtDistance(start, h);
    }
  }

  lemma HostIsInRange(h: nat)
    requires IsHost(h)
    ensures Dotted(10, 123, 0, 2) <= AddressOf(h) <= Dotted(10, 123, 255, 254)
  {
  }

  class Pool {
    var counter: nat
    var used: set<nat>

    ghost predicate Valid()
      reads this
    {
      1 <= counter <= LAST_HOST
    }

    constructor ()
      ensures Valid() && counter == 1 && used == {}
    {
      counter, used := 1, {};
    }

    /** The first `limit` turns of the search; `None` if it has not ended by then. It ends within
        them if and only if a free host is no further away, so within one round if and only if any
        host is free. */
    method GetNewAddress(limit: nat) returns (r: Option<nat>)
      requires Valid()
      modifies this
      ensures Valid()
      ensures r.Some? <==>
                exists h: nat :: IsHost(h) && AddressOf(h) !in old(used) && Distance(old(counter), h) <= limit
      ensures limit >= HOSTS ==> (r.Some? <==> exists h: nat :: IsHost(h) && AddressOf(h) !in old(used))
      ensures r.Some? ==> && MayGrant(old(counter), old(used), counter)
                          && r.value == AddressOf(counter) && used == old(used) + {r.value}
      ensures r.Some? ==> Dotted(10, 123, 0, 2) <= r.value <= Dotted(10, 123, 255, 254)
      ensures r.None? ==> used == old(used) && counter == if limit == 0 then old(counter) else At(old(counter), limit)
    {
      ghost var start := counter;
      var walked := 0;
      hide At, Distance, AddressOf;
      while walked < limit
        invariant Valid() && used == old(used) && walked <= limit
        invariant counter == if walked == 0 then start else At(start, walked)
        invariant AllUsed(start, used, walked)
      {
        NextAt(start, walked, counter);
        assert counter + 1 <= COUNTER_MAX;
        counter := counter + 1;
        if counter == COUNTER_MAX {
          counter := 2;
        }
        walked := walked + 1;
        var address := AddressOf(counter);
        if address !in used {
          FirstFree(start, used, walked, counter);
          used := used + {address};
          HostIsInRange(counter);
          return Some(address);
        }
      }
      NoneWithin(start, used, limit);
      r := None;
    }

    method Release(address: nat)
      requires Valid()
      modifies this
      ensures Valid() && counter == old(counter) && used == old(used) - {address}
    {
      used := used - {address};
    }
  }

  // ----------------------------------------------------------------------------------------
  // Sequences of grants and releases
  // ----------------------------------------------------------------------------------------

  datatype PoolState = PoolState(counter: nat, used: set<nat>)

  ghost predicate IsGrant(p: PoolState, q: PoolState) {
    MayGrant(p.counter, p.used, q.counter) && q.used == p.used + {AddressOf(q.counter)}
  }

  ghost predicate IsRelease(p: PoolState, q: PoolState) {
    q.counter == p.counter && q.used <= p.used
  }

  /** States of a pool, each produced from the one before by a grant or a release. */
  ghost predicate IsTrace(ps: seq<PoolState>) {
    && (forall i :: 0 <= i < |ps| ==> 1 <= ps[i].counter <= LAST_HOST)
    && (forall i :: 0 <= i < |ps| - 1 ==> IsGrant(ps[i], ps[i + 1]) || IsRelease(ps[i], ps[i + 1]))
  }

  /** Grant `m` of the trace grants host `x`, or passes it in its search and sees its address in use. */
  ghost predicate GrantsOrSees(ps: seq<PoolState>, m: nat, x: int) {
    && m + 1 < |ps| && IsGrant(ps[m], ps[m + 1])
    && IsHost(x) && Distance(ps[m].counter, x) <= Distance(ps[m].counter, ps[m + 1].counter)
    && (ps[m + 1].counter == x || AddressOf(x) in ps[m].used)
  }

  /** How far the counter travels from state `i` to state `j`. */
  ghost function Travel(ps: seq<PoolState>, i: nat, j: nat): int
    requires i <= j < |ps|
  {
    if i == j then 0
    else Travel(ps, i, j - 1) + (if IsGrant(ps[j - 1], ps[j]) then Distance(ps[j - 1].counter, ps[j].counter) else 0)
  }

  lemma {:induction false} TravelMoves(ps: seq<PoolState>, i: nat, j: nat)
    requires IsTrace(ps) && i <= j < |ps| && IsHost(ps[i].counter)
    ensures Travel(ps, i, j) >= 0 && At(ps[i].counter, Travel(ps, i, j)) == ps[j].counter
  {
    if i < j {
      TravelMoves(ps, i, j - 1);
      if IsGrant(ps[j - 1], ps[j]) {
        AtDistance(ps[j - 1].counter, ps[j].counter);
        AtAt(ps[i].counter, Travel(ps, i, j - 1), Distance(ps[j - 1].counter, ps[j].counter));
      }
    }
  }

  /** A grant has granted or seen the host `k` increments on, if it went that far. */
  lemma GrantCovers(ps: seq<PoolState>, m: nat, k: int)
    requires m + 1 < |ps| && IsGrant(ps[m], ps[m + 1]) && 1 <= k <= Distance(ps[m].counter, ps[m + 1].counter)
    ensures GrantsOrSees(ps, m, At(ps[m].counter, k))
  {
    AtDistance(ps[m].counter, ps[m + 1].counter);
    DistanceOfAt(ps[m].counter, k);
    hide At, Distance;
  }

  /** Every place the counter passes is granted or seen in use by some grant on the way. */
  lemma {:induction false} TravelCovers(ps: seq<PoolState>, i: nat, j: nat, k: int) returns (m: nat)
    requires IsTrace(ps) && i <= j < |ps| && IsHost(ps[i].counter)
    requires 1 <= k <= Travel(ps, i, j)
    ensures i <= m < j && GrantsOrSees(ps, m, At(ps[i].counter, k))
  {
    var c, t := ps[i].counter, Travel(ps, i, j - 1);
    if k <= t {
      m := TravelCovers(ps, i, j - 1, k);
    } else {
      m := j - 1;
      TravelMoves(ps, i, m);
      AtAt(c, t, k - t);
      GrantCovers(ps, m, k - t);
    }
  }

  /** Address reuse distance: between two grants of the same host number, every other host number
      has been granted or seen in use, whatever is released in between. */
  lemma ReuseDistance(ps: seq<PoolState>, i: nat, j: nat, x: nat) returns (m: nat)
    requires IsTrace(ps) && i < j < |ps| - 1
    requires IsGrant(ps[i], ps[i + 1]) && IsGrant(ps[j], ps[j + 1])
    requires ps[i + 1].counter == ps[j + 1].counter
    requires IsHost(x)
    ensures i < m <= j && GrantsOrSees(ps, m, x)
  {
    var h := ps[i + 1].counter;
    var t := Travel(ps, i + 1, j + 1);
    TravelMoves(ps, i + 1, j + 1);
    TravelMoves(ps, i + 1, j);
    FullTurn(h, t);
    AtDistance(h, x);
    m := TravelCovers(ps, i + 1, j + 1, Distance(h, x));
  }

  /** A counter that travels and comes back to a host has gone all the way round. */
  lemma FullTurn(h: nat, t: int)
    requires IsHost(h) && t >= 1 && At(h, t) == h
    ensures t >= HOSTS
  {
  }

  /** When every host is in use, no number of increments leads to a free one: the search for a
      new address does not end. */
  lemma NoFreeHostNoGrant(c: nat, used: set<nat>, k: nat)
    requires forall h: nat :: IsHost(h) ==> AddressOf(h) in used
    ensures AddressOf(At(c, k)) in used
  {
    assert IsHost(At(c, k));
  }
}
