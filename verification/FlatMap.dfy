/** A map kept as two parallel vectors, keys in increasing order (`flat_map.hpp`). Integers stand
    for the strongly ordered key type. */
module FlatMap {
  import opened Wrappers

  datatype Error = KeyExists | NoSuchKey | Empty

  const SIZE_MODULUS: nat := 0x1_0000_0000_0000_0000

  /** Subtraction on the program's unsigned sizes. */
  function Minus(a: nat, b: nat): nat
    requires a < SIZE_MODULUS && b < SIZE_MODULUS
  {
    (a - b) % SIZE_MODULUS
  }

  predicate Increasing(keys: seq<int>) {
    forall i, j :: 0 <= i < j < |keys| ==> keys[i] < keys[j]
  }

  /** The map that the two vectors stand for. */
  function ToMap<V>(keys: seq<int>, vals: seq<V>): map<int, V>
    requires |keys| == |vals|
  {
    if keys == [] then map[] else ToMap(keys[1..], vals[1..])[keys[0] := vals[0]]
  }

  lemma {:induction false} ToMapKeys<V>(keys: seq<int>, vals: seq<V>)
    requires |keys| == |vals|
    ensures forall k :: k in ToMap(keys, vals) <==> k in keys
  {
    if keys != [] {
      ToMapKeys(keys[1..], vals[1..]);
      assert keys == [keys[0]] + keys[1..];
    }
  }

  lemma {:induction false} ToMapAt<V>(keys: seq<int>, vals: seq<V>, i: nat)
    requires |keys| == |vals| && Increasing(keys) && i < |keys|
    ensures keys[i] in ToMap(keys, vals) && ToMap(keys, vals)[keys[i]] == vals[i]
  {
    if i > 0 {
      ToMapAt(keys[1..], vals[1..], i - 1);
    }
  }

  /** Increasing vectors represent a map in one way only. */
  lemma ToMapUnique<V>(keys: seq<int>, vals: seq<V>, m: map<int, V>)
    requires |keys| == |vals| && Increasing(keys)
    requires (forall k :: k in keys ==> k in m) && (forall k :: k in m ==> k in keys)
    requires forall i :: 0 <= i < |keys| ==> keys[i] in m && m[keys[i]] == vals[i]
    ensures ToMap(keys, vals) == m
  {
    hide ToMap;
    ToMapKeys(keys, vals);
    forall k | k in m ensures ToMap(keys, vals)[k] == m[k] {
      var i :| 0 <= i < |keys| && keys[i] == k;
      ToMapAt(keys, vals, i);
    }
    assert ToMap(keys, vals).Keys == m.Keys by {
      forall k ensures k in ToMap(keys, vals) <==> k in m {}
    }
  }

  function InsertAt<T>(s: seq<T>, i: nat, x: T): seq<T>
    requires i <= |s|
  {
    s[..i] + [x] + s[i..]
  }

  function EraseAt<T>(s: seq<T>, i: nat): seq<T>
    requires i < |s|
  {
    s[..i] + s[i + 1..]
  }

  lemma InsertAtElements(s: seq<int>, i: nat, x: int)
    requires i <= |s| && Increasing(s)
    requires forall j :: 0 <= j < i ==> s[j] < x
    requires forall j :: i <= j < |s| ==> x < s[j]
    ensures Increasing(InsertAt(s, i, x))
    ensures forall k :: k in InsertAt(s, i, x) <==> k == x || k in s
  {
    assert s == s[..i] + s[i..];
  }

  lemma EraseAtElements(s: seq<int>, i: nat)
    requires i < |s| && Increasing(s)
    ensures Increasing(EraseAt(s, i))
    ensures forall k :: k in EraseAt(s, i) <==> k != s[i] && k in s
  {
    assert s == s[..i] + [s[i]] + s[i + 1..];
    forall j | 0 <= j < |EraseAt(s, i)| ensures EraseAt(s, i)[j] != s[i] {
      assert EraseAt(s, i)[j] == if j < i then s[j] else s[j + 1];
    }
  }

  lemma InsertRefines<V>(keys: seq<int>, vals: seq<V>, i: nat, key: int, value: V)
    requires |keys| == |vals| && Increasing(keys) && i <= |keys|
    requires forall j :: 0 <= j < i ==> keys[j] < key
    requires forall j :: i <= j < |keys| ==> key < keys[j]
    ensures Increasing(InsertAt(keys, i, key)) && |InsertAt(keys, i, key)| == |InsertAt(vals, i, value)|
    ensures ToMap(InsertAt(keys, i, key), InsertAt(vals, i, value)) == ToMap(keys, vals)[key := value]
  {
    hide ToMap, Increasing;
    var keys', vals' := InsertAt(keys, i, key), InsertAt(vals, i, value);
    var m := ToMap(keys, vals)[key := value];
    ToMapKeys(keys, vals);
    InsertAtElements(keys, i, key);
    forall j | 0 <= j < |keys'| ensures keys'[j] in m && m[keys'[j]] == vals'[j] {
      if j == i {
        assert keys'[j] == key && vals'[j] == value;
      } else {
        var l := if j < i then j else j - 1;
        ToMapAt(keys, vals, l);
        assert keys'[j] == keys[l] && vals'[j] == vals[l] && keys[l] != key;
      }
    }
    ToMapUnique(keys', vals', m);
  }

  lemma EraseRefines<V>(keys: seq<int>, vals: seq<V>, i: nat)
    requires |keys| == |vals| && Increasing(keys) && i < |keys|
    ensures Increasing(EraseAt(keys, i)) && |EraseAt(keys, i)| == |EraseAt(vals, i)|
    ensures ToMap(EraseAt(keys, i), EraseAt(vals, i)) == ToMap(keys, vals) - {keys[i]}
  {
    hide ToMap, Increasing;
    var keys', vals' := EraseAt(keys, i), EraseAt(vals, i);
    var m := ToMap(keys, vals) - {keys[i]};
    ToMapKeys(keys, vals);
    EraseAtElements(keys, i);
    forall j | 0 <= j < |keys'| ensures keys'[j] in m && m[keys'[j]] == vals'[j] {
      var l := if j < i then j else j + 1;
      ToMapAt(keys, vals, l);
      assert keys'[j] == keys[l] && vals'[j] == vals[l];
    }
    ToMapUnique(keys', vals', m);
  }

  class Map<V> {
    var keys: seq<int>
    var vals: seq<V>

    ghost predicate Valid()
      reads this
    {
      |keys| == |vals| < SIZE_MODULUS && Increasing(keys)
    }

    ghost function Contents(): map<int, V>
      requires Valid()
      reads this
    {
      ToMap(keys, vals)
    }

    constructor ()
      ensures Valid() && Contents() == map[]
    {
      keys, vals := [], [];
    }

    /** The program asserts that the map is not empty. */
    method BinarySearch(key: int) returns (r: Option<nat>)
      requires Valid() && keys != []
      ensures r.Some? ==> r.value < |keys| && keys[r.value] == key
      ensures r.None? <==> key !in Contents()
    {
      hide ToMap;
      ToMapKeys(keys, vals);
      var lowId, highId := 0, |keys| - 1;
      while lowId <= highId
        invariant 0 <= lowId <= |keys| && 0 <= highId < |keys|
        invariant forall i :: 0 <= i < lowId ==> keys[i] < key
        invariant forall i :: highId < i < |keys| ==> key < keys[i]
        decreases highId - lowId
      {
        var mid := lowId + (highId - lowId) / 2;
        if keys[mid] == key {
          return Some(mid);
        }
        if keys[mid] < key {
          lowId := mid + 1;
        } else {
          highId := Minus(mid, 1);   // wraps around when mid is 0
          if mid == 0 {
            break;
          }
        }
        if lowId == highId {
          if keys[lowId] == key {
            return Some(lowId);
          }
          break;
        }
      }
      r := None;
    }

    method At(key: int) returns (r: Result<V, Error>)
      requires Valid() && keys != []
      ensures r == if key in Contents() then Ok(Contents()[key]) else Err(NoSuchKey)
    {
      var opt := BinarySearch(key);
      if opt.None? {
        return Err(NoSuchKey);
      }
      ToMapAt(keys, vals, opt.value);
      r := Ok(vals[opt.value]);
    }

    method Contains(key: int) returns (r: bool)
      requires Valid() && keys != []
      ensures r == (key in Contents())
    {
      var opt := BinarySearch(key);
      r := opt.Some?;
    }

    method Insert(key: int, value: V) returns (r: Result<Unit, Error>)
      requires Valid() && |keys| + 1 < SIZE_MODULUS
      modifies this
      ensures Valid()
      ensures r == if key in old(Contents()) then Err(KeyExists) else Ok(Unit)
      ensures Contents() == if key in old(Contents()) then old(Contents()) else old(Contents())[key := value]
    {
      hide ToMap;
      ToMapKeys(keys, vals);
      var index := 0;
      while index < |keys|
        invariant 0 <= index <= |keys|
        invariant forall i :: 0 <= i < index ==> keys[i] < key
      {
        if key > keys[index] {
          index := index + 1;
        } else if key == keys[index] {
          return Err(KeyExists);
        } else {
          break;
        }
      }
      InsertRefines(keys, vals, index, key, value);
      vals := InsertAt(vals, index, value);
      keys := InsertAt(keys, index, key);
      r := Ok(Unit);
    }

    method Remove(key: int) returns (r: Result<Unit, Error>)
      requires Valid()
      modifies this
      ensures Valid()
      ensures r == if key in old(Contents()) then Ok(Unit)
                   else if old(Contents()) == map[] then Err(Empty)
                   else Err(NoSuchKey)
      ensures Contents() == old(Contents()) - {key}
    {
      if |keys| == 0 {
        return Err(Empty);
      }
      assert keys[0] in Contents();
      var opt := BinarySearch(key);
      if opt.None? {
        return Err(NoSuchKey);
      }
      var index := opt.value;
      ToMapAt(keys, vals, index);
      EraseRefines(keys, vals, index);
      vals := EraseAt(vals, index);
      keys := EraseAt(keys, index);
      r := Ok(Unit);
    }

    /** Looks through the first `tryFindFaster` entries before searching. */
    method AtTryFirst(tryFindFaster: nat, key: int) returns (r: Result<V, Error>)
      requires Valid() && keys != [] && tryFindFaster <= |keys|
      ensures r == if key in Contents() then Ok(Contents()[key]) else Err(NoSuchKey)
    {
      for i := 0 to tryFindFaster {
        if key == keys[i] {
          ToMapAt(keys, vals, i);
          return Ok(vals[i]);
        }
      }
      r := At(key);
    }
  }
}
