/**
 * Shared vocabulary of the elevator simulator model: optional values, the
 * exceptions the Python code can raise, travel directions, and a few
 * sequence helpers used by every other module.
 */
module Common {

  datatype Option<T> = None | Some(value: T) {
    function GetOr(default: T): T {
      match this
      case Some(v) => v
      case None => default
    }
  }

  /** The exceptions the simulator can raise out of a tick. */
  datatype Fault =
    | KeyError(key: int)   // a floor that is not a key of `waiting_queues`
    | IndexError           // `elevators[0]` on an empty elevator list
    | ValueError           // `min([])`, or `list.remove` of an absent element

  /** How a tick step ends: normally, or by an exception that unwinds the loop. */
  datatype Outcome = Done | Raised(fault: Fault)

  /** An elevator's travel direction (the strings "up", "down", "idle"). */
  datatype Direction = Up | Down | Idle

  function Abs(x: real): (r: real)
    ensures r >= 0.0 && (r == x || r == -x)
  {
    if x < 0.0 then -x else x
  }

  /** Python's `int(x)` on a float: truncation toward zero. */
  function Trunc(x: real): (n: int)
    ensures 0.0 <= x ==> n as real <= x < n as real + 1.0
    ensures x < 0.0 ==> n as real - 1.0 < x <= n as real
  {
    if x >= 0.0 then x.Floor else -((-x).Floor)
  }

  /** Python truthiness of an optional float timestamp: set and non-zero. */
  predicate Truthy(t: Option<real>) {
    t.Some? && t.value != 0.0
  }

  predicate NoDup<T(==)>(s: seq<T>) {
    forall i, j :: 0 <= i < j < |s| ==> s[i] != s[j]
  }

  /** The elements of a sequence, as a set. */
  function Elems<T>(s: seq<T>): set<T> {
    set x | x in s
  }

  /** Python's `list.remove(x)` when `x` is present: drop the first occurrence. */
  function RemoveFirst<T(==)>(s: seq<T>, x: T): (r: seq<T>)
    ensures x !in s ==> r == s
    ensures x in s ==> multiset(r) == multiset(s) - multiset{x}
    ensures x in s ==> |r| == |s| - 1
  {
    if s == [] then []
    else
      assert s == [s[0]] + s[1..];
      if s[0] == x then s[1..] else [s[0]] + RemoveFirst(s[1..], x)
  }

  function Filter<T(!new)>(s: seq<T>, keep: T -> bool): (r: seq<T>)
    ensures |r| <= |s|
    ensures forall x :: x in r <==> x in s && keep(x)
  {
    if s == [] then []
    else if keep(s[0]) then [s[0]] + Filter(s[1..], keep)
    else Filter(s[1..], keep)
  }

  lemma {:induction false} FilterAppend<T(!new)>(a: seq<T>, b: seq<T>, keep: T -> bool)
    ensures Filter(a + b, keep) == Filter(a, keep) + Filter(b, keep)
  {
    if a == [] {
      assert a + b == b;
    } else {
      var ab := a + b;
      assert ab[0] == a[0] && ab[1..] == a[1..] + b;
      FilterAppend(a[1..], b, keep);
      if keep(a[0]) {
        assert Filter(ab, keep) == [a[0]] + Filter(ab[1..], keep);
        assert Filter(a, keep) == [a[0]] + Filter(a[1..], keep);
      } else {
        assert Filter(ab, keep) == Filter(ab[1..], keep);
        assert Filter(a, keep) == Filter(a[1..], keep);
      }
    }
  }

  lemma FilterSingle<T(!new)>(x: T, keep: T -> bool)
    ensures Filter([x], keep) == if keep(x) then [x] else []
  {
    assert [x][1..] == [];
  }

  lemma FilterSnoc<T(!new)>(s: seq<T>, x: T, keep: T -> bool)
    ensures Filter(s + [x], keep) == Filter(s, keep) + (if keep(x) then [x] else [])
  {
    FilterAppend(s, [x], keep);
    FilterSingle(x, keep);
  }

  /** What `keep` accepts and what it rejects make up the whole sequence. */
  lemma {:induction false} FilterSplit<T(!new)>(s: seq<T>, keep: T -> bool, drop: T -> bool)
    requires forall x :: drop(x) == !keep(x)
    ensures |Filter(s, keep)| + |Filter(s, drop)| == |s|
  {
    if s != [] {
      FilterSplit(s[1..], keep, drop);
    }
  }

  /** `list.remove` only ever drops elements. */
  lemma RemoveFirstIn<T>(s: seq<T>, x: T)
    ensures forall y :: y in RemoveFirst(s, x) ==> y in s
  {
    forall y | y in RemoveFirst(s, x) ensures y in s {
      if x in s {
        assert multiset(RemoveFirst(s, x))[y] <= multiset(s)[y];
      }
    }
  }

  /** Removing an element that is first present in the suffix leaves the prefix alone. */
  lemma {:induction false} RemoveFirstAppend<T>(a: seq<T>, b: seq<T>, x: T)
    requires x !in a
    ensures RemoveFirst(a + b, x) == a + RemoveFirst(b, x)
  {
    if a != [] {
      assert (a + b)[0] == a[0];
      assert (a + b)[1..] == a[1..] + b;
      RemoveFirstAppend(a[1..], b, x);
    } else {
      assert a + b == b;
    }
  }

  /** The multiset count of an element in a duplicate-free sequence is at most one. */
  lemma {:induction false} NoDupCount<T>(s: seq<T>, x: T)
    requires NoDup(s)
    ensures multiset(s)[x] <= 1
  {
    if s != [] {
      assert s == [s[0]] + s[1..];
      NoDupCount(s[1..], x);
      if s[0] == x {
        assert x !in s[1..];
      }
    }
  }

  /** A sequence whose multiset is contained in that of a duplicate-free one is duplicate-free. */
  lemma NoDupSubMultiset<T>(a: seq<T>, b: seq<T>)
    requires NoDup(a) && multiset(b) <= multiset(a)
    ensures NoDup(b)
  {
    forall i, j | 0 <= i < j < |b| ensures b[i] != b[j] {
      if b[i] == b[j] {
        var x := b[i];
        assert b == b[..j] + b[j..];
        assert x in b[..j];
        assert x in b[j..];
        assert multiset(b)[x] == multiset(b[..j])[x] + multiset(b[j..])[x];
        assert multiset(b)[x] >= 2;
        NoDupCount(a, x);
      }
    }
  }

  lemma NoDupPermutation<T>(a: seq<T>, b: seq<T>)
    requires NoDup(a) && multiset(a) == multiset(b)
    ensures NoDup(b)
  {
    NoDupSubMultiset(a, b);
  }

  /** Appending an element that is not there yet keeps a sequence duplicate-free. */
  lemma NoDupSnoc<T>(s: seq<T>, x: T)
    requires NoDup(s) && x !in s
    ensures NoDup(s + [x])
  {
    var r := s + [x];
    forall i, j | 0 <= i < j < |r| ensures r[i] != r[j] {
      if j == |s| {
        assert r[i] == s[i];
      } else {
        assert r[i] == s[i] && r[j] == s[j];
      }
    }
  }

  lemma NoDupRemoveFirst<T>(s: seq<T>, x: T)
    requires NoDup(s)
    ensures NoDup(RemoveFirst(s, x))
    ensures x !in RemoveFirst(s, x)
    ensures forall y :: y in RemoveFirst(s, x) <==> y in s && y != x
  {
    var r := RemoveFirst(s, x);
    if x in s {
      NoDupSubMultiset(s, r);
      NoDupCount(s, x);
      assert multiset(r)[x] == 0;
      forall y ensures y in r <==> y in s && y != x {
        if y != x {
          assert multiset(r)[y] == multiset(s)[y];
        }
      }
    }
  }
}
