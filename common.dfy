/** Values and list helpers shared by the backend services and repositories.
    Filter, Uniq and LastWins stand for the `lo.Filter`, `lo.Uniq` and the
    "fill a Go map in a loop" idiom that every core file uses. */
module Common {

  datatype Option<T> = None | Some(value: T)

  datatype Result<T, E> = Ok(value: T) | Err(error: E)

  /** The error an unseen collaborator (database, cache, remote API) returns. */
  type Fault = string

  /** The error reasons of the service layer (pb.ErrorReason...). */
  datatype Reason = DataSQLError | DataRecordNotFound | APIThirdErr | TokenInvalidErr

  /** A service error: its reason and, when the code wraps one, the underlying fault. */
  datatype ServiceError = ServiceError(reason: Reason, cause: Option<Fault>)

  /** Go's map index: the stored value, or the zero value when the key is absent. */
  function MapGet<K, V>(m: map<K, V>, k: K, zero: V): (v: V)
    ensures k in m ==> v == m[k]
    ensures k !in m ==> v == zero
  {
    if k in m then m[k] else zero
  }

  predicate NoDups<T(==)>(s: seq<T>) {
    forall i, j :: 0 <= i < j < |s| ==> s[i] != s[j]
  }

  /** lo.Filter: the elements that satisfy p, in their original order. */
  function Filter<T(!new)>(s: seq<T>, p: T -> bool): (r: seq<T>)
    ensures |r| <= |s|
    ensures forall x :: x in r <==> x in s && p(x)
  {
    if s == [] then []
    else (if p(s[0]) then [s[0]] else []) + Filter(s[1..], p)
  }

  /** The first element Filter keeps is the first element of s that satisfies p. */
  lemma {:induction false} FilterHead<T(!new)>(s: seq<T>, p: T -> bool, k: nat)
    requires k < |s| && p(s[k])
    requires forall j :: 0 <= j < k ==> !p(s[j])
    ensures Filter(s, p) != [] && Filter(s, p)[0] == s[k]
  {
    if k > 0 {
      FilterHead(s[1..], p, k - 1);
    }
  }

  /** Filter keeps nothing exactly when no element satisfies p. */
  lemma FilterEmpty<T(!new)>(s: seq<T>, p: T -> bool)
    ensures Filter(s, p) == [] <==> forall x :: x in s ==> !p(x)
  {
    if Filter(s, p) != [] {
      assert Filter(s, p)[0] in Filter(s, p);
    }
  }

  /** Filter keeps the elements of a duplicate-free sequence duplicate-free. */
  lemma {:induction false} FilterNoDups<T(!new)>(s: seq<T>, p: T -> bool)
    requires NoDups(s)
    ensures NoDups(Filter(s, p))
  {
    if s != [] {
      var rest := Filter(s[1..], p);
      assert NoDups(s[1..]) by {
        forall i, j | 0 <= i < j < |s| - 1 ensures s[1..][i] != s[1..][j] {
          assert s[i + 1] != s[j + 1];
        }
      }
      FilterNoDups(s[1..], p);
      if p(s[0]) {
        assert s[0] !in s[1..] by {
          forall i | 0 <= i < |s| - 1 ensures s[1..][i] != s[0] {
            assert s[i + 1] != s[0];
          }
        }
        var r := [s[0]] + rest;
        forall i, j | 0 <= i < j < |r| ensures r[i] != r[j] {
          if i == 0 {
            assert r[j] == rest[j - 1] && r[j] in rest;
          } else {
            assert r[i] == rest[i - 1] && r[j] == rest[j - 1];
          }
        }
      } else {
        assert Filter(s, p) == rest;
      }
    }
  }

  /** Filtering a concatenation filters each part. */
  lemma {:induction false} FilterAppend<T(!new)>(a: seq<T>, b: seq<T>, p: T -> bool)
    ensures Filter(a + b, p) == Filter(a, p) + Filter(b, p)
  {
    if a == [] {
      assert a + b == b;
    } else {
      var h := if p(a[0]) then [a[0]] else [];
      assert Filter(a + b, p) == h + Filter(a[1..] + b, p) by {
        assert a + b != [] && (a + b)[0] == a[0] && (a + b)[1..] == a[1..] + b;
      }
      FilterAppend(a[1..], b, p);
      assert Filter(a, p) == h + Filter(a[1..], p);
    }
  }

  /** lo.Uniq: the first occurrence of every element, in order. */
  function Uniq<T(==,!new)>(s: seq<T>): (r: seq<T>)
    ensures NoDups(r)
    ensures forall x :: x in r <==> x in s
    ensures |r| <= |s|
  {
    if s == [] then []
    else
      var u := Uniq(s[..|s| - 1]);
      assert forall x :: x in s[..|s| - 1] ==> x in s;
      assert forall x :: x in s ==> x in s[..|s| - 1] || x == s[|s| - 1];
      if s[|s| - 1] in u then u else u + [s[|s| - 1]]
  }

  /** In a duplicate-free sequence every element occurs exactly once. */
  lemma {:induction false} NoDupsCount<T>(s: seq<T>, x: T)
    requires NoDups(s)
    ensures multiset(s)[x] == if x in s then 1 else 0
  {
    if s != [] {
      assert s == [s[0]] + s[1..];
      assert NoDups(s[1..]) by {
        forall i, j | 0 <= i < j < |s| - 1 ensures s[1..][i] != s[1..][j] {
          assert s[i + 1] != s[j + 1];
        }
      }
      NoDupsCount(s[1..], x);
      if x == s[0] {
        assert x !in s[1..] by {
          forall i | 0 <= i < |s| - 1 ensures s[1..][i] != x {
            assert s[0] != s[i + 1];
          }
        }
      }
    }
  }

  /** Two duplicate-free sequences with the same elements are permutations of each other. */
  lemma SameElementsNoDups<T>(a: seq<T>, b: seq<T>)
    requires NoDups(a) && NoDups(b)
    requires forall x :: x in a <==> x in b
    ensures multiset(a) == multiset(b)
  {
    forall x ensures multiset(a)[x] == multiset(b)[x] {
      NoDupsCount(a, x);
      NoDupsCount(b, x);
    }
  }

  /** The map a Go loop `m[key(r)] = val(r)` builds over rows: a later row
      overrides an earlier one with the same key. */
  function LastWins<R(!new), K(==), V>(rows: seq<R>, key: R -> K, val: R -> V): (m: map<K, V>)
    ensures m.Keys == set r | r in rows :: key(r)
  {
    if rows == [] then map[]
    else
      var init := rows[..|rows| - 1];
      var last := rows[|rows| - 1];
      assert forall r :: r in rows <==> r in init || r == last;
      LastWins(init, key, val)[key(last) := val(last)]
  }

  /** The value LastWins keeps for a key is that of the last row carrying it. */
  lemma {:induction false} LastWinsAt<R(!new), K, V>(rows: seq<R>, key: R -> K, val: R -> V, i: nat)
    requires i < |rows|
    requires forall j :: i < j < |rows| ==> key(rows[j]) != key(rows[i])
    ensures key(rows[i]) in LastWins(rows, key, val)
    ensures LastWins(rows, key, val)[key(rows[i])] == val(rows[i])
  {
    if i < |rows| - 1 {
      LastWinsAt(rows[..|rows| - 1], key, val, i);
    }
  }
}
