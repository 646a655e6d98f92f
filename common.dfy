/** Small building blocks shared by every part of the model: optional values,
    the HTTP-style replies the handlers send, sequence slicing as the store's
    `skip`/`take` do it, and a stable descending sort standing for the store's
    `orderBy: { createdAt: 'desc' }`. */
module Common {

  datatype Option<+T> = None | Some(value: T)

  /** What a request handler answers: a success payload, or an HTTP status code
      with the `message` text of the JSON error body. */
  datatype Reply<+T> = Ok(value: T) | Fail(status: int, message: string)

  /** Instants, in milliseconds; the model never reads a clock, callers pass one in. */
  type Time = int

  /** JavaScript truthiness of a nullable string: null, undefined and "" are falsy. */
  predicate Truthy(s: Option<string>)
  {
    s.Some? && s.value != ""
  }

  /** The first `n` elements, or all of them when there are fewer (Prisma's `take`). */
  function Take<T>(s: seq<T>, n: nat): (r: seq<T>)
    ensures |r| == if n < |s| then n else |s|
    ensures r == s[..|r|]
  {
    if n < |s| then s[..n] else s
  }

  /** Everything after the first `n` elements (Prisma's `skip`). */
  function Drop<T>(s: seq<T>, n: nat): (r: seq<T>)
    ensures |r| == if n < |s| then |s| - n else 0
    ensures forall i :: 0 <= i < |r| ==> r[i] == s[n + i]
  {
    if n < |s| then s[n..] else []
  }

  /** `Array.prototype.reverse`, as a value. */
  function Reverse<T>(s: seq<T>): (r: seq<T>)
    ensures |r| == |s|
    ensures forall i :: 0 <= i < |s| ==> r[i] == s[|s| - 1 - i]
  {
    if s == [] then [] else Reverse(s[1..]) + [s[0]]
  }

  predicate Distinct<T(==)>(s: seq<T>)
  {
    forall i, j :: 0 <= i < j < |s| ==> s[i] != s[j]
  }

  // ---------------------------------------------------------------------------
  // Stable descending sort on an integer key (insertion sort). Elements with
  // equal keys keep their table order; the store itself promises no order
  // among equal keys, so this is one admissible choice.
  // ---------------------------------------------------------------------------

  predicate SortedDesc<T>(s: seq<T>, key: T -> int)
  {
    forall i, j :: 0 <= i < j < |s| ==> key(s[i]) >= key(s[j])
  }

  function Insert<T>(x: T, s: seq<T>, key: T -> int): (r: seq<T>)
    ensures |r| == |s| + 1
    ensures multiset(r) == multiset(s) + multiset{x}
  {
    if s == [] || key(x) >= key(s[0]) then
      [x] + s
    else
      assert s == [s[0]] + s[1..];
      [s[0]] + Insert(x, s[1..], key)
  }

  lemma SortedCons<T>(a: T, t: seq<T>, key: T -> int)
    requires SortedDesc(t, key)
    requires t != [] ==> key(a) >= key(t[0])
    ensures SortedDesc([a] + t, key)
  {
    var r := [a] + t;
    forall i, j | 0 <= i < j < |r| ensures key(r[i]) >= key(r[j]) {
      if i == 0 && j > 1 { assert key(t[0]) >= key(t[j - 1]); }
    }
  }

  lemma InsertFirst<T>(x: T, s: seq<T>, key: T -> int)
    ensures Insert(x, s, key)[0] == x || (s != [] && Insert(x, s, key)[0] == s[0])
  {
  }

  lemma {:induction false} InsertSorted<T>(x: T, s: seq<T>, key: T -> int)
    requires SortedDesc(s, key)
    ensures SortedDesc(Insert(x, s, key), key)
  {
    if s == [] || key(x) >= key(s[0]) {
      SortedCons(x, s, key);
    } else {
      var tail := Insert(x, s[1..], key);
      assert SortedDesc(s[1..], key);
      InsertSorted(x, s[1..], key);
      InsertFirst(x, s[1..], key);
      SortedCons(s[0], tail, key);
    }
  }

  /** The rows of `s` ordered by `key`, largest first. */
  function SortDesc<T>(s: seq<T>, key: T -> int): (r: seq<T>)
    ensures |r| == |s|
    ensures multiset(r) == multiset(s)
    ensures SortedDesc(r, key)
  {
    if s == [] then []
    else
      assert s == [s[0]] + s[1..];
      InsertSorted(s[0], SortDesc(s[1..], key), key);
      Insert(s[0], SortDesc(s[1..], key), key)
  }

  /** Reversing a descending sequence gives an ascending one. */
  lemma ReverseAscending<T>(s: seq<T>, key: T -> int)
    requires SortedDesc(s, key)
    ensures forall i, j :: 0 <= i < j < |s| ==> key(Reverse(s)[i]) <= key(Reverse(s)[j])
  {
    var r := Reverse(s);
    forall i, j | 0 <= i < j < |s| ensures key(r[i]) <= key(r[j]) {
      assert r[i] == s[|s| - 1 - i] && r[j] == s[|s| - 1 - j];
    }
  }

  /** A window `[skip, skip + limit)` of a descending arrangement of `rows` is
      still descending, and every element of it is one of the rows. */
  lemma WindowFacts<T>(rows: seq<T>, ordered: seq<T>, skip: nat, limit: nat, key: T -> int)
    requires multiset(ordered) == multiset(rows)
    requires SortedDesc(ordered, key)
    ensures SortedDesc(Take(Drop(ordered, skip), limit), key)
    ensures forall x :: x in Take(Drop(ordered, skip), limit) ==> x in rows
  {
    var items := Take(Drop(ordered, skip), limit);
    forall i, j | 0 <= i < j < |items| ensures key(items[i]) >= key(items[j]) {
      assert items[i] == ordered[skip + i] && items[j] == ordered[skip + j];
    }
    forall x | x in items ensures x in rows {
      var k :| 0 <= k < |items| && items[k] == x;
      assert x == ordered[skip + k];
      assert x in multiset(ordered);
    }
  }

  // ---------------------------------------------------------------------------
  // Ties. `orderBy` fixes no order among equal keys, so the arrangement the
  // store returns is any descending permutation. When no two keys are equal
  // there is only one, and it is the one `SortDesc` builds.
  // ---------------------------------------------------------------------------

  predicate StrictlyDesc<T>(s: seq<T>, key: T -> int)
  {
    forall i, j :: 0 <= i < j < |s| ==> key(s[i]) > key(s[j])
  }

  /** A descending arrangement equals every strictly descending arrangement of
      the same elements. */
  lemma {:induction false} SortedPermutationUnique<T>(a: seq<T>, b: seq<T>, key: T -> int)
    requires multiset(a) == multiset(b)
    requires SortedDesc(a, key)
    requires StrictlyDesc(b, key)
    ensures a == b
  {
    if a == [] {
      assert |b| == |multiset(b)| == 0;
    } else {
      HeadsAgree(a, b, key);
      TailsAgree(a, b);
      SortedPermutationUnique(a[1..], b[1..], key);
    }
  }

  lemma HeadsAgree<T>(a: seq<T>, b: seq<T>, key: T -> int)
    requires multiset(a) == multiset(b) && a != []
    requires SortedDesc(a, key)
    requires StrictlyDesc(b, key)
    ensures b != [] && a[0] == b[0]
  {
    assert a[0] in multiset(b);
    var k :| 0 <= k < |b| && b[k] == a[0];
    assert b[0] in multiset(a);
    var m :| 0 <= m < |a| && a[m] == b[0];
    assert key(a[0]) >= key(a[m]);
  }

  lemma TailsAgree<T>(a: seq<T>, b: seq<T>)
    requires multiset(a) == multiset(b) && a != [] && b != [] && a[0] == b[0]
    ensures multiset(a[1..]) == multiset(b[1..])
  {
    assert a == [a[0]] + a[1..] && b == [b[0]] + b[1..];
    assert multiset(a[1..]) == multiset(a) - multiset{a[0]};
    assert multiset(b[1..]) == multiset(b) - multiset{b[0]};
  }
}
