/** Shared vocabulary of the hotel-management model: optional values, handler
    replies, the table-step record, and the order-preserving filter that the
    back-end queries and the front-end lists are built from. */
module Common {

  /** A value that may be absent: `None` stands for a JavaScript `undefined`
      or `null` attribute. */
  datatype Option<T> = None | Some(value: T)

  /** What an Express handler answers: a success body, or an HTTP status code
      with the `message` of its JSON body. */
  datatype Reply<T> = Ok(value: T) | Err(code: nat, message: string)

  /** The reply of a handler that works on a table together with the table
      (its rows and its auto-increment counter) afterwards. */
  datatype Step<R, T> = Step(reply: Reply<T>, rows: seq<R>, nextId: nat)

  /** Calendar dates are whole day numbers. */
  type Day = int

  /** `s.filter(p)`: the elements of `s` that satisfy `p`, in their order. */
  function Filter<T>(s: seq<T>, p: T -> bool): (r: seq<T>)
    ensures |r| <= |s|
    ensures forall i :: 0 <= i < |r| ==> p(r[i])
  {
    if s == [] then [] else (if p(s[0]) then [s[0]] else []) + Filter(s[1..], p)
  }

  /** `a` is obtained from `b` by deleting elements, keeping the rest in order. */
  ghost predicate SubsequenceOf<T>(a: seq<T>, b: seq<T>)
    decreases |b|
  {
    a == [] || (b != [] && ((a[0] == b[0] && SubsequenceOf(a[1..], b[1..])) || SubsequenceOf(a, b[1..])))
  }

  lemma {:induction false} FilterIsSubsequence<T>(s: seq<T>, p: T -> bool)
    ensures SubsequenceOf(Filter(s, p), s)
  {
    if s != [] {
      FilterIsSubsequence(s[1..], p);
      if p(s[0]) {
        assert Filter(s, p) == [s[0]] + Filter(s[1..], p);
        assert Filter(s, p)[1..] == Filter(s[1..], p);
      } else {
        assert Filter(s, p) == Filter(s[1..], p);
      }
    }
  }

  /** An element survives the filter exactly when it is in the sequence and
      satisfies the test. */
  lemma {:induction false} FilterMembership<T>(s: seq<T>, p: T -> bool, x: T)
    ensures x in Filter(s, p) <==> x in s && p(x)
  {
    if s != [] {
      FilterMembership(s[1..], p, x);
      assert s == [s[0]] + s[1..];
    }
  }

  /** The filter keeps only elements of the sequence. */
  lemma FilterWithin<T>(s: seq<T>, p: T -> bool)
    ensures forall x :: x in Filter(s, p) ==> x in s
  {
    forall x | x in Filter(s, p)
      ensures x in s
    {
      FilterMembership(s, p, x);
    }
  }

  lemma {:induction false} FilterOfConcat<T>(a: seq<T>, b: seq<T>, p: T -> bool)
    ensures Filter(a + b, p) == Filter(a, p) + Filter(b, p)
  {
    if a == [] {
      assert a + b == b;
    } else {
      assert (a + b)[0] == a[0];
      assert (a + b)[1..] == a[1..] + b;
      FilterOfConcat(a[1..], b, p);
    }
  }

  /** Filtering an element at the front of a sequence. */
  lemma FilterCons<T>(x: T, s: seq<T>, p: T -> bool)
    ensures Filter([x] + s, p) == (if p(x) then [x] else []) + Filter(s, p)
  {
    assert ([x] + s)[1..] == s;
  }

  /** FilterCons counted with multiplicity. */
  lemma FilterConsMultiset<T>(x: T, s: seq<T>, p: T -> bool)
    ensures multiset(Filter([x] + s, p)) == (if p(x) then multiset{x} else multiset{}) + multiset(Filter(s, p))
  {
    FilterCons(x, s, p);
    if p(x) {
      assert multiset([x] + Filter(s, p)) == multiset{x} + multiset(Filter(s, p));
    } else {
      assert [] + Filter(s, p) == Filter(s, p);
    }
  }

  /** Filtering an element at the end of a sequence. */
  lemma FilterSnoc<T>(s: seq<T>, x: T, p: T -> bool)
    ensures Filter(s + [x], p) == Filter(s, p) + (if p(x) then [x] else [])
  {
    FilterOfConcat(s, [x], p);
    assert Filter([x], p) == (if p(x) then [x] else []) + Filter([], p);
  }

  /** When every element satisfies `p`, the filter keeps everything. */
  lemma {:induction false} FilterAll<T>(s: seq<T>, p: T -> bool)
    requires forall i :: 0 <= i < |s| ==> p(s[i])
    ensures Filter(s, p) == s
  {
    if s != [] {
      FilterAll(s[1..], p);
      assert [s[0]] + s[1..] == s;
    }
  }

  /** The keys of `s` strictly increase along the sequence and stay below `next`:
      the shape an auto-increment primary key gives a table. */
  predicate KeysIncreasing<T>(s: seq<T>, key: T -> nat, next: nat)
  {
    (forall i, j :: 0 <= i < j < |s| ==> key(s[i]) < key(s[j])) &&
    (forall i :: 0 <= i < |s| ==> key(s[i]) < next)
  }

  /** The elements left after deleting position `i`. */
  lemma RemoveAt<T>(s: seq<T>, i: nat)
    requires i < |s|
    ensures |s[..i] + s[i + 1..]| == |s| - 1
    ensures forall j :: 0 <= j < |s| - 1 ==> (s[..i] + s[i + 1..])[j] == if j < i then s[j] else s[j + 1]
  {
  }

  /** Deleting a row keeps the keys increasing, and no remaining row has its key. */
  lemma KeysIncreasingRemove<T>(s: seq<T>, key: T -> nat, next: nat, i: nat)
    requires KeysIncreasing(s, key, next) && i < |s|
    ensures KeysIncreasing(s[..i] + s[i + 1..], key, next)
    ensures forall x :: x in s[..i] + s[i + 1..] ==> key(x) != key(s[i])
  {
    RemoveAt(s, i);
  }

  /** Replacing a row by one with the same key keeps the keys increasing. */
  lemma KeysIncreasingUpdate<T>(s: seq<T>, key: T -> nat, next: nat, i: nat, x: T)
    requires KeysIncreasing(s, key, next) && i < |s| && key(x) == key(s[i])
    ensures KeysIncreasing(s[i := x], key, next)
  {
    assert forall j :: 0 <= j < |s| ==> key(s[i := x][j]) == key(s[j]);
  }

  /** Deleting position `i` removes one occurrence of its element. */
  lemma MultisetRemove<T>(s: seq<T>, i: nat)
    requires i < |s|
    ensures multiset(s[..i] + s[i + 1..]) == multiset(s) - multiset{s[i]}
  {
    assert s == s[..i] + [s[i]] + s[i + 1..];
  }

  /** Primary-key lookup (`findByPk`): the index of the row carrying `id`. */
  function IndexOf<T>(s: seq<T>, key: T -> nat, id: int): (r: Option<nat>)
    ensures r.Some? ==> r.value < |s| && key(s[r.value]) == id
    ensures r.None? <==> forall i :: 0 <= i < |s| ==> key(s[i]) != id
  {
    if s == [] then None
    else if key(s[|s| - 1]) == id then Some(|s| - 1)
    else IndexOf(s[..|s| - 1], key, id)
  }

  /** Under increasing keys a row is found by its key alone. */
  lemma IndexOfUnique<T>(s: seq<T>, key: T -> nat, next: nat, i: nat)
    requires KeysIncreasing(s, key, next) && i < |s|
    ensures IndexOf(s, key, key(s[i])) == Some(i)
  {
    var r := IndexOf(s, key, key(s[i]));
    assert r.Some?;
  }

  /** Appending a row with the next key keeps the keys increasing. */
  lemma KeysIncreasingAppend<T>(s: seq<T>, key: T -> nat, next: nat, x: T)
    requires KeysIncreasing(s, key, next) && key(x) == next
    ensures KeysIncreasing(s + [x], key, next + 1)
  {
  }
}
