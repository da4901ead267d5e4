/** Small facts about sequences shared by the text, form and notification models. */
module Sequences {

  datatype Option<+T> = None | Some(value: T)

  /** Position of the first occurrence of `x` in `s`, as `indexOf` or a
      document-order `querySelector` finds it. */
  function FirstIndex<T(==)>(s: seq<T>, x: T): (r: Option<nat>)
    ensures r.None? <==> x !in s
    ensures r.Some? ==> r.value < |s| && s[r.value] == x && x !in s[..r.value]
    decreases |s|
  {
    if s == [] then None
    else if s[0] == x then Some(0)
    else match FirstIndex(s[1..], x)
      case None => None
      case Some(i) =>
        assert s[..i + 1] == [s[0]] + s[1..][..i];
        Some(i + 1)
  }

  /** Any position holding `x` with no earlier `x` is the first one. */
  lemma FirstIndexUnique<T>(s: seq<T>, x: T, i: nat)
    requires i < |s| && s[i] == x && x !in s[..i]
    ensures FirstIndex(s, x) == Some(i)
  {
    assert x in s by { assert s[i] == x; }
  }

  /** Number of occurrences of `x` in `s`. */
  function Count<T(==)>(s: seq<T>, x: T): (n: nat)
    ensures n <= |s|
    decreases |s|
  {
    if s == [] then 0 else (if s[0] == x then 1 else 0) + Count(s[1..], x)
  }

  lemma {:induction false} CountZero<T>(s: seq<T>, x: T)
    ensures Count(s, x) == 0 <==> x !in s
    decreases |s|
  {
    if s != [] {
      CountZero(s[1..], x);
      assert s == [s[0]] + s[1..];
    }
  }

  lemma {:induction false} CountAppend<T>(a: seq<T>, b: seq<T>, x: T)
    ensures Count(a + b, x) == Count(a, x) + Count(b, x)
    decreases |a|
  {
    if a == [] {
      assert a + b == b;
    } else {
      assert (a + b)[1..] == a[1..] + b;
      CountAppend(a[1..], b, x);
    }
  }

  /** `s` without its first occurrence of `x` (unchanged when there is none),
      as `querySelector(...)` followed by `remove()` leaves it. */
  function RemoveFirst<T(==)>(s: seq<T>, x: T): (r: seq<T>)
  {
    match FirstIndex(s, x)
    case None => s
    case Some(i) => s[..i] + s[i + 1..]
  }

  lemma {:induction false} RemoveFirstCount<T>(s: seq<T>, x: T, y: T)
    ensures Count(RemoveFirst(s, x), y) ==
              if x == y && x in s then Count(s, y) - 1 else Count(s, y)
  {
    match FirstIndex(s, x)
    case None =>
    case Some(i) =>
      assert s == s[..i] + ([s[i]] + s[i + 1..]);
      CountAppend(s[..i], [s[i]] + s[i + 1..], y);
      CountAppend([s[i]], s[i + 1..], y);
      CountAppend(s[..i], s[i + 1..], y);
  }
}
