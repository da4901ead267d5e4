/** The FAQ accordion of `initFAQ`: one `active` flag per `.faq-item`, in
    document order. A click on an item's question closes every item and then
    reopens the clicked one only if it was closed before. */
module FaqAccordion {

  /** The flags after a click on item `i`, given the flags `s` before it. */
  function AfterClick(s: seq<bool>, i: nat): (r: seq<bool>)
    requires i < |s|
  {
    seq(|s|, j requires 0 <= j < |s| => j == i && !s[i])
  }

  /** Number of open items. */
  function OpenCount(s: seq<bool>): (n: nat)
    ensures n <= |s|
    decreases |s|
  {
    if s == [] then 0 else (if s[0] then 1 else 0) + OpenCount(s[1..])
  }

  /** With every item closed, none is open. */
  lemma {:induction false} OpenCountNone(s: seq<bool>)
    requires forall k :: 0 <= k < |s| ==> !s[k]
    ensures OpenCount(s) == 0
    decreases |s|
  {
    if s != [] {
      assert forall k :: 0 <= k < |s[1..]| ==> !s[1..][k] by {
        forall k | 0 <= k < |s[1..]| ensures !s[1..][k] {
          assert s[1..][k] == s[k + 1];
        }
      }
      OpenCountNone(s[1..]);
    }
  }

  /** With item `i` open and all others closed, exactly one is open. */
  lemma {:induction false} OpenCountSingle(s: seq<bool>, i: nat)
    requires i < |s| && s[i]
    requires forall k :: 0 <= k < |s| && k != i ==> !s[k]
    ensures OpenCount(s) == 1
    decreases |s|
  {
    var t := s[1..];
    if i == 0 {
      forall k | 0 <= k < |t| ensures !t[k] {
        assert t[k] == s[k + 1];
      }
      OpenCountNone(t);
    } else {
      forall k | 0 <= k < |t| && k != i - 1 ensures !t[k] {
        assert t[k] == s[k + 1];
      }
      assert t[i - 1] == s[i];
      OpenCountSingle(t, i - 1);
    }
  }

  /** A click leaves every other item closed and flips the clicked one. */
  lemma ClickSpec(s: seq<bool>, i: nat)
    requires i < |s|
    ensures |AfterClick(s, i)| == |s|
    ensures AfterClick(s, i)[i] == !s[i]
    ensures forall j :: 0 <= j < |s| && j != i ==> !AfterClick(s, i)[j]
  {
  }

  /** Whatever was open before, a click leaves at most one item open: none when
      the clicked item was the open one, and that item otherwise. */
  lemma ClickOpenCount(s: seq<bool>, i: nat)
    requires i < |s|
    ensures OpenCount(AfterClick(s, i)) == if s[i] then 0 else 1
    ensures forall j, k :: 0 <= j < |s| && 0 <= k < |s| && AfterClick(s, i)[j] && AfterClick(s, i)[k] ==> j == k
  {
    var r := AfterClick(s, i);
    if s[i] {
      OpenCountNone(r);
    } else {
      OpenCountSingle(r, i);
    }
  }

  /** Clicking the same question twice closes every other item and gives the
      clicked item back its first state: an item opened by the first click is
      closed again, so none stays open. */
  lemma ClickTwice(s: seq<bool>, i: nat)
    requires i < |s|
    ensures AfterClick(AfterClick(s, i), i) == seq(|s|, j requires 0 <= j < |s| => j == i && s[i])
    ensures !s[i] ==> OpenCount(AfterClick(AfterClick(s, i), i)) == 0
  {
    ClickOpenCount(AfterClick(s, i), i);
  }

  /** Clicking another question after `i` leaves only that item open. */
  lemma ClickOther(s: seq<bool>, i: nat, j: nat)
    requires i < |s| && j < |s| && i != j
    ensures AfterClick(AfterClick(s, i), j) == seq(|s|, k requires 0 <= k < |s| => k == j)
  {
  }

  class Accordion {
    /** The `active` class of each `.faq-item`; the list itself never changes. */
    const active: array<bool>

    constructor (initial: seq<bool>)
      ensures active[..] == initial
      ensures fresh(active)
    {
      active := new bool[|initial|] (j requires 0 <= j < |initial| => initial[j]);
    }

    /** The click handler of item `i`'s question. */
    method Click(i: nat)
      requires i < active.Length
      modifies active
      ensures active[..] == AfterClick(old(active[..]), i)
    {
      var wasActive := active[i];
      for j := 0 to active.Length
        invariant forall k :: 0 <= k < j ==> !active[k]
        invariant forall k :: j <= k < active.Length ==> active[k] == old(active[k])
      {
        active[j] := false;
      }
      if !wasActive {
        active[i] := true;
      }
    }
  }
}
