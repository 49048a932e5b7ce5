/** The sculpture gallery: a cyclic index into a non-empty list and a flag
    that shows or hides the current sculpture's details. */
module ButtonIterableState {

  /** The index after Next: the last index goes back to the first, any other
      index moves one forward. */
  function NextIndex(index: nat, n: nat): (r: nat)
    requires index < n
    ensures r < n
    ensures r == (index + 1) % n
  {
    if n - 1 == index then 0 else index + 1
  }

  /** The index after Previous: the first index goes to the last, any other
      index moves one back. */
  function PrevIndex(index: nat, n: nat): (r: nat)
    requires index < n
    ensures r < n
    ensures (r + 1) % n == index
  {
    if index == 0 then n - 1 else index - 1
  }

  /** Previous undoes Next. */
  lemma PrevAfterNext(index: nat, n: nat)
    requires index < n
    ensures PrevIndex(NextIndex(index, n), n) == index
  {
  }

  /** Next undoes Previous. */
  lemma NextAfterPrev(index: nat, n: nat)
    requires index < n
    ensures NextIndex(PrevIndex(index, n), n) == index
  {
  }

  /** The index after `k` clicks on Next. */
  function NextTimes(index: nat, n: nat, k: nat): (r: nat)
    requires index < n
    ensures r < n
    decreases k
  {
    if k == 0 then index else NextTimes(NextIndex(index, n), n, k - 1)
  }

  /** `a + b` clicks on Next are `a` clicks followed by `b` clicks. */
  lemma {:induction false} NextTimesAdd(index: nat, n: nat, a: nat, b: nat)
    requires index < n
    ensures NextTimes(index, n, a + b) == NextTimes(NextTimes(index, n, a), n, b)
    decreases a
  {
    if a > 0 {
      NextTimesAdd(NextIndex(index, n), n, a - 1, b);
    }
  }

  /** Before the end of the list is reached, `k` clicks on Next move the
      index `k` places forward. */
  lemma {:induction false} NextTimesForward(index: nat, n: nat, k: nat)
    requires index + k < n
    ensures NextTimes(index, n, k) == index + k
    decreases k
  {
    if k > 0 {
      NextTimesForward(index + 1, n, k - 1);
    }
  }

  /** Clicking Next as many times as there are sculptures comes back to the
      starting sculpture. */
  lemma NextFullCycle(index: nat, n: nat)
    requires index < n
    ensures NextTimes(index, n, n) == index
  {
    var toEnd := n - 1 - index;
    NextTimesForward(index, n, toEnd);
    NextTimesAdd(index, n, toEnd, 1 + index);
    NextTimesAdd(n - 1, n, 1, index);
    NextTimesForward(0, n, index);
  }

  /** Clicks on Next repeat with period `n`. */
  lemma NextTimesPeriodic(index: nat, n: nat, k: nat)
    requires index < n
    ensures NextTimes(index, n, k + n) == NextTimes(index, n, k)
  {
    NextTimesAdd(index, n, k, n);
    NextFullCycle(NextTimes(index, n, k), n);
  }

  /** The gallery component: the sculpture list it pages through, the current
      `index` and the `showMore` flag. */
  class Gallery<T> {
    const sculptureList: seq<T>
    var index: nat
    var showMore: bool

    /** The index always selects an existing sculpture. */
    ghost predicate Valid()
      reads this
    {
      0 < |sculptureList| && index < |sculptureList|
    }

    /** The gallery starts at the first sculpture with details hidden. */
    constructor (sculptureList: seq<T>)
      requires |sculptureList| >= 1
      ensures Valid()
      ensures this.sculptureList == sculptureList && index == 0 && !showMore
    {
      this.sculptureList := sculptureList;
      index := 0;
      showMore := false;
    }

    /** The Next button: the index moves forward cyclically, the flag stays. */
    method HandleNextClick()
      requires Valid()
      modifies this
      ensures Valid()
      ensures index == NextIndex(old(index), |sculptureList|)
      ensures showMore == old(showMore)
    {
      if |sculptureList| - 1 == index {
        index := 0;
      } else {
        index := index + 1;
      }
    }

    /** The Previous button: the index moves back cyclically, the flag stays. */
    method HandlePrevClick()
      requires Valid()
      modifies this
      ensures Valid()
      ensures index == PrevIndex(old(index), |sculptureList|)
      ensures showMore == old(showMore)
    {
      if index == 0 {
        index := |sculptureList| - 1;
      } else {
        index := index - 1;
      }
    }

    /** The details button: the flag flips, the index stays. */
    method HandleMoreClick()
      requires Valid()
      modifies this
      ensures Valid()
      ensures showMore == !old(showMore)
      ensures index == old(index)
    {
      showMore := !showMore;
    }

    /** The sculpture on display, `sculptureList[index]`. */
    function Sculpture(): (s: T)
      reads this
      requires Valid()
      ensures s in sculptureList
    {
      sculptureList[index]
    }

    /** The position shown as "(index + 1 of length)". */
    function Position(): (p: nat)
      reads this
      requires Valid()
      ensures 1 <= p <= |sculptureList|
    {
      index + 1
    }
  }

  /** Next then Previous leaves the gallery as it was. */
  method NextThenPrev<T>(g: Gallery<T>)
    requires g.Valid()
    modifies g
    ensures g.Valid() && g.index == old(g.index) && g.showMore == old(g.showMore)
  {
    g.HandleNextClick();
    g.HandlePrevClick();
    PrevAfterNext(old(g.index), |g.sculptureList|);
  }

  /** Previous then Next leaves the gallery as it was. */
  method PrevThenNext<T>(g: Gallery<T>)
    requires g.Valid()
    modifies g
    ensures g.Valid() && g.index == old(g.index) && g.showMore == old(g.showMore)
  {
    g.HandlePrevClick();
    g.HandleNextClick();
    NextAfterPrev(old(g.index), |g.sculptureList|);
  }

  /** Two clicks on the details button leave the gallery as it was. */
  method ToggleTwice<T>(g: Gallery<T>)
    requires g.Valid()
    modifies g
    ensures g.Valid() && g.index == old(g.index) && g.showMore == old(g.showMore)
  {
    g.HandleMoreClick();
    g.HandleMoreClick();
  }
}
