/** The home page carousel (client/src/components/HeroCarousel.jsx): the
    index of the slide shown and the direction of the last move, changed by
    the arrows, the dots and the timer. */
module HeroCarousel {

  /** The number of slides the page ships with. */
  const SlideCount: nat := 5

  /** `(prev + 1) % slides.length`. */
  function NextIndex(current: int, count: nat): (r: int)
    requires count > 0
    ensures 0 <= r < count
    ensures 0 <= current < count - 1 ==> r == current + 1
    ensures current == count - 1 ==> r == 0
  {
    (current + 1) % count
  }

  /** `(prev - 1 + slides.length) % slides.length`. */
  function PrevIndex(current: int, count: nat): (r: int)
    requires count > 0
    ensures 0 <= r < count
    ensures 0 < current < count ==> r == current - 1
    ensures current == 0 ==> r == count - 1
  {
    (current - 1 + count) % count
  }

  /** The index after `k` moves forward. */
  function Forward(current: int, count: nat, k: nat): int
    requires count > 0
  {
    if k == 0 then current else NextIndex(Forward(current, count, k - 1), count)
  }

  /** A move back undoes a move forward, and the other way round. */
  lemma BackUndoesForward(current: int, count: nat)
    requires 0 <= current < count
    ensures PrevIndex(NextIndex(current, count), count) == current
    ensures NextIndex(PrevIndex(current, count), count) == current
  {
  }

  /** `k` moves forward land `k` places on, round the ring. */
  lemma {:induction false} ForwardIsAddition(current: int, count: nat, k: nat)
    requires 0 <= current < count
    ensures Forward(current, count, k) == (current + k) % count
  {
    if k > 0 {
      ForwardIsAddition(current, count, k - 1);
      var before := (current + k - 1) % count;
      assert NextIndex(before, count) == (before + 1) % count;
      ModSucc(current + k - 1, count);
    }
  }

  lemma ModSucc(a: nat, count: nat)
    requires count > 0
    ensures (a % count + 1) % count == (a + 1) % count
  {
    var q, r := a / count, a % count;
    if r + 1 < count {
      ModOf(a + 1, count, q, r + 1);
      ModOf(r + 1, count, 0, r + 1);
    } else {
      ModOf(a + 1, count, q + 1, 0);
      ModOf(r + 1, count, 1, 0);
    }
  }

  /** The remainder is the one `r` with `x == q * count + r`. */
  lemma ModOf(x: int, count: nat, q: int, r: int)
    requires count > 0 && 0 <= r < count && x == q * count + r
    ensures x % count == r
  {
    var d := q - x / count;
    assert d * count == x % count - r;
    MultipleBound(d, count);
  }

  lemma MultipleBound(d: int, count: nat)
    ensures d >= 1 ==> d * count >= count
    ensures d <= -1 ==> d * count <= -(count as int)
  {
    if d >= 1 {
      assert d * count == count + (d - 1) * count;
    } else if d <= -1 {
      assert d * count == -(count as int) + (d + 1) * count;
    }
  }

  /** As many moves forward as there are slides come back to the start. */
  lemma FullCycle(current: int, count: nat)
    requires 0 <= current < count
    ensures Forward(current, count, count) == current
  {
    ForwardIsAddition(current, count, count);
    ModOf(current + count, count, 1, current);
  }

  /** The carousel's state: `current` and `direction`. */
  class Carousel {
    const count: nat
    var current: int
    var direction: int

    /** The index names a slide and the direction is a unit step. */
    ghost predicate Valid()
      reads this
    {
      count > 0 && 0 <= current < count && (direction == 1 || direction == -1)
    }

    /** `useState(0)` and `useState(1)`, over the page's slides. */
    constructor ()
      ensures Valid() && count == SlideCount
      ensures current == 0 && direction == 1
    {
      count := SlideCount;
      current := 0;
      direction := 1;
    }

    /** `next`: the right arrow and the timer. */
    method Next()
      requires Valid()
      modifies this
      ensures Valid()
      ensures current == NextIndex(old(current), count) && direction == 1
    {
      direction := 1;
      current := (current + 1) % count;
    }

    /** `prev`: the left arrow. */
    method Prev()
      requires Valid()
      modifies this
      ensures Valid()
      ensures current == PrevIndex(old(current), count) && direction == -1
    {
      direction := -1;
      current := (current - 1 + count) % count;
    }

    /** `goTo(index)`: a dot, whose index names a slide. The direction is
        forward only when the dot is after the current slide; the current
        dot itself counts as backward. */
    method GoTo(index: int)
      requires Valid() && 0 <= index < count
      modifies this
      ensures Valid()
      ensures current == index
      ensures direction == (if index > old(current) then 1 else -1)
    {
      direction := if index > current then 1 else -1;
      current := index;
    }
  }
}
