/**
 * The testimonials carousel (src/components/Testimonials.tsx): the slide index, its next, previous
 * and direct moves, the timer tick, and which indicator dot is highlighted.
 */
module Testimonials {

  /** The number of testimonials shown. */
  const SlideCount := 5

  /** JavaScript's `%`: the remainder takes the sign of the dividend. */
  function JsRem(a: int, b: int): (r: int)
    requires b > 0
    ensures a >= 0 ==> r == a % b
    ensures a < 0 ==> r == -((-a) % b) && -b < r <= 0
  {
    if a >= 0 then a % b else -((-a) % b)
  }

  /**
   * JavaScript's `%` as ECMAScript defines it: the remainder differs from the dividend by a multiple
   * of the divisor, has the dividend's sign, and is smaller than the divisor in magnitude. These
   * three facts determine the remainder uniquely.
   */
  lemma JsRemIsTruncatedRemainder(a: int, b: int)
    requires b > 0
    ensures (a - JsRem(a, b)) % b == 0
    ensures a >= 0 ==> 0 <= JsRem(a, b) < b
    ensures a < 0 ==> -b < JsRem(a, b) <= 0
  {
    var n := if a >= 0 then a else -a;
    var q := n / b;
    assert n == q * b + n % b;
    if a >= 0 {
      assert a - JsRem(a, b) == q * b;
      MultipleHasNoRemainder(q, b);
    } else {
      assert a - JsRem(a, b) == (-q) * b;
      MultipleHasNoRemainder(-q, b);
    }
  }

  /** A multiple of a positive divisor leaves no remainder. */
  lemma MultipleHasNoRemainder(q: int, b: int)
    requires b > 0
    ensures (q * b) % b == 0
  {
    var k := (q * b) / b;
    var d := q - k;
    assert d * b == (q * b) % b;
  }

  predicate InRange(i: int) {
    0 <= i < SlideCount
  }

  /** The next button: one slide on, wrapping from the last to the first. */
  function Next(i: int): (j: int)
    ensures InRange(i) ==> InRange(j)
    ensures 0 <= i < SlideCount - 1 ==> j == i + 1
    ensures i == SlideCount - 1 ==> j == 0
  {
    JsRem(i + 1, SlideCount)
  }

  /** The previous button: one slide back, wrapping from the first to the last. */
  function Prev(i: int): (j: int)
    ensures InRange(i) ==> InRange(j)
    ensures 0 < i < SlideCount ==> j == i - 1
    ensures i == 0 ==> j == SlideCount - 1
  {
    JsRem(i - 1 + SlideCount, SlideCount)
  }

  /** The interval callback moves the carousel exactly as the next button does. */
  function Tick(i: int): (j: int)
    ensures j == Next(i)
    ensures InRange(i) ==> InRange(j) && Prev(j) == i
  {
    JsRem(i + 1, SlideCount)
  }

  /** Previous undoes next and next undoes previous. */
  lemma NextPrevInverse(i: int)
    requires InRange(i)
    ensures Prev(Next(i)) == i
    ensures Next(Prev(i)) == i
  {
  }

  /** `k` presses of the next button. */
  function Advance(i: int, k: nat): int
    decreases k
  {
    if k == 0 then i else Next(Advance(i, k - 1))
  }

  /** `k` presses of next move `k` slides on, modulo the slide count. */
  lemma {:induction false} AdvanceIsShift(i: int, k: nat)
    requires InRange(i)
    ensures Advance(i, k) == (i + k) % SlideCount
    decreases k
  {
    if k > 0 {
      AdvanceIsShift(i, k - 1);
    }
  }

  /** A full round of next presses comes back to the starting slide. */
  lemma FullCycle(i: int)
    requires InRange(i)
    ensures Advance(i, SlideCount) == i
  {
    AdvanceIsShift(i, SlideCount);
  }

  /** The indicator dots, one per slide: a dot is highlighted when its index is the current slide. */
  function Dots(current: int): (d: seq<bool>)
    ensures |d| == SlideCount
    ensures forall k :: 0 <= k < SlideCount ==> (d[k] <==> k == current)
  {
    seq(SlideCount, k => k == current)
  }

  /** For an index in range, exactly one dot is highlighted. */
  lemma ExactlyOneDot(current: int)
    requires InRange(current)
    ensures Dots(current)[current]
    ensures forall k :: 0 <= k < SlideCount && Dots(current)[k] ==> k == current
  {
  }

  /** What can move the carousel: the timer, the two buttons, or a click on the dot at `index`. */
  datatype Event = TimerTick | NextClick | PrevClick | DotClick(index: nat)

  /** A dot click carries the index of a rendered dot. */
  predicate FromRenderedDot(e: Event) {
    e.DotClick? ==> e.index < SlideCount
  }

  /** `goToSlide`: the index becomes exactly the one clicked. */
  function Apply(i: int, e: Event): (j: int)
    ensures e.DotClick? ==> j == e.index
    ensures InRange(i) && FromRenderedDot(e) ==> InRange(j)
  {
    match e
    case TimerTick => Tick(i)
    case NextClick => Next(i)
    case PrevClick => Prev(i)
    case DotClick(index) => index
  }

  function Run(i: int, events: seq<Event>): int
    decreases |events|
  {
    if |events| == 0 then i else Run(Apply(i, events[0]), events[1..])
  }

  /** From any rendered slide, any series of events keeps the index on a rendered slide. */
  lemma {:induction false} RunStaysInRange(i: int, events: seq<Event>)
    requires InRange(i)
    requires forall n :: 0 <= n < |events| ==> FromRenderedDot(events[n])
    ensures InRange(Run(i, events))
    decreases |events|
  {
    if |events| > 0 {
      RunStaysInRange(Apply(i, events[0]), events[1..]);
    }
  }
}
