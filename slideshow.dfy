/**
 * The restaurant slideshow: the current index, the "active" mark of every
 * `.restaurant-slide` and of every `.dot`, and the three operations that move
 * them (`showSlide`, `nextSlide` and `currentSlide`).
 */
module Slideshow {

  /** A JavaScript number as the slideshow uses it: an integer, or NaN (what `% 0` yields). */
  datatype JsNumber = Num(n: int) | NaN

  /**
   * JavaScript `%` on integers with a positive divisor: Dafny's `%` for a
   * non-negative dividend; a negative one keeps its sign, `(-a) % b` being
   * `-(a % b)`.
   */
  function JsRemainder(a: int, b: int): (r: int)
    requires b > 0
    ensures -b < r < b
    ensures a >= 0 ==> r == a % b
    ensures a < 0 ==> r <= 0 && r == -JsRemainder(-a, b)
    decreases if a < 0 then 1 else 0
  {
    if a >= 0 then a % b else -((-a) % b)
  }

  /**
   * `(currentSlideIndex + 1) % slides.length`: NaN when there are no slides
   * (and from then on), otherwise a number strictly between `-count` and
   * `count`.
   */
  function NextIndex(current: JsNumber, count: nat): (r: JsNumber)
    ensures r.Num? <==> current.Num? && count > 0
    ensures r.Num? ==> -(count as int) < r.n < count
  {
    if current.NaN? || count == 0 then NaN else Num(JsRemainder(current.n + 1, count))
  }

  /** Whether `index` names one of `count` items: `items[index]` is defined. */
  predicate InRange(index: JsNumber, count: nat) {
    index.Num? && 0 <= index.n < count
  }

  /**
   * From an index in range, or from -1 (where `currentSlide(0)` leaves it),
   * the next index is in range: the successor, wrapping from the last slide
   * to the first.
   */
  lemma NextIndexInRange(i: int, count: nat)
    requires count > 0 && -1 <= i < count
    ensures InRange(NextIndex(Num(i), count), count)
    ensures NextIndex(Num(i), count) == Num(if i == count - 1 then 0 else i + 1)
  {
    if i == count - 1 {
      assert JsRemainder(i + 1, count) == count % count == 0;
    } else {
      assert JsRemainder(i + 1, count) == (i + 1) % count == i + 1;
    }
  }

  /** From an index below -1 the next index is not in range: `(-6 + 1) % 3` is -2 in JavaScript. */
  lemma NextIndexFromBelow()
    ensures NextIndex(Num(-6), 3) == Num(-2)
    ensures !InRange(NextIndex(Num(-6), 3), 3)
  {
    assert JsRemainder(-5, 3) == -2;
  }

  /** The index after `steps` calls of `nextSlide`. */
  function Advance(current: JsNumber, count: nat, steps: nat): JsNumber {
    if steps == 0 then current else NextIndex(Advance(current, count, steps - 1), count)
  }

  /**
   * `nextSlide` runs through the slides in order: from slide `i`, `steps`
   * calls (at most `count`) reach slide `i + steps`, wrapped once past the
   * last slide; `count` calls come back to slide `i`.
   */
  lemma {:induction false} AdvanceCycles(i: int, count: nat, steps: nat)
    requires 0 <= i < count && steps <= count
    ensures Advance(Num(i), count, steps) == Num(if i + steps < count then i + steps else i + steps - count)
    ensures steps == count ==> Advance(Num(i), count, steps) == Num(i)
    decreases steps
  {
    if steps > 0 {
      AdvanceCycles(i, count, steps - 1);
      AdvanceStep(i, count, steps, if i + steps - 1 < count then i + steps - 1 else i + steps - 1 - count);
    }
  }

  /** One more call of `nextSlide` from slide `j` reaches the slide after it, wrapping after the last. */
  lemma AdvanceStep(i: int, count: nat, steps: nat, j: int)
    requires steps > 0 && 0 <= j < count
    requires Advance(Num(i), count, steps - 1) == Num(j)
    ensures Advance(Num(i), count, steps) == Num(if j == count - 1 then 0 else j + 1)
  {
    NextIndexInRange(j, count);
  }

  /**
   * The marks of `length` items after `showSlide(index)` over `count` slides:
   * item `k` is active exactly when `slides[index]` is slide `k`.
   */
  function Marks(index: JsNumber, count: nat, length: nat): (r: seq<bool>)
    ensures |r| == length
  {
    seq(length, k requires 0 <= k < length => index == Num(k) && k < count)
  }

  /** The number of active marks. */
  function ActiveCount(marks: seq<bool>): (r: nat)
    ensures r <= |marks|
  {
    if marks == [] then 0
    else ActiveCount(marks[..|marks| - 1]) + (if marks[|marks| - 1] then 1 else 0)
  }

  /**
   * After `showSlide(index)` one item is active when `index` names a slide and
   * an item, and none otherwise; the active one is item `index`.
   */
  lemma {:induction false} MarksActivateOne(index: JsNumber, count: nat, length: nat)
    ensures ActiveCount(Marks(index, count, length)) == (if InRange(index, count) && InRange(index, length) then 1 else 0)
    ensures forall k | 0 <= k < length :: Marks(index, count, length)[k] <==> InRange(index, count) && index.n == k
    decreases length
  {
    if length > 0 {
      MarksActivateOne(index, count, length - 1);
      assert Marks(index, count, length)[..length - 1] == Marks(index, count, length - 1);
    }
  }

  /**
   * The slideshow of the page: the two node lists, as the "active" mark of
   * each slide and each dot in document order, and `currentSlideIndex`.
   */
  class Slideshow {
    var currentSlideIndex: JsNumber
    const slides: array<bool>
    const dots: array<bool>

    /** The slides and the dots are two different lists. */
    predicate Valid()
      reads this
    {
      slides != dots
    }

    /** The slideshow as the page loads it: index 0, the marks as the markup sets them. */
    constructor (slides: array<bool>, dots: array<bool>)
      requires slides != dots
      ensures Valid() && this.slides == slides && this.dots == dots
      ensures currentSlideIndex == Num(0)
    {
      this.slides := slides;
      this.dots := dots;
      currentSlideIndex := Num(0);
    }

    /**
     * `showSlide(index)`: every mark cleared, then slide `index` and dot
     * `index` marked when `slides[index]` exists. Calling it fails with a
     * TypeError (`ok` false) when slide `index` exists and dot `index` does
     * not; the slide is then marked and no dot is.
     */
    method ShowSlide(index: JsNumber) returns (ok: bool)
      requires Valid()
      modifies slides, dots
      ensures slides[..] == Marks(index, slides.Length, slides.Length)
      ensures dots[..] == Marks(index, slides.Length, dots.Length)
      ensures ok <==> !InRange(index, slides.Length) || InRange(index, dots.Length)
    {
      var k := 0;
      while k < slides.Length
        invariant 0 <= k <= slides.Length
        invariant forall j | 0 <= j < k :: !slides[j]
      {
        slides[k] := false;
        k := k + 1;
      }
      k := 0;
      while k < dots.Length
        invariant 0 <= k <= dots.Length
        invariant forall j | 0 <= j < slides.Length :: !slides[j]
        invariant forall j | 0 <= j < k :: !dots[j]
      {
        dots[k] := false;
        k := k + 1;
      }
      ok := true;
      if index.Num? && 0 <= index.n < slides.Length {
        slides[index.n] := true;
        if index.n < dots.Length {
          dots[index.n] := true;
        } else {
          ok := false;
        }
      }
    }

    /** `nextSlide`: the index advanced modulo the number of slides, then shown. */
    method NextSlide() returns (ok: bool)
      requires Valid()
      modifies this, slides, dots
      ensures currentSlideIndex == NextIndex(old(currentSlideIndex), slides.Length)
      ensures slides[..] == Marks(currentSlideIndex, slides.Length, slides.Length)
      ensures dots[..] == Marks(currentSlideIndex, slides.Length, dots.Length)
      ensures ok <==> !InRange(currentSlideIndex, slides.Length) || InRange(currentSlideIndex, dots.Length)
    {
      currentSlideIndex := NextIndex(currentSlideIndex, slides.Length);
      ok := ShowSlide(currentSlideIndex);
    }

    /** `currentSlide(index)`: a dot's 1-based number made the 0-based index, then shown. */
    method CurrentSlide(index: int) returns (ok: bool)
      requires Valid()
      modifies this, slides, dots
      ensures currentSlideIndex == Num(index - 1)
      ensures slides[..] == Marks(currentSlideIndex, slides.Length, slides.Length)
      ensures dots[..] == Marks(currentSlideIndex, slides.Length, dots.Length)
      ensures ok <==> !InRange(currentSlideIndex, slides.Length) || InRange(currentSlideIndex, dots.Length)
    {
      currentSlideIndex := Num(index - 1);
      ok := ShowSlide(currentSlideIndex);
    }
  }
}
