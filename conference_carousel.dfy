/**
  The conference carousel's slide index: previous and next wrap around the
  slides, the autoplay tick and the right arrow advance like next, the left
  arrow goes back like previous, and a dot selects its slide. With no
  slides the remainder is NaN, which the index then keeps.
*/
module ConferenceCarousel {

  /** The index state: a number, or NaN. */
  datatype Index = At(i: int) | NotANumber

  /** JavaScript's `%`: the remainder takes the sign of the dividend; NaN for a zero divisor. */
  function JsRem(a: int, n: nat): (r: Index)
    ensures n == 0 <==> r == NotANumber
    ensures n > 0 && a >= 0 ==> r == At(a % n)
  {
    if n == 0 then NotANumber
    else if a >= 0 then At(a % n)
    else At(-((-a) % n))
  }

  /** `(i + 1) % slides.length`. */
  function NextIndex(n: nat, x: Index): Index {
    if x.At? then JsRem(x.i + 1, n) else NotANumber
  }

  /** `(i - 1 + slides.length) % slides.length`. */
  function PrevIndex(n: nat, x: Index): Index {
    if x.At? then JsRem(x.i - 1 + n, n) else NotANumber
  }

  predicate InRange(n: nat, x: Index) {
    x.At? && 0 <= x.i < n
  }

  /** Next moves one forward and wraps from the last slide to the first. */
  lemma NextStep(n: nat, i: int)
    requires 0 <= i < n
    ensures InRange(n, NextIndex(n, At(i)))
    ensures NextIndex(n, At(i)) == At(if i == n - 1 then 0 else i + 1)
  {
  }

  /** Previous moves one back and wraps from the first slide to the last. */
  lemma PrevStep(n: nat, i: int)
    requires 0 <= i < n
    ensures InRange(n, PrevIndex(n, At(i)))
    ensures PrevIndex(n, At(i)) == At(if i == 0 then n - 1 else i - 1)
  {
  }

  /** Previous undoes next and next undoes previous. */
  lemma PrevNextInverse(n: nat, i: int)
    requires 0 <= i < n
    ensures PrevIndex(n, NextIndex(n, At(i))) == At(i)
    ensures NextIndex(n, PrevIndex(n, At(i))) == At(i)
  {
    NextStep(n, i);
    PrevStep(n, i);
    var j := if i == n - 1 then 0 else i + 1;
    PrevStep(n, j);
    var k := if i == 0 then n - 1 else i - 1;
    NextStep(n, k);
  }

  /** Without slides every move leaves NaN. */
  lemma NoSlidesGivesNaN(x: Index)
    ensures NextIndex(0, x) == NotANumber && PrevIndex(0, x) == NotANumber
  {
  }

  class Carousel {
    const slideCount: nat
    var index: Index

    constructor(slideCount: nat)
      ensures this.slideCount == slideCount && index == At(0)
    {
      this.slideCount := slideCount;
      index := At(0);
    }

    method Next()
      modifies this
      ensures index == NextIndex(slideCount, old(index))
    {
      if index.At? {
        index := JsRem(index.i + 1, slideCount);
      }
    }

    method Prev()
      modifies this
      ensures index == PrevIndex(slideCount, old(index))
    {
      if index.At? {
        index := JsRem(index.i - 1 + slideCount, slideCount);
      }
    }

    /** The autoplay interval's tick: the same update as next. */
    method Tick()
      modifies this
      ensures index == NextIndex(slideCount, old(index))
    {
      if index.At? {
        index := JsRem(index.i + 1, slideCount);
      }
    }

    /** Dot i, one per slide. */
    method Dot(i: nat)
      requires i < slideCount
      modifies this
      ensures index == At(i)
    {
      index := At(i);
    }

    /** The keydown handler: ArrowLeft is previous, ArrowRight is next, other keys do nothing. */
    method Key(key: string)
      modifies this
      ensures key == "ArrowLeft" ==> index == PrevIndex(slideCount, old(index))
      ensures key == "ArrowRight" ==> index == NextIndex(slideCount, old(index))
      ensures key != "ArrowLeft" && key != "ArrowRight" ==> index == old(index)
    {
      if key == "ArrowLeft" {
        Prev();
      }
      if key == "ArrowRight" {
        Next();
      }
    }
  }
}
