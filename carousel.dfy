/**
 * The hand-rolled slide show of the home page script: a 1-based slide
 * index that wraps to the first slide past the end and to the last before
 * the start, one slide displayed and one dot carrying " active".
 *
 * Each dot's class is kept as the string the script edits: the " active"
 * word is stripped with a first-occurrence `replace` and added back by
 * string concatenation.
 */
module Slides {
  import opened Text

  const Active := " active"

  /**
   * A dot's class string in the shape the slide show keeps: without
   * " active", or with exactly one, at the end.
   */
  predicate DotForm(c: string) {
    !Contains(c, Active) || (|c| >= |Active| && c[|c| - |Active|..] == Active && !Contains(c[..|c| - |Active|], Active))
  }

  /** The only " active" in `b + " active"`, when `b` has none, is the last one, so stripping gives `b` back. */
  lemma {:induction false} StripTrailingActive(b: string)
    requires !Contains(b, Active)
    ensures ReplaceFirst(b + Active, Active, "") == b
    decreases |b|
  {
    var s := b + Active;
    if b == [] {
      assert s[..|Active|] == Active;
    } else {
      if |b| >= |Active| {
        assert !OccursAt(b, Active, 0);
        assert s[..|Active|] == b[..|Active|];
      } else {
        assert s[|b|] == ' ' && Active[|b|] != ' ';
      }
      assert s[..|Active|] != Active;
      assert !Contains(b[1..], Active) by {
        forall k | 0 <= k <= |b[1..]| - |Active| && OccursAt(b[1..], Active, k)
          ensures false
        {
          assert b[k + 1..k + 1 + |Active|] == b[1..][k..k + |Active|];
          assert OccursAt(b, Active, k + 1);
        }
      }
      StripTrailingActive(b[1..]);
      assert s[1..] == b[1..] + Active;
    }
  }

  /** Stripping " active" once from a dot in shape leaves no " active" at all. */
  lemma StripDot(c: string)
    requires DotForm(c)
    ensures !Contains(ReplaceFirst(c, Active, ""), Active)
  {
    if Contains(c, Active) {
      var b := c[..|c| - |Active|];
      assert c == b + Active;
      StripTrailingActive(b);
    } else {
      ReplaceAbsent(c, Active, "");
    }
  }

  /** Appending " active" to a dot without one gives a dot in shape that has it. */
  lemma AddActive(b: string)
    requires !Contains(b, Active)
    ensures DotForm(b + Active) && Contains(b + Active, Active)
  {
    var c := b + Active;
    assert OccursAt(c, Active, |b|);
    assert c[..|c| - |Active|] == b;
  }

  /**
   * The index `showSlides(n)` settles on, when `n` is the index it was
   * given: past the last slide it restarts at 1, before the first it goes
   * to the last; any other value stands.
   */
  function Wrap(n: int, count: nat): (r: int)
    ensures count >= 1 ==> 1 <= r <= count
    ensures 1 <= n <= count ==> r == n
    ensures n > count ==> r == 1
    ensures n < 1 ==> r == count
    ensures count == 0 ==> r == (if n > 0 then 1 else 0)
  {
    if n > count then 1
    else if n < 1 then count
    else n
  }

  /**
   * `slideShown[i]` says whether slide i is displayed, `dotClass[i]` is
   * the class string of dot i, and `slideIndex` is the script's 1-based
   * current slide.
   */
  class Carousel {
    var slideIndex: int
    const slideShown: array<bool>
    const dotClass: array<string>

    predicate Valid()
      reads this, dotClass
    {
      forall i :: 0 <= i < dotClass.Length ==> DotForm(dotClass[i])
    }

    /** The page as served: the script starts at slide 1. */
    constructor(shown: seq<bool>, dots: seq<string>)
      requires forall i :: 0 <= i < |dots| ==> DotForm(dots[i])
      ensures Valid() && slideIndex == 1 && slideShown[..] == shown && dotClass[..] == dots
    {
      slideIndex := 1;
      slideShown := new bool[|shown|](i requires 0 <= i < |shown| => shown[i]);
      dotClass := new string[|dots|](i requires 0 <= i < |dots| => dots[i]);
    }

    /** The first loop of showSlides: every slide gets `display: none`. */
    method HideSlides()
      modifies slideShown
      ensures forall k :: 0 <= k < slideShown.Length ==> !slideShown[k]
    {
      var i := 0;
      while i < slideShown.Length
        invariant 0 <= i <= slideShown.Length
        invariant forall k :: 0 <= k < i ==> !slideShown[k]
      {
        slideShown[i] := false;
        i := i + 1;
      }
    }

    /** The second loop of showSlides: every dot loses its first " active", and then has none. */
    method StripDots()
      requires Valid()
      modifies dotClass
      ensures forall k :: 0 <= k < dotClass.Length ==> dotClass[k] == ReplaceFirst(old(dotClass[k]), Active, "")
      ensures forall k :: 0 <= k < dotClass.Length ==> !Contains(dotClass[k], Active)
    {
      var i := 0;
      while i < dotClass.Length
        invariant 0 <= i <= dotClass.Length
        invariant forall k :: 0 <= k < i ==> dotClass[k] == ReplaceFirst(old(dotClass[k]), Active, "")
        invariant forall k :: 0 <= k < i ==> !Contains(dotClass[k], Active)
        invariant forall k :: i <= k < dotClass.Length ==> dotClass[k] == old(dotClass[k])
      {
        StripDot(dotClass[i]);
        dotClass[i] := ReplaceFirst(dotClass[i], Active, "");
        i := i + 1;
      }
    }

    /** The end of showSlides: the slide the index names, if any, is displayed and its dot gains " active". */
    method ShowCurrent() returns (ok: bool)
      requires forall k :: 0 <= k < slideShown.Length ==> !slideShown[k]
      requires forall k :: 0 <= k < dotClass.Length ==> !Contains(dotClass[k], Active)
      modifies slideShown, dotClass
      ensures Valid()
      ensures forall i :: 0 <= i < slideShown.Length ==> (slideShown[i] <==> i == slideIndex - 1)
      ensures forall i :: 0 <= i < dotClass.Length ==>
                dotClass[i] == old(dotClass[i]) + (if i == slideIndex - 1 && i < slideShown.Length then Active else "")
      ensures forall i :: 0 <= i < dotClass.Length ==>
                (Contains(dotClass[i], Active) <==> i == slideIndex - 1 && i < slideShown.Length)
      ensures ok <==> !(1 <= slideIndex <= slideShown.Length) || slideIndex <= dotClass.Length
    {
      ok := true;
      if 1 <= slideIndex <= slideShown.Length {
        slideShown[slideIndex - 1] := true;
        if slideIndex - 1 < dotClass.Length {
          AddActive(dotClass[slideIndex - 1]);
          dotClass[slideIndex - 1] := dotClass[slideIndex - 1] + Active;
        } else {
          ok := false;
        }
      }
    }

    /**
     * showSlides(n): the index is wrapped as `Wrap` says, every slide is
     * hidden and every dot loses its first " active"; then, if the index
     * names a slide, that slide is displayed and its dot gains " active".
     * `ok` is false when that dot is missing and the script stops with an
     * error, after displaying the slide.
     */
    method ShowSlides(n: int) returns (ok: bool)
      requires Valid()
      modifies this`slideIndex, slideShown, dotClass
      ensures Valid()
      ensures slideIndex == if 1 <= n <= slideShown.Length then old(slideIndex) else Wrap(n, slideShown.Length)
      ensures forall i :: 0 <= i < slideShown.Length ==> (slideShown[i] <==> i == slideIndex - 1)
      ensures forall i :: 0 <= i < dotClass.Length ==>
                dotClass[i] == ReplaceFirst(old(dotClass[i]), Active, "") +
                               (if i == slideIndex - 1 && i < slideShown.Length then Active else "")
      ensures forall i :: 0 <= i < dotClass.Length ==>
                (Contains(dotClass[i], Active) <==> i == slideIndex - 1 && i < slideShown.Length)
      ensures ok <==> !(1 <= slideIndex <= slideShown.Length) || slideIndex <= dotClass.Length
    {
      if n > slideShown.Length {
        slideIndex := 1;
      }
      if n < 1 {
        slideIndex := slideShown.Length;
      }
      HideSlides();
      StripDots();
      ok := ShowCurrent();
    }

    /** plusSlides(n): step the index by `n` and show it; `ok` as for `ShowSlides`. */
    method PlusSlides(n: int) returns (ok: bool)
      requires Valid()
      modifies this`slideIndex, slideShown, dotClass
      ensures Valid()
      ensures slideIndex == Wrap(old(slideIndex) + n, slideShown.Length)
      ensures slideShown.Length >= 1 ==> 1 <= slideIndex <= slideShown.Length
      ensures forall i :: 0 <= i < slideShown.Length ==> (slideShown[i] <==> i == slideIndex - 1)
      ensures forall i :: 0 <= i < dotClass.Length ==>
                dotClass[i] == ReplaceFirst(old(dotClass[i]), Active, "") +
                               (if i == slideIndex - 1 && i < slideShown.Length then Active else "")
      ensures forall i :: 0 <= i < dotClass.Length ==>
                (Contains(dotClass[i], Active) <==> i == slideIndex - 1 && i < slideShown.Length)
      ensures ok <==> slideShown.Length == 0 || slideIndex <= dotClass.Length
    {
      slideIndex := slideIndex + n;
      ok := ShowSlides(slideIndex);
    }

    /** currentSlide(n): jump to slide `n` and show it; `ok` as for `ShowSlides`. */
    method CurrentSlide(n: int) returns (ok: bool)
      requires Valid()
      modifies this`slideIndex, slideShown, dotClass
      ensures Valid()
      ensures slideIndex == Wrap(n, slideShown.Length)
      ensures slideShown.Length >= 1 ==> 1 <= slideIndex <= slideShown.Length
      ensures forall i :: 0 <= i < slideShown.Length ==> (slideShown[i] <==> i == slideIndex - 1)
      ensures forall i :: 0 <= i < dotClass.Length ==>
                dotClass[i] == ReplaceFirst(old(dotClass[i]), Active, "") +
                               (if i == slideIndex - 1 && i < slideShown.Length then Active else "")
      ensures forall i :: 0 <= i < dotClass.Length ==>
                (Contains(dotClass[i], Active) <==> i == slideIndex - 1 && i < slideShown.Length)
      ensures ok <==> slideShown.Length == 0 || slideIndex <= dotClass.Length
    {
      slideIndex := n;
      ok := ShowSlides(slideIndex);
    }
  }
}
