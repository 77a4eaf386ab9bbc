/**
 * `src/pages/Presentation.tsx`: the slide deck's navigation. The deck has
 * eighteen slides; the page shows `slides[currentSlide]`, so the index must
 * stay in range under every control the page offers.
 */
module Presentation {
  import opened Locale

  const SlideCount: nat := 18

  /** The controls: the arrows, a dot under the slides, and the language button. */
  datatype Control = NextArrow | PrevArrow | Dot(index: int) | LanguageButton

  /** The dots exist for the slides only: `slides.map((_, i) => …)`. */
  predicate OnScreen(c: Control) {
    c.Dot? ==> 0 <= c.index < SlideCount
  }

  class Presentation {
    var currentSlide: int
    var lang: Language

    predicate Valid()
      reads this
    {
      0 <= currentSlide < SlideCount
    }

    /** The first slide, in Russian. */
    constructor()
      ensures Valid() && currentSlide == 0 && lang == Ru
    {
      currentSlide := 0;
      lang := Ru;
    }

    /** `nextSlide`: forward one slide unless this is the last. */
    method NextSlide()
      requires Valid()
      modifies this
      ensures Valid() && lang == old(lang)
      ensures old(currentSlide) < SlideCount - 1 ==> currentSlide == old(currentSlide) + 1
      ensures old(currentSlide) == SlideCount - 1 ==> currentSlide == old(currentSlide)
    {
      if currentSlide < SlideCount - 1 {
        currentSlide := currentSlide + 1;
      }
    }

    /** `prevSlide`: back one slide unless this is the first. */
    method PrevSlide()
      requires Valid()
      modifies this
      ensures Valid() && lang == old(lang)
      ensures old(currentSlide) > 0 ==> currentSlide == old(currentSlide) - 1
      ensures old(currentSlide) == 0 ==> currentSlide == 0
    {
      if currentSlide > 0 {
        currentSlide := currentSlide - 1;
      }
    }

    /** A dot: straight to its slide. */
    method SelectSlide(i: int)
      requires Valid() && 0 <= i < SlideCount
      modifies this
      ensures Valid() && currentSlide == i && lang == old(lang)
    {
      currentSlide := i;
    }

    /** `toggleLang`: the other language, on the same slide. */
    method ToggleLang()
      requires Valid()
      modifies this
      ensures Valid() && lang == Toggled(old(lang)) && currentSlide == old(currentSlide)
    {
      lang := Toggled(lang);
    }

    /** One press of a control. */
    method Press(c: Control)
      requires Valid() && OnScreen(c)
      modifies this
      ensures Valid()
      ensures c == NextArrow ==> currentSlide == (if old(currentSlide) < SlideCount - 1 then old(currentSlide) + 1 else old(currentSlide))
      ensures c == PrevArrow ==> currentSlide == (if old(currentSlide) > 0 then old(currentSlide) - 1 else 0)
      ensures c.Dot? ==> currentSlide == c.index
      ensures c == LanguageButton ==> currentSlide == old(currentSlide)
      ensures c == LanguageButton <==> lang != old(lang)
    {
      match c
      case NextArrow => NextSlide();
      case PrevArrow => PrevSlide();
      case Dot(i) => SelectSlide(i);
      case LanguageButton => ToggleLang();
    }

    /**
     * Any sequence of presses keeps the index on a slide, and the
     * language has changed exactly when the button was pressed an odd
     * number of times.
     */
    method PressAll(cs: seq<Control>)
      requires Valid() && forall k :: 0 <= k < |cs| ==> OnScreen(cs[k])
      modifies this
      ensures Valid()
      ensures lang == (if Presses(cs) % 2 == 0 then old(lang) else Toggled(old(lang)))
    {
      var k := 0;
      while k < |cs|
        invariant 0 <= k <= |cs| && Valid()
        invariant lang == (if Presses(cs[..k]) % 2 == 0 then old(lang) else Toggled(old(lang)))
      {
        PressesSnoc(cs[..k], cs[k]);
        assert cs[..k + 1] == cs[..k] + [cs[k]];
        Press(cs[k]);
        k := k + 1;
      }
      assert cs[..k] == cs;
    }
  }

  /** How many times the language button occurs in `cs`. */
  function Presses(cs: seq<Control>): nat
    decreases |cs|
  {
    if cs == [] then 0 else (if cs[0] == LanguageButton then 1 else 0) + Presses(cs[1..])
  }

  lemma {:induction false} PressesSnoc(cs: seq<Control>, c: Control)
    ensures Presses(cs + [c]) == Presses(cs) + (if c == LanguageButton then 1 else 0)
    decreases |cs|
  {
    if cs != [] {
      assert (cs + [c])[1..] == cs[1..] + [c];
      PressesSnoc(cs[1..], c);
    }
  }
}
