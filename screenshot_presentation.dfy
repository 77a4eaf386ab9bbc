/**
 * `src/pages/ScreenshotPresentation.tsx`: the navigation of the ten-slide
 * screenshot deck. Every control goes through `goToSlide`, which ignores
 * an index outside the deck.
 */
module ScreenshotPresentation {
  import opened Locale

  const SlideCount: nat := 10

  /** The controls: the arrows, any dot, and the language button. */
  datatype Control = NextArrow | PrevArrow | Dot(index: int) | LanguageButton

  class ScreenshotPresentation {
    var currentSlide: int
    var lang: Language

    predicate Valid()
      reads this
    {
      0 <= currentSlide < SlideCount
    }

    /** The first slide, in Russian. */
    constructor()
      ensures Valid() && currentSlide == 0 && lang == Ru
    {
      currentSlide := 0;
      lang := Ru;
    }

    /** `goToSlide`: to slide `index` exactly when it is one of the deck's; otherwise nothing changes. */
    method GoToSlide(index: int)
      requires Valid()
      modifies this
      ensures Valid() && lang == old(lang)
      ensures 0 <= index < SlideCount ==> currentSlide == index
      ensures !(0 <= index < SlideCount) ==> currentSlide == old(currentSlide)
    {
      if index >= 0 && index < SlideCount {
        currentSlide := index;
      }
    }

    /** `toggleLang`: the other language, on the same slide. */
    method ToggleLang()
      requires Valid()
      modifies this
      ensures Valid() && lang == Toggled(old(lang)) && currentSlide == old(currentSlide)
    {
      lang := Toggled(lang);
    }

    /** One press: the arrows go to the neighbouring index, a dot to its own. */
    method Press(c: Control)
      requires Valid()
      modifies this
      ensures Valid()
      ensures c == NextArrow ==> currentSlide == (if old(currentSlide) + 1 < SlideCount then old(currentSlide) + 1 else old(currentSlide))
      ensures c == PrevArrow ==> currentSlide == (if old(currentSlide) > 0 then old(currentSlide) - 1 else 0)
      ensures c.Dot? ==> currentSlide == (if 0 <= c.index < SlideCount then c.index else old(currentSlide))
      ensures c == LanguageButton ==> currentSlide == old(currentSlide) && lang == Toggled(old(lang))
      ensures c != LanguageButton ==> lang == old(lang)
    {
      match c
      case NextArrow => GoToSlide(currentSlide + 1);
      case PrevArrow => GoToSlide(currentSlide - 1);
      case Dot(i) => GoToSlide(i);
      case LanguageButton => ToggleLang();
    }

    /**
     * Any sequence of presses, with any indices, keeps the index on a
     * slide; the language has flipped exactly when the button was pressed
     * an odd number of times.
     */
    method PressAll(cs: seq<Control>)
      requires Valid()
      modifies this
      ensures Valid()
      ensures lang == if Presses(cs) % 2 == 0 then old(lang) else Toggled(old(lang))
    {
      var k := 0;
      while k < |cs|
        invariant 0 <= k <= |cs| && Valid()
        invariant lang == if Presses(cs[..k]) % 2 == 0 then old(lang) else Toggled(old(lang))
      {
        PressesSnoc(cs[..k], cs[k]);
        assert cs[..k + 1] == cs[..k] + [cs[k]];
        Press(cs[k]);
        k := k + 1;
      }
      assert cs[..k] == cs;
    }
  }

  /** How many times the language button occurs in `cs`. */
  function Presses(cs: seq<Control>): nat
    decreases |cs|
  {
    if cs == [] then 0 else (if cs[0] == LanguageButton then 1 else 0) + Presses(cs[1..])
  }

  lemma {:induction false} PressesSnoc(cs: seq<Control>, c: Control)
    ensures Presses(cs + [c]) == Presses(cs) + (if c == LanguageButton then 1 else 0)
    decreases |cs|
  {
    if cs != [] {
      assert (cs + [c])[1..] == cs[1..] + [c];
      PressesSnoc(cs[1..], c);
    }
  }
}
