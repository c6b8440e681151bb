/** The hero banner: four slides, a current slide and a play/pause flag.
    Autoplay is a tick that advances the slide while playing; the five-second
    timer that issues the ticks is not modelled. */
module BannerCarousel {
  import opened CyclicIndex

  /** `bannerSlides.length`. */
  const SLIDE_COUNT: int := 4

  datatype Carousel = Carousel(currentSlide: int, isPlaying: bool)

  /** One autoplay tick: advance while playing, otherwise nothing. */
  function Tick(c: Carousel): (r: Carousel)
    ensures r.isPlaying == c.isPlaying
  {
    if c.isPlaying then c.(currentSlide := NextIndex(c.currentSlide, SLIDE_COUNT)) else c
  }

  function Ticks(c: Carousel, k: nat): Carousel
  {
    if k == 0 then c else Tick(Ticks(c, k - 1))
  }

  /** While playing, `k` ticks are `k` next steps; while paused they change
      nothing. */
  lemma {:induction false} TicksAdvance(c: Carousel, k: nat)
    ensures c.isPlaying ==> Ticks(c, k) == c.(currentSlide := Advance(c.currentSlide, SLIDE_COUNT, k))
    ensures !c.isPlaying ==> Ticks(c, k) == c
  {
    if k > 0 {
      TicksAdvance(c, k - 1);
    }
  }

  /** A full round of autoplay ticks shows every slide once and comes back
      to the starting one. */
  lemma AutoplayCycles(c: Carousel)
    requires c.isPlaying && InRange(c.currentSlide, SLIDE_COUNT)
    ensures Ticks(c, SLIDE_COUNT as nat) == c
  {
    TicksAdvance(c, SLIDE_COUNT as nat);
    FullCycle(c.currentSlide, SLIDE_COUNT);
  }

  class Banner {
    var currentSlide: int
    var isPlaying: bool

    function State(): Carousel
      reads this
    {
      Carousel(currentSlide, isPlaying)
    }

    /** The component starts on the first slide, playing. */
    constructor ()
      ensures State() == Carousel(0, true)
    {
      currentSlide := 0;
      isPlaying := true;
    }

    /** `nextSlide`. */
    method NextSlide()
      modifies this
      ensures State() == old(State()).(currentSlide := NextIndex(old(currentSlide), SLIDE_COUNT))
    {
      currentSlide := JsRem(currentSlide + 1, SLIDE_COUNT);
    }

    /** `prevSlide`. */
    method PrevSlide()
      modifies this
      ensures State() == old(State()).(currentSlide := PrevIndex(old(currentSlide), SLIDE_COUNT))
    {
      currentSlide := JsRem(currentSlide - 1 + SLIDE_COUNT, SLIDE_COUNT);
    }

    /** `goToSlide`: any index is taken as is. */
    method GoToSlide(index: int)
      modifies this
      ensures State() == old(State()).(currentSlide := index)
    {
      currentSlide := index;
    }

    /** `togglePlayPause`. */
    method TogglePlayPause()
      modifies this
      ensures State() == old(State()).(isPlaying := !old(isPlaying))
    {
      isPlaying := !isPlaying;
    }

    /** The autoplay interval's callback. */
    method AutoplayTick()
      modifies this
      ensures State() == Tick(old(State()))
    {
      if isPlaying {
        currentSlide := JsRem(currentSlide + 1, SLIDE_COUNT);
      }
    }
  }
}
