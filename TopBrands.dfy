/** The "top brands" strip: a window of six brands that slides over the list
    one position at a time, wrapping around after `max(1, len - 6)` steps. */
module TopBrands {
  import opened CyclicIndex

  datatype Brand = Brand(id: nat, name: string, displayName: string, logo: string, color: string, isImage: bool)

  const BRANDS: seq<Brand> := [
    Brand(1, "diotec", "Diotec", "Diotec", "from-red-500 to-red-600", false),
    Brand(2, "enfalion", "Enfalion", "ENFALION®", "from-gray-500 to-gray-600", false),
    Brand(3, "everlight", "Everlight", "EVERLIGHT®", "from-blue-500 to-blue-600", false),
    Brand(4, "edison", "Edison", "EDISON", "from-blue-500 to-blue-600", false),
    Brand(5, "fagor", "Fagor", "FAGOR", "from-red-500 to-red-600", false),
    Brand(6, "rabyte.logo1", "Rabyte", "https://www.rabyte.com/web/image/product.brand.ept/119/logo", "from-gray-500 to-gray-600", true),
    Brand(7, "rabyte.logo2", "Rabyte", "https://www.rabyte.com/web/image/product.brand.ept/124/logo", "from-gray-500 to-gray-600", true),
    Brand(8, "rabyte.logo3", "Rabyte", "https://www.rabyte.com/web/image/product.brand.ept/137/logo", "from-gray-500 to-gray-600", true)
  ]

  /** The window width. */
  const WINDOW: int := 6

  /** The number of window positions the strip cycles through. */
  function Period(len: int): (m: int)
    ensures m >= 1
    ensures len > WINDOW + 1 ==> m == len - WINDOW
  {
    Max(1, len - WINDOW)
  }

  /** `Array.prototype.slice(start, end)`: negative bounds count from the
      end, and both are clamped to the array. */
  function Clamp(k: int, len: int): (r: int)
    requires len >= 0
    ensures 0 <= r <= len
  {
    if k < 0 then Max(len + k, 0) else if k > len then len else k
  }

  function Slice<T>(xs: seq<T>, start: int, end: int): seq<T>
  {
    var from := Clamp(start, |xs|);
    var to := Clamp(end, |xs|);
    if from <= to then xs[from..to] else []
  }

  /** `visibleBrands`. */
  function VisibleBrands(brands: seq<Brand>, i: int): seq<Brand>
  {
    Slice(brands, i, i + WINDOW)
  }

  /** The listed brands cycle through two positions. */
  lemma ListedPeriod()
    ensures Period(|BRANDS|) == 2
  {
  }

  /** With seven brands or fewer the strip never moves. */
  lemma ShortListIsFixed(len: int)
    requires len <= WINDOW + 1
    ensures Period(len) == 1
    ensures NextIndex(0, Period(len)) == 0 && PrevIndex(0, Period(len)) == 0
  {
  }

  /** At every reachable position the window is the contiguous run of at
      most six brands starting there; when there are more than six brands it
      holds exactly six, and the last brand is never among them. */
  lemma WindowShape(brands: seq<Brand>, i: int)
    requires InRange(i, Period(|brands|))
    ensures |brands| <= WINDOW ==> VisibleBrands(brands, i) == brands
    ensures |brands| > WINDOW ==>
              i + WINDOW <= |brands| - 1 && VisibleBrands(brands, i) == brands[i..i + WINDOW] &&
              |VisibleBrands(brands, i)| == WINDOW
    ensures |VisibleBrands(brands, i)| <= WINDOW
  {
  }

  /** The last brand never appears in any window of the listed brands. */
  lemma LastBrandNeverShown(i: int)
    requires InRange(i, Period(|BRANDS|))
    ensures BRANDS[|BRANDS| - 1] !in VisibleBrands(BRANDS, i)
  {
    WindowShape(BRANDS, i);
    var w := VisibleBrands(BRANDS, i);
    assert w == BRANDS[0..6] || w == BRANDS[1..7];
    forall k | 0 <= k < |w|
      ensures w[k].id != 8
    {
    }
  }

  class BrandStrip {
    const brands: seq<Brand>
    var currentIndex: int

    constructor (brands: seq<Brand>)
      ensures this.brands == brands && currentIndex == 0
    {
      this.brands := brands;
      currentIndex := 0;
    }

    function Visible(): seq<Brand>
      reads this
    {
      VisibleBrands(brands, currentIndex)
    }

    /** `nextSlide`. */
    method NextSlide()
      modifies this
      ensures currentIndex == NextIndex(old(currentIndex), Period(|brands|))
    {
      var m := Max(1, |brands| - 6);
      currentIndex := JsRem(currentIndex + 1, m);
    }

    /** `prevSlide`. */
    method PrevSlide()
      modifies this
      ensures currentIndex == PrevIndex(old(currentIndex), Period(|brands|))
    {
      var m := Max(1, |brands| - 6);
      currentIndex := JsRem(currentIndex - 1 + m, m);
    }
  }
}
