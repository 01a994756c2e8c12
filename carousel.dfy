/**
 * The feature carousel of the landing page: how many cards one slide shows at a
 * given viewport width, how many slides there are, how the next/previous arrows
 * move the slide index (with JavaScript's truncating `%`), how the feature list
 * is cut into one panel per slide, and which arrows and indicator dots appear.
 */
module Carousel {
  import opened Wrappers

  const LargeScreen: int := 1024
  const MediumScreen: int := 768

  /** Cards per slide for a viewport width; `None` means there is no `window`. */
  function CardsPerSlide(width: Option<int>): (c: nat)
    ensures c == 1 || c == 2 || c == 4
    ensures width.None? ==> c == 4
    ensures width.Some? ==> (c == 4 <==> width.value >= LargeScreen)
    ensures width.Some? ==> (c == 2 <==> MediumScreen <= width.value < LargeScreen)
    ensures width.Some? ==> (c == 1 <==> width.value < MediumScreen)
  {
    match width
    case None => 4
    case Some(w) =>
      if w >= LargeScreen then 4
      else if w >= MediumScreen then 2
      else 1
  }

  /** `Math.ceil(features / cards)` on naturals: the least page count whose pages hold every feature. */
  function PageCount(features: nat, cards: nat): (p: nat)
    requires cards > 0
    ensures features <= p * cards
    ensures p > 0 ==> (p - 1) * cards < features
    ensures features >= 1 ==> p >= 1
    ensures features == 0 ==> p == 0
  {
    var p := (features + cards - 1) / cards;
    assert features + cards - 1 == p * cards + (features + cards - 1) % cards;
    p
  }

  /** JavaScript's `a % b` for a positive divisor: the remainder of division truncated toward zero. */
  function Remainder(a: int, b: int): (r: int)
    requires b > 0
    ensures -b < r < b
    ensures a >= 0 ==> r >= 0 && r == a % b
    ensures a < 0 ==> r <= 0 && r == -((-a) % b)
    ensures (a - r) % b == 0
  {
    if a >= 0 then
      DivMod(a, b);
      ModUnique(a - a % b, b, a / b, 0);
      a % b
    else
      DivMod(-a, b);
      ModUnique(a + (-a) % b, b, -((-a) / b), 0);
      -((-a) % b)
  }

  lemma DivMod(x: int, b: int)
    requires b > 0
    ensures x == (x / b) * b + x % b && 0 <= x % b < b
  {
  }

  /** The remainder is determined by any quotient/remainder decomposition. */
  lemma ModUnique(x: int, b: int, k: int, m: int)
    requires b > 0 && 0 <= m < b && x == k * b + m
    ensures x % b == m && x / b == k
  {
    DivMod(x, b);
    var q := x / b;
    var d := k - q;
    assert d * b == k * b - q * b;
    assert d * b == x % b - m;
    if d > 0 {
      MulMonotone(1, d, b);
      assert false;
    }
  }

  /** The index after the "next" arrow: `(prev + 1) % pageCount`. */
  function Next(i: int, pages: nat): (r: int)
    requires pages >= 1
    ensures i >= 0 ==> 0 <= r < pages && r == (i + 1) % pages
    ensures 0 <= i < pages - 1 ==> r == i + 1
    ensures i == pages - 1 ==> r == 0
  {
    Remainder(i + 1, pages)
  }

  /** The index after the "previous" arrow: `(prev - 1 + pageCount) % pageCount`. */
  function Prev(i: int, pages: nat): (r: int)
    requires pages >= 1
    ensures i >= 0 ==> 0 <= r < pages && r == (i - 1 + pages) % pages
    ensures 0 < i < pages ==> r == i - 1
    ensures i == 0 ==> r == pages - 1
  {
    Remainder(i - 1 + pages, pages)
  }

  /** On in-range indices the two arrows undo each other. */
  lemma NextPrevInverse(i: int, pages: nat)
    requires pages >= 1 && 0 <= i < pages
    ensures Prev(Next(i, pages), pages) == i
    ensures Next(Prev(i, pages), pages) == i
  {
  }

  /**
   * Any non-negative index, in particular one left over from another width and
   * so possibly too large, is brought back in range by one click at any width.
   */
  lemma StaleIndexRecovers(i: int, width: Option<int>, features: nat)
    requires features >= 1 && i >= 0
    ensures 0 <= Next(i, PageCount(features, CardsPerSlide(width))) < PageCount(features, CardsPerSlide(width))
    ensures 0 <= Prev(i, PageCount(features, CardsPerSlide(width))) < PageCount(features, CardsPerSlide(width))
  {
  }

  /** The index after `n` clicks on the "next" arrow. */
  function NextTimes(i: int, pages: nat, n: nat): int
    requires pages >= 1
  {
    if n == 0 then i else Next(NextTimes(i, pages, n - 1), pages)
  }

  /** `n` clicks on "next" advance an in-range index by `n` pages, modulo the page count. */
  lemma {:induction false} NextTimesAdvances(i: int, pages: nat, n: nat)
    requires pages >= 1 && 0 <= i < pages
    ensures NextTimes(i, pages, n) == (i + n) % pages
  {
    if n == 0 {
      ModUnique(i, pages, 0, i);
    } else {
      NextTimesAdvances(i, pages, n - 1);
      ModSucc(i + n - 1, pages);
    }
  }

  /** `pageCount` clicks on "next" bring an in-range index back to where it was. */
  lemma NextTimesFullCycle(i: int, pages: nat)
    requires pages >= 1 && 0 <= i < pages
    ensures NextTimes(i, pages, pages) == i
  {
    NextTimesAdvances(i, pages, pages);
    ModUnique(i + pages, pages, 1, i);
  }

  lemma ModSucc(a: nat, m: nat)
    requires m >= 1
    ensures (a % m + 1) % m == (a + 1) % m
  {
    DivMod(a, m);
    var q := a / m;
    if a % m + 1 < m {
      ModUnique(a % m + 1, m, 0, a % m + 1);
      ModUnique(a + 1, m, q, a % m + 1);
    } else {
      ModUnique(a % m + 1, m, 1, 0);
      ModUnique(a + 1, m, q + 1, 0);
    }
  }

  /** JavaScript's `s.slice(from, to)` for non-negative bounds: both bounds are clamped to the length. */
  function Slice<T>(s: seq<T>, from: nat, to: nat): (r: seq<T>)
    ensures |r| == if from < to && from < |s| then (if to < |s| then to else |s|) - from else 0
    ensures forall k :: 0 <= k < |r| ==> r[k] == s[from + k]
  {
    var lo := if from < |s| then from else |s|;
    var hi := if to < |s| then to else |s|;
    if lo < hi then s[lo..hi] else []
  }

  /** The key (and ID index) of card `index` on slide `slide`. */
  function CardKey(slide: nat, cards: nat, index: nat): nat
  {
    slide * cards + index
  }

  /** The features shown on slide `slide`. */
  function Panel<T>(features: seq<T>, slide: nat, cards: nat): seq<T>
  {
    Slice(features, slide * cards, (slide + 1) * cards)
  }

  /** One panel per slide, in slide order. */
  function Panels<T>(features: seq<T>, cards: nat): (ps: seq<seq<T>>)
    requires cards > 0
    ensures |ps| == PageCount(|features|, cards)
  {
    seq(PageCount(|features|, cards), slide requires 0 <= slide => Panel(features, slide, cards))
  }

  /** The cards of all panels laid end to end. */
  function Concat<T>(ss: seq<seq<T>>): seq<T>
  {
    if ss == [] then [] else Concat(ss[..|ss| - 1]) + ss[|ss| - 1]
  }

  /** Card `index` of a panel is the feature whose position is its key. */
  lemma PanelCardIsFeatureAtKey<T>(features: seq<T>, slide: nat, cards: nat, index: nat)
    requires index < |Panel(features, slide, cards)|
    ensures index < cards
    ensures CardKey(slide, cards, index) < |features|
    ensures Panel(features, slide, cards)[index] == features[CardKey(slide, cards, index)]
  {
    assert (slide + 1) * cards == slide * cards + cards;
  }

  /** Every slide in range shows at least one card. */
  lemma PanelNonEmpty<T>(features: seq<T>, slide: nat, cards: nat)
    requires cards > 0 && slide < PageCount(|features|, cards)
    ensures |Panel(features, slide, cards)| >= 1
  {
    var p := PageCount(|features|, cards);
    MulMonotone(slide, p - 1, cards);
    assert (slide + 1) * cards == slide * cards + cards;
  }

  /** Two different card positions never share a key, so no feature appears on two panels. */
  lemma CardKeysDistinct(cards: nat, s1: nat, i1: nat, s2: nat, i2: nat)
    requires i1 < cards && i2 < cards
    requires s1 != s2 || i1 != i2
    ensures CardKey(s1, cards, i1) != CardKey(s2, cards, i2)
  {
    if s1 < s2 {
      MulMonotone(s1 + 1, s2, cards);
      assert (s1 + 1) * cards == s1 * cards + cards;
    } else if s2 < s1 {
      MulMonotone(s2 + 1, s1, cards);
      assert (s2 + 1) * cards == s2 * cards + cards;
    }
  }

  /** Every feature sits on slide `j / cards` at card `j % cards`. */
  lemma FeatureHasPanel<T>(features: seq<T>, cards: nat, j: nat)
    requires cards > 0 && j < |features|
    ensures j / cards < PageCount(|features|, cards)
    ensures j % cards < |Panel(features, j / cards, cards)|
    ensures CardKey(j / cards, cards, j % cards) == j
    ensures Panel(features, j / cards, cards)[j % cards] == features[j]
  {
    var s, k := j / cards, j % cards;
    assert j == s * cards + k;
    var p := PageCount(|features|, cards);
    if s >= p {
      MulMonotone(p, s, cards);
      assert false;
    }
    assert (s + 1) * cards == s * cards + cards;
  }

  lemma MulMonotone(a: nat, b: nat, c: nat)
    requires a <= b
    ensures a * c <= b * c
  {
    assert b * c == a * c + (b - a) * c;
  }

  /** Slide `slide` in range shows the features from `slide * cards` up to the next slide's start or the end. */
  lemma PanelIsSubrange<T>(features: seq<T>, cards: nat, slide: nat)
    requires cards > 0 && slide < PageCount(|features|, cards)
    ensures slide * cards < |features|
    ensures (slide + 1) * cards <= |features| ==>
              Panel(features, slide, cards) == features[slide * cards..(slide + 1) * cards]
    ensures (slide + 1) * cards > |features| ==>
              Panel(features, slide, cards) == features[slide * cards..]
  {
    MulMonotone(slide, PageCount(|features|, cards) - 1, cards);
  }

  /** Laying out a non-empty list of panels is laying out all but the last, then the last. */
  lemma ConcatLast<T>(ss: seq<seq<T>>)
    requires |ss| > 0
    ensures Concat(ss) == Concat(ss[..|ss| - 1]) + ss[|ss| - 1]
  {
  }

  /** A prefix followed by the next stretch is the longer prefix. */
  lemma PrefixAppend<T>(s: seq<T>, lo: nat, hi: nat)
    requires lo <= hi <= |s|
    ensures s[..lo] + s[lo..hi] == s[..hi]
    ensures hi == |s| ==> s[..lo] + s[lo..] == s
  {
  }

  /** The first `k` panels, laid end to end, are the features before position `k * cards`. */
  lemma {:induction false} ConcatPrefix<T>(features: seq<T>, cards: nat, k: nat)
    requires cards > 0 && k <= PageCount(|features|, cards)
    ensures k * cards <= |features| ==> Concat(Panels(features, cards)[..k]) == features[..k * cards]
    ensures k * cards > |features| ==> Concat(Panels(features, cards)[..k]) == features
  {
    var ps := Panels(features, cards);
    if k > 0 {
      ConcatPrefix(features, cards, k - 1);
      PanelIsSubrange(features, cards, k - 1);
      assert ps[..k][..k - 1] == ps[..k - 1];
      assert ps[..k][k - 1] == Panel(features, k - 1, cards);
      var lo := (k - 1) * cards;
      assert lo + cards == k * cards;
      ConcatLast(ps[..k]);
      if k * cards <= |features| {
        PrefixAppend(features, lo, k * cards);
      } else {
        PrefixAppend(features, lo, |features|);
      }
    }
  }

  /** The panels cover the feature list exactly once, in order, and none is empty. */
  lemma PanelsPartition<T>(features: seq<T>, cards: nat)
    requires cards > 0
    ensures Concat(Panels(features, cards)) == features
    ensures forall s :: 0 <= s < |Panels(features, cards)| ==> |Panels(features, cards)[s]| >= 1
  {
    var ps := Panels(features, cards);
    var p := |ps|;
    ConcatPrefix(features, cards, p);
    assert ps[..p] == ps;
    if p * cards == |features| {
      assert features[..p * cards] == features;
    }
    forall s | 0 <= s < p
      ensures |ps[s]| >= 1
    {
      PanelNonEmpty(features, s, cards);
    }
  }

  /** One indicator dot: the slide it jumps to and whether it is highlighted. */
  datatype Dot = Dot(index: nat, active: bool)

  /** What the carousel shows besides the cards. */
  datatype CarouselView<T> = CarouselView(panels: seq<seq<T>>, showArrows: bool, dots: seq<Dot>)

  /** The carousel for `features`, `cards` cards per slide and slide index `current`. */
  function Render<T>(features: seq<T>, cards: nat, current: int): (v: CarouselView<T>)
    requires cards > 0
    ensures v.panels == Panels(features, cards)
    ensures v.showArrows <==> PageCount(|features|, cards) > 1
    ensures |v.dots| > 0 <==> v.showArrows
    ensures v.showArrows ==> |v.dots| == PageCount(|features|, cards)
    ensures forall k :: 0 <= k < |v.dots| ==> v.dots[k].index == k
    ensures forall k :: 0 <= k < |v.dots| ==> (v.dots[k].active <==> k == current)
  {
    var pages := PageCount(|features|, cards);
    var controls := pages > 1;
    CarouselView(
      Panels(features, cards),
      controls,
      if controls then seq(pages, k requires 0 <= k => Dot(k, current == k)) else [])
  }

  /** After a dot jump to slide `k`, exactly the dot for `k` is highlighted. */
  lemma JumpHighlightsOnlyTarget<T>(features: seq<T>, cards: nat, k: nat)
    requires cards > 0 && k < PageCount(|features|, cards) && PageCount(|features|, cards) > 1
    ensures k < |Render(features, cards, k).dots| && Render(features, cards, k).dots[k].active
    ensures forall j :: 0 <= j < |Render(features, cards, k).dots| && j != k ==>
              !Render(features, cards, k).dots[j].active
  {
  }

  /** An index kept from a narrower viewport can exceed the page count; then no dot is highlighted. */
  lemma StaleIndexHighlightsNoDot<T>(features: seq<T>, cards: nat, current: int)
    requires cards > 0 && current >= PageCount(|features|, cards)
    ensures forall k :: 0 <= k < |Render(features, cards, current).dots| ==>
              !Render(features, cards, current).dots[k].active
  {
  }
}
