/**
  The overlay scene: a layout, live data and timed banners, flattened into a list of elements
  sorted by layer.
*/
module OverlayScene {
  import opened Arithmetic
  import opened Sequences
  import opened Wrappers
  import opened Decimal
  import opened OverlayText

  const MS_PER_SECOND: nat := 1000
  const SECONDS_PER_MINUTE: nat := 60

  datatype Shape = UnknownShape | RectShape | TextShape | CircleShape

  datatype Binding = Static | ScoreA | ScoreB | ScoreVs | TeamAName | TeamBName | MatchClock | PeriodLabel

  datatype PeriodState = InPlay | HalfTime | FullTime

  datatype Bounds = Bounds(x1: real, y1: real, x2: real, y2: real, z: nat)

  datatype Style = Style(
    fillColor: string, textColor: string, opacity: real, cornerRadius: real,
    fontFamily: string, fontSize: real, textAlign: nat, fontWeight: nat, staticText: string)

  datatype Element = Element(id: string, shape: Shape, bounds: Bounds, style: Style, binding: Binding, visible: bool)

  datatype Template = Template(eventType: string, durationMs: nat, elements: seq<Element>)

  datatype Layout = Layout(canvasWidth: nat, canvasHeight: nat, elements: seq<Element>, templates: seq<Template>)

  datatype BindingData = BindingData(
    scoreA: nat, scoreB: nat, period: nat, clockSeconds: nat, periodState: PeriodState, teamAName: string, teamBName: string)

  datatype Banner = Banner(expiresAtMs: nat, elements: seq<Element>)

  datatype RenderElement = RenderElement(shape: Shape, bounds: Bounds, style: Style, text: string)

  datatype RenderScene = RenderScene(canvasWidth: nat, canvasHeight: nat, elements: seq<RenderElement>)

  datatype SceneState = SceneState(layout: Layout, hasLayout: bool, data: BindingData, banners: seq<Banner>)

  const NO_LAYOUT := Layout(0, 0, [], [])
  const NO_DATA := BindingData(0, 0, 0, 0, InPlay, "", "")
  const EMPTY_SCENE := SceneState(NO_LAYOUT, false, NO_DATA, [])

  // ---------- Resolving ----------

  function TwoDigits(n: nat): string {
    if n < 10 then "0" + ToString(n) else ToString(n)
  }

  function ResolveText(data: BindingData, e: Element): string {
    if e.shape != TextShape then ""
    else
      match e.binding
      case Static => e.style.staticText
      case ScoreA => ToString(data.scoreA)
      case ScoreB => ToString(data.scoreB)
      case ScoreVs => ToString(data.scoreA) + " \U{2013} " + ToString(data.scoreB)
      case TeamAName => data.teamAName
      case TeamBName => data.teamBName
      case MatchClock =>
        TwoDigits(data.clockSeconds / SECONDS_PER_MINUTE) + ":" + TwoDigits(data.clockSeconds % SECONDS_PER_MINUTE)
      case PeriodLabel =>
        match data.periodState
        case HalfTime => "HT"
        case FullTime => "FT"
        case InPlay => "P" + ToString(data.period)
  }

  function Resolved(data: BindingData, e: Element): RenderElement {
    RenderElement(e.shape, e.bounds, e.style, ResolveText(data, e))
  }

  /** The text is this number in decimal. */
  ghost predicate Reads(text: string, n: nat) {
    AllDigits(text) && Value(text) == n && (|text| > 1 ==> text[0] != '0')
  }

  /** The text is this number in decimal, with two digits at least. */
  ghost predicate ReadsPadded(text: string, n: nat) {
    AllDigits(text) && Value(text) == n && |text| >= 2 && (|text| > 2 ==> text[0] != '0')
  }

  lemma NumberReads(n: nat)
    ensures Reads(ToString(n), n) && ToString(n) != ""
    ensures n < 10 <==> |ToString(n)| == 1
  {
    ReadUndoesPrint(n);
    PrintedIsCanonical(n);
  }

  lemma PaddedReads(n: nat)
    ensures ReadsPadded(TwoDigits(n), n)
    ensures n < 100 ==> |TwoDigits(n)| == 2
  {
    NumberReads(n);
    if n < 10 {
      var text := TwoDigits(n);
      assert text == "0" + ToString(n) && text[..1] == "0" && ToString(n)[..0] == "";
      assert Value("0") == 0 by {
        assert "0"[..0] == "";
      }
    } else {
      NumberReads(n / 10);
    }
  }

  /** What the text of an element says, read back. */
  ghost predicate Says(text: string, data: BindingData, e: Element) {
    if e.shape != TextShape then text == ""
    else
      match e.binding
      case Static => text == e.style.staticText
      case ScoreA => Reads(text, data.scoreA)
      case ScoreB => Reads(text, data.scoreB)
      case ScoreVs =>
        exists a, b :: Reads(a, data.scoreA) && Reads(b, data.scoreB) && text == a + " \U{2013} " + b
      case TeamAName => text == data.teamAName
      case TeamBName => text == data.teamBName
      case MatchClock =>
        exists m, s, minutes: nat, seconds: nat ::
          && ReadsPadded(m, minutes) && ReadsPadded(s, seconds) && |s| == 2 && text == m + ":" + s
          && seconds < SECONDS_PER_MINUTE && minutes * SECONDS_PER_MINUTE + seconds == data.clockSeconds
      case PeriodLabel =>
        match data.periodState
        case HalfTime => text == "HT"
        case FullTime => text == "FT"
        case InPlay => text != "" && text[0] == 'P' && Reads(text[1..], data.period)
  }

  lemma TextSaysData(data: BindingData, e: Element)
    ensures Says(ResolveText(data, e), data, e)
  {
    NumberReads(data.scoreA);
    NumberReads(data.scoreB);
    NumberReads(data.period);
    PaddedReads(data.clockSeconds / SECONDS_PER_MINUTE);
    PaddedReads(data.clockSeconds % SECONDS_PER_MINUTE);
    assert ("P" + ToString(data.period))[1..] == ToString(data.period);
  }

  /** The visible elements, resolved, in order. */
  function Shown(data: BindingData, es: seq<Element>): seq<RenderElement> {
    if es == [] then []
    else
      var last := es[|es| - 1];
      Shown(data, es[..|es| - 1]) + (if last.visible then [Resolved(data, last)] else [])
  }

  function ShownBanners(data: BindingData, bs: seq<Banner>): seq<RenderElement> {
    if bs == [] then [] else ShownBanners(data, bs[..|bs| - 1]) + Shown(data, bs[|bs| - 1].elements)
  }

  ghost predicate Renders(data: BindingData, e: Element, r: RenderElement) {
    r.shape == e.shape && r.bounds == e.bounds && r.style == e.style && Says(r.text, data, e)
  }

  lemma {:induction false} ShownPositions(data: BindingData, es: seq<Element>) returns (ix: seq<nat>)
    ensures Increasing(ix) && |ix| == |Shown(data, es)|
    ensures forall k :: 0 <= k < |ix| ==> ix[k] < |es| && es[ix[k]].visible && Shown(data, es)[k] == Resolved(data, es[ix[k]])
    ensures forall i: nat :: i < |es| && es[i].visible ==> i in ix
  {
    if es == [] {
      ix := [];
    } else {
      var m := |es| - 1;
      ix := ShownPositions(data, es[..m]);
      if es[m].visible {
        ix := ix + [m];
      }
    }
  }

  /** Exactly the visible elements are shown, each once and in order, with the text that says its data. */
  lemma ShownAreTheVisible(data: BindingData, es: seq<Element>) returns (ix: seq<nat>)
    ensures Increasing(ix) && |ix| == |Shown(data, es)|
    ensures forall k :: 0 <= k < |ix| ==>
              ix[k] < |es| && es[ix[k]].visible && Renders(data, es[ix[k]], Shown(data, es)[k])
    ensures forall i: nat :: i < |es| && es[i].visible ==> i in ix
  {
    ix := ShownPositions(data, es);
    forall k | 0 <= k < |ix|
      ensures Renders(data, es[ix[k]], Shown(data, es)[k])
    {
      TextSaysData(data, es[ix[k]]);
    }
  }

  /** The elements of banners are shown banner by banner. */
  lemma {:induction false} BannersInOrder(data: BindingData, bs: seq<Banner>)
    ensures ShownBanners(data, bs) == Concat(seq(|bs|, i requires 0 <= i < |bs| => Shown(data, bs[i].elements)))
  {
    var parts := seq(|bs|, i requires 0 <= i < |bs| => Shown(data, bs[i].elements));
    if bs == [] {
    } else {
      var m := |bs| - 1;
      BannersInOrder(data, bs[..m]);
      assert parts[..m] == seq(m, i requires 0 <= i < m => Shown(data, bs[..m][i].elements));
    }
  }

  // ---------- Expiry ----------

  /** The banners that have not lapsed at `now`. */
  function Alive(bs: seq<Banner>, now: nat): seq<Banner> {
    if bs == [] then []
    else
      var init, last := bs[..|bs| - 1], bs[|bs| - 1];
      if last.expiresAtMs <= now then Alive(init, now) else Alive(init, now) + [last]
  }

  lemma AliveMore(bs: seq<Banner>, b: Banner, now: nat)
    ensures Alive(bs + [b], now) == if b.expiresAtMs <= now then Alive(bs, now) else Alive(bs, now) + [b]
  {
    assert (bs + [b])[..|bs|] == bs;
  }

  lemma {:induction false} AliveIsPart(bs: seq<Banner>, now: nat)
    ensures forall b :: b in Alive(bs, now) <==> b in bs && b.expiresAtMs > now
  {
    if bs == [] {
    } else {
      AliveIsPart(bs[..|bs| - 1], now);
      assert bs == bs[..|bs| - 1] + [bs[|bs| - 1]];
    }
  }

  /** Exactly the banners that have not lapsed stay, each once and in order. */
  lemma {:induction false} AliveAreTheUnexpired(bs: seq<Banner>, now: nat) returns (ix: seq<nat>)
    ensures Increasing(ix) && |ix| == |Alive(bs, now)|
    ensures forall k :: 0 <= k < |ix| ==> ix[k] < |bs| && bs[ix[k]].expiresAtMs > now && Alive(bs, now)[k] == bs[ix[k]]
    ensures forall i: nat :: i < |bs| && bs[i].expiresAtMs > now ==> i in ix
  {
    if bs == [] {
      ix := [];
    } else {
      var m := |bs| - 1;
      ix := AliveAreTheUnexpired(bs[..m], now);
      if bs[m].expiresAtMs > now {
        ix := ix + [m];
      }
    }
  }

  /** An expiry at `now` takes this banner away from a look at `later`. */
  predicate Missed(b: Banner, now: nat, later: nat) {
    later < b.expiresAtMs <= now
  }

  lemma {:induction false} NothingMissed(bs: seq<Banner>, now: nat, later: nat)
    requires forall b :: b in bs ==> !Missed(b, now, later)
    ensures Alive(Alive(bs, now), later) == Alive(bs, later)
  {
    if bs == [] {
    } else {
      var init, last := bs[..|bs| - 1], bs[|bs| - 1];
      NothingMissed(init, now, later);
      assert !Missed(last, now, later);
      AliveMore(Alive(init, now), last, later);
    }
  }

  /** Expiring at another time makes no difference to what is alive later exactly if no banner lapses in between. */
  lemma EarlierExpiryIsInvisibleIff(bs: seq<Banner>, now: nat, later: nat)
    ensures Alive(Alive(bs, now), later) == Alive(bs, later) <==> forall b :: b in bs ==> !Missed(b, now, later)
  {
    if forall b :: b in bs ==> !Missed(b, now, later) {
      NothingMissed(bs, now, later);
    } else {
      var b :| b in bs && Missed(b, now, later);
      AliveIsPart(bs, later);
      AliveIsPart(bs, now);
      AliveIsPart(Alive(bs, now), later);
      assert b in Alive(bs, later) && b !in Alive(Alive(bs, now), later);
    }
  }

  // ---------- Sorting by layer ----------

  ghost predicate SortedByLayer(xs: seq<RenderElement>) {
    forall i, j :: 0 <= i < j < |xs| ==> xs[i].bounds.z <= xs[j].bounds.z
  }

  /** The elements of one layer, in order. */
  function OfLayer(xs: seq<RenderElement>, z: nat): seq<RenderElement> {
    if xs == [] then []
    else OfLayer(xs[..|xs| - 1], z) + (if xs[|xs| - 1].bounds.z == z then [xs[|xs| - 1]] else [])
  }

  /** `ys` is `xs` sorted by layer with the elements of each layer in their old order. */
  ghost predicate IsStableSort(ys: seq<RenderElement>, xs: seq<RenderElement>) {
    && SortedByLayer(ys)
    && multiset(ys) == multiset(xs)
    && forall z: nat :: OfLayer(ys, z) == OfLayer(xs, z)
  }

  /** Behind all elements that are not above it. */
  function Insert(xs: seq<RenderElement>, x: RenderElement): seq<RenderElement> {
    if xs != [] && xs[|xs| - 1].bounds.z > x.bounds.z
    then Insert(xs[..|xs| - 1], x) + [xs[|xs| - 1]]
    else xs + [x]
  }

  function StableSort(xs: seq<RenderElement>): seq<RenderElement> {
    if xs == [] then [] else Insert(StableSort(xs[..|xs| - 1]), xs[|xs| - 1])
  }

  lemma LayerOfMore(xs: seq<RenderElement>, x: RenderElement, z: nat)
    ensures OfLayer(xs + [x], z) == OfLayer(xs, z) + (if x.bounds.z == z then [x] else [])
  {
    assert (xs + [x])[..|xs|] == xs;
  }

  lemma {:induction false} InsertKeepsElements(xs: seq<RenderElement>, x: RenderElement)
    ensures multiset(Insert(xs, x)) == multiset(xs) + multiset{x}
  {
    if xs == [] || xs[|xs| - 1].bounds.z <= x.bounds.z {
    } else {
      InsertKeepsElements(xs[..|xs| - 1], x);
      assert xs == xs[..|xs| - 1] + [xs[|xs| - 1]];
    }
  }

  ghost predicate AllAtMost(xs: seq<RenderElement>, z: nat) {
    forall i :: 0 <= i < |xs| ==> xs[i].bounds.z <= z
  }

  lemma InsertStaysBelow(xs: seq<RenderElement>, x: RenderElement, z: nat)
    requires AllAtMost(xs, z) && x.bounds.z <= z
    ensures AllAtMost(Insert(xs, x), z)
  {
  }

  lemma {:induction false} InsertSorts(xs: seq<RenderElement>, x: RenderElement)
    requires SortedByLayer(xs)
    ensures SortedByLayer(Insert(xs, x))
  {
    if xs != [] && xs[|xs| - 1].bounds.z > x.bounds.z {
      var init, last := xs[..|xs| - 1], xs[|xs| - 1];
      InsertSorts(init, x);
      InsertStaysBelow(init, x, last.bounds.z);
    } else {
      assert xs != [] ==> AllAtMost(xs, xs[|xs| - 1].bounds.z);
    }
  }

  lemma {:induction false} InsertKeepsLayers(xs: seq<RenderElement>, x: RenderElement, z: nat)
    ensures OfLayer(Insert(xs, x), z) == OfLayer(xs, z) + (if x.bounds.z == z then [x] else [])
  {
    if xs != [] && xs[|xs| - 1].bounds.z > x.bounds.z {
      var init, last := xs[..|xs| - 1], xs[|xs| - 1];
      InsertKeepsLayers(init, x, z);
      LayerOfMore(Insert(init, x), last, z);
    } else {
      LayerOfMore(xs, x, z);
    }
  }

  lemma {:induction false} StableSortSorts(xs: seq<RenderElement>)
    ensures IsStableSort(StableSort(xs), xs)
  {
    if xs == [] {
    } else {
      var init, last := xs[..|xs| - 1], xs[|xs| - 1];
      StableSortSorts(init);
      InsertSorts(StableSort(init), last);
      InsertKeepsElements(StableSort(init), last);
      assert xs == init + [last];
      forall z: nat
        ensures OfLayer(StableSort(xs), z) == OfLayer(xs, z)
      {
        InsertKeepsLayers(StableSort(init), last, z);
      }
    }
  }

  lemma {:induction false} LayerIsPart(xs: seq<RenderElement>, z: nat)
    ensures forall e :: e in OfLayer(xs, z) <==> e in xs && e.bounds.z == z
  {
    if xs == [] {
    } else {
      LayerIsPart(xs[..|xs| - 1], z);
      assert xs == xs[..|xs| - 1] + [xs[|xs| - 1]];
    }
  }

  ghost predicate SameLayers(xs: seq<RenderElement>, ys: seq<RenderElement>) {
    forall z: nat :: OfLayer(xs, z) == OfLayer(ys, z)
  }

  lemma TopIsNotAbove(xs: seq<RenderElement>, ys: seq<RenderElement>)
    requires SortedByLayer(ys) && SameLayers(xs, ys) && xs != []
    ensures ys != [] && xs[|xs| - 1].bounds.z <= ys[|ys| - 1].bounds.z
  {
    var top := xs[|xs| - 1].bounds.z;
    LayerIsPart(xs, top);
    LayerIsPart(ys, top);
    assert xs[|xs| - 1] in OfLayer(ys, top);
  }

  /** The layers of two sorted sequences determine their last elements. */
  lemma SameLayersSameLast(xs: seq<RenderElement>, ys: seq<RenderElement>)
    requires SortedByLayer(xs) && SortedByLayer(ys) && SameLayers(xs, ys) && xs != []
    ensures ys != [] && xs[|xs| - 1] == ys[|ys| - 1]
  {
    TopIsNotAbove(xs, ys);
    TopIsNotAbove(ys, xs);
    var top := xs[|xs| - 1].bounds.z;
    LastOfLayer(xs);
    LastOfLayer(ys);
    assert OfLayer(xs, top) == OfLayer(ys, top);
  }

  lemma LastOfLayer(xs: seq<RenderElement>)
    requires xs != []
    ensures var layer := OfLayer(xs, xs[|xs| - 1].bounds.z);
            layer != [] && layer[|layer| - 1] == xs[|xs| - 1]
  {
  }

  lemma CancelLast<T>(a: seq<T>, b: seq<T>, c: seq<T>)
    requires a + c == b + c
    ensures a == b
  {
    assert |a| == |b|;
    assert (a + c)[..|a|] == a && (b + c)[..|b|] == b;
  }

  lemma LayersWithoutLast(xs: seq<RenderElement>, ys: seq<RenderElement>, x: RenderElement, z: nat)
    requires OfLayer(xs + [x], z) == OfLayer(ys + [x], z)
    ensures OfLayer(xs, z) == OfLayer(ys, z)
  {
    LayerOfMore(xs, x, z);
    LayerOfMore(ys, x, z);
    CancelLast(OfLayer(xs, z), OfLayer(ys, z), if x.bounds.z == z then [x] else []);
  }

  /** There is only one stable sort: any sorted sequence with the same layers is the same sequence. */
  lemma {:induction false} StableSortIsUnique(xs: seq<RenderElement>, ys: seq<RenderElement>)
    requires SortedByLayer(xs) && SortedByLayer(ys) && SameLayers(xs, ys)
    ensures xs == ys
    decreases |xs| + |ys|
  {
    if xs != [] {
      SameLayersSameLast(xs, ys);
      var last, xi, yi := xs[|xs| - 1], xs[..|xs| - 1], ys[..|ys| - 1];
      assert xs == xi + [last] && ys == yi + [last];
      forall z: nat
        ensures OfLayer(xi, z) == OfLayer(yi, z)
      {
        LayersWithoutLast(xi, yi, last, z);
      }
      StableSortIsUnique(xi, yi);
    } else if ys != [] {
      SameLayersSameLast(ys, xs);
    }
  }

  // ---------- The scene ----------

  /** The elements of the scene before sorting: the layout's, then the banners', each in order. */
  function Unsorted(s: SceneState, now: nat): seq<RenderElement> {
    Shown(s.data, s.layout.elements) + ShownBanners(s.data, Alive(s.banners, now))
  }

  function Expired(s: SceneState, now: nat): SceneState {
    s.(banners := Alive(s.banners, now))
  }

  function Scene(s: SceneState, now: nat): RenderScene {
    RenderScene(s.layout.canvasWidth, s.layout.canvasHeight, StableSort(Unsorted(s, now)))
  }

  function FirstTemplate(templates: seq<Template>, eventType: string): Option<Template> {
    if templates == [] then None
    else if templates[0].eventType == eventType then Some(templates[0])
    else FirstTemplate(templates[1..], eventType)
  }

  ghost predicate IsFirst(templates: seq<Template>, eventType: string, i: nat) {
    && i < |templates| && templates[i].eventType == eventType
    && forall j :: 0 <= j < i ==> templates[j].eventType != eventType
  }

  lemma {:induction false} FirstTemplateIsFirst(templates: seq<Template>, eventType: string) returns (i: nat)
    ensures FirstTemplate(templates, eventType).Some? <==> exists t :: t in templates && t.eventType == eventType
    ensures FirstTemplate(templates, eventType).Some? ==>
              IsFirst(templates, eventType, i) && FirstTemplate(templates, eventType) == Some(templates[i])
  {
    if templates == [] {
      i := 0;
    } else if templates[0].eventType == eventType {
      i := 0;
      assert templates[0] in templates;
    } else {
      var k := FirstTemplateIsFirst(templates[1..], eventType);
      i := k + 1;
      assert forall j :: 0 < j <= i && j < |templates| ==> templates[j] == templates[1..][j - 1];
      assert forall t :: t in templates[1..] ==> t in templates;
      assert templates == [templates[0]] + templates[1..];
    }
  }

  function Filled(e: Element, params: Params): Element {
    e.(visible := true, style := e.style.(staticText := Substituted(e.style.staticText, params)))
  }

  function FilledAll(es: seq<Element>, params: Params): seq<Element> {
    seq(|es|, i requires 0 <= i < |es| => Filled(es[i], params))
  }

  /** The command's duration in seconds wins over the template's; the expiry time is a 64-bit sum. */
  function ExpiresAt(t: Template, durationS: nat, now: nat): nat {
    (now + (if durationS > 0 then durationS * MS_PER_SECOND else t.durationMs)) % U64_LIMIT
  }

  /**
    The banner shows every element of the template, with its placeholders filled, until the
    command's duration is over, or the template's when the command gives none.
  */
  ghost predicate IsBannerOf(b: Banner, t: Template, params: Params, durationS: nat, now: nat) {
    && (durationS > 0 ==> b.expiresAtMs == (now + 1000 * durationS) % U64_LIMIT)
    && (durationS == 0 ==> b.expiresAtMs == (now + t.durationMs) % U64_LIMIT)
    && |b.elements| == |t.elements|
    && forall j :: 0 <= j < |b.elements| ==>
         && b.elements[j].visible && b.elements[j].style.staticText == Substituted(t.elements[j].style.staticText, params)
         && t.elements[j] == b.elements[j].(visible := t.elements[j].visible, style := t.elements[j].style)
         && t.elements[j].style == b.elements[j].style.(staticText := t.elements[j].style.staticText)
  }

  lemma FilledIsBanner(t: Template, params: Params, durationS: nat, now: nat)
    ensures IsBannerOf(Banner(ExpiresAt(t, durationS, now), FilledAll(t.elements, params)), t, params, durationS, now)
  {
  }

  function Activated(s: SceneState, templateId: string, params: Params, durationS: nat, now: nat): SceneState {
    if !s.hasLayout then s
    else
      match FirstTemplate(s.layout.templates, templateId)
      case None => s
      case Some(t) => s.(banners := s.banners + [Banner(ExpiresAt(t, durationS, now), FilledAll(t.elements, params))])
  }

  function LaidOut(s: SceneState, layout: Layout): SceneState {
    s.(layout := layout, hasLayout := true, banners := [])
  }

  class OverlayScene {
    var layout: Layout
    var hasLayout: bool
    var data: BindingData
    var banners: seq<Banner>

    ghost function Contents(): SceneState
      reads this
    {
      SceneState(layout, hasLayout, data, banners)
    }

    constructor ()
      ensures Contents() == EMPTY_SCENE
    {
      layout, hasLayout, data, banners := NO_LAYOUT, false, NO_DATA, [];
    }

    method SetLayout(newLayout: Layout)
      modifies this`layout, this`hasLayout, this`banners
      ensures Contents() == LaidOut(old(Contents()), newLayout)
      ensures layout == newLayout && hasLayout && banners == []
    {
      layout := newLayout;
      hasLayout := true;
      banners := [];
    }

    method SetBindingData(newData: BindingData)
      modifies this`data
      ensures Contents() == old(Contents()).(data := newData)
    {
      data := newData;
    }

    method ActivateBanner(templateId: string, params: Params, durationS: nat, now: nat) returns (ok: bool)
      modifies this`banners
      ensures ok <==> old(hasLayout) && FirstTemplate(old(layout.templates), templateId).Some?
      ensures Contents() == Activated(old(Contents()), templateId, params, durationS, now)
      ensures ok <==> hasLayout && exists t :: t in layout.templates && t.eventType == templateId
      ensures !ok ==> banners == old(banners)
      ensures ok ==> |banners| == |old(banners)| + 1 && banners[..|old(banners)|] == old(banners)
      ensures ok ==> exists i: nat :: IsFirst(layout.templates, templateId, i)
                       && IsBannerOf(banners[|old(banners)|], layout.templates[i], params, durationS, now)
    {
      if !hasLayout {
        return false;
      }
      ghost var first := FirstTemplateIsFirst(layout.templates, templateId);
      var match' := FirstTemplate(layout.templates, templateId);
      if match'.None? {
        return false;
      }
      var t := match'.value;
      var elements: seq<Element> := [];
      for i := 0 to |t.elements|
        invariant Contents() == old(Contents())
        invariant |elements| == i
        invariant forall k :: 0 <= k < i ==> elements[k] == Filled(t.elements[k], params)
      {
        var e := t.elements[i];
        var text := SubstituteParams(e.style.staticText, params);
        e := e.(visible := true);
        e := e.(style := e.style.(staticText := text));
        elements := elements + [e];
      }
      assert elements == FilledAll(t.elements, params);
      banners := banners + [Banner(ExpiresAt(t, durationS, now), elements)];
      FilledIsBanner(t, params, durationS, now);
      assert IsFirst(layout.templates, templateId, first) && layout.templates[first] == t;
      return true;
    }

    method ExpireBanners(now: nat)
      modifies this`banners
      ensures Contents() == Expired(old(Contents()), now)
    {
      var all := banners;
      var kept: seq<Banner> := [];
      for i := 0 to |all|
        invariant Contents() == old(Contents())
        invariant kept == Alive(all[..i], now)
      {
        assert all[..i + 1][..i] == all[..i];
        if !(all[i].expiresAtMs <= now) {
          kept := kept + [all[i]];
        }
      }
      assert all[..|all|] == all;
      banners := kept;
    }

    /** Appends the visible ones of `es`. */
    method AddElements(elements: seq<RenderElement>, es: seq<Element>) returns (out: seq<RenderElement>)
      ensures out == elements + Shown(data, es)
    {
      out := elements;
      for i := 0 to |es|
        invariant out == elements + Shown(data, es[..i])
      {
        assert es[..i + 1][..i] == es[..i];
        if es[i].visible {
          out := out + [RenderElement(es[i].shape, es[i].bounds, es[i].style, ResolveText(data, es[i]))];
        }
      }
      assert es[..|es|] == es;
    }

    /**
      The scene holds exactly the visible layout elements and the visible elements of the banners
      that have not lapsed, resolved, stably sorted by layer; lapsed banners are dropped for good.
    */
    method Build(now: nat) returns (scene: RenderScene)
      modifies this`banners
      ensures Contents() == Expired(old(Contents()), now)
      ensures scene == Scene(old(Contents()), now)
      ensures scene.canvasWidth == layout.canvasWidth && scene.canvasHeight == layout.canvasHeight
      ensures banners == Alive(old(banners), now)
      ensures IsStableSort(scene.elements, Shown(data, layout.elements) + ShownBanners(data, Alive(old(banners), now)))
    {
      ExpireBanners(now);
      var elements := Flatten();
      StableSortSorts(elements);
      return RenderScene(layout.canvasWidth, layout.canvasHeight, StableSort(elements));
    }

    /** The layout's elements, then each banner's. */
    method Flatten() returns (elements: seq<RenderElement>)
      ensures elements == Shown(data, layout.elements) + ShownBanners(data, banners)
    {
      elements := AddElements([], layout.elements);
      ghost var fromLayout := elements;
      for i := 0 to |banners|
        invariant elements == fromLayout + ShownBanners(data, banners[..i])
      {
        assert banners[..i + 1][..i] == banners[..i];
        elements := AddElements(elements, banners[i].elements);
      }
      assert banners[..|banners|] == banners;
    }
  }

  // ---------- Expiry cannot be seen under a clock that does not go back ----------

  datatype Op =
    | SetLayout(layout: Layout)
    | SetData(data: BindingData)
    | Activate(templateId: string, params: Params, durationS: nat, now: nat)
    | Build(now: nat)

  function Do(s: SceneState, op: Op): SceneState {
    match op
    case SetLayout(l) => LaidOut(s, l)
    case SetData(d) => s.(data := d)
    case Activate(id, params, durationS, now) => Activated(s, id, params, durationS, now)
    case Build(now) => Expired(s, now)
  }

  function DoAll(ops: seq<Op>): SceneState {
    if ops == [] then EMPTY_SCENE else Do(DoAll(ops[..|ops| - 1]), ops[|ops| - 1])
  }

  /** The same operations without the builds. */
  function WithoutBuilds(ops: seq<Op>): seq<Op> {
    if ops == [] then []
    else WithoutBuilds(ops[..|ops| - 1]) + (if ops[|ops| - 1].Build? then [] else [ops[|ops| - 1]])
  }

  lemma OneMoreOp(ops: seq<Op>, op: Op)
    ensures DoAll(ops + [op]) == Do(DoAll(ops), op)
    ensures WithoutBuilds(ops + [op]) == WithoutBuilds(ops) + (if op.Build? then [] else [op])
  {
    assert (ops + [op])[..|ops|] == ops;
  }

  /** The banners that show something at `now`. */
  function Showing(bs: seq<Banner>, now: nat): seq<Banner> {
    if bs == [] then []
    else
      var init, last := bs[..|bs| - 1], bs[|bs| - 1];
      if last.expiresAtMs <= now || last.elements == [] then Showing(init, now) else Showing(init, now) + [last]
  }

  /** How many elements they have. */
  function Size(bs: seq<Banner>): nat {
    if bs == [] then 0 else Size(bs[..|bs| - 1]) + |bs[|bs| - 1].elements|
  }

  lemma ShowingMore(bs: seq<Banner>, b: Banner, now: nat)
    ensures Showing(bs + [b], now)
         == if b.expiresAtMs <= now || b.elements == [] then Showing(bs, now) else Showing(bs, now) + [b]
  {
    assert (bs + [b])[..|bs|] == bs;
  }

  lemma SizeMore(bs: seq<Banner>, b: Banner)
    ensures Size(bs + [b]) == Size(bs) + |b.elements|
  {
    assert (bs + [b])[..|bs|] == bs;
  }

  lemma ShownMore(data: BindingData, bs: seq<Banner>, b: Banner)
    ensures ShownBanners(data, bs + [b]) == ShownBanners(data, bs) + Shown(data, b.elements)
  {
    assert (bs + [b])[..|bs|] == bs;
  }

  /** Banners without elements show nothing. */
  lemma {:induction false} ShowingIsShown(data: BindingData, bs: seq<Banner>, now: nat)
    ensures ShownBanners(data, Alive(bs, now)) == ShownBanners(data, Showing(bs, now))
  {
    if bs == [] {
    } else {
      var init, last := bs[..|bs| - 1], bs[|bs| - 1];
      ShowingIsShown(data, init, now);
      ShownMore(data, Alive(init, now), last);
      ShownMore(data, Showing(init, now), last);
      if last.elements == [] {
        assert ShownBanners(data, Alive(init, now)) + [] == ShownBanners(data, Alive(init, now));
      }
    }
  }

  ghost predicate AllVisible(bs: seq<Banner>) {
    forall i, j :: 0 <= i < |bs| && 0 <= j < |bs[i].elements| ==> bs[i].elements[j].visible
  }

  lemma {:induction false} VisibleAreShown(data: BindingData, es: seq<Element>)
    requires forall j :: 0 <= j < |es| ==> es[j].visible
    ensures |Shown(data, es)| == |es|
  {
    if es == [] {
    } else {
      VisibleAreShown(data, es[..|es| - 1]);
    }
  }

  lemma {:induction false} ShownSize(data: BindingData, bs: seq<Banner>)
    requires AllVisible(bs)
    ensures |ShownBanners(data, bs)| == Size(bs)
  {
    if bs == [] {
    } else {
      ShownSize(data, bs[..|bs| - 1]);
      VisibleAreShown(data, bs[|bs| - 1].elements);
    }
  }

  lemma {:induction false} PartsAreVisible(bs: seq<Banner>, now: nat)
    requires AllVisible(bs)
    ensures AllVisible(Alive(bs, now)) && AllVisible(Showing(bs, now))
  {
    if bs == [] {
    } else {
      PartsAreVisible(bs[..|bs| - 1], now);
    }
  }

  /** An expiry at `now` takes something away from a look at `later`. */
  ghost predicate Loses(bs: seq<Banner>, now: nat, later: nat) {
    exists b :: b in bs && b.elements != [] && Missed(b, now, later)
  }

  lemma LosesMore(bs: seq<Banner>, b: Banner, now: nat, later: nat)
    ensures Loses(bs + [b], now, later) <==> Loses(bs, now, later) || (b.elements != [] && Missed(b, now, later))
  {
    if Loses(bs, now, later) {
      var c :| c in bs && c.elements != [] && Missed(c, now, later);
      assert c in bs + [b];
    }
    assert b in bs + [b];
  }

  /** What an expiry at `now` does to a later look: it takes away elements, or changes nothing. */
  ghost predicate Thinned(bs: seq<Banner>, now: nat, later: nat) {
    var after, before := Showing(Alive(bs, now), later), Showing(bs, later);
    if Loses(bs, now, later) then Size(after) < Size(before) else after == before
  }

  lemma OneMoreThinned(bs: seq<Banner>, b: Banner, now: nat, later: nat)
    requires Thinned(bs, now, later)
    ensures Thinned(bs + [b], now, later)
  {
    var after, before := Showing(Alive(bs, now), later), Showing(bs, later);
    LosesMore(bs, b, now, later);
    AliveMore(bs, b, now);
    ShowingMore(bs, b, later);
    ShowingMore(Alive(bs, now), b, later);
    SizeMore(before, b);
    SizeMore(after, b);
  }

  lemma {:induction false} ExpiryThins(bs: seq<Banner>, now: nat, later: nat)
    ensures Thinned(bs, now, later)
  {
    if bs == [] {
    } else {
      InitAndLast(bs);
      ExpiryThins(bs[..|bs| - 1], now, later);
      OneMoreThinned(bs[..|bs| - 1], bs[|bs| - 1], now, later);
    }
  }

  // ---------- Runs with and without their builds ----------

  /** Build `k` drops something that would still show at `later`, and no new layout came after it. */
  ghost predicate LosesAt(ops: seq<Op>, k: nat, later: nat) {
    && k < |ops| && ops[k].Build?
    && Loses(DoAll(ops[..k]).banners, ops[k].now, later)
    && forall j: nat | k < j < |ops| :: !ops[j].SetLayout?
  }

  ghost predicate LosesSomething(ops: seq<Op>, later: nat) {
    exists k: nat :: LosesAt(ops, k, later)
  }

  lemma LosesAtBefore(ops: seq<Op>, k: nat, later: nat)
    requires k < |ops| - 1
    ensures LosesAt(ops, k, later) <==> LosesAt(ops[..|ops| - 1], k, later) && !ops[|ops| - 1].SetLayout?
  {
    var before := ops[..|ops| - 1];
    assert before[..k] == ops[..k];
    assert forall j: nat | k < j < |before| :: before[j] == ops[j];
  }

  lemma LosesBefore(ops: seq<Op>, later: nat)
    requires ops != []
    ensures var before, op := ops[..|ops| - 1], ops[|ops| - 1];
            LosesSomething(ops, later) <==>
              (op.Build? && Loses(DoAll(before).banners, op.now, later))
              || (LosesSomething(before, later) && !op.SetLayout?)
  {
    var m := |ops| - 1;
    var before := ops[..m];
    assert LosesAt(ops, m, later) <==> ops[m].Build? && Loses(DoAll(before).banners, ops[m].now, later);
    forall k: nat | k < m
      ensures LosesAt(ops, k, later) <==> LosesAt(before, k, later) && !ops[m].SetLayout?
    {
      LosesAtBefore(ops, k, later);
    }
  }

  /** `s` and `t` show the same at `later`, or `s` shows less. */
  ghost predicate Compares(s: SceneState, t: SceneState, later: nat, less: bool) {
    && s.layout == t.layout && s.hasLayout == t.hasLayout && s.data == t.data
    && if less then Size(Showing(s.banners, later)) < Size(Showing(t.banners, later))
       else Showing(s.banners, later) == Showing(t.banners, later)
  }

  lemma BannerCompares(s: seq<Banner>, t: seq<Banner>, b: Banner, later: nat)
    ensures Showing(s, later) == Showing(t, later) ==> Showing(s + [b], later) == Showing(t + [b], later)
    ensures Size(Showing(s, later)) < Size(Showing(t, later)) ==>
              Size(Showing(s + [b], later)) < Size(Showing(t + [b], later))
  {
    ShowingMore(s, b, later);
    ShowingMore(t, b, later);
    SizeMore(Showing(s, later), b);
    SizeMore(Showing(t, later), b);
  }

  lemma OpCompares(s: SceneState, t: SceneState, op: Op, later: nat, less: bool)
    requires Compares(s, t, later, less) && !op.Build?
    ensures Compares(Do(s, op), Do(t, op), later, less && !op.SetLayout?)
  {
    if op.Activate? && s.hasLayout {
      var template := FirstTemplate(s.layout.templates, op.templateId);
      if template.Some? {
        var b := Banner(ExpiresAt(template.value, op.durationS, op.now), FilledAll(template.value.elements, op.params));
        BannerCompares(s.banners, t.banners, b, later);
      }
    }
  }

  lemma {:induction false} BuildsCompare(ops: seq<Op>, later: nat)
    ensures Compares(DoAll(ops), DoAll(WithoutBuilds(ops)), later, LosesSomething(ops, later))
  {
    if ops == [] {
    } else {
      var before, op := ops[..|ops| - 1], ops[|ops| - 1];
      BuildsCompare(before, later);
      LosesBefore(ops, later);
      var s, t := DoAll(before), DoAll(WithoutBuilds(before));
      if op.Build? {
        ExpiryThins(s.banners, op.now, later);
        assert WithoutBuilds(ops) == WithoutBuilds(before);
      } else {
        OpCompares(s, t, op, later, LosesSomething(before, later));
        OneMoreOp(WithoutBuilds(before), op);
      }
    }
  }

  lemma {:induction false} BannersAreVisible(ops: seq<Op>)
    ensures AllVisible(DoAll(ops).banners)
  {
    if ops == [] {
    } else {
      var before, op := DoAll(ops[..|ops| - 1]), ops[|ops| - 1];
      BannersAreVisible(ops[..|ops| - 1]);
      if op.Build? {
        PartsAreVisible(before.banners, op.now);
      }
    }
  }

  lemma SceneSize(ops: seq<Op>, later: nat)
    ensures var s := DoAll(ops);
            |Scene(s, later).elements| == |Shown(s.data, s.layout.elements)| + Size(Showing(s.banners, later))
  {
    var s := DoAll(ops);
    BannersAreVisible(ops);
    PartsAreVisible(s.banners, later);
    ShowingIsShown(s.data, s.banners, later);
    ShownSize(s.data, Showing(s.banners, later));
    StableSortSorts(Unsorted(s, later));
    assert |multiset(StableSort(Unsorted(s, later)))| == |StableSort(Unsorted(s, later))|;
    assert |multiset(Unsorted(s, later))| == |Unsorted(s, later)|;
  }

  /**
    Removing all builds from a run leaves a later scene the same exactly if none of them, since the
    last new layout, has dropped a banner with elements that would still show at that time.
  */
  lemma SceneIgnoresBuildsIff(ops: seq<Op>, later: nat)
    ensures Scene(DoAll(ops), later) == Scene(DoAll(WithoutBuilds(ops)), later) <==> !LosesSomething(ops, later)
  {
    var s, t := DoAll(ops), DoAll(WithoutBuilds(ops));
    BuildsCompare(ops, later);
    if LosesSomething(ops, later) {
      SceneSize(ops, later);
      SceneSize(WithoutBuilds(ops), later);
    } else {
      ShowingIsShown(s.data, s.banners, later);
      ShowingIsShown(t.data, t.banners, later);
    }
  }

  /** With a clock that does not go back, any number of builds in between leaves a later build as it would have been. */
  lemma LaterSceneIgnoresBuilds(ops: seq<Op>, later: nat)
    requires forall k :: 0 <= k < |ops| && ops[k].Build? ==> ops[k].now <= later
    ensures Scene(DoAll(ops), later) == Scene(DoAll(WithoutBuilds(ops)), later)
  {
    SceneIgnoresBuildsIff(ops, later);
    forall k: nat
      ensures !LosesAt(ops, k, later)
    {
    }
  }

  /** A layout with one template, its banner, and a build when that has lapsed. */
  lemma LapsedRun(e: Element, now: nat) returns (ops: seq<Op>, active: seq<Op>, b: Banner)
    requires MS_PER_SECOND <= now
    ensures WithoutBuilds(ops) == active && b == Banner(MS_PER_SECOND, FilledAll([e], []))
    ensures DoAll(ops).layout.elements == DoAll(active).layout.elements == []
    ensures DoAll(ops).banners == [] && DoAll(active).banners == [] + [b]
  {
    var layout := Layout(0, 0, [], [Template("goal", 0, [e])]);
    var laidOut := [] + [SetLayout(layout)];
    active := laidOut + [Activate("goal", [], 1, 0)];
    ops := active + [Op.Build(now)];
    b := Banner(MS_PER_SECOND, FilledAll([e], []));
    OneMoreOp([], SetLayout(layout));
    OneMoreOp(laidOut, Activate("goal", [], 1, 0));
    OneMoreOp(active, Op.Build(now));
    AliveMore([], b, now);
  }

  /** With a clock that goes back they do show: a run whose scene stays empty because of a build. */
  lemma ClockGoingBackLosesBanner(e: Element, now: nat, later: nat) returns (ops: seq<Op>)
    requires later < MS_PER_SECOND <= now
    ensures Scene(DoAll(ops), later).elements == []
    ensures |Scene(DoAll(WithoutBuilds(ops)), later).elements| == 1
  {
    var active, b;
    ops, active, b := LapsedRun(e, now);
    ShowingMore([], b, later);
    SizeMore([], b);
    SceneSize(ops, later);
    SceneSize(active, later);
  }

  // ---------- Every reachable scene can follow every run ----------

  /** Activating `op` on this layout gives banner `b`. */
  ghost predicate ActivatesTo(layout: Layout, op: Op, b: Banner) {
    && op.Activate? && FirstTemplate(layout.templates, op.templateId).Some?
    && var t := FirstTemplate(layout.templates, op.templateId).value;
       b == Banner(ExpiresAt(t, op.durationS, op.now), FilledAll(t.elements, op.params))
  }

  /** Every banner comes from a template of the current layout. */
  ghost predicate FromTemplates(s: SceneState) {
    && (!s.hasLayout ==> s.layout == NO_LAYOUT && s.banners == [])
    && forall b :: b in s.banners ==> exists op :: ActivatesTo(s.layout, op, b)
  }

  lemma {:induction false} BannersComeFromTemplates(ops: seq<Op>)
    ensures FromTemplates(DoAll(ops))
  {
    if ops == [] {
    } else {
      var s, op := DoAll(ops[..|ops| - 1]), ops[|ops| - 1];
      BannersComeFromTemplates(ops[..|ops| - 1]);
      if op.Build? {
        AliveIsPart(s.banners, op.now);
      } else if op.Activate? && Do(s, op) != s {
        var t := Do(s, op);
        assert ActivatesTo(s.layout, op, t.banners[|t.banners| - 1]);
      }
    }
  }

  lemma DoMore(a: seq<Op>, b: seq<Op>, op: Op)
    ensures DoAll(a + (b + [op])) == Do(DoAll(a + b), op)
  {
    OneMoreOp(a + b, op);
    assert a + (b + [op]) == a + b + [op];
  }

  lemma FewerFromTemplates(s: SceneState) returns (op: Op)
    requires FromTemplates(s) && s.banners != []
    ensures FromTemplates(s.(banners := s.banners[..|s.banners| - 1])) && s.hasLayout
    ensures ActivatesTo(s.layout, op, s.banners[|s.banners| - 1])
  {
    var t := s.(banners := s.banners[..|s.banners| - 1]);
    forall b | b in t.banners
      ensures exists op :: ActivatesTo(t.layout, op, b)
    {
      assert b in s.banners;
    }
    var last := s.banners[|s.banners| - 1];
    assert last in s.banners;
    op :| ActivatesTo(s.layout, op, last);
  }

  lemma EmptyPathTo(before: seq<Op>, s: SceneState) returns (path: seq<Op>)
    requires s.banners == []
    ensures DoAll(before + path) == s.(hasLayout := true)
    ensures forall k :: 0 <= k < |path| ==> !path[k].Build?
  {
    DoMore(before, [], SetLayout(s.layout));
    DoMore(before, [] + [SetLayout(s.layout)], SetData(s.data));
    path := [] + [SetLayout(s.layout)] + [SetData(s.data)];
  }

  /** Whatever has happened before, operations without builds lead to any such state that has a layout. */
  lemma {:induction false} PathTo(before: seq<Op>, s: SceneState) returns (path: seq<Op>)
    requires FromTemplates(s)
    ensures DoAll(before + path) == s.(hasLayout := true)
    ensures forall k :: 0 <= k < |path| ==> !path[k].Build?
    decreases |s.banners|
  {
    if s.banners == [] {
      path := EmptyPathTo(before, s);
    } else {
      var m := |s.banners| - 1;
      InitAndLast(s.banners);
      var op := FewerFromTemplates(s);
      var start := PathTo(before, s.(banners := s.banners[..m]));
      DoMore(before, start, op);
      path := start + [op];
    }
  }

  /** A scene that some run builds. */
  ghost predicate Buildable(scene: RenderScene) {
    exists ops, now :: scene == Scene(DoAll(ops), now)
  }

  /** Any scene that can be built at all can be built next. */
  lemma BuildableNext(scene: RenderScene, before: seq<Op>) returns (path: seq<Op>, now: nat)
    requires Buildable(scene)
    ensures scene == Scene(DoAll(before + path), now)
    ensures forall k :: 0 <= k < |path| ==> !path[k].Build?
  {
    var ops, time :| scene == Scene(DoAll(ops), time);
    BannersComeFromTemplates(ops);
    path := PathTo(before, DoAll(ops));
    now := time;
  }
}
