/**
  Pushing an overlay frame only when the scene has visibly changed. The renderer and the number
  formatting of the platform are functions handed in.
*/
module OverlayController {
  import opened Decimal
  import opened Sequences
  import opened Wrappers
  import OverlayScene

  type RenderScene = OverlayScene.RenderScene
  type RenderElement = OverlayScene.RenderElement

  // ---------- The signature ----------

  function ShapeCode(shape: OverlayScene.Shape): nat {
    match shape
    case UnknownShape => 0
    case RectShape => 1
    case TextShape => 2
    case CircleShape => 3
  }

  function IntToString(n: int): string {
    if n < 0 then "-" + ToString(-n) else ToString(n)
  }

  /** A cast to an integer truncates toward zero. */
  function Truncated(x: real): int {
    if x >= 0.0 then x.Floor else -((-x).Floor)
  }

  /** The cast goes to the nearest integer on the side of zero. */
  lemma TruncatesTowardZero(x: real)
    ensures x >= 0.0 ==> 0 <= Truncated(x) && Truncated(x) as real <= x < Truncated(x) as real + 1.0
    ensures x <= 0.0 ==> Truncated(x) <= 0 && Truncated(x) as real - 1.0 < x <= Truncated(x) as real
  {
  }

  /** A field of the signature and the separator that ends it. */
  datatype Field = Field(text: string, end: char)

  function Join(fields: seq<Field>): string {
    if fields == [] then "" else fields[0].text + [fields[0].end] + Join(fields[1..])
  }

  function ElementFields(number: real -> string, e: RenderElement): seq<Field> {
    [Field(IntToString(ShapeCode(e.shape)), ';'),
     Field(number(e.bounds.x1), ','), Field(number(e.bounds.y1), ','),
     Field(number(e.bounds.x2), ','), Field(number(e.bounds.y2), ','), Field(ToString(e.bounds.z), ';'),
     Field(e.text, ';'), Field(e.style.fillColor, ';'), Field(e.style.textColor, ';'),
     Field(number(e.style.opacity), ';'), Field(IntToString(Truncated(e.style.cornerRadius)), '|')]
  }

  function ElementSignature(number: real -> string, e: RenderElement): string {
    Join(ElementFields(number, e))
  }

  function ElementSignatures(number: real -> string, es: seq<RenderElement>): seq<string> {
    seq(|es|, i requires 0 <= i < |es| => ElementSignature(number, es[i]))
  }

  function CanvasFields(scene: RenderScene): seq<Field> {
    [Field(ToString(scene.canvasWidth), 'x'), Field(ToString(scene.canvasHeight), '|')]
  }

  function Signature(number: real -> string, scene: RenderScene): string {
    Join(CanvasFields(scene)) + Concat(ElementSignatures(number, scene.elements))
  }

  lemma OneMorePart(start: string, parts: seq<string>, i: nat)
    requires i < |parts|
    ensures start + Concat(parts[..i]) + parts[i] == start + Concat(parts[..i + 1])
  {
    assert parts[..i + 1][..i] == parts[..i];
  }

  /** What the signature does not see: the font, the alignment, and the fraction of a corner radius. */
  ghost predicate LooksAlike(a: RenderElement, b: RenderElement) {
    && a.shape == b.shape && a.bounds == b.bounds && a.text == b.text
    && a.style.fillColor == b.style.fillColor && a.style.textColor == b.style.textColor
    && a.style.opacity == b.style.opacity
    && Truncated(a.style.cornerRadius) == Truncated(b.style.cornerRadius)
  }

  /** Elements that look alike are the same but for the font, the alignment, the unfilled text and a fraction of the corner radius. */
  lemma LooksAlikeIff(a: RenderElement, b: RenderElement)
    ensures LooksAlike(a, b) <==>
              && b == a.(style := b.style)
              && b.style == a.style.(cornerRadius := b.style.cornerRadius, fontFamily := b.style.fontFamily,
                                     fontSize := b.style.fontSize, textAlign := b.style.textAlign,
                                     fontWeight := b.style.fontWeight, staticText := b.style.staticText)
              && Truncated(a.style.cornerRadius) == Truncated(b.style.cornerRadius)
  {
  }

  ghost predicate AllLookAlike(xs: seq<RenderElement>, ys: seq<RenderElement>) {
    |xs| == |ys| && forall i :: 0 <= i < |xs| ==> LooksAlike(xs[i], ys[i])
  }

  ghost predicate ScenesLookAlike(s: RenderScene, t: RenderScene) {
    s.canvasWidth == t.canvasWidth && s.canvasHeight == t.canvasHeight && AllLookAlike(s.elements, t.elements)
  }

  lemma SameLookSameSignature(number: real -> string, d: RenderElement, e: RenderElement)
    requires LooksAlike(d, e)
    ensures ElementSignature(number, d) == ElementSignature(number, e)
  {
    assert ElementFields(number, d) == ElementFields(number, e);
  }

  lemma SignatureIgnoresFonts(number: real -> string, s: RenderScene, t: RenderScene)
    requires ScenesLookAlike(s, t)
    ensures Signature(number, s) == Signature(number, t)
  {
    forall i | 0 <= i < |s.elements|
      ensures ElementSignature(number, s.elements[i]) == ElementSignature(number, t.elements[i])
    {
      SameLookSameSignature(number, s.elements[i], t.elements[i]);
    }
    assert ElementSignatures(number, s.elements) == ElementSignatures(number, t.elements);
    assert CanvasFields(s) == CanvasFields(t);
  }

  // ---------- Reading a signature back ----------

  /** No field contains the separator that ends it. */
  ghost predicate Readable(fields: seq<Field>) {
    forall i :: 0 <= i < |fields| ==> fields[i].end !in fields[i].text
  }

  lemma FirstCut(a: string, x: string, b: string, y: string, end: char)
    requires end !in a && end !in b && a + [end] + x == b + [end] + y
    ensures a == b && x == y
  {
    var s, t := a + [end] + x, b + [end] + y;
    assert s[|a|] == end && t[|b|] == end;
    assert forall i :: 0 <= i < |a| ==> s[i] == a[i];
    assert forall i :: 0 <= i < |b| ==> t[i] == b[i];
    assert |a| == |b|;
    assert a == s[..|a|] && b == t[..|b|];
    assert x == s[|a| + 1..] && y == t[|b| + 1..];
  }

  lemma JoinFirst(fields: seq<Field>, x: string)
    requires fields != []
    ensures Join(fields) + x == fields[0].text + [fields[0].end] + (Join(fields[1..]) + x)
  {
  }

  /** Joined fields with the same separators can be told apart, whatever follows them. */
  lemma {:induction false} JoinIsReadable(a: seq<Field>, x: string, b: seq<Field>, y: string)
    requires |a| == |b| && Readable(a) && Readable(b)
    requires forall i :: 0 <= i < |a| ==> a[i].end == b[i].end
    requires Join(a) + x == Join(b) + y
    ensures a == b && x == y
  {
    if a == [] {
      assert x == "" + x && y == "" + y;
    } else {
      JoinFirst(a, x);
      JoinFirst(b, y);
      FirstCut(a[0].text, Join(a[1..]) + x, b[0].text, Join(b[1..]) + y, a[0].end);
      JoinIsReadable(a[1..], x, b[1..], y);
      assert a == [a[0]] + a[1..] && b == [b[0]] + b[1..];
    }
  }

  lemma DigitsOnly(n: int)
    ensures forall c :: c in IntToString(n) ==> c == '-' || IsDigit(c)
    ensures n >= 0 ==> AllDigits(IntToString(n))
  {
    PrintedIsCanonical(if n < 0 then -n else n);
  }

  lemma SignShows(n: int)
    ensures IntToString(n) != "" && (IntToString(n)[0] == '-' <==> n < 0)
    ensures n < 0 ==> IntToString(n)[1..] == ToString(-n)
  {
    DigitsOnly(n);
  }

  lemma IntegersPrintApart(m: int, n: int)
    requires IntToString(m) == IntToString(n)
    ensures m == n
  {
    SignShows(m);
    SignShows(n);
    ReadUndoesPrint(if m < 0 then -m else m);
    ReadUndoesPrint(if n < 0 then -n else n);
  }

  /** The numbers that occur, `floats`, print differently and without separators. */
  ghost predicate PrintsApart(number: real -> string, floats: iset<real>) {
    && (forall x {:trigger number(x)} :: x in floats ==> ',' !in number(x) && ';' !in number(x))
    && (forall x, y {:trigger number(x), number(y)} :: x in floats && y in floats && number(x) == number(y) ==> x == y)
  }

  /** Its numbers can be told apart, and neither its text nor its colors contain the field separator. */
  ghost predicate Clean(e: RenderElement, floats: iset<real>) {
    && e.bounds.x1 in floats && e.bounds.y1 in floats && e.bounds.x2 in floats && e.bounds.y2 in floats
    && e.style.opacity in floats
    && ';' !in e.text && ';' !in e.style.fillColor && ';' !in e.style.textColor
  }

  ghost predicate CleanScene(scene: RenderScene, floats: iset<real>) {
    forall i :: 0 <= i < |scene.elements| ==> Clean(scene.elements[i], floats)
  }

  lemma CleanIsReadable(number: real -> string, e: RenderElement, floats: iset<real>)
    requires PrintsApart(number, floats) && Clean(e, floats)
    ensures Readable(ElementFields(number, e))
  {
    DigitsOnly(ShapeCode(e.shape));
    DigitsOnly(e.bounds.z);
    DigitsOnly(Truncated(e.style.cornerRadius));
  }

  lemma SameFieldsLookAlike(number: real -> string, d: RenderElement, e: RenderElement, floats: iset<real>)
    requires PrintsApart(number, floats) && Clean(d, floats) && Clean(e, floats)
    requires ElementFields(number, d) == ElementFields(number, e)
    ensures LooksAlike(d, e)
  {
    var a, b := ElementFields(number, d), ElementFields(number, e);
    assert a[0].text == b[0].text && a[1].text == b[1].text && a[2].text == b[2].text && a[3].text == b[3].text;
    assert a[4].text == b[4].text && a[5].text == b[5].text && a[6].text == b[6].text && a[7].text == b[7].text;
    assert a[8].text == b[8].text && a[9].text == b[9].text && a[10].text == b[10].text;
    IntegersPrintApart(ShapeCode(d.shape), ShapeCode(e.shape));
    IntegersPrintApart(d.bounds.z, e.bounds.z);
    IntegersPrintApart(Truncated(d.style.cornerRadius), Truncated(e.style.cornerRadius));
  }

  lemma FirstAndRestLookAlike(xs: seq<RenderElement>, ys: seq<RenderElement>)
    requires xs != [] && ys != [] && LooksAlike(xs[0], ys[0]) && AllLookAlike(xs[1..], ys[1..])
    ensures AllLookAlike(xs, ys)
  {
    forall i | 0 < i < |xs|
      ensures LooksAlike(xs[i], ys[i])
    {
      assert LooksAlike(xs[1..][i - 1], ys[1..][i - 1]);
    }
  }

  /** The signature of an element can be cut off and read. */
  lemma ElementIsReadable(number: real -> string, d: RenderElement, x: string, e: RenderElement, y: string, floats: iset<real>)
    requires PrintsApart(number, floats) && Clean(d, floats) && Clean(e, floats)
    requires ElementSignature(number, d) + x == ElementSignature(number, e) + y
    ensures LooksAlike(d, e) && x == y
  {
    CleanIsReadable(number, d, floats);
    CleanIsReadable(number, e, floats);
    JoinIsReadable(ElementFields(number, d), x, ElementFields(number, e), y);
    SameFieldsLookAlike(number, d, e, floats);
  }

  lemma SignaturesFromFront(number: real -> string, es: seq<RenderElement>)
    requires es != []
    ensures Concat(ElementSignatures(number, es))
         == ElementSignature(number, es[0]) + Concat(ElementSignatures(number, es[1..]))
  {
    ConcatFromFront(ElementSignatures(number, es));
    assert ElementSignatures(number, es)[1..] == ElementSignatures(number, es[1..]);
  }

  lemma FirstIsReadable(number: real -> string, xs: seq<RenderElement>, ys: seq<RenderElement>, floats: iset<real>)
    requires PrintsApart(number, floats) && xs != [] && ys != [] && Clean(xs[0], floats) && Clean(ys[0], floats)
    requires Concat(ElementSignatures(number, xs)) == Concat(ElementSignatures(number, ys))
    ensures LooksAlike(xs[0], ys[0])
    ensures Concat(ElementSignatures(number, xs[1..])) == Concat(ElementSignatures(number, ys[1..]))
  {
    SignaturesFromFront(number, xs);
    SignaturesFromFront(number, ys);
    ElementIsReadable(number, xs[0], Concat(ElementSignatures(number, xs[1..])),
                      ys[0], Concat(ElementSignatures(number, ys[1..])), floats);
  }

  lemma NoElementsNoSignature(number: real -> string, es: seq<RenderElement>)
    ensures Concat(ElementSignatures(number, es)) == "" <==> es == []
  {
    if es != [] {
      SignaturesFromFront(number, es);
    }
  }

  lemma {:induction false} ElementsAreReadable(number: real -> string, xs: seq<RenderElement>, ys: seq<RenderElement>,
                                               floats: iset<real>)
    requires PrintsApart(number, floats)
    requires forall i :: 0 <= i < |xs| ==> Clean(xs[i], floats)
    requires forall i :: 0 <= i < |ys| ==> Clean(ys[i], floats)
    requires Concat(ElementSignatures(number, xs)) == Concat(ElementSignatures(number, ys))
    ensures AllLookAlike(xs, ys)
  {
    NoElementsNoSignature(number, xs);
    NoElementsNoSignature(number, ys);
    if xs == [] {
    } else {
      FirstIsReadable(number, xs, ys, floats);
      ElementsAreReadable(number, xs[1..], ys[1..], floats);
      FirstAndRestLookAlike(xs, ys);
    }
  }

  lemma CanvasIsReadable(s: RenderScene, x: string, t: RenderScene, y: string)
    requires Join(CanvasFields(s)) + x == Join(CanvasFields(t)) + y
    ensures s.canvasWidth == t.canvasWidth && s.canvasHeight == t.canvasHeight && x == y
  {
    var a, b := CanvasFields(s), CanvasFields(t);
    DigitsOnly(s.canvasWidth);
    DigitsOnly(s.canvasHeight);
    DigitsOnly(t.canvasWidth);
    DigitsOnly(t.canvasHeight);
    JoinIsReadable(a, x, b, y);
    assert a[0].text == b[0].text && a[1].text == b[1].text;
    IntegersPrintApart(s.canvasWidth, t.canvasWidth);
    IntegersPrintApart(s.canvasHeight, t.canvasHeight);
  }

  /**
    Signatures tell scenes apart: when no text and no color contains `;`, and the numbers that occur
    print differently and without `,` and `;`, two scenes have the same signature exactly if they
    have the same size and their elements differ at most in what the signature does not see.
  */
  lemma SignatureSeparatesIff(number: real -> string, s: RenderScene, t: RenderScene, floats: iset<real>)
    requires PrintsApart(number, floats) && CleanScene(s, floats) && CleanScene(t, floats)
    ensures Signature(number, s) == Signature(number, t) <==> ScenesLookAlike(s, t)
  {
    if ScenesLookAlike(s, t) {
      SignatureIgnoresFonts(number, s, t);
    }
    if Signature(number, s) == Signature(number, t) {
      CanvasIsReadable(s, Concat(ElementSignatures(number, s.elements)), t, Concat(ElementSignatures(number, t.elements)));
      ElementsAreReadable(number, s.elements, t.elements, floats);
    }
  }

  lemma HeadAndTail(a: seq<Field>, b: seq<Field>)
    requires a != []
    ensures (a + b)[0] == a[0] && (a + b)[1..] == a[1..] + b
  {
  }

  lemma {:induction false} JoinConcat(a: seq<Field>, b: seq<Field>)
    ensures Join(a + b) == Join(a) + Join(b)
  {
    if a == [] {
      assert a + b == b;
    } else {
      JoinConcat(a[1..], b);
      HeadAndTail(a, b);
      JoinFirst(a, Join(b));
    }
  }

  lemma SeparatorMoves(a: string, b: string, c: string)
    ensures Join([Field(a + ";" + b, ';'), Field(c, ';')]) == Join([Field(a, ';'), Field(b + ";" + c, ';')])
  {
    assert [Field(a + ";" + b, ';'), Field(c, ';')][1..] == [Field(c, ';')];
    assert [Field(a, ';'), Field(b + ";" + c, ';')][1..] == [Field(b + ";" + c, ';')];
    assert [Field(c, ';')][1..] == [] && [Field(b + ";" + c, ';')][1..] == [];
  }

  /**
    A `;` in a text does collide, as the separators are not escaped: moved from the text into the fill
    color, it leaves the signature the same although the element looks different.
  */
  lemma SignatureCanCollide(number: real -> string, e: RenderElement, a: string, b: string, c: string)
    returns (d: RenderElement, f: RenderElement)
    ensures ElementSignature(number, d) == ElementSignature(number, f) && !LooksAlike(d, f)
    ensures d == e.(text := a + ";" + b, style := e.style.(fillColor := c))
    ensures f == e.(text := a, style := e.style.(fillColor := b + ";" + c))
  {
    d := e.(text := a + ";" + b, style := e.style.(fillColor := c));
    f := e.(text := a, style := e.style.(fillColor := b + ";" + c));
    var p, q := ElementFields(number, d), ElementFields(number, f);
    var m, n := [Field(a + ";" + b, ';'), Field(c, ';')], [Field(a, ';'), Field(b + ";" + c, ';')];
    assert p == p[..6] + (m + p[8..]) && q == p[..6] + (n + p[8..]);
    JoinConcat(p[..6], m + p[8..]);
    JoinConcat(p[..6], n + p[8..]);
    JoinConcat(m, p[8..]);
    JoinConcat(n, p[8..]);
    SeparatorMoves(a, b, c);
    assert |d.text| != |f.text|;
  }

  // ---------- One refresh ----------

  datatype Cache<Image> = Cache(lastSignature: string, pushedOnce: bool, pushCount: nat, pushed: seq<Image>)

  function Fresh<Image>(): Cache<Image> {
    Cache("", false, 0, [])
  }

  function Refreshed<Image>(c: Cache<Image>, signature: string, image: Image): (Cache<Image>, bool) {
    if c.pushedOnce && signature == c.lastSignature then (c, false)
    else (Cache(signature, true, c.pushCount + 1, c.pushed + [image]), true)
  }

  /** `pushed` is what the sink was given, in order. */
  class OverlayController<Image> {
    const scene: OverlayScene.OverlayScene
    const render: RenderScene -> Image
    const number: real -> string
    var lastSignature: string
    var pushedOnce: bool
    var pushCount: nat
    ghost var pushed: seq<Image>

    ghost function Contents(): Cache<Image>
      reads this
    {
      Cache(lastSignature, pushedOnce, pushCount, pushed)
    }

    constructor (scene: OverlayScene.OverlayScene, render: RenderScene -> Image, number: real -> string)
      ensures this.scene == scene && this.render == render && this.number == number
      ensures Contents() == Fresh()
    {
      this.scene, this.render, this.number := scene, render, number;
      lastSignature, pushedOnce, pushCount, pushed := "", false, 0, [];
    }

    method SceneSignature(s: RenderScene) returns (signature: string)
      ensures signature == Signature(number, s)
    {
      signature := Join(CanvasFields(s));
      ghost var canvas, parts := signature, ElementSignatures(number, s.elements);
      for i := 0 to |s.elements|
        invariant signature == canvas + Concat(parts[..i])
      {
        OneMorePart(canvas, parts, i);
        signature := signature + ElementSignature(number, s.elements[i]);
      }
      assert parts[..|parts|] == parts;
    }

    method Refresh(now: nat) returns (didPush: bool)
      modifies this, scene`banners
      ensures scene.Contents() == OverlayScene.Expired(old(scene.Contents()), now)
      ensures var s := OverlayScene.Scene(old(scene.Contents()), now);
              (Contents(), didPush) == Refreshed(old(Contents()), Signature(number, s), render(s))
      ensures var s := OverlayScene.Scene(old(scene.Contents()), now);
              && (didPush <==> !old(pushedOnce) || Signature(number, s) != old(lastSignature))
              && pushed == (if didPush then old(pushed) + [render(s)] else old(pushed))
              && pushCount == (if didPush then old(pushCount) + 1 else old(pushCount))
              && pushedOnce && lastSignature == Signature(number, s)
    {
      var built := scene.Build(now);
      var signature := SceneSignature(built);
      if pushedOnce && signature == lastSignature {
        return false;
      }
      lastSignature := signature;
      pushedOnce := true;
      pushed := pushed + [render(built)];
      pushCount := pushCount + 1;
      return true;
    }
  }

  // ---------- Runs of refreshes, for any signature and any renderer ----------

  function RefreshAll<S, Image>(sign: S -> string, render: S -> Image, scenes: seq<S>): Cache<Image> {
    if scenes == [] then Fresh()
    else
      var last := scenes[|scenes| - 1];
      Refreshed(RefreshAll(sign, render, scenes[..|scenes| - 1]), sign(last), render(last)).0
  }

  /** How often the signature changed, the first scene included. */
  function Changes<S>(sign: S -> string, scenes: seq<S>): nat {
    if scenes == [] then 0
    else if |scenes| == 1 then 1
    else
      var m := |scenes| - 1;
      Changes(sign, scenes[..m]) + (if sign(scenes[m]) == sign(scenes[m - 1]) then 0 else 1)
  }

  /**
    After every refresh the sink's last frame was rendered from a scene with the signature of the
    scene just built, and exactly the signature changes were pushed.
  */
  lemma {:induction false} LastPushHasSameSignature<S, Image>(sign: S -> string, render: S -> Image, scenes: seq<S>) returns (k: nat)
    requires scenes != []
    ensures var c := RefreshAll(sign, render, scenes);
            && k < |scenes| && sign(scenes[k]) == sign(scenes[|scenes| - 1]) == c.lastSignature
            && c.pushedOnce && c.pushed != [] && c.pushed[|c.pushed| - 1] == render(scenes[k])
            && c.pushCount == |c.pushed| == Changes(sign, scenes)
  {
    var m := |scenes| - 1;
    var before := RefreshAll(sign, render, scenes[..m]);
    if m == 0 {
      assert scenes[..m] == [];
      k := 0;
    } else {
      k := LastPushHasSameSignature(sign, render, scenes[..m]);
      if sign(scenes[m]) != before.lastSignature {
        k := m;
      }
    }
  }

  lemma SecondSceneIsSkipped<S, Image>(sign: S -> string, render: S -> Image, s: S, t: S)
    requires sign(s) == sign(t)
    ensures RefreshAll(sign, render, [s, t]).pushed == [render(s)]
  {
    assert [s, t][..1] == [s] && [s][..0] == [];
    assert RefreshAll(sign, render, [s][..0]) == Fresh();
    assert RefreshAll(sign, render, [s]).pushed == [render(s)];
  }

  // ---------- Runs of the controller ----------

  /** The operations on the scene; a build is a refresh of the controller. */
  type Op = OverlayScene.Op

  /** The scenes that a run refreshes. */
  function ScenesOf(ops: seq<Op>): seq<RenderScene> {
    if ops == [] then []
    else
      var before, op := ops[..|ops| - 1], ops[|ops| - 1];
      if op.Build? then ScenesOf(before) + [OverlayScene.Scene(OverlayScene.DoAll(before), op.now)] else ScenesOf(before)
  }

  /** The controller after a run: its scene, and its cache, one refresh at a time. */
  function Controlled<Image>(sign: RenderScene -> string, render: RenderScene -> Image, ops: seq<Op>)
    : (OverlayScene.SceneState, Cache<Image>)
  {
    if ops == [] then (OverlayScene.EMPTY_SCENE, Fresh())
    else
      var op := ops[|ops| - 1];
      var (s, c) := Controlled(sign, render, ops[..|ops| - 1]);
      if op.Build? then
        var built := OverlayScene.Scene(s, op.now);
        (OverlayScene.Expired(s, op.now), Refreshed(c, sign(built), render(built)).0)
      else (OverlayScene.Do(s, op), c)
  }

  lemma OneMoreScene<S, Image>(sign: S -> string, render: S -> Image, scenes: seq<S>, s: S)
    ensures RefreshAll(sign, render, scenes + [s]) == Refreshed(RefreshAll(sign, render, scenes), sign(s), render(s)).0
  {
    assert (scenes + [s])[..|scenes|] == scenes;
  }

  lemma {:induction false} ControllerRefreshesScenes<Image>(sign: RenderScene -> string, render: RenderScene -> Image, ops: seq<Op>)
    ensures Controlled(sign, render, ops) == (OverlayScene.DoAll(ops), RefreshAll(sign, render, ScenesOf(ops)))
  {
    if ops == [] {
    } else {
      var before, op := ops[..|ops| - 1], ops[|ops| - 1];
      ControllerRefreshesScenes(sign, render, before);
      if op.Build? {
        OneMoreScene(sign, render, ScenesOf(before), OverlayScene.Scene(OverlayScene.DoAll(before), op.now));
      }
    }
  }

  /** In every run that builds only scenes of the class `ok`, the sink shows the scene built last. */
  ghost predicate ShowsEveryRun<Image>(sign: RenderScene -> string, render: RenderScene -> Image, ok: RenderScene -> bool) {
    forall ops {:trigger ScenesOf(ops)} :: ScenesOf(ops) != [] && (forall s :: s in ScenesOf(ops) ==> ok(s)) ==>
      ShowsLast(Controlled(sign, render, ops).1, render(ScenesOf(ops)[|ScenesOf(ops)| - 1]))
  }

  ghost predicate ShowsLast<Image>(c: Cache<Image>, image: Image) {
    c.pushed != [] && c.pushed[|c.pushed| - 1] == image
  }

  /** Scenes of the class that can be built and have the same signature are drawn the same. */
  ghost predicate RendersBySignature<Image>(sign: RenderScene -> string, render: RenderScene -> Image, ok: RenderScene -> bool) {
    forall s, t {:trigger sign(s), sign(t)} ::
      OverlayScene.Buildable(s) && OverlayScene.Buildable(t) && ok(s) && ok(t) && sign(s) == sign(t) ==> render(s) == render(t)
  }

  lemma {:induction false} ScenesAreBuildable(ops: seq<Op>)
    ensures forall s :: s in ScenesOf(ops) ==> OverlayScene.Buildable(s)
  {
    if ops == [] {
    } else {
      ScenesAreBuildable(ops[..|ops| - 1]);
    }
  }

  lemma {:induction false} PathBuildsNothing(before: seq<Op>, path: seq<Op>)
    requires forall k :: 0 <= k < |path| ==> !path[k].Build?
    ensures ScenesOf(before + path) == ScenesOf(before)
  {
    if path == [] {
      assert before + path == before;
    } else {
      var m := |path| - 1;
      PathBuildsNothing(before, path[..m]);
      assert (before + path)[..|before + path| - 1] == before + path[..m];
    }
  }

  /** Any scene that can be built at all can be the next one that is refreshed. */
  lemma RefreshNext(before: seq<Op>, scene: RenderScene) returns (ops: seq<Op>)
    requires OverlayScene.Buildable(scene)
    ensures ScenesOf(ops) == ScenesOf(before) + [scene]
  {
    var path, now := OverlayScene.BuildableNext(scene, before);
    PathBuildsNothing(before, path);
    ops := before + path + [OverlayScene.Op.Build(now)];
    assert ops[..|ops| - 1] == before + path;
  }

  lemma RunShowsLast<Image>(sign: RenderScene -> string, render: RenderScene -> Image, ok: RenderScene -> bool, ops: seq<Op>)
    requires RendersBySignature(sign, render, ok)
    requires ScenesOf(ops) != [] && forall s :: s in ScenesOf(ops) ==> ok(s)
    ensures ShowsLast(Controlled(sign, render, ops).1, render(ScenesOf(ops)[|ScenesOf(ops)| - 1]))
  {
    var scenes := ScenesOf(ops);
    ControllerRefreshesScenes(sign, render, ops);
    ScenesAreBuildable(ops);
    var k := LastPushHasSameSignature(sign, render, scenes);
    assert scenes[k] in scenes && scenes[|scenes| - 1] in scenes;
  }

  lemma SameSignatureSameImage<Image>(sign: RenderScene -> string, render: RenderScene -> Image, ok: RenderScene -> bool,
                                      s: RenderScene, t: RenderScene)
    requires ShowsEveryRun(sign, render, ok)
    requires OverlayScene.Buildable(s) && OverlayScene.Buildable(t) && ok(s) && ok(t) && sign(s) == sign(t)
    ensures render(s) == render(t)
  {
    var first := RefreshNext([], s);
    var ops := RefreshNext(first, t);
    assert ScenesOf(ops) == [s, t];
    ControllerRefreshesScenes(sign, render, ops);
    SecondSceneIsSkipped(sign, render, s, t);
  }

  /**
    Over all runs of the controller, on any class of scenes: push-on-change shows what rendering on
    every refresh would show if and only if scenes with the same signature are drawn the same.
  */
  lemma CacheIsExactIffRendererIsSigned<Image>(sign: RenderScene -> string, render: RenderScene -> Image, ok: RenderScene -> bool)
    ensures ShowsEveryRun(sign, render, ok) <==> RendersBySignature(sign, render, ok)
  {
    if RendersBySignature(sign, render, ok) {
      forall ops | ScenesOf(ops) != [] && forall s :: s in ScenesOf(ops) ==> ok(s)
        ensures ShowsLast(Controlled(sign, render, ops).1, render(ScenesOf(ops)[|ScenesOf(ops)| - 1]))
      {
        RunShowsLast(sign, render, ok, ops);
      }
    }
    if ShowsEveryRun(sign, render, ok) {
      forall s, t | OverlayScene.Buildable(s) && OverlayScene.Buildable(t) && ok(s) && ok(t) && sign(s) == sign(t)
        ensures render(s) == render(t)
      {
        SameSignatureSameImage(sign, render, ok, s, t);
      }
    }
  }

  /** Scenes of the class that can be built and look alike are drawn the same. */
  ghost predicate DrawsLooks<Image>(render: RenderScene -> Image, ok: RenderScene -> bool) {
    forall s, t {:trigger ScenesLookAlike(s, t)} ::
      OverlayScene.Buildable(s) && OverlayScene.Buildable(t) && ok(s) && ok(t) && ScenesLookAlike(s, t) ==> render(s) == render(t)
  }

  lemma SignedIsLooks<Image>(sign: RenderScene -> string, render: RenderScene -> Image, ok: RenderScene -> bool)
    requires forall s, t | ok(s) && ok(t) :: sign(s) == sign(t) <==> ScenesLookAlike(s, t)
    ensures RendersBySignature(sign, render, ok) <==> DrawsLooks(render, ok)
  {
  }

  /**
    For clean scenes this is a question about the renderer alone: the sink always shows the scene
    built last if and only if the renderer ignores fonts, alignment and fractions of corner radii.
  */
  lemma CacheIsExactIffFontsAreNotDrawn<Image>(number: real -> string, sign: RenderScene -> string, render: RenderScene -> Image,
                                               ok: RenderScene -> bool, floats: iset<real>)
    requires PrintsApart(number, floats)
    requires forall s {:trigger sign(s)} :: sign(s) == Signature(number, s)
    requires forall s {:trigger ok(s)} :: ok(s) ==> CleanScene(s, floats)
    ensures ShowsEveryRun(sign, render, ok) <==> DrawsLooks(render, ok)
  {
    CacheIsExactIffRendererIsSigned(sign, render, ok);
    forall s, t | ok(s) && ok(t)
      ensures sign(s) == sign(t) <==> ScenesLookAlike(s, t)
    {
      assert sign(s) == Signature(number, s) && sign(t) == Signature(number, t);
      SignatureSeparatesIff(number, s, t, floats);
    }
    SignedIsLooks(sign, render, ok);
  }
}
