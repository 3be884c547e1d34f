/** Element and page geometry in document coordinates: the `Bounds` rectangle,
    the viewport-to-document translation, the choice among an element's line
    fragments, the declared-size fallback and the page-size reconciliation. */
module LayoutBounds {
  import opened Wrappers
  import opened LeadingInt

  /** A rectangle as the layout engine measures it, relative to the viewport
      (the DOM's ClientRect / DOMRect). */
  datatype ClientRect = ClientRect(left: real, top: real, width: real, height: real)

  /** An immutable rectangle; document-space once it has been translated. */
  datatype Bounds = Bounds(left: real, top: real, width: real, height: real)
  {
    /** Offsets each field independently, for nested coordinate frames. */
    function Add(x: real, y: real, w: real, h: real): Bounds {
      Bounds(left + x, top + y, width + w, height + h)
    }

    /** The "no measurement" rectangle. */
    static const EMPTY: Bounds := Bounds(0.0, 0.0, 0.0, 0.0)

    /** Moves a viewport rectangle by the window offset; the size is kept. */
    static function FromClientRect(windowBounds: Bounds, clientRect: ClientRect): Bounds {
      Bounds(clientRect.left + windowBounds.left, clientRect.top + windowBounds.top,
             clientRect.width, clientRect.height)
    }

    /** The translation of the first fragment whose width is not zero, or
        `EMPTY` when there is none. */
    static function FromDOMRectList(windowBounds: Bounds, domRectList: seq<ClientRect>): (b: Bounds)
      ensures b == EMPTY <==> forall i :: 0 <= i < |domRectList| ==> domRectList[i].width == 0.0
      ensures forall i :: (0 <= i < |domRectList| && domRectList[i].width != 0.0 &&
                           IsFirstNonZeroWidth(domRectList, i)) ==> b == FromClientRect(windowBounds, domRectList[i])
    {
      match FirstNonZeroWidth(domRectList)
      case Some(i) => FromClientRect(windowBounds, domRectList[i])
      case None => EMPTY
    }
  }

  /** Every fragment before index `i` has zero width. */
  ghost predicate IsFirstNonZeroWidth(rects: seq<ClientRect>, i: int)
    requires 0 <= i <= |rects|
  {
    forall j :: 0 <= j < i ==> rects[j].width == 0.0
  }

  /** The index `Array.from(list).find(rect => rect.width !== 0)` stops at. */
  function FirstNonZeroWidth(rects: seq<ClientRect>): (r: Option<nat>)
    ensures r.Some? ==> r.value < |rects| && rects[r.value].width != 0.0 &&
                        forall j :: 0 <= j < r.value ==> rects[j].width == 0.0
    ensures r.None? ==> forall j :: 0 <= j < |rects| ==> rects[j].width == 0.0
  {
    if rects == [] then None
    else if rects[0].width != 0.0 then Some(0)
    else match FirstNonZeroWidth(rects[1..])
      case Some(i) => Some(i + 1)
      case None => None
  }

  lemma AddIsFieldwise(b: Bounds, x: real, y: real, w: real, h: real)
    ensures b.Add(x, y, w, h) == Bounds(b.left + x, b.top + y, b.width + w, b.height + h)
  {
  }

  lemma AddZeroIsIdentity(b: Bounds)
    ensures b.Add(0.0, 0.0, 0.0, 0.0) == b
  {
  }

  /** Offsets applied one after the other add up. */
  lemma AddComposes(b: Bounds, x1: real, y1: real, w1: real, h1: real,
                    x2: real, y2: real, w2: real, h2: real)
    ensures b.Add(x1, y1, w1, h1).Add(x2, y2, w2, h2) == b.Add(x1 + x2, y1 + y2, w1 + w2, h1 + h2)
  {
  }

  /** Adding the opposite offsets undoes `Add`. */
  lemma AddCancels(b: Bounds, x: real, y: real, w: real, h: real)
    ensures b.Add(x, y, w, h).Add(-x, -y, -w, -h) == b
  {
  }

  /** The translation keeps the size, moves the corner by the window offset, and
      is the measured rectangle offset by `Add` with a zero size change. */
  lemma FromClientRectTranslates(windowBounds: Bounds, r: ClientRect)
    ensures var b := Bounds.FromClientRect(windowBounds, r);
            b.width == r.width && b.height == r.height &&
            b.left == r.left + windowBounds.left && b.top == r.top + windowBounds.top &&
            b == Bounds(r.left, r.top, r.width, r.height).Add(windowBounds.left, windowBounds.top, 0.0, 0.0)
  {
  }

  /** Only the window's position matters, not its size. */
  lemma FromClientRectIgnoresWindowSize(windowBounds: Bounds, w: real, h: real, r: ClientRect)
    ensures Bounds.FromClientRect(Bounds(windowBounds.left, windowBounds.top, w, h), r) ==
            Bounds.FromClientRect(windowBounds, r)
  {
  }

  lemma FromDOMRectListOfEmpty(windowBounds: Bounds)
    ensures Bounds.FromDOMRectList(windowBounds, []) == Bounds.EMPTY
  {
  }

  /** Once a fragment with a width has been found, fragments after it are
      ignored, however large they are. */
  lemma {:induction false} FromDOMRectListIgnoresLater(windowBounds: Bounds, rects: seq<ClientRect>, later: seq<ClientRect>)
    requires exists i :: 0 <= i < |rects| && rects[i].width != 0.0
    ensures Bounds.FromDOMRectList(windowBounds, rects + later) == Bounds.FromDOMRectList(windowBounds, rects)
  {
    FirstNonZeroWidthIgnoresLater(rects, later);
  }

  lemma {:induction false} FirstNonZeroWidthIgnoresLater(rects: seq<ClientRect>, later: seq<ClientRect>)
    requires exists i :: 0 <= i < |rects| && rects[i].width != 0.0
    ensures FirstNonZeroWidth(rects + later) == FirstNonZeroWidth(rects)
    ensures FirstNonZeroWidth(rects).Some?
  {
    if rects[0].width == 0.0 {
      assert (rects + later)[1..] == rects[1..] + later;
      var i :| 0 <= i < |rects| && rects[i].width != 0.0;
      assert rects[1..][i - 1].width != 0.0;
      FirstNonZeroWidthIgnoresLater(rects[1..], later);
    }
  }

  /** Zero-width fragments in front are skipped. */
  lemma {:induction false} FromDOMRectListSkipsDegenerate(windowBounds: Bounds, zeros: seq<ClientRect>, rects: seq<ClientRect>)
    requires forall j :: 0 <= j < |zeros| ==> zeros[j].width == 0.0
    ensures Bounds.FromDOMRectList(windowBounds, zeros + rects) == Bounds.FromDOMRectList(windowBounds, rects)
  {
    FirstNonZeroWidthSkipsDegenerate(zeros, rects);
  }

  lemma {:induction false} FirstNonZeroWidthSkipsDegenerate(zeros: seq<ClientRect>, rects: seq<ClientRect>)
    requires forall j :: 0 <= j < |zeros| ==> zeros[j].width == 0.0
    ensures FirstNonZeroWidth(zeros + rects) ==
            match FirstNonZeroWidth(rects)
            case Some(i) => Some(i + |zeros|)
            case None => None
  {
    if zeros != [] {
      assert (zeros + rects)[0] == zeros[0];
      assert (zeros + rects)[1..] == zeros[1..] + rects;
      FirstNonZeroWidthSkipsDegenerate(zeros[1..], rects);
    } else {
      assert zeros + rects == rects;
    }
  }

  /** A zero-width fragment, then a 5-wide one, then a 50-wide one: the 5-wide
      one is chosen. */
  lemma FromDOMRectListPicksFirstNotLargest(windowBounds: Bounds, z: ClientRect, big: ClientRect)
    requires z.width == 0.0 && big.width == 50.0
    ensures Bounds.FromDOMRectList(windowBounds, [z, ClientRect(10.0, 20.0, 5.0, 5.0), big]) ==
            Bounds(10.0 + windowBounds.left, 20.0 + windowBounds.top, 5.0, 5.0)
  {
    var rects := [z, ClientRect(10.0, 20.0, 5.0, 5.0), big];
    assert IsFirstNonZeroWidth(rects, 1);
  }

  // ---------------------------------------------------------------------------
  // The declared-size fallback (parseBounds)

  /** The inline style declaration of an element: its `width` and `height`
      properties as the text the style holds ("120px", "auto", ""). */
  datatype InlineStyle = InlineStyle(width: string, height: string)

  /** `parseInt` converts its argument to a string: an element without a style
      makes `style?.width` undefined, which reads as this text. */
  const UNDEFINED_TEXT: string := "undefined"

  /** `parseInt(style?.width, 10)`. */
  function DeclaredWidth(style: Option<InlineStyle>): (r: Option<int>)
    ensures style.None? ==> r.None?
  {
    ParseLeadingInt(if style.Some? then style.value.width else UNDEFINED_TEXT)
  }

  /** `parseInt(style?.height, 10)`. */
  function DeclaredHeight(style: Option<InlineStyle>): (r: Option<int>)
    ensures style.None? ==> r.None?
  {
    ParseLeadingInt(if style.Some? then style.value.height else UNDEFINED_TEXT)
  }

  /** The source's `!measured && declared`: the measured size is zero and the
      declared size is a number other than zero. */
  predicate FallbackApplies(measured: real, declared: Option<int>) {
    measured == 0.0 && declared.Some? && declared.value != 0
  }

  /** The snapshot of a measured rectangle that the resolver edits in place
      before translating it. */
  class RectSnapshot {
    var left: real
    var top: real
    var width: real
    var height: real

    constructor (r: ClientRect)
      ensures Value() == r
    {
      left, top, width, height := r.left, r.top, r.width, r.height;
    }

    function Value(): ClientRect
      reads this
    {
      ClientRect(left, top, width, height)
    }
  }

  /** The document-space bounds of an element: its measured rectangle, with a
      zero width or height replaced by the declared one when that is a non-zero
      number, translated by the window offset. */
  method ParseBounds(windowBounds: Bounds, measured: ClientRect, style: Option<InlineStyle>) returns (b: Bounds)
    ensures b.left == measured.left + windowBounds.left
    ensures b.top == measured.top + windowBounds.top
    ensures FallbackApplies(measured.width, DeclaredWidth(style)) ==> b.width == DeclaredWidth(style).value as real
    ensures !FallbackApplies(measured.width, DeclaredWidth(style)) ==> b.width == measured.width
    ensures FallbackApplies(measured.height, DeclaredHeight(style)) ==> b.height == DeclaredHeight(style).value as real
    ensures !FallbackApplies(measured.height, DeclaredHeight(style)) ==> b.height == measured.height
    ensures measured.width != 0.0 && measured.height != 0.0 ==> b == Bounds.FromClientRect(windowBounds, measured)
    ensures style.None? ==> b == Bounds.FromClientRect(windowBounds, measured)
  {
    var rect := new RectSnapshot(measured);
    var width := DeclaredWidth(style);
    var height := DeclaredHeight(style);
    if rect.width == 0.0 && width.Some? && width.value != 0 {
      rect.width := width.value as real;
    }
    if rect.height == 0.0 && height.Some? && height.value != 0 {
      rect.height := height.value as real;
    }
    b := Bounds.FromClientRect(windowBounds, rect.Value());
  }

  /** A declared "120px" by "40px" on a collapsed box gives a 120 by 40 rectangle. */
  lemma DeclaredPixelsParse()
    ensures DeclaredWidth(Some(InlineStyle("120px", "40px"))) == Some(120)
    ensures DeclaredHeight(Some(InlineStyle("120px", "40px"))) == Some(40)
  {
    WidthPixels();
    HeightPixels();
  }

  lemma WidthPixels()
    ensures ParseLeadingInt("120px") == Some(120)
  {
    ParseRendered("", 120, "px");
    assert NatToDigits(12) == "12";
    assert IntToDecimal(120) == "120";
    assert "" + "120" + "px" == "120px";
  }

  lemma HeightPixels()
    ensures ParseLeadingInt("40px") == Some(40)
  {
    ParseRendered("", 40, "px");
    assert IntToDecimal(40) == "40";
    assert "" + "40" + "px" == "40px";
  }

  /** A collapsed box at the viewport origin that declares "120px" by "40px"
      resolves to a 120 by 40 rectangle at the window offset. */
  method ParseBoundsOfCollapsedBox(windowBounds: Bounds) returns (b: Bounds)
    ensures b == Bounds(windowBounds.left, windowBounds.top, 120.0, 40.0)
  {
    DeclaredPixelsParse();
    b := ParseBounds(windowBounds, ClientRect(0.0, 0.0, 0.0, 0.0), Some(InlineStyle("120px", "40px")));
  }

  /** A declared length that is not a number ("auto", "") never replaces a measurement. */
  lemma NonNumericDeclarationKeepsMeasurement(measured: real, text: string)
    requires text == [] || !(IsSpace(text[0]) || IsDigit(text[0]) || IsSign(text[0]))
    ensures !FallbackApplies(measured, ParseLeadingInt(text))
  {
    ParseRejectsNonNumeric("", text);
    assert "" + text == text;
  }

  // ---------------------------------------------------------------------------
  // The page size (parseDocumentSize)

  /** The size metrics of one root element (`document.body` or
      `document.documentElement`), in CSS pixels. */
  datatype ElementMetrics = ElementMetrics(
    scrollWidth: int, scrollHeight: int,
    offsetWidth: int, offsetHeight: int,
    clientWidth: int, clientHeight: int)

  /** A document's two root elements, either of which may be missing. */
  datatype DocumentElements = DocumentElements(body: Option<ElementMetrics>, documentElement: Option<ElementMetrics>)

  /** The error the page-size resolver raises. */
  datatype SizeError = SizeError(message: string)

  const DOCUMENT_SIZE_ERROR: string := "Unable to get document size"

  /** `Math.min` of two values. */
  function Min(a: int, b: int): (m: int)
    ensures m <= a && m <= b && (m == a || m == b)
  {
    if a <= b then a else b
  }

  /** `Math.min` of three values. */
  function Min3(a: int, b: int, c: int): (m: int)
    ensures m <= a && m <= b && m <= c && (m == a || m == b || m == c)
  {
    Min(Min(a, b), c)
  }

  /** The six width metrics, body and root alternating. */
  function WidthMetrics(body: ElementMetrics, root: ElementMetrics): seq<int> {
    [body.scrollWidth, root.scrollWidth, body.offsetWidth, root.offsetWidth, body.clientWidth, root.clientWidth]
  }

  /** The six height metrics, body and root alternating. */
  function HeightMetrics(body: ElementMetrics, root: ElementMetrics): seq<int> {
    [body.scrollHeight, root.scrollHeight, body.offsetHeight, root.offsetHeight, body.clientHeight, root.clientHeight]
  }

  /** `x` is the least of the values in `s`. */
  ghost predicate IsLeast(x: real, s: seq<int>) {
    (forall i :: 0 <= i < |s| ==> x <= s[i] as real) && (exists i :: 0 <= i < |s| && x == s[i] as real)
  }

  /** The page rectangle: anchored at the origin, each side the least of its six
      metrics; an error when the body or the root element is missing. */
  function ParseDocumentSize(document: DocumentElements): (r: Result<Bounds, SizeError>)
    ensures r.Failure? <==> document.body.None? || document.documentElement.None?
    ensures r.Failure? ==> r.error.message == DOCUMENT_SIZE_ERROR
    ensures r.Success? ==> r.value.left == 0.0 && r.value.top == 0.0
    ensures r.Success? ==> IsLeast(r.value.width, WidthMetrics(document.body.value, document.documentElement.value))
    ensures r.Success? ==> IsLeast(r.value.height, HeightMetrics(document.body.value, document.documentElement.value))
  {
    if document.body.None? || document.documentElement.None? then
      Failure(SizeError(DOCUMENT_SIZE_ERROR))
    else
      var body := document.body.value;
      var root := document.documentElement.value;
      var width := Min3(Min(body.scrollWidth, root.scrollWidth),
                        Min(body.offsetWidth, root.offsetWidth),
                        Min(body.clientWidth, root.clientWidth));
      var height := Min3(Min(body.scrollHeight, root.scrollHeight),
                         Min(body.offsetHeight, root.offsetHeight),
                         Min(body.clientHeight, root.clientHeight));
      LeastOfSix(width, WidthMetrics(body, root));
      LeastOfSix(height, HeightMetrics(body, root));
      Success(Bounds(0.0, 0.0, width as real, height as real))
  }

  /** The nested minimum of three pairwise minima is the least of the six. */
  lemma LeastOfSix(m: int, s: seq<int>)
    requires |s| == 6
    requires m == Min3(Min(s[0], s[1]), Min(s[2], s[3]), Min(s[4], s[5]))
    ensures IsLeast(m as real, s)
  {
    var k :| 0 <= k < 6 && m == s[k];
    assert m as real == s[k] as real;
  }

  /** Swapping the body and the root element gives the same page size. */
  lemma ParseDocumentSizeIsSymmetric(body: Option<ElementMetrics>, root: Option<ElementMetrics>)
    ensures ParseDocumentSize(DocumentElements(body, root)) == ParseDocumentSize(DocumentElements(root, body))
  {
  }

  /** Scroll widths 1000 and 900, offset widths 950 and 920, client widths 800
      and 850 give a page 800 wide. */
  lemma ParseDocumentSizeExample(body: ElementMetrics, root: ElementMetrics)
    requires body.scrollWidth == 1000 && root.scrollWidth == 900
    requires body.offsetWidth == 950 && root.offsetWidth == 920
    requires body.clientWidth == 800 && root.clientWidth == 850
    ensures var r := ParseDocumentSize(DocumentElements(Some(body), Some(root)));
            r.Success? && r.value.width == 800.0
  {
  }
}
