/** The server-side letterhead overlay (`merge_with_letterhead` in
    app/services/pdf_utils.py, built on PyMuPDF): the same page plan as the
    browser version, with a caller-supplied scale and an "n / N" counter
    instead of the rotated label. Errors are not wrapped: the library's own
    message propagates. */
module FitzOverlay {

  import opened Base
  import opened Geometry
  import Decimal

  const CounterSize: real := 10.0
  const CounterColor: Rgb := Rgb(0.0, 0.0, 0.0)
  /** The counter's insertion point is this far left of the right edge and
      this far above the page's lower edge (PyMuPDF's y axis points down). */
  const CounterInset: real := 60.0
  const CounterRise: real := 20.0

  const Separator: string := " / "

  /** The counter text of page k (0-based) out of n: `"{k+1} / {n}"`. */
  function Counter(k: nat, n: nat): (t: string)
    ensures var i := |Decimal.FromNat(k + 1)|;
      && |t| > i + |Separator|
      && Decimal.Canonical(t[..i]) && Decimal.Value(t[..i]) == k + 1
      && t[i..i + |Separator|] == Separator
      && Decimal.Canonical(t[i + |Separator|..]) && Decimal.Value(t[i + |Separator|..]) == n
  {
    var a := Decimal.FromNat(k + 1);
    var b := Decimal.FromNat(n);
    Decimal.ValueOfFromNat(k + 1);
    Decimal.ValueOfFromNat(n);
    var t := a + Separator + b;
    assert t[..|a|] == a;
    assert t[|a|..|a| + |Separator|] == Separator;
    assert t[|a| + |Separator|..] == b;
    t
  }

  /** The rectangle content page `c` is drawn into: `scale` times its own
      size, centred on the letterhead page. */
  function TargetRect(lh: Page, c: Page, scale: real): (r: Rect)
    ensures r.Width() == c.width * scale && r.Height() == c.height * scale
    ensures CenteredIn(r.x0, r.y0, r.Width(), r.Height(), lh.width, lh.height)
  {
    var w := c.width * scale;
    var h := c.height * scale;
    var x := (lh.width - w) / 2.0;
    var y := (lh.height - h) / 2.0;
    Rect(x, y, x + w, y + h)
  }

  /** The output page for content page k (0-based) of n, on letterhead page `lh`. */
  function LayoutPage(lh: Page, k: nat, n: nat, c: Page, scale: real): (p: OutPage)
    ensures p.width == lh.width && p.height == lh.height
    ensures |p.ops| == 3
    // background: letterhead page 0 over the page's whole rectangle
    ensures p.ops[0] == ShowPdfPage(Letterhead, Rect(0.0, 0.0, lh.width, lh.height))
    // content: page k into the scaled, centred rectangle
    ensures p.ops[1] == ShowPdfPage(Content(k), TargetRect(lh, c, scale))
    // counter: "k+1 / n" in black, 10 pt, near the lower right corner
    ensures p.ops[2].InsertText? && p.ops[2].text == Counter(k, n)
    ensures p.ops[2].x == lh.width - CounterInset && p.ops[2].y == lh.height - CounterRise
    ensures p.ops[2].fontSize == CounterSize && p.ops[2].color == CounterColor
  {
    OutPage(lh.width, lh.height,
      [ ShowPdfPage(Letterhead, Rect(0.0, 0.0, lh.width, lh.height)),
        ShowPdfPage(Content(k), TargetRect(lh, c, scale)),
        InsertText(Counter(k, n), lh.width - CounterInset, lh.height - CounterRise,
                   CounterSize, CounterColor) ])
  }

  /** PyMuPDF's `show_pdf_page` raises on an empty target rectangle. The
      loop draws letterhead page 0 over each new page's whole rectangle and
      content page k into its target rectangle, so it gets through every
      page exactly when all of these are non-empty (or there is no page). */
  predicate Drawable(lh: Page, pages: seq<Page>, scale: real) {
    |pages| == 0 ||
      (&& !Rect(0.0, 0.0, lh.width, lh.height).IsEmpty()
       && forall k :: 0 <= k < |pages| ==> !TargetRect(lh, pages[k], scale).IsEmpty())
  }

  /** `merge_with_letterhead`: open the content, then the letterhead, take
      letterhead page 0, emit one page per content page, serialise. */
  function MergeWithLetterhead(content: Result<seq<Page>, string>,
                               letterhead: Result<seq<Page>, string>,
                               scale: real, backend: Backend): (r: Result<seq<OutPage>, string>)
    ensures r.Success? <==>
      && content.Success? && letterhead.Success? && |letterhead.value| > 0
      && Drawable(letterhead.value[0], content.value, scale)
      && backend.saveError.None?
    ensures content.Failure? ==> r == Failure(content.error)
    ensures content.Success? && letterhead.Failure? ==> r == Failure(letterhead.error)
    ensures content.Success? && letterhead.Success? && |letterhead.value| == 0 ==>
      r == Failure(backend.missingPageError)
    ensures content.Success? && letterhead.Success? && |letterhead.value| > 0
            && !Drawable(letterhead.value[0], content.value, scale) ==>
      r == Failure(backend.emptyRectError)
    ensures content.Success? && letterhead.Success? && |letterhead.value| > 0
            && Drawable(letterhead.value[0], content.value, scale) && backend.saveError.Some? ==>
      r == Failure(backend.saveError.value)
    ensures r.Success? ==> |r.value| == |content.value|
    ensures r.Success? ==> forall k :: 0 <= k < |r.value| ==>
      r.value[k] == LayoutPage(letterhead.value[0], k, |content.value|, content.value[k], scale)
  {
    if content.Failure? then Failure(content.error)
    else if letterhead.Failure? then Failure(letterhead.error)
    else if |letterhead.value| == 0 then Failure(backend.missingPageError)
    else if !Drawable(letterhead.value[0], content.value, scale) then Failure(backend.emptyRectError)
    else
      var lh := letterhead.value[0];
      var pages := content.value;
      var n := |pages|;
      var out := seq(n, k requires 0 <= k < n => LayoutPage(lh, k, n, pages[k], scale));
      if backend.saveError.Some? then Failure(backend.saveError.value)
      else Success(out)
  }

  /** A non-positive scale leaves no room for any content page: a document
      with pages (whose widths, like every page's, are not negative) then
      fails with the library's empty-rectangle message. */
  lemma NonPositiveScaleFails(content: seq<Page>, lh: Page, scale: real, backend: Backend)
    requires |content| > 0 && content[0].width >= 0.0 && scale <= 0.0
    ensures MergeWithLetterhead(Success(content), Success([lh]), scale, backend)
         == Failure(backend.emptyRectError)
  {
  }

  /** The target rectangle has the content page's proportions, so PyMuPDF's
      aspect-preserving placement fills it exactly. */
  lemma TargetRectProportional(lh: Page, c: Page, scale: real)
    ensures TargetRect(lh, c, scale).Width() * c.height == TargetRect(lh, c, scale).Height() * c.width
  {
  }

  /** A content page of positive size and a positive scale give a non-empty
      target rectangle, which PyMuPDF accepts. */
  lemma TargetRectNonEmpty(lh: Page, c: Page, scale: real)
    requires c.width > 0.0 && c.height > 0.0 && scale > 0.0
    ensures !TargetRect(lh, c, scale).IsEmpty()
  {
  }

  /** Counters of one document are pairwise distinct and all name the same total. */
  lemma CountersDistinct(k: nat, j: nat, n: nat)
    ensures Counter(k, n) == Counter(j, n) <==> k == j
  {
  }
}
