/** The browser-side letterhead overlay (`g3` in src/lib/pdfUtils.js, built
    on pdf-lib): every content page becomes one output page the size of the
    letterhead's first page, carrying the letterhead full-bleed, the content
    page shrunk to 85% and centred, and a rotated page label. */
module PdfLibOverlay {

  import opened Base
  import opened Geometry
  import Decimal

  const ScaleFactor: real := 0.85

  /** The label prefix exactly as the source spells it (a mis-encoded
      "Página "). */
  const LabelPrefix: string := "P\U{00C3}\U{00A1}gina "
  const LabelSize: real := 12.0
  const LabelColor: Rgb := Rgb(1.0, 0.843, 0.0)
  const LabelRotation: real := 90.0
  /** Distance of the label from the right edge, and its height above the bottom. */
  const LabelInset: real := 15.0
  const LabelBaseline: real := 20.0

  const ErrorPrefix: string := "Falha na mesclagem: "

  /** The label stamped on the page with 0-based index i. */
  function Label(i: nat): (t: string)
    ensures |t| > |LabelPrefix| && t[..|LabelPrefix|] == LabelPrefix
    ensures Decimal.Canonical(t[|LabelPrefix|..])
    ensures Decimal.Value(t[|LabelPrefix|..]) == i + 1
  {
    var digits := Decimal.FromNat(i + 1);
    Decimal.ValueOfFromNat(i + 1);
    assert (LabelPrefix + digits)[|LabelPrefix|..] == digits;
    LabelPrefix + digits
  }

  /** The output page for content page `c` at 0-based index i, on a
      letterhead whose first page is `lh`. */
  function LayoutPage(lh: Page, i: nat, c: Page): (p: OutPage)
    ensures p.width == lh.width && p.height == lh.height
    ensures |p.ops| == 3
    // background: the letterhead stretched over the whole page
    ensures p.ops[0] == DrawPage(Letterhead, 0.0, 0.0, lh.width, lh.height)
    // content: this content page at 85% of its own size, with equal margins
    ensures p.ops[1].DrawPage? && p.ops[1].source == Content(i)
    ensures p.ops[1].width == ScaleFactor * c.width
    ensures p.ops[1].height == ScaleFactor * c.height
    ensures CenteredIn(p.ops[1].x, p.ops[1].y, p.ops[1].width, p.ops[1].height, lh.width, lh.height)
    // label: the 1-based page number, near the right edge, rotated
    ensures p.ops[2].DrawText? && p.ops[2].text == Label(i)
    ensures p.ops[2].x == lh.width - LabelInset && p.ops[2].y == LabelBaseline
    ensures p.ops[2].size == LabelSize && p.ops[2].color == LabelColor
    ensures p.ops[2].rotate == LabelRotation
  {
    var w := c.width * ScaleFactor;
    var h := c.height * ScaleFactor;
    OutPage(lh.width, lh.height,
      [ DrawPage(Letterhead, 0.0, 0.0, lh.width, lh.height),
        DrawPage(Content(i), (lh.width - w) / 2.0, (lh.height - h) / 2.0, w, h),
        DrawText(Label(i), lh.width - LabelInset, LabelBaseline, LabelSize, LabelColor, LabelRotation) ])
  }

  /** `g3`: load the content document, then the letterhead, take the
      letterhead's page 0, lay out every content page, and save. Any
      failure on the way is reported as one error carrying the cause's
      message after `ErrorPrefix`. */
  function G3(content: Result<seq<Page>, string>, letterhead: Result<seq<Page>, string>,
              backend: Backend): (r: Result<seq<OutPage>, string>)
    ensures r.Success? <==>
      content.Success? && letterhead.Success? && |letterhead.value| > 0 && backend.saveError.None?
    ensures content.Failure? ==> r == Failure(ErrorPrefix + content.error)
    ensures content.Success? && letterhead.Failure? ==> r == Failure(ErrorPrefix + letterhead.error)
    ensures content.Success? && letterhead.Success? && |letterhead.value| == 0 ==>
      r == Failure(ErrorPrefix + backend.missingPageError)
    ensures content.Success? && letterhead.Success? && |letterhead.value| > 0 && backend.saveError.Some? ==>
      r == Failure(ErrorPrefix + backend.saveError.value)
    ensures r.Success? ==> |r.value| == |content.value|
    ensures r.Success? ==> forall i :: 0 <= i < |r.value| ==>
      r.value[i] == LayoutPage(letterhead.value[0], i, content.value[i])
  {
    if content.Failure? then Failure(ErrorPrefix + content.error)
    else if letterhead.Failure? then Failure(ErrorPrefix + letterhead.error)
    else if |letterhead.value| == 0 then Failure(ErrorPrefix + backend.missingPageError)
    else
      var lh := letterhead.value[0];
      var pages := content.value;
      var out := seq(|pages|, i requires 0 <= i < |pages| => LayoutPage(lh, i, pages[i]));
      if backend.saveError.Some? then Failure(ErrorPrefix + backend.saveError.value)
      else Success(out)
  }

  /** Only the letterhead's first page matters: two letterheads that agree
      on page 0 give the same output. */
  lemma G3UsesOnlyFirstLetterheadPage(content: Result<seq<Page>, string>,
                                      lh1: seq<Page>, lh2: seq<Page>, backend: Backend)
    requires |lh1| > 0 && |lh2| > 0 && lh1[0] == lh2[0]
    ensures G3(content, Success(lh1), backend) == G3(content, Success(lh2), backend)
  {
  }

  /** Every output page carries the label of its own position, so the labels
      of distinct pages differ: no gaps, no repeats. */
  lemma LabelsDistinct(i: nat, j: nat)
    ensures Label(i) == Label(j) <==> i == j
  {
  }

  /** An example: a 612×792 letterhead and three content pages give three
      612×792 pages labelled 1, 2 and 3. */
  lemma G3LetterExample(c0: Page, c1: Page, c2: Page, backend: Backend)
    requires backend.saveError.None?
    ensures var r := G3(Success([c0, c1, c2]), Success([Page(612.0, 792.0)]), backend);
      && r.Success? && |r.value| == 3
      && (forall i :: 0 <= i < 3 ==> r.value[i].width == 612.0 && r.value[i].height == 792.0)
      && r.value[2].ops[2].text == LabelPrefix + "3"
  {
  }
}
