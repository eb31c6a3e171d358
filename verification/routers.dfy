/** Request handling of the HTTP routers (app/routers/merge.py,
    optimize.py and combine.py): parameter sanitisation and the arguments
    each route hands to the PDF service. */
module Routers {

  import opened Base
  import Geometry
  import FitzOverlay

  const DefaultScale: real := 0.85
  const MinScale: real := 0.01
  const MaxScale: real := 1.0

  const DefaultQuality: int := 80
  const MinQuality: int := 60
  const MaxQuality: int := 95

  const MinCombineFiles: nat := 2

  /** A scale outside [0.01, 1.0] is replaced by the default. */
  function SanitizeScale(scale: real): (r: real)
    ensures MinScale <= r <= MaxScale
    ensures MinScale <= scale <= MaxScale ==> r == scale
    ensures !(MinScale <= scale <= MaxScale) ==> r == DefaultScale
  {
    if MinScale <= scale <= MaxScale then scale else DefaultScale
  }

  /** A quality outside [60, 95] is replaced by the default. */
  function SanitizeQuality(quality: int): (r: int)
    ensures MinQuality <= r <= MaxQuality
    ensures MinQuality <= quality <= MaxQuality ==> r == quality
    ensures !(MinQuality <= quality <= MaxQuality) ==> r == DefaultQuality
  {
    if MinQuality <= quality <= MaxQuality then quality else DefaultQuality
  }

  /** Sanitising an already sanitised value changes nothing. */
  lemma SanitizeIdempotent(scale: real, quality: int)
    ensures SanitizeScale(SanitizeScale(scale)) == SanitizeScale(scale)
    ensures SanitizeQuality(SanitizeQuality(quality)) == SanitizeQuality(quality)
  {
  }

  /** The defaults themselves pass through unchanged: omitting the form
      field and sending the default are the same request. */
  lemma DefaultsAreValid()
    ensures SanitizeScale(DefaultScale) == DefaultScale
    ensures SanitizeQuality(DefaultQuality) == DefaultQuality
  {
  }

  /** The arguments the merge route hands to `merge_with_letterhead`. */
  datatype MergeCall = MergeCall(content: seq<byte>, letterhead: seq<byte>, scale: real)

  /** POST /api/merge: read both uploads, sanitise the scale. The form
      field is optional; `None` stands for its absence. */
  function MergeRoute(content: File, letterhead: File, scale: Option<real>): (c: MergeCall)
    ensures c.content == content.content && c.letterhead == letterhead.content
    ensures MinScale <= c.scale <= MaxScale
    ensures scale.None? ==> c.scale == DefaultScale
    ensures scale.Some? && MinScale <= scale.value <= MaxScale ==> c.scale == scale.value
    ensures scale.Some? && !(MinScale <= scale.value <= MaxScale) ==> c.scale == DefaultScale
  {
    var s := if scale.Some? then scale.value else DefaultScale;
    MergeCall(content.content, letterhead.content, SanitizeScale(s))
  }

  /** Whatever scale the form carries, the scale the merge route passes on
      puts every content page of positive size into a non-empty rectangle,
      which PyMuPDF's `show_pdf_page` accepts. */
  lemma MergeRouteTargetNonEmpty(content: File, letterhead: File, scale: Option<real>,
                                 lh: Geometry.Page, c: Geometry.Page)
    requires c.width > 0.0 && c.height > 0.0
    ensures !FitzOverlay.TargetRect(lh, c, MergeRoute(content, letterhead, scale).scale).IsEmpty()
  {
  }

  /** With a letterhead and content pages of positive size, the merge the
      route calls draws every page, so it fails only if serialising does.
      A `Page` is only a size: a page without a content stream, which
      `show_pdf_page` also refuses, is not represented. */
  lemma MergeRouteDrawable(content: File, letterhead: File, scale: Option<real>,
                           pages: seq<Geometry.Page>, lh: Geometry.Page, backend: Geometry.Backend)
    requires lh.width > 0.0 && lh.height > 0.0
    requires forall k :: 0 <= k < |pages| ==> pages[k].width > 0.0 && pages[k].height > 0.0
    ensures var s := MergeRoute(content, letterhead, scale).scale;
      FitzOverlay.MergeWithLetterhead(Success(pages), Success([lh]), s, backend).Success?
      <==> backend.saveError.None?
  {
  }

  /** The arguments the optimize route hands to `optimize_pdf`. */
  datatype OptimizeCall = OptimizeCall(data: seq<byte>, quality: int)

  /** POST /api/optimize: sanitise the quality, read the upload. */
  function OptimizeRoute(file: File, quality: Option<int>): (c: OptimizeCall)
    ensures c.data == file.content
    ensures MinQuality <= c.quality <= MaxQuality
    ensures quality.None? ==> c.quality == DefaultQuality
    ensures quality.Some? && MinQuality <= quality.value <= MaxQuality ==> c.quality == quality.value
    ensures quality.Some? && !(MinQuality <= quality.value <= MaxQuality) ==> c.quality == DefaultQuality
  {
    var q := if quality.Some? then quality.value else DefaultQuality;
    OptimizeCall(file.content, SanitizeQuality(q))
  }

  /** POST /api/combine: fewer than two uploads is a 400 and the service is
      not called; otherwise every upload is read, in upload order, and the
      list of their bytes goes to `combine_pdfs`. */
  function CombineRoute(files: seq<File>): (r: Result<seq<seq<byte>>, HttpError>)
    ensures r.Failure? <==> |files| < MinCombineFiles
    ensures r.Failure? ==> r.error == HttpError(400, "At least 2 files required")
    ensures r.Success? ==> |r.value| == |files|
    ensures r.Success? ==> forall j :: 0 <= j < |files| ==> r.value[j] == files[j].content
  {
    if |files| < MinCombineFiles then Failure(HttpError(400, "At least 2 files required"))
    else Success(ReadAll(files))
  }

  /** The read loop: `await file.read()` for each upload, in order. */
  function ReadAll(files: seq<File>): (contents: seq<seq<byte>>)
    ensures |contents| == |files|
    ensures forall j :: 0 <= j < |files| ==> contents[j] == files[j].content
  {
    if |files| == 0 then [] else [files[0].content] + ReadAll(files[1..])
  }

  /** The same file uploaded twice is read twice: nothing is deduplicated. */
  lemma DuplicatesKept(f: File)
    ensures CombineRoute([f, f]) == Success([f.content, f.content])
  {
    var r := CombineRoute([f, f]);
    assert r.value == [f.content, f.content];
  }
}
