/** The image pass of `optimize_pdf` in app/services/pdf_utils.py: open the
    document, and for every image listed on every page extract it, cap its
    larger side at 1920 pixels, re-encode it as JPEG at the requested
    quality, and swap it in only when that made it smaller and the image has
    a placement on the page; then serialise. Any exception while handling
    one image is caught and the loop moves on. Images live in a
    document-wide store keyed by cross-reference number, so every
    extraction sees the document as the earlier iterations left it. PIL's
    codec and PyMuPDF's `delete_image` and `insert_image` are foreign; they
    are parameters here. */
module Optimize {

  import opened Base
  import opened Geometry
  import Concatenation

  const MaxImageDim: nat := 1920

  datatype Dims = Dims(width: nat, height: nat)

  /** The document's image objects: the bytes `doc.extract_image(xref)`
      returns for each cross-reference number. */
  type Store = map<nat, seq<byte>>

  /** An entry of `page.get_images`: the image's cross-reference number,
      and what `page.get_image_rects(xref)` answers for it on that page (its
      placements, or the message of the exception it raises). */
  datatype Listed = Listed(xref: nat, rects: Result<seq<Rect>, string>)

  /** A page of the document being optimised: its size and its images, in
      the order the library lists them. */
  datatype ImagePage = ImagePage(box: Page, images: seq<Listed>)

  /** An opened document: its pages and its image store. */
  datatype ImageDoc = ImageDoc(pages: seq<ImagePage>, store: Store)

  /** The foreign calls inside the per-image `try`:
      - `badXref`: the message `extract_image` raises for a number the
        store does not hold;
      - `decode`: opening the bytes with PIL (the pixel size, or the message);
      - `encode`: resizing to the given size, converting to RGB and saving as
        JPEG at the given quality (the bytes, or the message);
      - `delete`: `page.delete_image(xref)`, the store it leaves or the message;
      - `insert`: `page.insert_image(rect, stream=bytes)`, likewise. */
  datatype Library = Library(
    badXref: string,
    decode: seq<byte> -> Result<Dims, string>,
    encode: (seq<byte>, Dims, int) -> Result<seq<byte>, string>,
    delete: (Store, nat) -> Result<Store, string>,
    insert: (Store, Rect, seq<byte>) -> Result<Store, string>)

  /** What happened to one image. */
  datatype ImageOutcome =
    | Kept                                   // re-encoding did not pay off, or no placement
    | Replaced(data: seq<byte>, rect: Rect)  // deleted and re-inserted at `rect`
    | Dropped(reason: string)                // deleted, then re-insertion raised
    | Skipped(reason: string)                // raised before anything was deleted

  /** One image's outcome together with the store it leaves behind. */
  datatype Step = Step(outcome: ImageOutcome, store: Store)

  /** The pixel size an image is re-encoded at: unchanged when neither side
      exceeds `MaxImageDim`; otherwise the larger side (the height when the
      sides are equal) becomes `MaxImageDim` and the other is scaled in
      proportion and rounded down. */
  function Downscale(d: Dims): (r: Dims)
    ensures d.width <= MaxImageDim && d.height <= MaxImageDim ==> r == d
    ensures d.width > MaxImageDim || d.height > MaxImageDim ==>
      && r.width <= MaxImageDim && r.height <= MaxImageDim
      && (if d.width > d.height then r.width == MaxImageDim else r.height == MaxImageDim)
    // the other side is the proportional value rounded down
    ensures d.width > d.height && d.width > MaxImageDim ==>
      r.height * d.width <= d.height * MaxImageDim < (r.height + 1) * d.width
    ensures d.height >= d.width && d.height > MaxImageDim ==>
      r.width * d.height <= d.width * MaxImageDim < (r.width + 1) * d.height
  {
    if d.width > MaxImageDim || d.height > MaxImageDim then
      if d.width > d.height then Dims(MaxImageDim, ScaleSide(d.height, d.width))
      else Dims(ScaleSide(d.width, d.height), MaxImageDim)
    else
      d
  }

  /** The smaller side a of an image whose larger side is b, once the
      larger side is brought to `MaxImageDim`: a·MaxImageDim/b rounded down
      (`int(a * (MAX_IMAGE_DIM / b))`, computed exactly rather than in
      floating point). */
  function ScaleSide(a: nat, b: nat): (r: nat)
    requires 0 < b && a <= b
    ensures r <= MaxImageDim
    ensures r * b <= a * MaxImageDim < (r + 1) * b
  {
    var q := a * MaxImageDim / b;
    assert a * MaxImageDim == q * b + a * MaxImageDim % b;
    assert q * b <= b * MaxImageDim;
    q
  }

  /** Extract, decode, downscale and re-encode the image `xref` as the
      store now holds it: the compressed bytes, or the first message raised. */
  function Compress(store: Store, xref: nat, quality: int, lib: Library): (r: Result<seq<byte>, string>)
    ensures xref !in store ==> r == Failure(lib.badXref)
    ensures xref in store && lib.decode(store[xref]).Failure? ==>
      r == Failure(lib.decode(store[xref]).error)
    ensures xref in store && lib.decode(store[xref]).Success? ==>
      r == lib.encode(store[xref], Downscale(lib.decode(store[xref]).value), quality)
    ensures r.Success? ==>
      && xref in store
      && lib.decode(store[xref]).Success?
      && r == lib.encode(store[xref], Downscale(lib.decode(store[xref]).value), quality)
  {
    if xref !in store then Failure(lib.badXref)
    else
      match lib.decode(store[xref])
      case Failure(e) => Failure(e)
      case Success(dims) => lib.encode(store[xref], Downscale(dims), quality)
  }

  /** The compressed bytes are strictly shorter than the extracted ones. */
  predicate Shrinks(store: Store, xref: nat, quality: int, lib: Library) {
    var c := Compress(store, xref, quality, lib);
    c.Success? && xref in store && |c.value| < |store[xref]|
  }

  /** PyMuPDF's truth value of a `Rect`: false only for the all-zero rectangle. */
  predicate Truthy(r: Rect) {
    !(r.x0 == 0.0 && r.y0 == 0.0 && r.x1 == 0.0 && r.y1 == 0.0)
  }

  /** `img_rect = rects[0] if rects else None` followed by `if img_rect:`. */
  predicate Placed(rects: seq<Rect>) {
    |rects| > 0 && Truthy(rects[0])
  }

  /** The body of the per-image `try` block, on the store as the earlier
      iterations left it. */
  function ProcessImage(store: Store, img: Listed, quality: int, lib: Library): (st: Step)
    // nothing raised after a deletion: the store is untouched
    ensures st.outcome.Kept? || st.outcome.Skipped? ==> st.store == store
    ensures st.outcome.Skipped? <==>
      || Compress(store, img.xref, quality, lib).Failure?
      || (Shrinks(store, img.xref, quality, lib) && img.rects.Failure?)
      || (Shrinks(store, img.xref, quality, lib) && img.rects.Success? && Placed(img.rects.value)
          && lib.delete(store, img.xref).Failure?)
    ensures st.outcome.Kept? <==>
      && Compress(store, img.xref, quality, lib).Success?
      && (!Shrinks(store, img.xref, quality, lib) || (img.rects.Success? && !Placed(img.rects.value)))
    ensures st.outcome.Replaced? || st.outcome.Dropped? ==>
      && Shrinks(store, img.xref, quality, lib)
      && img.rects.Success? && Placed(img.rects.value)
      && lib.delete(store, img.xref).Success?
    ensures st.outcome.Replaced? <==>
      && Shrinks(store, img.xref, quality, lib)
      && img.rects.Success? && Placed(img.rects.value)
      && lib.delete(store, img.xref).Success?
      && lib.insert(lib.delete(store, img.xref).value, img.rects.value[0],
                    Compress(store, img.xref, quality, lib).value).Success?
    ensures st.outcome.Replaced? ==>
      && st.outcome.data == Compress(store, img.xref, quality, lib).value
      && |st.outcome.data| < |store[img.xref]|
      && st.outcome.rect == img.rects.value[0]
      && st.store == lib.insert(lib.delete(store, img.xref).value, img.rects.value[0],
                                st.outcome.data).value
    // deleted but never re-inserted
    ensures st.outcome.Dropped? ==>
      && st.store == lib.delete(store, img.xref).value
      && lib.insert(st.store, img.rects.value[0], Compress(store, img.xref, quality, lib).value)
         == Failure(st.outcome.reason)
  {
    match Compress(store, img.xref, quality, lib)
    case Failure(e) => Step(Skipped(e), store)
    case Success(compressed) =>
      if |compressed| >= |store[img.xref]| then Step(Kept, store)
      else
        match img.rects
        case Failure(e) => Step(Skipped(e), store)
        case Success(rects) =>
          if !Placed(rects) then Step(Kept, store)
          else
            match lib.delete(store, img.xref)
            case Failure(e) => Step(Skipped(e), store)
            case Success(cleared) =>
              match lib.insert(cleared, rects[0], compressed)
              case Failure(e) => Step(Dropped(e), cleared)
              case Success(after) => Step(Replaced(compressed, rects[0]), after)
  }

  /** Outcomes of a run of images and the store they leave. */
  datatype Pass = Pass(outcomes: seq<ImageOutcome>, store: Store)

  /** The images processed one after another, each on the store the
      previous one left. */
  function Run(store: Store, imgs: seq<Listed>, quality: int, lib: Library): (p: Pass)
    ensures |p.outcomes| == |imgs|
    decreases |imgs|
  {
    if |imgs| == 0 then Pass([], store)
    else
      var st := ProcessImage(store, imgs[0], quality, lib);
      var rest := Run(st.store, imgs[1..], quality, lib);
      Pass([st.outcome] + rest.outcomes, rest.store)
  }

  /** Running two lists of images one after the other is running their
      concatenation. */
  lemma {:induction false} RunAppend(store: Store, a: seq<Listed>, b: seq<Listed>, quality: int, lib: Library)
    ensures var first := Run(store, a, quality, lib);
      var second := Run(first.store, b, quality, lib);
      Run(store, a + b, quality, lib) == Pass(first.outcomes + second.outcomes, second.store)
    decreases |a|
  {
    if |a| > 0 {
      assert (a + b)[0] == a[0];
      assert (a + b)[1..] == a[1..] + b;
      var st := ProcessImage(store, a[0], quality, lib);
      RunAppend(st.store, a[1..], b, quality, lib);
    } else {
      assert a + b == b;
    }
  }

  /** Image k's outcome is its `try` block run on the store as images
      0..k-1 left it. */
  lemma RunOutcome(store: Store, imgs: seq<Listed>, k: nat, quality: int, lib: Library)
    requires k < |imgs|
    ensures Run(store, imgs, quality, lib).outcomes[k]
         == ProcessImage(Run(store, imgs[..k], quality, lib).store, imgs[k], quality, lib).outcome
  {
    RunAppend(store, imgs[..k], imgs[k..], quality, lib);
    assert imgs[..k] + imgs[k..] == imgs;
  }

  /** An image that raises before anything is deleted, or that is kept,
      changes nothing for the others: every other image gets the outcome it
      would get were the image not listed at all, and the final store is
      the same. */
  lemma FailureIsolated(store: Store, imgs: seq<Listed>, i: nat, quality: int, lib: Library)
    requires i < |imgs|
    requires var o := ProcessImage(Run(store, imgs[..i], quality, lib).store, imgs[i], quality, lib).outcome;
      o.Skipped? || o.Kept?
    ensures var full := Run(store, imgs, quality, lib);
      var without := Run(store, imgs[..i] + imgs[i + 1..], quality, lib);
      && full.store == without.store
      && full.outcomes[..i] + full.outcomes[i + 1..] == without.outcomes
  {
    var mid := Run(store, imgs[..i], quality, lib);
    RunAppend(store, imgs[..i], imgs[i..], quality, lib);
    assert imgs[..i] + imgs[i..] == imgs;
    assert imgs[i..][1..] == imgs[i + 1..];
    RunAppend(store, imgs[..i], imgs[i + 1..], quality, lib);
    var tail := Run(mid.store, imgs[i + 1..], quality, lib);
    var full := Run(store, imgs, quality, lib);
    assert full.outcomes == mid.outcomes + [ProcessImage(mid.store, imgs[i], quality, lib).outcome] + tail.outcomes;
    assert full.outcomes[..i] == mid.outcomes;
    assert full.outcomes[i + 1..] == tail.outcomes;
  }

  /** The result of the pass on one page: its size and one outcome per image. */
  datatype PageReport = PageReport(box: Page, outcomes: seq<ImageOutcome>)

  /** The inner loop: every image of the page, in order, on the store as
      the earlier images left it; a caught exception moves on. */
  method OptimizePage(store: Store, page: ImagePage, quality: int, lib: Library)
    returns (report: PageReport, after: Store)
    ensures report.box == page.box
    ensures Pass(report.outcomes, after) == Run(store, page.images, quality, lib)
  {
    var outcomes: seq<ImageOutcome> := [];
    var s := store;
    var k := 0;
    while k < |page.images|
      invariant 0 <= k <= |page.images|
      invariant Pass(outcomes, s) == Run(store, page.images[..k], quality, lib)
    {
      var st := ProcessImage(s, page.images[k], quality, lib);
      RunAppend(store, page.images[..k], [page.images[k]], quality, lib);
      assert page.images[..k + 1] == page.images[..k] + [page.images[k]];
      outcomes := outcomes + [st.outcome];
      s := st.store;
      k := k + 1;
    }
    assert page.images[..k] == page.images;
    report := PageReport(page.box, outcomes);
    after := s;
  }

  /** The image lists of the given pages. */
  function ImageLists(pages: seq<ImagePage>): (r: seq<seq<Listed>>)
    ensures |r| == |pages| && forall p :: 0 <= p < |pages| ==> r[p] == pages[p].images
  {
    seq(|pages|, p requires 0 <= p < |pages| => pages[p].images)
  }

  /** The outcome lists of the given page reports. */
  function OutcomeLists(reports: seq<PageReport>): (r: seq<seq<ImageOutcome>>)
    ensures |r| == |reports| && forall p :: 0 <= p < |reports| ==> r[p] == reports[p].outcomes
  {
    seq(|reports|, p requires 0 <= p < |reports| => reports[p].outcomes)
  }

  /** What a successful pass returns: one report per page and the final store. */
  datatype Optimized = Optimized(reports: seq<PageReport>, store: Store)

  /** `optimize_pdf`: open the document, run every page in order with the
      store threaded through, serialise. The page count and sizes never
      change, and the outcomes, read page after page, are those of one run
      over all listed images. A failing open or save is the raised message. */
  method OptimizePdf(load: Result<ImageDoc, string>, quality: int, lib: Library, saveError: Option<string>)
    returns (r: Result<Optimized, string>)
    ensures r.Success? <==> load.Success? && saveError.None?
    ensures load.Failure? ==> r == Failure(load.error)
    ensures load.Success? && saveError.Some? ==> r == Failure(saveError.value)
    ensures r.Success? ==>
      && |r.value.reports| == |load.value.pages|
      && (forall p :: 0 <= p < |load.value.pages| ==>
            && r.value.reports[p].box == load.value.pages[p].box
            && |r.value.reports[p].outcomes| == |load.value.pages[p].images|)
      && Pass(Concatenation.Flatten(OutcomeLists(r.value.reports)), r.value.store)
         == Run(load.value.store, Concatenation.Flatten(ImageLists(load.value.pages)), quality, lib)
  {
    if load.Failure? {
      return Failure(load.error);
    }
    var pages := load.value.pages;
    var reports: seq<PageReport> := [];
    var s := load.value.store;
    var p := 0;
    while p < |pages|
      invariant 0 <= p <= |pages|
      invariant |reports| == p
      invariant forall q :: 0 <= q < p ==>
        reports[q].box == pages[q].box && |reports[q].outcomes| == |pages[q].images|
      invariant Pass(Concatenation.Flatten(OutcomeLists(reports)), s)
             == Run(load.value.store, Concatenation.Flatten(ImageLists(pages[..p])), quality, lib)
    {
      var report, after := OptimizePage(s, pages[p], quality, lib);
      ghost var imgsBefore := Concatenation.Flatten(ImageLists(pages[..p]));
      RunAppend(load.value.store, imgsBefore, pages[p].images, quality, lib);
      assert ImageLists(pages[..p + 1]) == ImageLists(pages[..p]) + [pages[p].images];
      Concatenation.FlattenSnoc(ImageLists(pages[..p]), pages[p].images);
      assert OutcomeLists(reports + [report]) == OutcomeLists(reports) + [report.outcomes];
      Concatenation.FlattenSnoc(OutcomeLists(reports), report.outcomes);
      reports := reports + [report];
      s := after;
      p := p + 1;
    }
    assert pages[..p] == pages;
    if saveError.Some? {
      return Failure(saveError.value);
    }
    return Success(Optimized(reports, s));
  }

  /** An image with no placement on the page is never touched, whatever the
      libraries do. */
  lemma UnplacedImageNeverReplaced(store: Store, img: Listed, quality: int, lib: Library)
    requires img.rects == Success([])
    ensures var st := ProcessImage(store, img, quality, lib);
      st.store == store && !st.outcome.Replaced? && !st.outcome.Dropped?
  {
  }

  /** PyMuPDF's all-zero rectangle counts as no placement, even when it is
      listed. */
  lemma ZeroRectNeverReplaced(store: Store, xref: nat, rest: seq<Rect>, quality: int, lib: Library)
    ensures var st := ProcessImage(store, Listed(xref, Success([Rect(0.0, 0.0, 0.0, 0.0)] + rest)), quality, lib);
      st.store == store && !st.outcome.Replaced? && !st.outcome.Dropped?
  {
  }

  /** In exact arithmetic a 4000×1 image is cut to 1920×0. */
  lemma ThinImageCollapses()
    ensures Downscale(Dims(4000, 1)) == Dims(MaxImageDim, 0)
  {
  }

  /** In exact arithmetic, square images larger than the cap become exactly
      cap × cap. */
  lemma SquareDownscale(n: nat)
    requires n > MaxImageDim
    ensures Downscale(Dims(n, n)) == Dims(MaxImageDim, MaxImageDim)
  {
  }
}
