# DocMerge in Dafny

DocMerge puts a letterhead behind every page of a PDF, concatenates PDFs and
shrinks the images inside a PDF. It does this twice: in the browser with
pdf-lib (`src/lib/pdfUtils.js`, driven by `src/App.jsx`) and on a FastAPI
server with PyMuPDF (`app/services/pdf_utils.py`, behind the routers in
`app/routers/`). This project models the decision and layout logic around
the PDF library calls, over an abstract page model. A document is its
sequence of page sizes, and an output page is its size plus the ordered
drawing operations placed on it.

Modules, one per component:

- `Base` (base.dfy): `Option`, `Result`, bytes and the `File` handle.
- `Decimal` (decimal.dfy): how a page number becomes text, with the digit
  parser as its inverse.
- `Geometry` (geometry.dfy): `Page`, `Rect`, `Rgb`, `DrawOp`, `OutPage`,
  and the `Backend` that stands for the library's own failures.
- `PdfLibOverlay` (pdflib_overlay.dfy): `g3`, the browser overlay.
- `FitzOverlay` (fitz_overlay.dfy): `merge_with_letterhead`, the server
  overlay.
- `Concatenation` (concatenation.dfy): `combinePDFs` and `combine_pdfs`.
- `Optimize` (optimize.dfy): the per-image loop of `optimize_pdf`.
- `Routers` (routers.dfy): request sanitisation in the merge, optimize and
  combine routes.
- `LetterheadStore` (letterhead_store.dfy): the server's default-letterhead
  slot.
- `App` (app.dfy): the combine list editing, the action guards and the
  remembered letterhead of the React front end.

The foreign calls are inputs to the model:

- Loading a PDF is a `Result<seq<Page>, string>`: the pages, or the
  message of the exception raised.
- A `Backend` holds three library facts: the message raised for page 0 of
  an empty document, the message raised for drawing into an empty
  rectangle, and whether saving fails.
- The images of a document being optimised are a store keyed by
  cross-reference number. Image decoding, JPEG encoding, and PyMuPDF's
  `delete_image` and `insert_image` are the functions of an
  `Optimize.Library`.

Facts about the code that shape the model:

- The browser's page label is the literal `"PÃ¡gina "` followed by the
  page number.
- Neither `combinePDFs` nor `combine_pdfs` checks for an empty list. Whether
  the library then saves anything is the `saveError` parameter. The UI refuses
  an empty list, and the server route refuses fewer than 2 files.
- `optimize_pdf` re-encodes every listed image. It caps the larger side at
  1920 pixels and keeps the result only when it is smaller and the image
  has a placement on its page.
- The JPEG quality is an integer in [60, 95].

## Model

| member | source | states |
|---|---|---|
| Decimal.FromNat | src/lib/pdfUtils.js:58 | a page number is written as a canonical decimal numeral (digits only, no leading zero, one digit exactly below 10) |
| Decimal.ValueOfFromNat | src/lib/pdfUtils.js:58 | reading the written number back gives the number |
| Decimal.FromNatOfValue | app/services/pdf_utils.py:86 | every canonical numeral is the rendering of its value, so rendering and reading are inverse on canonical numerals |
| Decimal.FromNatInjective | app/services/pdf_utils.py:86 | distinct page numbers are written differently |
| Geometry.CenteredInIff | src/lib/pdfUtils.js:45-47 | the position ((W−w)/2, (H−h)/2) is exactly the one that leaves equal left/right and equal top/bottom margins |
| PdfLibOverlay.Label | src/lib/pdfUtils.js:58 | the label of page i is the literal prefix followed by a canonical numeral whose value is i+1 |
| PdfLibOverlay.LayoutPage | src/lib/pdfUtils.js:28-68 | the output page is the letterhead's size; it draws, in order, the letterhead at (0,0) over the full page, this content page at 0.85 of its own size with equal margins, and the label at (lhW−15, 20), size 12, colour (1, 0.843, 0), rotated 90° |
| PdfLibOverlay.G3 | src/lib/pdfUtils.js:3-78 | success exactly when both documents load, the letterhead has a page and saving succeeds; then one output page per content page, in content order, laid out on letterhead page 0; otherwise the first failure in source order, as "Falha na mesclagem: " + its message |
| PdfLibOverlay.G3UsesOnlyFirstLetterheadPage | src/lib/pdfUtils.js:17-19 | two letterheads that share page 0 give identical output |
| PdfLibOverlay.LabelsDistinct | src/lib/pdfUtils.js:58 | labels of different pages differ, so there are no gaps or repeats |
| PdfLibOverlay.G3LetterExample | src/lib/pdfUtils.js:21-68 | a 612×792 letterhead and three content pages give three 612×792 pages; the third is labelled with the prefix and "3" |
| FitzOverlay.Counter | app/services/pdf_utils.py:86 | the stamp of page k of n reads as the canonical numeral for k+1, then " / ", then the canonical numeral for n |
| FitzOverlay.TargetRect | app/services/pdf_utils.py:62-76 | the content rectangle is scale times the content page's size and has equal margins on the letterhead page |
| FitzOverlay.LayoutPage | app/services/pdf_utils.py:44-97 | the output page is the letterhead's size; it shows letterhead page 0 over the page's full rectangle, then content page k in its target rectangle, then the counter at (lhW−60, lhH−20), size 10, black |
| FitzOverlay.MergeWithLetterhead | app/services/pdf_utils.py:13-110 | success exactly when both documents open, the letterhead has a page, every `show_pdf_page` target (the new page's rectangle and each content target) is non-empty, and saving succeeds; then one page per content page, in order, each numbered out of the content page count; otherwise the first failure in source order, with the library's own message, unwrapped |
| FitzOverlay.NonPositiveScaleFails | app/services/pdf_utils.py:62-83 | with a scale of zero or below, a document with pages fails with the empty-rectangle message instead of producing a page |
| FitzOverlay.TargetRectProportional | app/services/pdf_utils.py:62-83 | the target rectangle has the content page's aspect ratio, so proportional placement fills it |
| FitzOverlay.TargetRectNonEmpty | app/services/pdf_utils.py:71-83 | a positive content page and a positive scale give a non-empty target rectangle |
| FitzOverlay.CountersDistinct | app/services/pdf_utils.py:86 | counters of different pages of one document differ |
| Concatenation.Flatten | app/services/pdf_utils.py:125-127 | the concatenated page count is the sum of the documents' page counts |
| Concatenation.FlattenSnoc | src/lib/pdfUtils.js:82-88 | appending one more document appends its pages at the end, so combining [D1, D2] and then appending D3 equals combining [D1, D2, D3] |
| Concatenation.FlattenAppend | app/services/pdf_utils.py:125-127 | concatenation distributes over splitting the document list |
| Concatenation.FlattenSlice | src/lib/pdfUtils.js:85-87 | document k's pages occupy, in index order, the slice that starts after all pages of earlier documents |
| Concatenation.FlattenInOrder | src/lib/pdfUtils.js:82-87 | every document's pages appear in that slice, for all documents at once |
| Concatenation.FirstFailure | app/services/pdf_utils.py:125-126 | names the first document that does not load: it failed, and all before it loaded |
| Concatenation.Combine | app/services/pdf_utils.py:112-136 | success exactly when every document loads and serialising succeeds; then all pages, document after document, each in index order; otherwise the first failing document's error, or else the serialiser's |
| Concatenation.CombinePdfs | src/lib/pdfUtils.js:80-91 | the page-copying loop followed by `save` yields exactly what `Combine` yields, on an empty list, on the first load failure and on a save failure too |
| Optimize.Downscale | app/services/pdf_utils.py:179-188 | sizes within 1920 are unchanged; otherwise the larger side (the height on a tie) becomes 1920, the other side is at most 1920 and is the proportional size rounded down |
| Optimize.ScaleSide | app/services/pdf_utils.py:183 | the scaled smaller side is at most 1920 and is the floor of side·1920/larger side |
| Optimize.Compress | app/services/pdf_utils.py:170-210 | an image number the store does not hold fails with the library's message; otherwise a decoding failure gives the decoder's message, and after a decoding the result is exactly the encoder's answer (bytes or message) for the bytes the store holds now, at the downscaled size and the requested quality |
| Optimize.ProcessImage | app/services/pdf_utils.py:168-229 | on the store as earlier images left it: skipped, store untouched, exactly when extraction, decoding or encoding raises, or, for a shrinking image, `get_image_rects` or `delete_image` raises; kept, store untouched, exactly when the re-encoding does not shrink or there is no truthy first placement; dropped, with the store `delete_image` left, exactly when the re-insertion raises after a deletion; replaced, by the shorter bytes at the first placement, otherwise |
| Optimize.Run | app/services/pdf_utils.py:165-229 | one outcome per listed image, each on the store the previous image left |
| Optimize.RunAppend | app/services/pdf_utils.py:159-229 | running two image lists in turn equals running their concatenation, so the per-page loop inside the page loop is one run over all listed images |
| Optimize.RunOutcome | app/services/pdf_utils.py:165-229 | image k's outcome is the try block on the store images 0..k−1 left, so a number listed twice is re-extracted from what its first visit left |
| Optimize.FailureIsolated | app/services/pdf_utils.py:226-229 | an image that raises before anything is deleted, or that is kept, leaves the final store and every other image's outcome as if it were not listed |
| Optimize.OptimizePage | app/services/pdf_utils.py:162-229 | the inner loop's outcomes and final store are those of `Run` over the page's images; the page size is unchanged |
| Optimize.OptimizePdf | app/services/pdf_utils.py:139-241 | success exactly when the document opens and serialising succeeds, otherwise that message; the page count and page sizes are unchanged, and the outcomes read page after page are one `Run` over all listed images with the store threaded through |
| Optimize.UnplacedImageNeverReplaced | app/services/pdf_utils.py:212-216 | an image with no placement rectangle is never deleted or replaced, and the store is unchanged |
| Optimize.ZeroRectNeverReplaced | app/services/pdf_utils.py:214-216 | a first placement equal to the all-zero rectangle, which PyMuPDF treats as false, also leaves the image alone |
| Optimize.ThinImageCollapses | app/services/pdf_utils.py:180-183 | in exact arithmetic a 4000×1 image is downscaled to 1920×0 |
| Optimize.SquareDownscale | app/services/pdf_utils.py:184-186 | in exact arithmetic an over-size square image becomes 1920×1920; the source's double arithmetic gives 1919×1920 for some sizes, 2148 among them |
| Routers.SanitizeScale | app/routers/merge.py:25-26 | a scale in [0.01, 1.0] passes unchanged, any other becomes 0.85, and the result always lies in [0.01, 1.0] |
| Routers.SanitizeQuality | app/routers/optimize.py:20-21 | a quality in [60, 95] passes unchanged, any other becomes 80, and the result always lies in [60, 95] |
| Routers.SanitizeIdempotent | app/routers/merge.py:25-26 | sanitising twice equals sanitising once, for scale and quality |
| Routers.DefaultsAreValid | app/routers/merge.py:16 | the default scale, and the default quality, pass sanitisation unchanged |
| Routers.MergeRoute | app/routers/merge.py:12-33 | the service gets both uploads' bytes and a scale in [0.01, 1.0]: the sent one when it is in range, and 0.85 when none is sent or the sent one is out of range |
| Routers.MergeRouteTargetNonEmpty | app/routers/merge.py:25-33 | whatever scale is sent, a positive content page gets a non-empty target rectangle |
| Routers.MergeRouteDrawable | app/routers/merge.py:25-33 | with a letterhead and content pages of positive size that have content, the merge the route calls succeeds exactly when serialising does |
| Routers.OptimizeRoute | app/routers/optimize.py:12-27 | the service gets the upload's bytes and a quality in [60, 95]: the sent one when it is in range, and 80 when none is sent or the sent one is out of range |
| Routers.CombineRoute | app/routers/combine.py:13-29 | fewer than 2 files is a 400 with its detail and no service call; otherwise the service gets one byte string per upload, upload j's content at position j |
| Routers.ReadAll | app/routers/combine.py:24-26 | the read loop yields every upload's content, in order |
| Routers.DuplicatesKept | app/routers/combine.py:24-26 | the same file uploaded twice is passed on twice |
| LetterheadStore.HasPdfSuffix | app/routers/letterhead.py:16 | the case-sensitive `endswith('.pdf')` test on the upload's name |
| LetterheadStore.HasPdfSuffixIff | app/routers/letterhead.py:16 | the suffix test accepts exactly the names of the form stem + ".pdf" |
| LetterheadStore.Upload | app/routers/letterhead.py:13-31 | a name without ".pdf" gives 400 and leaves the slot as it was; otherwise the slot holds exactly the uploaded bytes and their length is reported |
| LetterheadStore.Info | app/routers/letterhead.py:33-46 | reports presence with the stored size exactly when the slot is occupied, and absence otherwise |
| LetterheadStore.DownloadLetterhead | app/routers/letterhead.py:48-58 | an empty slot gives 404; an occupied one returns the stored bytes as a PDF |
| LetterheadStore.Delete | app/routers/letterhead.py:60-67 | the slot is always empty afterwards; the reply is "removed" exactly when it was occupied, and 404 otherwise |
| LetterheadStore.UploadThenRead | app/routers/letterhead.py:20-46 | after an accepted upload, download returns those bytes and info reports their size |
| LetterheadStore.UploadThenDelete | app/routers/letterhead.py:13-67 | upload then delete leaves the slot empty, whatever the upload's fate and the slot's prior state |
| LetterheadStore.UpperCaseSuffixRejected | app/routers/letterhead.py:16-17 | a ".PDF" name is refused and the slot is unchanged |
| App.Initial | src/App.jsx:79-88 | the first render: no content or letterhead file, no merge running, an empty combine list, no combine running, and the browser store as found |
| App.MoveUp | src/App.jsx:197-202 | index 0 leaves the list unchanged; otherwise positions index−1 and index swap and every other position keeps its file; length and multiset are kept |
| App.MoveDown | src/App.jsx:204-209 | the last index leaves the list unchanged; otherwise positions index and index+1 swap and every other position keeps its file; length and multiset are kept |
| App.MoveDownThenUp | src/App.jsx:197-209 | moving down then up, or up then down, restores the list |
| App.RemoveFile | src/App.jsx:211-214 | an index inside the list drops exactly that position and keeps the order of the rest; any other index leaves the list unchanged |
| App.RemoveFileMultiset | src/App.jsx:211-214 | removal takes away exactly one occurrence of the removed file |
| App.DropOneMultiset | src/App.jsx:212 | a list that skips one position holds the original's elements minus that one |
| App.AppendSelected | src/App.jsx:372 | picked files follow the existing list, both in their own order; no pick adds nothing |
| App.FirstPicked | src/App.jsx:271 | the chosen file is the first picked one, and there is none exactly when nothing was picked |
| App.HandleMerge | src/App.jsx:153-157 | the merge starts exactly when both files are chosen, on those two files; otherwise only the alert |
| App.HandleCombine | src/App.jsx:175-179 | combining starts exactly when the list is non-empty, on the list in order; otherwise only the alert |
| App.MergeDisabled | src/App.jsx:318 | the merge button's `disabled` expression: a file missing or a merge running |
| App.CombineDisabled | src/App.jsx:430 | the combine button's `disabled` expression: an empty list or a combine running |
| App.MergeButtonGuard | src/App.jsx:316-318 | the merge button is enabled exactly when both files are chosen and no merge runs, and clicking it then starts a merge |
| App.CombineButtonGuard | src/App.jsx:428-430 | the combine button is enabled exactly when the list is non-empty and no combine runs, and clicking it then starts one |
| App.InitiallyDisabled | src/App.test.jsx:32-39 | both buttons are disabled in the initial state |
| App.HandleLetterheadChange | src/App.jsx:148-151 | the selection always becomes the new choice; the store records it under "letterhead" only when a file was chosen; nothing else changes |
| App.RestoreLetterhead | src/App.jsx:142-146 | on mount a stored letterhead becomes the selection; without one nothing changes |
| App.LetterheadRemembered | src/App.jsx:142-151 | a chosen letterhead is selected again on the next mount with the same store |
| App.ClearingKeepsRemembered | src/App.jsx:148-151 | clearing the picker does not forget the stored letterhead |

## Left out

- PDF parsing, page embedding and copying, font embedding and serialisation
  are outside the model. These are pdf-lib `load`, `embedPage`,
  `copyPages`, `embedFont` and `save`, and PyMuPDF `open`, `show_pdf_page`,
  `insert_pdf` and `tobytes`. A document is its list of page sizes. What
  the serialiser adds or removes is not modelled, for example a
  placeholder page for an empty document.
- FitzOverlay.MergeWithLetterhead: the only refused drawing modelled is
  one into an empty rectangle, and it has the single message
  `emptyRectError`. `show_pdf_page` also raises for a letterhead or
  content page that has no content stream, whatever its size. A `Page` is
  only a size, so the model cannot represent that case and reports
  success for it.
- Routers.MergeRouteDrawable holds only for pages that have content. A
  page of positive size without a content stream still makes the source
  raise, as the line above says.
- The text operations do not record the font (Helvetica in both
  implementations).
- Page rotation and media-box origins are not modelled. A page is the width
  and height its library reports.
- PdfLibOverlay.G3: per-page embedding failures and font-embedding failures
  have no parameter of their own. In the source they are wrapped exactly
  like a load failure.
- Geometry is computed in `real` instead of IEEE doubles. The equalities
  stated (centring, equal margins, 0.85 scaling) hold in the source only up
  to rounding.
- Optimize.Downscale computes the proportional side as an exact integer
  floor. The source computes `int(h * (1920 / w))` in doubles, which can
  come out one pixel lower when the double product falls just below a whole
  number.
- Optimize.SquareDownscale holds in exact arithmetic only. In doubles,
  `int(2148 * (1920 / 2148))` is 1919, so the source turns a 2148×2148
  image into 1919×1920.
- PIL decoding, resizing, RGBA-on-white compositing, mode conversion and
  JPEG encoding are outside the model. They are the `decode` and `encode`
  functions of `Optimize.Library`, and any exception in them is a
  `Failure`. What `delete_image` and `insert_image` do to the document is
  the store each returns; the model does not look inside it.
- Optimize.ProcessImage: `get_image_rects` is called twice in the source
  and once in the model; its answer for a listed image is fixed by the
  page listing, not recomputed from the store. Each page's image list
  (`page.get_images`) is likewise fixed when the document is opened. The
  source lists a page's images only when the loop reaches it, so pages that
  share a resources dictionary can list images inserted on earlier pages.
  A `delete_image` that raises is taken to leave the store as it was.
- The warning printed for a skipped image is not modelled. The outcome
  carries the exception message, but the log line's format is not kept.
- Form parsing by FastAPI is not modelled. This covers the 422 errors for
  non-numeric fields and a NaN scale, which Python's range test turns into
  0.85. Real numbers have no NaN.
- LetterheadStore: the file system is outside the model. This covers
  directory creation, write failures and a missing upload file name. The
  slot is an `Option` of bytes.
- App.MoveUp and App.MoveDown require an index inside the list. The list
  renders these buttons only for its own entries. JavaScript's behaviour on
  other indices is not modelled.
- The front end's asynchronous plumbing is not modelled:
  - the IndexedDB transactions, where the store is a map;
  - `Promise.all`;
  - Blob and object-URL downloads;
  - the `isMerging` and `isCombining` toggles around a running job;
  - the megabyte size display;
  - all rendering.
- app/main.py (app setup, CORS, templates, health check) is framework
  wiring and is not part of this model.
