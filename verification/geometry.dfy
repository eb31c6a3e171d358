/** The abstract page model shared by both overlay layouts: page sizes,
    rectangles, colours and the drawing operations the two PDF libraries
    record on an output page. Coordinates are PDF points, as `real`. */
module Geometry {

  import opened Base

  /** A page's media box size. */
  datatype Page = Page(width: real, height: real)

  /** A rectangle given by two corners, as PyMuPDF's `Rect(x0, y0, x1, y1)`. */
  datatype Rect = Rect(x0: real, y0: real, x1: real, y1: real) {
    function Width(): real { x1 - x0 }
    function Height(): real { y1 - y0 }
    /** PyMuPDF refuses to draw into an empty rectangle. */
    predicate IsEmpty() { x1 <= x0 || y1 <= y0 }
  }

  datatype Rgb = Rgb(r: real, g: real, b: real)

  /** Which embedded page a drawing operation places: the letterhead's first
      page, or the content page with the given 0-based index. */
  datatype Source = Letterhead | Content(index: nat)

  /** Drawing operations, in the vocabulary of the library that issues them. */
  datatype DrawOp =
      /** pdf-lib `drawPage`: lower-left corner and size. */
    | DrawPage(source: Source, x: real, y: real, width: real, height: real)
      /** pdf-lib `drawText`: rotation in degrees. */
    | DrawText(text: string, x: real, y: real, size: real, color: Rgb, rotate: real)
      /** PyMuPDF `show_pdf_page`: target rectangle. */
    | ShowPdfPage(source: Source, rect: Rect)
      /** PyMuPDF `insert_text`: insertion point. */
    | InsertText(text: string, x: real, y: real, fontSize: real, color: Rgb)

  /** What the PDF library does that the composition code cannot see: the
      message it raises when page 0 of a document without pages is
      requested, the message PyMuPDF's `show_pdf_page` raises when asked
      to draw into an empty rectangle, and whether the final serialisation
      fails (with its message). A loaded document is `Success(pages)` or
      `Failure(message)`. */
  datatype Backend = Backend(missingPageError: string, emptyRectError: string, saveError: Option<string>)

  /** An output page: its size and the operations drawn on it, in order. */
  datatype OutPage = OutPage(width: real, height: real, ops: seq<DrawOp>)

  /** A box of size w×h at (x, y) leaves equal margins on both sides of a
      W×H page, horizontally and vertically. */
  predicate CenteredIn(x: real, y: real, w: real, h: real, pageW: real, pageH: real) {
    x - 0.0 == pageW - (x + w) && y - 0.0 == pageH - (y + h)
  }

  /** The centring formula `((W - w) / 2, (H - h) / 2)` is exactly the
      position that gives equal margins. */
  lemma CenteredInIff(x: real, y: real, w: real, h: real, pageW: real, pageH: real)
    ensures CenteredIn(x, y, w, h, pageW, pageH)
        <==> x == (pageW - w) / 2.0 && y == (pageH - h) / 2.0
  {
  }
}
