/** Concatenation of PDF documents: `combinePDFs` in src/lib/pdfUtils.js
    (a loop that copies each document's pages in index order) and
    `combine_pdfs` in app/services/pdf_utils.py (one `insert_pdf` per
    document). A document is modelled by its load outcome: its pages, or
    the message the library raised while parsing it. */
module Concatenation {

  import opened Base
  import opened Geometry

  /** The pages of all documents, one document after the other. */
  function Flatten<T>(docs: seq<seq<T>>): (r: seq<T>)
    ensures |r| == TotalLength(docs)
  {
    if |docs| == 0 then [] else docs[0] + Flatten(docs[1..])
  }

  /** The sum of the documents' page counts. */
  function TotalLength<T>(docs: seq<seq<T>>): nat {
    if |docs| == 0 then 0 else |docs[0]| + TotalLength(docs[1..])
  }

  /** Appending one more document appends its pages at the end: adding
      pages to an already concatenated output equals concatenating all the
      documents in one call. */
  lemma {:induction false} FlattenSnoc<T>(docs: seq<seq<T>>, d: seq<T>)
    ensures Flatten(docs + [d]) == Flatten(docs) + d
  {
    if |docs| > 0 {
      assert (docs + [d])[1..] == docs[1..] + [d];
      FlattenSnoc(docs[1..], d);
    } else {
      assert docs + [d] == [d];
    }
  }

  /** Concatenation distributes over splitting the document list. */
  lemma {:induction false} FlattenAppend<T>(a: seq<seq<T>>, b: seq<seq<T>>)
    ensures Flatten(a + b) == Flatten(a) + Flatten(b)
  {
    if |a| > 0 {
      assert (a + b)[1..] == a[1..] + b;
      FlattenAppend(a[1..], b);
    } else {
      assert a + b == b;
    }
  }

  /** The number of pages contributed by the documents before document k. */
  function Offset<T>(docs: seq<seq<T>>, k: nat): nat
    requires k <= |docs|
  {
    TotalLength(docs[..k])
  }

  /** Document k's pages occupy the output slice that starts after the pages
      of all earlier documents, in their own index order. */
  lemma {:induction false} FlattenSlice<T>(docs: seq<seq<T>>, k: nat)
    requires k < |docs|
    ensures Offset(docs, k) + |docs[k]| <= |Flatten(docs)|
    ensures Flatten(docs)[Offset(docs, k)..Offset(docs, k) + |docs[k]|] == docs[k]
  {
    var out := Flatten(docs);
    assert out == docs[0] + Flatten(docs[1..]);
    if k == 0 {
      assert docs[..0] == [];
    } else {
      var rest := docs[1..];
      assert docs[..k][1..] == rest[..k - 1];
      assert Offset(docs, k) == |docs[0]| + Offset(rest, k - 1);
      FlattenSlice(rest, k - 1);
      var o := Offset(rest, k - 1);
      assert out[|docs[0]| + o..|docs[0]| + o + |docs[k]|] == Flatten(rest)[o..o + |rest[k - 1]|];
    }
  }

  /** `out` lists every document's pages, document after document. */
  predicate InOrder<T(==)>(out: seq<T>, docs: seq<seq<T>>) {
    && |out| == TotalLength(docs)
    && forall k :: 0 <= k < |docs| ==>
         Offset(docs, k) + |docs[k]| <= |out| && out[Offset(docs, k)..Offset(docs, k) + |docs[k]|] == docs[k]
  }

  lemma FlattenInOrder<T>(docs: seq<seq<T>>)
    ensures InOrder(Flatten(docs), docs)
  {
    forall k | 0 <= k < |docs|
      ensures Offset(docs, k) + |docs[k]| <= |Flatten(docs)|
      ensures Flatten(docs)[Offset(docs, k)..Offset(docs, k) + |docs[k]|] == docs[k]
    {
      FlattenSlice(docs, k);
    }
  }

  predicate AllLoaded(loads: seq<Result<seq<Page>, string>>) {
    forall k :: 0 <= k < |loads| ==> loads[k].Success?
  }

  /** The page lists of documents that all loaded. */
  function Documents(loads: seq<Result<seq<Page>, string>>): (docs: seq<seq<Page>>)
    requires AllLoaded(loads)
    ensures |docs| == |loads|
    ensures forall k :: 0 <= k < |loads| ==> docs[k] == loads[k].value
  {
    seq(|loads|, k requires 0 <= k < |loads| => loads[k].value)
  }

  /** The position of the first document that failed to load. */
  function FirstFailure(loads: seq<Result<seq<Page>, string>>): (k: nat)
    requires !AllLoaded(loads)
    ensures k < |loads| && loads[k].Failure?
    ensures forall j :: 0 <= j < k ==> loads[j].Success?
  {
    if loads[0].Failure? then 0 else 1 + FirstFailure(loads[1..])
  }

  /** `combine_pdfs`: all pages of all documents in list order, or the
      error of the first document that does not load (nothing is returned
      for the documents already appended), or, once all are appended, the
      serialiser's error. Neither combining function guards an empty list;
      whether the library then saves is `saveError`. */
  function Combine(loads: seq<Result<seq<Page>, string>>, saveError: Option<string>): (r: Result<seq<Page>, string>)
    ensures r.Success? <==> AllLoaded(loads) && saveError.None?
    ensures r.Success? ==> InOrder(r.value, Documents(loads))
    ensures !AllLoaded(loads) ==> r == Failure(loads[FirstFailure(loads)].error)
    ensures AllLoaded(loads) && saveError.Some? ==> r == Failure(saveError.value)
  {
    if !AllLoaded(loads) then
      Failure(loads[FirstFailure(loads)].error)
    else if saveError.Some? then
      Failure(saveError.value)
    else
      var docs := Documents(loads);
      FlattenInOrder(docs);
      Success(Flatten(docs))
  }

  /** `combinePDFs`: the page-by-page copying loop. It yields exactly what
      `Combine` yields. */
  method CombinePdfs(loads: seq<Result<seq<Page>, string>>, saveError: Option<string>)
    returns (r: Result<seq<Page>, string>)
    ensures r == Combine(loads, saveError)
  {
    var pages: seq<Page> := [];
    var i := 0;
    while i < |loads|
      invariant 0 <= i <= |loads|
      invariant AllLoaded(loads[..i])
      invariant pages == Flatten(Documents(loads[..i]))
    {
      if loads[i].Failure? {
        return Failure(loads[i].error);
      }
      var copied := loads[i].value;
      var j := 0;
      ghost var before := pages;
      while j < |copied|
        invariant 0 <= j <= |copied|
        invariant pages == before + copied[..j]
      {
        pages := pages + [copied[j]];
        j := j + 1;
      }
      assert copied[..j] == copied;
      assert Documents(loads[..i + 1]) == Documents(loads[..i]) + [copied];
      FlattenSnoc(Documents(loads[..i]), copied);
      i := i + 1;
    }
    assert loads[..i] == loads;
    if saveError.Some? {
      return Failure(saveError.value);
    }
    return Success(pages);
  }
}
