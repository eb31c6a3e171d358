/** The server's default-letterhead slot (app/routers/letterhead.py): one
    file on disk that can be uploaded, described, downloaded and deleted.
    The file is modelled as an optional byte sequence. */
module LetterheadStore {

  import opened Base

  /** The stored default letterhead, if any. */
  type Slot = Option<seq<byte>>

  const PdfSuffix: string := ".pdf"
  const StoredName: string := "default_letterhead.pdf"
  const DownloadName: string := "timbrado_padrao.pdf"
  const PdfMediaType: string := "application/pdf"

  const NotPdfDetail: string := "Only PDF files are allowed"
  const NotFoundDetail: string := "Timbrado padrão não encontrado"
  const UpdatedMessage: string := "Timbrado padrão atualizado com sucesso"
  const RemovedMessage: string := "Timbrado padrão removido"

  /** The responses of the four endpoints. */
  datatype Reply =
    | Uploaded(message: string, filename: string, size: nat)
    | Present(size: nat, path: string)                 // info: `exists: true`
    | Absent                                           // info: `exists: false`
    | Download(content: seq<byte>, mediaType: string, filename: string)
    | Removed(message: string)
    | Refused(error: HttpError)

  /** A reply together with the slot it leaves behind. */
  datatype Step = Step(slot: Slot, reply: Reply)

  /** `str.endswith(".pdf")`: case-sensitive suffix test. */
  predicate HasPdfSuffix(name: string) {
    |name| >= |PdfSuffix| && name[|name| - |PdfSuffix|..] == PdfSuffix
  }

  /** The suffix test accepts exactly the names of the form `stem + ".pdf"`. */
  lemma HasPdfSuffixIff(name: string)
    ensures HasPdfSuffix(name) <==> exists stem :: stem + PdfSuffix == name
  {
    if HasPdfSuffix(name) {
      var stem := name[..|name| - |PdfSuffix|];
      assert stem + PdfSuffix == name;
    }
    if exists stem :: stem + PdfSuffix == name {
      var stem :| stem + PdfSuffix == name;
      assert name[|name| - |PdfSuffix|..] == PdfSuffix;
    }
  }

  /** POST /api/letterhead/: a name not ending in ".pdf" is refused with 400
      and the slot is untouched; otherwise the slot holds exactly the
      uploaded bytes and their count is reported. */
  function Upload(slot: Slot, file: File): (s: Step)
    ensures !HasPdfSuffix(file.name) ==> s == Step(slot, Refused(HttpError(400, NotPdfDetail)))
    ensures HasPdfSuffix(file.name) ==>
      s.slot == Some(file.content) && s.reply == Uploaded(UpdatedMessage, file.name, |file.content|)
  {
    if !HasPdfSuffix(file.name) then Step(slot, Refused(HttpError(400, NotPdfDetail)))
    else Step(Some(file.content), Uploaded(UpdatedMessage, file.name, file.Size()))
  }

  /** GET /api/letterhead/: whether a letterhead is stored, and its size. */
  function Info(slot: Slot): (r: Reply)
    ensures r.Present? <==> slot.Some?
    ensures r.Present? ==> r.size == |slot.value| && r.path == StoredName
    ensures slot.None? ==> r == Absent
  {
    match slot
    case Some(content) => Present(|content|, StoredName)
    case None => Absent
  }

  /** GET /api/letterhead/download: the stored bytes, or 404. */
  function DownloadLetterhead(slot: Slot): (r: Reply)
    ensures slot.None? ==> r == Refused(HttpError(404, NotFoundDetail))
    ensures slot.Some? ==> r == Download(slot.value, PdfMediaType, DownloadName)
  {
    match slot
    case Some(content) => Download(content, PdfMediaType, DownloadName)
    case None => Refused(HttpError(404, NotFoundDetail))
  }

  /** DELETE /api/letterhead/: empties an occupied slot; on an empty slot,
      404 and the slot stays empty. */
  function Delete(slot: Slot): (s: Step)
    ensures s.slot == None
    ensures s.reply.Removed? <==> slot.Some?
    ensures slot.None? ==> s.reply == Refused(HttpError(404, NotFoundDetail))
  {
    match slot
    case Some(_) => Step(None, Removed(RemovedMessage))
    case None => Step(None, Refused(HttpError(404, NotFoundDetail)))
  }

  /** After a successful upload, download returns exactly the uploaded bytes
      and info reports their size. */
  lemma UploadThenRead(slot: Slot, file: File)
    requires HasPdfSuffix(file.name)
    ensures DownloadLetterhead(Upload(slot, file).slot).content == file.content
    ensures Info(Upload(slot, file).slot) == Present(|file.content|, StoredName)
  {
  }

  /** An upload followed by a delete leaves no letterhead, whether the
      upload was accepted or not and whatever was stored before. */
  lemma UploadThenDelete(slot: Slot, file: File)
    ensures Delete(Upload(slot, file).slot).slot == None
  {
  }

  /** Upper-case extensions are refused: the test is case-sensitive. */
  lemma UpperCaseSuffixRejected(stem: string, slot: Slot, content: seq<byte>)
    ensures Upload(slot, File(stem + ".PDF", content)) == Step(slot, Refused(HttpError(400, NotPdfDetail)))
  {
  }
}
