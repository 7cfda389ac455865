/** The customer detail page (apps/fe/src/customers/CustomerDetailPage.tsx):
    the file-type badge of a document name, and the page state that
    uploads and drag-and-drop change.

    The upload requests are not modelled; what `Promise.all` over them
    settles to is a parameter: every created document in file order, or a
    failure. */
module CustomerDetail {
  import opened Wrappers
  import opened Text
  import Environ

  const Pdf: string := "pdf"
  const Txt: string := "txt"
  const Md: string := "md"
  const Unknown: string := "unknown"

  /** `getFileExtension`: the text after the last '.', or the whole name
      when it has none, compared case-sensitively with the three known
      extensions. */
  function FileExtension(filename: string): (r: string)
    ensures r in [Pdf, Txt, Md, Unknown]
    ensures r == Pdf <==> LastPiece(filename, '.') == Pdf
    ensures r == Txt <==> LastPiece(filename, '.') == Txt
    ensures r == Md <==> LastPiece(filename, '.') == Md
  {
    var extension := LastPiece(filename, '.');
    if extension == Pdf then Pdf
    else if extension == Txt then Txt
    else if extension == Md then Md
    else Unknown
  }

  /** A name made of any stem, a '.' and an extension without a dot is
      classified by that extension alone. */
  lemma FileExtensionOf(stem: string, extension: string)
    requires '.' !in extension
    ensures FileExtension(stem + "." + extension) ==
              if extension in [Pdf, Txt, Md] then extension else Unknown
  {
    LastPieceAppend(stem, extension, '.');
  }

  /** The comparison is case-sensitive. */
  lemma UpperCaseIsUnknown()
    ensures FileExtension("X.PDF") == Unknown
  {
    assert "X" + "." + "PDF" == "X.PDF";
    FileExtensionOf("X", "PDF");
  }

  /** A name without a dot is compared whole. */
  lemma NoDotComparedWhole(filename: string)
    requires '.' !in filename
    ensures FileExtension(filename) == if filename in [Pdf, Txt, Md] then filename else Unknown
  {
    LastPieceIsSuffix(filename, '.');
  }

  datatype Document = Document(id: string, name: string)

  /** What the upload requests settle to. */
  datatype UploadResult = Created(documents: seq<Document>) | UploadFailed

  const UploadError: string := "Failed to upload files"

  /** The drag event types the drop zone listens to. */
  const DragEnter: string := "dragenter"
  const DragOver: string := "dragover"
  const DragLeave: string := "dragleave"

  class DetailPage {
    var documents: seq<Document>
    var uploading: bool
    var error: Option<string>
    var dragActive: bool

    constructor ()
      ensures documents == [] && !uploading && error == None && !dragActive
    {
      documents, uploading, error, dragActive := [], false, None, false;
    }

    /** `handleFileUpload`, run to completion: without files or without a
        customer id (absent or empty, both falsy) nothing happens; otherwise the new documents go before the existing
        ones in file order, or the error is set and the list kept. */
    method HandleFileUpload(files: Option<seq<string>>, customerId: Option<string>, result: UploadResult)
      modifies this
      ensures files.None? || !Environ.Truthy(customerId) ==>
                documents == old(documents) && uploading == old(uploading) && error == old(error)
      ensures files.Some? && Environ.Truthy(customerId) ==>
                && !uploading
                && (result.Created? ==> documents == result.documents + old(documents) && error == None)
                && (result.UploadFailed? ==> documents == old(documents) && error == Some(UploadError))
      ensures dragActive == old(dragActive)
    {
      if files.None? || !Environ.Truthy(customerId) {
        return;
      }
      uploading := true;
      error := None;
      if result.Created? {
        documents := result.documents + documents;
      } else {
        error := Some(UploadError);
      }
      uploading := false;
    }

    /** `handleDrag`: entering or moving over the zone marks it active,
        leaving it clears the mark, any other event leaves it. */
    method HandleDrag(eventType: string)
      modifies this
      ensures dragActive == if eventType in [DragEnter, DragOver] then true
                            else if eventType == DragLeave then false
                            else old(dragActive)
      ensures documents == old(documents) && uploading == old(uploading) && error == old(error)
    {
      if eventType == DragEnter || eventType == DragOver {
        dragActive := true;
      } else if eventType == DragLeave {
        dragActive := false;
      }
    }

    /** `handleDrop`: clears the mark, then uploads the dropped files when
        there is at least one. */
    method HandleDrop(files: Option<seq<string>>, customerId: Option<string>, result: UploadResult)
      modifies this
      ensures !dragActive
      ensures files.None? || files.value == [] || !Environ.Truthy(customerId) ==>
                documents == old(documents) && uploading == old(uploading) && error == old(error)
      ensures files.Some? && files.value != [] && Environ.Truthy(customerId) ==>
                && (result.Created? ==> documents == result.documents + old(documents) && error == None)
                && (result.UploadFailed? ==> documents == old(documents) && error == Some(UploadError))
    {
      dragActive := false;
      if files.Some? && files.value != [] {
        HandleFileUpload(files, customerId, result);
      }
    }
  }
}
