/**
 * The two file-metadata rule sets of the form: one for the document input and one
 * for the image input. Each looks only at a file's MIME type and byte size and reports
 * its issues in the order the schema declares its checks (type first, then size); the
 * form shows the first of them.
 */
module Schema {
  import opened Wrappers

  /** The inclusive size cap shared by both rule sets: 5 MiB. */
  const FileSizeLimit: nat := 5 * 1024 * 1024

  /** The metadata of a selected file that validation and the form look at. */
  datatype FileMeta = FileMeta(name: string, mimeType: string, size: nat)

  /** Which of the two rule sets to apply. */
  datatype Rules = Document | Image

  /** The MIME-type families of the two inputs. */
  const ApplicationPrefix: string := "application/"
  const ImagePrefix: string := "image/"

  const PdfType: string := ApplicationPrefix + "pdf"
  const ExcelType: string := ApplicationPrefix + "vnd.ms-excel"
  const WordType: string := ApplicationPrefix + "vnd.openxmlformats-officedocument.wordprocessingml.document"

  const PngType: string := ImagePrefix + "png"
  const JpegType: string := ImagePrefix + "jpeg"
  const JpgType: string := ImagePrefix + "jpg"
  const SvgType: string := ImagePrefix + "svg+xml"
  const GifType: string := ImagePrefix + "gif"

  /** The document allow-list, in the schema's order. */
  const DocumentTypes: seq<string> := [PdfType, ExcelType, WordType]

  /** The image allow-list, in the schema's order. */
  const ImageTypes: seq<string> := [PngType, JpegType, JpgType, SvgType, GifType]

  const InvalidDocumentType: string := "Invalid document file type"
  const InvalidImageType: string := "Invalid image file type"
  const SizeTooLarge: string := "File size should not exceed 5MB"
  /** The message of the schemas' final refinement, which a present file always passes. */
  const FileRequired: string := "File is required"

  function AllowedTypes(rules: Rules): seq<string>
  {
    match rules
    case Document => DocumentTypes
    case Image => ImageTypes
  }

  function TypeMessage(rules: Rules): string
  {
    match rules
    case Document => InvalidDocumentType
    case Image => InvalidImageType
  }

  predicate TypeAllowed(rules: Rules, f: FileMeta)
  {
    f.mimeType in AllowedTypes(rules)
  }

  predicate SizeAllowed(f: FileMeta)
  {
    f.size <= FileSizeLimit
  }

  /**
   * Every issue the rule set reports for a file, in declaration order: the MIME-type
   * check, then the size check. The refinement `!!file` holds for every file object,
   * so it never adds an issue.
   */
  function Issues(rules: Rules, f: FileMeta): (issues: seq<string>)
    ensures issues == [] <==> TypeAllowed(rules, f) && SizeAllowed(f)
    ensures TypeMessage(rules) in issues <==> !TypeAllowed(rules, f)
    ensures SizeTooLarge in issues <==> !SizeAllowed(f)
    ensures FileRequired !in issues
  {
    (if TypeAllowed(rules, f) then [] else [TypeMessage(rules)])
    + (if SizeAllowed(f) then [] else [SizeTooLarge])
  }

  /**
   * `safeParse` followed by the form's `errors[0]`: success, or the message of the first
   * failing check.
   */
  function Validate(rules: Rules, f: FileMeta): (r: Result<(), string>)
    ensures r.Ok? <==> TypeAllowed(rules, f) && SizeAllowed(f)
    ensures r.Err? ==> r.error in Issues(rules, f) && r.error != ""
  {
    var issues := Issues(rules, f);
    if issues == [] then Ok(()) else Err(issues[0])
  }

  /** The cap is 5242880 bytes. */
  lemma SizeLimitValue()
    ensures FileSizeLimit == 5242880
  {
  }

  /** Exactly the three document MIME types within the cap are accepted. */
  lemma DocumentAcceptance(f: FileMeta)
    ensures Validate(Document, f).Ok? <==>
      (f.mimeType == PdfType || f.mimeType == ExcelType || f.mimeType == WordType)
      && f.size <= 5242880
  {
  }

  /** Exactly the five image MIME types within the cap are accepted. */
  lemma ImageAcceptance(f: FileMeta)
    ensures Validate(Image, f).Ok? <==>
      (f.mimeType == PngType || f.mimeType == JpegType || f.mimeType == JpgType
       || f.mimeType == SvgType || f.mimeType == GifType)
      && f.size <= 5242880
  {
  }

  /** The cap is inclusive: one byte more than the limit is the first rejected size. */
  lemma SizeBoundary(rules: Rules, name: string, mimeType: string)
    requires mimeType in AllowedTypes(rules)
    ensures Validate(rules, FileMeta(name, mimeType, 5242880)) == Ok(())
    ensures Validate(rules, FileMeta(name, mimeType, 5242881)) == Err(SizeTooLarge)
  {
  }

  /** A disallowed type is reported first, whatever the size. */
  lemma TypeReportedFirst(rules: Rules, f: FileMeta)
    requires !TypeAllowed(rules, f)
    ensures Validate(rules, f) == Err(TypeMessage(rules))
    ensures !SizeAllowed(f) ==> Issues(rules, f) == [TypeMessage(rules), SizeTooLarge]
  {
  }

  /** An allowed type over the cap is reported with the size message. */
  lemma OversizeMessage(rules: Rules, f: FileMeta)
    requires TypeAllowed(rules, f) && !SizeAllowed(f)
    ensures Validate(rules, f) == Err(SizeTooLarge)
  {
  }

  /** The refinement message can never be what a selected file is rejected with. */
  lemma NeverFileRequired(rules: Rules, f: FileMeta)
    ensures Validate(rules, f) != Err(FileRequired)
  {
  }

  /** Every document type is an `application/` type. */
  lemma DocumentTypesAreApplication()
    ensures forall t :: t in DocumentTypes ==> |t| > |ApplicationPrefix| && t[..|ApplicationPrefix|] == ApplicationPrefix
  {
    assert PdfType[..12] == ApplicationPrefix;
    assert ExcelType[..12] == ApplicationPrefix;
    assert WordType[..12] == ApplicationPrefix;
  }

  /** Every image type is an `image/` type. */
  lemma ImageTypesAreImage()
    ensures forall t :: t in ImageTypes ==> |t| > |ImagePrefix| && t[..|ImagePrefix|] == ImagePrefix
  {
    assert PngType[..6] == ImagePrefix;
    assert JpegType[..6] == ImagePrefix;
    assert JpgType[..6] == ImagePrefix;
    assert SvgType[..6] == ImagePrefix;
    assert GifType[..6] == ImagePrefix;
  }

  /** No MIME type is allowed by both rule sets, so no file passes both. */
  lemma AllowListsDisjoint(f: FileMeta)
    ensures forall t :: t in DocumentTypes ==> t !in ImageTypes
    ensures !(Validate(Document, f).Ok? && Validate(Image, f).Ok?)
  {
    DocumentTypesAreApplication();
    ImageTypesAreImage();
    forall t | t in DocumentTypes
      ensures t !in ImageTypes
    {
      assert t[..|ApplicationPrefix|][0] == 'a';
      assert forall u :: u in ImageTypes ==> u[..|ImagePrefix|][0] == 'i';
    }
  }

  /** A ten-megabyte PDF is rejected with the size message; a one-kilobyte PNG is accepted. */
  lemma Examples(name: string)
    ensures Validate(Document, FileMeta(name, PdfType, 10 * 1024 * 1024)) == Err(SizeTooLarge)
    ensures Validate(Image, FileMeta(name, PngType, 1024)) == Ok(())
  {
  }
}
