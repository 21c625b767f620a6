/**
 * Event sequences on a freshly mounted form, each proved from the handlers' contracts
 * alone.
 */
module Scenarios {
  import opened Wrappers
  import opened Schema
  import opened App

  /** A ten-megabyte PDF is refused with the size message and submit stays disabled. */
  method OversizedPdf(name: string) returns (docError: Option<string>, disabled: bool)
    ensures docError == Some(SizeTooLarge)
    ensures disabled
  {
    var form := new UploadForm();
    form.HandleDocChange(Some(FileMeta(name, PdfType, 10 * 1024 * 1024)));
    docError := if DocUpload in form.error then Some(form.error[DocUpload]) else None;
    disabled := form.SubmitDisabled();
  }

  /**
   * Two valid files enable submit; an invalid image afterwards keeps the earlier image
   * and its preview but disables submit; a second valid image enables it again with a
   * new preview URL.
   */
  method InvalidReselection(doc: FileMeta, img: FileMeta, bad: FileMeta, img2: FileMeta)
    returns (enabledFirst: bool, kept: Option<FileMeta>, keptPreview: bool, disabledAfterBad: bool,
             enabledAgain: bool, newPreview: bool)
    requires Validate(Document, doc).Ok? && Validate(Image, img).Ok?
    requires Validate(Image, bad).Err? && Validate(Image, img2).Ok?
    ensures enabledFirst && kept == Some(img) && keptPreview && disabledAfterBad
    ensures enabledAgain && newPreview
  {
    var form := new UploadForm();
    form.HandleDocChange(Some(doc));
    form.HandleImgChange(Some(img));
    form.SubmitEnabledIff();
    enabledFirst := !form.SubmitDisabled();
    var firstUrl := form.imgUrl;

    form.HandleImgChange(Some(bad));
    kept := form.imgFile;
    keptPreview := form.imgUrl == firstUrl;
    disabledAfterBad := form.SubmitDisabled();

    form.HandleImgChange(Some(img2));
    form.SubmitEnabledIff();
    enabledAgain := !form.SubmitDisabled();
    form.AtMostOnePreview();
    newPreview := form.imgUrl != firstUrl && form.imgUrl != "";
  }

  /** Submitting an empty form reports both "required" messages and keeps submit disabled. */
  method SubmitEmpty() returns (submitted: Option<(FileMeta, FileMeta)>, messages: Errors, disabled: bool)
    ensures submitted == None
    ensures messages == map[DocUpload := DocumentRequired, ImgUpload := ImageRequired]
    ensures disabled
  {
    var form := new UploadForm();
    submitted := form.HandleSubmit();
    messages := form.error;
    disabled := form.SubmitDisabled();
    // Both key sets are all of Field; the second conjunct puts the display's keys
    // in front of the verifier for map extensionality.
    forall f: Field
      ensures f in messages && f in {DocUpload, ImgUpload}
    {
      match f
      case DocUpload =>
      case ImgUpload =>
    }
  }

  /**
   * Submitting two valid files hands exactly those files over and returns the form to its
   * mounted state, with no preview URL left live.
   */
  method SubmitBoth(doc: FileMeta, img: FileMeta)
    returns (submitted: Option<(FileMeta, FileMeta)>, reset: bool, previewGone: bool)
    requires Validate(Document, doc).Ok? && Validate(Image, img).Ok?
    ensures submitted == Some((doc, img))
    ensures reset && previewGone
  {
    var form := new UploadForm();
    form.HandleDocChange(Some(doc));
    form.HandleImgChange(Some(img));
    submitted := form.HandleSubmit();
    reset := form.docFile.None? && form.imgFile.None? && form.imgUrl == "" && form.error == map[];
    form.AtMostOnePreview();
    previewGone := form.imgUrl == "";
  }
}
