/**
 * The upload form component: a document slot, an image slot, the image's preview URL
 * and a per-field error map, changed by three handlers (document selected, image
 * selected, submit). React's state setters become direct field assignments in program
 * order, and the preview effect keyed on the image slot becomes an explicit step run
 * right after the slot is assigned.
 */
module App {
  import opened Wrappers
  import opened Schema
  import ObjectUrl

  /** The two inputs, named as in the error map: `doc_upload` and `img_upload`. */
  datatype Field = DocUpload | ImgUpload

  const DocumentRequired: string := "Document file is required"
  const ImageRequired: string := "Image file is required"

  /** The error map; a field without a key has no message (`undefined`). */
  type Errors = map<Field, string>

  /** `!!error[field]`: the field shows a message. */
  predicate Shows(error: Errors, field: Field)
  {
    field in error && error[field] != ""
  }

  class UploadForm {
    var docFile: Option<FileMeta>
    var imgFile: Option<FileMeta>
    /** The preview URL shown for the image, or "" when there is none. */
    var imgUrl: string
    var error: Errors
    /** The URL that the cleanup registered by the preview effect's last run will revoke. */
    var cleanup: Option<string>
    /** How many object URLs the browser has minted for this form. */
    var minted: nat
    /** The object URLs minted and not yet revoked. */
    ghost var live: set<string>
    /** Every object URL minted so far. */
    ghost var issued: set<string>

    /** What the preview effect keeps true between its runs. */
    ghost predicate PreviewTokens()
      reads this
    {
      && (forall k: nat :: k >= minted ==> ObjectUrl.Token(k) !in issued)
      && "" !in issued
      && live <= issued
      && live == (if cleanup.Some? then {cleanup.value} else {})
    }

    ghost predicate Valid()
      reads this
    {
      && PreviewTokens()
      && (imgFile.Some? ==> cleanup == Some(imgUrl))
      && (imgFile.None? ==> cleanup.None? && imgUrl == "")
      && (forall f :: f in error ==> error[f] != "")
    }

    /** The mounted form: both slots empty, no preview, no messages. */
    constructor ()
      ensures Valid()
      ensures docFile.None? && imgFile.None? && imgUrl == "" && error == map[]
      ensures live == {}
    {
      docFile := None;
      imgFile := None;
      imgUrl := "";
      error := map[];
      cleanup := None;
      minted := 0;
      live := {};
      issued := {};
    }

    /** At most one preview URL is live, and it is the one shown exactly when an image is held. */
    lemma AtMostOnePreview()
      requires Valid()
      ensures |live| <= 1
      ensures imgFile.Some? <==> imgUrl in live
      ensures imgFile.Some? <==> imgUrl != ""
    {
    }

    /** The submit button's `disabled` expression. */
    predicate SubmitDisabled()
      reads this
    {
      Shows(error, DocUpload) || Shows(error, ImgUpload) || docFile.None? || imgFile.None?
    }

    /** Submit is enabled exactly when no field has a message and both slots hold a file. */
    lemma SubmitEnabledIff()
      requires Valid()
      ensures !SubmitDisabled() <==> error == map[] && docFile.Some? && imgFile.Some?
    {
      if !SubmitDisabled() {
        forall f: Field
          ensures f !in error
        {
          match f
          case DocUpload =>
          case ImgUpload =>
        }
        assert error.Keys == {};
      }
    }

    /**
     * Runs the file's rule set and records the first message, or clears the field's
     * message, leaving the other field's entry as it was.
     */
    method ValidateFile(file: FileMeta, rules: Rules, field: Field) returns (isValid: bool)
      modifies this`error
      ensures isValid <==> Validate(rules, file).Ok?
      ensures isValid ==> error == old(error) - {field}
      ensures !isValid ==> error == old(error)[field := Validate(rules, file).error]
    {
      var result := Validate(rules, file);
      if result.Err? {
        error := error[field := result.error];
        isValid := false;
      } else {
        error := error - {field};
        isValid := true;
      }
    }

    /**
     * The preview effect, run after the image slot has been assigned: the cleanup left
     * by its previous run revokes that run's URL, and a held image gets a freshly minted
     * URL that becomes the preview.
     */
    method RunPreviewEffect()
      requires PreviewTokens()
      requires imgFile.None? ==> imgUrl == ""
      modifies this`imgUrl, this`cleanup, this`minted, this`live, this`issued
      ensures PreviewTokens()
      ensures old(cleanup).Some? ==> old(cleanup).value !in live
      ensures imgFile.Some? ==> cleanup == Some(imgUrl) && imgUrl !in old(issued) && live == {imgUrl}
      ensures imgFile.None? ==> cleanup.None? && imgUrl == "" && live == {}
    {
      if cleanup.Some? {
        live := live - {cleanup.value};
        cleanup := None;
      }
      if imgFile.Some? {
        var url := ObjectUrl.Token(minted);
        forall k: nat | k > minted
          ensures ObjectUrl.Token(k) != url
        {
          ObjectUrl.TokenInjective(k, minted);
        }
        minted := minted + 1;
        issued := issued + {url};
        live := live + {url};
        imgUrl := url;
        cleanup := Some(url);
      }
    }

    /**
     * The document input's change handler. No file: nothing changes. Otherwise the
     * document rules run; only a valid file replaces the slot, so an invalid one leaves
     * the previous file in place while its message disables submit.
     */
    method HandleDocChange(selection: Option<FileMeta>)
      requires Valid()
      modifies this`docFile, this`error
      ensures Valid()
      ensures selection.None? ==> docFile == old(docFile) && error == old(error)
      ensures selection.Some? && Validate(Document, selection.value).Ok? ==>
        docFile == selection && error == old(error) - {DocUpload}
      ensures selection.Some? && Validate(Document, selection.value).Err? ==>
        && docFile == old(docFile)
        && error == old(error)[DocUpload := Validate(Document, selection.value).error]
        && SubmitDisabled()
    {
      if selection.Some? {
        var isValid := ValidateFile(selection.value, Document, DocUpload);
        if isValid {
          docFile := selection;
        }
      }
    }

    /**
     * The image input's change handler: as for the document, and a valid image also
     * re-runs the preview effect, revoking the previous preview URL and minting a
     * fresh one.
     */
    method HandleImgChange(selection: Option<FileMeta>)
      requires Valid()
      modifies this`imgFile, this`error, this`imgUrl, this`cleanup, this`minted, this`live, this`issued
      ensures Valid()
      ensures selection.None? ==>
        imgFile == old(imgFile) && error == old(error) && imgUrl == old(imgUrl) && live == old(live)
      ensures selection.Some? && Validate(Image, selection.value).Ok? ==>
        && imgFile == selection && error == old(error) - {ImgUpload}
        && old(imgUrl) !in live
        && imgUrl !in old(issued) && live == {imgUrl}
      ensures selection.Some? && Validate(Image, selection.value).Err? ==>
        && imgFile == old(imgFile) && imgUrl == old(imgUrl) && live == old(live)
        && error == old(error)[ImgUpload := Validate(Image, selection.value).error]
        && SubmitDisabled()
    {
      if selection.Some? {
        var isValid := ValidateFile(selection.value, Image, ImgUpload);
        if isValid {
          imgFile := selection;
          RunPreviewEffect();
        }
      }
    }

    /**
     * The form's submit handler. With a slot empty it replaces the whole error map with
     * a "required" message per empty slot and changes nothing else. With both slots held
     * it hands both files to the completion (returned here) and resets the form.
     */
    method HandleSubmit() returns (submitted: Option<(FileMeta, FileMeta)>)
      requires Valid()
      modifies this`docFile, this`imgFile, this`imgUrl, this`error, this`cleanup, this`minted, this`live, this`issued
      ensures Valid()
      ensures submitted.Some? <==> old(docFile).Some? && old(imgFile).Some?
      ensures !old(SubmitDisabled()) ==> submitted.Some?
      ensures submitted.None? ==>
        && docFile == old(docFile) && imgFile == old(imgFile)
        && imgUrl == old(imgUrl) && live == old(live)
        && (DocUpload in error <==> docFile.None?)
        && (docFile.None? ==> error[DocUpload] == DocumentRequired)
        && (ImgUpload in error <==> imgFile.None?)
        && (imgFile.None? ==> error[ImgUpload] == ImageRequired)
      ensures submitted.Some? ==>
        && submitted.value == (old(docFile).value, old(imgFile).value)
        && docFile.None? && imgFile.None? && imgUrl == "" && error == map[]
        && live == {}
    {
      if docFile.None? || imgFile.None? {
        var required: Errors := map[];
        if docFile.None? {
          required := required[DocUpload := DocumentRequired];
        }
        if imgFile.None? {
          required := required[ImgUpload := ImageRequired];
        }
        error := required;
        submitted := None;
        return;
      }
      submitted := Some((docFile.value, imgFile.value));
      docFile := None;
      imgFile := None;
      imgUrl := "";
      error := map[];
      RunPreviewEffect();
    }
  }
}
