/** The writing samples of a pen: photos of written text with ink, paper and notes,
    newest first. No field is required; a pending photo is uploaded first. */
module WritingSamples {
  import opened Common

  datatype SampleForm = SampleForm(ink_name: string, paper: string, notes: string)

  const BlankForm: SampleForm := SampleForm("", "", "")

  /** The body of the add request: the form and the image URL. */
  datatype SampleRequest = SampleRequest(form: SampleForm, image_url: string)

  /** The image URL sent: "" without a pending photo, else what the upload
      returned (`uploadData.imageUrl || ""`). */
  function SampleImage(pending: bool, uploaded: string): (url: string)
    ensures !pending ==> url == ""
    ensures pending ==> url == uploaded
  {
    if pending then uploaded else ""
  }

  /** `prev.filter(s => s.id !== id)`. */
  function WithoutSample(samples: seq<WritingSample>, id: int): (r: seq<WritingSample>)
    ensures forall s :: s in r <==> s in samples && s.id != id
    ensures IsSubsequence(r, samples)
    ensures forall s :: multiset(r)[s] == if s.id != id then multiset(samples)[s] else 0
  {
    Filter(samples, (s: WritingSample) => s.id != id)
  }

  class Panel {
    var samples: seq<WritingSample>
    var isAdding: bool
    var form: SampleForm
    var pendingFile: bool
    var imagePreview: string
    var isSaving: bool

    constructor (initialSamples: seq<WritingSample>)
      ensures samples == initialSamples && !isAdding && form == BlankForm
      ensures !pendingFile && imagePreview == "" && !isSaving
    {
      samples := initialSamples;
      isAdding := false;
      form := BlankForm;
      pendingFile := false;
      imagePreview := "";
      isSaving := false;
    }

    /** A photo is chosen. */
    method FileChosen(preview: string)
      modifies this
      ensures pendingFile && imagePreview == preview
      ensures samples == old(samples) && form == old(form) && isAdding == old(isAdding)
      ensures isSaving == old(isSaving)
    {
      pendingFile := true;
      imagePreview := preview;
    }

    /** "Save": a pending photo is uploaded first (a failed upload fails the add
        and sends nothing); the form is sent with the image URL, and a returned
        sample is put in front and the form, photo and preview are reset. */
    method Add(upload: Upload, outcome: AddOutcome<WritingSample>) returns (sent: Option<SampleRequest>)
      modifies this
      ensures old(pendingFile) && upload.UploadFailed? ==>
                sent == None && samples == old(samples) && form == old(form)
                && pendingFile == old(pendingFile) && imagePreview == old(imagePreview)
                && isAdding == old(isAdding)
      ensures !(old(pendingFile) && upload.UploadFailed?) ==>
                sent == Some(SampleRequest(old(form),
                               SampleImage(old(pendingFile), if upload.Uploaded? then upload.imageUrl else "")))
      ensures !(old(pendingFile) && upload.UploadFailed?) && outcome.Added? ==>
                && samples == [outcome.record] + old(samples)
                && form == BlankForm && !pendingFile && imagePreview == "" && !isAdding
      ensures !(old(pendingFile) && upload.UploadFailed?) && outcome.AddFailed? ==>
                && samples == old(samples) && form == old(form)
                && pendingFile == old(pendingFile) && imagePreview == old(imagePreview)
                && isAdding == old(isAdding)
      ensures !isSaving
    {
      isSaving := true;
      var imageUrl := "";
      if pendingFile {
        match upload {
          case UploadFailed =>
            isSaving := false;
            return None;
          case Uploaded(url) =>
            imageUrl := url;
        }
      }
      sent := Some(SampleRequest(form, imageUrl));
      match outcome {
        case AddFailed =>
        case Added(sample) =>
          samples := [sample] + samples;
          form := BlankForm;
          pendingFile := false;
          imagePreview := "";
          isAdding := false;
      }
      isSaving := false;
    }

    /** A delete button: nothing happens unless confirmed; a confirmed delete
        removes the sample whatever the server answers, but not when the request
        itself fails. */
    method Delete(id: int, confirmed: bool, outcome: DeleteOutcome)
      modifies this
      ensures confirmed && outcome.Responded? ==> samples == WithoutSample(old(samples), id)
      ensures !confirmed || outcome.NetworkFailure? ==> samples == old(samples)
      ensures form == old(form) && isAdding == old(isAdding)
      ensures pendingFile == old(pendingFile) && imagePreview == old(imagePreview) && isSaving == old(isSaving)
    {
      if !confirmed {
        return;
      }
      if outcome.NetworkFailure? {
        return;
      }
      samples := WithoutSample(samples, id);
    }
  }
}
