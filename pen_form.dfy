/** The add/edit form of a pen: the form fields filled from a stored pen, the
    merge of a photo-identification result, the rating and daily-carry controls, and
    saving (the brand check, the image choice, the request body and the
    delete-all-then-add synchronisation of the pen's tags). */
module PenForm {
  import opened Common

  /** The form state. Every field is text as typed, except the rating and the
      daily-carry flag. */
  datatype FormData = FormData(
    brand: string, model: string, color: string,
    nib_size: string, nib_material: string, nib_type: string, fill_system: string,
    date_purchased: string, purchase_price: string, purchase_location: string,
    current_ink: string, condition: string, notes: string, image_url: string,
    rating: int, is_daily_carry: int, provenance: string, storage_location: string)

  /** The blank form of a new pen. */
  const Empty: FormData := FormData("", "", "", "", "", "", "", "", "", "", "", "", "", "", 0, 0, "", "")

  /** The form of a stored pen, or the blank form when there is none. */
  function PenToForm(pen: Option<Pen>): (f: FormData)
    ensures pen.None? ==> f == Empty
    ensures pen.Some? ==> (f.purchase_price == "" <==> pen.value.purchase_price.None?)
    ensures pen.Some? && pen.value.is_daily_carry.None? ==> f.is_daily_carry == 0
    ensures pen.Some? && pen.value.provenance.None? ==> f.provenance == ""
    ensures pen.Some? && pen.value.storage_location.None? ==> f.storage_location == ""
  {
    match pen
    case None => Empty
    case Some(p) =>
      FormData(p.brand, p.model, p.color, p.nib_size, p.nib_material, p.nib_type, p.fill_system,
               p.date_purchased,
               if p.purchase_price.Some? then MoneyToString(p.purchase_price.value) else "",
               p.purchase_location, p.current_ink, p.condition, p.notes, p.image_url, p.rating,
               if p.is_daily_carry.Some? then p.is_daily_carry.value else 0,
               if p.provenance.Some? then p.provenance.value else "",
               if p.storage_location.Some? then p.storage_location.value else "")
  }

  /** The stored values of a pen reach the form unchanged, apart from the price,
      which is shown as its decimal text. */
  lemma PenToFormKeepsValues(p: Pen)
    ensures var f := PenToForm(Some(p));
            && f.brand == p.brand && f.model == p.model && f.color == p.color
            && f.nib_size == p.nib_size && f.nib_material == p.nib_material
            && f.nib_type == p.nib_type && f.fill_system == p.fill_system
            && f.date_purchased == p.date_purchased && f.purchase_location == p.purchase_location
            && f.current_ink == p.current_ink && f.condition == p.condition
            && f.notes == p.notes && f.image_url == p.image_url && f.rating == p.rating
            && (p.purchase_price.Some? ==> f.purchase_price == MoneyToString(p.purchase_price.value))
            && (p.is_daily_carry.Some? ==> f.is_daily_carry == p.is_daily_carry.value)
            && (p.provenance.Some? ==> f.provenance == p.provenance.value)
            && (p.storage_location.Some? ==> f.storage_location == p.storage_location.value)
  {
  }

  // ---------------------------------------------------------------------------
  // Identification of a photo

  /** The JSON returned by the identification service; a missing text is "". */
  datatype Identification = Identification(
    imageUrl: string, brand: string, model: string, color: string,
    nib_size: string, nib_material: string, nib_type: string, fill_system: string,
    identified: bool, message: string)

  /** JavaScript `a || b` on strings. */
  function OrElse(a: string, b: string): (r: string)
    ensures a != "" ==> r == a
    ensures a == "" ==> r == b
  {
    if a != "" then a else b
  }

  /** The form after an identification: each of the eight identified fields takes
      the returned value when it is non-empty. */
  function Merge(prev: FormData, d: Identification): FormData {
    prev.(image_url := OrElse(d.imageUrl, prev.image_url),
          brand := OrElse(d.brand, prev.brand),
          model := OrElse(d.model, prev.model),
          color := OrElse(d.color, prev.color),
          nib_size := OrElse(d.nib_size, prev.nib_size),
          nib_material := OrElse(d.nib_material, prev.nib_material),
          nib_type := OrElse(d.nib_type, prev.nib_type),
          fill_system := OrElse(d.fill_system, prev.fill_system))
  }

  /** The merge touches only the eight identified fields; an empty returned value
      keeps what the form held, a non-empty one replaces it. */
  lemma MergeChangesOnlyIdentifiedFields(prev: FormData, d: Identification)
    ensures var m := Merge(prev, d);
            m.(image_url := prev.image_url, brand := prev.brand, model := prev.model,
               color := prev.color, nib_size := prev.nib_size, nib_material := prev.nib_material,
               nib_type := prev.nib_type, fill_system := prev.fill_system) == prev
    ensures var m := Merge(prev, d);
            && (d.brand == "" ==> m.brand == prev.brand) && (d.brand != "" ==> m.brand == d.brand)
            && (d.model == "" ==> m.model == prev.model) && (d.model != "" ==> m.model == d.model)
            && (d.color == "" ==> m.color == prev.color) && (d.color != "" ==> m.color == d.color)
            && (d.nib_size == "" ==> m.nib_size == prev.nib_size)
            && (d.nib_size != "" ==> m.nib_size == d.nib_size)
            && (d.nib_material == "" ==> m.nib_material == prev.nib_material)
            && (d.nib_material != "" ==> m.nib_material == d.nib_material)
            && (d.nib_type == "" ==> m.nib_type == prev.nib_type)
            && (d.nib_type != "" ==> m.nib_type == d.nib_type)
            && (d.fill_system == "" ==> m.fill_system == prev.fill_system)
            && (d.fill_system != "" ==> m.fill_system == d.fill_system)
            && (d.imageUrl == "" ==> m.image_url == prev.image_url)
            && (d.imageUrl != "" ==> m.image_url == d.imageUrl)
  {
  }

  /** Merging the same result twice changes nothing more. */
  lemma MergeIdempotent(prev: FormData, d: Identification)
    ensures Merge(Merge(prev, d), d) == Merge(prev, d)
  {
  }

  /** A result that recognised nothing leaves the form as it was. */
  lemma EmptyResultKeepsForm(prev: FormData, identified: bool, message: string)
    ensures Merge(prev, Identification("", "", "", "", "", "", "", "", identified, message)) == prev
  {
  }

  const IdentifiedMessage: string := "Pen identified — review and confirm the details below."
  const ImageSavedMessage: string := "Image saved."
  const IdentifyFailedMessage: string := "Could not identify pen. Please fill in details manually."

  /** The message after a successful identification request. */
  function IdentifyMessage(d: Identification): (m: string)
    ensures d.identified ==> m == IdentifiedMessage
    ensures !d.identified ==> m == OrElse(d.message, ImageSavedMessage)
    ensures m != ""
  {
    if d.identified then IdentifiedMessage else OrElse(d.message, ImageSavedMessage)
  }

  // ---------------------------------------------------------------------------
  // Rating and daily carry

  /** Clicking star `star`: the current rating's star clears the rating, any other
      star sets it. */
  function ClickStar(rating: int, star: int): (r: int)
    requires 1 <= star <= 5
    ensures 0 <= r <= 5
    ensures r == 0 <==> rating == star
    ensures r != 0 ==> r == star
  {
    if rating == star then 0 else star
  }

  /** Clicking the same star twice from an unrated or differently rated form
      returns to no rating; from a rated form it restores the rating. */
  lemma ClickStarTwice(rating: int, star: int)
    requires 1 <= star <= 5
    ensures ClickStar(ClickStar(rating, star), star) == (if rating == star then star else 0)
  {
  }

  /** The daily-carry switch: a truthy flag becomes 0, a falsy one 1. */
  function ToggleDailyCarry(flag: int): (r: int)
    ensures r == 0 || r == 1
    ensures r == 1 <==> flag == 0
  {
    if flag != 0 then 0 else 1
  }

  lemma ToggleTwice(flag: int)
    requires flag == 0 || flag == 1
    ensures ToggleDailyCarry(ToggleDailyCarry(flag)) == flag
  {
  }

  // ---------------------------------------------------------------------------
  // Saving

  /** The body of the save request: the form with the chosen image, and the price
      text handed to `parseFloat`, `None` for `null`. */
  datatype Payload = Payload(form: FormData, price: Option<string>)

  /** The image to save: the uploaded photo's URL when a photo is pending and the
      upload returned one, else the form's image. */
  function ChosenImage(formImage: string, pending: bool, uploaded: string): (url: string)
    ensures !pending ==> url == formImage
    ensures pending && uploaded != "" ==> url == uploaded
    ensures pending && uploaded == "" ==> url == formImage
  {
    if pending then OrElse(uploaded, formImage) else formImage
  }

  function MakePayload(form: FormData, imageUrl: string): (p: Payload)
    ensures p.price.None? <==> form.purchase_price == ""
    ensures p.price.Some? ==> p.price.value == form.purchase_price
    ensures p.form == form.(image_url := imageUrl)
  {
    Payload(form.(image_url := imageUrl),
            if form.purchase_price != "" then Some(form.purchase_price) else None)
  }

  /** Save is refused when the brand is blank after trimming. */
  predicate BrandMissing(form: FormData) {
    Trim(form.brand) == []
  }

  /** What a click on Save did. */
  datatype SaveResult =
    | Refused                        // blank brand: an alert, no request
    | SaveFailed                     // a request failed: an alert
    | Saved(sent: Payload, penId: int)

  /** The rows of `pen_tags` of the pen being saved, as the tag routes see them:
      GET lists them, DELETE removes every row with the tag, POST adds the tag
      unless the pen already has it. */
  class TagStore {
    var stored: seq<string>

    constructor (stored: seq<string>)
      ensures this.stored == stored
    {
      this.stored := stored;
    }

    method Delete(tag: string)
      modifies this
      ensures stored == Filter(old(stored), t => t != tag)
      ensures forall t :: t in stored <==> t in old(stored) && t != tag
    {
      stored := Filter(stored, t => t != tag);
    }

    method Add(tag: string)
      modifies this
      ensures tag in old(stored) ==> stored == old(stored)
      ensures tag !in old(stored) ==> stored == old(stored) + [tag]
    {
      if tag !in stored {
        stored := stored + [tag];
      }
    }

    /** Deletes each of `existing` in turn. */
    method DeleteEach(existing: seq<string>)
      modifies this
      ensures forall t :: t in stored <==> t in old(stored) && t !in existing
    {
      var i := 0;
      while i < |existing|
        invariant 0 <= i <= |existing|
        invariant forall t :: t in stored <==> t in old(stored) && t !in existing[..i]
      {
        ghost var before := stored;
        Delete(existing[i]);
        forall t ensures t in stored <==> t in old(stored) && t !in existing[..i + 1] {
          assert t in existing[..i + 1] <==> t in existing[..i] || t == existing[i];
          assert t in stored <==> t in before && t != existing[i];
        }
        i := i + 1;
      }
      assert existing[..i] == existing;
    }

    /** The tag part of saving: when editing, every stored tag is deleted, then
        every tag of the form is added in order. */
    method Sync(editing: bool, tags: seq<string>)
      modifies this
      ensures editing ==> forall t :: t in stored <==> t in tags
      ensures !editing ==> forall t :: t in stored <==> t in old(stored) || t in tags
      ensures editing || NoDuplicates(old(stored)) ==> NoDuplicates(stored)
    {
      if editing {
        DeleteEach(stored);
        assert stored == [] || stored[0] in stored;
      }
      ghost var base := stored;
      var j := 0;
      while j < |tags|
        invariant 0 <= j <= |tags|
        invariant forall t :: t in stored <==> t in base || t in tags[..j]
        invariant NoDuplicates(base) ==> NoDuplicates(stored)
      {
        Add(tags[j]);
        assert tags[..j + 1] == tags[..j] + [tags[j]];
        j := j + 1;
      }
      assert tags[..j] == tags;
    }
  }

  datatype MessageKind = Info | Success

  /** The form component's state. */
  class Editor {
    var form: FormData
    var tags: seq<string>
    const editing: bool
    var pendingFile: bool
    var imagePreview: string
    var isIdentifying: bool
    var isSaving: bool
    var message: string
    var messageKind: MessageKind

    constructor (initialData: Option<Pen>, editing: bool, initialTags: Option<seq<string>>)
      ensures form == PenToForm(initialData) && this.editing == editing
      ensures tags == (if initialTags.Some? then initialTags.value else [])
      ensures !pendingFile && imagePreview == "" && message == "" && messageKind == Info
      ensures !isIdentifying && !isSaving
    {
      form := PenToForm(initialData);
      tags := if initialTags.Some? then initialTags.value else [];
      this.editing := editing;
      pendingFile := false;
      imagePreview := "";
      isIdentifying := false;
      isSaving := false;
      message := "";
      messageKind := Info;
    }

    /** Every field but the form is as it was. */
    twostate predicate OnlyFormChanged()
      reads this
    {
      && tags == old(tags) && pendingFile == old(pendingFile) && imagePreview == old(imagePreview)
      && isIdentifying == old(isIdentifying) && isSaving == old(isSaving)
      && message == old(message) && messageKind == old(messageKind)
    }

    /** A star of the rating row. */
    method StarClicked(star: int)
      requires 1 <= star <= 5
      modifies this
      ensures form == old(form).(rating := ClickStar(old(form.rating), star))
      ensures 0 <= form.rating <= 5
      ensures OnlyFormChanged()
    {
      form := form.(rating := ClickStar(form.rating, star));
    }

    /** The daily-carry switch. */
    method DailyCarryClicked()
      modifies this
      ensures form == old(form).(is_daily_carry := ToggleDailyCarry(old(form.is_daily_carry)))
      ensures OnlyFormChanged()
    {
      form := form.(is_daily_carry := ToggleDailyCarry(form.is_daily_carry));
    }

    /** A photo is chosen. */
    method FileChosen(preview: string)
      modifies this
      ensures pendingFile && imagePreview == preview && message == ""
      ensures form == old(form) && tags == old(tags)
      ensures messageKind == old(messageKind) && isIdentifying == old(isIdentifying) && isSaving == old(isSaving)
    {
      pendingFile := true;
      imagePreview := preview;
      message := "";
    }

    /** "Identify": without a pending photo nothing happens; a failed request only
        sets the fallback message; a result is merged into the form and the photo
        stops being pending. */
    method Identify(result: Option<Identification>)
      modifies this
      ensures !old(pendingFile) ==>
                && form == old(form) && !pendingFile && message == old(message)
                && messageKind == old(messageKind) && isIdentifying == old(isIdentifying)
      ensures old(pendingFile) && result.None? ==>
                form == old(form) && pendingFile && message == IdentifyFailedMessage && messageKind == Info
      ensures old(pendingFile) && result.Some? ==>
                && form == Merge(old(form), result.value) && !pendingFile
                && message == IdentifyMessage(result.value)
                && messageKind == (if result.value.identified then Success else Info)
      ensures tags == old(tags) && imagePreview == old(imagePreview) && isSaving == old(isSaving)
      ensures old(pendingFile) ==> !isIdentifying
    {
      if !pendingFile {
        return;
      }
      isIdentifying := true;
      message := "";
      match result {
        case None =>
          messageKind := Info;
          message := IdentifyFailedMessage;
        case Some(d) =>
          form := Merge(form, d);
          pendingFile := false;
          messageKind := if d.identified then Success else Info;
          message := IdentifyMessage(d);
      }
      isIdentifying := false;
    }

    /** "Save": `upload` is the result of uploading a pending photo, `response` the
        id of the pen returned by the create or update request (`None` when it
        fails), and `store` the pen's stored tags. */
    method Save(upload: Upload, response: Option<int>, store: TagStore) returns (result: SaveResult)
      modifies this, store
      ensures BrandMissing(old(form)) ==> result == Refused && store.stored == old(store.stored)
      ensures !BrandMissing(old(form)) && old(pendingFile) && upload.UploadFailed? ==>
                result == SaveFailed && store.stored == old(store.stored)
      ensures !BrandMissing(old(form)) && !(old(pendingFile) && upload.UploadFailed?) && response.None? ==>
                result == SaveFailed && store.stored == old(store.stored)
      ensures !BrandMissing(old(form)) && !(old(pendingFile) && upload.UploadFailed?) && response.Some? ==>
                && result == Saved(MakePayload(old(form), ChosenImage(old(form).image_url, old(pendingFile),
                                                 if upload.Uploaded? then upload.imageUrl else "")),
                                   response.value)
                && (editing ==> forall t :: t in store.stored <==> t in old(tags))
                && (!editing ==> forall t :: t in store.stored <==> t in old(store.stored) || t in old(tags))
      ensures form == old(form) && tags == old(tags) && (!BrandMissing(old(form)) ==> !isSaving)
      ensures BrandMissing(old(form)) ==> isSaving == old(isSaving)
      ensures pendingFile == old(pendingFile) && imagePreview == old(imagePreview)
      ensures message == old(message) && messageKind == old(messageKind)
      ensures isIdentifying == old(isIdentifying)
    {
      if BrandMissing(form) {
        return Refused;
      }
      isSaving := true;
      var imageUrl := form.image_url;
      if pendingFile {
        match upload {
          case UploadFailed =>
            isSaving := false;
            return SaveFailed;
          case Uploaded(url) =>
            imageUrl := OrElse(url, imageUrl);
        }
      }
      var payload := MakePayload(form, imageUrl);
      if response.None? {
        isSaving := false;
        return SaveFailed;
      }
      store.Sync(editing, tags);
      result := Saved(payload, response.value);
      isSaving := false;
    }
  }
}
