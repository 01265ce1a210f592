/** The card of one pen: link, photo or nib icon, nib-size badge, current-ink
    dot, brand and model with fallbacks, and the five-star rating row. */
module PenCard {
  import opened Common

  const Star: char := '★'
  const MaxStars: int := 5

  /** `"★".repeat(n)`: `n` stars, and a thrown `RangeError` (`None`) for a negative
      count. */
  function Repeat(n: int): (r: Option<string>)
    ensures r.None? <==> n < 0
    ensures r.Some? ==> |r.value| == n && forall i :: 0 <= i < |r.value| ==> r.value[i] == Star
  {
    if n < 0 then None else Some(seq(n, _ => Star))
  }

  /** The rating row: not shown, the filled and the empty stars, or a render that
      throws. */
  datatype StarRow = NoStars | Stars(filled: string, empty: string) | Throws

  /** `pen.rating > 0 && (★ × rating, then ★ × (5 - rating))`. A rating above 5
      makes the second count negative, and the render throws. */
  function StarRowOf(rating: int): (r: StarRow)
    ensures r == NoStars <==> rating <= 0
    ensures r == Throws <==> rating > MaxStars
    ensures r.Stars? ==> |r.filled| == rating && |r.empty| == MaxStars - rating
                         && |r.filled| + |r.empty| == MaxStars
  {
    if rating <= 0 then NoStars
    else
      match (Repeat(rating), Repeat(MaxStars - rating))
      case (Some(filled), Some(empty)) => Stars(filled, empty)
      case _ => Throws
  }

  /** Every rating the form can set (0 to 5) renders. */
  lemma FormRatingsRender(rating: int)
    requires 0 <= rating <= MaxStars
    ensures StarRowOf(rating) != Throws
    ensures rating > 0 ==> StarRowOf(rating).Stars?
  {
  }

  datatype Photo = Photo(src: string, alt: string)

  /** What the card shows. */
  datatype PenCardView = PenCardView(href: string, photo: Option<Photo>, nibBadge: Option<string>,
                                     inkDot: Option<string>, brandText: string, modelText: string,
                                     stars: StarRow)

  const UnknownBrand := "Unknown Brand"
  const NoModel := "—"

  /** `pen.brand || "Unknown Brand"`. */
  function BrandText(brand: string): (text: string)
    ensures text != ""
    ensures brand != "" ==> text == brand
  {
    if brand == "" then UnknownBrand else brand
  }

  /** `pen.model || "—"`. */
  function ModelText(model: string): (text: string)
    ensures text != ""
    ensures model != "" ==> text == model
  {
    if model == "" then NoModel else model
  }

  function Card(pen: Pen): (c: PenCardView)
    ensures c.href == "/pens/" + IntToString(pen.id)
    ensures c.photo.Some? <==> pen.image_url != ""
    ensures c.photo.Some? ==> c.photo.value == Photo(pen.image_url, pen.brand + " " + pen.model)
    ensures c.nibBadge.Some? <==> pen.nib_size != ""
    ensures c.nibBadge.Some? ==> c.nibBadge.value == pen.nib_size
    ensures c.inkDot.Some? <==> pen.current_ink != ""
    ensures c.inkDot.Some? ==> c.inkDot.value == "Inked: " + pen.current_ink
    ensures c.brandText == UnknownBrand <==> pen.brand == "" || pen.brand == UnknownBrand
    ensures c.modelText == NoModel <==> pen.model == "" || pen.model == NoModel
    ensures c.stars.Stars? <==> 0 < pen.rating <= MaxStars
    ensures c.stars == StarRowOf(pen.rating)
    ensures c.brandText == BrandText(pen.brand) && c.modelText == ModelText(pen.model)
  {
    PenCardView(
      "/pens/" + IntToString(pen.id),
      if pen.image_url != "" then Some(Photo(pen.image_url, pen.brand + " " + pen.model)) else None,
      if pen.nib_size != "" then Some(pen.nib_size) else None,
      if pen.current_ink != "" then Some("Inked: " + pen.current_ink) else None,
      BrandText(pen.brand), ModelText(pen.model),
      StarRowOf(pen.rating))
  }
}
