/** The card of one ink bottle: link, swatch or placeholder, type badge, the
    remaining-ink bar coloured by band, and the colour description. */
module InkBottleCard {
  import opened Common

  const Emerald := "bg-emerald-400"
  const Amber := "bg-amber-400"
  const Red := "bg-red-400"

  /** `remainingColor`: above 50 emerald, above 25 amber, otherwise red. */
  function RemainingColor(pct: int): (colour: string)
    ensures colour == Emerald <==> pct > 50
    ensures colour == Amber <==> 25 < pct <= 50
    ensures colour == Red <==> pct <= 25
  {
    if pct > 50 then Emerald
    else if pct > 25 then Amber
    else Red
  }

  /** The bands from fullest down: emerald 2, amber 1, red 0. */
  function Rank(colour: string): nat {
    if colour == Emerald then 2 else if colour == Amber then 1 else 0
  }

  /** More ink never gets a lower band. */
  lemma BandsAreMonotone(a: int, b: int)
    requires a <= b
    ensures Rank(RemainingColor(a)) <= Rank(RemainingColor(b))
  {
  }

  datatype Swatch = SwatchImage(src: string, alt: string) | Placeholder

  /** What the card shows. `barWidth` is the bar's CSS width in percent. */
  datatype BottleCard = BottleCard(href: string, swatch: Swatch, typeBadge: Option<string>,
                                   name: string, brand: string, pctText: string,
                                   barColour: string, barWidth: int, description: Option<string>)

  function Card(ink: InkBottle): (c: BottleCard)
    ensures c.href == "/inks/" + IntToString(ink.id)
    ensures c.swatch.SwatchImage? <==> ink.swatch_url != ""
    ensures c.swatch.SwatchImage? ==> c.swatch.src == ink.swatch_url && c.swatch.alt == ink.name
    ensures c.typeBadge.Some? <==> ink.kind != ""
    ensures c.typeBadge.Some? ==> c.typeBadge.value == ink.kind
    ensures c.barWidth == ink.remaining_pct && c.pctText == IntToString(ink.remaining_pct) + "%"
    ensures c.barColour == RemainingColor(ink.remaining_pct)
    ensures c.barColour == Red <==> ink.remaining_pct <= 25
    ensures c.name == ink.name && c.brand == ink.brand
    ensures c.description.Some? <==> ink.color_description != ""
    ensures c.description.Some? ==> c.description.value == ink.color_description
  {
    BottleCard(
      "/inks/" + IntToString(ink.id),
      if ink.swatch_url != "" then SwatchImage(ink.swatch_url, ink.name) else Placeholder,
      if ink.kind != "" then Some(ink.kind) else None,
      ink.name, ink.brand, IntToString(ink.remaining_pct) + "%",
      RemainingColor(ink.remaining_pct), ink.remaining_pct,
      if ink.color_description != "" then Some(ink.color_description) else None)
  }
}
