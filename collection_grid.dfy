/** The collection page: the pens with their tags, a row of tag buttons built from
    every tag in use, an "EDC only" switch, and the grid of the pens that pass both
    filters. */
module CollectionGrid {
  import opened Common
  import opened StringOrder

  /** A pen as the collection page receives it: the row and its tags. */
  datatype PenWithTags = PenWithTags(pen: Pen, tags: seq<string>)

  /** `pen.is_daily_carry` is truthy: present and not 0. */
  predicate IsDailyCarry(p: Pen) {
    p.is_daily_carry.Some? && p.is_daily_carry.value != 0
  }

  /** `activeTag` is truthy: set and not the empty string. */
  predicate TagFilterOn(activeTag: Option<string>) {
    activeTag.Some? && activeTag.value != []
  }

  /** `pens.flatMap(p => p.tags)`. */
  function AllTagsInUse(pens: seq<PenWithTags>): (r: seq<string>)
    ensures forall t :: t in r <==> exists i :: 0 <= i < |pens| && t in pens[i].tags
  {
    if pens == [] then []
    else
      var rest := AllTagsInUse(pens[1..]);
      forall t | exists i :: 1 <= i < |pens| && t in pens[i].tags
        ensures t in rest
      {
        var i :| 1 <= i < |pens| && t in pens[i].tags;
        assert pens[1..][i - 1] == pens[i];
      }
      pens[0].tags + rest
  }

  /** `Array.from(new Set(...)).sort()`: every tag in use, once, in ascending order. */
  function AllTags(pens: seq<PenWithTags>): (r: seq<string>)
    ensures StrictlyAscending(r)
    ensures NoDuplicates(r)
    ensures forall t :: t in r <==> exists i :: 0 <= i < |pens| && t in pens[i].tags
  {
    var r := SortedDistinct(AllTagsInUse(pens));
    StrictlyAscendingHasNoDuplicates(r);
    r
  }

  /** The test of `filtered` for one pen. */
  predicate Shown(p: PenWithTags, activeTag: Option<string>, dailyCarryOnly: bool) {
    && (!dailyCarryOnly || IsDailyCarry(p.pen))
    && (!TagFilterOn(activeTag) || activeTag.value in p.tags)
  }

  /** The pens in the grid, in their original order. */
  function Filtered(pens: seq<PenWithTags>, activeTag: Option<string>, dailyCarryOnly: bool): (r: seq<PenWithTags>)
    ensures IsSubsequence(r, pens)
    ensures forall p :: p in r <==> p in pens && Shown(p, activeTag, dailyCarryOnly)
    ensures forall p :: multiset(r)[p] == if Shown(p, activeTag, dailyCarryOnly) then multiset(pens)[p] else 0
  {
    Filter(pens, p => Shown(p, activeTag, dailyCarryOnly))
  }

  /** With neither filter on, the grid shows every pen in order. */
  lemma NoFilterShowsAll(pens: seq<PenWithTags>, activeTag: Option<string>)
    requires !TagFilterOn(activeTag)
    ensures Filtered(pens, activeTag, false) == pens
  {
    FilterKeepsAll(pens, p => Shown(p, activeTag, false));
  }

  /** With the EDC switch off, every tag button selects at least one pen. */
  lemma EveryTagSelectsAPen(pens: seq<PenWithTags>, t: string)
    requires t in AllTags(pens)
    ensures Filtered(pens, Some(t), false) != []
  {
    var i :| 0 <= i < |pens| && t in pens[i].tags;
    assert pens[i] in pens;
    assert pens[i] in Filtered(pens, Some(t), false);
  }

  /** The page state: the active tag and the EDC switch, over a fixed list of pens. */
  class Grid {
    const pens: seq<PenWithTags>
    var activeTag: Option<string>
    var dailyCarryOnly: bool

    constructor (pens: seq<PenWithTags>)
      ensures this.pens == pens && activeTag == None && !dailyCarryOnly
    {
      this.pens := pens;
      activeTag := None;
      dailyCarryOnly := false;
    }

    /** The pens in the grid. */
    function Visible(): seq<PenWithTags>
      reads this
    {
      Filtered(pens, activeTag, dailyCarryOnly)
    }

    /** The Clear button is on display when either filter is on. */
    predicate ClearShown()
      reads this
    {
      TagFilterOn(activeTag) || dailyCarryOnly
    }

    /** A tag button: clicking the active tag turns the tag filter off, clicking
        any other tag makes it the active one. */
    method TagClick(tag: string)
      modifies this
      ensures old(activeTag) == Some(tag) ==> activeTag == None
      ensures old(activeTag) != Some(tag) ==> activeTag == Some(tag)
      ensures dailyCarryOnly == old(dailyCarryOnly)
    {
      if activeTag == Some(tag) {
        activeTag := None;
      } else {
        activeTag := Some(tag);
      }
    }

    /** The "EDC only" button. */
    method ToggleDailyCarry()
      modifies this
      ensures dailyCarryOnly == !old(dailyCarryOnly) && activeTag == old(activeTag)
    {
      dailyCarryOnly := !dailyCarryOnly;
    }

    /** The Clear button turns both filters off, so every pen is shown again. */
    method Clear()
      modifies this
      ensures activeTag == None && !dailyCarryOnly
      ensures Visible() == pens
    {
      activeTag := None;
      dailyCarryOnly := false;
      NoFilterShowsAll(pens, None);
    }
  }
}
