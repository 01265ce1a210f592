/** The ink history panel of a pen: the newest entry is the ink currently in the
    pen, the rest are past inks; entries are added at the front and deleted by id. */
module InkHistory {
  import opened Common

  /** `history[0] ?? null`. */
  function CurrentOf(history: seq<InkEntry>): (r: Option<InkEntry>)
    ensures r.None? <==> history == []
    ensures r.Some? ==> r.value == history[0]
  {
    if history == [] then None else Some(history[0])
  }

  /** `history.slice(1)`. */
  function PastOf(history: seq<InkEntry>): (r: seq<InkEntry>)
    ensures |r| == if history == [] then 0 else |history| - 1
  {
    if history == [] then [] else history[1..]
  }

  /** The current ink followed by the past inks is the whole history. */
  lemma CurrentThenPast(history: seq<InkEntry>)
    ensures (if CurrentOf(history).Some? then [CurrentOf(history).value] else []) + PastOf(history) == history
  {
  }

  /** A newly added entry is the current ink, whatever its date, and the former
      history becomes the past. */
  lemma AddedEntryIsCurrent(e: InkEntry, history: seq<InkEntry>)
    ensures CurrentOf([e] + history) == Some(e)
    ensures PastOf([e] + history) == history
  {
  }

  /** `prev.filter(e => e.id !== id)`. */
  function WithoutEntry(history: seq<InkEntry>, id: int): (r: seq<InkEntry>)
    ensures forall e :: e in r <==> e in history && e.id != id
    ensures IsSubsequence(r, history)
    ensures forall e :: multiset(r)[e] == if e.id != id then multiset(history)[e] else 0
  {
    Filter(history, (e: InkEntry) => e.id != id)
  }

  /** The text of a date: none for the empty date, else the date in the locale's
      format (the formatting itself is not modelled). */
  datatype DateText = NoDate | Formatted(date: string)

  function FormatDate(date: string): (r: DateText)
    ensures r == NoDate <==> date == ""
  {
    if date == "" then NoDate else Formatted(date)
  }

  /** The body of the add request. */
  datatype InkRequest = InkRequest(ink_name: string, inked_date: string, notes: string)

  class Panel {
    var history: seq<InkEntry>
    var showForm: bool
    var inkName: string
    var inkedDate: string
    var notes: string
    var isSaving: bool
    var deletingId: Option<int>

    constructor (initialHistory: seq<InkEntry>, today: string)
      ensures history == initialHistory && !showForm && inkName == "" && notes == ""
      ensures inkedDate == today && !isSaving && deletingId == None
    {
      history := initialHistory;
      showForm := false;
      inkName := "";
      inkedDate := today;
      notes := "";
      isSaving := false;
      deletingId := None;
    }

    function Current(): Option<InkEntry>
      reads this
    {
      CurrentOf(history)
    }

    function Past(): seq<InkEntry>
      reads this
    {
      PastOf(history)
    }

    /** "Add": refused without a request when the ink name is blank after
        trimming; otherwise the trimmed name is sent, and a returned entry is put in
        front and the form is cleared and closed. */
    method Add(outcome: AddOutcome<InkEntry>, today: string) returns (sent: Option<InkRequest>)
      modifies this
      ensures Trim(old(inkName)) == "" ==>
                sent == None && history == old(history) && inkName == old(inkName)
                && notes == old(notes) && inkedDate == old(inkedDate) && showForm == old(showForm)
                && isSaving == old(isSaving)
      ensures Trim(old(inkName)) != "" ==>
                sent == Some(InkRequest(Trim(old(inkName)), old(inkedDate), old(notes))) && !isSaving
      ensures Trim(old(inkName)) != "" && outcome.Added? ==>
                && history == [outcome.record] + old(history)
                && Current() == Some(outcome.record)
                && inkName == "" && notes == "" && inkedDate == today && !showForm
      ensures Trim(old(inkName)) != "" && outcome.AddFailed? ==>
                && history == old(history) && inkName == old(inkName) && notes == old(notes)
                && inkedDate == old(inkedDate) && showForm == old(showForm)
      ensures deletingId == old(deletingId)
    {
      var name := Trim(inkName);
      if name == "" {
        return None;
      }
      isSaving := true;
      sent := Some(InkRequest(name, inkedDate, notes));
      if outcome.Added? {
        history := [outcome.record] + history;
        inkName := "";
        notes := "";
        inkedDate := today;
        showForm := false;
      }
      isSaving := false;
    }

    /** A delete button: the entries with that id go only when the server answers
        ok. */
    method Delete(id: int, outcome: DeleteOutcome)
      modifies this
      ensures outcome == Responded(true) ==> history == WithoutEntry(old(history), id)
      ensures outcome != Responded(true) ==> history == old(history)
      ensures deletingId == None
      ensures inkName == old(inkName) && notes == old(notes) && inkedDate == old(inkedDate)
      ensures showForm == old(showForm) && isSaving == old(isSaving)
    {
      deletingId := Some(id);
      if outcome == Responded(true) {
        history := WithoutEntry(history, id);
      }
      deletingId := None;
    }
  }
}
