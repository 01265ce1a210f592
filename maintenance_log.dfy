/** The maintenance log of a pen: a list of entries, newest first, with a form to
    add one and a confirmed delete. */
module MaintenanceLog {
  import opened Common

  /** The add form (`type` is written `kind`); it is also the body of the add
      request. */
  datatype EntryForm = EntryForm(kind: string, notes: string, date: string)

  /** The form after a reset: empty type and notes, today's date. */
  function FreshForm(today: string): (f: EntryForm)
    ensures f.kind == "" && f.notes == "" && f.date == today
  {
    EntryForm("", "", today)
  }

  /** `prev.filter(e => e.id !== id)`. */
  function WithoutEntry(entries: seq<MaintenanceEntry>, id: int): (r: seq<MaintenanceEntry>)
    ensures forall e :: e in r <==> e in entries && e.id != id
    ensures IsSubsequence(r, entries)
    ensures forall e :: multiset(r)[e] == if e.id != id then multiset(entries)[e] else 0
  {
    Filter(entries, (e: MaintenanceEntry) => e.id != id)
  }

  class Panel {
    var entries: seq<MaintenanceEntry>
    var isAdding: bool
    var form: EntryForm
    var isSaving: bool

    constructor (initialEntries: seq<MaintenanceEntry>, today: string)
      ensures entries == initialEntries && !isAdding && form == FreshForm(today) && !isSaving
    {
      entries := initialEntries;
      isAdding := false;
      form := FreshForm(today);
      isSaving := false;
    }

    /** "Add": refused with an alert when the date is empty; otherwise the form is
        sent, and a returned entry is put in front, the form reset and closed. */
    method Add(outcome: AddOutcome<MaintenanceEntry>, today: string) returns (sent: Option<EntryForm>)
      modifies this
      ensures old(form.date) == "" ==>
                sent == None && entries == old(entries) && form == old(form) && isAdding == old(isAdding)
                && isSaving == old(isSaving)
      ensures old(form.date) != "" ==> sent == Some(old(form)) && !isSaving
      ensures old(form.date) != "" && outcome.Added? ==>
                entries == [outcome.record] + old(entries) && form == FreshForm(today) && !isAdding
      ensures old(form.date) != "" && outcome.AddFailed? ==>
                entries == old(entries) && form == old(form) && isAdding == old(isAdding)
    {
      if form.date == "" {
        return None;
      }
      isSaving := true;
      sent := Some(form);
      match outcome {
        case AddFailed =>
        case Added(entry) =>
          entries := [entry] + entries;
          form := FreshForm(today);
          isAdding := false;
      }
      isSaving := false;
    }

    /** A delete button: nothing happens unless confirmed; a confirmed delete
        removes the entry whatever the server answers, but not when the request
        itself fails (the awaited promise rejects before the list is filtered). */
    method Delete(id: int, confirmed: bool, outcome: DeleteOutcome)
      modifies this
      ensures confirmed && outcome.Responded? ==> entries == WithoutEntry(old(entries), id)
      ensures !confirmed || outcome.NetworkFailure? ==> entries == old(entries)
      ensures form == old(form) && isAdding == old(isAdding) && isSaving == old(isSaving)
    {
      if !confirmed {
        return;
      }
      if outcome.NetworkFailure? {
        return;
      }
      entries := WithoutEntry(entries, id);
    }
  }
}
