/** The personal journal (projet/Journal.tsx): a list of entries, newest
    first, persisted under one storage key, with a draft being written. */
module Journal {
  import opened Wrappers
  import opened Seqs
  import opened Text
  import opened Storage

  /** `date` is the `fr-FR` rendering of the save time. The declared mood
      union leaves out 'melancholic', which the mood picker offers, so the
      model keeps the mood as a string. */
  datatype Entry = Entry(id: string, date: string, archetype: Option<string>, title: string, content: string, mood: string)

  /** The `Partial<JournalEntry>` being edited: every field may be missing. */
  datatype Draft = Draft(title: Option<string>, content: Option<string>, mood: Option<string>, archetype: Option<string>)

  /** How `saveEntry` ends: the silent return of the title and content
      guard, a saved entry, or the `setItem` exception that escapes the
      handler. */
  datatype SaveOutcome = Ignored | Saved(entry: Entry) | WriteThrew

  const StorageKey := "journal-entries"
  const EmptyDraft := Draft(Some(""), Some(""), Some("neutral"), None)

  /** Missing and empty strings are both falsy. */
  predicate Filled(s: Option<string>) {
    s.Some? && s.value != ""
  }

  /** The entry `saveEntry` builds from the draft, the clock and the date. */
  function NewEntry(d: Draft, now: nat, date: string): (e: Entry)
    requires Filled(d.title) && Filled(d.content)
    ensures e.title == d.title.value && e.content == d.content.value && e.archetype == d.archetype
    ensures e.mood == (if Filled(d.mood) then d.mood.value else "neutral")
    ensures e.mood != "" && e.id == NatToString(now) && e.date == date
  {
    Entry(NatToString(now), date, d.archetype, d.title.value, d.content.value,
          if Filled(d.mood) then d.mood.value else "neutral")
  }

  /** `entries.filter(entry => entry.id !== id)`. */
  function DeleteById(entries: seq<Entry>, id: string): (r: seq<Entry>)
    ensures forall e :: e in r <==> e in entries && e.id != id
  {
    Filter((e: Entry) => e.id != id, entries)
  }

  /** Deleting keeps the order of the remaining entries, and an id no entry
      carries leaves the list as it was. */
  lemma DeleteKeepsOrder(entries: seq<Entry>, id: string)
    ensures IsSubsequence(DeleteById(entries, id), entries)
    ensures (forall e :: e in entries ==> e.id != id) ==> DeleteById(entries, id) == entries
  {
    FilterIsSubsequence((e: Entry) => e.id != id, entries);
    if forall e :: e in entries ==> e.id != id {
      FilterKeepsAll((e: Entry) => e.id != id, entries);
    }
  }

  /** Saving an entry with a fresh id and then deleting that id restores the
      list. */
  lemma DeleteUndoesSave(entries: seq<Entry>, e: Entry)
    requires forall x :: x in entries ==> x.id != e.id
    ensures DeleteById([e] + entries, e.id) == entries
  {
    FilterConcat((x: Entry) => x.id != e.id, [e], entries);
    DeleteKeepsOrder(entries, e.id);
  }

  const IconPositive := "\U{2728}"
  const IconNegative := "\U{1F499}"
  const IconReflective := "\U{1F914}"
  const IconDefault := "\U{1F4DD}"

  /** `getMoodIcon`: total; only 'positive', 'negative' and 'reflective'
      have their own icon. */
  function MoodIcon(mood: string): (icon: string)
    ensures icon == IconDefault <==> mood !in {"positive", "negative", "reflective"}
  {
    match mood
    case "positive" => IconPositive
    case "negative" => IconNegative
    case "reflective" => IconReflective
    case _ => IconDefault
  }

  const ColorDefault := "from-velvet-black to-ink-black"

  /** `getMoodColor`: total; 'negative' falls to the default colour while
      'melancholic' has its own. */
  function MoodColor(mood: string): (color: string)
    ensures color == ColorDefault <==> mood !in {"positive", "neutral", "reflective", "melancholic"}
  {
    match mood
    case "positive" => "from-rose-champagne to-antique-rose"
    case "neutral" => "from-smoky-gold to-patina-gold"
    case "reflective" => "from-royal-purple to-vintage-aubergine"
    case "melancholic" => "from-inked-indigo to-amber-smoke"
    case _ => ColorDefault
  }

  class JournalPage {
    var entries: seq<Entry>
    var draft: Draft
    var isWriting: bool
    var showToast: bool
    var storage: map<string, Stored<seq<Entry>>>

    /** Mounting: stored entries when they parse; otherwise the list stays
        empty. */
    constructor (storage: map<string, Stored<seq<Entry>>>)
      ensures this.storage == storage && draft == EmptyDraft && !isWriting && !showToast
      ensures entries == match Load(storage, StorageKey) case Parsed(es) => es case _ => []
    {
      this.storage := storage;
      draft := EmptyDraft;
      isWriting := false;
      showToast := false;
      var read := Load(storage, StorageKey);
      entries := if read.Parsed? then read.doc else [];
    }

    /** `saveEntries`: the whole list is written first; a write that throws
        leaves everything as it was (and propagates to the caller, `ok` is
        false); otherwise the list is replaced and the toast shown. */
    method SaveEntries(newEntries: seq<Entry>, writeOk: bool) returns (ok: bool)
      modifies this
      ensures ok == writeOk
      ensures draft == old(draft) && isWriting == old(isWriting)
      ensures writeOk ==> entries == newEntries && showToast
                          && storage == old(storage)[StorageKey := Json(newEntries)]
      ensures !writeOk ==> entries == old(entries) && showToast == old(showToast) && storage == old(storage)
    {
      if !writeOk {
        return false;
      }
      storage := storage[StorageKey := Json(newEntries)];
      entries := newEntries;
      showToast := true;
      ok := true;
    }

    /** `saveEntry`: nothing without a title and a content; otherwise the
        new entry is put in front of the list and saved, then the draft is
        reset and the editor closed. */
    method SaveEntry(now: nat, date: string, writeOk: bool) returns (outcome: SaveOutcome)
      modifies this
      ensures !Filled(old(draft.title)) || !Filled(old(draft.content)) ==> outcome == Ignored
      ensures Filled(old(draft.title)) && Filled(old(draft.content)) && !writeOk ==> outcome == WriteThrew
      ensures !outcome.Saved? ==>
                entries == old(entries) && draft == old(draft)
                && isWriting == old(isWriting) && storage == old(storage) && showToast == old(showToast)
      ensures Filled(old(draft.title)) && Filled(old(draft.content)) && writeOk ==>
                outcome == Saved(NewEntry(old(draft), now, date))
                && entries == [outcome.entry] + old(entries) && |entries| == |old(entries)| + 1
                && storage == old(storage)[StorageKey := Json(entries)]
                && draft == EmptyDraft && !isWriting && showToast
    {
      if !Filled(draft.title) || !Filled(draft.content) {
        return Ignored;
      }
      var entry := NewEntry(draft, now, date);
      var ok := SaveEntries([entry] + entries, writeOk);
      if !ok {
        return WriteThrew;
      }
      draft := EmptyDraft;
      isWriting := false;
      outcome := Saved(entry);
    }

    /** `deleteEntry`: every entry with the id is dropped and the rest saved
        in order. */
    method DeleteEntry(id: string, writeOk: bool)
      modifies this
      ensures draft == old(draft) && isWriting == old(isWriting)
      ensures writeOk ==> entries == DeleteById(old(entries), id)
                          && storage == old(storage)[StorageKey := Json(entries)] && showToast
      ensures !writeOk ==> entries == old(entries) && storage == old(storage) && showToast == old(showToast)
    {
      var ok := SaveEntries(DeleteById(entries, id), writeOk);
    }

    /** The "new entry" button opens the editor. */
    method StartWriting()
      modifies this
      ensures isWriting
      ensures entries == old(entries) && draft == old(draft) && storage == old(storage) && showToast == old(showToast)
    {
      isWriting := true;
    }

    /** The editor's inputs replace draft fields. */
    method EditDraft(newDraft: Draft)
      modifies this
      ensures draft == newDraft
      ensures entries == old(entries) && isWriting == old(isWriting) && storage == old(storage) && showToast == old(showToast)
    {
      draft := newDraft;
    }

    /** Cancel: the draft is reset and the editor closed, nothing saved. */
    method CancelWriting()
      modifies this
      ensures draft == EmptyDraft && !isWriting
      ensures entries == old(entries) && storage == old(storage) && showToast == old(showToast)
    {
      draft := EmptyDraft;
      isWriting := false;
    }
  }
}
