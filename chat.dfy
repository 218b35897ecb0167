/** The chat teaser (projet/Chat.tsx): four handwritten notes, one in front,
    cycled forwards and backwards by buttons, forwards by a four-second
    interval, and chosen directly by a row of dots. */
module Chat {
  import opened Cyclic

  /** A note; `textKey` is the translation key of its text. */
  datatype Note = Note(id: nat, textKey: string, color: string, borderColor: string, rotation: string)

  const Notes: seq<Note> := [
    Note(1, "chat.welcomeMessage", "from-parchment-cream to-warm-pearl", "border-patina-gold", "rotate-1"),
    Note(2, "chat.complicitMessage", "from-powder-rose to-antique-rose", "border-rose-champagne", "-rotate-1"),
    Note(3, "chat.teaTimeMessage", "from-moon-milk to-powder-rose", "border-smoky-gold", "rotate-2"),
    Note(4, "chat.betaNote", "from-vintage-aubergine/10 to-royal-purple/10", "border-imperial-gold", "-rotate-2")
  ]

  /** `notes.length`. */
  const NoteCount: nat := 4

  /** `nextNote` and the interval both take the step `(prev + 1) %
      notes.length`, and `prevNote` the step `(prev - 1 + notes.length) %
      notes.length`: `Succ` and `Pred` over `NoteCount` positions. Four
      forward steps bring back the note that was in front. */
  lemma FourNextsIdentity(i: nat)
    requires i < NoteCount
    ensures Advance(i, 4, NoteCount) == i
    ensures Pred(Succ(i, NoteCount), NoteCount) == i && Succ(Pred(i, NoteCount), NoteCount) == i
  {
    FullCycle(i, i, NoteCount);
    SuccPredInverse(i, NoteCount);
  }

  class ChatPanel {
    var currentNoteIndex: nat
    var showNotes: bool

    ghost predicate Valid()
      reads this
    {
      currentNoteIndex < NoteCount
    }

    /** Mounting shows the first note; the notes appear once the mount
        effect has run (`ShowNotes`). */
    constructor ()
      ensures Valid() && currentNoteIndex == 0 && !showNotes
    {
      currentNoteIndex := 0;
      showNotes := false;
    }

    /** `notes[currentNoteIndex]`, the note in front. */
    function CurrentNote(): (n: Note)
      requires Valid()
      reads this
      ensures n in Notes && n.id == currentNoteIndex + 1
    {
      Notes[currentNoteIndex]
    }

    /** The mount effect reveals the notes (and starts the interval, whose
        ticks are `Tick`). */
    method ShowNotes()
      modifies this
      ensures showNotes && currentNoteIndex == old(currentNoteIndex)
    {
      showNotes := true;
    }

    /** `nextNote`. */
    method NextNote()
      requires Valid()
      modifies this
      ensures Valid() && currentNoteIndex == Succ(old(currentNoteIndex), NoteCount) && showNotes == old(showNotes)
    {
      currentNoteIndex := (currentNoteIndex + 1) % NoteCount;
    }

    /** `prevNote`. */
    method PrevNote()
      requires Valid()
      modifies this
      ensures Valid() && currentNoteIndex == Pred(old(currentNoteIndex), NoteCount) && showNotes == old(showNotes)
    {
      currentNoteIndex := (currentNoteIndex - 1 + NoteCount) % NoteCount;
    }

    /** One firing of the four-second interval: the same step as `nextNote`. */
    method Tick()
      requires Valid()
      modifies this
      ensures Valid() && currentNoteIndex == Succ(old(currentNoteIndex), NoteCount) && showNotes == old(showNotes)
    {
      currentNoteIndex := (currentNoteIndex + 1) % NoteCount;
    }

    /** A click on dot `k` (one dot per note) brings note `k` to the front. */
    method SelectDot(k: nat)
      requires k < |Notes|
      modifies this
      ensures Valid() && currentNoteIndex == k && showNotes == old(showNotes)
    {
      currentNoteIndex := k;
    }

    /** The close button hides the notes before navigating away. */
    method Close()
      modifies this
      ensures !showNotes && currentNoteIndex == old(currentNoteIndex)
    {
      showNotes := false;
    }
  }
}
