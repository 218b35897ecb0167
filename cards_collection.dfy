/** The card-collection hook (src/hooks/useCardsCollection.ts): which cards
    the user has opened, the journal of mirror questions, the milestone
    celebrations, and the three-facet filter over the catalog. */
module CardsCollection {
  import opened Wrappers
  import opened Seqs
  import opened Text
  import opened Storage

  datatype Card = Card(
    id: string, name: string, suit: string, rank: string, punchline: string,
    mirrorQuestion: string, image: string, color: string, keywords: seq<string>)

  /** `timestamp` is milliseconds since the epoch, as `Date.now()` gives. */
  datatype JournalEntry = JournalEntry(
    id: string, cardId: string, cardName: string, question: string, timestamp: nat)

  /** `openedCards` is a JavaScript `Set`, which keeps insertion order: the
      model keeps it as a sequence without duplicates. */
  datatype ProgressState = ProgressState(openedCards: seq<string>, journalEntries: seq<JournalEntry>)

  datatype FilterState = FilterState(
    searchQuery: string, selectedSuits: set<string>, selectedKeywords: set<string>)

  /** The JSON document under the progress key; either field may be missing. */
  datatype ProgressDoc = ProgressDoc(openedCards: Option<seq<string>>, journalEntries: Option<seq<JournalEntry>>)

  /** The integer parts of `progressStats`. */
  datatype Stats = Stats(openedCount: nat, total: nat, nextMilestone: Option<nat>, journalEntries: nat)

  const StorageKey := "queendeq-cards-progress"
  const Milestones: seq<nat> := [10, 25, 54]
  const EmptyProgress := ProgressState([], [])
  const NoFilters := FilterState("", {}, {})

  // ---------------------------------------------------------------------
  // Loading and saving progress

  /** The document `saveProgress` writes. */
  function Encode(p: ProgressState): ProgressDoc {
    ProgressDoc(Some(p.openedCards), Some(p.journalEntries))
  }

  /** The initial state: stored progress when it parses, with a missing field
      read as empty; the empty progress when nothing is stored or the text
      does not parse. */
  function LoadProgress(read: Read<ProgressDoc>): (p: ProgressState)
    ensures NoDuplicates(p.openedCards)
    ensures !read.Parsed? ==> p == EmptyProgress
    ensures read.Parsed? ==>
              (forall id :: id in p.openedCards <==> id in read.doc.openedCards.GetOr([]))
              && p.journalEntries == read.doc.journalEntries.GetOr([])
  {
    match read
    case Parsed(doc) =>
      ProgressState(Dedup(doc.openedCards.GetOr([])), doc.journalEntries.GetOr([]))
    case _ => EmptyProgress
  }

  /** What was saved is what is loaded back. */
  lemma SaveThenLoad(p: ProgressState)
    requires NoDuplicates(p.openedCards)
    ensures LoadProgress(Parsed(Encode(p))) == p
  {
    DedupOfDistinct(p.openedCards);
  }

  // ---------------------------------------------------------------------
  // Milestones

  /** `MILESTONES.find(m => m === count)`: the milestone reached exactly. */
  function MilestoneAt(count: nat): (r: Option<nat>)
    ensures r.Some? <==> count in Milestones
    ensures r.Some? ==> r.value == count
  {
    Find((m: nat) => m == count, Milestones)
  }

  /** `MILESTONES.find(m => m > count)`: the smallest milestone not yet reached. */
  function NextMilestone(count: nat): (r: Option<nat>)
    ensures r.None? <==> count >= 54
    ensures r.Some? ==> r.value in Milestones && r.value > count
    ensures r.Some? ==> forall m :: m in Milestones && m > count ==> r.value <= m
  {
    Find((m: nat) => m > count, Milestones)
  }

  /** The state `markCardOpened` saves: the id added at the end unless it is
      already there. */
  function MarkOpened(p: ProgressState, id: string): (r: ProgressState)
    ensures forall x :: x in r.openedCards <==> x in p.openedCards || x == id
    ensures id in p.openedCards ==> r == p
    ensures id !in p.openedCards ==> |r.openedCards| == |p.openedCards| + 1
    ensures NoDuplicates(p.openedCards) ==> NoDuplicates(r.openedCards)
    ensures r.journalEntries == p.journalEntries
  {
    if id in p.openedCards then p else p.(openedCards := p.openedCards + [id])
  }

  /** Opening a card twice is the same as opening it once. */
  lemma MarkOpenedIdempotent(p: ProgressState, id: string)
    ensures MarkOpened(MarkOpened(p, id), id) == MarkOpened(p, id)
  {
  }

  /** The milestone a call of `markCardOpened` fires on progress `p`. */
  function FiredBy(p: ProgressState, id: string): Option<nat> {
    if id in p.openedCards then None else MilestoneAt(|p.openedCards| + 1)
  }

  /** The progress after opening `ids` one at a time, every write succeeding. */
  function OpenAll(p: ProgressState, ids: seq<string>): (r: ProgressState)
    ensures |p.openedCards| <= |r.openedCards|
  {
    if ids == [] then p else MarkOpened(OpenAll(p, ids[..|ids| - 1]), ids[|ids| - 1])
  }

  /** Opening more cards never shrinks the opened set. */
  lemma {:induction false} OpenAllMonotone(p: ProgressState, ids: seq<string>, k: nat)
    requires k <= |ids|
    ensures |OpenAll(p, ids[..k]).openedCards| <= |OpenAll(p, ids).openedCards|
  {
    if k < |ids| {
      var front := ids[..|ids| - 1];
      assert ids[..k] == front[..k];
      OpenAllMonotone(p, front, k);
    } else {
      assert ids[..k] == ids;
    }
  }

  /** Each milestone fires at most once while cards are opened one at a time
      and every write succeeds. */
  lemma MilestoneFiresOnce(p: ProgressState, ids: seq<string>, i: nat, j: nat, m: nat)
    requires i < j < |ids|
    requires FiredBy(OpenAll(p, ids[..i]), ids[i]) == Some(m)
    ensures FiredBy(OpenAll(p, ids[..j]), ids[j]) != Some(m)
  {
    var before := OpenAll(p, ids[..i]);
    assert ids[..i + 1][..i] == ids[..i] && ids[..i + 1][i] == ids[i];
    var after := OpenAll(p, ids[..i + 1]);
    assert after == MarkOpened(before, ids[i]);
    assert |after.openedCards| == m;
    OpenAllMonotone(p, ids[..j], i + 1);
    assert ids[..j][..i + 1] == ids[..i + 1];
  }

  // ---------------------------------------------------------------------
  // Filtering

  /** The search facet: an empty query, or the lower-cased query occurs in the
      lower-cased name, punchline or one of the keywords. */
  ghost predicate SearchFacet(c: Card, f: FilterState) {
    var q := Lower(f.searchQuery);
    f.searchQuery == ""
    || Includes(Lower(c.name), q)
    || Includes(Lower(c.punchline), q)
    || exists i :: 0 <= i < |c.keywords| && Includes(Lower(c.keywords[i]), q)
  }

  /** The suit facet: no suit selected, or the card's suit is. */
  ghost predicate SuitFacet(c: Card, f: FilterState) {
    f.selectedSuits == {} || c.suit in f.selectedSuits
  }

  /** The keyword facet: no keyword selected, or one of the card's is. */
  ghost predicate KeywordFacet(c: Card, f: FilterState) {
    f.selectedKeywords == {} || exists k :: k in c.keywords && k in f.selectedKeywords
  }

  /** `card.keywords.some(k => k.toLowerCase().includes(query))`. */
  function SomeKeywordIncludes(keywords: seq<string>, query: string): (b: bool)
    ensures b <==> exists i :: 0 <= i < |keywords| && Includes(Lower(keywords[i]), query)
  {
    if keywords == [] then false
    else if Includes(Lower(keywords[0]), query) then true
    else
      var rest := SomeKeywordIncludes(keywords[1..], query);
      assert forall i :: 1 <= i < |keywords| ==> keywords[i] == keywords[1..][i - 1];
      rest
  }

  /** `card.keywords.some(k => selected.has(k))`. */
  function SomeKeywordSelected(keywords: seq<string>, selected: set<string>): (b: bool)
    ensures b <==> exists k :: k in keywords && k in selected
  {
    if keywords == [] then false
    else if keywords[0] in selected then true
    else
      assert forall k :: k in keywords <==> k == keywords[0] || k in keywords[1..] by {
        assert keywords == [keywords[0]] + keywords[1..];
      }
      SomeKeywordSelected(keywords[1..], selected)
  }

  /** The callback of `cards.filter` in `filteredCards`. */
  predicate KeepCard(f: FilterState, card: Card) {
    var query := Lower(f.searchQuery);
    && (f.searchQuery == ""
        || Includes(Lower(card.name), query)
        || Includes(Lower(card.punchline), query)
        || SomeKeywordIncludes(card.keywords, query))
    && (|f.selectedSuits| == 0 || card.suit in f.selectedSuits)
    && (|f.selectedKeywords| == 0 || SomeKeywordSelected(card.keywords, f.selectedKeywords))
  }

  /** `filteredCards`: a card is kept iff it passes all three facets. */
  function FilteredCards(cards: seq<Card>, f: FilterState): (r: seq<Card>)
    ensures forall c :: c in r <==> c in cards && SearchFacet(c, f) && SuitFacet(c, f) && KeywordFacet(c, f)
  {
    Filter((c: Card) => KeepCard(f, c), cards)
  }

  /** The filter keeps the catalog order and with no facet set returns the
      whole catalog. */
  lemma FilteredCardsOrder(cards: seq<Card>, f: FilterState)
    ensures IsSubsequence(FilteredCards(cards, f), cards)
    ensures f == NoFilters ==> FilteredCards(cards, f) == cards
  {
    FilterIsSubsequence((c: Card) => KeepCard(f, c), cards);
    if f == NoFilters {
      FilterKeepsAll((c: Card) => KeepCard(f, c), cards);
    }
  }

  /** `Set.delete` if present, `Set.add` otherwise. */
  function Toggle(s: set<string>, x: string): (r: set<string>)
    ensures x in r <==> x !in s
    ensures forall y :: y != x ==> (y in r <==> y in s)
  {
    if x in s then s - {x} else s + {x}
  }

  /** Toggling the same value twice restores the set. */
  lemma ToggleTwice(s: set<string>, x: string)
    ensures Toggle(Toggle(s, x), x) == s
  {
  }

  // ---------------------------------------------------------------------
  // The keyword index

  /** The union of the keywords of all cards. */
  function KeywordsOf(cards: seq<Card>): (ks: set<string>)
    ensures forall k :: k in ks <==> exists i :: 0 <= i < |cards| && k in cards[i].keywords
  {
    if cards == [] then {}
    else
      var front := cards[..|cards| - 1];
      assert forall i :: 0 <= i < |cards| - 1 ==> cards[i] == front[i];
      var last := cards[|cards| - 1].keywords;
      KeywordsOf(front) + set k | k in last
  }

  /** One more card adds its keywords to the union. */
  lemma KeywordsOfSnoc(cards: seq<Card>, i: nat)
    requires i < |cards|
    ensures KeywordsOf(cards[..i + 1]) == KeywordsOf(cards[..i]) + set k | k in cards[i].keywords
  {
    assert cards[..i + 1][..|cards[..i + 1]| - 1] == cards[..i];
  }

  /** The elements of one more position of a list. */
  lemma SetOfSnoc(prefix: seq<string>, x: string)
    ensures (set k | k in prefix + [x]) == (set k | k in prefix) + {x}
  {
  }

  /** `allKeywords`: every keyword of the catalog, once, in sort order. */
  method AllKeywords(cards: seq<Card>) returns (r: seq<string>)
    ensures StrictlySorted(r)
    ensures forall k :: k in r <==> k in KeywordsOf(cards)
  {
    var keywords: set<string> := {};
    for i := 0 to |cards|
      invariant keywords == KeywordsOf(cards[..i])
    {
      KeywordsOfSnoc(cards, i);
      var ks := cards[i].keywords;
      for j := 0 to |ks|
        invariant keywords == KeywordsOf(cards[..i]) + set k | k in ks[..j]
      {
        assert ks[..j + 1] == ks[..j] + [ks[j]];
        SetOfSnoc(ks[..j], ks[j]);
        keywords := keywords + {ks[j]};
      }
      assert ks[..|ks|] == ks;
    }
    assert cards[..|cards|] == cards;
    r := [];
    var rest := keywords;
    while rest != {}
      invariant StrictlySorted(r)
      invariant rest <= keywords
      invariant forall k :: k in r <==> k in keywords && k !in rest
      decreases |rest|
    {
      var k :| k in rest;
      r := InsertSorted(r, k);
      rest := rest - {k};
    }
  }

  // ---------------------------------------------------------------------
  // The hook's state

  class Collection {
    const cards: seq<Card>
    var progress: ProgressState
    var filters: FilterState
    var storage: map<string, Stored<ProgressDoc>>

    ghost predicate Valid()
      reads this
    {
      NoDuplicates(progress.openedCards)
    }

    /** Mounting the hook: progress is read from storage, filters start empty. */
    constructor (cards: seq<Card>, storage: map<string, Stored<ProgressDoc>>)
      ensures Valid()
      ensures this.cards == cards && this.storage == storage
      ensures progress == LoadProgress(Load(storage, StorageKey))
      ensures filters == NoFilters
    {
      this.cards := cards;
      this.storage := storage;
      progress := LoadProgress(Load(storage, StorageKey));
      filters := NoFilters;
    }

    /** `saveProgress`: the state changes only after the write succeeded; a
        write that throws is swallowed and changes nothing. */
    method SaveProgress(newProgress: ProgressState, writeOk: bool)
      requires Valid() && NoDuplicates(newProgress.openedCards)
      modifies this
      ensures Valid() && filters == old(filters)
      ensures writeOk ==> progress == newProgress
                          && storage == old(storage)[StorageKey := Json(Encode(newProgress))]
      ensures !writeOk ==> progress == old(progress) && storage == old(storage)
    {
      if writeOk {
        storage := storage[StorageKey := Json(Encode(newProgress))];
        progress := newProgress;
      }
    }

    /** `markCardOpened`: an already-opened card changes nothing and fires
        nothing; a new card is saved and the milestone for the new count fires,
        whether or not the write succeeded. */
    method MarkCardOpened(cardId: string, writeOk: bool) returns (milestone: Option<nat>)
      requires Valid()
      modifies this
      ensures Valid() && filters == old(filters)
      ensures cardId in old(progress.openedCards) ==>
                progress == old(progress) && storage == old(storage) && milestone == None
      ensures cardId !in old(progress.openedCards) ==>
                milestone == MilestoneAt(|old(progress.openedCards)| + 1)
                && progress == (if writeOk then MarkOpened(old(progress), cardId) else old(progress))
                && storage == (if writeOk then old(storage)[StorageKey := Json(Encode(progress))]
                               else old(storage))
      ensures milestone == FiredBy(old(progress), cardId)
    {
      milestone := None;
      if cardId !in progress.openedCards {
        var newProgress := MarkOpened(progress, cardId);
        var count := |newProgress.openedCards|;
        SaveProgress(newProgress, writeOk);
        milestone := MilestoneAt(count);
      }
    }

    /** `addToJournal`: an entry copying the card's id, name and mirror
        question is appended and returned; the opened cards are untouched. */
    method AddToJournal(card: Card, idClock: nat, stampClock: nat, writeOk: bool)
      returns (entry: JournalEntry)
      requires Valid()
      modifies this
      ensures Valid() && filters == old(filters)
      ensures entry == JournalEntry(NatToString(idClock), card.id, card.name, card.mirrorQuestion, stampClock)
      ensures writeOk ==>
                progress == ProgressState(old(progress.openedCards), old(progress.journalEntries) + [entry])
                && storage == old(storage)[StorageKey := Json(Encode(progress))]
      ensures !writeOk ==> progress == old(progress) && storage == old(storage)
    {
      entry := JournalEntry(NatToString(idClock), card.id, card.name, card.mirrorQuestion, stampClock);
      var newProgress := progress.(journalEntries := progress.journalEntries + [entry]);
      SaveProgress(newProgress, writeOk);
    }

    /** `updateSearch`, with the debounce delay left out. */
    method UpdateSearch(query: string)
      modifies this
      ensures filters == old(filters).(searchQuery := query)
      ensures progress == old(progress) && storage == old(storage)
    {
      filters := filters.(searchQuery := query);
    }

    method ToggleSuit(suit: string)
      modifies this
      ensures filters == old(filters).(selectedSuits := Toggle(old(filters.selectedSuits), suit))
      ensures progress == old(progress) && storage == old(storage)
    {
      filters := filters.(selectedSuits := Toggle(filters.selectedSuits, suit));
    }

    method ToggleKeyword(keyword: string)
      modifies this
      ensures filters == old(filters).(selectedKeywords := Toggle(old(filters.selectedKeywords), keyword))
      ensures progress == old(progress) && storage == old(storage)
    {
      filters := filters.(selectedKeywords := Toggle(filters.selectedKeywords, keyword));
    }

    method ClearFilters()
      modifies this
      ensures filters == NoFilters
      ensures progress == old(progress) && storage == old(storage)
    {
      filters := NoFilters;
    }

    /** `isCardOpened`: membership in the opened set. */
    function IsCardOpened(cardId: string): (b: bool)
      reads this
      ensures b <==> cardId in (set id | id in progress.openedCards)
    {
      cardId in progress.openedCards
    }

    /** The integer parts of `progressStats`: `opened` is the size of the
        opened set. */
    function ProgressStats(): (s: Stats)
      reads this
      requires Valid()
      ensures s.openedCount == |set id | id in progress.openedCards|
      ensures s.total == |cards| && s.journalEntries == |progress.journalEntries|
      ensures s.nextMilestone == NextMilestone(s.openedCount)
    {
      DistinctCardinality(progress.openedCards);
      var count := |progress.openedCards|;
      Stats(count, |cards|, NextMilestone(count), |progress.journalEntries|)
    }
  }
}
