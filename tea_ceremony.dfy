/** The tea-ceremony teaser (src/components/Pages/TeaCeremonyTeaser.tsx): a
    card that, flipped once per visit, draws a quote not shown before, and a
    notify-me switch. */
module TeaCeremony {
  import opened Wrappers
  import opened Seqs
  import opened Storage

  datatype Quote = Quote(quote: string, author: string)

  /** What a click on the card did. */
  datatype ClickOutcome = AlreadyFlipped | ParseError | Drawn(fortune: Quote)

  const ShownKey := "shownTeaQuotes"
  const NotifyKey := "teaNotify"

  /** Some quote in `shown` has this text. */
  predicate TextShown(shown: seq<Quote>, text: string) {
    exists i :: 0 <= i < |shown| && shown[i].quote == text
  }

  /** The catalog minus the quotes whose text was shown, in catalog order; the
      whole catalog when nothing was shown. */
  function Available(catalog: seq<Quote>, shown: seq<Quote>): (r: seq<Quote>)
    ensures forall q :: q in r <==> q in catalog && !TextShown(shown, q.quote)
  {
    if |shown| > 0 then Filter((q: Quote) => !TextShown(shown, q.quote), catalog) else catalog
  }

  /** The quotes drawn from and the shown list after the reset that happens
      when nothing is left. */
  function Pool(catalog: seq<Quote>, shown: seq<Quote>): (r: (seq<Quote>, seq<Quote>))
    ensures Available(catalog, shown) == [] ==> r == (catalog, [])
    ensures Available(catalog, shown) != [] ==> r == (Available(catalog, shown), shown)
  {
    var available := Available(catalog, shown);
    if |available| == 0 then (catalog, []) else (available, shown)
  }

  /** `Math.floor(Math.random() * n)`, with the random number as input. */
  function RandomIndex(random: real, n: nat): (i: nat)
    requires 0.0 <= random < 1.0 && n > 0
    ensures i < n
  {
    assert random * n as real < n as real;
    (random * n as real).Floor
  }

  /** The draw keeps the catalog order of what is left, and every quote of a
      non-empty catalog is eventually drawable: when all have been shown the
      pool is the whole catalog again. */
  lemma PoolProperties(catalog: seq<Quote>, shown: seq<Quote>)
    ensures IsSubsequence(Pool(catalog, shown).0, catalog)
    ensures (forall q :: q in catalog ==> TextShown(shown, q.quote)) ==> Pool(catalog, shown) == (catalog, [])
    ensures catalog != [] ==> Pool(catalog, shown).0 != []
  {
    SubsequenceReflexive(catalog);
    if |shown| > 0 {
      FilterIsSubsequence((q: Quote) => !TextShown(shown, q.quote), catalog);
    }
    if forall q :: q in catalog ==> TextShown(shown, q.quote) {
      var available := Available(catalog, shown);
      if available != [] {
        assert available[0] in available;
      }
    }
  }

  /** The texts of a shown list are pairwise distinct. */
  predicate DistinctTexts(shown: seq<Quote>) {
    forall i, j :: 0 <= i < j < |shown| ==> shown[i].quote != shown[j].quote
  }

  /** The list written after a draw: the (possibly reset) shown list with the
      fortune appended. */
  function AfterDraw(catalog: seq<Quote>, shown: seq<Quote>, random: real): (r: seq<Quote>)
    requires catalog != [] && 0.0 <= random < 1.0
    ensures |r| >= 1 && r[|r| - 1] in catalog
    ensures r[..|r| - 1] == (if Available(catalog, shown) == [] then [] else shown)
  {
    var (pool, base) := Pool(catalog, shown);
    PoolProperties(catalog, shown);
    base + [pool[RandomIndex(random, |pool|)]]
  }

  /** Without a reset the fortune's text has not been shown, so a shown list
      whose texts are distinct stays so: no quote repeats until all have been
      shown. */
  lemma DrawNeverRepeats(catalog: seq<Quote>, shown: seq<Quote>, random: real)
    requires catalog != [] && 0.0 <= random < 1.0
    requires DistinctTexts(shown)
    ensures DistinctTexts(AfterDraw(catalog, shown, random))
    ensures Available(catalog, shown) != [] ==>
              !TextShown(shown, AfterDraw(catalog, shown, random)[|shown|].quote)
  {
    PoolProperties(catalog, shown);
    var (pool, base) := Pool(catalog, shown);
    var f := pool[RandomIndex(random, |pool|)];
    var r := AfterDraw(catalog, shown, random);
    assert r == base + [f];
    if Available(catalog, shown) != [] {
      assert f in Available(catalog, shown);
      forall i | 0 <= i < |shown| ensures shown[i].quote != f.quote {
      }
    }
  }

  class Teaser {
    const catalog: seq<Quote>
    var fortune: Option<Quote>
    var isFlipped: bool
    var rsvp: bool
    var showToast: bool
    /** The two keys the teaser uses, each holding its own document type. */
    var shownStorage: map<string, Stored<seq<Quote>>>
    var notifyStorage: map<string, Stored<bool>>

    /** Mounting: the switch starts from the stored flag when there is one. */
    constructor (catalog: seq<Quote>, shownStorage: map<string, Stored<seq<Quote>>>, notifyStorage: map<string, Stored<bool>>)
      requires catalog != []
      ensures this.catalog == catalog && this.shownStorage == shownStorage && this.notifyStorage == notifyStorage
      ensures fortune == None && !isFlipped && !showToast
      ensures rsvp == (Load(notifyStorage, NotifyKey) == Parsed(true))
    {
      this.catalog := catalog;
      this.shownStorage := shownStorage;
      this.notifyStorage := notifyStorage;
      fortune := None;
      isFlipped := false;
      showToast := false;
      var stored := Load(notifyStorage, NotifyKey);
      rsvp := stored.Parsed? && stored.doc;
    }

    /** `handleCardClick`: once flipped the card ignores clicks; stored
        shown-list text that is non-empty and does not parse throws before anything changes;
        otherwise (no list, or the empty text, counting as none shown) a quote
        is drawn from the pool, shown, and appended to the stored list. */
    method HandleCardClick(random: real, writeOk: bool) returns (outcome: ClickOutcome)
      requires catalog != [] && 0.0 <= random < 1.0
      modifies this
      ensures rsvp == old(rsvp) && showToast == old(showToast) && notifyStorage == old(notifyStorage)
      ensures old(isFlipped) ==> outcome == AlreadyFlipped && fortune == old(fortune) && isFlipped
                                 && shownStorage == old(shownStorage)
      ensures !old(isFlipped) && Load(old(shownStorage), ShownKey).Corrupt? ==>
                outcome == ParseError && fortune == old(fortune) && !isFlipped && shownStorage == old(shownStorage)
      ensures !old(isFlipped) && !Load(old(shownStorage), ShownKey).Corrupt? ==>
                var shown := if Load(old(shownStorage), ShownKey).Parsed? then Load(old(shownStorage), ShownKey).doc else [];
                var written := AfterDraw(catalog, shown, random);
                && outcome == Drawn(written[|written| - 1]) && fortune == Some(outcome.fortune) && isFlipped
                && shownStorage == (if writeOk then old(shownStorage)[ShownKey := Json(written)]
                                    else if Available(catalog, shown) == [] then old(shownStorage) - {ShownKey}
                                    else old(shownStorage))
    {
      if isFlipped {
        return AlreadyFlipped;
      }
      var stored := Load(shownStorage, ShownKey);
      if stored.Corrupt? {
        return ParseError;
      }
      var shownQuotes := if stored.Parsed? then stored.doc else [];
      ghost var shown := shownQuotes;
      var availableQuotes := catalog;
      if |shownQuotes| > 0 {
        availableQuotes := Filter((q: Quote) => !TextShown(shownQuotes, q.quote), catalog);
      }
      if |availableQuotes| == 0 {
        shownStorage := shownStorage - {ShownKey};
        shownQuotes := [];
        availableQuotes := catalog;
      }
      assert Pool(catalog, shown) == (availableQuotes, shownQuotes);
      var newFortune := availableQuotes[RandomIndex(random, |availableQuotes|)];
      fortune := Some(newFortune);
      var updatedShownQuotes := shownQuotes + [newFortune];
      assert updatedShownQuotes == AfterDraw(catalog, shown, random);
      if writeOk {
        shownStorage := shownStorage[ShownKey := Json(updatedShownQuotes)];
      }
      isFlipped := true;
      outcome := Drawn(newFortune);
    }

    /** `handleRsvpChange`: the switch flips even when the write throws; the
        toast appears only when switching on and the write succeeded. */
    method HandleRsvpChange(writeOk: bool)
      modifies this
      ensures rsvp == !old(rsvp)
      ensures writeOk ==> notifyStorage == old(notifyStorage)[NotifyKey := Json(rsvp)]
                          && showToast == (old(showToast) || rsvp)
      ensures !writeOk ==> notifyStorage == old(notifyStorage) && showToast == old(showToast)
      ensures fortune == old(fortune) && isFlipped == old(isFlipped) && shownStorage == old(shownStorage)
    {
      var newRsvp := !rsvp;
      rsvp := newRsvp;
      if !writeOk {
        return;
      }
      notifyStorage := notifyStorage[NotifyKey := Json(newRsvp)];
      if newRsvp {
        showToast := true;
      }
    }
  }
}
