# Queen de Q: a verified model of the application's state logic

This project models the parts of the Queen de Q web application that hold
and change state, and proves properties of them in Dafny. The rest of the
application is presentation.

- **Card collection** (`cards_collection.dfy`). This is the
  `useCardsCollection` hook:
  - the set of opened cards, kept in insertion order without duplicates;
  - the milestone celebrations at 10, 25 and 54 opened cards;
  - the journal of mirror questions;
  - the three-facet card filter (search text, suits, keywords) with its
    toggles;
  - the sorted keyword index;
  - the progress counters.
- **Archetype quiz page** (`quiz_page.dfy`). Answers are a map keyed by
  question index, with next, previous and restart. The result step is
  modelled as written. It looks questions up by the position of an option id
  among the map's keys, and that position is always -1. The model proves
  that the last "next" therefore always throws (see Findings).
- **Tarot quiz** (`quiz.dfy`, with the counting dictionary in
  `tallies.dfy`). Eight suit answers are appended, counted per suit, and
  reduced to a dominant suit. Among tied maxima the suit whose first answer
  came latest wins.
- **Journal** (`journal.dfy`): prepending a validated entry,
  deleting by id, and the mood icon and colour tables.
- **Tea-ceremony teaser** (`tea_ceremony.dfy`): a quote rotation that
  does not repeat until every quote has been shown, and the notify switch.
- **Mock authentication** (`auth.dfy`):
  - a registry that is only appended to;
  - rejection of an email that is already registered;
  - ids equal to the list length plus one;
  - one shared password;
  - the persisted signed-in user.
- **Shop category filter** (`shop_catalog.dfy`). The standalone page
  (`shop_standalone.dfy`), the dashboard module (`royal_shop.dfy`) and the
  translated page (`shop.dfy`) each repeat it, each with its own copy of
  the four-item catalog.
- **Index navigation**:
  - the chat notes cycle modulo 4 (`chat.dfy`);
  - the carousel's arrow keys clamp at both ends, and its autoplay wraps
    and pauses on hover (`carousel.dfy`);
  - the wrap-around arithmetic they share is in `cyclic.dfy`.

Local storage is a map from keys to `Stored<T>` (`storage.dfy`). The
value under a key is either a JSON document of the expected shape
(`Json(doc)`) or text that does not parse (`Unparsable`). Every read is
guarded by a truthiness test on the stored text, so the empty text is
never parsed and reads like a missing key.
`localStorage.setItem` may throw (quota, private mode). That is the
`writeOk` parameter of every method that writes. `Date.now()`,
`Math.random()` and the `fr-FR` date text are parameters too. Each
component keeps its own storage map, because the keys the components use
are disjoint. A React state setter becomes a field assignment. A handler
becomes one sequential step.

Two behaviours of the code are easy to misread:

- `saveProgress` writes storage first and sets the state only when the
  write succeeded (src/hooks/useCardsCollection.ts:48-58). It is not an
  optimistic update. A write that throws is swallowed and changes nothing.
- The milestone of `markCardOpened` is computed from the new set whether or
  not the save succeeded, so it fires even when the write fails.

## Model

| member | source | states |
|---|---|---|
| Seqs.Filter | src/hooks/useCardsCollection.ts:174 | `Array.prototype.filter`: an element is in the result iff it is in the input and passes; the result is never longer |
| Seqs.FilterIsSubsequence | src/hooks/useCardsCollection.ts:174 | a filter's result is an order-preserving subsequence of its input |
| Seqs.FilterSingle | src/components/Pages/ShopStandalone.tsx:87 | when exactly one position passes, the filter returns that element alone |
| Seqs.FilterNone | src/components/Pages/ShopStandalone.tsx:87 | when no element passes, the filter returns nothing |
| Seqs.Dedup | src/hooks/useCardsCollection.ts:16 | `Array.from(new Set(s))`: no duplicates, same elements as `s` |
| Seqs.DedupFirstOccurrenceOrder | src/hooks/useCardsCollection.ts:16 | the deduplicated list keeps the order of first occurrence |
| Seqs.Find | src/contexts/AuthContext.tsx:57 | `Array.prototype.find`: none iff no element passes; otherwise the first element that passes |
| Text.Includes | src/hooks/useCardsCollection.ts:178 | `String.prototype.includes`: true iff the substring occurs at some position |
| Text.NatToStringInjective | src/contexts/AuthContext.tsx:91 | distinct numbers have distinct decimal strings |
| Text.InsertSorted | src/hooks/useCardsCollection.ts:161 | inserting into a strictly sorted list keeps it strictly sorted and adds exactly the new element |
| Storage.Load | src/hooks/useCardsCollection.ts:12-14 | `getItem`, its truthiness guard, then `JSON.parse`: absent iff no key or the empty text, parsed iff the stored text is a document, corrupt iff it is other non-empty text |
| Storage.LoadAfterWrite | src/hooks/useCardsCollection.ts:12-14 | a document written under a key loads back as that document, and other keys are unaffected |
| Tallies.TallyOf | projet/Quiz.tsx:469-472 | the counting `reduce`: one entry per distinct value in order of first occurrence, each count equal to the value's multiplicity, counts summing to the number of values |
| Tallies.ReduceIsLastMaximum | projet/Quiz.tsx:474-476 | the `reduce` returns an entry with a maximal count, and every later entry has a strictly smaller count |
| Tallies.TallyWinner | projet/Quiz.tsx:469-476 | tally-then-reduce picks a value occurring most often; every other value occurring as often first occurs earlier |
| CardsCollection.LoadProgress | src/hooks/useCardsCollection.ts:10-24 | nothing stored or unparsable text gives the empty progress; a parsed document gives its opened ids (deduplicated) and its journal, a missing field read as empty |
| CardsCollection.SaveThenLoad | src/hooks/useCardsCollection.ts:48-54 | the document `saveProgress` writes loads back as the same progress |
| CardsCollection.MilestoneAt | src/hooks/useCardsCollection.ts:91-92 | a milestone is found iff the count is exactly 10, 25 or 54 |
| CardsCollection.NextMilestone | src/hooks/useCardsCollection.ts:225 | the smallest milestone strictly above the count; none iff the count is at least 54 |
| CardsCollection.MarkOpened | src/hooks/useCardsCollection.ts:83-88 | the opened set becomes the old set plus the id; an id already there changes nothing; a new id adds exactly one element; no duplicates; the journal is untouched |
| CardsCollection.MarkOpenedIdempotent | src/hooks/useCardsCollection.ts:84-86 | opening a card twice is the same as opening it once |
| CardsCollection.OpenAllMonotone | src/hooks/useCardsCollection.ts:82-89 | opening more cards never shrinks the opened set |
| CardsCollection.MilestoneFiresOnce | src/hooks/useCardsCollection.ts:86-95 | over a run of successful opens, a milestone that fired once never fires again |
| CardsCollection.SomeKeywordIncludes | src/hooks/useCardsCollection.ts:180 | true iff some keyword, lower-cased, contains the query |
| CardsCollection.SomeKeywordSelected | src/hooks/useCardsCollection.ts:194 | true iff some keyword of the card is selected |
| CardsCollection.FilteredCards | src/hooks/useCardsCollection.ts:173-202 | a card is kept iff it is in the catalog and passes the search, suit and keyword facets |
| CardsCollection.FilteredCardsOrder | src/hooks/useCardsCollection.ts:173-202 | the filtered cards are an order-preserving subsequence of the catalog; with no facet set they are the whole catalog |
| CardsCollection.Toggle | src/hooks/useCardsCollection.ts:243-248 | the toggled value's membership flips; every other value's is unchanged |
| CardsCollection.ToggleTwice | src/hooks/useCardsCollection.ts:241-263 | toggling the same value twice restores the set |
| CardsCollection.KeywordsOf | src/hooks/useCardsCollection.ts:157-160 | a keyword is in the union iff some card carries it |
| CardsCollection.AllKeywords | src/hooks/useCardsCollection.ts:156-162 | the keyword index is strictly sorted (so free of duplicates) and holds exactly the union of all cards' keywords |
| CardsCollection.Collection.constructor | src/hooks/useCardsCollection.ts:10-30 | progress is loaded from storage and the filters start empty |
| CardsCollection.Collection.SaveProgress | src/hooks/useCardsCollection.ts:48-58 | a successful write stores the progress and then sets it; a failed write changes neither storage nor state |
| CardsCollection.Collection.MarkCardOpened | src/hooks/useCardsCollection.ts:82-103 | an opened card changes nothing and fires nothing; a new card is saved and fires the milestone for the new count |
| CardsCollection.Collection.AddToJournal | src/hooks/useCardsCollection.ts:106-123 | one entry copying the card's id, name and mirror question is appended at the end and returned; the opened set is unchanged |
| CardsCollection.Collection.ToggleSuit | src/hooks/useCardsCollection.ts:241-251 | the suit facet is toggled and nothing else changes |
| CardsCollection.Collection.ToggleKeyword | src/hooks/useCardsCollection.ts:253-263 | the keyword facet is toggled and nothing else changes |
| CardsCollection.Collection.ClearFilters | src/hooks/useCardsCollection.ts:265-271 | all three facets are emptied |
| CardsCollection.Collection.UpdateSearch | src/hooks/useCardsCollection.ts:165-170 | only the search query changes |
| CardsCollection.Collection.IsCardOpened | src/hooks/useCardsCollection.ts:273-275 | true iff the id is in the opened set |
| CardsCollection.Collection.ProgressStats | src/hooks/useCardsCollection.ts:223-234 | the opened count is the size of the opened set, the total the catalog size, the next milestone the one after that count, and the journal count the journal length |
| QuizPage.AnswerKeys | src/components/Pages/QuizPage.tsx:168-169 | the integer keys of the answer map, ascending, as `Object.keys` and `Object.values` enumerate them |
| QuizPage.AnswerKeysCount | src/components/Pages/QuizPage.tsx:168-169 | an index-keyed answer map lists as many keys as it has entries |
| QuizPage.TallyFailsIff | src/components/Pages/QuizPage.tsx:168-174 | the tally throws iff some answer's position among the keys is -1 or past the last question |
| QuizPage.TallyArchetypes | src/components/Pages/QuizPage.tsx:167-174 | the `forEach` loop computes the tally over the values in key order, or the `TypeError` |
| QuizPage.TopArchetype | src/components/Pages/QuizPage.tsx:176-178 | the `reduce` yields a key of the dictionary, and throws iff the dictionary is empty |
| QuizPage.RunResultStep | src/components/Pages/QuizPage.tsx:166-181 | the tally, the reduce and the results lookup, as the handler runs them |
| QuizPage.ResultStepAlwaysFails | src/components/Pages/QuizPage.tsx:169-170 | whatever the question and results tables hold, a non-empty answer map of option ids makes the result step throw |
| QuizPage.LetterAnswersFail | src/components/Pages/QuizPage.tsx:168-170 | when every key is a numeral and the first value is an option id, the tally throws on that first value |
| QuizPage.IntendedTallyCountsEveryAnswer | src/components/Pages/QuizPage.tsx:167-178 | looking each answer's question up by its own index, every answer is counted once and the reduce has a winner |
| QuizPage.QuizQuestionsOfferEveryId | src/components/Pages/QuizPage.tsx:35-116 | every question of the table offers the option ids a, b, c and d |
| QuizPage.Page.HandleAnswerSelect | src/components/Pages/QuizPage.tsx:152-154 | the clicked option becomes the selection and nothing else changes |
| QuizPage.Page.HandleNext | src/components/Pages/QuizPage.tsx:156-200 | without a selection nothing happens; otherwise the answer is recorded under the current index, other answers are kept, the selection is cleared, and the index advances by one before the last question; on the last question the result step decides between a thrown `TypeError` and a shown result |
| QuizPage.Page.LastNextCrashes | src/components/Pages/QuizPage.tsx:163-170 | on the last question with an answer selected, `handleNext` throws and no result is ever shown |
| QuizPage.Page.HandlePrevious | src/components/Pages/QuizPage.tsx:202-207 | at the first question nothing happens; otherwise the index goes back one and the selection becomes the recorded answer, or empty; the answers are untouched |
| QuizPage.Page.HandleRestart | src/components/Pages/QuizPage.tsx:209-215 | every field returns to its initial value |
| QuizPage.Page.constructor | src/components/Pages/QuizPage.tsx:146-150 | the first question, no answers, no selection, no result |
| Quiz.CountAnswers | projet/Quiz.tsx:469-472 | the counting loop computes the tally of the answers |
| Quiz.DominantSuit | projet/Quiz.tsx:474-476 | the dominant suit is an answer with a maximal count; among tied suits it is the one whose first answer came latest |
| Quiz.ResultOf | projet/Quiz.tsx:478-487 | the result is the table's card for the dominant suit when the dominant answer is a suit, and the table's hearts card otherwise |
| Quiz.ResultCardsPerSuit | projet/Quiz.tsx:313-412 | each suit's card in the results table carries that suit, and the four rank keys (dame, reine, roi, cavalier) are distinct |
| Quiz.ComputeResult | projet/Quiz.tsx:469-487 | counting, reduce and lookup together compute `ResultOf` |
| Quiz.QuizState.ProceedToNext | projet/Quiz.tsx:459-509 | the suit is appended and the selection cleared; below eight answers the index advances by one; at eight the dominant suit's card is shown |
| Quiz.QuizState.ResetQuiz | projet/Quiz.tsx:511-518 | index 0, no answers, no selection, no result, shuffling again |
| Quiz.QuizState.constructor | projet/Quiz.tsx:171-177 | the first question, no answers, no selection, no result, and the cards shuffling |
| Quiz.QuizState.FinishShuffle | projet/Quiz.tsx:216-224 | the shuffle animation ends and nothing else changes |
| Quiz.QuizState.HandleOptionSelect | projet/Quiz.tsx:426-427 | with the buttons enabled (not shuffling, nothing selected yet) the clicked option becomes the selection and nothing else changes |
| Journal.NewEntry | projet/Journal.tsx:53-60 | title, content and archetype are copied from the draft; the mood defaults to neutral; the id is the clock's decimal string |
| Journal.DeleteById | projet/Journal.tsx:70 | an entry remains iff it was there and its id differs |
| Journal.DeleteKeepsOrder | projet/Journal.tsx:69-72 | deleting keeps the remaining entries in order; an unknown id leaves the list unchanged |
| Journal.DeleteUndoesSave | projet/Journal.tsx:62-72 | deleting the id of an entry just prepended with a fresh id restores the list |
| Journal.MoodIcon | projet/Journal.tsx:74-81 | total; the default icon iff the mood is not positive, negative or reflective |
| Journal.MoodColor | projet/Journal.tsx:83-91 | total; the default colour iff the mood is not positive, neutral, reflective or melancholic, so negative gets the default |
| Journal.JournalPage.SaveEntries | projet/Journal.tsx:39-43 | the full list is written first; a throwing write changes nothing; otherwise the list is replaced and the toast shown |
| Journal.JournalPage.SaveEntry | projet/Journal.tsx:50-67 | without a title and a content the handler returns silently and nothing changes; a throwing write escapes the handler and nothing changes; otherwise the list becomes the new entry followed by the old list, is saved, and the draft is reset and the editor closed |
| Journal.JournalPage.DeleteEntry | projet/Journal.tsx:69-72 | the entries with the id are removed, the rest saved in order |
| Journal.JournalPage.constructor | projet/Journal.tsx:17-36 | the entries are the stored list when one parses and empty otherwise; an empty draft, the editor closed |
| Journal.JournalPage.StartWriting | projet/Journal.tsx:123 | the editor opens and nothing else changes |
| Journal.JournalPage.EditDraft | projet/Journal.tsx:152-208 | the draft is replaced and nothing else changes |
| Journal.JournalPage.CancelWriting | projet/Journal.tsx:226-229 | the draft is reset and the editor closed; entries and storage are unchanged |
| TeaCeremony.Available | src/components/Pages/TeaCeremonyTeaser.tsx:48-56 | a quote is available iff it is in the catalog and no shown quote has its text |
| TeaCeremony.Pool | src/components/Pages/TeaCeremonyTeaser.tsx:58-63 | with nothing available, the whole catalog is drawn from and the shown list is reset |
| TeaCeremony.PoolProperties | src/components/Pages/TeaCeremonyTeaser.tsx:48-63 | the pool keeps catalog order, is the whole catalog once everything was shown, and is never empty for a non-empty catalog |
| TeaCeremony.RandomIndex | src/components/Pages/TeaCeremonyTeaser.tsx:65 | `Math.floor(Math.random() * n)` is a valid index |
| TeaCeremony.AfterDraw | src/components/Pages/TeaCeremonyTeaser.tsx:65-75 | the list written after a draw is the (possibly reset) shown list followed by a catalog quote |
| TeaCeremony.DrawNeverRepeats | src/components/Pages/TeaCeremonyTeaser.tsx:52-75 | without a reset the fortune's text was not shown before, so the shown texts stay distinct |
| TeaCeremony.Teaser.HandleCardClick | src/components/Pages/TeaCeremonyTeaser.tsx:45-80 | a flipped card ignores clicks; a non-empty shown list that does not parse throws before any change; otherwise (no key or the empty text read as no quotes shown) a quote is drawn, shown, and appended to the stored list |
| TeaCeremony.Teaser.HandleRsvpChange | src/components/Pages/TeaCeremonyTeaser.tsx:82-90 | the switch flips even if the write throws; the toast appears only when switching on after a successful write |
| TeaCeremony.Teaser.constructor | src/components/Pages/TeaCeremonyTeaser.tsx:13-23 | no fortune, card face down, and the switch on iff the stored flag is `true` |
| Auth.InitialRegistryValid | src/contexts/AuthContext.tsx:28-43 | the seeded users have ids "1" and "2" and distinct emails |
| Auth.RegistryIdsDistinct | src/contexts/AuthContext.tsx:91 | in a valid registry no two users share an id |
| Auth.FindByEmail | src/contexts/AuthContext.tsx:57 | none iff no user has the email; otherwise a registered user with it |
| Auth.CheckCredentials | src/contexts/AuthContext.tsx:57-59 | succeeds iff a registered user has the email and the password is "password123" |
| Auth.CheckCredentialsUnique | src/contexts/AuthContext.tsx:57-60 | in a valid registry, signing in with a user's email yields exactly that user |
| Auth.NewUser | src/contexts/AuthContext.tsx:90-96 | the appended user has the next id, the client role and the given name and email |
| Auth.RegisteredUserSignsInWithSharedPassword | src/contexts/AuthContext.tsx:57-98 | the registration password is not kept: a new user signs in with "password123" and no other |
| Auth.RegisterKeepsRegistryValid | src/contexts/AuthContext.tsx:84-98 | appending a new user to a valid registry under an unregistered email keeps ids and emails distinct |
| Auth.AuthProvider.constructor | src/contexts/AuthContext.tsx:113-122 | the signed-in user is restored from a stored user document; non-empty text that does not parse is removed from storage and leaves no user; no key or the empty text leaves storage as it is and no user |
| Auth.AuthProvider.Login | src/contexts/AuthContext.tsx:49-69 | bad credentials change nothing; good ones set the user, then save it; a throwing save rejects the call |
| Auth.AuthProvider.Register | src/contexts/AuthContext.tsx:71-105 | a known email is refused and nothing changes; otherwise one user is appended, signed in and saved; the registry stays valid |
| Auth.AuthProvider.Logout | src/contexts/AuthContext.tsx:107-110 | signed out and the saved user removed |
| ShopCatalog.FilteredItems | src/components/Pages/ShopStandalone.tsx:85-87 | `'all'` returns the catalog; any other value keeps exactly the items of that category |
| ShopCatalog.FilteredItemsOrder | src/components/Pages/ShopStandalone.tsx:85-87 | the filtered items are an order-preserving subsequence of the catalog |
| ShopCatalog.FilterOneCategory | src/components/Pages/ShopStandalone.tsx:87 | with distinct categories, selecting an item's category yields that item alone |
| ShopCatalog.OneItemPerCategory | src/components/Pages/ShopStandalone.tsx:19-52 | a catalog with one item per category in button order shows exactly that item per category button and nothing for other values |
| ShopStandalone.FilteredShopItems | src/components/Pages/ShopStandalone.tsx:85-87 | `'all'` shows the catalog; each category shows exactly one catalog item of that category; any other value shows nothing |
| ShopStandalone.CategoryLabel | src/components/Pages/ShopStandalone.tsx:74-83 | total; "Tous" iff the value is not one of the four categories |
| RoyalShop.FilteredShopItems | src/components/Modules/RoyalShop.tsx:83-85 | `'all'` shows the catalog; each category shows exactly one catalog item of that category; any other value shows nothing |
| RoyalShop.CategoryLabel | src/components/Modules/RoyalShop.tsx:72-81 | total; "Tous" iff the value is not one of the four categories |
| Shop.GetShopItems | projet/Shop.tsx:17-50 | four items with ids 1 to 4, one per category in button order, each with a badge |
| Shop.FilteredShopItems | projet/Shop.tsx:89-91 | `'all'` shows every item; a category shows exactly the item at that category's position; any other value shows nothing |
| Shop.CategoryLabelKey | projet/Shop.tsx:140-149 | total; the key of "all" iff the value is not one of the four categories, otherwise that category's key |
| Cyclic.Succ | projet/Chat.tsx:53 | `(i + 1) % n` stays below `n` and wraps from the last position to the first |
| Cyclic.Pred | projet/Chat.tsx:57 | `(i - 1 + n) % n` stays below `n` and wraps from the first position to the last |
| Cyclic.AdvanceNoWrap | projet/Chat.tsx:62-64 | before the end of the cycle, `k` forward steps move exactly `k` places |
| Cyclic.AdvanceCompose | projet/Chat.tsx:62-64 | `a + b` forward steps are `a` steps followed by `b` steps |
| Cyclic.FullCycle | src/components/UI/CarouselContent.tsx:62-63 | `n` autoplay steps return to the start, and every position is reached from every other in fewer than `n` steps |
| Chat.FourNextsIdentity | projet/Chat.tsx:52-58 | four `nextNote` steps are the identity, and `prevNote` and `nextNote` undo each other |
| Chat.ChatPanel.constructor | projet/Chat.tsx:16-17 | the first note in front, notes hidden until the mount effect runs |
| Chat.ChatPanel.CurrentNote | projet/Chat.tsx:50 | the note in front is the catalog note whose id is the index plus one |
| Chat.ChatPanel.NextNote | projet/Chat.tsx:52-54 | the index takes one wrapping step forwards |
| Chat.ChatPanel.PrevNote | projet/Chat.tsx:56-58 | the index takes one wrapping step backwards and stays in range |
| Chat.ChatPanel.Tick | projet/Chat.tsx:62-64 | each interval firing takes the same step as `nextNote` |
| Chat.ChatPanel.SelectDot | projet/Chat.tsx:272 | clicking dot `k` sets the index to exactly `k` |
| Chat.ChatPanel.ShowNotes | projet/Chat.tsx:61 | the mount effect reveals the notes without moving the index |
| Chat.ChatPanel.Close | projet/Chat.tsx:68-69 | the notes are hidden without moving the index |
| Carousel.KeySlide | src/components/UI/CarouselContent.tsx:110-128 | Enter and Space select the focused slide; ArrowLeft moves back only above the first slide and ArrowRight forward only below the last; the result stays in range |
| Carousel.CarouselState.StartAutoplay | src/components/UI/CarouselContent.tsx:59-68 | nothing when reduced motion is preferred or autoplay was paused; otherwise one more interval runs and its handle is stored |
| Carousel.CarouselState.MouseEnter | src/components/UI/CarouselContent.tsx:87-90 | paused and the stored interval stopped; a steady state stays steady with no interval running |
| Carousel.CarouselState.MouseLeave | src/components/UI/CarouselContent.tsx:92-97 | unpaused; after a mouse-enter exactly one interval runs unless reduced motion is preferred |
| Carousel.CarouselState.Tick | src/components/UI/CarouselContent.tsx:62-63 | each autoplay firing takes one wrapping step forwards |
| Carousel.CarouselState.KeyDown | src/components/UI/CarouselContent.tsx:110-128 | the current slide becomes the slide the key selects, or stays |
| Carousel.CarouselState.SelectSlide | src/components/UI/CarouselContent.tsx:174-217 | clicking slide `k` or dot `k` makes `k` current |
| Carousel.CarouselState.SlideChanged | src/components/UI/CarouselContent.tsx:50-52 | the slider's reported slide becomes current |
| Carousel.CarouselState.constructor | src/components/UI/CarouselContent.tsx:20-84 | the first slide, unpaused, and exactly one interval running unless reduced motion is preferred |
| Carousel.CarouselState.StopAutoplay | src/components/UI/CarouselContent.tsx:70-75 | the stored interval is cleared and its handle dropped |
| Carousel.CarouselState.RerunAutoplayEffect | src/components/UI/CarouselContent.tsx:78-84 | cleanup then restart: exactly the stored interval is replaced, and one is stored iff neither reduced motion nor pause applies |

## Left out

- Browser I/O is abstracted. JSON text is not modelled: a stored value is a
  document of the expected shape or unparsable text. A document of the
  wrong shape (for example `null` under the progress key, which makes
  `data.openedCards` throw and is caught) is not represented.
- `Date.now()`, `new Date().toLocaleDateString('fr-FR')` and
  `Math.random()` are inputs. The clock's two reads in `addToJournal` are
  two parameters.
- Timers, animations, confetti, GSAP, framer-motion, screen-reader
  announcements, analytics, `html2canvas` sharing and page navigation are
  not modelled. The debounce of `updateSearch` is dropped, so the query is
  set at once.
- `generate3CardSpread` is not modelled. It shuffles with `Math.random`,
  and its three `markCardOpened` calls all read the same progress snapshot.
- The floating-point values are not modelled: the percentage in
  `progressStats`, the quiz progress bar and shop prices (kept in cents,
  with no arithmetic).
- The `isLoading` flag and the one-second delay of the authentication calls
  are not modelled. Login and register settle as `Resolved` or `Rejected`
  in one step.
- Text.Lower: lower-cases ASCII letters and the Latin-1 capitals only.
  JavaScript's full Unicode `toLowerCase` is not modelled.
- AllKeywords: JavaScript's default `sort` compares UTF-16 code units. The
  model compares characters, which agrees for text in the Basic
  Multilingual Plane.
- QuizPage.Page.HandleNext: the answer map is modelled only with keys that
  are question indices, which is all the page ever writes. After the
  `TypeError`, the answer and the cleared selection that React already
  queued are kept.
- QuizPage.Page: the page keeps the as-written result step. Its observable
  behaviour is the crash, so the corrected tally (Findings) is proved on
  its own and not wired into the page.
- TeaCeremony.Teaser: `tea-quotes.json` is not part of this model. The
  catalog is a constructor argument, assumed non-empty, as the shipped file
  is.
- TeaCeremony.Teaser.constructor: a non-empty stored notify flag that does not parse
  makes the mount effect throw. The model instead starts the switch off.
- Journal.MoodIcon: the source's icon literals are mis-encoded (UTF-8 read
  as Latin-1). The model uses the intended emoji, and only their
  distinctness matters.
- Journal.Entry: the mood is a string, because the picker offers
  `melancholic`, which is outside the declared union.
- Carousel.CarouselState: the keen-slider calls (`moveToIdx`, `next`,
  `prev`) and the pulse animation are left out. A carousel with no slides
  (whose autoplay step would produce `NaN`) is excluded by the constructor.
- Chat.ChatPanel and Carousel.CarouselState: an interval firing is a
  `Tick` call. The timing between firings is not modelled.

## Findings

| source | as written | input that shows it | evidently intended | confidence | as-written member | corrected member |
|---|---|---|---|---|---|---|
| src/components/Pages/QuizPage.tsx:169 | each answer's question is looked up at the position of the answer (an option id such as `"a"`) among `Object.keys(newAnswers)` (the strings `"0"`…`"7"`); the position is always -1, the question is `undefined`, and `question.options` at line 170 throws a `TypeError`, so the result is never shown | eight answers `{0: "a", 1: "b", …, 7: "d"}`, then "next" on the last question | look each answer's question up by its own key, count every answer's archetype, and show the winner | not executed | QuizPage.ResultStepAlwaysFails | QuizPage.IntendedTallyCountsEveryAnswer |
