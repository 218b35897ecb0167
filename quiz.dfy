/** The tarot quiz (projet/Quiz.tsx): eight questions whose options carry a
    suit; the answers are appended in order, counted per suit, and the
    dominant suit names the queen shown as the result. */
module Quiz {
  import opened Wrappers
  import opened Seqs
  import opened Tallies

  /** A result card; its texts are translation keys. */
  datatype QueenResult = QueenResult(
    id: string, titleKey: string, descriptionKey: string, suitKey: string, cardNumberKey: string, powerKey: string)

  const Suits: seq<string> := ["hearts", "spades", "diamonds", "clubs"]
  const QuestionCount: nat := 8

  /** The rank printed before the suit on each queen's card: each suit has
      its own, and the other keys follow the suit's name. */
  function RankKey(suit: string): string {
    match suit
    case "diamonds" => "ranks.reine"
    case "spades" => "ranks.roi"
    case "clubs" => "ranks.cavalier"
    case _ => "ranks.dame"
  }

  function ResultCard(suit: string): QueenResult {
    QueenResult(suit, "quiz.results." + suit + ".title", "quiz.results." + suit + ".description",
                "suits." + suit, RankKey(suit), "quiz.results." + suit + ".subtitle")
  }

  /** The results table: one card per suit, keyed by the suit. */
  const QueenResults: map<string, QueenResult> :=
    map["hearts" := ResultCard("hearts"), "diamonds" := ResultCard("diamonds"),
        "spades" := ResultCard("spades"), "clubs" := ResultCard("clubs")]

  /** Each suit's result card carries that suit and its own rank, and the
      four ranks are distinct. */
  lemma ResultCardsPerSuit(s: string)
    requires s in Suits
    ensures s in QueenResults && QueenResults[s].id == s && QueenResults[s].suitKey == "suits." + s
    ensures forall t :: t in Suits && t != s ==> QueenResults[t].cardNumberKey != QueenResults[s].cardNumberKey
  {
  }

  /** The counting `reduce` of `proceedToNext`: a dictionary bumped once per
      answer, in order. */
  method CountAnswers(answers: seq<string>) returns (counts: Entries)
    ensures counts == TallyOf(answers)
  {
    counts := [];
    for i := 0 to |answers|
      invariant counts == TallyOf(answers[..i])
    {
      TallyOfPrefix(answers, i);
      counts := Bump(counts, answers[i]);
    }
    assert answers[..|answers|] == answers;
  }

  /** The suit the second `reduce` keeps: among the suits with the largest
      count, the one whose first answer came last. */
  function DominantSuit(answers: seq<string>): (d: string)
    requires |answers| > 0
    ensures d in answers
    ensures forall s :: multiset(answers)[s] <= multiset(answers)[d]
    ensures forall s :: s in answers && s != d && multiset(answers)[s] == multiset(answers)[d] ==>
              IndexOf(answers, s) < IndexOf(answers, d)
  {
    TallyWinner(answers);
    Reduce(TallyOf(answers)).0
  }

  /** `queenResults[dominantType]`, falling back to the hearts card. */
  function ResultOf(answers: seq<string>): (r: QueenResult)
    requires |answers| > 0
    ensures DominantSuit(answers) in Suits ==> r == QueenResults[DominantSuit(answers)]
    ensures DominantSuit(answers) !in Suits ==> r == QueenResults["hearts"]
  {
    var d := DominantSuit(answers);
    if d in QueenResults then QueenResults[d] else QueenResults["hearts"]
  }

  /** The completion branch of `proceedToNext`: count, reduce, look up,
      fall back to hearts. */
  method ComputeResult(answers: seq<string>) returns (r: QueenResult)
    requires |answers| > 0
    ensures r == ResultOf(answers)
  {
    var counts := CountAnswers(answers);
    assert |counts| > 0 by {
      assert answers[0] in Keys(counts);
    }
    var dominantType := Reduce(counts).0;
    if dominantType in QueenResults {
      r := QueenResults[dominantType];
    } else {
      r := QueenResults["hearts"];
    }
  }

  class QuizState {
    var currentQuestion: nat
    var answers: seq<string>
    var selectedOption: Option<string>
    var showResult: bool
    var result: Option<QueenResult>
    var isShuffling: bool

    /** Before completion the index equals the number of answers; after it
        all eight answers are in and a result is set. */
    ghost predicate Valid()
      reads this
    {
      && (forall a :: a in answers ==> a in Suits)
      && (!showResult ==> currentQuestion == |answers| < QuestionCount)
      && (showResult ==> |answers| == QuestionCount && currentQuestion == QuestionCount - 1 && result.Some?)
    }

    constructor ()
      ensures Valid()
      ensures currentQuestion == 0 && answers == [] && selectedOption == None
      ensures !showResult && result == None && isShuffling
    {
      currentQuestion := 0;
      answers := [];
      selectedOption := None;
      showResult := false;
      result := None;
      isShuffling := true;
    }

    /** The end of the shuffle animation unlocks the options. */
    method FinishShuffle()
      modifies this
      ensures !isShuffling
      ensures currentQuestion == old(currentQuestion) && answers == old(answers)
      ensures selectedOption == old(selectedOption) && showResult == old(showResult) && result == old(result)
    {
      isShuffling := false;
    }

    /** `handleOptionSelect`: the clicked option is highlighted; the step to
        the next question follows the flip animation (`ProceedToNext`). The
        option buttons are disabled while shuffling and once an option is
        selected, so no other call reaches the handler. */
    method HandleOptionSelect(optionId: string)
      requires !isShuffling && selectedOption == None
      modifies this
      ensures selectedOption == Some(optionId)
      ensures currentQuestion == old(currentQuestion) && answers == old(answers)
      ensures showResult == old(showResult) && result == old(result) && isShuffling == old(isShuffling)
    {
      selectedOption := Some(optionId);
    }

    /** `proceedToNext`: the chosen suit is appended and the selection
        cleared; with fewer than eight answers the index advances by one,
        otherwise the answers are counted and the dominant suit's card is
        shown. */
    method ProceedToNext(optionValue: string)
      requires Valid() && !showResult && optionValue in Suits
      modifies this
      ensures Valid()
      ensures answers == old(answers) + [optionValue] && selectedOption == None
      ensures isShuffling == old(isShuffling)
      ensures |answers| < QuestionCount ==>
                currentQuestion == old(currentQuestion) + 1 && !showResult && result == old(result)
      ensures |answers| == QuestionCount ==>
                currentQuestion == old(currentQuestion) && showResult
                && result == Some(ResultOf(answers)) && result.value.id == DominantSuit(answers)
    {
      var newAnswers := answers + [optionValue];
      answers := newAnswers;
      selectedOption := None;
      if |newAnswers| < QuestionCount {
        currentQuestion := currentQuestion + 1;
      } else {
        var selected := ComputeResult(newAnswers);
        result := Some(selected);
        showResult := true;
      }
    }

    /** `resetQuiz`: back to the first question, reshuffling. */
    method ResetQuiz()
      modifies this
      ensures Valid()
      ensures currentQuestion == 0 && answers == [] && selectedOption == None
      ensures !showResult && result == None && isShuffling
    {
      currentQuestion := 0;
      answers := [];
      selectedOption := None;
      showResult := false;
      result := None;
      isShuffling := true;
    }
  }
}
