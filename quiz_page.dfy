/** The archetype quiz page (src/components/Pages/QuizPage.tsx): eight
    questions answered one at a time, with back-navigation, an answer map
    keyed by question index, and a result step that tallies archetypes. */
module QuizPage {
  import opened Wrappers
  import opened Seqs
  import opened Text
  import opened Tallies

  datatype QuizOption = QuizOption(id: string, text: string, archetype: string)
  datatype QuizQuestion = QuizQuestion(id: nat, question: string, options: seq<QuizOption>)
  datatype QuizResult = QuizResult(name: string, portrait: string, description: string, color: string)

  /** What a click on "next" did. `Crashed` is the `TypeError` thrown out of
      the handler. */
  datatype NextOutcome = Ignored | Advanced | Crashed | Finished

  /** The result step: a `TypeError`, or the result shown (which is `None`
      when the winning archetype has no entry in the results table). */
  datatype FinalStep = TypeError | Shown(result: Option<QuizResult>)

  const OptionIds: seq<string> := ["a", "b", "c", "d"]

  function Opts(a: string, ta: string, b: string, tb: string, c: string, tc: string, d: string, td: string): seq<QuizOption> {
    [QuizOption("a", ta, a), QuizOption("b", tb, b), QuizOption("c", tc, c), QuizOption("d", td, d)]
  }

  const QuizQuestions: seq<QuizQuestion> := [
    QuizQuestion(1, "Quelle qualité vous définit le mieux ?",
      Opts("Bienveillante", "Compassion", "Créative", "Créativité", "Sage", "Sagesse", "Guerrière", "Force")),
    QuizQuestion(2, "Votre moment préféré de la journée ?",
      Opts("Solaire", "Lever du soleil", "Lunaire", "Coucher de soleil", "Mystique", "Minuit", "Visionnaire", "Midi")),
    QuizQuestion(3, "Votre environnement idéal ?",
      Opts("Bienveillante", "Jardin secret", "Créative", "Atelier créatif", "Sage", "Bibliothèque", "Guerrière", "Sommet de montagne")),
    QuizQuestion(4, "Votre façon d'aider les autres ?",
      Opts("Bienveillante", "Écouter avec le cœur", "Créative", "Inspirer par l'art", "Sage", "Partager la connaissance", "Guerrière", "Montrer l'exemple")),
    QuizQuestion(5, "Votre plus grande force ?",
      Opts("Bienveillante", "Empathie", "Créative", "Imagination", "Sage", "Intuition", "Guerrière", "Détermination")),
    QuizQuestion(6, "Comment rechargez-vous vos batteries ?",
      Opts("Lunaire", "Méditation", "Créative", "Création artistique", "Sage", "Lecture", "Guerrière", "Sport/Défi")),
    QuizQuestion(7, "Votre style de leadership ?",
      Opts("Bienveillante", "Avec le cœur", "Créative", "Avec innovation", "Sage", "Avec sagesse", "Guerrière", "Avec courage")),
    QuizQuestion(8, "Votre vision du bonheur ?",
      Opts("Bienveillante", "Harmonie collective", "Créative", "Expression créative", "Sage", "Compréhension profonde", "Guerrière", "Accomplissement personnel"))
  ]

  const QuestionCount: nat := 8
  const LastQuestion: nat := 7

  const QueenResults: map<string, QuizResult> := map[
    "Bienveillante" := QuizResult("La Reine Bienveillante", "\U{1F496}",
      "Votre cœur rayonne de compassion. Vous êtes une source d'amour et de réconfort pour tous ceux qui vous entourent.",
      "from-champagne-pink to-powder"),
    "Créative" := QuizResult("L'Impératrice Créative", "\U{1F3A8}",
      "Votre imagination n'a pas de limites. Vous transformez le monde par votre art et votre créativité.",
      "from-royal-purple to-aubergine-violet"),
    "Sage" := QuizResult("La Souveraine Sage", "\U{1F52E}",
      "Votre sagesse éclaire le chemin. Vous guidez les autres vers la vérité et la compréhension.",
      "from-smokedGold to-vintage"),
    "Guerrière" := QuizResult("La Reine Guerrière", "\U{2694}\U{FE0F}",
      "Votre force intérieure est inébranlable. Vous surmontez tous les obstacles avec courage et détermination.",
      "from-indigo to-royal-purple")
  ]

  /** The answer map's keys are indices into a table of `n` questions. */
  ghost predicate IndexKeyed(answers: map<nat, string>, n: nat) {
    forall k :: k in answers ==> k < n
  }

  // ---------------------------------------------------------------------
  // Enumerating the answer map

  /** The integer keys of `answers` below `n`, ascending: the order in which
      `Object.keys` and `Object.values` list integer-like keys. */
  function AnswerKeys(answers: map<nat, string>, n: nat): (ks: seq<nat>)
    ensures forall k :: k in ks <==> k in answers && k < n
    ensures forall i :: 0 <= i < |ks| ==> ks[i] < n
    ensures forall i, j :: 0 <= i < j < |ks| ==> ks[i] < ks[j]
  {
    if n == 0 then []
    else
      var front := AnswerKeys(answers, n - 1);
      if n - 1 in answers then front + [n - 1] else front
  }

  /** `Object.keys(answers)`: the keys as decimal strings. */
  function ObjectKeys(answers: map<nat, string>, n: nat): (r: seq<string>)
    ensures |r| == |AnswerKeys(answers, n)|
    ensures forall i :: 0 <= i < |r| ==> r[i] == NatToString(AnswerKeys(answers, n)[i])
  {
    var ks := AnswerKeys(answers, n);
    seq(|ks|, i requires 0 <= i < |ks| => NatToString(ks[i]))
  }

  /** `Object.values(answers)`, in the same order as the keys. */
  function ObjectValues(answers: map<nat, string>, n: nat): (r: seq<string>)
    ensures |r| == |AnswerKeys(answers, n)|
    ensures forall i :: 0 <= i < |r| ==> r[i] == answers[AnswerKeys(answers, n)[i]]
  {
    var ks := AnswerKeys(answers, n);
    seq(|ks|, i requires 0 <= i < |ks| => answers[ks[i]])
  }

  /** An index-keyed answer map has as many keys as entries. */
  lemma AnswerKeysCount(answers: map<nat, string>, n: nat)
    requires IndexKeyed(answers, n)
    ensures |AnswerKeys(answers, n)| == |answers|
  {
    var ks := AnswerKeys(answers, n);
    DistinctCardinality<nat>(ks);
    var elems := set k: nat | k in ks;
    assert elems == answers.Keys by {
      forall k ensures k in elems <==> k in answers.Keys {
        if k in answers {
          assert k < n;
        }
      }
    }
    assert |elems| == |ks|;
    assert |answers| == |answers.Keys|;
  }

  // ---------------------------------------------------------------------
  // The result step as written

  /** `question.options.find(opt => opt.id === answer)`. */
  function FindOption(options: seq<QuizOption>, answer: string): (r: Option<QuizOption>)
    ensures r.Some? ==> r.value in options && r.value.id == answer
    ensures r.None? <==> forall i :: 0 <= i < |options| ==> options[i].id != answer
  {
    Find((o: QuizOption) => o.id == answer, options)
  }

  /** An answer the lookup cannot place: its position among the keys is -1
      (or past the last question), so the looked-up question is `undefined`. */
  predicate Unplaceable(qs: seq<QuizQuestion>, keys: seq<string>, answer: string) {
    var idx := IndexOf(keys, answer);
    idx < 0 || idx >= |qs|
  }

  /** One call of the `forEach` callback: the question is looked up at the
      position of the answer among the keys; reading `.options` of
      `undefined` throws, which is `None` here. */
  function ArchetypeStep(qs: seq<QuizQuestion>, acc: Option<Entries>, keys: seq<string>, answer: string): Option<Entries> {
    if acc.None? || Unplaceable(qs, keys, answer) then None
    else
      match FindOption(qs[IndexOf(keys, answer)].options, answer)
      case None => acc
      case Some(o) => Some(Bump(acc.value, o.archetype))
  }

  /** The `archetypes` dictionary after the `forEach` over `values`, or
      `None` if one of the callbacks threw. */
  function ArchetypeTally(qs: seq<QuizQuestion>, keys: seq<string>, values: seq<string>): Option<Entries> {
    if values == [] then Some([])
    else ArchetypeStep(qs, ArchetypeTally(qs, keys, values[..|values| - 1]), keys, values[|values| - 1])
  }

  /** One callback throws iff an earlier one did or its answer cannot be
      placed. */
  lemma StepFailsIff(qs: seq<QuizQuestion>, acc: Option<Entries>, keys: seq<string>, answer: string)
    ensures ArchetypeStep(qs, acc, keys, answer).None? <==> acc.None? || Unplaceable(qs, keys, answer)
  {
  }

  /** Some answer of `values` cannot be placed iff one of its `front` can,
      or its last one cannot. */
  lemma SomeUnplaceableSnoc(qs: seq<QuizQuestion>, keys: seq<string>, front: seq<string>, values: seq<string>)
    requires values != [] && front == values[..|values| - 1]
    ensures (exists i :: 0 <= i < |values| && Unplaceable(qs, keys, values[i])) <==>
              (exists i :: 0 <= i < |front| && Unplaceable(qs, keys, front[i]))
              || Unplaceable(qs, keys, values[|values| - 1])
  {
    if exists i :: 0 <= i < |values| && Unplaceable(qs, keys, values[i]) {
      var i :| 0 <= i < |values| && Unplaceable(qs, keys, values[i]);
      if i < |front| {
        assert front[i] == values[i];
      }
    }
    if exists i :: 0 <= i < |front| && Unplaceable(qs, keys, front[i]) {
      var i :| 0 <= i < |front| && Unplaceable(qs, keys, front[i]);
      assert values[i] == front[i];
    }
  }

  /** The tally throws iff some answer cannot be placed among the keys. */
  lemma {:induction false} TallyFailsIff(qs: seq<QuizQuestion>, keys: seq<string>, values: seq<string>)
    ensures ArchetypeTally(qs, keys, values).None? <==>
              exists i :: 0 <= i < |values| && Unplaceable(qs, keys, values[i])
  {
    if values != [] {
      var front := values[..|values| - 1];
      TallyFailsIff(qs, keys, front);
      StepFailsIff(qs, ArchetypeTally(qs, keys, front), keys, values[|values| - 1]);
      SomeUnplaceableSnoc(qs, keys, front, values);
    }
  }

  /** The tally of one more answer is one more callback. */
  lemma ArchetypeTallySnoc(qs: seq<QuizQuestion>, keys: seq<string>, values: seq<string>, i: nat)
    requires i < |values|
    ensures ArchetypeTally(qs, keys, values[..i + 1]) ==
              ArchetypeStep(qs, ArchetypeTally(qs, keys, values[..i]), keys, values[i])
  {
    assert values[..i + 1][..i] == values[..i];
  }

  /** The tally loop of `handleNext`, over the answers in key order. */
  method TallyArchetypes(qs: seq<QuizQuestion>, answers: map<nat, string>) returns (r: Option<Entries>)
    ensures r == ArchetypeTally(qs, ObjectKeys(answers, |qs|), ObjectValues(answers, |qs|))
  {
    var keys := ObjectKeys(answers, |qs|);
    var values := ObjectValues(answers, |qs|);
    var archetypes: Entries := [];
    var i := 0;
    while i < |values|
      invariant 0 <= i <= |values|
      invariant ArchetypeTally(qs, keys, values[..i]) == Some(archetypes)
    {
      var answer := values[i];
      ArchetypeTallySnoc(qs, keys, values, i);
      var idx := IndexOf(keys, answer);
      if idx < 0 || idx >= |qs| {
        assert Unplaceable(qs, keys, values[i]);
        TallyFailsIff(qs, keys, values);
        return None;
      }
      var option := FindOption(qs[idx].options, answer);
      if option.Some? {
        archetypes := Bump(archetypes, option.value.archetype);
      }
      i := i + 1;
    }
    assert values[..i] == values;
    r := Some(archetypes);
  }

  /** `Object.keys(archetypes).reduce(...)`: the last key with a maximal
      count; `None` when there are no keys, where `reduce` throws. */
  function TopArchetype(e: Entries): (r: Option<string>)
    ensures r.None? <==> e == []
    ensures r.Some? ==> r.value in Keys(e)
  {
    if e == [] then None
    else
      ReduceKeyIsKey(e);
      Some(Reduce(e).0)
  }

  /** What the reduce and the results lookup make of the tally. */
  function ResultOf(tally: Option<Entries>, results: map<string, QuizResult>): FinalStep {
    match tally
    case None => TypeError
    case Some(e) =>
      match TopArchetype(e)
      case None => TypeError
      case Some(top) => Shown(if top in results then Some(results[top]) else None)
  }

  /** Everything the last `handleNext` computes from the new answer map,
      given the question table and the results table. */
  function ResultStep(qs: seq<QuizQuestion>, results: map<string, QuizResult>, answers: map<nat, string>): FinalStep {
    ResultOf(ArchetypeTally(qs, ObjectKeys(answers, |qs|), ObjectValues(answers, |qs|)), results)
  }

  /** When the keys are digit strings and the first answer is an option id,
      which is a letter, the first callback throws and so does the tally. */
  lemma LetterAnswersFail(qs: seq<QuizQuestion>, keys: seq<string>, values: seq<string>)
    requires forall j :: 0 <= j < |keys| ==> |keys[j]| >= 1 && IsDigit(keys[j][0])
    requires |values| > 0 && values[0] in OptionIds
    ensures ArchetypeTally(qs, keys, values) == None
  {
    var first := values[0];
    assert !IsDigit(first[0]) by {
      assert first in OptionIds;
    }
    forall j | 0 <= j < |keys| ensures keys[j] != first {
      assert IsDigit(keys[j][0]);
    }
    assert Unplaceable(qs, keys, first);
    TallyFailsIff(qs, keys, values);
  }

  /** Option ids are letters and the keys are digit strings, so the first
      answer's position is -1 and the last `handleNext` always throws,
      whatever the questions and results tables hold. */
  lemma ResultStepAlwaysFails(qs: seq<QuizQuestion>, results: map<string, QuizResult>, answers: map<nat, string>)
    requires IndexKeyed(answers, |qs|) && answers != map[]
    requires forall k :: k in answers ==> answers[k] in OptionIds
    ensures ResultStep(qs, results, answers) == TypeError
  {
    AnswerKeysCount(answers, |qs|);
    LetterAnswersFail(qs, ObjectKeys(answers, |qs|), ObjectValues(answers, |qs|));
  }

  /** The result step as the handler runs it: the tally loop, then the
      reduce, then the lookup in the results table. */
  method RunResultStep(qs: seq<QuizQuestion>, results: map<string, QuizResult>, answers: map<nat, string>)
    returns (step: FinalStep)
    ensures step == ResultStep(qs, results, answers)
  {
    var archetypes := TallyArchetypes(qs, answers);
    if archetypes.None? {
      return TypeError;
    }
    var top := TopArchetype(archetypes.value);
    if top.None? {
      return TypeError;
    }
    step := Shown(if top.value in results then Some(results[top.value]) else None);
  }

  // ---------------------------------------------------------------------
  // The intended result step

  /** The archetype each answer picks when the question is looked up by its
      own index, in key order. */
  function ChosenArchetypes(qs: seq<QuizQuestion>, answers: map<nat, string>, ks: seq<nat>): (r: seq<string>)
    requires forall i :: 0 <= i < |ks| ==> ks[i] in answers && ks[i] < |qs|
    ensures |r| <= |ks|
  {
    if ks == [] then []
    else
      var front := ChosenArchetypes(qs, answers, ks[..|ks| - 1]);
      var k := ks[|ks| - 1];
      match FindOption(qs[k].options, answers[k])
      case None => front
      case Some(o) => front + [o.archetype]
  }

  /** Every question offers the four option ids. */
  predicate OffersEveryId(qs: seq<QuizQuestion>) {
    forall k, id :: 0 <= k < |qs| && id in OptionIds ==> FindOption(qs[k].options, id).Some?
  }

  lemma QuizQuestionsOfferEveryId()
    ensures OffersEveryId(QuizQuestions)
  {
    forall k, id | 0 <= k < |QuizQuestions| && id in OptionIds
      ensures FindOption(QuizQuestions[k].options, id).Some?
    {
      var options := QuizQuestions[k].options;
      assert |options| == 4 && forall j :: 0 <= j < 4 ==> options[j].id == OptionIds[j];
      var j :| 0 <= j < 4 && OptionIds[j] == id;
      assert options[j].id == id;
    }
  }

  /** With option ids as answers, each answer picks exactly one archetype. */
  lemma {:induction false} ChosenArchetypesComplete(qs: seq<QuizQuestion>, answers: map<nat, string>, ks: seq<nat>)
    requires OffersEveryId(qs)
    requires forall i :: 0 <= i < |ks| ==> ks[i] in answers && ks[i] < |qs|
    requires forall k :: k in answers ==> answers[k] in OptionIds
    ensures |ChosenArchetypes(qs, answers, ks)| == |ks|
  {
    if ks != [] {
      ChosenArchetypesComplete(qs, answers, ks[..|ks| - 1]);
    }
  }

  /** The tally the page evidently means: each answer's archetype taken from
      its own question. */
  function IntendedTally(qs: seq<QuizQuestion>, answers: map<nat, string>): Entries {
    var ks := AnswerKeys(answers, |qs|);
    TallyOf(ChosenArchetypes(qs, answers, ks))
  }

  /** The intended tally counts every answer once and always has a winner. */
  lemma IntendedTallyCountsEveryAnswer(qs: seq<QuizQuestion>, answers: map<nat, string>)
    requires OffersEveryId(qs)
    requires IndexKeyed(answers, |qs|) && answers != map[]
    requires forall k :: k in answers ==> answers[k] in OptionIds
    ensures Total(IntendedTally(qs, answers)) == |answers|
    ensures TopArchetype(IntendedTally(qs, answers)).Some?
  {
    var ks := AnswerKeys(answers, |qs|);
    AnswerKeysCount(answers, |qs|);
    ChosenArchetypesComplete(qs, answers, ks);
  }

  // ---------------------------------------------------------------------
  // The page's state

  class Page {
    /** The question and results tables the page renders. */
    const questions: seq<QuizQuestion>
    const results: map<string, QuizResult>
    var currentQuestion: nat
    var answers: map<nat, string>
    var showResult: bool
    var selectedAnswer: string
    var result: Option<QuizResult>

    ghost predicate Valid()
      reads this
    {
      && |questions| == QuestionCount
      && currentQuestion < QuestionCount
      && IndexKeyed(answers, QuestionCount)
      && (forall k :: k in answers ==> answers[k] in OptionIds)
      && (selectedAnswer == "" || selectedAnswer in OptionIds)
    }

    constructor ()
      ensures Valid()
      ensures questions == QuizQuestions && results == QueenResults
      ensures currentQuestion == 0 && answers == map[] && !showResult
      ensures selectedAnswer == "" && result == None
    {
      questions := QuizQuestions;
      results := QueenResults;
      currentQuestion := 0;
      answers := map[];
      showResult := false;
      selectedAnswer := "";
      result := None;
    }

    /** `handleAnswerSelect`: the clicked option becomes the selection. */
    method HandleAnswerSelect(optionId: string)
      requires Valid() && optionId in OptionIds
      modifies this
      ensures Valid()
      ensures selectedAnswer == optionId
      ensures currentQuestion == old(currentQuestion) && answers == old(answers)
      ensures showResult == old(showResult) && result == old(result)
    {
      selectedAnswer := optionId;
    }

    /** `handleNext`. Without a selection nothing happens. Otherwise the
        selection is recorded under the current index and cleared; before the
        last question the index advances by one, on the last one the result
        step runs, and when it throws the recorded answer and cleared
        selection remain while nothing else changes. */
    method HandleNext() returns (outcome: NextOutcome)
      requires Valid()
      modifies this
      ensures Valid()
      ensures old(selectedAnswer) == "" ==>
                outcome == Ignored && currentQuestion == old(currentQuestion) && answers == old(answers)
                && selectedAnswer == "" && showResult == old(showResult) && result == old(result)
      ensures old(selectedAnswer) != "" ==>
                answers == old(answers)[old(currentQuestion) := old(selectedAnswer)] && selectedAnswer == ""
      ensures old(selectedAnswer) != "" && old(currentQuestion) < LastQuestion ==>
                outcome == Advanced && currentQuestion == old(currentQuestion) + 1
                && showResult == old(showResult) && result == old(result)
      ensures old(selectedAnswer) != "" && old(currentQuestion) == LastQuestion ==>
                currentQuestion == old(currentQuestion)
                && match ResultStep(questions, results, answers)
                   case TypeError => outcome == Crashed && showResult == old(showResult) && result == old(result)
                   case Shown(res) => outcome == Finished && showResult && result == res
    {
      if selectedAnswer == "" {
        return Ignored;
      }
      var newAnswers := answers[currentQuestion := selectedAnswer];
      answers := newAnswers;
      selectedAnswer := "";
      assert Valid();
      if currentQuestion < LastQuestion {
        currentQuestion := currentQuestion + 1;
        return Advanced;
      }
      var step := RunResultStep(questions, results, newAnswers);
      match step
      case TypeError =>
        outcome := Crashed;
      case Shown(res) =>
        result := res;
        showResult := true;
        outcome := Finished;
    }

    /** On the last question with an answer selected, the result step of
        `handleNext` throws: the page never shows a result. */
    lemma LastNextCrashes()
      requires Valid() && selectedAnswer != "" && currentQuestion == LastQuestion
      ensures ResultStep(questions, results, answers[currentQuestion := selectedAnswer]) == TypeError
    {
      var newAnswers := answers[currentQuestion := selectedAnswer];
      assert currentQuestion in newAnswers;
      ResultStepAlwaysFails(questions, results, newAnswers);
    }

    /** `handlePrevious`: at the first question nothing happens; otherwise
        the index goes back one and the selection becomes the answer recorded
        there, or empty. */
    method HandlePrevious()
      requires Valid()
      modifies this
      ensures Valid()
      ensures answers == old(answers) && showResult == old(showResult) && result == old(result)
      ensures old(currentQuestion) == 0 ==>
                currentQuestion == 0 && selectedAnswer == old(selectedAnswer)
      ensures old(currentQuestion) > 0 ==>
                currentQuestion == old(currentQuestion) - 1
                && selectedAnswer == (if currentQuestion in answers then answers[currentQuestion] else "")
    {
      if currentQuestion > 0 {
        var previous := currentQuestion - 1;
        currentQuestion := previous;
        selectedAnswer := if previous in answers then answers[previous] else "";
      }
    }

    /** `handleRestart`: every field back to its initial value. */
    method HandleRestart()
      requires Valid()
      modifies this
      ensures Valid()
      ensures currentQuestion == 0 && answers == map[] && selectedAnswer == ""
      ensures !showResult && result == None
    {
      currentQuestion := 0;
      answers := map[];
      selectedAnswer := "";
      showResult := false;
      result := None;
    }
  }
}
