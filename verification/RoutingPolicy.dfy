/** Validation of the router's probability answers, over exact reals. */
module RoutingPolicy {
  import opened Json

  datatype Error = Missing | UnknownChoice | Incomplete | InvalidProbability | Inconsistent
  datatype Result<+T> = Ok(value: T) | Err(error: Error)

  /** A value that should be a probability: a finite number, or anything else. */
  datatype Value = Number(r: real) | NotANumber

  datatype Answer = Answer(choice: string, probabilities: Option<map<string, Value>>, confidence: Value)

  /** The choices of a question, in the order of its criteria. */
  datatype Question = Question(name: string, choices: seq<string>)

  const LEVELS := ["0", "1", "2", "3", "4", "unknown"]
  const QUESTIONS := [
    Question("visual", LEVELS), Question("architecture", LEVELS), Question("coding", LEVELS), Question("risk", LEVELS),
    Question("effort", ["low", "medium", "high", "xhigh", "max"]),
    Question("lease", ["one_call", "tool_chain", "user_turn"])]

  const SUM_TOLERANCE: real := 0.02
  const MAX_TOLERANCE: real := 0.000001

  // ---------------------------------------------------------------- validation

  predicate IsProbability(v: Value) {
    v.Number? && 0.0 <= v.r <= 1.0
  }

  function P(d: map<string, Value>, c: string): real {
    if c in d && d[c].Number? then d[c].r else 0.0
  }

  function Sum(d: map<string, Value>, choices: seq<string>): real {
    if choices == [] then 0.0 else P(d, choices[0]) + Sum(d, choices[1..])
  }

  function Largest(d: map<string, Value>, choices: seq<string>): real
    requires choices != []
  {
    if |choices| == 1 then P(d, choices[0])
    else
      var rest := Largest(d, choices[1..]);
      if P(d, choices[0]) < rest then rest else P(d, choices[0])
  }

  function Abs(x: real): real {
    if x < 0.0 then -x else x
  }

  datatype Validated = Validated(choice: string, probabilities: Option<map<string, Value>>, confidence: Option<real>)

  /** `_validated_choice`. */
  function ValidatedChoice(answers: map<string, Answer>, q: Question): Result<Validated> {
    if q.name !in answers then Err(Missing)
    else
      var a := answers[q.name];
      var confidence := if IsProbability(a.confidence) then Some(a.confidence.r) else None;
      if a.choice !in q.choices then Err(UnknownChoice)
      else if a.probabilities.None? then Ok(Validated(a.choice, None, confidence))
      else
        var d := a.probabilities.value;
        if d.Keys != set c | c in q.choices then Err(Incomplete)
        else if exists c | c in d :: !IsProbability(d[c]) then Err(InvalidProbability)
        else if Abs(Sum(d, q.choices) - 1.0) > SUM_TOLERANCE ||
                P(d, a.choice) < Largest(d, q.choices) - MAX_TOLERANCE then Err(Inconsistent)
        else Ok(Validated(a.choice, a.probabilities, confidence))
  }

  function ValidateAll(answers: map<string, Answer>, questions: seq<Question>): Result<seq<Validated>> {
    if questions == [] then Ok([])
    else
      var first := ValidatedChoice(answers, questions[0]);
      if first.Err? then Err(first.error)
      else
        var rest := ValidateAll(answers, questions[1..]);
        if rest.Err? then rest else Ok([first.value] + rest.value)
  }

  /** The smallest probability of a chosen answer, over the questions that came with a distribution. */
  function LeastChosen(validated: seq<Validated>): Option<real> {
    if validated == [] then None
    else
      var rest := LeastChosen(validated[1..]);
      var v := validated[0];
      if v.probabilities.None? then rest
      else
        var p := P(v.probabilities.value, v.choice);
        if rest.Some? && rest.value < p then rest else Some(p)
  }

  /** The `chosen_probability` of `decision_from_answers`. */
  function ChosenProbability(answers: map<string, Answer>): Result<Option<real>> {
    var validated := ValidateAll(answers, QUESTIONS);
    if validated.Err? then Err(validated.error) else Ok(LeastChosen(validated.value))
  }

  // ---------------------------------------------------------------- acceptance, and the least one

  lemma {:induction false} LargestIs(d: map<string, Value>, choices: seq<string>)
    requires choices != []
    ensures exists c :: c in choices && P(d, c) == Largest(d, choices)
    decreases |choices|
  {
    if |choices| > 1 {
      LargestIs(d, choices[1..]);
      var c :| c in choices[1..] && P(d, c) == Largest(d, choices[1..]);
      assert c in choices && choices[0] in choices;
    } else {
      assert choices[0] in choices;
    }
  }

  /** An answer with a distribution is accepted exactly when it names a choice of the question, gives each
      choice and nothing else a probability, these add up to 1 within 0.02, and none of them is more than
      0.000001 above that of the chosen one. It is returned as it came, with its confidence if that is a
      probability. */
  lemma AcceptedExactly(answers: map<string, Answer>, q: Question, d: map<string, Value>)
    requires q.name in answers && answers[q.name].probabilities == Some(d)
    ensures
      var chosen, r := answers[q.name].choice, ValidatedChoice(answers, q);
      && (r.Ok? <==>
            && chosen in q.choices && chosen in d
            && (forall c :: c in d <==> c in q.choices)
            && (forall c | c in d :: d[c].Number? && 0.0 <= d[c].r <= 1.0)
            && 0.98 <= Sum(d, q.choices) <= 1.02
            && (forall c | c in d :: d[c].r <= d[chosen].r + 0.000001))
      && (r.Ok? ==>
            && r.value.choice == chosen && r.value.probabilities == Some(d)
            && match answers[q.name].confidence
               case Number(c) => r.value.confidence == if 0.0 <= c && c <= 1.0 then Some(c) else None
               case NotANumber => r.value.confidence == None)
  {
    hide Sum, Largest;
    var chosen := answers[q.name].choice;
    if chosen in q.choices {
      LargestBounds(d, q.choices);
      LargestIs(d, q.choices);
      assert (forall c :: c in d <==> c in q.choices) <==> d.Keys == set c | c in q.choices;
    }
  }

  /** The probability of the choice that was made, where there is a distribution. */
  function ChosenOf(answers: map<string, Answer>, q: Question): Option<Value> {
    if q.name in answers && answers[q.name].probabilities.Some? &&
       answers[q.name].choice in answers[q.name].probabilities.value then
      Some(answers[q.name].probabilities.value[answers[q.name].choice])
    else None
  }

  lemma ChosenIs(answers: map<string, Answer>, q: Question)
    requires ValidatedChoice(answers, q).Ok?
    ensures
      var v := ValidatedChoice(answers, q).value;
      && (v.probabilities.None? <==> ChosenOf(answers, q).None?)
      && (v.probabilities.Some? ==> ChosenOf(answers, q) == Some(Number(P(v.probabilities.value, v.choice))))
  {
    hide Sum, Largest;
  }

  lemma {:induction false} LeastOf(answers: map<string, Answer>, questions: seq<Question>)
    requires ValidateAll(answers, questions).Ok?
    ensures
      var least := LeastChosen(ValidateAll(answers, questions).value);
      && (least.None? <==> forall q | q in questions :: ChosenOf(answers, q).None?)
      && (least.Some? ==>
            && (exists q :: q in questions && ChosenOf(answers, q) == Some(Number(least.value)))
            && forall q | q in questions && ChosenOf(answers, q).Some? ::
                 ChosenOf(answers, q).value.Number? && least.value <= ChosenOf(answers, q).value.r)
    decreases |questions|
  {
    hide ValidatedChoice, ChosenOf, P;
    if questions != [] {
      LeastOf(answers, questions[1..]);
      ChosenIs(answers, questions[0]);
      var v := ValidatedChoice(answers, questions[0]).value;
      var validated := ValidateAll(answers, questions).value;
      assert validated[0] == v && validated[1..] == ValidateAll(answers, questions[1..]).value;
      assert questions == [questions[0]] + questions[1..];
      assert questions[0] in questions && forall q | q in questions[1..] :: q in questions;
      var least, rest := LeastChosen(validated), LeastChosen(validated[1..]);
      if rest.Some? && least == rest {
        var q :| q in questions[1..] && ChosenOf(answers, q) == Some(Number(rest.value));
        assert q in questions;
      } else if least.Some? {
        assert ChosenOf(answers, questions[0]) == Some(Number(least.value));
      }
    }
  }

  /** The reported probability is the smallest one of a choice that was made, over all questions answered
      with a distribution; there is none exactly when no question was. */
  lemma ChosenProbabilityIsLeast(answers: map<string, Answer>)
    requires ChosenProbability(answers).Ok?
    ensures
      var least := ChosenProbability(answers).value;
      && (least.None? <==> forall q | q in QUESTIONS :: ChosenOf(answers, q).None?)
      && (least.Some? ==>
            && (exists q :: q in QUESTIONS && ChosenOf(answers, q) == Some(Number(least.value)))
            && forall q | q in QUESTIONS && ChosenOf(answers, q).Some? ::
                 ChosenOf(answers, q).value.Number? && least.value <= ChosenOf(answers, q).value.r)
  {
    hide QUESTIONS, ChosenOf;
    LeastOf(answers, QUESTIONS);
  }

  // ---------------------------------------------------------------- bounds

  lemma {:induction false} LargestBounds(d: map<string, Value>, choices: seq<string>)
    requires choices != []
    ensures forall c | c in choices :: P(d, c) <= Largest(d, choices)
    decreases |choices|
  {
    if |choices| > 1 {
      LargestBounds(d, choices[1..]);
      forall c | c in choices ensures P(d, c) <= Largest(d, choices) {
        if c != choices[0] { assert c in choices[1..]; }
      }
    }
  }

  lemma {:induction false} SumBelow(d: map<string, Value>, choices: seq<string>, most: real)
    requires forall c | c in choices :: P(d, c) <= most
    ensures Sum(d, choices) <= |choices| as real * most
    decreases |choices|
  {
    if choices != [] {
      SumBelow(d, choices[1..], most);
      assert |choices| as real * most == most + |choices[1..]| as real * most;
    }
  }

  /** The chosen one and, at most, the largest probability for each of the others. */
  lemma {:induction false} SumWithChosen(d: map<string, Value>, choices: seq<string>, chosen: string, most: real)
    requires chosen in choices && forall c | c in choices :: P(d, c) <= most
    ensures Sum(d, choices) <= P(d, chosen) + (|choices| - 1) as real * most
    decreases |choices|
  {
    if choices[0] == chosen {
      SumBelow(d, choices[1..], most);
    } else {
      assert chosen in choices[1..];
      SumWithChosen(d, choices[1..], chosen, most);
      assert (|choices| - 1) as real * most == most + (|choices[1..]| - 1) as real * most;
    }
  }

  /** 0.98 and five tolerances, shared among six choices: (0.98 - 0.000005) / 6. */
  const FLOOR: real := 0.1633325

  lemma FloorIs()
    ensures 6.0 * FLOOR == 1.0 - SUM_TOLERANCE - 5.0 * MAX_TOLERANCE
  {
  }

  /** What an accepted distribution guarantees for the chosen answer. */
  lemma AcceptedChoice(answers: map<string, Answer>, q: Question)
    requires 1 <= |q.choices| <= 6
    requires ValidatedChoice(answers, q).Ok? && ValidatedChoice(answers, q).value.probabilities.Some?
    ensures
      var v := ValidatedChoice(answers, q).value;
      FLOOR <= P(v.probabilities.value, v.choice) <= 1.0
  {
    hide Sum, Largest;
    var a := answers[q.name];
    var d := a.probabilities.value;
    LargestBounds(d, q.choices);
    ChosenAtLeast(d, q.choices, a.choice);
    assert a.choice in d;
  }

  /** Six choices that stay within the tolerance of a small chosen one do not add up. */
  lemma TooSmallASum(d: map<string, Value>, choices: seq<string>, chosen: string)
    requires |choices| <= 6 && chosen in choices && P(d, chosen) < FLOOR
    requires forall c | c in choices :: P(d, c) <= P(d, chosen) + MAX_TOLERANCE
    ensures Sum(d, choices) < 1.0 - SUM_TOLERANCE
  {
    var most := FLOOR + MAX_TOLERANCE;
    SumWithChosen(d, choices, chosen, most);
    assert (|choices| - 1) as real <= 5.0;
    assert (|choices| - 1) as real * most <= 5.0 * most;
    FloorIs();
  }

  lemma ChosenAtLeast(d: map<string, Value>, choices: seq<string>, chosen: string)
    requires |choices| <= 6 && chosen in choices && Sum(d, choices) >= 1.0 - SUM_TOLERANCE
    requires forall c | c in choices :: P(d, c) <= P(d, chosen) + MAX_TOLERANCE
    ensures FLOOR <= P(d, chosen)
  {
    if P(d, chosen) < FLOOR {
      TooSmallASum(d, choices, chosen);
    }
  }

  lemma {:induction false} EveryChosenBounded(answers: map<string, Answer>, questions: seq<Question>)
    requires forall q | q in questions :: 1 <= |q.choices| <= 6
    requires ValidateAll(answers, questions).Ok?
    ensures
      var least := LeastChosen(ValidateAll(answers, questions).value);
      least.Some? ==> FLOOR <= least.value <= 1.0
    decreases |questions|
  {
    if questions != [] {
      EveryChosenBounded(answers, questions[1..]);
      var v := ValidatedChoice(answers, questions[0]).value;
      var validated := ValidateAll(answers, questions).value;
      assert validated[0] == v && validated[1..] == ValidateAll(answers, questions[1..]).value;
      if v.probabilities.Some? {
        AcceptedChoice(answers, questions[0]);
      }
    }
  }

  /** Any accepted set of answers with at least one distribution has a chosen probability between the
      floor and 1; in particular at least 0.98/6 minus 0.000001. */
  lemma ChosenProbabilityBound(answers: map<string, Answer>)
    requires ChosenProbability(answers).Ok? && ChosenProbability(answers).value.Some?
    ensures FLOOR <= ChosenProbability(answers).value.value <= 1.0
    ensures ChosenProbability(answers).value.value >= 0.98 / 6.0 - 0.000001
  {
    forall q | q in QUESTIONS ensures 1 <= |q.choices| <= 6 {
      QuestionSizes(q);
    }
    EveryChosenBounded(answers, QUESTIONS);
  }

  lemma QuestionSizes(q: Question)
    requires q in QUESTIONS
    ensures 1 <= |q.choices| <= 6
  {
    var i :| 0 <= i < |QUESTIONS| && QUESTIONS[i] == q;
    assert |LEVELS| == 6;
  }

  // ---------------------------------------------------------------- the bound is reached

  /** Five equal probabilities, and the first choice just within the tolerance below them. */
  function Flat(choices: seq<string>, chosen: string, others: real): map<string, Value> {
    map c | c in choices :: Number(if c == chosen then others - MAX_TOLERANCE else others)
  }

  lemma {:induction false} FlatSum(d: map<string, Value>, choices: seq<string>, p: real)
    requires choices != [] && forall c | c in choices :: P(d, c) == p
    ensures Sum(d, choices) == |choices| as real * p && Largest(d, choices) == p
    decreases |choices|
  {
    if |choices| > 1 {
      FlatSum(d, choices[1..], p);
      assert |choices| as real * p == p + |choices[1..]| as real * p;
    }
  }

  lemma FlatParts(choices: seq<string>, others: real)
    requires |choices| == 6 && forall i | 0 < i < 6 :: choices[i] != choices[0]
    ensures
      var d := Flat(choices, choices[0], others);
      && P(d, choices[0]) == others - MAX_TOLERANCE
      && Sum(d, choices) == 6.0 * others - MAX_TOLERANCE && Largest(d, choices) == others
  {
    var d := Flat(choices, choices[0], others);
    forall c | c in choices[1..] ensures P(d, c) == others {
      assert c in choices && c != choices[0];
    }
    FlatSum(d, choices[1..], others);
    assert |choices[1..]| as real == 5.0;
  }

  /** An accepted axis answer that meets the floor exactly. */
  lemma FloorAnswer(answers: map<string, Answer>)
    requires "visual" in answers
    requires answers["visual"] == Answer("0", Some(Flat(LEVELS, "0", FLOOR + MAX_TOLERANCE)), NotANumber)
    ensures
      var d := Flat(LEVELS, "0", FLOOR + MAX_TOLERANCE);
      && ValidatedChoice(answers, Question("visual", LEVELS)) == Ok(Validated("0", Some(d), None))
      && P(d, "0") == FLOOR
  {
    hide Sum, Largest;
    ZeroIsFirst();
    FlatParts(LEVELS, FLOOR + MAX_TOLERANCE);
    FloorIs();
    assert "0" in LEVELS;
  }

  /** An answer without a distribution. */
  function Bare(choice: string): Answer {
    Answer(choice, None, NotANumber)
  }

  function FloorAnswers(): map<string, Answer> {
    map["visual" := Answer("0", Some(Flat(LEVELS, "0", FLOOR + MAX_TOLERANCE)), NotANumber),
        "architecture" := Bare("0"), "coding" := Bare("0"), "risk" := Bare("0"),
        "effort" := Bare("low"), "lease" := Bare("one_call")]
  }

  lemma BareAccepted(answers: map<string, Answer>, q: Question)
    requires q.name in answers && q.choices != [] && answers[q.name] == Bare(q.choices[0])
    ensures ValidatedChoice(answers, q) == Ok(Validated(q.choices[0], None, None))
  {
  }

  lemma {:induction false} BareRest(answers: map<string, Answer>, questions: seq<Question>)
    requires forall q | q in questions :: q.name in answers && q.choices != [] && answers[q.name] == Bare(q.choices[0])
    ensures ValidateAll(answers, questions).Ok? && LeastChosen(ValidateAll(answers, questions).value) == None
    decreases |questions|
  {
    if questions != [] {
      BareAccepted(answers, questions[0]);
      BareRest(answers, questions[1..]);
      var first := Validated(questions[0].choices[0], None, None);
      assert ([first] + ValidateAll(answers, questions[1..]).value)[1..] == ValidateAll(answers, questions[1..]).value;
    }
  }

  lemma FloorAnswersAre()
    ensures
      var answers := FloorAnswers();
      && "visual" in answers
      && answers["visual"] == Answer("0", Some(Flat(LEVELS, "0", FLOOR + MAX_TOLERANCE)), NotANumber)
      && forall q | q in QUESTIONS[1..] :: q.name in answers && q.choices != [] && answers[q.name] == Bare(q.choices[0])
  {
    hide Flat, Bare;
    assert QUESTIONS[1..] == [
      Question("architecture", LEVELS), Question("coding", LEVELS), Question("risk", LEVELS),
      Question("effort", ["low", "medium", "high", "xhigh", "max"]),
      Question("lease", ["one_call", "tool_chain", "user_turn"])];
  }

  /** A full set of accepted answers whose chosen probability is the floor: the bound cannot be raised. */
  lemma FloorIsReached()
    ensures ChosenProbability(FloorAnswers()) == Ok(Some(FLOOR))
  {
    hide ValidatedChoice, Flat, FloorAnswers;
    var answers := FloorAnswers();
    FloorAnswersAre();
    FloorAnswer(answers);
    BareRest(answers, QUESTIONS[1..]);
    var first := Validated("0", Some(Flat(LEVELS, "0", FLOOR + MAX_TOLERANCE)), None);
    var rest := ValidateAll(answers, QUESTIONS[1..]).value;
    assert ([first] + rest)[1..] == rest;
    assert QUESTIONS[0] == Question("visual", LEVELS);
  }

  lemma ZeroIsFirst()
    ensures |LEVELS| == 6 && LEVELS[0] == "0" && forall i | 0 < i < 6 :: LEVELS[i] != LEVELS[0]
  {
    assert LEVELS[1][0] == '1' && LEVELS[2][0] == '2' && LEVELS[3][0] == '3' && LEVELS[4][0] == '4';
    assert LEVELS[5][0] == 'u';
    assert LEVELS[0][0] == '0';
  }
}
