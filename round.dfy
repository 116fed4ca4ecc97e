/** The quiz round as a state machine over the six state fields of the screen,
    plus the coroutines launched by answers and the log of what was spoken.
    Each transition is a function from the session before to the session after;
    the screen's methods are proved to follow them. */
module Round {
  import opened Collections
  import opened Content
  import opened Speech
  import opened AnswerOptions

  datatype Session = Session(
    gameStarted: bool,
    selectedCar: Car,
    correctBrand: Brand,
    feedbackText: string,
    timeUp: bool,
    previousCar: Car,
    pendingAdvances: nat,   // delayed `loadNewCar` coroutines launched and not yet run
    spoken: seq<string>     // every utterance handed to the speech engine, oldest first
  )

  function CorrectFeedback(correctBrand: Brand): string {
    "Correto! A marca é " + correctBrand
  }

  function WrongFeedback(correctBrand: Brand): string {
    "Errado! A marca correta é " + correctBrand
  }

  /** The feedback label after answering `brand`. */
  function FeedbackText(brand: Brand, correctBrand: Brand): (text: string)
    ensures text == CorrectFeedback(correctBrand) <==> brand == correctBrand
    ensures text == WrongFeedback(correctBrand) <==> brand != correctBrand
    ensures |text| > |correctBrand| && text[|text| - |correctBrand|..] == correctBrand
  {
    assert CorrectFeedback(correctBrand)[0] != WrongFeedback(correctBrand)[0];
    if brand == correctBrand then CorrectFeedback(correctBrand) else WrongFeedback(correctBrand)
  }

  /** The session when the screen is first composed, `firstPick` being the
      result of the initial `cars.random()`. */
  function Initial(firstPick: Car): Session {
    Session(false, firstPick, firstPick.brand, "", false, firstPick, 0, [])
  }

  /** The state updates of `loadNewCar` once its loop has settled on `newCar`. */
  function Loaded(s: Session, newCar: Car): Session {
    s.(selectedCar := newCar, previousCar := newCar, correctBrand := newCar.brand,
       feedbackText := "", timeUp := false, spoken := s.spoken + [Prompt(newCar.id)])
  }

  /** `startGame`. */
  function Started(s: Session, newCar: Car): Session {
    Loaded(s.(gameStarted := true), newCar)
  }

  /** The click handler of an answer button showing `brand`. Once `timeUp` is
      set it does nothing; otherwise it sets the feedback, speaks it, sets
      `timeUp` and launches one delayed `loadNewCar`. */
  function Answered(s: Session, brand: Brand): (r: Session)
    ensures s.timeUp ==> r == s
    ensures !s.timeUp ==> r.timeUp && r.pendingAdvances == s.pendingAdvances + 1
    ensures !s.timeUp ==> (r.feedbackText == CorrectFeedback(s.correctBrand) <==> brand == s.correctBrand)
    ensures !s.timeUp ==> (r.feedbackText == WrongFeedback(s.correctBrand) <==> brand != s.correctBrand)
    ensures r.selectedCar == s.selectedCar && r.previousCar == s.previousCar
    ensures r.correctBrand == s.correctBrand && r.gameStarted == s.gameStarted
  {
    if s.timeUp then s
    else
      var right := brand == s.correctBrand;
      s.(feedbackText := FeedbackText(brand, s.correctBrand), timeUp := true,
         pendingAdvances := s.pendingAdvances + 1,
         spoken := s.spoken + [SpokenFeedback(right, s.selectedCar, s.correctBrand)])
  }

  /** The delayed coroutine firing: it runs `loadNewCar`. */
  function Advanced(s: Session, newCar: Car): Session
    requires s.pendingAdvances > 0
  {
    Loaded(s.(pendingAdvances := s.pendingAdvances - 1), newCar)
  }

  /** The invariant every reachable session keeps: the shown car is from the
      table and is also the previous car, the correct brand is its brand, the
      feedback is empty exactly while no answer is pending, and one delayed
      advance is pending exactly while `timeUp` is set. */
  ghost predicate Consistent(s: Session) {
    s.selectedCar in Cars &&
    s.previousCar == s.selectedCar &&
    s.correctBrand == s.selectedCar.brand &&
    s.pendingAdvances == (if s.timeUp then 1 else 0) &&
    (s.timeUp ==> s.gameStarted) &&
    (s.timeUp <==> s.feedbackText != "") &&
    (s.timeUp ==> s.feedbackText == CorrectFeedback(s.correctBrand) || s.feedbackText == WrongFeedback(s.correctBrand))
  }

  lemma InitialConsistent(firstPick: Car)
    requires firstPick in Cars
    ensures Consistent(Initial(firstPick))
  {
  }

  lemma StartedConsistent(s: Session, newCar: Car)
    requires Consistent(s) && !s.gameStarted && newCar in Cars
    ensures Consistent(Started(s, newCar)) && Started(s, newCar).gameStarted
  {
  }

  lemma AnsweredConsistent(s: Session, brand: Brand)
    requires Consistent(s) && s.gameStarted
    ensures Consistent(Answered(s, brand))
  {
  }

  lemma AdvancedConsistent(s: Session, newCar: Car)
    requires Consistent(s) && s.pendingAdvances > 0 && newCar in Cars
    ensures Consistent(Advanced(s, newCar))
  {
  }

  /** A second answer before the delayed advance fires changes nothing, whatever
      brand it names: in particular it launches no second advance. */
  lemma SecondAnswerHasNoEffect(s: Session, first: Brand, second: Brand)
    ensures Answered(Answered(s, first), second) == Answered(s, first)
  {
  }

  /** Answering a fresh question: the result is announced on screen and in
      speech, both naming the correct brand, and exactly one advance is pending. */
  lemma AnswerAnnouncesResult(s: Session, brand: Brand)
    requires Consistent(s) && s.gameStarted && !s.timeUp
    ensures var r := Answered(s, brand);
      r.timeUp && r.pendingAdvances == 1 &&
      r.feedbackText == (if brand == s.correctBrand then "Correto! A marca é " else "Errado! A marca correta é ") + s.correctBrand &&
      r.spoken == s.spoken + [SpokenFeedback(brand == s.correctBrand, s.selectedCar, s.correctBrand)]
  {
  }

  /** After a load the screen shows a fresh, unanswered question about the new
      car, and the new car's question is the last thing spoken. */
  lemma LoadedShowsQuestion(s: Session, newCar: Car)
    ensures var r := Loaded(s, newCar);
      r.selectedCar == newCar && r.previousCar == newCar && r.correctBrand == newCar.brand &&
      r.feedbackText == "" && !r.timeUp && r.gameStarted == s.gameStarted &&
      r.pendingAdvances == s.pendingAdvances &&
      r.spoken[|r.spoken| - 1] == "Qual a marca do " + Capitalize(ModelName(newCar.id)) + "?"
  {
  }

  /** A whole round: answering and letting the delay run lands on an
      unanswered question whose car differs from the answered one, provided the
      draw settled on a car other than the previous one. */
  lemma RoundMovesToAnotherCar(s: Session, brand: Brand, newCar: Car)
    requires Consistent(s) && s.gameStarted && !s.timeUp
    requires newCar in Cars && newCar != s.previousCar
    ensures Answered(s, brand).pendingAdvances > 0
    ensures var r := Advanced(Answered(s, brand), newCar);
      Consistent(r) && !r.timeUp && r.feedbackText == "" && r.selectedCar != s.selectedCar
  {
    AnsweredConsistent(s, brand);
    AdvancedConsistent(Answered(s, brand), newCar);
  }

  /** In every reachable session the options of the round are four distinct
      brands, one of them the correct one. */
  lemma ConsistentSessionHasFourOptions(s: Session, poolOrder: seq<nat>, optionOrder: seq<nat>)
    requires Consistent(s)
    requires IsPermutation(poolOrder, |Without(AllBrands, s.correctBrand)|)
    requires IsPermutation(optionOrder, 4)
    ensures var options := BuildOptions(AllBrands, s.correctBrand, poolOrder, optionOrder);
      |options| == 4 && Distinct(options) && s.correctBrand in options
  {
    StaticRoundOptions(s.selectedCar, poolOrder, optionOrder);
  }
}
