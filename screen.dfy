/** The quiz screen's mutable state and the three actions that update it in
    place: the start button, an answer button, and the delayed coroutine that
    loads the next car. Every random draw `cars.random()` reads the next index
    of a caller-supplied stream. */
module Screen {
  import opened Wrappers
  import opened Content
  import opened CarDraw
  import opened Speech
  import opened Round

  class CarQuizScreen {
    var gameStarted: bool
    var selectedCar: Car
    var correctBrand: Brand
    var feedbackText: string
    var timeUp: bool
    var previousCar: Car
    var pendingAdvances: nat
    var spoken: seq<string>

    /** The abstract value of the screen. */
    ghost function State(): Session
      reads this
    {
      Session(gameStarted, selectedCar, correctBrand, feedbackText, timeUp, previousCar, pendingAdvances, spoken)
    }

    ghost predicate Valid()
      reads this
    {
      Consistent(State())
    }

    /** The `remember` initialisers, `firstPick` being the index the first
        `cars.random()` returned. */
    constructor (firstPick: nat)
      requires firstPick < |Cars|
      ensures Valid() && State() == Initial(Cars[firstPick])
    {
      gameStarted := false;
      selectedCar := Cars[firstPick];
      correctBrand := Cars[firstPick].brand;
      feedbackText := "";
      timeUp := false;
      previousCar := Cars[firstPick];
      pendingAdvances := 0;
      spoken := [];
    }

    /** `loadNewCar`: draw a car other than `previousCar`, then show it, clear
        the feedback and `timeUp`, and speak its question. */
    method LoadNewCar(draws: seq<nat>)
      requires DrawsInRange(draws, |Cars|)
      requires FirstAccepted(Cars, previousCar, draws).Some?
      modifies this
      ensures var k := FirstAccepted(Cars, old(previousCar), draws).value;
        State() == Loaded(old(State()), Cars[draws[k]]) && Cars[draws[k]] != old(previousCar)
    {
      var newCar := DrawOtherCar(previousCar, draws);
      selectedCar := newCar;
      previousCar := newCar;
      correctBrand := newCar.brand;
      feedbackText := "";
      timeUp := false;
      spoken := spoken + [Prompt(newCar.id)];
    }

    /** The start button's handler; the button is shown only before the game starts. */
    method StartGame(draws: seq<nat>)
      requires Valid() && !gameStarted
      requires DrawsInRange(draws, |Cars|)
      requires FirstAccepted(Cars, previousCar, draws).Some?
      modifies this
      ensures var k := FirstAccepted(Cars, old(previousCar), draws).value;
        Valid() && State() == Started(old(State()), Cars[draws[k]]) && selectedCar != old(previousCar)
    {
      gameStarted := true;
      LoadNewCar(draws);
      StartedConsistent(old(State()), selectedCar);
    }

    /** An answer button's handler; the buttons are shown only once the game has started. */
    method Answer(brand: Brand)
      requires Valid() && gameStarted
      modifies this
      ensures Valid() && State() == Answered(old(State()), brand)
    {
      if !timeUp {
        var right := brand == correctBrand;
        if right {
          spoken := spoken + [SpokenFeedback(true, selectedCar, correctBrand)];
          feedbackText := CorrectFeedback(correctBrand);
        } else {
          spoken := spoken + [SpokenFeedback(false, selectedCar, correctBrand)];
          feedbackText := WrongFeedback(correctBrand);
        }
        timeUp := true;
        pendingAdvances := pendingAdvances + 1;
      }
      AnsweredConsistent(old(State()), brand);
    }

    /** The launched coroutine running once its 3000 ms delay has passed. */
    method Advance(draws: seq<nat>)
      requires Valid() && pendingAdvances > 0
      requires DrawsInRange(draws, |Cars|)
      requires FirstAccepted(Cars, previousCar, draws).Some?
      modifies this
      ensures var k := FirstAccepted(Cars, old(previousCar), draws).value;
        Valid() && State() == Advanced(old(State()), Cars[draws[k]]) && selectedCar != old(selectedCar)
    {
      pendingAdvances := pendingAdvances - 1;
      LoadNewCar(draws);
      AdvancedConsistent(old(State()), selectedCar);
    }
  }

  /** The do-while loop of `loadNewCar`: call `cars.random()`, reading the
      next index of `draws`, until the car differs from `previous`. The stream
      must contain a draw that ends the loop; on a stream without one (and on
      every stream when no other car exists) the source loops forever. */
  method DrawOtherCar(previous: Car, draws: seq<nat>) returns (newCar: Car)
    requires DrawsInRange(draws, |Cars|)
    requires FirstAccepted(Cars, previous, draws).Some?
    ensures newCar != previous
    ensures newCar == Cars[draws[FirstAccepted(Cars, previous, draws).value]]
  {
    ghost var accepted := FirstAccepted(Cars, previous, draws).value;
    var k := 0;
    newCar := Cars[draws[k]];
    while newCar == previous
      invariant k <= accepted && newCar == Cars[draws[k]]
      decreases accepted - k
    {
      k := k + 1;
      newCar := Cars[draws[k]];
    }
  }

  /** A client of the screen: starting on the jeep, the draw `0` repeats it
      and is rejected, `1` gives the other car; a right answer is then announced. */
  method StartAndAnswer() returns (screen: CarQuizScreen)
    ensures screen.Valid() && screen.selectedCar == Cars[1] && screen.timeUp
  {
    var jeep, celta := Cars[0], Cars[1];
    assert celta != jeep by { assert celta.id[0] != jeep.id[0]; }
    screen := new CarQuizScreen(0);
    assert FirstAccepted(Cars, jeep, [0, 1]) == Some(1);
    screen.StartGame([0, 1]);
    assert screen.selectedCar == celta && screen.correctBrand == "Chevrolet";
    screen.Answer("Chevrolet");
    assert screen.feedbackText == CorrectFeedback("Chevrolet");
  }

  /** Continuing that client: a second tap changes nothing, and the delayed
      advance, after one rejected draw, moves to the other car. */
  method TapAgainThenAdvance(screen: CarQuizScreen)
    requires screen.Valid() && screen.selectedCar == Cars[1] && screen.timeUp
    modifies screen
    ensures screen.Valid() && screen.selectedCar == Cars[0] && !screen.timeUp && screen.feedbackText == ""
  {
    var jeep, celta := Cars[0], Cars[1];
    assert celta != jeep by { assert celta.id[0] != jeep.id[0]; }
    var before := screen.feedbackText;
    screen.Answer("Audi");
    assert screen.feedbackText == before && screen.pendingAdvances == 1;
    assert FirstAccepted(Cars, celta, [1, 0]) == Some(1);
    screen.Advance([1, 0]);
    assert screen.selectedCar == jeep && !screen.timeUp && screen.feedbackText == "";
  }
}
