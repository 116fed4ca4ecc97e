/** The repeat-avoiding draw of `loadNewCar`: `cars.random()` is called again
    and again until it yields a car other than the previous one. The random
    source is a stream of table indices supplied from outside; the draw stops at
    the first index whose car differs from the previous car, and never stops on
    a stream that has none. */
module CarDraw {
  import opened Wrappers
  import opened Content

  /** Every draw is a valid index into the table, as `random()` guarantees. */
  predicate DrawsInRange(draws: seq<nat>, n: nat) {
    forall j :: 0 <= j < |draws| ==> draws[j] < n
  }

  /** The position, at or after `i`, of the first draw naming a car other than
      `previous`: the one at which the do-while loop exits. `None` when the
      remaining stream only ever repeats `previous`. */
  function FirstAcceptedFrom(cars: seq<Car>, previous: Car, draws: seq<nat>, i: nat): (r: Option<nat>)
    requires DrawsInRange(draws, |cars|) && i <= |draws|
    ensures r.Some? ==> i <= r.value < |draws| && cars[draws[r.value]] != previous
    ensures r.Some? ==> forall j :: i <= j < r.value ==> cars[draws[j]] == previous
    ensures r.None? <==> forall j :: i <= j < |draws| ==> cars[draws[j]] == previous
    decreases |draws| - i
  {
    if i == |draws| then None
    else if cars[draws[i]] != previous then Some(i)
    else FirstAcceptedFrom(cars, previous, draws, i + 1)
  }

  /** The position of the draw that ends the loop of `loadNewCar`. */
  function FirstAccepted(cars: seq<Car>, previous: Car, draws: seq<nat>): Option<nat>
    requires DrawsInRange(draws, |cars|)
  {
    FirstAcceptedFrom(cars, previous, draws, 0)
  }

  /** A table in which every car equals the previous one (a one-entry table,
      for instance) never lets the loop exit, whatever the random stream. */
  lemma NoOtherCarNeverStops(cars: seq<Car>, previous: Car, draws: seq<nat>)
    requires DrawsInRange(draws, |cars|)
    requires forall k :: 0 <= k < |cars| ==> cars[k] == previous
    ensures FirstAccepted(cars, previous, draws) == None
  {
  }

  /** Conversely, as soon as the table holds a car other than the previous one,
      some random stream (one drawing that car first) makes the loop exit, and
      every stream that draws such a car at all makes it exit at that draw or
      an earlier one. */
  lemma OtherCarStops(cars: seq<Car>, previous: Car, draws: seq<nat>, j: nat)
    requires DrawsInRange(draws, |cars|)
    requires j < |draws| && cars[draws[j]] != previous
    ensures FirstAccepted(cars, previous, draws).Some?
    ensures FirstAccepted(cars, previous, draws).value <= j
    ensures FirstAccepted(cars, previous, [draws[j]]) == Some(0)
  {
  }

  /** The do-while loop can end at all exactly when the table holds a car other
      than the previous one. */
  lemma LoopCanEndIff(cars: seq<Car>, previous: Car)
    ensures (exists draws :: DrawsInRange(draws, |cars|) && FirstAccepted(cars, previous, draws).Some?)
        <==> (exists k :: 0 <= k < |cars| && cars[k] != previous)
  {
    if k :| 0 <= k < |cars| && cars[k] != previous {
      assert DrawsInRange([k], |cars|) && FirstAccepted(cars, previous, [k]).Some?;
    }
  }
}
