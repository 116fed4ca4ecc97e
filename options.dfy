/** The four answer buttons of a round: three decoy brands drawn from the
    brand list, the correct brand added, the four shuffled, and laid out as
    two rows of two. Each `shuffled()` is given as the permutation it applied. */
module AnswerOptions {
  import opened Collections
  import opened Content

  /** How many decoys `take(3)` keeps from the brands other than the correct one. */
  function DecoyCount(allBrands: seq<Brand>, correct: Brand): nat {
    Min(3, |Without(allBrands, correct)|)
  }

  /** `(allBrands.filter { it != correct }.shuffled().take(3) + correct).shuffled()`,
      with `poolOrder` the order of the first shuffle and `optionOrder` that of
      the second. */
  function BuildOptions(allBrands: seq<Brand>, correct: Brand, poolOrder: seq<nat>, optionOrder: seq<nat>): (options: seq<Brand>)
    requires IsPermutation(poolOrder, |Without(allBrands, correct)|)
    requires IsPermutation(optionOrder, DecoyCount(allBrands, correct) + 1)
    ensures |options| == DecoyCount(allBrands, correct) + 1
    ensures correct in options
    ensures forall b :: b in options && b != correct ==> b in allBrands
    ensures Distinct(allBrands) ==> Distinct(options)
  {
    var decoys := Take(Permute(Without(allBrands, correct), poolOrder), 3);
    TakeKeepsElements(Permute(Without(allBrands, correct), poolOrder), 3);
    assert correct !in decoys;
    assert Distinct(allBrands) ==> Distinct(decoys + [correct]) by {
      if Distinct(allBrands) {
        forall i, j | 0 <= i < j < |decoys + [correct]|
          ensures (decoys + [correct])[i] != (decoys + [correct])[j]
        {
          if j == |decoys| { assert (decoys + [correct])[i] in decoys; }
        }
      }
    }
    assert forall b :: b in decoys + [correct] && b != correct ==> b in allBrands;
    Permute(decoys + [correct], optionOrder)
  }

  /** With a repeat-free brand list that holds at least three brands other than
      the correct one, a round offers exactly four distinct brands: the correct
      brand at exactly one position and listed brands other than it at the
      other three. */
  lemma FourDistinctOptions(allBrands: seq<Brand>, correct: Brand, poolOrder: seq<nat>, optionOrder: seq<nat>)
    requires Distinct(allBrands) && |Without(allBrands, correct)| >= 3
    requires IsPermutation(poolOrder, |Without(allBrands, correct)|)
    requires IsPermutation(optionOrder, 4)
    ensures var options := BuildOptions(allBrands, correct, poolOrder, optionOrder);
      |options| == 4 && Distinct(options) &&
      exists k :: 0 <= k < 4 && options[k] == correct &&
        forall i :: 0 <= i < 4 && i != k ==> options[i] != correct && options[i] in allBrands
  {
    var options := BuildOptions(allBrands, correct, poolOrder, optionOrder);
    var k :| 0 <= k < 4 && options[k] == correct;
    assert forall i :: 0 <= i < 4 && i != k ==> options[i] != correct && options[i] in allBrands;
  }

  /** The two rows of buttons: `options.take(2)` on top, `options.takeLast(2)` below. */
  function ButtonRows(options: seq<Brand>): (rows: (seq<Brand>, seq<Brand>))
    ensures |options| == 4 ==> rows.0 + rows.1 == options
  {
    (Take(options, 2), TakeLast(options, 2))
  }

  /** With four distinct options every option gets exactly one button: it is in
      one row and not in the other. */
  lemma OneButtonPerOption(options: seq<Brand>)
    requires |options| == 4 && Distinct(options)
    ensures forall b :: b in options <==> (b in ButtonRows(options).0) != (b in ButtonRows(options).1)
    ensures forall b :: b in ButtonRows(options).0 + ButtonRows(options).1 ==> b in options
  {
    var rows := ButtonRows(options);
    assert rows.0 == options[..2] && rows.1 == options[2..];
  }

  /** With the static tables, every car's round offers four distinct brands. */
  lemma StaticRoundOptions(car: Car, poolOrder: seq<nat>, optionOrder: seq<nat>)
    requires car in Cars
    requires IsPermutation(poolOrder, |Without(AllBrands, car.brand)|)
    requires IsPermutation(optionOrder, 4)
    ensures var options := BuildOptions(AllBrands, car.brand, poolOrder, optionOrder);
      |options| == 4 && Distinct(options) && car.brand in options
  {
    StaticTables();
    FourDistinctOptions(AllBrands, car.brand, poolOrder, optionOrder);
  }
}
