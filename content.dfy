/** The static content of the quiz: the car table and the brand list, both
    fixed when the screen is composed and never changed. */
module Content {
  import opened Collections

  type Brand = string

  /** A `Pair<String, String>` of the car table: the drawable name of the car's
      image (`jeep_jeep`, model then brand) and the brand that answers the round.
      Two cars are the same exactly when both components agree, as for a Kotlin `Pair`. */
  datatype Car = Car(id: string, brand: Brand)

  /** The car table, in source order. */
  const Cars: seq<Car> := [
    Car("jeep_jeep", "Jeep"),
    Car("celta_chevrolet", "Chevrolet")
  ]

  /** Every brand that may appear as an option, in source order. */
  const AllBrands: seq<Brand> := ["Toyota", "Chevrolet", "Audi", "Volkswagen", "Jeep"]

  /** What the rest of the model relies on from the two tables: every car has
      some other car to move to, the brand list has no repeats, and every car's
      brand is listed with at least three other brands beside it. */
  lemma StaticTables()
    ensures forall c :: c in Cars ==> exists k :: 0 <= k < |Cars| && Cars[k] != c
    ensures Distinct(AllBrands)
    ensures forall c :: c in Cars ==> c.brand in AllBrands && |Without(AllBrands, c.brand)| >= 3
  {
    assert Cars[0] != Cars[1] by { assert Cars[0].id[0] != Cars[1].id[0]; }
    BrandsDistinct();
    assert Cars[0].brand == AllBrands[4];
    assert Cars[1].brand == AllBrands[1];
  }

  lemma BrandsDistinct()
    ensures Distinct(AllBrands)
  {
    var initials := seq(|AllBrands|, i requires 0 <= i < |AllBrands| => AllBrands[i][0]);
    assert initials == "TCAVJ";
    forall i, j | 0 <= i < j < |AllBrands| ensures AllBrands[i] != AllBrands[j] {
      assert initials[i] != initials[j];
    }
  }
}
