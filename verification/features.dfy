/** The six battle statistics used as clustering features, and their fixed
    declaration order (Pokemon_peso_poder.py:78). The order matters: it is the
    column order of the centroid summary, and so the tie-break order of the
    dominant-attribute rule. */
module Features {

  datatype Feature = Hp | Attack | Defense | Speed | SpecialAttack | SpecialDefense

  /** The feature list, in declaration order. */
  const Order: seq<Feature> := [Hp, Attack, Defense, Speed, SpecialAttack, SpecialDefense]

  /** The column name the dataset uses for a feature. */
  function Name(f: Feature): string {
    match f
    case Hp => "hp"
    case Attack => "attack"
    case Defense => "defense"
    case Speed => "speed"
    case SpecialAttack => "special-attack"
    case SpecialDefense => "special-defense"
  }

  /** The position of a feature in the feature list. */
  function Index(f: Feature): (i: nat)
    ensures i < |Order| && Order[i] == f
  {
    match f
    case Hp => 0
    case Attack => 1
    case Defense => 2
    case Speed => 3
    case SpecialAttack => 4
    case SpecialDefense => 5
  }

  /** Every position of the list holds the feature whose index it is, so the
      list names each feature exactly once. */
  lemma IndexOfOrder(i: int)
    requires 0 <= i < |Order|
    ensures Index(Order[i]) == i
  {
  }

  /** Column names tell features apart. */
  lemma NameInjective(f: Feature, g: Feature)
    ensures Name(f) == Name(g) <==> f == g
  {
  }
}
