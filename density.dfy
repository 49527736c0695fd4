/** The five Android screen-density buckets both plugins export to. */
module Density {

  datatype Tier = MDPI | HDPI | XHDPI | XXHDPI | XXXHDPI

  /** Position of a tier from the lowest density (0) to the highest (4). */
  function Rank(t: Tier): nat {
    match t
    case MDPI => 0
    case HDPI => 1
    case XHDPI => 2
    case XXHDPI => 3
    case XXXHDPI => 4
  }

  /** The number of 'x' in a tier's name: the folder names of two tiers
      first differ right after that many characters past their common
      prefix. */
  function XCount(t: Tier): nat {
    match t
    case MDPI => 0
    case HDPI => 0
    case XHDPI => 1
    case XXHDPI => 2
    case XXXHDPI => 3
  }

  function Min(a: nat, b: nat): nat {
    if a <= b then a else b
  }

  /** The order in which both `effect` methods produce the tiers. */
  const Order: seq<Tier> := [MDPI, HDPI, XHDPI, XXHDPI, XXXHDPI]

  /** `Order` lists every tier exactly once, by increasing density. */
  lemma OrderIsByRank()
    ensures |Order| == 5
    ensures forall i | 0 <= i < |Order| :: Rank(Order[i]) == i
    ensures forall t: Tier :: Order[Rank(t)] == t
  {
  }
}
