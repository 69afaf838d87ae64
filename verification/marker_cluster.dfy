/**
 * The cluster icon of the map (`MarkerClusterGroup.tsx`): its size class
 * and its width in pixels, chosen from the number of markers in the
 * cluster.
 */
module MarkerCluster {
  datatype Size = Small | Medium | Large

  /** The size class and the width for a cluster of `count` markers. */
  function Tier(count: int): (t: (Size, int))
    ensures count < 10 ==> t == (Small, 30)
    ensures 10 <= count < 20 ==> t == (Medium, 40)
    ensures count >= 20 ==> t == (Large, 50)
  {
    if count >= 20 then (Large, 50)
    else if count >= 10 then (Medium, 40)
    else (Small, 30)
  }

  /** `iconCreateFunction`: starts small, then each threshold the count
      reaches overrides the previous choice. */
  method IconCreate(count: int) returns (size: Size, dimensions: int)
    ensures (size, dimensions) == Tier(count)
  {
    size := Small;
    dimensions := 30;
    if count >= 10 {
      size := Medium;
      dimensions := 40;
    }
    if count >= 20 {
      size := Large;
      dimensions := 50;
    }
  }

  /** A bigger cluster is never drawn smaller. */
  lemma DimensionMonotone(a: int, b: int)
    requires a <= b
    ensures Tier(a).1 <= Tier(b).1
  {
  }
}
