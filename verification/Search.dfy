/** The first element of a list with a given key. */
module Search {
  /** Its position, or the length if there is none. */
  function FirstWith<T, K(==)>(xs: seq<T>, key: T -> K, k: K): (i: nat)
    ensures i <= |xs| && (i < |xs| ==> key(xs[i]) == k)
    ensures forall j :: 0 <= j < i ==> key(xs[j]) != k
  {
    if xs == [] || key(xs[0]) == k then 0 else 1 + FirstWith(xs[1..], key, k)
  }
}
