/** Chunk lists: the abstract contents of a ring. */
module Lists {
  predicate Distinct(L: seq<int>) {
    forall j, k | 0 <= j < k < |L| :: L[j] != L[k]
  }

  /** The successor of L[k] in the ring L. */
  function Nxt(L: seq<int>, k: nat): int
    requires k < |L|
  {
    if k + 1 < |L| then L[k + 1] else L[0]
  }

  function Prv(L: seq<int>, k: nat): int
    requires k < |L|
  {
    if k > 0 then L[k - 1] else L[|L| - 1]
  }

  function Without(L: seq<int>, j: nat): seq<int>
    requires j < |L|
  {
    L[..j] + L[j + 1..]
  }

  function IndexOf(L: seq<int>, x: int): (j: nat)
    requires x in L
    ensures j < |L| && L[j] == x
  {
    if L[0] == x then 0 else 1 + IndexOf(L[1..], x)
  }

  lemma WithoutDistinct(L: seq<int>, j: nat)
    requires Distinct(L) && j < |L|
    ensures Distinct(Without(L, j)) && L[j] !in Without(L, j)
    ensures forall p :: p in Without(L, j) <==> p in L && p != L[j]
  {
    var M := Without(L, j);
    forall p | p in L && p != L[j] ensures p in M {
      var i :| 0 <= i < |L| && L[i] == p;
      assert M[if i < j then i else i - 1] == p;
    }
  }
}
