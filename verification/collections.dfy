/**
 * Ordered collections as held by Doctrine's ArrayCollection: `contains` is
 * membership, `add` appends, and `removeElement` drops the FIRST occurrence
 * and reports whether there was one.
 */
module Collections {

  predicate NoDuplicates<T(==)>(s: seq<T>) {
    forall i, j :: 0 <= i < j < |s| ==> s[i] != s[j]
  }

  /** The position of the first occurrence of `x` in `s`. */
  function FirstIndex<T(==)>(s: seq<T>, x: T): (i: nat)
    requires x in s
    ensures i < |s| && s[i] == x
    ensures forall j :: 0 <= j < i ==> s[j] != x
  {
    if s[0] == x then 0 else 1 + FirstIndex(s[1..], x)
  }

  datatype Removal<T> = Removal(rest: seq<T>, removed: bool)

  /** ArrayCollection::removeElement. */
  function RemoveElement<T(==)>(s: seq<T>, x: T): (r: Removal<T>)
    ensures r.removed <==> x in s
    ensures !r.removed ==> r.rest == s
    ensures r.removed ==>
              exists i :: 0 <= i < |s| && s[i] == x && x !in s[..i] && r.rest == s[..i] + s[i + 1..]
    ensures multiset(r.rest) == multiset(s) - multiset{x}
    ensures forall y :: y in r.rest ==> y in s
    ensures forall y :: y in s && y != x ==> y in r.rest
  {
    if x in s then
      var i := FirstIndex(s, x);
      assert s == s[..i] + [x] + s[i + 1..];
      assert multiset(s) == multiset(s[..i]) + multiset{x} + multiset(s[i + 1..]);
      Removal(s[..i] + s[i + 1..], true)
    else
      assert multiset(s)[x] == 0;
      Removal(s, false)
  }

  /** Removing from a duplicate-free collection leaves the element absent and no duplicates. */
  lemma RemoveFromNoDuplicates<T>(s: seq<T>, x: T)
    requires NoDuplicates(s)
    ensures x !in RemoveElement(s, x).rest
    ensures NoDuplicates(RemoveElement(s, x).rest)
  {
    if x in s {
      var i := FirstIndex(s, x);
      var r := s[..i] + s[i + 1..];
      assert RemoveElement(s, x).rest == r;
      assert x !in s[i + 1..] by {
        forall k | i + 1 <= k < |s| ensures s[k] != x {
          assert s[i] != s[k];
        }
      }
      forall a, b | 0 <= a < b < |r| ensures r[a] != r[b] {
        var a' := if a < i then a else a + 1;
        var b' := if b < i then b else b + 1;
        assert r[a] == s[a'] && r[b] == s[b'];
      }
    }
  }

  /** Appending an absent element keeps a collection duplicate-free. */
  lemma AppendAbsentKeepsNoDuplicates<T>(s: seq<T>, x: T)
    requires NoDuplicates(s) && x !in s
    ensures NoDuplicates(s + [x])
  {
  }
}
