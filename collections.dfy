/** The operations of Doctrine's ArrayCollection that the cart and the
    wishlist rely on, over sequences in insertion order. `contains` and
    `removeElement` compare with `===`, which for entities is object
    identity and for the ids here is integer equality. */
module Collections {

  /** No element occurs twice. */
  predicate Distinct<T(==)>(s: seq<T>) {
    forall i, j :: 0 <= i < j < |s| ==> s[i] != s[j]
  }

  /** The index of the first occurrence of `x` in `s`, or `|s|` when `x` does
      not occur (PHP's `array_search` with strict comparison). */
  function IndexOf<T(==)>(s: seq<T>, x: T): (k: nat)
    ensures k <= |s|
    ensures k < |s| <==> x in s
    ensures k < |s| ==> s[k] == x
    ensures forall j :: 0 <= j < k ==> s[j] != x
  {
    if s == [] then 0
    else if s[0] == x then 0
    else 1 + IndexOf(s[1..], x)
  }

  /** `ArrayCollection::removeElement`: drops the first occurrence of `x`, if any. */
  function RemoveElement<T(==)>(s: seq<T>, x: T): (r: seq<T>)
    ensures x in s ==> |r| == |s| - 1 && multiset(r) == multiset(s) - multiset{x}
    ensures x !in s ==> r == s
  {
    var k := IndexOf(s, x);
    if k < |s| then
      assert s == s[..k] + [s[k]] + s[k + 1..];
      s[..k] + s[k + 1..]
    else s
  }

  /** Where the elements after the removed one end up: one place earlier. */
  lemma RemoveElementShift<T>(s: seq<T>, x: T)
    requires x in s
    ensures var k := IndexOf(s, x); var r := RemoveElement(s, x);
      forall i :: 0 <= i < |r| ==> r[i] == s[if i < k then i else i + 1]
  {
    var k := IndexOf(s, x);
    var r := RemoveElement(s, x);
    assert r == s[..k] + s[k + 1..];
    forall i | 0 <= i < |r| ensures r[i] == s[if i < k then i else i + 1] {
      if i < k {
        assert r[i] == s[..k][i];
      } else {
        assert r[i] == s[k + 1..][i - k];
      }
    }
  }

  /** Removing an element keeps every other element's presence as it was. */
  lemma RemoveElementKeeps<T>(s: seq<T>, x: T)
    ensures forall y :: y != x ==> (y in RemoveElement(s, x) <==> y in s)
  {
    if x in s {
      var k := IndexOf(s, x);
      var r := RemoveElement(s, x);
      RemoveElementShift(s, x);
      forall y | y in r ensures y in s {
        var i :| 0 <= i < |r| && r[i] == y;
        assert s[if i < k then i else i + 1] == y;
      }
      forall y | y != x && y in s ensures y in r {
        var i :| 0 <= i < |s| && s[i] == y;
        if i < k { assert r[i] == y; } else { assert r[i - 1] == y; }
      }
    }
  }

  /** In a sequence without duplicates, removing an element removes it
      entirely and introduces no duplicate. */
  lemma RemoveElementDistinct<T>(s: seq<T>, x: T)
    requires Distinct(s)
    ensures Distinct(RemoveElement(s, x))
    ensures x !in RemoveElement(s, x)
  {
    if x in s {
      var k := IndexOf(s, x);
      var r := RemoveElement(s, x);
      RemoveElementShift(s, x);
      forall i, j | 0 <= i < j < |r| ensures r[i] != r[j] {
        assert r[i] == s[if i < k then i else i + 1];
        assert r[j] == s[if j < k then j else j + 1];
      }
      forall i | 0 <= i < |r| ensures r[i] != x {
        assert r[i] == s[if i < k then i else i + 1];
      }
    }
  }
}
