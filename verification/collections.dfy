/** Operations on ordered lists that the source takes from the .NET collection classes. */
module Collections {

  /** True when no element occurs twice. */
  predicate Distinct<T(==)>(s: seq<T>)
  {
    forall i, j | 0 <= i < j < |s| :: s[i] != s[j]
  }

  /** Position of the first element equal to `x`, or `|s|` when there is none. */
  function FirstIndex<T(==)>(s: seq<T>, x: T): (k: nat)
    ensures k <= |s|
    ensures k < |s| ==> s[k] == x
    ensures forall j | 0 <= j < k :: s[j] != x
    ensures k == |s| <==> x !in s
  {
    if s == [] then 0
    else if s[0] == x then 0
    else 1 + FirstIndex(s[1..], x)
  }

  /**
   * `List<T>.Remove(x)`: removes the first element equal to `x`; the list is
   * unchanged when `x` is absent.
   */
  function RemoveFirst<T(==)>(s: seq<T>, x: T): (r: seq<T>)
    ensures x !in s ==> r == s
    ensures x in s ==> |r| == |s| - 1
    ensures multiset(r) == multiset(s) - multiset{x}
  {
    var k := FirstIndex(s, x);
    if k == |s| then s
    else
      assert s == s[..k] + [s[k]] + s[k + 1..];
      s[..k] + s[k + 1..]
  }

  /** The first occurrence of an element is the one `RemoveFirst` drops. */
  lemma RemoveFirstAt<T>(s: seq<T>, k: nat)
    requires k < |s| && forall j | 0 <= j < k :: s[j] != s[k]
    ensures RemoveFirst(s, s[k]) == s[..k] + s[k + 1..]
  {
    var j := FirstIndex(s, s[k]);
    assert !(j < k);
    assert j == k;
  }

  /** Removing an element just appended to a list that lacked it gives the list back. */
  lemma RemoveFirstAppended<T>(s: seq<T>, x: T)
    requires x !in s
    ensures RemoveFirst(s + [x], x) == s
  {
    var t := s + [x];
    assert forall j | 0 <= j < |s| :: t[j] != t[|s|];
    RemoveFirstAt(t, |s|);
    assert t[..|s|] == s;
  }

  /** Removing an element from a list without repetitions leaves none of it behind. */
  lemma RemoveFirstDistinct<T>(s: seq<T>, x: T)
    requires Distinct(s)
    ensures Distinct(RemoveFirst(s, x))
    ensures x !in RemoveFirst(s, x)
  {
    var r := RemoveFirst(s, x);
    var k := FirstIndex(s, x);
    if k < |s| {
      assert r == s[..k] + s[k + 1..];
      forall i, j | 0 <= i < j < |r| ensures r[i] != r[j] {
        var i' := if i < k then i else i + 1;
        var j' := if j < k then j else j + 1;
        assert r[i] == s[i'] && r[j] == s[j'];
      }
      forall i | 0 <= i < |r| ensures r[i] != x {
        var i' := if i < k then i else i + 1;
        assert r[i] == s[i'];
      }
    }
  }
}
