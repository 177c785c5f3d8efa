/** Lists of distinct things, and taking one thing out of them. */
module Lists {

  ghost predicate Distinct<T>(s: seq<T>) {
    forall i, j :: 0 <= i < j < |s| ==> s[i] != s[j]
  }

  /** Without the first occurrence of `e`. */
  ghost function Without<N>(s: seq<N>, e: N): (r: seq<N>) {
    if s == [] then [] else if s[0] == e then s[1..] else [s[0]] + Without(s[1..], e)
  }

  lemma {:induction false} WithoutAt<N>(s: seq<N>, e: N, k: nat)
    requires k < |s| && s[k] == e && e !in s[..k]
    ensures Without(s, e) == s[..k] + s[k + 1..]
  {
    if k > 0 {
      assert s[0] == s[..k][0];
      assert s[1..][..k - 1] == s[..k][1..];
      WithoutAt(s[1..], e, k - 1);
    }
  }

  /** Taking one of several distinct entries out of a list keeps the others, still distinct. */
  lemma WithoutDistinct<N>(s: seq<N>, e: N)
    requires e in s && forall i, j :: 0 <= i < j < |s| ==> s[i] != s[j]
    ensures forall x :: x in Without(s, e) ==> x in s && x != e
    ensures forall x :: x in s && x != e ==> x in Without(s, e)
    ensures forall i, j :: 0 <= i < j < |Without(s, e)| ==> Without(s, e)[i] != Without(s, e)[j]
  {
    var k :| 0 <= k < |s| && s[k] == e;
    WithoutAt(s, e, k);
    var w := s[..k] + s[k + 1..];
    forall x | x in s && x != e ensures x in w {
      var i :| 0 <= i < |s| && s[i] == x;
      assert x == if i < k then w[i] else w[i - 1];
    }
  }

  function Skip(k: nat, i: nat): nat { if i < k then i else i + 1 }

  /** What is left stands in the order it stood in: only place `k` is skipped. */
  lemma WithoutOrder<N>(s: seq<N>, e: N) returns (k: nat)
    requires e in s
    ensures k < |s| && |Without(s, e)| == |s| - 1
    ensures forall i: nat :: i < |s| - 1 ==> Without(s, e)[i] == s[Skip(k, i)]
  {
    k := Position(s, e);
    WithoutAt(s, e, k);
    hide Without, Position;
  }

  ghost function Position<N>(s: seq<N>, e: N): (k: nat)
    requires e in s
    ensures k < |s| && s[k] == e && e !in s[..k]
  {
    if s[0] == e then 0
    else
      var k := Position(s[1..], e) + 1;
      assert s[..k] == [s[0]] + s[1..][..k - 1];
      k
  }

  lemma {:induction false} WithoutConcat<N>(a: seq<N>, b: seq<N>, e: N)
    ensures Without(a + b, e) == if e in a then Without(a, e) + b else a + Without(b, e)
  {
    hide Position, Skip;
    if a == [] {
      assert a + b == b;
    } else {
      assert (a + b)[0] == a[0] && (a + b)[1..] == a[1..] + b;
      if a[0] != e {
        WithoutConcat(a[1..], b, e);
        assert e in a <==> e in a[1..];
        assert [a[0]] + (Without(a[1..], e) + b) == [a[0]] + Without(a[1..], e) + b;
        assert [a[0]] + (a[1..] + Without(b, e)) == a + Without(b, e);
      }
    }
  }

  lemma WithoutAbsent<N>(s: seq<N>, e: N)
    ensures e !in s ==> Without(s, e) == s
  {
  }
}
