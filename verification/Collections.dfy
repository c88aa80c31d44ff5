/** Facts about sequences and sets that several components use. */
module Collections {

  function Flatten<T>(s: seq<seq<T>>): seq<T> {
    if s == [] then [] else s[0] + Flatten(s[1..])
  }

  lemma {:induction false} FlattenSnoc<T>(s: seq<seq<T>>, last: seq<T>)
    ensures Flatten(s + [last]) == Flatten(s) + last
  {
    if s == [] {
      assert [last][1..] == [];
    } else {
      assert (s + [last])[1..] == s[1..] + [last];
      FlattenSnoc(s[1..], last);
      Associate(s[0], Flatten(s[1..]), last);
    }
  }

  lemma {:induction false} Associate<T>(a: seq<T>, b: seq<T>, c: seq<T>)
    ensures a + b + c == a + (b + c)
  {
    assert a + b + c == a + (b + c);
  }

  lemma {:induction false} SubsetSize<T>(a: set<T>, b: set<T>)
    requires a <= b
    ensures |a| <= |b|
  {
    assert b == a + (b - a);
    assert |b| == |a| + |b - a|;
  }
}
