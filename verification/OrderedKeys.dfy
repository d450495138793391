/** Strictly ordered key sequences, ascending or descending: what `sorted` returns for a set and
    what a sorted dictionary keeps for its keys. */
module OrderedKeys {

  predicate Before(descending: bool, a: real, b: real)
  {
    if descending then a > b else a < b
  }

  ghost predicate Ordered(descending: bool, ks: seq<real>)
  {
    forall i, j :: 0 <= i < j < |ks| ==> Before(descending, ks[i], ks[j])
  }

  lemma OrderedTail(descending: bool, ks: seq<real>)
    requires Ordered(descending, ks) && |ks| > 0
    ensures Ordered(descending, ks[1..])
    ensures forall y :: y in ks[1..] ==> Before(descending, ks[0], y)
    ensures ks[0] !in ks[1..]
    ensures forall y :: y in ks <==> y == ks[0] || y in ks[1..]
  {
    assert forall j :: 0 <= j < |ks| - 1 ==> ks[1..][j] == ks[j + 1];
    assert ks == [ks[0]] + ks[1..];
  }

  lemma OrderedCons(descending: bool, x: real, ks: seq<real>)
    requires Ordered(descending, ks) && forall y :: y in ks ==> Before(descending, x, y)
    ensures Ordered(descending, [x] + ks)
  {
    var r := [x] + ks;
    forall i, j | 0 <= i < j < |r|
      ensures Before(descending, r[i], r[j])
    {
      assert r[j] == ks[j - 1] && r[j] in ks;
    }
  }

  /** ks with k at its place; a key already present is not repeated. */
  function Insert(descending: bool, ks: seq<real>, k: real): seq<real>
  {
    if |ks| == 0 then [k]
    else if k == ks[0] then ks
    else if Before(descending, k, ks[0]) then [k] + ks
    else [ks[0]] + Insert(descending, ks[1..], k)
  }

  lemma {:induction false} InsertOrdered(descending: bool, ks: seq<real>, k: real)
    requires Ordered(descending, ks)
    ensures Ordered(descending, Insert(descending, ks, k))
    ensures forall x :: x in Insert(descending, ks, k) <==> x in ks || x == k
    ensures |Insert(descending, ks, k)| == |ks| + if k in ks then 0 else 1
  {
    if |ks| == 0 {
    } else {
      OrderedTail(descending, ks);
      if k != ks[0] {
        if Before(descending, k, ks[0]) {
          OrderedCons(descending, k, ks);
        } else {
          InsertOrdered(descending, ks[1..], k);
          OrderedCons(descending, ks[0], Insert(descending, ks[1..], k));
        }
      }
    }
  }

  /** ks without k. */
  function Remove(ks: seq<real>, k: real): seq<real>
  {
    if |ks| == 0 then []
    else if ks[0] == k then Remove(ks[1..], k)
    else [ks[0]] + Remove(ks[1..], k)
  }

  lemma {:induction false} RemoveOrdered(descending: bool, ks: seq<real>, k: real)
    requires Ordered(descending, ks)
    ensures Ordered(descending, Remove(ks, k))
    ensures forall x :: x in Remove(ks, k) <==> x in ks && x != k
    ensures |Remove(ks, k)| == |ks| - if k in ks then 1 else 0
  {
    if |ks| == 0 {
    } else {
      OrderedTail(descending, ks);
      RemoveOrdered(descending, ks[1..], k);
      if ks[0] != k {
        OrderedCons(descending, ks[0], Remove(ks[1..], k));
      }
    }
  }

  /** Two ordered sequences with the same elements are the same sequence. */
  lemma {:induction false} OrderedUnique(descending: bool, xs: seq<real>, ys: seq<real>)
    requires Ordered(descending, xs) && Ordered(descending, ys)
    requires forall x :: x in xs <==> x in ys
    ensures xs == ys
  {
    assert |xs| > 0 ==> xs[0] in xs;
    assert |ys| > 0 ==> ys[0] in ys;
    assert |xs| > 0 ==> xs[0] in ys;
    if |xs| == 0 {
    } else {
      OrderedTail(descending, xs);
      OrderedTail(descending, ys);
      OrderedUnique(descending, xs[1..], ys[1..]);
    }
  }
}
