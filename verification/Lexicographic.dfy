/** The lexicographic order of sequences of numbers. */
module Lexicographic {

  /** Where two sequences first differ, or the shorter one ends. */
  function Diff(x: seq<int>, y: seq<int>, i: nat): (d: nat)
    requires i <= |x| && i <= |y|
    ensures i <= d <= |x| && d <= |y|
    ensures forall j :: i <= j < d ==> x[j] == y[j]
    ensures d < |x| && d < |y| ==> x[d] != y[d]
    decreases |x| - i
  {
    if i == |x| || i == |y| || x[i] != y[i] then i else Diff(x, y, i + 1)
  }

  /** Lexicographic order. */
  predicate Lex(x: seq<int>, y: seq<int>)
  {
    var d := Diff(x, y, 0);
    d < |y| && (d == |x| || x[d] < y[d])
  }

  lemma LexAt(x: seq<int>, y: seq<int>, d: nat)
    requires d <= |x| && d < |y| && (d == |x| || x[d] < y[d])
    requires forall j :: 0 <= j < d ==> x[j] == y[j]
    ensures Lex(x, y)
  {
    hide Diff;
    var e := Diff(x, y, 0);
    assert !(e < d);
  }

  lemma LexTotal(x: seq<int>, y: seq<int>)
    ensures !Lex(x, x)
    ensures Lex(x, y) ==> !Lex(y, x)
    ensures x != y ==> Lex(x, y) || Lex(y, x)
  {
    hide Diff;
    var d, e := Diff(x, y, 0), Diff(y, x, 0);
    assert !(d < e) && !(e < d);
    if d == |x| && d == |y| {
      assert x == y;
    }
  }

  lemma LexTransitive(x: seq<int>, y: seq<int>, z: seq<int>)
    requires Lex(x, y) && Lex(y, z)
    ensures Lex(x, z)
  {
    hide Diff;
    var d, e := Diff(x, y, 0), Diff(y, z, 0);
    LexAt(x, z, if d < e then d else e);
  }
}
