/** The combination generator: every choice of one value per option, in
    odometer order (the last option changes fastest). */
module Combinations {

  /** Number of combinations: the product of the list lengths. */
  function Count<T>(lists: seq<seq<T>>): nat
  {
    if |lists| == 0 then 1 else Count(lists[..|lists| - 1]) * |lists[|lists| - 1]|
  }

  /** `r` extended by each value of `vals`, in order (the innermost loop). */
  function Appended<T>(r: seq<T>, vals: seq<T>): seq<seq<T>>
  {
    seq(|vals|, m requires 0 <= m < |vals| => r + [vals[m]])
  }

  /** Each partial tuple of `rs`, in order, extended by each value of `vals`
      (one pass of the outer loop). */
  function Extend<T>(rs: seq<seq<T>>, vals: seq<T>): seq<seq<T>>
  {
    if |rs| == 0 then [] else Extend(rs[..|rs| - 1], vals) + Appended(rs[|rs| - 1], vals)
  }

  /** The combinations of `lists`, as the generator builds them: start from the
      one empty tuple and extend by each list in turn. */
  function Cartesian<T>(lists: seq<seq<T>>): seq<seq<T>>
  {
    if |lists| == 0 then [[]] else Extend(Cartesian(lists[..|lists| - 1]), lists[|lists| - 1])
  }

  /** Mixed-radix reading of index `k`: the last digit has base |last list|. */
  function Decode<T>(lists: seq<seq<T>>, k: nat): (t: seq<T>)
    requires k < Count(lists)
    ensures |t| == |lists|
    ensures forall i :: 0 <= i < |t| ==> t[i] in lists[i]
  {
    if |lists| == 0 then []
    else
      var n := |lists[|lists| - 1]|;
      DivBelow(k, Count(lists[..|lists| - 1]), n);
      var t := Decode(lists[..|lists| - 1], k / n) + [lists[|lists| - 1][k % n]];
      assert forall i :: 0 <= i < |lists| - 1 ==> t[i] in lists[..|lists| - 1][i];
      t
  }

  /** A tuple of the right length taking its i-th element from the i-th list. */
  ghost predicate IsCombination<T>(lists: seq<seq<T>>, t: seq<T>)
  {
    |t| == |lists| && forall i :: 0 <= i < |t| ==> t[i] in lists[i]
  }

  /** Position of the first occurrence of `x` in `s`. */
  ghost function IndexOf<T>(s: seq<T>, x: T): (i: nat)
    requires x in s
    ensures i < |s| && s[i] == x
    ensures forall j :: 0 <= j < i ==> s[j] != x
  {
    if s[0] == x then 0 else 1 + IndexOf(s[1..], x)
  }

  /** Mixed-radix index of a combination: the inverse of Decode. */
  ghost function Encode<T>(lists: seq<seq<T>>, t: seq<T>): (k: nat)
    requires IsCombination(lists, t)
    ensures k < Count(lists)
  {
    if |lists| == 0 then 0
    else
      var n := |lists| - 1;
      assert IsCombination(lists[..n], t[..n]);
      var hi := Encode(lists[..n], t[..n]);
      var lo := IndexOf(lists[n], t[n]);
      MulAddBelow(hi, Count(lists[..n]), lo, |lists[n]|);
      hi * |lists[n]| + lo
  }

  lemma {:induction false} LessCancel(a: nat, b: nat, n: nat)
    requires a * n < b * n
    ensures a < b
    decreases a
  {
    if a > 0 {
      assert (a - 1) * n == a * n - n && (b - 1) * n == b * n - n;
      LessCancel(a - 1, b - 1, n);
    }
  }

  lemma DivBelow(k: nat, c: nat, n: nat)
    requires k < c * n
    ensures n > 0 && k / n < c
  {
    assert n > 0;
    assert (k / n) * n <= k;
    LessCancel(k / n, c, n);
  }

  lemma MulAddBelow(a: nat, c: nat, b: nat, n: nat)
    requires a < c && b < n
    ensures a * n + b < c * n
  {
    assert a * n + b < a * n + n == (a + 1) * n;
    assert (a + 1) * n <= c * n;
  }

  lemma {:induction false} ExtendLength<T>(rs: seq<seq<T>>, vals: seq<T>)
    ensures |Extend(rs, vals)| == |rs| * |vals|
  {
    if |rs| > 0 {
      ExtendLength(rs[..|rs| - 1], vals);
      assert |rs| * |vals| == (|rs| - 1) * |vals| + |vals|;
    }
  }

  /** Extend places `rs[j]` extended by `vals[m]` at index j * |vals| + m. */
  lemma {:induction false} ExtendAt<T>(rs: seq<seq<T>>, vals: seq<T>, j: nat, m: nat)
    requires j < |rs| && m < |vals|
    ensures j * |vals| + m < |rs| * |vals| == |Extend(rs, vals)|
    ensures Extend(rs, vals)[j * |vals| + m] == rs[j] + [vals[m]]
  {
    var last := |rs| - 1;
    ExtendLength(rs, vals);
    ExtendLength(rs[..last], vals);
    MulAddBelow(j, |rs|, m, |vals|);
    if j < last {
      ExtendAt(rs[..last], vals, j, m);
    } else {
      assert j * |vals| == |Extend(rs[..last], vals)|;
    }
  }

  /** Tuple k of the generator's output is the mixed-radix decomposition of k;
      there are exactly Count(lists) tuples. */
  lemma {:induction false} CartesianAt<T>(lists: seq<seq<T>>)
    ensures |Cartesian(lists)| == Count(lists)
    ensures forall k :: 0 <= k < Count(lists) ==> Cartesian(lists)[k] == Decode(lists, k)
  {
    if |lists| > 0 {
      var n := |lists| - 1;
      var prev := Cartesian(lists[..n]);
      CartesianAt(lists[..n]);
      ExtendLength(prev, lists[n]);
      forall k | 0 <= k < Count(lists)
        ensures Cartesian(lists)[k] == Decode(lists, k)
      {
        CartesianAtStep(lists, lists[..n], k);
      }
    }
  }

  /** Every tuple of the generator has one value per list. */
  lemma CartesianArity<T>(lists: seq<seq<T>>)
    ensures forall k :: 0 <= k < |Cartesian(lists)| ==> |Cartesian(lists)[k]| == |lists|
  {
    CartesianAt(lists);
  }

  /** One index of the induction step of CartesianAt. */
  lemma CartesianAtStep<T>(lists: seq<seq<T>>, front: seq<seq<T>>, k: nat)
    requires |lists| > 0 && front == lists[..|lists| - 1] && k < Count(lists)
    requires |Cartesian(front)| == Count(front)
    requires forall k' :: 0 <= k' < Count(front) ==> Cartesian(front)[k'] == Decode(front, k')
    ensures k < |Cartesian(lists)| && Cartesian(lists)[k] == Decode(lists, k)
  {
    var vals := lists[|lists| - 1];
    var j, m := DecodeLast(lists, front, k);
    ExtendAt(Cartesian(front), vals, j, m);
  }

  /** The last digit of k and the digits before it. */
  lemma DecodeLast<T>(lists: seq<seq<T>>, front: seq<seq<T>>, k: nat) returns (j: nat, m: nat)
    requires |lists| > 0 && front == lists[..|lists| - 1] && k < Count(lists)
    ensures j < Count(front) && m < |lists[|lists| - 1]|
    ensures k == j * |lists[|lists| - 1]| + m
    ensures Decode(lists, k) == Decode(front, j) + [lists[|lists| - 1][m]]
  {
    var n := |lists[|lists| - 1]|;
    DivBelow(k, Count(front), n);
    j, m := k / n, k % n;
    Euclid(k, n);
  }

  lemma Euclid(k: nat, n: nat)
    requires n > 0
    ensures k == (k / n) * n + k % n && k % n < n
  {
  }

  lemma {:induction false} DecodeEncode<T>(lists: seq<seq<T>>, t: seq<T>)
    requires IsCombination(lists, t)
    ensures Decode(lists, Encode(lists, t)) == t
  {
    if |lists| > 0 {
      var n := |lists| - 1;
      assert IsCombination(lists[..n], t[..n]);
      DecodeEncode(lists[..n], t[..n]);
      var hi, lo := Encode(lists[..n], t[..n]), IndexOf(lists[n], t[n]);
      DecodeDigits(lists, lists[..n], Encode(lists, t), hi, lo);
      assert t == t[..n] + [t[n]];
    }
  }

  /** Decoding the index with digits `hi` (front) and `lo` (last). */
  lemma DecodeDigits<T>(lists: seq<seq<T>>, front: seq<seq<T>>, k: nat, hi: nat, lo: nat)
    requires |lists| > 0 && front == lists[..|lists| - 1]
    requires hi < Count(front) && lo < |lists[|lists| - 1]|
    requires k == hi * |lists[|lists| - 1]| + lo
    ensures k < Count(lists)
    ensures Decode(lists, k) == Decode(front, hi) + [lists[|lists| - 1][lo]]
  {
    var n := |lists[|lists| - 1]|;
    MulAddBelow(hi, Count(front), lo, n);
    DivMod(hi, lo, n);
  }

  lemma DivMod(hi: nat, lo: nat, n: nat)
    requires lo < n
    ensures (hi * n + lo) / n == hi && (hi * n + lo) % n == lo
  {
    var k := hi * n + lo;
    var q, r := k / n, k % n;
    assert k == q * n + r && r < n;
    assert (q + 1) * n == q * n + n && (hi + 1) * n == hi * n + n;
    LessCancel(q, hi + 1, n);
    LessCancel(hi, q + 1, n);
  }

  ghost predicate NoRepeats<T>(s: seq<T>)
  {
    forall i, j :: 0 <= i < j < |s| ==> s[i] != s[j]
  }

  /** When no list repeats a value, distinct indices decode to distinct tuples. */
  lemma {:induction false} DecodeInjective<T>(lists: seq<seq<T>>, k1: nat, k2: nat)
    requires forall i :: 0 <= i < |lists| ==> NoRepeats(lists[i])
    requires k1 < Count(lists) && k2 < Count(lists)
    requires Decode(lists, k1) == Decode(lists, k2)
    ensures k1 == k2
  {
    if |lists| > 0 {
      var n := |lists| - 1;
      var front, vals := lists[..n], lists[n];
      DivBelow(k1, Count(front), |vals|);
      DivBelow(k2, Count(front), |vals|);
      var d1, d2 := Decode(front, k1 / |vals|), Decode(front, k2 / |vals|);
      assert Decode(lists, k1) == d1 + [vals[k1 % |vals|]];
      assert Decode(lists, k2) == d2 + [vals[k2 % |vals|]];
      assert d1 == Decode(lists, k1)[..n] == Decode(lists, k2)[..n] == d2;
      assert vals[k1 % |vals|] == vals[k2 % |vals|];
      assert k1 % |vals| == k2 % |vals|;
      assert forall i :: 0 <= i < |front| ==> front[i] == lists[i];
      DecodeInjective(front, k1 / |vals|, k2 / |vals|);
      Euclid(k1, |vals|);
      Euclid(k2, |vals|);
    }
  }

  /** The generator's output holds exactly the combinations: every tuple is one,
      and every combination occurs. */
  lemma CartesianIsExactlyTheCombinations<T>(lists: seq<seq<T>>, t: seq<T>)
    ensures t in Cartesian(lists) <==> IsCombination(lists, t)
  {
    CartesianAt(lists);
    if t in Cartesian(lists) {
      var k :| 0 <= k < |Cartesian(lists)| && Cartesian(lists)[k] == t;
      assert t == Decode(lists, k);
    }
    if IsCombination(lists, t) {
      DecodeEncode(lists, t);
      assert Cartesian(lists)[Encode(lists, t)] == t;
    }
  }

  /** No options yield the single empty combination; an option without values yields none. */
  lemma {:induction false} CartesianEdgeCases<T>(lists: seq<seq<T>>)
    ensures |lists| == 0 ==> Cartesian(lists) == [[]]
    ensures (exists i :: 0 <= i < |lists| && lists[i] == []) ==> Cartesian(lists) == []
  {
    CartesianAt(lists);
    if i :| 0 <= i < |lists| && lists[i] == [] {
      CountWithEmpty(lists, i);
    }
  }

  lemma {:induction false} CountWithEmpty<T>(lists: seq<seq<T>>, i: nat)
    requires i < |lists| && lists[i] == []
    ensures Count(lists) == 0
  {
    if i < |lists| - 1 {
      CountWithEmpty(lists[..|lists| - 1], i);
    }
  }

  /** Two options of two and three values: the last one varies fastest. */
  lemma OdometerExample()
    ensures Cartesian([["A", "B"], ["X", "Y", "Z"]])
         == [["A", "X"], ["A", "Y"], ["A", "Z"], ["B", "X"], ["B", "Y"], ["B", "Z"]]
  {
    var lists: seq<seq<string>> := [["A", "B"], ["X", "Y", "Z"]];
    var c := Cartesian(lists);
    CartesianAt(lists);
    assert lists[..1] == [["A", "B"]] && [["A", "B"]][..0] == [];
    assert Count(lists) == 6;
    assert c[0] == Decode(lists, 0) == ["A", "X"];
    assert c[1] == Decode(lists, 1) == ["A", "Y"];
    assert c[2] == Decode(lists, 2) == ["A", "Z"];
    assert c[3] == Decode(lists, 3) == ["B", "X"];
    assert c[4] == Decode(lists, 4) == ["B", "Y"];
    assert c[5] == Decode(lists, 5) == ["B", "Z"];
  }

  /** The nested loops of the generator, proved against Cartesian. */
  method CartesianOf<T>(arrays: seq<seq<T>>) returns (result: seq<seq<T>>)
    ensures result == Cartesian(arrays)
  {
    result := [[]];
    for k := 0 to |arrays|
      invariant result == Cartesian(arrays[..k])
    {
      var vals := arrays[k];
      var tmp: seq<seq<T>> := [];
      for j := 0 to |result|
        invariant tmp == Extend(result[..j], vals)
      {
        var res := result[j];
        for m := 0 to |vals|
          invariant tmp == Extend(result[..j], vals) + Appended(res, vals[..m])
        {
          tmp := tmp + [res + [vals[m]]];
        }
        assert vals[..|vals|] == vals;
        assert result[..j + 1][..j] == result[..j];
      }
      assert result[..|result|] == result;
      assert arrays[..k + 1][..k] == arrays[..k];
      result := tmp;
    }
    assert arrays[..|arrays|] == arrays;
    CartesianAt(arrays);
  }
}
