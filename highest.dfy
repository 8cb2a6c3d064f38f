/** `currencyData.reduce((max, c) => c.rate > max.rate ? c : max, {rate: 0})`:
    the entry with the highest rate, found by a left fold that starts from a
    sentinel of rate 0 and replaces the running maximum only on a strictly
    greater rate. */
module HighestRate {
  import opened Rates

  /** The running maximum of the fold: the sentinel `{rate: 0}` (which has
      no currency) or one of the entries. */
  datatype Pick = Sentinel | Chosen(entry: Entry)

  function RateOf(p: Pick): real {
    match p
    case Sentinel => 0.0
    case Chosen(e) => e.rate
  }

  /** One call of the reducer callback. */
  function Step(max: Pick, e: Entry): (r: Pick)
    ensures RateOf(r) >= RateOf(max) && RateOf(r) >= e.rate
    ensures r == max || (r == Chosen(e) && e.rate > RateOf(max))
  {
    if e.rate > RateOf(max) then Chosen(e) else max
  }

  function Fold(acc: Pick, s: seq<Entry>): Pick
    decreases |s|
  {
    if s == [] then acc else Fold(Step(acc, s[0]), s[1..])
  }

  /** The value the component stores as its highest rate. */
  function Highest(s: seq<Entry>): Pick {
    Fold(Sentinel, s)
  }

  /** `k` is the first position holding the largest rate of `s`. */
  ghost predicate IsEarliestMax(s: seq<Entry>, k: int) {
    0 <= k < |s| &&
    (forall j :: 0 <= j < |s| ==> s[j].rate <= s[k].rate) &&
    (forall j :: 0 <= j < k ==> s[j].rate < s[k].rate)
  }

  lemma EarliestMaxUnique(s: seq<Entry>, k1: int, k2: int)
    requires IsEarliestMax(s, k1) && IsEarliestMax(s, k2)
    ensures k1 == k2
  {
    assert s[k1].rate == s[k2].rate;
  }

  lemma {:induction false} FoldBound(acc: Pick, s: seq<Entry>)
    ensures RateOf(Fold(acc, s)) >= RateOf(acc)
    ensures forall i :: 0 <= i < |s| ==> s[i].rate <= RateOf(Fold(acc, s))
    decreases |s|
  {
    if s != [] {
      FoldBound(Step(acc, s[0]), s[1..]);
      assert forall i :: 1 <= i < |s| ==> s[i] == s[1..][i - 1];
    }
  }

  lemma {:induction false} FoldKeeps(acc: Pick, s: seq<Entry>)
    requires forall i :: 0 <= i < |s| ==> s[i].rate <= RateOf(acc)
    ensures Fold(acc, s) == acc
    decreases |s|
  {
    if s != [] {
      assert forall i :: 0 <= i < |s[1..]| ==> s[1..][i] == s[i + 1];
      FoldKeeps(acc, s[1..]);
    }
  }

  lemma {:induction false} FoldPicksFirst(acc: Pick, s: seq<Entry>, w: int)
    requires 0 <= w < |s| && s[w].rate > RateOf(acc)
    ensures exists k :: (0 <= k < |s| && Fold(acc, s) == Chosen(s[k]) && s[k].rate > RateOf(acc) &&
                         forall j :: 0 <= j < k ==> s[j].rate < s[k].rate)
    decreases |s|
  {
    var t := s[1..];
    assert forall i :: 0 <= i < |t| ==> t[i] == s[i + 1];
    if s[0].rate > RateOf(acc) {
      var next := Chosen(s[0]);
      if v :| 0 <= v < |t| && t[v].rate > RateOf(next) {
        FoldPicksFirst(next, t, v);
        var k :| 0 <= k < |t| && Fold(next, t) == Chosen(t[k]) && t[k].rate > RateOf(next) &&
          (forall j :: 0 <= j < k ==> t[j].rate < t[k].rate);
        forall j | 0 <= j < k + 1 ensures s[j].rate < s[k + 1].rate {
          if j > 0 { assert t[j - 1] == s[j]; }
        }
        assert Fold(acc, s) == Chosen(s[k + 1]);
      } else {
        FoldKeeps(next, t);
        assert Fold(acc, s) == Chosen(s[0]);
      }
    } else {
      assert w > 0 && t[w - 1] == s[w];
      FoldPicksFirst(acc, t, w - 1);
      var k :| 0 <= k < |t| && Fold(acc, t) == Chosen(t[k]) && t[k].rate > RateOf(acc) &&
        (forall j :: 0 <= j < k ==> t[j].rate < t[k].rate);
      forall j | 0 <= j < k + 1 ensures s[j].rate < s[k + 1].rate {
        if j > 0 { assert t[j - 1] == s[j]; }
      }
      assert Fold(acc, s) == Chosen(s[k + 1]);
    }
  }

  /** The stored rate is at least every entry's rate, and never below 0. */
  lemma HighestIsMaximal(s: seq<Entry>)
    ensures RateOf(Highest(s)) >= 0.0
    ensures forall i :: 0 <= i < |s| ==> s[i].rate <= RateOf(Highest(s))
  {
    FoldBound(Sentinel, s);
  }

  /** The sentinel survives exactly when no rate exceeds 0 (in particular
      when the list is empty); otherwise the result is an entry of the list,
      and it is the earliest of the entries holding the largest rate. */
  lemma HighestSpec(s: seq<Entry>)
    ensures Highest(s) == Sentinel <==> forall i :: 0 <= i < |s| ==> s[i].rate <= 0.0
    ensures Highest(s).Chosen? ==> exists k :: IsEarliestMax(s, k) && Highest(s) == Chosen(s[k])
  {
    if w :| 0 <= w < |s| && s[w].rate > 0.0 {
      FoldPicksFirst(Sentinel, s, w);
      FoldBound(Sentinel, s);
      var k :| 0 <= k < |s| && Highest(s) == Chosen(s[k]) && s[k].rate > 0.0 &&
        forall j :: 0 <= j < k ==> s[j].rate < s[k].rate;
      assert RateOf(Highest(s)) == s[k].rate;
      assert IsEarliestMax(s, k);
    } else {
      FoldKeeps(Sentinel, s);
    }
  }

  /** The reduce as the loop a JavaScript engine runs: one callback per
      element, left to right, carrying the accumulator. */
  method HighestOf(s: seq<Entry>) returns (max: Pick)
    ensures max == Highest(s)
  {
    max := Sentinel;
    var i := 0;
    while i < |s|
      invariant 0 <= i <= |s|
      invariant Fold(max, s[i..]) == Highest(s)
    {
      assert s[i..][1..] == s[i + 1..];
      max := if s[i].rate > RateOf(max) then Chosen(s[i]) else max;
      i := i + 1;
    }
    assert s[i..] == [];
  }

  /** The response used in `Component.SuccessfulFetch`: EUR at 0.9 and JPY
      at 150; then a tie and a list with no positive rate. */
  lemma HighestExample()
    ensures Highest([Entry("EUR", 0.9), Entry("JPY", 150.0)]) == Chosen(Entry("JPY", 150.0))
    ensures Highest([Entry("A", 2.0), Entry("B", 2.0)]) == Chosen(Entry("A", 2.0))
    ensures Highest([Entry("A", -1.0), Entry("B", 0.0)]) == Sentinel
  {
    assert [Entry("EUR", 0.9), Entry("JPY", 150.0)][1..] == [Entry("JPY", 150.0)];
    assert [Entry("A", 2.0), Entry("B", 2.0)][1..] == [Entry("B", 2.0)];
    assert [Entry("A", -1.0), Entry("B", 0.0)][1..] == [Entry("B", 0.0)];
  }
}
