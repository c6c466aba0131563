/** The sidebar standings (app.py lines 127-130): the table sorted by `votos`, largest
    first, cut to its first five rows. */
module Leaderboard {
  import opened Tables

  /** Size of the standings (`head(5)`). */
  const Shown: nat := 5

  /** `votos` never grows down the sequence. */
  predicate NonIncreasing(s: Table) {
    forall i, j :: 0 <= i < j < |s| ==> s[i].entry.votos >= s[j].entry.votos
  }

  /** A row with at least the `votos` of a sorted sequence's head can go in front of it. */
  lemma ConsSorted(a: Row, s: Table)
    requires NonIncreasing(s)
    requires s != [] ==> a.entry.votos >= s[0].entry.votos
    ensures NonIncreasing([a] + s)
  {
    var r := [a] + s;
    forall i, j | 0 <= i < j < |r|
      ensures r[i].entry.votos >= r[j].entry.votos
    {
      if i == 0 {
        assert r[j] == s[j - 1];
      } else {
        assert r[i] == s[i - 1] && r[j] == s[j - 1];
      }
    }
  }

  /** Puts `x` into a sequence sorted by `votos`, largest first, before every row whose
      `votos` is not larger. */
  function Insert(x: Row, s: Table): (r: Table)
    requires NonIncreasing(s)
    ensures |r| == |s| + 1
    ensures r[0] == x || (s != [] && r[0] == s[0])
    ensures multiset(r) == multiset(s) + multiset{x}
    ensures NonIncreasing(r)
  {
    if s == [] || x.entry.votos >= s[0].entry.votos then
      ConsSorted(x, s);
      [x] + s
    else
      var rest := Insert(x, s[1..]);
      assert s == [s[0]] + s[1..];
      ConsSorted(s[0], rest);
      [s[0]] + rest
  }

  /** `sort_values(by='votos', ascending=False)`: a permutation of the table whose
      `votos` never increase. The order among equal `votos` is the model's own choice;
      no contract here depends on it. */
  function SortByVotes(t: Table): (s: Table)
    ensures NonIncreasing(s)
    ensures multiset(s) == multiset(t)
    ensures |s| == |t|
  {
    if t == [] then []
    else
      assert t == [t[0]] + t[1..];
      Insert(t[0], SortByVotes(t[1..]))
  }

  function Min(a: nat, b: nat): nat {
    if a <= b then a else b
  }

  /** Every row of a prefix of a sorted sequence has at least the `votos` of every row
      after it. */
  lemma PrefixDominates(s: Table, n: nat)
    requires NonIncreasing(s) && n <= |s|
    ensures forall x, y :: x in s[..n] && y in multiset(s[n..]) ==> x.entry.votos >= y.entry.votos
  {
    forall x, y | x in s[..n] && y in multiset(s[n..])
      ensures x.entry.votos >= y.entry.votos
    {
      var i :| 0 <= i < n && s[i] == x;
      assert y in s[n..];
      var j :| 0 <= j < |s| - n && s[n..][j] == y;
      assert s[n + j] == y;
    }
  }

  /** A prefix and the rest of a sequence split its multiset. */
  lemma PrefixRest(s: Table, n: nat)
    requires n <= |s|
    ensures multiset(s) - multiset(s[..n]) == multiset(s[n..])
  {
    assert s == s[..n] + s[n..];
  }

  /** `sort_values(by='votos', ascending=False).head(5)`: at most five rows of the table,
      largest `votos` first, none of them below any row left out. */
  function Top(t: Table): (r: Table)
    ensures |r| == Min(Shown, |t|)
    ensures multiset(r) <= multiset(t)
    ensures NonIncreasing(r)
    ensures forall x, y :: x in r && y in multiset(t) - multiset(r) ==> x.entry.votos >= y.entry.votos
  {
    var s := SortByVotes(t);
    var n := Min(Shown, |t|);
    PrefixRest(s, n);
    PrefixDominates(s, n);
    s[..n]
  }
}
