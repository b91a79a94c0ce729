/**
  The final report of a game: `sorted(people, key=lambda x: x.coins,
  reverse=True)`, a stable sort from most to fewest coins, and the first
  five and last five entries of the result.
 */
module Ranking {
  import opened CoinRules

  /** From most coins to fewest. */
  ghost predicate SortedDesc(s: seq<Holding>)
  {
    forall i, j :: 0 <= i < j < |s| ==> s[i].coins >= s[j].coins
  }

  /** The entries holding exactly `c` coins, in order. */
  function WithCoins(s: seq<Holding>, c: int): (r: seq<Holding>)
    ensures |r| <= |s|
  {
    if s == [] then []
    else if s[0].coins == c then [s[0]] + WithCoins(s[1..], c)
    else WithCoins(s[1..], c)
  }

  /** Puts `x` in front of the first entry with no more coins than `x`. */
  function Insert(x: Holding, s: seq<Holding>): (r: seq<Holding>)
    ensures multiset(r) == multiset(s) + multiset{x}
    ensures forall h :: h in r <==> h == x || h in s
  {
    if s == [] || s[0].coins <= x.coins then [x] + s
    else
      assert s == [s[0]] + s[1..];
      [s[0]] + Insert(x, s[1..])
  }

  lemma {:induction false} InsertSorted(x: Holding, s: seq<Holding>)
    requires SortedDesc(s)
    ensures SortedDesc(Insert(x, s))
  {
    if s != [] && s[0].coins > x.coins {
      var rest := Insert(x, s[1..]);
      InsertSorted(x, s[1..]);
      var r := [s[0]] + rest;
      forall i, j | 0 <= i < j < |r| ensures r[i].coins >= r[j].coins {
        if i == 0 {
          assert r[j] in rest;
          if r[j] != x {
            var m :| 0 <= m < |s[1..]| && s[1..][m] == r[j];
            assert s[m + 1] == r[j];
          }
        } else {
          assert r[i] == rest[i - 1] && r[j] == rest[j - 1];
        }
      }
    }
  }

  /** Sorts from most coins to fewest; equal entries keep their order. */
  function SortByCoinsDesc(s: seq<Holding>): (r: seq<Holding>)
    ensures multiset(r) == multiset(s)
    ensures SortedDesc(r)
  {
    if s == [] then []
    else
      assert s == [s[0]] + s[1..];
      InsertSorted(s[0], SortByCoinsDesc(s[1..]));
      Insert(s[0], SortByCoinsDesc(s[1..]))
  }

  lemma {:induction false} InsertKeepsOrderOfEquals(x: Holding, s: seq<Holding>, c: int)
    requires SortedDesc(s)
    ensures WithCoins(Insert(x, s), c) == (if x.coins == c then [x] else []) + WithCoins(s, c)
  {
    if s == [] || s[0].coins <= x.coins {
      assert ([x] + s)[1..] == s;
      if s != [] && s[0].coins == c && x.coins == c {
      }
    } else {
      var rest := Insert(x, s[1..]);
      InsertKeepsOrderOfEquals(x, s[1..], c);
      assert ([s[0]] + rest)[1..] == rest;
    }
  }

  /** The sort is stable: for every coin count, the entries holding it appear
      in the same order as in the input. */
  lemma {:induction false} SortIsStable(s: seq<Holding>, c: int)
    ensures WithCoins(SortByCoinsDesc(s), c) == WithCoins(s, c)
  {
    if s != [] {
      SortIsStable(s[1..], c);
      InsertKeepsOrderOfEquals(s[0], SortByCoinsDesc(s[1..]), c);
    }
  }

  /** `people[:5]`: the five richest, or everyone when fewer remain. */
  function Richest(ranking: seq<Holding>): (top: seq<Holding>)
    ensures |top| == if |ranking| < 5 then |ranking| else 5
    ensures top <= ranking
    ensures SortedDesc(ranking) ==>
      forall i, j :: 0 <= i < |top| <= j < |ranking| ==> top[i].coins >= ranking[j].coins
  {
    if |ranking| < 5 then ranking else ranking[..5]
  }

  /** `people[-5:]`: the five poorest, or everyone when fewer remain. */
  function Poorest(ranking: seq<Holding>): (bottom: seq<Holding>)
    ensures |bottom| == if |ranking| < 5 then |ranking| else 5
    ensures ranking[|ranking| - |bottom|..] == bottom
    ensures SortedDesc(ranking) ==>
      forall i, j :: 0 <= i < |ranking| - |bottom| && 0 <= j < |bottom| ==> ranking[i].coins >= bottom[j].coins
  {
    if |ranking| < 5 then ranking else ranking[|ranking| - 5..]
  }
}
