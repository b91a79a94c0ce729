/**
  The rules of one round of the coin swap game, on values.

  A `Holding` is what a `Person` shows at one moment: its id, its coins and
  its skill. A population is a sequence of holdings in list order. The random
  draws of a round are an input (`Draw`), so a round is a function of the
  population and the draw.
 */
module CoinRules {
  import opened Wrappers

  /** A snapshot of one person. */
  datatype Holding = Holding(id: int, coins: int, skill: real)

  /** The random input of one round: the two picks made by `random.sample`
      and the outcome `toss` of the comparison `random.random() < p`, where
      p is `chance` or `skill_weight`. In skill mode the comparison is only
      made when A is more skilled than B; otherwise `toss` is unused. */
  datatype Draw = Draw(first: nat, second: nat, toss: bool)

  /** Who gives the coin in a round between the pair (A, B). */
  datatype Payer = APays | BPays

  // ---------------------------------------------------------------------
  // Configuration check

  /** `xor(chance, skill_weight)`: truthy when exactly one setting is nonzero. */
  function Xor(a: real, b: real): (r: bool)
    ensures r <==> (a == 0.0) != (b == 0.0)
  {
    (a != 0.0 || b != 0.0) && !(a != 0.0 && b != 0.0)
  }

  // ---------------------------------------------------------------------
  // Wealth and well-formed populations

  /** Total number of coins held by a population. */
  function Wealth(s: seq<Holding>): int
  {
    if s == [] then 0 else s[0].coins + Wealth(s[1..])
  }

  /** No two entries share an id. */
  ghost predicate UniqueIds(s: seq<Holding>)
  {
    forall i, j :: 0 <= i < j < |s| ==> s[i].id != s[j].id
  }

  /** Everyone still in the game holds at least one coin, and ids are unique. */
  ghost predicate Healthy(s: seq<Holding>)
  {
    UniqueIds(s) && forall k :: 0 <= k < |s| ==> s[k].coins >= 1
  }

  // ---------------------------------------------------------------------
  // Population

  /** The list built by `population(N, coins)`: person i has id i, the given
      coins and the i-th skill drawn. */
  function InitialHoldings(n: nat, coins: int, skills: seq<real>): (r: seq<Holding>)
    requires |skills| == n
    ensures |r| == n
  {
    seq(n, i requires 0 <= i < n => Holding(i, coins, skills[i]))
  }

  /** The starting population: ids 0..N-1 in order, hence unique; everyone
      holds `coins`, so the total is N * coins; with at least one coin each
      it is healthy. */
  lemma InitialPopulation(n: nat, coins: int, skills: seq<real>)
    requires |skills| == n
    ensures var r := InitialHoldings(n, coins, skills);
      (forall i :: 0 <= i < n ==> r[i].id == i && r[i].coins == coins && r[i].skill == skills[i])
      && UniqueIds(r) && Wealth(r) == n * coins
      && (coins >= 1 ==> Healthy(r))
  {
    var r := InitialHoldings(n, coins, skills);
    WealthUniform(r, coins);
  }

  lemma {:induction false} WealthUniform(s: seq<Holding>, c: int)
    requires forall k :: 0 <= k < |s| ==> s[k].coins == c
    ensures Wealth(s) == |s| * c
  {
    if s != [] {
      WealthUniform(s[1..], c);
      calc {
        Wealth(s);
        c + Wealth(s[1..]);
        c + (|s| - 1) * c;
        { assert (|s| - 1) * c == |s| * c - c; }
        |s| * c;
      }
    }
  }

  /** A healthy population holds at least one coin per person. */
  lemma {:induction false} HealthyWealth(s: seq<Holding>)
    requires forall k :: 0 <= k < |s| ==> s[k].coins >= 1
    ensures Wealth(s) >= |s|
  {
    if s != [] {
      HealthyWealth(s[1..]);
    }
  }

  // ---------------------------------------------------------------------
  // Pair selection

  /** `random_two_people`: `random.sample(people, 2)` over a list of `size`
      people. The first pick chooses among all, the second among the rest.
      Sampling two from fewer than two raises an error (None). */
  function RandomTwoPeople(size: nat, first: nat, second: nat): (r: Option<(nat, nat)>)
    ensures r.Some? <==> size >= 2
    ensures r.Some? ==> r.value.0 < size && r.value.1 < size && r.value.0 != r.value.1
  {
    if size < 2 then None
    else
      var a := first % size;
      var b := second % (size - 1);
      Some((a, if b < a then b else b + 1))
  }

  /** Every ordered pair of distinct members can come out of the sample. */
  lemma EveryPairCanBeDrawn(size: nat, a: nat, b: nat)
    requires a < size && b < size && a != b
    ensures exists first: nat, second: nat :: RandomTwoPeople(size, first, second) == Some((a, b))
  {
    var second: nat := if b < a then b else b - 1;
    ModOfSmaller(a, size);
    ModOfSmaller(second, size - 1);
    assert RandomTwoPeople(size, a, second) == Some((a, b));
  }

  lemma ModOfSmaller(x: nat, m: nat)
    requires x < m
    ensures x % m == x
  {
  }

  // ---------------------------------------------------------------------
  // Transfer

  /** `swap_coins(A, B)` on the people at positions `giver` (A) and `taker` (B). */
  function Transfer(s: seq<Holding>, giver: nat, taker: nat): (r: seq<Holding>)
    requires giver < |s| && taker < |s|
    ensures |r| == |s|
    ensures forall k :: 0 <= k < |s| ==> r[k].id == s[k].id && r[k].skill == s[k].skill
    ensures forall k :: 0 <= k < |s| && k != giver && k != taker ==> r[k] == s[k]
    ensures giver == taker ==> r == s
  {
    var t := s[giver := s[giver].(coins := s[giver].coins - 1)];
    t[taker := t[taker].(coins := t[taker].coins + 1)]
  }

  /** A transfer between two distinct people moves exactly one coin from the
      giver to the taker, touches no one else, keeps ids and skills and
      keeps the total. */
  lemma TransferMovesOneCoin(s: seq<Holding>, giver: nat, taker: nat)
    requires giver < |s| && taker < |s| && giver != taker
    ensures var r := Transfer(s, giver, taker);
      |r| == |s|
      && r[giver].coins == s[giver].coins - 1
      && r[taker].coins == s[taker].coins + 1
      && r[giver].coins + r[taker].coins == s[giver].coins + s[taker].coins
      && (forall k :: 0 <= k < |s| && k != giver && k != taker ==> r[k] == s[k])
      && (forall k :: 0 <= k < |s| ==> r[k].id == s[k].id && r[k].skill == s[k].skill)
      && Wealth(r) == Wealth(s)
  {
    var t := s[giver := s[giver].(coins := s[giver].coins - 1)];
    WealthUpdate(s, giver, t[giver]);
    WealthUpdate(t, taker, t[taker].(coins := t[taker].coins + 1));
  }

  /** A transfer keeps ids where they are, so it keeps them unique. */
  lemma TransferKeepsUniqueIds(s: seq<Holding>, giver: nat, taker: nat)
    requires giver < |s| && taker < |s| && giver != taker && UniqueIds(s)
    ensures UniqueIds(Transfer(s, giver, taker))
  {
    var r := Transfer(s, giver, taker);
    TransferMovesOneCoin(s, giver, taker);
    forall i, j | 0 <= i < j < |r| ensures r[i].id != r[j].id {
      assert r[i].id == s[i].id && r[j].id == s[j].id;
    }
  }

  /** Changing one entry changes the total by the difference. */
  lemma {:induction false} WealthUpdate(s: seq<Holding>, k: nat, h: Holding)
    requires k < |s|
    ensures Wealth(s[k := h]) == Wealth(s) - s[k].coins + h.coins
  {
    if k > 0 {
      WealthUpdate(s[1..], k - 1, h);
      assert s[k := h][1..] == s[1..][k - 1 := h];
    }
  }

  /** The transfer rule of `single_iteration`. In chance mode a
      successful draw makes A pay, a failed one B. In skill mode B pays only
      when A is strictly more skilled and the draw succeeds; A pays in every
      other case, equal skills included. */
  function WhoPays(chance: real, skillWeight: real, aSkill: real, bSkill: real, toss: bool): (p: Payer)
    requires Xor(chance, skillWeight)
    ensures chance != 0.0 ==> (p == APays <==> toss)
    ensures chance == 0.0 ==> (p == BPays <==> aSkill > bSkill && toss)
    ensures chance == 0.0 && aSkill <= bSkill ==> p == APays
  {
    if chance != 0.0 then
      if toss then APays else BPays
    else
      if aSkill > bSkill && toss then BPays else APays
  }

  /** In chance mode the outcome does not depend on skill; in skill mode the
      rule is not symmetric: swapping the roles of two equally skilled
      people never changes who pays, since A always pays then. */
  lemma RuleShape(chance: real, skillWeight: real, aSkill: real, bSkill: real, toss: bool)
    requires Xor(chance, skillWeight)
    ensures chance != 0.0 ==>
      forall x: real, y: real :: WhoPays(chance, skillWeight, x, y, toss) == WhoPays(chance, skillWeight, aSkill, bSkill, toss)
    ensures chance == 0.0 && aSkill == bSkill ==>
      WhoPays(chance, skillWeight, aSkill, bSkill, toss) == WhoPays(chance, skillWeight, bSkill, aSkill, toss) == APays
  {
  }

  // ---------------------------------------------------------------------
  // Elimination sweep

  /** `p` is out of the game. */
  predicate Bankrupt(h: Holding)
  {
    h.coins <= 0
  }

  /** `flush_bankrupts` as written: it removes entries from the list while a
      `for` loop walks it, so the entry right after each removed one slides
      into the slot just visited and is never looked at. */
  function SkipFlush(s: seq<Holding>): (r: seq<Holding>)
    ensures |s| - CountBankrupt(s) <= |r| <= |s|
    ensures forall h :: h in r ==> h in s
  {
    if s == [] then []
    else if Bankrupt(s[0]) then
      if |s| == 1 then []
      else
        assert s[1..][1..] == s[2..];
        assert forall h :: h in s[2..] ==> h in s;
        [s[1]] + SkipFlush(s[2..])
    else [s[0]] + SkipFlush(s[1..])
  }

  /** The sweep the code means: keep exactly the solvent entries, in order. */
  function KeepSolvent(s: seq<Holding>): (r: seq<Holding>)
    ensures |r| <= |s|
    ensures forall h :: h in r <==> h in s && !Bankrupt(h)
  {
    if s == [] then []
    else if Bankrupt(s[0]) then KeepSolvent(s[1..])
    else [s[0]] + KeepSolvent(s[1..])
  }

  /** How many entries are bankrupt. */
  function CountBankrupt(s: seq<Holding>): nat
  {
    if s == [] then 0 else (if Bankrupt(s[0]) then 1 else 0) + CountBankrupt(s[1..])
  }

  /** The sweep removes exactly the bankrupt entries: the list shrinks by
      their number, survivors keep their order and coins. */
  lemma {:induction false} KeepSolventCount(s: seq<Holding>)
    ensures |KeepSolvent(s)| == |s| - CountBankrupt(s)
  {
    if s != [] {
      KeepSolventCount(s[1..]);
    }
  }

  /** When at most one entry is bankrupt the skip never matters: the sweep as
      written equals the intended one. */
  lemma {:induction false} SkipFlushIsKeepSolvent(s: seq<Holding>)
    requires CountBankrupt(s) <= 1
    ensures SkipFlush(s) == KeepSolvent(s)
  {
    if s != [] {
      if Bankrupt(s[0]) {
        if |s| > 1 {
          assert CountBankrupt(s[1..]) == 0;
          assert !Bankrupt(s[1]);
          assert s[1..][1..] == s[2..];
          SkipFlushIsKeepSolvent(s[2..]);
        }
      } else {
        SkipFlushIsKeepSolvent(s[1..]);
      }
    }
  }

  /** One step of the sweep as written, from position `pos`. */
  lemma SkipFlushFrom(s: seq<Holding>, pos: nat)
    requires pos < |s|
    ensures Bankrupt(s[pos]) && pos + 1 < |s| ==> SkipFlush(s[pos..]) == [s[pos + 1]] + SkipFlush(s[pos + 2..])
    ensures Bankrupt(s[pos]) && pos + 1 == |s| ==> SkipFlush(s[pos..]) == []
    ensures !Bankrupt(s[pos]) ==> SkipFlush(s[pos..]) == [s[pos]] + SkipFlush(s[pos + 1..])
  {
    assert s[pos..][1..] == s[pos + 1..];
    if pos + 1 < |s| {
      assert s[pos..][2..] == s[pos + 2..];
    }
  }

  /** Removing one entry keeps ids unique. */
  lemma RemoveKeepsUniqueIds(s: seq<Holding>, k: nat)
    requires k < |s| && UniqueIds(s)
    ensures UniqueIds(s[..k] + s[k + 1..])
  {
    var r := s[..k] + s[k + 1..];
    forall i, j | 0 <= i < j < |r| ensures r[i].id != r[j].id {
      var i', j' := if i < k then i else i + 1, if j < k then j else j + 1;
      assert r[i] == s[i'] && r[j] == s[j'];
    }
  }

  /** Two bankrupt people next to each other: the sweep as written keeps the
      second one. */
  lemma SkipFlushKeepsSecondOfTwo(x: Holding, y: Holding)
    requires Bankrupt(x) && Bankrupt(y)
    ensures SkipFlush([x, y]) == [y] && KeepSolvent([x, y]) == []
  {
  }

  /** Removing entries with no coins keeps the total; survivors of a sweep
      keep unique ids. */
  lemma {:induction false} KeepSolventWealth(s: seq<Holding>)
    requires forall k :: 0 <= k < |s| ==> s[k].coins >= 0
    ensures Wealth(KeepSolvent(s)) == Wealth(s)
  {
    if s != [] {
      KeepSolventWealth(s[1..]);
    }
  }

  lemma {:induction false} KeepSolventUniqueIds(s: seq<Holding>)
    requires UniqueIds(s)
    ensures UniqueIds(KeepSolvent(s))
  {
    if s != [] {
      var rest := KeepSolvent(s[1..]);
      KeepSolventUniqueIds(s[1..]);
      if !Bankrupt(s[0]) {
        var r := [s[0]] + rest;
        forall i, j | 0 <= i < j < |r| ensures r[i].id != r[j].id {
          if i == 0 {
            assert r[j] in s[1..];
            var m :| 0 <= m < |s[1..]| && s[1..][m] == r[j];
            assert s[m + 1] == r[j];
          } else {
            assert r[i] == rest[i - 1] && r[j] == rest[j - 1];
          }
        }
      }
    }
  }

  // ---------------------------------------------------------------------
  // One round

  /** `single_iteration`: sample the pair, apply the transfer rule, sweep.
      None when the sample is impossible (fewer than two people). */
  function Step(s: seq<Holding>, chance: real, skillWeight: real, d: Draw): (r: Option<seq<Holding>>)
    requires Xor(chance, skillWeight)
    ensures r.Some? <==> |s| >= 2
  {
    match RandomTwoPeople(|s|, d.first, d.second)
    case None => None
    case Some((a, b)) =>
      var moved :=
        match WhoPays(chance, skillWeight, s[a].skill, s[b].skill, d.toss)
        case APays => Transfer(s, a, b)
        case BPays => Transfer(s, b, a);
      Some(SkipFlush(moved))
  }

  /** One round from a healthy population keeps the total, removes at most
      one person, leaves everyone with a coin and keeps ids unique; its sweep
      removes exactly the people the transfer made bankrupt, and keeps the
      others in order. */
  lemma StepKeepsHealth(s: seq<Holding>, chance: real, skillWeight: real, d: Draw)
    requires Xor(chance, skillWeight) && Healthy(s) && |s| >= 2
    ensures var r := Step(s, chance, skillWeight, d).value;
      Wealth(r) == Wealth(s) && |s| - 1 <= |r| <= |s| && Healthy(r)
    ensures var (a, b) := RandomTwoPeople(|s|, d.first, d.second).value;
      var moved :=
        if WhoPays(chance, skillWeight, s[a].skill, s[b].skill, d.toss) == APays
        then Transfer(s, a, b) else Transfer(s, b, a);
      var r := Step(s, chance, skillWeight, d).value;
      r == KeepSolvent(moved) && |r| == |s| - CountBankrupt(moved) && CountBankrupt(moved) <= 1
  {
    var (a, b) := RandomTwoPeople(|s|, d.first, d.second).value;
    var p := WhoPays(chance, skillWeight, s[a].skill, s[b].skill, d.toss);
    var giver, taker := if p == APays then a else b, if p == APays then b else a;
    assert Step(s, chance, skillWeight, d) == Some(SkipFlush(Transfer(s, giver, taker)));
    SweepAfterTransfer(s, giver, taker);
  }

  /** The sweep that follows a transfer between two distinct people of a
      healthy population meets at most one bankrupt entry, so it removes
      exactly that one: the total stays, and the rest stay healthy. */
  lemma SweepAfterTransfer(s: seq<Holding>, giver: nat, taker: nat)
    requires Healthy(s) && giver < |s| && taker < |s| && giver != taker
    ensures var moved := Transfer(s, giver, taker);
      && CountBankrupt(moved) <= 1
      && SkipFlush(moved) == KeepSolvent(moved)
      && |KeepSolvent(moved)| == |s| - CountBankrupt(moved)
      && Wealth(KeepSolvent(moved)) == Wealth(s)
      && Healthy(KeepSolvent(moved))
  {
    var moved := Transfer(s, giver, taker);
    TransferMovesOneCoin(s, giver, taker);
    OnlyGiverCanGoBankrupt(s, moved, giver);
    SkipFlushIsKeepSolvent(moved);
    KeepSolventCount(moved);
    KeepSolventWealth(moved);
    TransferKeepsUniqueIds(s, giver, taker);
    KeepSolventUniqueIds(moved);
    var r := KeepSolvent(moved);
    forall k | 0 <= k < |r| ensures r[k].coins >= 1 {
      assert r[k] in r;
    }
  }

  /** After a transfer from a healthy population, only the giver can be out,
      and only with exactly zero coins. */
  lemma OnlyGiverCanGoBankrupt(s: seq<Holding>, moved: seq<Holding>, giver: nat)
    requires Healthy(s) && |moved| == |s| && giver < |s|
    requires moved[giver].coins == s[giver].coins - 1
    requires forall k :: 0 <= k < |s| && k != giver ==> moved[k].coins >= s[k].coins
    ensures CountBankrupt(moved) <= 1
    ensures forall k :: 0 <= k < |moved| ==> moved[k].coins >= 0
  {
    CountAtMostOne(moved, giver);
  }

  lemma {:induction false} CountAtMostOne(s: seq<Holding>, k: nat)
    requires k < |s|
    requires forall m :: 0 <= m < |s| && m != k ==> !Bankrupt(s[m])
    ensures CountBankrupt(s) <= 1
  {
    if k == 0 {
      CountNone(s[1..]);
    } else {
      CountAtMostOne(s[1..], k - 1);
    }
  }

  lemma {:induction false} CountNone(s: seq<Holding>)
    requires forall m :: 0 <= m < |s| ==> !Bankrupt(s[m])
    ensures CountBankrupt(s) == 0
  {
    if s != [] {
      CountNone(s[1..]);
    }
  }

  // ---------------------------------------------------------------------
  // Stop test

  /** `len(people) <= N / 10`, whether `/` is Python 3 true division or
      Python 2 floor division. */
  function StopReached(size: nat, n: nat): (r: bool)
    ensures r <==> (size as real) <= (n as real) / 10.0
    ensures r <==> size <= n / 10
  {
    10 * size <= n
  }
}
