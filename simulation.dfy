/**
  The simulation as the program runs it: `Person` objects whose coins change
  in place, the list `people` that the elimination sweep shrinks in place,
  and the loop of `game`. Every method is proved against the value model:
  `People.View()` is the list as a sequence of holdings.
 */
module Simulation {
  import opened Wrappers
  import opened CoinRules
  import opened Ranking
  import opened Rounds

  /** A participant: an id and a skill fixed at creation, and a coin count
      that transfers change in place. The skill is drawn at random when the
      person is created; here it is an argument. */
  class Person {
    const id: int
    var coins: int
    const skill: real

    constructor (id: int, coins: int, skill: real)
      ensures this.id == id && this.coins == coins && this.skill == skill
    {
      this.id := id;
      this.coins := coins;
      this.skill := skill;
    }
  }

  /** A person as a value. */
  function Snap(p: Person): Holding
    reads p
  {
    Holding(p.id, p.coins, p.skill)
  }

  /** A list of people as values, in order. */
  function Snapshots(s: seq<Person>): (v: seq<Holding>)
    reads s
    ensures |v| == |s|
    ensures forall k :: 0 <= k < |s| ==> v[k] == Snap(s[k])
  {
    seq(|s|, k reads s requires 0 <= k < |s| => Snap(s[k]))
  }

  lemma SnapshotsRemove(s: seq<Person>, k: nat)
    requires k < |s|
    ensures Snapshots(s[..k] + s[k + 1..]) == Snapshots(s)[..k] + Snapshots(s)[k + 1..]
  {
  }

  /** The list `people`. Its entries have distinct ids, hence are distinct
      objects. */
  class People {
    var persons: seq<Person>

    constructor ()
      ensures persons == []
    {
      persons := [];
    }

    ghost predicate Valid()
      reads this, persons
    {
      UniqueIds(View())
    }

    /** The list as values, in order. */
    function View(): (v: seq<Holding>)
      reads this, persons
    {
      Snapshots(persons)
    }
  }

  /** `swap_coins(A, B)`: A gives one coin to B. Called with the same person
      twice it would change nothing; the model keeps that case. */
  method SwapCoins(a: Person, b: Person)
    modifies a, b
    ensures a != b ==> a.coins == old(a.coins) - 1 && b.coins == old(b.coins) + 1
    ensures a == b ==> a.coins == old(a.coins)
  {
    a.coins := a.coins - 1;
    b.coins := b.coins + 1;
  }

  /** `population(N, coins)`: N new people with ids 0..N-1, `coins` each,
      the i-th drawn skill for person i. */
  method Population(n: nat, coins: int, skills: seq<real>) returns (people: People)
    requires |skills| == n
    ensures fresh(people) && people.Valid()
    ensures forall p :: p in people.persons ==> fresh(p)
    ensures people.View() == InitialHoldings(n, coins, skills)
  {
    people := new People();
    var i := 0;
    while i < n
      invariant 0 <= i <= n && |people.persons| == i
      invariant forall k :: 0 <= k < i ==>
        people.persons[k].id == k && people.persons[k].coins == coins && people.persons[k].skill == skills[k]
      invariant forall p :: p in people.persons ==> fresh(p)
    {
      var p := new Person(i, coins, skills[i]);
      people.persons := people.persons + [p];
      i := i + 1;
    }
  }

  /** Where `list.remove(x)` removes: the first occurrence of `x`. */
  function FirstIndex(s: seq<Person>, x: Person): (k: nat)
    requires x in s
    ensures k < |s| && s[k] == x && x !in s[..k]
  {
    if s[0] == x then 0 else 1 + FirstIndex(s[1..], x)
  }

  /** `flush_bankrupts(people)`: walks the list with a `for` loop and calls
      `people.remove(b)` on every person with no coins left. The loop index
      moves on after a removal, so the person who slides into the removed
      slot is skipped; the result is `SkipFlush` of the list. */
  method FlushBankrupts(people: People)
    requires people.Valid()
    modifies people
    ensures people.Valid()
    ensures people.View() == SkipFlush(old(people.View()))
    ensures forall p :: p in people.persons ==> p in old(people.persons)
  {
    ghost var orig := people.View();
    ghost var done: seq<Holding> := [];
    ghost var pos := 0;
    var idx := 0;
    while idx < |people.persons|
      invariant people.Valid()
      invariant Swept(people.View(), orig, done, pos)
      invariant idx == |done| || (idx == |done| + 1 && pos == |orig|)
      invariant forall p :: p in people.persons ==> p in old(people.persons)
      decreases |orig| - pos
    {
      SweptLength(people.View(), orig, done, pos);
      done, pos := VisitAt(people, idx, orig, done, pos);
      idx := idx + 1;
    }
    SweptLength(people.View(), orig, done, pos);
  }

  /** One turn of the sweep's loop, at list index `idx`: removes the person
      there if bankrupt. */
  method VisitAt(people: People, idx: nat, ghost orig: seq<Holding>, ghost done: seq<Holding>, ghost pos: nat)
    returns (ghost done': seq<Holding>, ghost pos': nat)
    requires people.Valid() && Swept(people.View(), orig, done, pos)
    requires idx == |done| < |people.persons|
    modifies people
    ensures people.Valid() && Swept(people.View(), orig, done', pos')
    ensures pos < pos' <= pos + 2 && (|done'| == idx + 1 || (done' == done && pos' == |orig|))
    ensures people.persons ==
      if old(people.persons[idx].coins) <= 0 then old(people.persons[..idx] + people.persons[idx + 1..])
      else old(people.persons)
    ensures forall p :: p in people.persons ==> p in old(people.persons)
  {
    SweptLength(people.View(), orig, done, pos);
    var b := people.persons[idx];
    if b.coins <= 0 {
      // people.remove(b)
      var k := FirstIndex(people.persons, b);
      assert k == idx by {
        assert people.View()[k].id == people.View()[idx].id;
      }
      SweepRemoves(people.View(), orig, done, pos);
      RemoveAt(people, k);
      if pos + 1 < |orig| {
        done', pos' := done + [orig[pos + 1]], pos + 2;
      } else {
        done', pos' := done, pos + 1;
      }
    } else {
      SweepKeeps(people.View(), orig, done, pos);
      done', pos' := done + [orig[pos]], pos + 1;
    }
  }

  /** Takes out the entry at position `k`. */
  method RemoveAt(people: People, k: nat)
    requires people.Valid() && k < |people.persons|
    modifies people
    ensures people.Valid()
    ensures people.persons == old(people.persons[..k] + people.persons[k + 1..])
    ensures people.View() == old(people.View()[..k] + people.View()[k + 1..])
    ensures forall p :: p in people.persons ==> p in old(people.persons)
  {
    SnapshotsRemove(people.persons, k);
    RemoveKeepsUniqueIds(people.View(), k);
    people.persons := people.persons[..k] + people.persons[k + 1..];
  }

  /** The state of the sweep over `orig`: the list now reads `view`, made of
      the entries already passed (`done`) followed by the unvisited rest
      `orig[pos..]`; and `done` is the start of what the sweep returns. */
  ghost predicate Swept(view: seq<Holding>, orig: seq<Holding>, done: seq<Holding>, pos: nat)
  {
    pos <= |orig| && view == done + orig[pos..] && done + SkipFlush(orig[pos..]) == SkipFlush(orig)
  }

  lemma SweptLength(view: seq<Holding>, orig: seq<Holding>, done: seq<Holding>, pos: nat)
    requires Swept(view, orig, done, pos)
    ensures |view| == |done| + |orig| - pos
    ensures pos < |orig| ==> view[|done|] == orig[pos]
    ensures pos == |orig| ==> view == SkipFlush(orig)
  {
    if pos == |orig| {
      assert orig[pos..] == [];
      assert view == done;
    }
  }

  /** The sweep meets a solvent entry at `pos`: it stays. */
  lemma SweepKeeps(view: seq<Holding>, orig: seq<Holding>, done: seq<Holding>, pos: nat)
    requires Swept(view, orig, done, pos) && pos < |orig| && !Bankrupt(orig[pos])
    ensures Swept(view, orig, done + [orig[pos]], pos + 1)
  {
    assert orig[pos..] == [orig[pos]] + orig[pos + 1..];
    SkipFlushFrom(orig, pos);
  }

  /** The sweep meets a bankrupt entry at `pos`: it is dropped from the list,
      and the entry after it, if any, is passed over and kept. */
  lemma SweepRemoves(view: seq<Holding>, orig: seq<Holding>, done: seq<Holding>, pos: nat)
    requires Swept(view, orig, done, pos) && pos < |orig| && Bankrupt(orig[pos])
    ensures var after := view[..|done|] + view[|done| + 1..];
      if pos + 1 < |orig| then Swept(after, orig, done + [orig[pos + 1]], pos + 2)
      else Swept(after, orig, done, pos + 1)
  {
    var after := view[..|done|] + view[|done| + 1..];
    assert after == done + orig[pos + 1..] by {
      assert view[..|done|] == done;
      assert view[|done| + 1..] == orig[pos + 1..];
    }
    SkipFlushFrom(orig, pos);
    if pos + 1 < |orig| {
      var next, rest := orig[pos + 1], orig[pos + 2..];
      assert orig[pos + 1..] == [next] + rest;
      assert done + ([next] + rest) == (done + [next]) + rest;
      assert done + ([next] + SkipFlush(rest)) == (done + [next]) + SkipFlush(rest);
    } else {
      assert orig[pos + 1..] == [];
    }
  }

  /** `single_iteration`: sample a pair, apply the transfer rule of the
      configured mode, then sweep. It fails, changing nothing, when fewer
      than two people are left to sample; otherwise the new list is what
      `Step` gives. */
  method SingleIteration(people: People, chance: real, skillWeight: real, d: Draw) returns (ok: bool)
    requires people.Valid() && Xor(chance, skillWeight)
    modifies people, set p | p in people.persons
    ensures people.Valid()
    ensures Step(old(people.View()), chance, skillWeight, d) == if ok then Some(people.View()) else None
    ensures !ok ==> people.persons == old(people.persons) && people.View() == old(people.View())
    ensures forall p :: p in people.persons ==> p in old(people.persons)
  {
    var pair := RandomTwoPeople(|people.persons|, d.first, d.second);
    if pair.None? {
      return false;
    }
    var (i, j) := pair.value;
    var a, b := people.persons[i], people.persons[j];
    if chance != 0.0 {
      if d.toss {
        SwapCoinsAt(people, i, j);
      } else {
        SwapCoinsAt(people, j, i);
      }
    } else if skillWeight != 0.0 {
      if a.skill > b.skill && d.toss {
        SwapCoinsAt(people, j, i);
      } else {
        SwapCoinsAt(people, i, j);
      }
    }
    FlushBankrupts(people);
    ok := true;
  }

  /** `swap_coins(A, B)` with A and B the people at positions `giver` and
      `taker` of the list. */
  method SwapCoinsAt(people: People, giver: nat, taker: nat)
    requires people.Valid() && giver < |people.persons| && taker < |people.persons| && giver != taker
    modifies set p | p in people.persons
    ensures people.Valid()
    ensures people.View() == Transfer(old(people.View()), giver, taker)
  {
    ghost var before := people.View();
    var a, b := people.persons[giver], people.persons[taker];
    assert before[giver].id != before[taker].id;
    SwapCoins(a, b);
    TransferMovesOneCoin(before, giver, taker);
    TransferKeepsUniqueIds(before, giver, taker);
    forall k | 0 <= k < |before| && k != giver && k != taker
      ensures people.persons[k].coins == before[k].coins
    {
      assert before[k].id != a.id && before[k].id != b.id;
    }
    assert people.View() == Transfer(before, giver, taker);
  }

  /** `game(N, coins, chance, skill_weight)`: build the population, then run
      rounds, counting them, until `len(people) <= N / 10`, and report the
      survivors sorted by coins. Each round consumes one draw of the stream. */
  method Game(n: nat, coins: int, chance: real, skillWeight: real, skills: seq<real>, draws: seq<Draw>)
    returns (outcome: Outcome)
    requires Xor(chance, skillWeight) && |skills| == n
    ensures outcome == Play(n, InitialHoldings(n, coins, skills), chance, skillWeight, draws, 0)
  {
    ghost var init := InitialHoldings(n, coins, skills);
    var people := Population(n, coins, skills);
    var i := 0;
    while i < |draws|
      invariant 0 <= i <= |draws|
      invariant fresh(people) && people.Valid()
      invariant forall p :: p in people.persons ==> fresh(p)
      invariant Play(n, people.View(), chance, skillWeight, draws[i..], i) == Play(n, init, chance, skillWeight, draws, 0)
    {
      assert draws[i..][0] == draws[i] && draws[i..][1..] == draws[i + 1..];
      var d := draws[i];
      i := i + 1;
      var ok := SingleIteration(people, chance, skillWeight, d);
      if !ok {
        return SampleError(i);
      }
      if StopReached(|people.persons|, n) {
        var survivors := people.View();
        return Finished(i, survivors, SortByCoinsDesc(survivors));
      }
    }
    outcome := OutOfDraws(i);
  }
}
