/**
  A whole game on values: `game` repeats rounds until at most a tenth of the
  starting population is left, then ranks the survivors. The random draws
  come as a finite stream, one `Draw` per round.
 */
module Rounds {
  import opened Wrappers
  import opened CoinRules
  import opened Ranking

  /** How a game ends. `iterations` is the counter `i` of `game`. */
  datatype Outcome =
    | Finished(iterations: nat, survivors: seq<Holding>, ranking: seq<Holding>)
      // the stop test held; `ranking` is the sorted report list
    | SampleError(iterations: nat)
      // `random.sample` was asked for two people out of fewer than two
    | OutOfDraws(iterations: nat)
      // the supplied random stream ended before the game did

  /** The rounds of `game` from population `s`, after `done` rounds. */
  function Play(n: nat, s: seq<Holding>, chance: real, skillWeight: real, draws: seq<Draw>, done: nat): (o: Outcome)
    requires Xor(chance, skillWeight)
    ensures done <= o.iterations <= done + |draws|
    ensures o.OutOfDraws? ==> o.iterations == done + |draws|
    ensures o.Finished? ==> done < o.iterations && StopReached(|o.survivors|, n)
    ensures o.Finished? ==> multiset(o.ranking) == multiset(o.survivors) && SortedDesc(o.ranking)
    ensures draws != [] && |s| < 2 ==> o == SampleError(done + 1)
    decreases |draws|
  {
    if draws == [] then OutOfDraws(done)
    else
      match Step(s, chance, skillWeight, draws[0])
      case None => SampleError(done + 1)
      case Some(next) =>
        if StopReached(|next|, n) then Finished(done + 1, next, SortByCoinsDesc(next))
        else Play(n, next, chance, skillWeight, draws[1..], done + 1)
  }

  /** The population after playing the rounds `ds` one after another, with
      no stop test; None once a sample fails. */
  function After(s: seq<Holding>, chance: real, skillWeight: real, ds: seq<Draw>): Option<seq<Holding>>
    requires Xor(chance, skillWeight)
    decreases |ds|
  {
    if ds == [] then Some(s)
    else
      match Step(s, chance, skillWeight, ds[0])
      case None => None
      case Some(next) => After(next, chance, skillWeight, ds[1..])
  }

  /** Playing the first `j` draws from `s` is playing the first round, then
      the next `j - 1` draws from where it left the population. */
  lemma AfterFirstRound(s: seq<Holding>, chance: real, skillWeight: real, draws: seq<Draw>, j: nat, next: seq<Holding>)
    requires Xor(chance, skillWeight) && 1 <= j <= |draws|
    requires Step(s, chance, skillWeight, draws[0]) == Some(next)
    ensures After(s, chance, skillWeight, draws[..j]) == After(next, chance, skillWeight, draws[1..][..j - 1])
  {
    assert draws[..j][0] == draws[0];
    assert draws[..j][1..] == draws[1..][..j - 1];
  }

  /** Outcome `o` is what `game` reports when it stops at the first round
      after which the population meets the stop test, and only there. With
      `k` the number of rounds played: every earlier round left a population
      above the threshold; a finished game reports the population after
      exactly `k` rounds, sorted; a failed sample is the `k`-th round
      failing; a game out of draws played them all without meeting the
      test. */
  ghost predicate StopsAtFirstMet(n: nat, s: seq<Holding>, chance: real, skillWeight: real, draws: seq<Draw>, done: nat, o: Outcome)
    requires Xor(chance, skillWeight)
  {
    var k := o.iterations - done;
    && 0 <= k <= |draws|
    && (!o.OutOfDraws? ==> 1 <= k)
    && (forall j :: 1 <= j < k ==>
          && After(s, chance, skillWeight, draws[..j]).Some?
          && !StopReached(|After(s, chance, skillWeight, draws[..j]).value|, n))
    && (o.Finished? ==>
          && After(s, chance, skillWeight, draws[..k]) == Some(o.survivors)
          && o.ranking == SortByCoinsDesc(o.survivors))
    && (o.SampleError? ==> After(s, chance, skillWeight, draws[..k]) == None)
    && (o.OutOfDraws? ==> k == |draws| && (draws != [] ==>
          && After(s, chance, skillWeight, draws[..k]).Some?
          && !StopReached(|After(s, chance, skillWeight, draws[..k]).value|, n)))
  }

  /** `game` stops exactly at the first round whose population meets the
      stop test (`StopsAtFirstMet`). */
  lemma {:induction false} PlayStopsAtFirstMet(n: nat, s: seq<Holding>, chance: real, skillWeight: real, draws: seq<Draw>, done: nat)
    requires Xor(chance, skillWeight)
    ensures StopsAtFirstMet(n, s, chance, skillWeight, draws, done, Play(n, s, chance, skillWeight, draws, done))
    decreases |draws|
  {
    if draws != [] {
      match Step(s, chance, skillWeight, draws[0])
      case None =>
        StopsInFirstRound(n, s, chance, skillWeight, draws, done);
      case Some(next) =>
        if StopReached(|next|, n) {
          StopsInFirstRound(n, s, chance, skillWeight, draws, done);
        } else {
          var o := Play(n, next, chance, skillWeight, draws[1..], done + 1);
          PlayStopsAtFirstMet(n, next, chance, skillWeight, draws[1..], done + 1);
          StopsAfterFirstRound(n, s, next, chance, skillWeight, draws, done, o);
        }
    }
  }

  /** A game whose first round fails or meets the stop test stops there. */
  lemma StopsInFirstRound(n: nat, s: seq<Holding>, chance: real, skillWeight: real, draws: seq<Draw>, done: nat)
    requires Xor(chance, skillWeight) && draws != []
    requires var r := Step(s, chance, skillWeight, draws[0]); r.None? || StopReached(|r.value|, n)
    ensures var r := Step(s, chance, skillWeight, draws[0]);
      StopsAtFirstMet(n, s, chance, skillWeight, draws, done,
        if r.None? then SampleError(done + 1) else Finished(done + 1, r.value, SortByCoinsDesc(r.value)))
  {
    assert draws[..1][0] == draws[0] && draws[..1][1..] == [];
  }

  /** A game that goes on past its first round stops where the game from the
      population that round left stops. */
  lemma StopsAfterFirstRound(n: nat, s: seq<Holding>, next: seq<Holding>, chance: real, skillWeight: real, draws: seq<Draw>, done: nat, o: Outcome)
    requires Xor(chance, skillWeight) && draws != []
    requires Step(s, chance, skillWeight, draws[0]) == Some(next) && !StopReached(|next|, n)
    requires StopsAtFirstMet(n, next, chance, skillWeight, draws[1..], done + 1, o)
    ensures StopsAtFirstMet(n, s, chance, skillWeight, draws, done, o)
  {
    var rest := draws[1..];
    var k := o.iterations - done;
    assert draws[..1][0] == draws[0] && draws[..1][1..] == [];
    assert After(s, chance, skillWeight, draws[..1]) == Some(next);
    forall j | 1 <= j <= k
      ensures After(s, chance, skillWeight, draws[..j]) == After(next, chance, skillWeight, rest[..j - 1])
    {
      AfterFirstRound(s, chance, skillWeight, draws, j, next);
    }
  }

  /** A game from a healthy population that finishes has run at least one
      round and at most one per draw, has lost at most one person per round,
      ends at or below a tenth of N with every coin still in play, healthy
      survivors, and a report that is a stable descending permutation of
      them. A game that runs out of draws used them all. */
  lemma {:induction false} PlayOutcome(n: nat, s: seq<Holding>, chance: real, skillWeight: real, draws: seq<Draw>, done: nat)
    requires Xor(chance, skillWeight) && Healthy(s)
    ensures var o := Play(n, s, chance, skillWeight, draws, done);
      done < o.iterations <= done + |draws| || (o.OutOfDraws? && o.iterations == done + |draws|)
    ensures var o := Play(n, s, chance, skillWeight, draws, done);
      o.Finished? ==>
        && 10 * |o.survivors| <= n
        && |s| - (o.iterations - done) <= |o.survivors| <= |s|
        && Healthy(o.survivors)
        && Wealth(o.survivors) == Wealth(s)
        && o.ranking == SortByCoinsDesc(o.survivors)
        && multiset(o.ranking) == multiset(o.survivors)
        && SortedDesc(o.ranking)
        && (forall c :: WithCoins(o.ranking, c) == WithCoins(o.survivors, c))
    decreases |draws|
  {
    if draws != [] && |s| >= 2 {
      var next := Step(s, chance, skillWeight, draws[0]).value;
      StepKeepsHealth(s, chance, skillWeight, draws[0]);
      if StopReached(|next|, n) {
        forall c ensures WithCoins(SortByCoinsDesc(next), c) == WithCoins(next, c) {
          SortIsStable(next, c);
        }
      } else {
        PlayOutcome(n, next, chance, skillWeight, draws[1..], done + 1);
      }
    }
  }

  /** With N below ten, a game in which everyone holds coins can never pass
      the stop test: it would need to end with nobody left, while all coins
      stay in play. An empty population fails its first sample instead. */
  lemma ShortGameNeverFinishes(n: nat, s: seq<Holding>, chance: real, skillWeight: real, draws: seq<Draw>, done: nat)
    requires Xor(chance, skillWeight) && Healthy(s) && n < 10
    ensures !Play(n, s, chance, skillWeight, draws, done).Finished?
  {
    PlayOutcome(n, s, chance, skillWeight, draws, done);
    HealthyWealth(s);
  }

  /** With N of ten or more, a healthy game above its stop threshold always
      has two people to sample: the population shrinks by at most one per
      round, so it meets the threshold, at a size of at least one, first. */
  lemma {:induction false} LargeGameNeverFailsToSample(n: nat, s: seq<Holding>, chance: real, skillWeight: real, draws: seq<Draw>, done: nat)
    requires Xor(chance, skillWeight) && Healthy(s) && n >= 10 && !StopReached(|s|, n)
    ensures !Play(n, s, chance, skillWeight, draws, done).SampleError?
    decreases |draws|
  {
    if draws != [] {
      StepKeepsHealth(s, chance, skillWeight, draws[0]);
      var next := Step(s, chance, skillWeight, draws[0]).value;
      if !StopReached(|next|, n) {
        LargeGameNeverFailsToSample(n, next, chance, skillWeight, draws[1..], done + 1);
      }
    }
  }

  /** What a game started by `game(N, coins, ...)` with at least one coin
      each can end with: below ten people it never finishes; from ten up it
      never fails to sample; when it finishes, every coin of the N * coins
      handed out is still held, by at most a tenth of N healthy survivors,
      ranked from richest to poorest. */
  lemma GameOutcome(n: nat, coins: int, chance: real, skillWeight: real, skills: seq<real>, draws: seq<Draw>)
    requires Xor(chance, skillWeight) && |skills| == n && coins >= 1
    ensures var o := Play(n, InitialHoldings(n, coins, skills), chance, skillWeight, draws, 0);
      && (n >= 10 ==> !o.SampleError?)
      && (n < 10 ==> !o.Finished?)
      && (o.Finished? ==>
            && 10 * |o.survivors| <= n
            && Healthy(o.survivors)
            && Wealth(o.survivors) == n * coins
            && multiset(o.ranking) == multiset(o.survivors)
            && SortedDesc(o.ranking))
  {
    var init := InitialHoldings(n, coins, skills);
    InitialPopulation(n, coins, skills);
    PlayOutcome(n, init, chance, skillWeight, draws, 0);
    if n >= 10 {
      LargeGameNeverFailsToSample(n, init, chance, skillWeight, draws, 0);
    } else {
      ShortGameNeverFinishes(n, init, chance, skillWeight, draws, 0);
    }
  }
}
