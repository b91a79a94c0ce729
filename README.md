# Coin swap simulation, modelled in Dafny

The program simulates a game of chance played by N people who start with the
same number of coins. In each round it picks two people at random and moves
one coin between them. In *chance* mode a biased coin decides who pays. In
*skill* mode each person's random skill can tilt the outcome. People who
reach zero coins are eliminated. The game stops once at most a tenth of the
starting population is left. The survivors are then sorted by coins and the
five richest and five poorest are reported.

The model has two layers:

- **Values** (`CoinRules`, `Ranking`, `Rounds`). A `Holding` is a snapshot
  of one person: id, coins and skill.
  - A round (`Step`) and a whole game (`Play`) are functions of the
    population and of the random draws.
  - The properties of the game are lemmas about these functions.
- **Objects** (`Simulation`). `Person` is a class whose `coins` field
  transfers update in place.
  - `People` holds the program's list of persons; the sweep removes
    entries from that list in place.
  - `SwapCoins` changes two `Person` objects: one coin leaves A and
    reaches B.
  - `SwapCoinsAt`, `Population`, `FlushBankrupts` and `SingleIteration`
    are methods on the list. Each is proved to leave the list exactly as
    its value counterpart says, through `People.View()`, the list read as
    holdings.
  - `Game` runs the rounds on the list and is proved to return the outcome
    that `Play` gives for the starting population.

Randomness is an input:

- each skill drawn by `random.random()` is an element of `skills`;
- each round consumes one `Draw`, holding the two picks of `random.sample`
  and the outcome `toss` of the round's `random.random() < p` comparison.
  In skill mode that comparison is made only when A is more skilled than B,
  because the `and` short-circuits; otherwise `toss` is unused.

The game's `while True` loop runs over a finite stream of draws. A game that
outlasts its draws ends as `OutOfDraws`.

`flush_bankrupts` removes persons from the list while a `for` loop walks the
same list. The person right after a removed one therefore slides into the
visited slot and is skipped. The model keeps this behaviour (`SkipFlush`),
and `SkipFlushKeepsSecondOfTwo` shows the skip: of two adjacent bankrupt
persons, the second survives. `SkipFlushIsKeepSolvent` shows that the skip
cannot matter when at most one person is bankrupt. A transfer from a healthy
population makes at most one person bankrupt (`SweepAfterTransfer`). So in
every round of a game that starts with at least one coin each, the sweep
removes exactly the people the transfer made bankrupt and keeps everyone
else in order (`StepKeepsHealth`).

The threshold `len(people) <= N / 10` is hard-coded in the source. It is
read the same way under integer and true division (`StopReached`). As a
consequence, a game with N below ten and at least one coin each never
finishes (`ShortGameNeverFinishes`). It can only run until the pair sample
fails or the draws end.

## Model

| member | source | states |
|---|---|---|
| Simulation.Person.constructor | coin_swap_simulation/coin_swap_simulation.py:26-31 | a new person has the given id, coins and (drawn) skill |
| Simulation.SwapCoins | coin_swap_simulation/coin_swap_simulation.py:39-41 | A loses one coin and B gains one; called with the same person twice, nothing changes |
| CoinRules.Transfer | coin_swap_simulation/coin_swap_simulation.py:39-41 | `swap_coins` on the positions of A and B keeps the list's length, every id and skill, and everyone other than A and B; with A and B the same person, nothing changes |
| CoinRules.TransferMovesOneCoin | coin_swap_simulation/coin_swap_simulation.py:39-41 | between two distinct people, the giver has one coin less and the taker one more; nobody else changes; ids and skills stay; the total wealth is unchanged |
| CoinRules.TransferKeepsUniqueIds | coin_swap_simulation/coin_swap_simulation.py:39-41 | a transfer keeps the ids unique |
| Simulation.SwapCoinsAt | coin_swap_simulation/coin_swap_simulation.py:39-41 | swapping coins between the persons at two list positions turns the list's holdings into `Transfer` of the old holdings, and keeps ids unique |
| Simulation.Population | coin_swap_simulation/coin_swap_simulation.py:44-45 | builds N fresh persons whose holdings are exactly `InitialHoldings(N, coins, skills)`, with unique ids |
| CoinRules.InitialHoldings | coin_swap_simulation/coin_swap_simulation.py:44-45 | `population(N, coins)` as values has N entries; their contents are stated by `InitialPopulation` |
| CoinRules.InitialPopulation | coin_swap_simulation/coin_swap_simulation.py:44-45 | person i has id i, the given coins and the i-th skill; ids are unique; the total is N * coins; with at least one coin each the population is healthy |
| CoinRules.RandomTwoPeople | coin_swap_simulation/coin_swap_simulation.py:48-49 | a pair is drawn exactly when at least two people are left; it is two distinct positions in range; otherwise the sample fails |
| CoinRules.EveryPairCanBeDrawn | coin_swap_simulation/coin_swap_simulation.py:48-49 | every ordered pair of distinct positions is produced by some draw |
| Simulation.FlushBankrupts | coin_swap_simulation/coin_swap_simulation.py:52-55 | the loop that removes while it iterates leaves the list as `SkipFlush` of the old list, keeps ids unique and adds no one |
| Simulation.VisitAt | coin_swap_simulation/coin_swap_simulation.py:53-55 | one turn of the loop: the list loses exactly the person at the loop index if that person is bankrupt and is otherwise unchanged, and the sweep advances past one or two entries of the original list |
| Simulation.RemoveAt | coin_swap_simulation/coin_swap_simulation.py:55 | removing the entry at one position leaves all other entries in order, and keeps ids unique |
| Simulation.FirstIndex | coin_swap_simulation/coin_swap_simulation.py:55 | `list.remove` finds the first position that holds the object |
| CoinRules.SkipFlush | coin_swap_simulation/coin_swap_simulation.py:52-55 | the sweep as written keeps only entries of the list, and removes at most as many entries as are bankrupt |
| CoinRules.KeepSolvent | coin_swap_simulation/coin_swap_simulation.py:52-55 | the intended sweep keeps exactly the entries with at least one coin |
| CoinRules.KeepSolventCount | coin_swap_simulation/coin_swap_simulation.py:52-55 | the intended sweep shrinks the list by exactly the number of bankrupt entries |
| CoinRules.KeepSolventWealth | coin_swap_simulation/coin_swap_simulation.py:52-55 | when nobody is in debt, the sweep keeps the total wealth |
| CoinRules.KeepSolventUniqueIds | coin_swap_simulation/coin_swap_simulation.py:52-55 | the sweep keeps ids unique |
| CoinRules.SkipFlushIsKeepSolvent | coin_swap_simulation/coin_swap_simulation.py:52-55 | with at most one bankrupt entry, the sweep as written equals the intended one |
| CoinRules.SkipFlushKeepsSecondOfTwo | coin_swap_simulation/coin_swap_simulation.py:52-55 | with two adjacent bankrupt entries, the sweep as written keeps the second one, while the intended sweep keeps neither |
| CoinRules.Xor | coin_swap_simulation/coin_swap_simulation.py:58-60 | true exactly when one of the two settings is nonzero |
| CoinRules.WhoPays | coin_swap_simulation/coin_swap_simulation.py:68-81 | chance mode: A pays exactly when the draw succeeds; skill mode: B pays exactly when A is more skilled and the draw succeeds, so A pays when skills tie or B is more skilled |
| CoinRules.RuleShape | coin_swap_simulation/coin_swap_simulation.py:68-81 | chance mode ignores skill; in skill mode with equal skills, A pays in either order |
| CoinRules.Step | coin_swap_simulation/coin_swap_simulation.py:63-83 | a round fails exactly when fewer than two people are left |
| CoinRules.SweepAfterTransfer | coin_swap_simulation/coin_swap_simulation.py:68-83 | after a transfer within a healthy population at most one person is bankrupt, so the sweep as written removes exactly the bankrupt; the list shrinks by their number, the total wealth stays, and the survivors are healthy |
| CoinRules.StepKeepsHealth | coin_swap_simulation/coin_swap_simulation.py:63-83 | a round from a healthy population keeps the total wealth and removes at most one person; its result is exactly the transferred list without its bankrupt entries, in order, so it shrinks by exactly their number; everyone left has at least one coin and the ids stay unique |
| Simulation.SingleIteration | coin_swap_simulation/coin_swap_simulation.py:63-83 | the round changes the list exactly as `Step` says; when fewer than two people are left it fails and leaves the list unchanged |
| CoinRules.StopReached | coin_swap_simulation/coin_swap_simulation.py:100 | the stop test `len <= N / 10` agrees with both the true-division and the floor-division reading |
| Rounds.Play | coin_swap_simulation/coin_swap_simulation.py:94-113 | the rounds of `game` over the draws: the counter grows by one per round and never past the number of draws; running out of draws means every draw was used; a finished game met the stop test and reports its survivors as a descending permutation; with fewer than two people the first round fails its sample |
| Rounds.PlayStopsAtFirstMet | coin_swap_simulation/coin_swap_simulation.py:94-113 | the game stops at the first round whose population meets `len <= N / 10`: with `k` rounds played (each a `Step`), every earlier round left a population above the threshold; a finished game reports the population after exactly `k` rounds, sorted; a failed sample is the `k`-th round failing; a game out of draws played them all and never met the test |
| Simulation.Game | coin_swap_simulation/coin_swap_simulation.py:86-113 | the game's outcome is exactly `Play` of the initial population over the draws |
| Rounds.PlayOutcome | coin_swap_simulation/coin_swap_simulation.py:94-113 | a finished game ran between one round and one round per draw, and lost at most one person per round; at most N/10 survivors remain, healthy and holding all the wealth; the report is the survivors sorted stably by coins, descending; a game out of draws used them all |
| Rounds.ShortGameNeverFinishes | coin_swap_simulation/coin_swap_simulation.py:86-100 | with N below ten and everyone holding coins, the game never finishes |
| Rounds.LargeGameNeverFailsToSample | coin_swap_simulation/coin_swap_simulation.py:94-100 | with N of ten or more, a healthy game above its threshold never runs out of people to sample |
| Rounds.GameOutcome | coin_swap_simulation/coin_swap_simulation.py:86-113 | with at least one coin each, a game never fails to sample from N ≥ 10, and never finishes for N < 10; a finished game keeps all N * coins coins among at most N/10 healthy survivors, reported as a descending permutation of them |
| Ranking.SortByCoinsDesc | coin_swap_simulation/coin_swap_simulation.py:110 | the report is a permutation of the survivors, sorted by coins from most to fewest |
| Ranking.SortIsStable | coin_swap_simulation/coin_swap_simulation.py:110 | people with equal coins keep their list order in the report |
| Ranking.Richest | coin_swap_simulation/coin_swap_simulation.py:111 | the first min(5, len) entries; in a sorted report none of the others has more coins |
| Ranking.Poorest | coin_swap_simulation/coin_swap_simulation.py:112 | the last min(5, len) entries; in a sorted report none of the others has fewer coins |

## Left out

- The `random` module. Skills, pair picks and coin tosses are inputs: `skills` and one `Draw` per round. The distribution of the draws is not modelled.
- The probability that a game terminates, and the statistics of skill bias. These are properties of the random process, not of a single run.
- Floating point. Skills, `chance` and `skill_weight` are reals. A comparison `random.random() < p` is modelled only by its boolean outcome.
- Printing: the `print` and `pprint` calls, the `debug` flag, timing with `time.time()`, and `Person.__repr__`.
- The four driver calls at the end of the file. They only call `game` with fixed arguments.
- Simulation.Game: the unbounded `while True` loop runs over a finite stream of draws. A game that needs more rounds than there are draws ends as `OutOfDraws`.
- Simulation.Game: the report carries the survivors as holdings, not as person objects. The five richest and five poorest entries it prints are `Richest` and `Poorest` of the report; `Game` does not compute them itself.
- Simulation.Game: a `ValueError` from `random.sample` on fewer than two people ends the game as `SampleError`. The exception itself is not modelled.
- Simulation.FlushBankrupts: `list.remove` can raise `ValueError` when the element is missing, but here the element is always in the list.
- Simulation.FlushBankrupts: the methods on `People` require unique ids, which every population built by `Population` has. `list.remove` compares persons by identity, so unique ids make the removed person the one at the loop index.
- Simulation.Population, Simulation.Game: N is a natural number. A negative N in Python gives an empty population, like N = 0, whose game fails at its first sample.
- Simulation.SingleIteration, Simulation.Game: the assertion `xor(chance, skill_weight)` at lines 65 and 87 is a precondition, so the `AssertionError` it raises is not modelled.
