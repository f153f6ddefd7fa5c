# Duet board generator, modelled in Dafny

The generator turns the standard word-guessing card game into its two-player
"duet" variant. It produces one board of `MAT_SIZE` (25) tiles per player. On
each board the player's own green tiles (4) and black tile (1) are marked, and
every other tile is neutral. Neither player's marked tiles are marked on the
other player's board.

The model has two modules:

- `IndexLists` (`index_lists.dfy`): the Python list of free board indexes.
  The class `IndexList` holds the mutable list, and `IndexList.Remove` is
  Python's `list.remove`. Beside it are the functions that specify a draw:
  - `Sample` is the values at a set of positions, i.e. the result of
    `random.sample`;
  - `RemoveEach` is the first occurrence of each drawn value removed;
  - `Without` is an order-keeping filter.
  The lemmas relate these three.
- `DuetMatrices` (`duet_matrices.dfy`): `Tile`, the three constants, and the
  generator's functions:
  - the index allocator `RandomlyChooseIndexes`, with its removal loop
    `RemoveChosen`;
  - the board builder `GenerateMat`;
  - the orchestrator `GetPlayerMatrices`;
  - the rule check `TestMatrices`, a predicate.

How the randomness is modelled: `random.sample(available, amount)` becomes a
nondeterministic choice (`:|`) of any `amount` distinct positions of the list.
The chosen set is the set of values at those positions. A list with repeated
values can therefore yield fewer than `amount` values, as in Python. Iterating
over the chosen set in an unspecified order is a nondeterministic choice too.
The properties are proved for every choice.

`random.sample` raises `ValueError` when `amount` is negative or larger than
the list. The model returns `Err(InsufficientIndexes)` in that case. The list
is left unchanged, and the error propagates out of `GetPlayerMatrices`.

## Model

| member | source | states |
|---|---|---|
| `IndexLists.Indexes` | generate_duet_matrices.py:55 | the initial pool `[i for i in range(mat_size)]` has `mat_size` elements, `r[i] == i`, no repeats, and holds exactly the integers of `[0, mat_size)` |
| `IndexLists.RemoveFirst` | generate_duet_matrices.py:32 | `list.remove(v)` on a list containing `v` shortens it by one and removes exactly one copy of `v` from its multiset of elements |
| `IndexLists.IndexList.Remove` | generate_duet_matrices.py:32 | the in-place `list.remove` replaces the list with `RemoveFirst` of its old value, one element shorter |
| `IndexLists.SampleContents` | generate_duet_matrices.py:30 | `random.sample` picking the positions `ps` returns `|ps|` values, all from the list, with no repeats when the list has none |
| `IndexLists.SampledValues` | generate_duet_matrices.py:30 | `set(random.sample(...))` is a subset of the list's values with at most `amount` elements, and exactly `amount` when the list has no repeats |
| `IndexLists.RemoveEachStep` | generate_duet_matrices.py:31-32 | a value drawn but not yet removed is still in the list, and removing it gives the list with that value added to the removed set |
| `IndexLists.RemoveEachSize` | generate_duet_matrices.py:31-33 | removing a set of values that all occur in the list shortens it by exactly the size of the set, even when the list has repeats |
| `IndexLists.RemoveEachOfDistinct` | generate_duet_matrices.py:31-33 | on a list without repeats, the removals give the order-preserving filter `Without`, so the remaining indexes keep their relative order |
| `IndexLists.WithoutContents` | generate_duet_matrices.py:31-33 | the filtered list holds exactly the old values minus the removed ones, with no repeats when the old list had none |
| `DuetMatrices.RemoveChosen` | generate_duet_matrices.py:31-32 | visiting the chosen set in any order and removing each value leaves `RemoveEach(old list, chosen)` |
| `DuetMatrices.RandomlyChooseIndexes` | generate_duet_matrices.py:25-33 | success iff `0 <= amount <= len`, and the list is unchanged on failure. On success the chosen set lies within the old list and has at most `amount` values, and the list becomes the old list minus one copy of each chosen value, shorter by the size of the set. On a list without repeats: exactly `amount` values, no repeats left, old order kept, and the old values minus the chosen ones remain |
| `DuetMatrices.GenerateMat` | generate_duet_matrices.py:36-48 | the board has `max(mat_size, 0)` tiles. Tile `i` is BLACK iff `i` is in the black set, GREEN iff it is not black and is in the green set, and NEUTRAL iff it is in neither. Out-of-range indexes are ignored |
| `DuetMatrices.BoardCounts` | generate_duet_matrices.py:36-48 | for disjoint black and green sets inside the board, the board has `|black|` BLACK tiles, `|green|` GREEN tiles, and NEUTRAL tiles everywhere else |
| `DuetMatrices.DisjointDrawsPassTest` | generate_duet_matrices.py:65-74 | two equally sized boards built from draws pass `TestMatrices` (equal length; a GREEN or BLACK tile on either board is NEUTRAL on the other) iff no board index was drawn for both players |
| `DuetMatrices.SuccessiveDraws` | generate_duet_matrices.py:55-59 | four draws, each taken from what the earlier ones left of the pool, are pairwise disjoint and all lie in the pool |
| `DuetMatrices.GetPlayerMatrices` | generate_duet_matrices.py:51-62 | succeeds iff `mat_size >= 2 * (4 + 1)`. On success both boards have `mat_size` tiles, pass `TestMatrices`, and have exactly 4 GREEN, 1 BLACK and `mat_size - 5` NEUTRAL tiles |
| `DuetMatrices.DefaultMatrices` | generate_duet_matrices.py:91-92 | at the default size of 25 the generator succeeds, and each board has 4 GREEN, 1 BLACK and 20 NEUTRAL tiles and follows the rules |

The rule check `test_matrices` (generate_duet_matrices.py:65-74) is the
predicate `DuetMatrices.TestMatrices`. It holds exactly when none of the
function's assertions would fail. The rules it checks are those stated at
generate_duet_matrices.py:3-5.

## Left out

- `write_matrix_to_csv` (generate_duet_matrices.py:77-88): file output. Its perfect-square check uses the floating-point `pow(len, 0.5)`.
- `main` (generate_duet_matrices.py:91-95): only the call `get_player_matrices(MAT_SIZE)` is modelled, as `DefaultMatrices`. The two CSV files and their paths are not.
- How `random.sample` chooses: the draw is any valid choice of positions. Uniformity and reproducibility under a seed cannot be stated here.
- The order of the list that `random.sample` returns is not modelled. `Sample` lists the values in list order, which `set(...)` discards anyway.
- The integer values 0/1/2 behind `Tile`: only the three-way distinction is used.
- The code has no board-size check other than the draws themselves. A size that is not a perfect square but is at least 10 makes `get_player_matrices` succeed; only the CSV writer would reject it. The model follows the code, so it has no separate invalid-size error.
- `GenerateMat` does not check that the black and green sets are disjoint or inside the board, just as `generate_mat` does not. Black wins an overlap, and out-of-range indexes are ignored.
- The exception `random.sample` raises is `ValueError`. The model names the error `InsufficientIndexes` and does not model the exception's message.
