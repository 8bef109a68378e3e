# Minesweeper AI knowledge base, in Dafny

A model of the deduction core of a Rust Minesweeper game with a
knowledge-based AI player (`src/lib.rs`, module `game_logic`).

- **Sentence** (`Sentences`): "exactly `count` of these `cells` are mines",
  with `known_mines`, `known_safes`, `mark_mine`, `mark_safe` and the
  sentence equality. A sentence is given a meaning by `Satisfies(mines, s)`:
  it is true of a board whose mine cells are `mines` when exactly `count` of
  its cells are among them. The reductions are proved sound and exact
  against that meaning.
- **MinesweeperAI** (`Agent`): the played cells, the known mines and safe
  cells, and the list of sentences. The global `mark_mine` / `mark_safe`
  record a fact and push it into every sentence. `add_knowledge` is modelled
  as the source has it: it records the move, marks the cell safe and appends
  one sentence whose cell set is empty.
- **Minesweeper** (`Game`): `is_mine`, `nearby_mines` (the clipped
  8-neighbourhood count over a boolean grid, as a loop with invariants) and
  `won`. Board generation is random in the source, so the board is taken as
  a given `seq<seq<bool>>`.
- **Cells** (`Cells`): the `(row, column)` cell type and the clipped
  neighbourhood shared by the game and the corrected `add_knowledge`.

Counts are `nat`. The source's `usize` subtractions become preconditions:
`mark_mine` decrements the count (panics on underflow in a debug build), and
`nearby_mines` computes `height - 1` and `width - 1`. The cell given to
`nearby_mines` need not be on the board: its ranges are clipped on both sides,
so the model accepts any cell, as the code does.

The doc comment of `add_knowledge` (src/lib.rs:186-198) lists five steps;
steps 4 and 5, which mark further cells and infer new sentences from the
knowledge base (src/lib.rs:194-197), are not implemented: the function ends
at src/lib.rs:211, right after appending its sentence. `make_safe_move` and
`make_random_move` are called from src/main.rs:227-228 but are not defined in
`src/lib.rs`. The model follows the code.

## Model

| member | source | states |
|---|---|---|
| Cells.Neighbours | src/lib.rs:64-73 | exactly the on-board cells at most one step away in each coordinate, the cell itself excluded; there are at most eight of them |
| Sentences.KnownMines | src/lib.rs:97-105 | all or nothing: the result is either empty or the whole cell set, and it is the whole cell set exactly when the count equals the number of cells (or there are no cells) |
| Sentences.KnownSafes | src/lib.rs:107-116 | all or nothing: the result is either empty or the whole cell set, and it is the whole cell set exactly when the count is zero (or there are no cells) |
| Sentences.MarkMine | src/lib.rs:118-124 | the cell is gone afterwards; if it was present the count and the cell set each drop by exactly one (the count must be at least one, the unsigned decrement); if absent nothing changes; `count <= \|cells\|` is preserved |
| Sentences.MarkSafe | src/lib.rs:126-131 | the cell is gone afterwards, the other cells stay and the count is unchanged |
| Sentences.EqualIsIdentity | src/lib.rs:134-138 | two sentences are equal under the source's equality exactly when they are the same value, so insertion order is irrelevant |
| Sentences.SatisfiableIsWellFormed | src/lib.rs:84-90 | a sentence true of some board has `count <= \|cells\|` |
| Sentences.KnownFactsSound | src/lib.rs:97-116 | on every board the sentence is true of, the reported mines are mines and the reported safe cells are not |
| Sentences.KnownMinesExact | src/lib.rs:97-105 | in a well-formed sentence a cell is reported as a mine if and only if every board the sentence is true of has a mine there |
| Sentences.KnownSafesExact | src/lib.rs:107-116 | in a well-formed sentence a cell is reported safe if and only if no board the sentence is true of has a mine there |
| Sentences.MarkMineSound | src/lib.rs:118-124 | marking a real mine keeps a true sentence true, and a true sentence never underflows its count when marked with a real mine |
| Sentences.MarkSafeSound | src/lib.rs:126-131 | marking a really safe cell keeps a true sentence true |
| Sentences.MarkSafeWellFormed | src/lib.rs:126-131 | marking safe keeps `count <= \|cells\|` if and only if the cell was absent or the count was below the number of cells |
| Sentences.MarkMineIdempotent | src/lib.rs:118-124 | marking the same mine twice equals marking it once |
| Sentences.MarkSafeIdempotent | src/lib.rs:126-131 | marking the same safe cell twice equals marking it once |
| Sentences.TwoCellExamples | src/lib.rs:97-116 | a two-cell sentence reports both cells as mines at count 2, both as safe at count 0, and nothing at count 1 |
| Agent.New | src/lib.rs:158-167 | a new agent keeps the board size and knows no moves, mines, safe cells or sentences |
| Agent.NewSoundAndTidy | src/lib.rs:158-167 | a new agent's knowledge is true of every board and no sentence mentions a known cell: the starting point from which the marking lemmas carry soundness forward |
| Agent.MarkMineAll | src/lib.rs:172-174 | the loop over the knowledge keeps its length and replaces every sentence by its own mine-marked version |
| Agent.MarkSafeAll | src/lib.rs:180-182 | the loop over the knowledge keeps its length and replaces every sentence by its own safe-marked version |
| Agent.MarkMine | src/lib.rs:169-175 | the cell joins the known mines; known safe cells and moves are untouched; every sentence is replaced by its mine-marked version; no sentence mentions the cell afterwards; "no sentence mentions a known cell" is preserved |
| Agent.MarkSafe | src/lib.rs:177-183 | the cell joins the known safe cells; known mines and moves are untouched; every sentence is replaced by its safe-marked version; no sentence mentions the cell afterwards; "no sentence mentions a known cell" is preserved |
| Agent.MarkMineSound | src/lib.rs:169-175 | when the cell really is a mine, an agent whose knowledge is true of the board stays so and no sentence's count can underflow |
| Agent.MarkSafeSound | src/lib.rs:177-183 | when the cell really is safe, an agent whose knowledge is true of the board stays so |
| Agent.SoundKnownDisjoint | src/lib.rs:151-153 | an agent whose knowledge is true of some board never holds a cell as both a known mine and a known safe cell |
| Agent.MarkMineIdempotent | src/lib.rs:169-175 | marking the same mine twice equals marking it once |
| Agent.MarkSafeIdempotent | src/lib.rs:177-183 | marking the same safe cell twice equals marking it once |
| Agent.Reveal | src/lib.rs:200-204 | steps 1 and 2 of `add_knowledge`: the cell joins the moves and the known safe cells, known mines and the board size are untouched, the knowledge becomes its safe-marked version and no sentence mentions the cell |
| Agent.AddKnowledge | src/lib.rs:200-211 | the board size is unchanged; the cell joins the moves and the known safe cells; known mines are untouched; every existing sentence is safe-marked and no longer mentions the cell; exactly one sentence is appended, with no cells and the given count; "no sentence mentions a known cell" is preserved |
| Agent.AddKnowledgeSoundOnlyForZero | src/lib.rs:206-211 | for a safe cell, the knowledge stays true of the board if and only if the clue is zero |
| Agent.AddKnowledgeCounterexample | src/lib.rs:206-211 | on a 3 by 3 board whose only mine is (2, 2), the centre has clue 1 and the sentence appended for it is true of no board |
| Agent.RecordClue | src/lib.rs:200-211 | the board size is unchanged; the cell joins the moves and the known safe cells; the existing sentences become their safe-marked versions; one sentence is appended exactly when some neighbour is open, and it is "the clue minus the known mines around the cell, among the open neighbours" |
| Agent.AddKnowledgeChecked | src/lib.rs:200-211 | on success the board size is unchanged, the cell joins the moves and the known safe cells, the existing sentences become their safe-marked versions, and at most one sentence is appended: exactly the open neighbours with the clue minus the known mines around the cell, well formed and non-empty; with nothing appended no neighbour is open and the clue equals the known mines around. The clue is rejected as too small exactly when it is below the known mines around the cell, and as too large exactly when the rest exceeds the open neighbours |
| Agent.AddKnowledgeCheckedSound | src/lib.rs:186-211 | a truthful clue for a safe cell is always accepted and keeps true knowledge true |
| Agent.AddKnowledgeCheckedSoundOnlyForTrueClues | src/lib.rs:186-211 | for a safe cell and true knowledge, the clue is accepted with the knowledge staying true if and only if it is the true number of mines around the cell |
| Agent.AddKnowledgeCheckedRejectsOnlyFalseClues | src/lib.rs:186-211 | a rejected clue is never the true number of mines around the cell |
| Game.IsMine | src/lib.rs:56-59 | true exactly when the cell is a true entry of the board, and so exactly when it is in the game's mine set |
| Game.NearbyMines | src/lib.rs:61-75 | the result is the number of mine cells on the board one step away from the cell in each coordinate, the cell excluded, and is at most eight |
| Game.Won | src/lib.rs:77-80 | won exactly when the flagged cells and the mine cells have the same members; on a consistent game, won if and only if the flagged cells are exactly the board's true entries |

## Findings

| source | as written | input that shows it | evidently intended | confidence | as-written member | corrected member |
|---|---|---|---|---|---|---|
| src/lib.rs:206-211 | `add_knowledge` appends `Sentence({}, count)`: the neighbour set is left empty (a `TODO`) | 3 by 3 board, only mine at (2, 2); reveal (1, 1), clue 1: the appended sentence claims one mine among no cells, which no board satisfies | a sentence over the cell's neighbours (src/lib.rs:206) with the clue as its mine count (src/lib.rs:210); dropping known cells and reducing the clue by the known mines is this model's own reading | high; not executed | Agent.AddKnowledgeCounterexample | Agent.AddKnowledgeChecked |

`Agent.AddKnowledgeSoundOnlyForZero` shows the as-written `Agent.AddKnowledge`
keeps true knowledge true only for a zero clue; `Agent.AddKnowledgeCheckedSound`
proves the corrected version does so for every truthful clue, and
`Agent.AddKnowledgeCheckedSoundOnlyForTrueClues` that it does so for no other
clue. The corrected version stops where steps 4 and 5 of the doc comment
begin, because the code has no inference to follow.

## Left out

- `Minesweeper::new` (src/lib.rs:19-38): random mine placement with `rand::thread_rng`; the board is a parameter, and `Game.Valid` states the shape the constructor establishes.
- `Minesweeper::print` (src/lib.rs:40-54): writes to standard output only.
- `Sentence::new` (src/lib.rs:93-95): it is the `Sentence` datatype constructor.
- `Display for Sentence` (src/lib.rs:140-144): string formatting only.
- Steps 4 and 5 of the `add_knowledge` doc comment (src/lib.rs:194-197) and move selection: not present in the code (`add_knowledge` ends at src/lib.rs:211; `make_safe_move` and `make_random_move` are called at src/main.rs:227-228 but not defined in `src/lib.rs`).
- All of src/main.rs: rendering, image loading, pixel-to-tile float arithmetic and the event loop.
- Game.NearbyMines: the result is a `nat`, not an `i32` (and `add_knowledge` takes the clue as a `usize`; both are `nat` here), and `x + 1` / `y + 1` are unbounded, so overflow at `usize::MAX` is not modelled; the clue is at most eight, so the `i32` never overflows.
- Sentences.MarkMine: the `usize` decrement is a precondition (the debug-build panic); the wrap-around of a release build is not modelled.
- Game.IsMine: requires the cell to be on the board, standing for the index panic at src/lib.rs:58. The left-click handler can reach it: its range check at src/main.rs:215-217 accepts `x == 400.0`, which gives column 8 on the 8 by 8 board, and the move goes to `is_mine` at src/main.rs:249. The panic itself is not modelled.
