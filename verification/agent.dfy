/** The agent's knowledge base (`MinesweeperAI`): the cells it has played,
    the cells it knows to be mines or safe, and its list of sentences. The
    global marks record a fact and push it into every sentence;
    `AddKnowledge` is the entry point that receives a revealed cell and its
    clue. */
module Agent {
  import opened Cells
  import opened Sentences

  datatype AI = AI(
    height: nat,
    width: nat,
    movesMade: set<Cell>,
    knownMines: set<Cell>,
    knownSafes: set<Cell>,
    knowledge: seq<Sentence>)

  /** Why a clue cannot be turned into a sentence. */
  datatype ClueError =
    | TooFewMines   // the clue is below the number of neighbours already known to be mines
    | TooManyMines  // the clue exceeds what the unresolved neighbours can hold

  datatype Outcome = Ok(ai: AI) | Inconsistent(error: ClueError)

  /** A fresh agent for a `height` by `width` board knows nothing. */
  function New(height: nat, width: nat): (r: AI)
    ensures r.height == height && r.width == width
    ensures r.movesMade == {} && r.knownMines == {} && r.knownSafes == {}
    ensures |r.knowledge| == 0
  {
    AI(height, width, {}, {}, {}, [])
  }

  /** No sentence mentions a cell whose status is already known. */
  predicate Tidy(ai: AI) {
    forall i :: 0 <= i < |ai.knowledge| ==>
      ai.knowledge[i].cells * (ai.knownMines + ai.knownSafes) == {}
  }

  /** Everything the agent holds is true of the board whose mines are `mines`:
      known mines are mines, known-safe and played cells are not, and every
      sentence is satisfied. */
  predicate Sound(ai: AI, mines: set<Cell>) {
    && ai.knownMines <= mines
    && ai.knownSafes * mines == {}
    && ai.movesMade * mines == {}
    && forall i :: 0 <= i < |ai.knowledge| ==> Satisfies(mines, ai.knowledge[i])
  }

  /** Every sentence that mentions `c` still owes at least one mine, so
      marking `c` as a mine does not underflow any count. */
  predicate CanMarkMine(k: seq<Sentence>, c: Cell) {
    forall i :: 0 <= i < |k| ==> (c in k[i].cells ==> k[i].count >= 1)
  }

  /** `sentence.mark_mine(cell)` applied to every sentence in turn. */
  function MarkMineAll(k: seq<Sentence>, c: Cell): (r: seq<Sentence>)
    requires CanMarkMine(k, c)
    ensures |r| == |k|
    ensures forall i :: 0 <= i < |k| ==> r[i] == Sentences.MarkMine(k[i], c)
  {
    if k == [] then [] else [Sentences.MarkMine(k[0], c)] + MarkMineAll(k[1..], c)
  }

  /** `sentence.mark_safe(cell)` applied to every sentence in turn. */
  function MarkSafeAll(k: seq<Sentence>, c: Cell): (r: seq<Sentence>)
    ensures |r| == |k|
    ensures forall i :: 0 <= i < |k| ==> r[i] == Sentences.MarkSafe(k[i], c)
  {
    if k == [] then [] else [Sentences.MarkSafe(k[0], c)] + MarkSafeAll(k[1..], c)
  }

  /** Records `c` as a mine and removes it from every sentence, each of which
      pays one mine for it. */
  function MarkMine(ai: AI, c: Cell): (r: AI)
    requires CanMarkMine(ai.knowledge, c)
    ensures r.knownMines == ai.knownMines + {c}
    ensures r.knownSafes == ai.knownSafes && r.movesMade == ai.movesMade
    ensures r.height == ai.height && r.width == ai.width
    ensures |r.knowledge| == |ai.knowledge|
    ensures forall i :: 0 <= i < |ai.knowledge| ==> r.knowledge[i] == Sentences.MarkMine(ai.knowledge[i], c)
    ensures forall i :: 0 <= i < |r.knowledge| ==> c !in r.knowledge[i].cells
    ensures Tidy(ai) ==> Tidy(r)
  {
    ai.(knownMines := ai.knownMines + {c}, knowledge := MarkMineAll(ai.knowledge, c))
  }

  /** Records `c` as safe and removes it from every sentence, whose counts stay. */
  function MarkSafe(ai: AI, c: Cell): (r: AI)
    ensures r.knownSafes == ai.knownSafes + {c}
    ensures r.knownMines == ai.knownMines && r.movesMade == ai.movesMade
    ensures r.height == ai.height && r.width == ai.width
    ensures |r.knowledge| == |ai.knowledge|
    ensures forall i :: 0 <= i < |ai.knowledge| ==> r.knowledge[i] == Sentences.MarkSafe(ai.knowledge[i], c)
    ensures forall i :: 0 <= i < |r.knowledge| ==> c !in r.knowledge[i].cells
    ensures Tidy(ai) ==> Tidy(r)
  {
    ai.(knownSafes := ai.knownSafes + {c}, knowledge := MarkSafeAll(ai.knowledge, c))
  }

  /** Steps 1 and 2 of `add_knowledge`: record the move, then mark the cell safe. */
  function Reveal(ai: AI, cell: Cell): (r: AI)
    ensures r.movesMade == ai.movesMade + {cell}
    ensures r.knownSafes == ai.knownSafes + {cell} && r.knownMines == ai.knownMines
    ensures r.height == ai.height && r.width == ai.width
    ensures r.knowledge == MarkSafeAll(ai.knowledge, cell)
    ensures |r.knowledge| == |ai.knowledge|
    ensures forall i :: 0 <= i < |ai.knowledge| ==>
              r.knowledge[i] == Sentences.MarkSafe(ai.knowledge[i], cell) && cell !in r.knowledge[i].cells
    ensures Tidy(ai) ==> Tidy(r)
  {
    MarkSafe(ai.(movesMade := ai.movesMade + {cell}), cell)
  }

  /** `self.knowledge.push(sentence)`. */
  function Append(ai: AI, s: Sentence): (r: AI)
    ensures r.(knowledge := ai.knowledge) == ai
    ensures |r.knowledge| == |ai.knowledge| + 1
    ensures r.knowledge[..|ai.knowledge|] == ai.knowledge && r.knowledge[|ai.knowledge|] == s
  {
    ai.(knowledge := ai.knowledge + [s])
  }

  /** `add_knowledge` as the source has it: the move is recorded, the cell is
      marked safe, and a sentence is appended whose cell set is still empty
      because the neighbour collection was never written. */
  function AddKnowledge(ai: AI, cell: Cell, count: nat): (r: AI)
    ensures r.height == ai.height && r.width == ai.width
    ensures r.movesMade == ai.movesMade + {cell}
    ensures r.knownSafes == ai.knownSafes + {cell} && r.knownMines == ai.knownMines
    ensures |r.knowledge| == |ai.knowledge| + 1
    ensures forall i :: 0 <= i < |ai.knowledge| ==>
              r.knowledge[i] == Sentences.MarkSafe(ai.knowledge[i], cell) && cell !in r.knowledge[i].cells
    ensures r.knowledge[|ai.knowledge|] == Sentence({}, count)
    ensures Tidy(ai) ==> Tidy(r)
  {
    Append(Reveal(ai, cell), Sentence({}, count))
  }

  /** The neighbours whose status the agent does not know yet. */
  function Unresolved(ai: AI, around: set<Cell>): set<Cell> {
    around - ai.knownMines - (ai.movesMade + ai.knownSafes)
  }

  /** The on-board neighbours of `cell` that are neither played nor known,
      once `cell` itself has been revealed. */
  function Open(ai: AI, cell: Cell): set<Cell> {
    Unresolved(Reveal(ai, cell), Neighbours(cell, ai.height, ai.width))
  }

  /** The number of neighbours of `cell` already known to be mines. */
  function Flagged(ai: AI, cell: Cell): nat {
    |Neighbours(cell, ai.height, ai.width) * ai.knownMines|
  }

  /** The accepting path of `AddKnowledgeChecked`: reveal the cell, then
      add the sentence "`count - Flagged` of the open neighbours are mines"
      unless no neighbour is open. */
  function RecordClue(ai: AI, cell: Cell, count: nat): (r: AI)
    requires Flagged(ai, cell) <= count
    ensures r.height == ai.height && r.width == ai.width
    ensures r.movesMade == ai.movesMade + {cell}
    ensures r.knownSafes == ai.knownSafes + {cell} && r.knownMines == ai.knownMines
    ensures |ai.knowledge| <= |r.knowledge| <= |ai.knowledge| + 1
    ensures r.knowledge[..|ai.knowledge|] == MarkSafeAll(ai.knowledge, cell)
    ensures |r.knowledge| > |ai.knowledge| <==> Open(ai, cell) != {}
    ensures |r.knowledge| > |ai.knowledge| ==>
              r.knowledge[|ai.knowledge|] == Sentence(Open(ai, cell), count - Flagged(ai, cell))
    ensures Tidy(ai) ==> Tidy(r)
  {
    var revealed := Reveal(ai, cell);
    var open := Open(ai, cell);
    if open == {} then
      revealed
    else
      assert revealed.knowledge == MarkSafeAll(ai.knowledge, cell);
      Append(revealed, Sentence(open, count - Flagged(ai, cell)))
  }

  /** `add_knowledge` with its neighbour collection written out: the new
      sentence covers the cell's neighbours (the collection the source leaves
      empty) with the clue as the updated mine count. Played, known-safe and
      known-mine neighbours are dropped and the clue is reduced by the known
      mines among them, so that the sentence mentions no known cell. A clue
      that no board can produce is reported instead of being clamped; a
      sentence with no cells left is not added. */
  function AddKnowledgeChecked(ai: AI, cell: Cell, count: nat): (r: Outcome)
    ensures r.Ok? ==> r.ai.height == ai.height && r.ai.width == ai.width
    ensures r.Ok? ==> r.ai.movesMade == ai.movesMade + {cell}
    ensures r.Ok? ==> r.ai.knownSafes == ai.knownSafes + {cell} && r.ai.knownMines == ai.knownMines
    ensures r.Ok? ==> Tidy(ai) ==> Tidy(r.ai)
    ensures r.Ok? ==> |ai.knowledge| <= |r.ai.knowledge| <= |ai.knowledge| + 1
    ensures r.Ok? ==> r.ai.knowledge[..|ai.knowledge|] == MarkSafeAll(ai.knowledge, cell)
    ensures r.Ok? ==> forall i :: |ai.knowledge| <= i < |r.ai.knowledge| ==>
              WellFormed(r.ai.knowledge[i]) && r.ai.knowledge[i].cells != {}
              && r.ai.knowledge[i].cells <= Neighbours(cell, ai.height, ai.width)
    ensures r.Ok? && |r.ai.knowledge| > |ai.knowledge| ==>
              Flagged(ai, cell) <= count
              && r.ai.knowledge[|ai.knowledge|] == Sentence(Open(ai, cell), count - Flagged(ai, cell))
    ensures r.Ok? && |r.ai.knowledge| == |ai.knowledge| ==> Open(ai, cell) == {} && count == Flagged(ai, cell)
    ensures r == Inconsistent(TooFewMines) <==> count < Flagged(ai, cell)
    ensures r == Inconsistent(TooManyMines) <==>
              Flagged(ai, cell) <= count && count - Flagged(ai, cell) > |Open(ai, cell)|
  {
    var flagged := Flagged(ai, cell);
    if count < flagged then
      Inconsistent(TooFewMines)
    else if count - flagged > |Open(ai, cell)| then
      Inconsistent(TooManyMines)
    else
      Ok(RecordClue(ai, cell, count))
  }

  // ---------------------------------------------------------------------
  // Properties

  /** A fresh agent is sound for every board and mentions no known cell:
      the starting point of every run of the agent. */
  lemma NewSoundAndTidy(height: nat, width: nat, mines: set<Cell>)
    ensures Sound(New(height, width), mines)
    ensures Tidy(New(height, width))
  {
  }

  /** A sound agent never holds a cell as both a mine and safe. */
  lemma SoundKnownDisjoint(ai: AI, mines: set<Cell>)
    requires Sound(ai, mines)
    ensures ai.knownMines * ai.knownSafes == {}
  {
  }

  /** Marking a true mine keeps the agent sound, and soundness alone rules
      out the count underflow that marking could otherwise cause. */
  lemma MarkMineSound(ai: AI, mines: set<Cell>, c: Cell)
    requires Sound(ai, mines) && c in mines
    ensures CanMarkMine(ai.knowledge, c)
    ensures Sound(MarkMine(ai, c), mines)
  {
    forall i | 0 <= i < |ai.knowledge|
      ensures c in ai.knowledge[i].cells ==> ai.knowledge[i].count >= 1
      ensures Satisfies(mines, Sentences.MarkMine(ai.knowledge[i], c))
    {
      Sentences.MarkMineSound(mines, ai.knowledge[i], c);
    }
  }

  /** Marking a truly safe cell keeps the agent sound. */
  lemma MarkSafeSound(ai: AI, mines: set<Cell>, c: Cell)
    requires Sound(ai, mines) && c !in mines
    ensures Sound(MarkSafe(ai, c), mines)
  {
    var r := MarkSafe(ai, c);
    forall i | 0 <= i < |r.knowledge| ensures Satisfies(mines, r.knowledge[i]) {
      Sentences.MarkSafeSound(mines, ai.knowledge[i], c);
    }
  }

  /** Marking the same mine twice is the same as marking it once. */
  lemma MarkMineIdempotent(ai: AI, c: Cell)
    requires CanMarkMine(ai.knowledge, c)
    ensures CanMarkMine(MarkMine(ai, c).knowledge, c)
    ensures MarkMine(MarkMine(ai, c), c) == MarkMine(ai, c)
  {
    var once := MarkMine(ai, c);
    var twice := MarkMine(once, c);
    forall i | 0 <= i < |once.knowledge| ensures twice.knowledge[i] == once.knowledge[i] {
      Sentences.MarkMineIdempotent(ai.knowledge[i], c);
    }
    assert twice.knowledge == once.knowledge;
  }

  /** Marking the same safe cell twice is the same as marking it once. */
  lemma MarkSafeIdempotent(ai: AI, c: Cell)
    ensures MarkSafe(MarkSafe(ai, c), c) == MarkSafe(ai, c)
  {
    var once := MarkSafe(ai, c);
    var twice := MarkSafe(once, c);
    forall i | 0 <= i < |once.knowledge| ensures twice.knowledge[i] == once.knowledge[i] {
      Sentences.MarkSafeIdempotent(ai.knowledge[i], c);
    }
    assert twice.knowledge == once.knowledge;
  }

  /** As written, `add_knowledge` keeps a sound agent sound exactly when the
      clue is zero: the empty sentence it appends claims `count` mines among
      no cells, which no board satisfies once the clue is positive. */
  lemma AddKnowledgeSoundOnlyForZero(ai: AI, mines: set<Cell>, cell: Cell, count: nat)
    requires Sound(ai, mines) && cell !in mines
    ensures Sound(AddKnowledge(ai, cell, count), mines) <==> count == 0
  {
    var revealed := Reveal(ai, cell);
    RevealSound(ai, mines, cell);
    if count == 0 {
      AppendSound(revealed, mines, Sentence({}, count));
    } else {
      assert !Satisfies(mines, AddKnowledge(ai, cell, count).knowledge[|ai.knowledge|]);
    }
  }

  /** A concrete case: on a 3 by 3 board whose only mine is (2, 2), the
      centre (1, 1) is safe and its clue is 1, yet the sentence appended for
      it is satisfied by no board at all. */
  lemma AddKnowledgeCounterexample()
    ensures |Neighbours((1, 1), 3, 3) * {(2, 2)}| == 1
    ensures var r := AddKnowledge(New(3, 3), (1, 1), 1);
            && !WellFormed(r.knowledge[0])
            && forall mines :: !Satisfies(mines, r.knowledge[0])
  {
    assert Neighbours((1, 1), 3, 3) * {(2, 2)} == {(2, 2)};
  }

  /** The clue splits over the neighbourhood: the mines among the neighbours
      are the ones already known plus the mines among the unresolved ones. */
  lemma SplitNeighbourMines(around: set<Cell>, known: set<Cell>, resolved: set<Cell>, mines: set<Cell>)
    requires known <= mines && resolved * mines == {}
    ensures |around * mines| == |around * known| + |(around - known - resolved) * mines|
    ensures |(around - known - resolved) * mines| <= |around - known - resolved|
  {
    var open := around - known - resolved;
    forall x | x in around * mines ensures x in (around * known) + (open * mines) {
      assert x !in resolved * mines;
    }
    assert around * mines == (around * known) + (open * mines);
    assert (around * known) * (open * mines) == {};
    SubsetCard(open * mines, open);
  }

  /** Revealing a truly safe cell keeps the agent sound. */
  lemma RevealSound(ai: AI, mines: set<Cell>, cell: Cell)
    requires Sound(ai, mines) && cell !in mines
    ensures Sound(Reveal(ai, cell), mines)
  {
    MarkSafeSound(ai.(movesMade := ai.movesMade + {cell}), mines, cell);
  }

  /** Appending a satisfied sentence keeps an agent sound. */
  lemma AppendSound(ai: AI, mines: set<Cell>, s: Sentence)
    requires Sound(ai, mines) && Satisfies(mines, s)
    ensures Sound(Append(ai, s), mines)
  {
    var r := Append(ai, s);
    assert forall i :: 0 <= i < |ai.knowledge| ==> r.knowledge[i] == ai.knowledge[i];
  }

  /** The accepting path of `AddKnowledgeChecked`, spelled out. */
  lemma CheckedAccepts(ai: AI, cell: Cell, count: nat)
    requires Flagged(ai, cell) <= count
    requires count - Flagged(ai, cell) <= |Open(ai, cell)|
    ensures AddKnowledgeChecked(ai, cell, count) == Ok(RecordClue(ai, cell, count))
    ensures RecordClue(ai, cell, count) ==
              if Open(ai, cell) == {} then Reveal(ai, cell)
              else Append(Reveal(ai, cell), Sentence(Open(ai, cell), count - Flagged(ai, cell)))
  {
    var flagged := Flagged(ai, cell);
    assert !(count < flagged) && !(count - flagged > |Open(ai, cell)|);
  }

  /** How the true mines around `cell` split between the known mines and the
      open neighbours, for a sound agent and a safe `cell`. */
  lemma TrueClueSplits(ai: AI, mines: set<Cell>, cell: Cell)
    requires Sound(ai, mines) && cell !in mines
    ensures |Neighbours(cell, ai.height, ai.width) * mines|
            == Flagged(ai, cell) + |Open(ai, cell) * mines|
    ensures |Open(ai, cell) * mines| <= |Open(ai, cell)|
  {
    var revealed := Reveal(ai, cell);
    RevealSound(ai, mines, cell);
    SplitNeighbourMines(Neighbours(cell, ai.height, ai.width), revealed.knownMines,
                        revealed.movesMade + revealed.knownSafes, mines);
  }

  /** With the neighbour collection in place, a truthful clue for a safe cell
      is always accepted and keeps a sound agent sound. */
  lemma AddKnowledgeCheckedSound(ai: AI, mines: set<Cell>, cell: Cell, count: nat)
    requires Sound(ai, mines) && cell !in mines
    requires count == |Neighbours(cell, ai.height, ai.width) * mines|
    ensures AddKnowledgeChecked(ai, cell, count).Ok?
    ensures Sound(AddKnowledgeChecked(ai, cell, count).ai, mines)
  {
    TrueClueSplits(ai, mines, cell);
    CheckedAccepts(ai, cell, count);
    assert Sound(RecordClue(ai, cell, count), mines) by {
      RevealSound(ai, mines, cell);
      if Open(ai, cell) != {} {
        AppendSound(Reveal(ai, cell), mines, Sentence(Open(ai, cell), count - Flagged(ai, cell)));
      }
    }
  }

  /** Conversely, a clue for a safe cell that is accepted and keeps true
      knowledge true is the true number of mines around the cell. */
  lemma AddKnowledgeCheckedSoundOnlyForTrueClues(ai: AI, mines: set<Cell>, cell: Cell, count: nat)
    requires Sound(ai, mines) && cell !in mines
    ensures AddKnowledgeChecked(ai, cell, count).Ok? && Sound(AddKnowledgeChecked(ai, cell, count).ai, mines)
            <==> count == |Neighbours(cell, ai.height, ai.width) * mines|
  {
    var r := AddKnowledgeChecked(ai, cell, count);
    if r.Ok? && Sound(r.ai, mines) {
      TrueClueSplits(ai, mines, cell);
      if Open(ai, cell) == {} {
        assert Open(ai, cell) * mines == {};
      } else {
        assert Satisfies(mines, r.ai.knowledge[|ai.knowledge|]);
      }
    } else if count == |Neighbours(cell, ai.height, ai.width) * mines| {
      AddKnowledgeCheckedSound(ai, mines, cell, count);
    }
  }

  /** A rejected clue is one that no board consistent with a sound agent
      could have produced. */
  lemma AddKnowledgeCheckedRejectsOnlyFalseClues(ai: AI, mines: set<Cell>, cell: Cell, count: nat)
    requires Sound(ai, mines) && cell !in mines
    ensures AddKnowledgeChecked(ai, cell, count).Inconsistent? ==>
              count != |Neighbours(cell, ai.height, ai.width) * mines|
  {
    if count == |Neighbours(cell, ai.height, ai.width) * mines| {
      AddKnowledgeCheckedSound(ai, mines, cell, count);
    }
  }
}
