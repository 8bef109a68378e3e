/** A sentence is the agent's unit of knowledge: "exactly `count` of these
    `cells` are mines". The operations read off the facts a sentence makes
    certain and shrink it when a cell's status becomes known. */
module Sentences {
  import opened Cells

  datatype Sentence = Sentence(cells: set<Cell>, count: nat)

  /** The count can be met by the cells: the invariant every meaningful sentence keeps. */
  predicate WellFormed(s: Sentence) {
    s.count <= |s.cells|
  }

  /** The sentence is true when `mines` is the board's set of mine cells. */
  predicate Satisfies(mines: set<Cell>, s: Sentence) {
    |s.cells * mines| == s.count
  }

  /** The cells the sentence forces to be mines: all of them when every cell
      is needed to reach the count, otherwise none. */
  function KnownMines(s: Sentence): (r: set<Cell>)
    ensures r == {} || r == s.cells
    ensures r == s.cells <==> s.count == |s.cells| || s.cells == {}
  {
    if s.count == |s.cells| then s.cells else {}
  }

  /** The cells the sentence forces to be safe: all of them when the count is zero, otherwise none. */
  function KnownSafes(s: Sentence): (r: set<Cell>)
    ensures r == {} || r == s.cells
    ensures r == s.cells <==> s.count == 0 || s.cells == {}
  {
    if s.count == 0 then s.cells else {}
  }

  /** Drops a cell known to be a mine; the count pays for it. The source
      decrements an unsigned count, so the cell may only be dropped from a
      sentence that still owes at least one mine. */
  function MarkMine(s: Sentence, c: Cell): (r: Sentence)
    requires c in s.cells ==> s.count >= 1
    ensures c !in r.cells
    ensures r.cells == s.cells - {c}
    ensures c in s.cells ==> r.count + 1 == s.count && |r.cells| + 1 == |s.cells|
    ensures c !in s.cells ==> r == s
    ensures WellFormed(s) ==> WellFormed(r)
  {
    if c in s.cells then Sentence(s.cells - {c}, s.count - 1) else s
  }

  /** Drops a cell known to be safe; the count is unchanged. */
  function MarkSafe(s: Sentence, c: Cell): (r: Sentence)
    ensures c !in r.cells
    ensures r.cells == s.cells - {c}
    ensures r.count == s.count
  {
    if c in s.cells then Sentence(s.cells - {c}, s.count) else s
  }

  /** `PartialEq for Sentence`: same cells, same count. */
  predicate Equal(a: Sentence, b: Sentence) {
    a.cells == b.cells && a.count == b.count
  }

  // ---------------------------------------------------------------------
  // Properties

  /** The source's equality is exactly value equality of sentences, so the
      order in which cells were inserted never matters. */
  lemma EqualIsIdentity(a: Sentence, b: Sentence)
    ensures Equal(a, b) <==> a == b
  {
  }

  /** A sentence that some board satisfies is well formed. */
  lemma SatisfiableIsWellFormed(mines: set<Cell>, s: Sentence)
    requires Satisfies(mines, s)
    ensures WellFormed(s)
  {
    SubsetCard(s.cells * mines, s.cells);
  }

  /** Sound: on every board that satisfies the sentence, the cells it reports
      as mines are mines and the cells it reports as safe are not. */
  lemma KnownFactsSound(mines: set<Cell>, s: Sentence)
    requires Satisfies(mines, s)
    ensures KnownMines(s) <= mines
    ensures KnownSafes(s) * mines == {}
  {
    if s.count == |s.cells| {
      SubsetSameCard(s.cells * mines, s.cells);
    }
  }

  /** Exact: in a well-formed sentence, a cell is reported as a mine if and
      only if every board satisfying the sentence has a mine there. */
  lemma KnownMinesExact(s: Sentence, c: Cell)
    requires WellFormed(s) && c in s.cells
    ensures c in KnownMines(s) <==> forall mines :: Satisfies(mines, s) ==> c in mines
  {
    if c in KnownMines(s) {
      forall mines | Satisfies(mines, s) ensures c in mines {
        KnownFactsSound(mines, s);
      }
    } else {
      // Fewer mines than cells: some board puts all of them outside `c`.
      assert |s.cells - {c}| == |s.cells| - 1;
      var t := SubsetOfSize(s.cells - {c}, s.count);
      assert s.cells * t == t;
      assert Satisfies(t, s) && c !in t;
    }
  }

  /** Exact: in a well-formed sentence, a cell is reported as safe if and
      only if no board satisfying the sentence has a mine there. */
  lemma KnownSafesExact(s: Sentence, c: Cell)
    requires WellFormed(s) && c in s.cells
    ensures c in KnownSafes(s) <==> forall mines :: Satisfies(mines, s) ==> c !in mines
  {
    if c in KnownSafes(s) {
      forall mines | Satisfies(mines, s) ensures c !in mines {
        KnownFactsSound(mines, s);
      }
    } else {
      // At least one mine: some board puts one of them on `c`.
      assert |s.cells - {c}| == |s.cells| - 1;
      var u := SubsetOfSize(s.cells - {c}, s.count - 1);
      var t := u + {c};
      assert s.cells * t == t;
      assert Satisfies(t, s) && c in t;
    }
  }

  /** Marking a true mine keeps the sentence true, and a true sentence never
      underflows its count when one of its cells is a mine. */
  lemma MarkMineSound(mines: set<Cell>, s: Sentence, c: Cell)
    requires Satisfies(mines, s) && c in mines
    ensures c in s.cells ==> s.count >= 1
    ensures Satisfies(mines, MarkMine(s, c))
  {
    if c in s.cells {
      assert c in s.cells * mines;
      assert (s.cells - {c}) * mines == s.cells * mines - {c};
    }
  }

  /** Marking a truly safe cell keeps the sentence true. */
  lemma MarkSafeSound(mines: set<Cell>, s: Sentence, c: Cell)
    requires Satisfies(mines, s) && c !in mines
    ensures Satisfies(mines, MarkSafe(s, c))
  {
    assert (s.cells - {c}) * mines == s.cells * mines;
  }

  /** Marking a cell safe keeps a well-formed sentence well formed exactly
      when the cell was absent or the count was below the number of cells. */
  lemma MarkSafeWellFormed(s: Sentence, c: Cell)
    requires WellFormed(s)
    ensures WellFormed(MarkSafe(s, c)) <==> (c !in s.cells || s.count < |s.cells|)
  {
  }

  /** Marking the same mine twice is the same as marking it once. */
  lemma MarkMineIdempotent(s: Sentence, c: Cell)
    requires c in s.cells ==> s.count >= 1
    ensures MarkMine(MarkMine(s, c), c) == MarkMine(s, c)
  {
  }

  /** Marking the same safe cell twice is the same as marking it once. */
  lemma MarkSafeIdempotent(s: Sentence, c: Cell)
    ensures MarkSafe(MarkSafe(s, c), c) == MarkSafe(s, c)
  {
  }

  /** The reductions on a two-cell sentence for each possible count. */
  lemma TwoCellExamples()
    ensures KnownMines(Sentence({(0, 0), (0, 1)}, 2)) == {(0, 0), (0, 1)}
    ensures KnownSafes(Sentence({(0, 0), (0, 1)}, 0)) == {(0, 0), (0, 1)}
    ensures KnownMines(Sentence({(0, 0), (0, 1)}, 1)) == {}
    ensures KnownSafes(Sentence({(0, 0), (0, 1)}, 1)) == {}
  {
    assert |{(0, 0), (0, 1)}| == 2 by {
      assert {(0, 0), (0, 1)} == {(0, 0)} + {(0, 1)};
    }
  }
}
