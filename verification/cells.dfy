/** Board coordinates shared by the game and the agent: a cell is a
    `(row, column)` pair of naturals (`type Cell = (usize, usize)` in the
    source), and its neighbourhood is the up-to-eight cells one step away. */
module Cells {

  type Cell = (nat, nat)

  /** `x.saturating_sub(1)`: one step back, stopping at zero. */
  function Back(x: nat): nat {
    if x == 0 then 0 else x - 1
  }

  /** Two coordinates differ by at most one. */
  predicate Near(a: nat, b: nat) {
    a <= b + 1 && b <= a + 1
  }

  /** `a` is one of the (up to eight) cells surrounding `b`; a cell is not its own neighbour. */
  predicate Adjacent(a: Cell, b: Cell) {
    a != b && Near(a.0, b.0) && Near(a.1, b.1)
  }

  predicate InBounds(c: Cell, height: nat, width: nat) {
    c.0 < height && c.1 < width
  }

  /** The neighbours of `c` that lie on a `height` by `width` board. */
  function Neighbours(c: Cell, height: nat, width: nat): (r: set<Cell>)
    ensures forall d :: d in r <==> InBounds(d, height, width) && Adjacent(d, c)
    ensures |r| <= 8
  {
    var r := set i: nat, j: nat | i <= c.0 + 1 && j <= c.1 + 1 && i < height && j < width
                                   && Adjacent((i, j), c) :: (i, j);
    NeighboursAtMostEight(c, r);
    r
  }

  /** Every set of neighbours of `c` lies inside an explicit list of eight
      candidates, so it has at most eight elements. */
  lemma NeighboursAtMostEight(c: Cell, r: set<Cell>)
    requires forall d :: d in r ==> Adjacent(d, c)
    ensures |r| <= 8
  {
    var (x, y) := c;
    var ring := {(Back(x), Back(y)), (Back(x), y), (Back(x), y + 1),
                 (x, Back(y)), (x, y + 1),
                 (x + 1, Back(y)), (x + 1, y), (x + 1, y + 1)};
    forall d | d in r ensures d in ring {
      assert d.0 == Back(x) || d.0 == x || d.0 == x + 1;
      assert d.1 == Back(y) || d.1 == y || d.1 == y + 1;
    }
    DisplayOfEight(Back(x), Back(y), x, y);
    SubsetCard(r, ring);
  }

  lemma DisplayOfEight(lx: nat, ly: nat, x: nat, y: nat)
    ensures |{(lx, ly), (lx, y), (lx, y + 1), (x, ly), (x, y + 1),
              (x + 1, ly), (x + 1, y), (x + 1, y + 1)}| <= 8
  {
    var s1: set<Cell> := {(lx, ly), (lx, y)};
    var s2 := s1 + {(lx, y + 1), (x, ly)};
    var s3 := s2 + {(x, y + 1), (x + 1, ly)};
    var s4 := s3 + {(x + 1, y), (x + 1, y + 1)};
    assert |s2| <= |s1| + 2 <= 4;
    assert |s3| <= |s2| + 2 <= 6;
    assert |s4| <= |s3| + 2 <= 8;
    assert s4 == {(lx, ly), (lx, y), (lx, y + 1), (x, ly), (x, y + 1),
                  (x + 1, ly), (x + 1, y), (x + 1, y + 1)};
  }

  /** A subset is no larger than its superset. */
  lemma SubsetCard<T>(a: set<T>, b: set<T>)
    requires a <= b
    ensures |a| <= |b|
  {
    assert b == a + (b - a);
  }

  /** A subset of the same size is the whole set. */
  lemma SubsetSameCard<T>(a: set<T>, b: set<T>)
    requires a <= b && |a| == |b|
    ensures a == b
  {
    assert b == a + (b - a);
    assert |b - a| == 0;
  }

  /** Every finite set has a subset of each size up to its own. */
  lemma {:induction false} SubsetOfSize<T>(s: set<T>, k: nat) returns (t: set<T>)
    requires k <= |s|
    ensures t <= s && |t| == k
    decreases k
  {
    if k == 0 {
      t := {};
    } else {
      var x :| x in s;
      var u := SubsetOfSize(s - {x}, k - 1);
      t := u + {x};
    }
  }
}
