/**
 * `get_valid_moves_ordered` (main.py): the open columns sorted by their
 * distance from the centre column, with Python's stable `sorted`, so that
 * columns at the same distance keep the ascending order of `get_valid_moves`.
 * Sorting is modelled as a stable insertion sort.
 */
module MoveOrder {
  import opened Boards

  /** `move_priority`: the distance of a column from the centre column 3. */
  function Key(col: int): nat {
    if col < 3 then 3 - col else col - 3
  }

  /** `x` comes before `y`: nearer the centre, or as near and further left. */
  predicate Before(x: int, y: int) {
    Key(x) < Key(y) || (Key(x) == Key(y) && x < y)
  }

  /** Each column comes before every later one. */
  predicate Ordered(s: seq<int>) {
    forall i, j :: 0 <= i < j < |s| ==> Before(s[i], s[j])
  }

  /** Strictly ascending, as `get_valid_moves` lists the columns. */
  predicate Ascending(s: seq<int>) {
    forall i, j :: 0 <= i < j < |s| ==> s[i] < s[j]
  }

  /** Non-decreasing in `Key`: what `sorted(..., key=move_priority)` promises. */
  predicate KeySorted(s: seq<int>) {
    forall i, j :: 0 <= i < j < |s| ==> Key(s[i]) <= Key(s[j])
  }

  /**
   * Inserts `x` in front of the first element whose key is at least its own,
   * which keeps `x` ahead of the elements of equal key: the step of a stable
   * sort that takes the elements from the back.
   */
  function InsertByKey(x: int, s: seq<int>): seq<int> {
    if |s| == 0 then [x]
    else if Key(x) <= Key(s[0]) then [x] + s
    else [s[0]] + InsertByKey(x, s[1..])
  }

  /** Sorts `s` by key, stably. */
  function SortByKey(s: seq<int>): seq<int> {
    if |s| == 0 then [] else InsertByKey(s[0], SortByKey(s[1..]))
  }

  /** Inserting adds `x` and loses nothing. */
  lemma {:induction false} InsertByKeyPermutes(x: int, s: seq<int>)
    ensures multiset(InsertByKey(x, s)) == multiset(s) + multiset{x}
  {
    if |s| > 0 && Key(s[0]) < Key(x) {
      InsertByKeyPermutes(x, s[1..]);
      assert s == [s[0]] + s[1..];
    }
  }

  /** Sorting rearranges the columns without adding or losing any. */
  lemma {:induction false} SortByKeyPermutes(s: seq<int>)
    ensures multiset(SortByKey(s)) == multiset(s)
  {
    if |s| > 0 {
      SortByKeyPermutes(s[1..]);
      InsertByKeyPermutes(s[0], SortByKey(s[1..]));
      assert s == [s[0]] + s[1..];
    }
  }

  /** Inserting a column smaller than all the others into an ordered list keeps it ordered. */
  lemma {:induction false} InsertOrdered(x: int, s: seq<int>)
    requires Ordered(s)
    requires forall k :: 0 <= k < |s| ==> x < s[k]
    ensures Ordered(InsertByKey(x, s))
  {
    if |s| > 0 && Key(s[0]) < Key(x) {
      InsertOrdered(x, s[1..]);
      var r := InsertByKey(x, s);
      var rest := InsertByKey(x, s[1..]);
      assert r == [s[0]] + rest;
      InsertByKeyPermutes(x, s[1..]);
      forall k | 0 < k < |r|
        ensures Before(s[0], r[k])
      {
        assert r[k] in multiset(rest);
        if r[k] != x {
          assert r[k] in multiset(s[1..]);
        }
      }
    }
  }

  lemma {:induction false} SortOrdered(s: seq<int>)
    requires Ascending(s)
    ensures Ordered(SortByKey(s))
  {
    if |s| > 0 {
      SortOrdered(s[1..]);
      var t := SortByKey(s[1..]);
      SortByKeyPermutes(s[1..]);
      forall k | 0 <= k < |t|
        ensures s[0] < t[k]
      {
        assert t[k] in multiset(s[1..]);
      }
      InsertOrdered(s[0], t);
    }
  }

  /** `get_valid_moves_ordered`. */
  function OrderedMoves(b: Board): seq<int> {
    SortByKey(ValidMoves(b))
  }

  /**
   * The ordered moves are the valid moves, each once, sorted by distance from
   * the centre, with columns at the same distance in ascending order.
   */
  lemma OrderedMovesSpec(b: Board)
    ensures multiset(OrderedMoves(b)) == multiset(ValidMoves(b))
    ensures forall c :: c in OrderedMoves(b) <==> IsValidMove(b, c)
    ensures KeySorted(OrderedMoves(b))
    ensures forall i, j :: 0 <= i < j < |OrderedMoves(b)| && Key(OrderedMoves(b)[i]) == Key(OrderedMoves(b)[j]) ==>
                           OrderedMoves(b)[i] < OrderedMoves(b)[j]
  {
    var ms := ValidMoves(b);
    SortOrdered(ms);
    SortByKeyPermutes(ms);
    var r := OrderedMoves(b);
    forall c
      ensures c in r <==> IsValidMove(b, c)
    {
      assert c in r <==> c in multiset(ms);
    }
  }

  /** Columns 6, 5, 4 and 3 each go in front: their keys fall towards the centre. */
  lemma SortRightHalf()
    ensures SortByKey([3, 4, 5, 6]) == [3, 4, 5, 6]
  {
    assert [3, 4, 5, 6][1..] == [4, 5, 6];
    assert [4, 5, 6][1..] == [5, 6];
    assert [5, 6][1..] == [6];
    assert [6][1..] == [];
  }

  /** Column 2 goes behind 3 and in front of 4, which is as far from the centre. */
  lemma InsertTwo()
    ensures InsertByKey(2, [3, 4, 5, 6]) == [3, 2, 4, 5, 6]
  {
    assert [3, 4, 5, 6][1..] == [4, 5, 6];
    assert InsertByKey(2, [4, 5, 6]) == [2, 4, 5, 6];
  }

  /** Column 1 goes behind 3, 2 and 4 and in front of 5. */
  lemma InsertOne()
    ensures InsertByKey(1, [3, 2, 4, 5, 6]) == [3, 2, 4, 1, 5, 6]
  {
    assert [3, 2, 4, 5, 6][1..] == [2, 4, 5, 6];
    assert [2, 4, 5, 6][1..] == [4, 5, 6];
    assert [4, 5, 6][1..] == [5, 6];
    assert InsertByKey(1, [5, 6]) == [1, 5, 6];
  }

  /** Column 0 goes behind everything but 6. */
  lemma InsertZero()
    ensures InsertByKey(0, [3, 2, 4, 1, 5, 6]) == [3, 2, 4, 1, 5, 0, 6]
  {
    assert [3, 2, 4, 1, 5, 6][1..] == [2, 4, 1, 5, 6];
    assert [2, 4, 1, 5, 6][1..] == [4, 1, 5, 6];
    assert [4, 1, 5, 6][1..] == [1, 5, 6];
    assert [1, 5, 6][1..] == [5, 6];
    assert [5, 6][1..] == [6];
    assert InsertByKey(0, [6]) == [0, 6];
  }

  /** Sorting all seven columns puts the centre first and works outwards, left before right. */
  lemma SortAllColumns()
    ensures SortByKey([0, 1, 2, 3, 4, 5, 6]) == [3, 2, 4, 1, 5, 0, 6]
  {
    assert [0, 1, 2, 3, 4, 5, 6][1..] == [1, 2, 3, 4, 5, 6];
    assert [1, 2, 3, 4, 5, 6][1..] == [2, 3, 4, 5, 6];
    assert [2, 3, 4, 5, 6][1..] == [3, 4, 5, 6];
    SortRightHalf();
    InsertTwo();
    InsertOne();
    InsertZero();
  }

  /** On the empty board the ordered moves start at the centre and work outwards. */
  lemma OrderedMovesEmpty()
    ensures OrderedMoves(EmptyBoard()) == [3, 2, 4, 1, 5, 0, 6]
  {
    var b := EmptyBoard();
    ValidMovesAllOpen(b, 0);
    assert ValidMoves(b) == [0, 1, 2, 3, 4, 5, 6];
    SortAllColumns();
  }
}
