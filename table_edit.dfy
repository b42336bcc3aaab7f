/**
 * The row algebra behind the editing table's "Add Row" and "Delete Row"
 * buttons (qtipint/paredit.py): inserting a blank row before each marked
 * row, removing each marked row, and how Qt moves a persistent row handle
 * when rows are inserted or removed around it.
 */
module TableEdit {
  import opened ParModel

  /** The number of marked rows. */
  function Count(marks: seq<bool>): nat
  {
    if marks == [] then 0 else (if marks[0] then 1 else 0) + Count(marks[1..])
  }

  lemma {:induction false} CountAppend(a: seq<bool>, b: seq<bool>)
    ensures Count(a + b) == Count(a) + Count(b)
    decreases |a|
  {
    if a != [] {
      assert (a + b)[1..] == a[1..] + b;
      CountAppend(a[1..], b);
    } else {
      assert a + b == b;
    }
  }

  lemma {:induction false} CountAtMostLength(marks: seq<bool>)
    ensures Count(marks) <= |marks|
    decreases |marks|
  {
    if marks != [] {
      CountAtMostLength(marks[1..]);
    }
  }

  /** Counting marks over a prefix: one step further adds the next mark. */
  lemma CountPrefixStep(marks: seq<bool>, i: int)
    requires 0 <= i < |marks|
    ensures Count(marks[..i + 1]) == Count(marks[..i]) + (if marks[i] then 1 else 0)
  {
    assert marks[..i + 1] == marks[..i] + [marks[i]];
    CountAppend(marks[..i], [marks[i]]);
  }

  /** A longer prefix holds at least as many marks, and at most one more per extra row. */
  lemma CountPrefixBounds(marks: seq<bool>, a: int, b: int)
    requires 0 <= a <= b <= |marks|
    ensures Count(marks[..a]) <= Count(marks[..b]) <= Count(marks[..a]) + (b - a)
  {
    assert marks[..b] == marks[..a] + marks[a..b];
    CountAppend(marks[..a], marks[a..b]);
    CountAtMostLength(marks[a..b]);
  }

  /** Marking row `i` adds one to the count of every prefix that reaches past it. */
  lemma CountPrefixMark(marks: seq<bool>, i: int, c: int, v: bool)
    requires 0 <= i < |marks| && !marks[i]
    requires 0 <= c <= |marks|
    ensures Count(marks[i := v][..c]) == Count(marks[..c]) + (if c > i && v then 1 else 0)
  {
    var m' := marks[i := v];
    if c <= i {
      assert m'[..c] == marks[..c];
    } else {
      assert m'[..c] == marks[..i] + [v] + marks[i + 1..c];
      assert marks[..c] == marks[..i] + [false] + marks[i + 1..c];
      CountAppend(marks[..i] + [v], marks[i + 1..c]);
      CountAppend(marks[..i], [v]);
      CountAppend(marks[..i] + [false], marks[i + 1..c]);
      CountAppend(marks[..i], [false]);
    }
  }

  /** `insertRow(p)` on a valid position: `x` lands at index `p`. */
  function Insert(s: seq<Row>, p: int, x: Row): seq<Row>
    requires 0 <= p <= |s|
  {
    s[..p] + [x] + s[p..]
  }

  /** `removeRow(p)` on a valid position. */
  function Remove(s: seq<Row>, p: int): seq<Row>
    requires 0 <= p < |s|
  {
    s[..p] + s[p + 1..]
  }

  /** The table with one blank row put in front of each marked row. */
  function BlanksBefore(rows: seq<Row>, marks: seq<bool>): seq<Row>
    requires |marks| == |rows|
    decreases |rows|
  {
    if rows == [] then []
    else (if marks[0] then [BlankRow, rows[0]] else [rows[0]]) + BlanksBefore(rows[1..], marks[1..])
  }

  /** The table without its marked rows, the others in their order. */
  function Survivors(rows: seq<Row>, marks: seq<bool>): seq<Row>
    requires |marks| == |rows|
    decreases |rows|
  {
    if rows == [] then []
    else (if marks[0] then [] else [rows[0]]) + Survivors(rows[1..], marks[1..])
  }

  /** Which rows of a table of `n` rows a selection lists (in whatever order it lists them). */
  function Selected(n: nat, selection: seq<int>): (marks: seq<bool>)
    ensures |marks| == n
    ensures forall i :: 0 <= i < n ==> (marks[i] <==> i in selection)
  {
    seq(n, i => i in selection)
  }

  /** What Qt's selection model reports: each selected row once, each one a row of the table. */
  predicate ValidSelection(selection: seq<int>, n: int)
  {
    && (forall j :: 0 <= j < |selection| ==> 0 <= selection[j] < n)
    && (forall j, k :: 0 <= j < k < |selection| ==> selection[j] != selection[k])
  }

  /** A valid selection of `k` rows marks exactly `k` rows. */
  lemma {:induction false} SelectedCount(n: nat, selection: seq<int>)
    requires ValidSelection(selection, n)
    ensures Count(Selected(n, selection)) == |selection|
    decreases |selection|
  {
    if selection == [] {
      NothingMarked(seq(n, _ => BlankRow), Selected(n, selection));
    } else {
      var k := |selection| - 1;
      var init := selection[..k];
      var last := selection[k];
      SelectedCount(n, init);
      var m := Selected(n, init);
      assert last !in init by {
        NotListedBefore(selection, n, k, k);
      }
      assert Selected(n, selection) == m[last := true] by {
        assert selection == init + [last];
      }
      CountPrefixMark(m, last, n, true);
      assert m[..n] == m;
      assert m[last := true][..n] == m[last := true];
    }
  }

  /** Blanks before the `k` selected rows add `k` rows; removing them takes `k` away. */
  lemma SelectionResizes(rows: seq<Row>, selection: seq<int>)
    requires ValidSelection(selection, |rows|)
    ensures |BlanksBefore(rows, Selected(|rows|, selection))| == |rows| + |selection|
    ensures |Survivors(rows, Selected(|rows|, selection))| == |rows| - |selection|
  {
    SelectedCount(|rows|, selection);
    BlanksBeforeLength(rows, Selected(|rows|, selection));
    SurvivorsLength(rows, Selected(|rows|, selection));
  }

  /** Qt's rule for persistent row handles when a row is inserted at `p`: handles at or below it move down. */
  function ShiftAfterInsert(handles: seq<int>, p: int): seq<int>
  {
    seq(|handles|, j requires 0 <= j < |handles| => if handles[j] >= p then handles[j] + 1 else handles[j])
  }

  /** Qt's rule when row `p` is removed: its handle becomes invalid (-1), handles below it move up. */
  function ShiftAfterRemove(handles: seq<int>, p: int): seq<int>
  {
    seq(|handles|, j requires 0 <= j < |handles| =>
      if handles[j] == p then -1 else if handles[j] > p then handles[j] - 1 else handles[j])
  }

  /** A row listed later in a valid selection is not among the rows listed before it. */
  lemma NotListedBefore(selection: seq<int>, n: int, k: int, j: int)
    requires ValidSelection(selection, n) && 0 <= k <= j < |selection|
    ensures selection[j] !in selection[..k]
  {
    forall l | 0 <= l < k
      ensures selection[..k][l] != selection[j]
    {
    }
  }

  /**
   * Handles of rows still to be processed, after the blank for row
   * `selection[k]` went in at that row's handle, still point at their rows.
   */
  lemma HandlesAfterInsert(marks: seq<bool>, handles: seq<int>, selection: seq<int>, k: int)
    requires ValidSelection(selection, |marks|) && |handles| == |selection| && 0 <= k < |selection|
    requires !marks[selection[k]]
    requires forall j :: k <= j < |selection| ==> handles[j] == selection[j] + Count(marks[..selection[j] + 1])
    ensures forall j :: k + 1 <= j < |selection| ==>
              ShiftAfterInsert(handles, handles[k])[j]
              == selection[j] + Count(marks[selection[k] := true][..selection[j] + 1])
  {
    var i, p := selection[k], handles[k];
    CountPrefixStep(marks, i);
    forall j | k + 1 <= j < |selection|
      ensures ShiftAfterInsert(handles, p)[j] == selection[j] + Count(marks[i := true][..selection[j] + 1])
    {
      var s := selection[j];
      CountPrefixMark(marks, i, s + 1, true);
      if s < i {
        CountPrefixBounds(marks, s + 1, i);
      } else {
        CountPrefixBounds(marks, i, s + 1);
      }
    }
  }

  /**
   * Handles of rows still to be processed, after row `selection[k]` was
   * removed at its handle, still point at their rows.
   */
  lemma HandlesAfterRemove(marks: seq<bool>, handles: seq<int>, selection: seq<int>, k: int)
    requires ValidSelection(selection, |marks|) && |handles| == |selection| && 0 <= k < |selection|
    requires forall j :: k <= j < |selection| ==> !marks[selection[j]]
    requires forall j :: k <= j < |selection| ==> handles[j] == selection[j] - Count(marks[..selection[j]])
    ensures forall j :: k + 1 <= j < |selection| ==>
              ShiftAfterRemove(handles, handles[k])[j]
              == selection[j] - Count(marks[selection[k] := true][..selection[j]])
  {
    var i, p := selection[k], handles[k];
    forall j | k + 1 <= j < |selection|
      ensures ShiftAfterRemove(handles, p)[j] == selection[j] - Count(marks[i := true][..selection[j]])
    {
      var s := selection[j];
      CountPrefixMark(marks, i, s, true);
      if s < i {
        CountPrefixStep(marks, s);
        CountPrefixBounds(marks, s + 1, i);
      } else {
        CountPrefixStep(marks, i);
        CountPrefixBounds(marks, i + 1, s);
      }
    }
  }

  lemma {:induction false} BlanksBeforeAppend(a: seq<Row>, ma: seq<bool>, b: seq<Row>, mb: seq<bool>)
    requires |ma| == |a| && |mb| == |b|
    ensures BlanksBefore(a + b, ma + mb) == BlanksBefore(a, ma) + BlanksBefore(b, mb)
    decreases |a|
  {
    if a != [] {
      assert (a + b)[1..] == a[1..] + b;
      assert (ma + mb)[1..] == ma[1..] + mb;
      BlanksBeforeAppend(a[1..], ma[1..], b, mb);
    } else {
      assert a + b == b && ma + mb == mb;
    }
  }

  lemma {:induction false} SurvivorsAppend(a: seq<Row>, ma: seq<bool>, b: seq<Row>, mb: seq<bool>)
    requires |ma| == |a| && |mb| == |b|
    ensures Survivors(a + b, ma + mb) == Survivors(a, ma) + Survivors(b, mb)
    decreases |a|
  {
    if a != [] {
      assert (a + b)[1..] == a[1..] + b;
      assert (ma + mb)[1..] == ma[1..] + mb;
      SurvivorsAppend(a[1..], ma[1..], b, mb);
    } else {
      assert a + b == b && ma + mb == mb;
    }
  }

  /** With nothing marked, no blank is inserted, no row removed and nothing counted. */
  lemma {:induction false} NothingMarked(rows: seq<Row>, marks: seq<bool>)
    requires |marks| == |rows|
    requires forall i :: 0 <= i < |marks| ==> !marks[i]
    ensures Count(marks) == 0
    ensures BlanksBefore(rows, marks) == rows
    ensures Survivors(rows, marks) == rows
    decreases |rows|
  {
    if rows != [] {
      NothingMarked(rows[1..], marks[1..]);
      assert rows == [rows[0]] + rows[1..];
    }
  }

  /** Inserting blanks adds exactly one row per mark. */
  lemma {:induction false} BlanksBeforeLength(rows: seq<Row>, marks: seq<bool>)
    requires |marks| == |rows|
    ensures |BlanksBefore(rows, marks)| == |rows| + Count(marks)
    decreases |rows|
  {
    if rows != [] {
      BlanksBeforeLength(rows[1..], marks[1..]);
    }
  }

  /** Removing drops exactly one row per mark. */
  lemma {:induction false} SurvivorsLength(rows: seq<Row>, marks: seq<bool>)
    requires |marks| == |rows|
    ensures |Survivors(rows, marks)| == |rows| - Count(marks)
    decreases |rows|
  {
    if rows != [] {
      SurvivorsLength(rows[1..], marks[1..]);
    }
  }

  /**
   * Where row `i` of the original table stands once the blanks are in:
   * at `i` plus the number of marks up to and including its own, with a
   * blank right in front of it when it is marked.
   */
  lemma BlanksBeforeAt(rows: seq<Row>, marks: seq<bool>, i: int)
    requires |marks| == |rows| && 0 <= i < |rows|
    ensures i + Count(marks[..i + 1]) < |BlanksBefore(rows, marks)|
    ensures BlanksBefore(rows, marks)[i + Count(marks[..i + 1])] == rows[i]
    ensures marks[i] ==> BlanksBefore(rows, marks)[i + Count(marks[..i + 1]) - 1] == BlankRow
  {
    assert rows == rows[..i] + rows[i..];
    assert marks == marks[..i] + marks[i..];
    BlanksBeforeAppend(rows[..i], marks[..i], rows[i..], marks[i..]);
    BlanksBeforeLength(rows[..i], marks[..i]);
    CountPrefixStep(marks, i);
  }

  /** Where an unmarked row `i` stands once the marked rows are gone: `i` less the marks before it. */
  lemma SurvivorAt(rows: seq<Row>, marks: seq<bool>, i: int)
    requires |marks| == |rows| && 0 <= i < |rows| && !marks[i]
    ensures 0 <= i - Count(marks[..i]) < |Survivors(rows, marks)|
    ensures Survivors(rows, marks)[i - Count(marks[..i])] == rows[i]
  {
    assert rows == rows[..i] + rows[i..];
    assert marks == marks[..i] + marks[i..];
    SurvivorsAppend(rows[..i], marks[..i], rows[i..], marks[i..]);
    SurvivorsLength(rows[..i], marks[..i]);
    CountAtMostLength(marks[..i]);
  }

  /** Marking one more row inserts one blank, at the position that row's handle holds. */
  lemma MarkInsertsBlank(rows: seq<Row>, marks: seq<bool>, i: int)
    requires |marks| == |rows| && 0 <= i < |rows| && !marks[i]
    ensures i + Count(marks[..i]) <= |BlanksBefore(rows, marks)|
    ensures BlanksBefore(rows, marks[i := true])
         == Insert(BlanksBefore(rows, marks), i + Count(marks[..i]), BlankRow)
  {
    var m' := marks[i := true];
    var a, b := rows[..i], rows[i + 1..];
    assert rows == a + ([rows[i]] + b);
    assert marks == marks[..i] + ([false] + marks[i + 1..]);
    assert m' == marks[..i] + ([true] + marks[i + 1..]);
    BlanksBeforeAppend(a, marks[..i], [rows[i]] + b, [false] + marks[i + 1..]);
    BlanksBeforeAppend(a, marks[..i], [rows[i]] + b, [true] + marks[i + 1..]);
    assert ([rows[i]] + b)[1..] == b;
    assert ([false] + marks[i + 1..])[1..] == marks[i + 1..];
    assert ([true] + marks[i + 1..])[1..] == marks[i + 1..];
    BlanksBeforeLength(a, marks[..i]);
  }

  /** Marking one more row removes exactly that row, at the position its handle holds. */
  lemma MarkRemovesRow(rows: seq<Row>, marks: seq<bool>, i: int)
    requires |marks| == |rows| && 0 <= i < |rows| && !marks[i]
    ensures 0 <= i - Count(marks[..i]) < |Survivors(rows, marks)|
    ensures Survivors(rows, marks[i := true]) == Remove(Survivors(rows, marks), i - Count(marks[..i]))
  {
    var m' := marks[i := true];
    var a, b := rows[..i], rows[i + 1..];
    assert rows == a + ([rows[i]] + b);
    assert marks == marks[..i] + ([false] + marks[i + 1..]);
    assert m' == marks[..i] + ([true] + marks[i + 1..]);
    SurvivorsAppend(a, marks[..i], [rows[i]] + b, [false] + marks[i + 1..]);
    SurvivorsAppend(a, marks[..i], [rows[i]] + b, [true] + marks[i + 1..]);
    assert ([rows[i]] + b)[1..] == b;
    assert ([false] + marks[i + 1..])[1..] == marks[i + 1..];
    assert ([true] + marks[i + 1..])[1..] == marks[i + 1..];
    SurvivorsLength(a, marks[..i]);
    CountAtMostLength(marks[..i]);
  }

  /** The positions, in the table with blanks inserted, that hold an inserted blank. */
  function InsertedMarks(marks: seq<bool>): seq<bool>
    decreases |marks|
  {
    if marks == [] then []
    else (if marks[0] then [true, false] else [false]) + InsertedMarks(marks[1..])
  }

  /** Deleting exactly the blanks "Add Row" inserted gives back the table as it was. */
  lemma {:induction false} DeleteInsertedBlanks(rows: seq<Row>, marks: seq<bool>)
    requires |marks| == |rows|
    ensures |InsertedMarks(marks)| == |BlanksBefore(rows, marks)|
    ensures Survivors(BlanksBefore(rows, marks), InsertedMarks(marks)) == rows
    decreases |rows|
  {
    if rows != [] {
      DeleteInsertedBlanks(rows[1..], marks[1..]);
      var head := if marks[0] then [BlankRow, rows[0]] else [rows[0]];
      var headMarks := if marks[0] then [true, false] else [false];
      SurvivorsAppend(head, headMarks, BlanksBefore(rows[1..], marks[1..]), InsertedMarks(marks[1..]));
      assert Survivors(head, headMarks) == [rows[0]];
      assert rows == [rows[0]] + rows[1..];
    }
  }
}
