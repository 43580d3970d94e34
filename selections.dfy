/** Which lines each command re-indents, and how selections are collapsed after
    a character is typed. A selection is seen here in two ways: as the rows of
    its two ends (`RowSpan`), from which the target lines are computed, and as
    its two text offsets (`Region`), which the collapse rewrites. */
module Selections {

  /** `(row of region.a, row of region.b)`; the two ends may come in either order. */
  type RowSpan = (nat, nat)

  /** `min(start, end)` */
  function Lo(s: RowSpan): (r: nat)
    ensures r <= s.0 && r <= s.1 && (r == s.0 || r == s.1)
  {
    if s.0 <= s.1 then s.0 else s.1
  }

  /** `max(start, end)` */
  function Hi(s: RowSpan): (r: nat)
    ensures r >= s.0 && r >= s.1 && (r == s.0 || r == s.1)
  {
    if s.0 <= s.1 then s.1 else s.0
  }

  /** The numbers `range(lo, hi)` produces, as a set. */
  function Range(lo: int, hi: int): (r: set<int>)
    ensures forall x :: x in r <==> lo <= x < hi
    decreases hi - lo
  {
    if lo >= hi then {} else {lo} + Range(lo + 1, hi)
  }

  /** The union over all spans of the rows from `above` rows before the span's
      first row to its last row, inclusive. */
  function Covered(spans: seq<RowSpan>, above: nat): (r: set<int>)
    ensures forall line :: line in r <==>
      exists i :: 0 <= i < |spans| && Lo(spans[i]) - above <= line <= Hi(spans[i])
  {
    if spans == [] then
      {}
    else
      var rest := Covered(spans[1..], above);
      assert forall i :: 0 < i < |spans| ==> spans[i] == spans[1..][i - 1];
      Range(Lo(spans[0]) - above, Hi(spans[0]) + 1) + rest
  }

  /** Targets of the indent-on-insert command: every row of every selection and
      the row just above each one (row -1 above a selection on row 0). */
  function InsertTargets(spans: seq<RowSpan>): (r: set<int>)
    ensures forall line :: line in r <==>
      exists i :: 0 <= i < |spans| && Lo(spans[i]) - 1 <= line <= Hi(spans[i])
  {
    Covered(spans, 1)
  }

  /** Targets of the indent-selection command: every row some selection spans. */
  function SelectionTargets(spans: seq<RowSpan>): (r: set<int>)
    ensures forall line :: line in r <==>
      exists i :: 0 <= i < |spans| && Lo(spans[i]) <= line <= Hi(spans[i])
  {
    Covered(spans, 0)
  }

  /** The insert targets are the selection targets plus the row above each selection. */
  lemma InsertTargetsExtendSelection(spans: seq<RowSpan>)
    ensures InsertTargets(spans) ==
      SelectionTargets(spans) + set i | 0 <= i < |spans| :: Lo(spans[i]) - 1
  {
    var above := set i | 0 <= i < |spans| :: Lo(spans[i]) - 1;
    forall line | line in InsertTargets(spans)
      ensures line in SelectionTargets(spans) + above
    {
      var i :| 0 <= i < |spans| && Lo(spans[i]) - 1 <= line <= Hi(spans[i]);
      if line == Lo(spans[i]) - 1 {
        assert line in above;
      }
    }
  }

  /** With every selection inside a buffer of n lines, the insert targets lie in
      -1 .. n-1: only row -1 can fall outside the buffer. */
  lemma InsertTargetsBounded(spans: seq<RowSpan>, n: nat)
    requires forall i :: 0 <= i < |spans| ==> spans[i].0 < n && spans[i].1 < n
    ensures forall t :: t in InsertTargets(spans) ==> -1 <= t < n
  {
  }

  /** The selection targets are rows of the buffer: none is negative. */
  lemma SelectionTargetsBounded(spans: seq<RowSpan>, n: nat)
    requires forall i :: 0 <= i < |spans| ==> spans[i].0 < n && spans[i].1 < n
    ensures forall t :: t in SelectionTargets(spans) ==> 0 <= t < n
  {
  }

  /** Targets of the indent-file command: `[line for line in range(0, lastRow + 1)]`,
      in ascending order, so each row is listed once. */
  function FileTargets(lastRow: nat): (r: seq<int>)
    ensures |r| == lastRow + 1
    ensures forall i, j :: 0 <= i < j < |r| ==> r[i] < r[j]
  {
    seq(lastRow + 1, i => i)
  }

  /** The indent-file targets are exactly the rows 0 .. lastRow. */
  lemma FileTargetsCoverRows(lastRow: nat)
    ensures forall t :: t in FileTargets(lastRow) <==> 0 <= t <= lastRow
  {
    var r := FileTargets(lastRow);
    forall t | 0 <= t <= lastRow
      ensures t in r
    {
      assert r[t] == t;
    }
  }

  /** A selection region by its two text offsets; `a` is where it was started,
      `b` where the caret is. */
  datatype Region = Region(a: nat, b: nat) {
    /** The region is a bare caret. */
    predicate Empty() {
      a == b
    }
  }

  /** `[Region(region.b, region.b) for region in sel]`: every selection becomes
      a bare caret at its `b` end, in the same order, none added or dropped. */
  function Collapse(sel: seq<Region>): (r: seq<Region>)
    ensures |r| == |sel|
    ensures forall i :: 0 <= i < |r| ==> r[i].Empty() && r[i].b == sel[i].b
  {
    seq(|sel|, i requires 0 <= i < |sel| => Region(sel[i].b, sel[i].b))
  }

  /** A selection that already is a caret is left where it is. */
  lemma CollapseKeepsCarets(sel: seq<Region>)
    ensures forall i :: 0 <= i < |sel| && sel[i].Empty() ==> Collapse(sel)[i] == sel[i]
  {
  }

  /** Collapsing twice is collapsing once. */
  lemma CollapseIdempotent(sel: seq<Region>)
    ensures Collapse(Collapse(sel)) == Collapse(sel)
  {
  }
}
