/** The editor side of the plugin: a view whose lines are rewritten in place,
    its selection set, the re-indent loop and the three commands built on it.
    The indentation itself is computed by ocp-indent; each operation takes the
    text ocp-indent printed for the buffer (`output`) as a parameter. */
module Plugin {
  import opened Text
  import opened OcpOutput
  import opened Reindent
  import opened Selections

  /** The selection set of a view (`view.sel()`): regions in order. */
  class Selection {
    var regions: seq<Region>

    constructor (regions: seq<Region>)
      ensures this.regions == regions
    {
      this.regions := regions;
    }

    /** `sel.clear()` */
    method Clear()
      modifies this
      ensures regions == []
    {
      regions := [];
    }

    /** `sel.add_all(rs)` */
    method AddAll(rs: seq<Region>)
      modifies this
      ensures regions == old(regions) + rs
    {
      regions := regions + rs;
    }
  }

  /** An editor view: the buffer as its lines (the text split on newlines),
      whether the scope at the first caret is OCaml source (`is_ocaml`), and
      its selection set. */
  class View {
    var lines: seq<string>
    var ocaml: bool
    const sel: Selection

    /** A buffer always has at least one (possibly empty) line, and no line holds a newline. */
    ghost predicate Valid()
      reads this
    {
      |lines| > 0 && forall i :: 0 <= i < |lines| ==> NoNewline(lines[i])
    }

    constructor (lines: seq<string>, ocaml: bool, sel: Selection)
      requires |lines| > 0 && forall i :: 0 <= i < |lines| ==> NoNewline(lines[i])
      ensures Valid()
      ensures this.lines == lines && this.ocaml == ocaml && this.sel == sel
    {
      this.lines := lines;
      this.ocaml := ocaml;
      this.sel := sel;
    }

    /** `view.rowcol(view.size())[0]`: the row of the end of the buffer. */
    function LastRow(): (r: nat)
      reads this
      requires Valid()
      ensures r < |lines| && r + 1 == |lines|
    {
      |lines| - 1
    }

    /** `view.replace(edit, view.line(view.text_point(row, 0)), text)`: the
        text of line `row` becomes `text`, every other line stays. */
    method Replace(row: nat, text: string)
      requires Valid()
      requires row < |lines| && NoNewline(text)
      modifies this`lines
      ensures Valid()
      ensures lines == old(lines)[row := text]
    {
      lines := lines[row := text];
    }
  }

  /** The lines a target collection names, whatever their order or repetition. */
  function Members(lines: seq<int>): (r: set<int>)
    ensures forall i :: 0 <= i < |lines| ==> lines[i] in r
    ensures forall t :: t in r ==> t in lines
  {
    set t | t in lines
  }

  /** `indent_lines(view, edit, lines)`, `lines` being listed in the order
      `for line in lines` visits them. Outside an OCaml scope nothing changes.
      Otherwise every non-negative target line is re-indented with the width
      ocp-indent gave it. The new buffer depends only on the set of targets:
      neither the order nor repeated entries matter. */
  method IndentLines(view: View, lines: seq<int>, output: string)
    requires view.Valid()
    requires view.ocaml ==> WellFormed(output) && Targetable(Members(lines), |view.lines|, |ParseOutput(output)|)
    modifies view`lines
    ensures view.Valid()
    ensures view.lines == if view.ocaml then Reindented(old(view.lines), ParseOutput(output), Members(lines)) else old(view.lines)
  {
    if !view.ocaml {
      return;
    }
    var result := ParseOutput(output);
    ghost var buffer := view.lines;
    ReindentedNothing(buffer, result);
    for k := 0 to |lines|
      invariant view.Valid()
      invariant Targetable(Members(lines[..k]), |buffer|, |result|)
      invariant view.lines == Reindented(buffer, result, Members(lines[..k]))
    {
      var line := lines[k];
      ghost var done := Members(lines[..k]);
      assert lines[..k + 1] == lines[..k] + [line];
      assert Members(lines[..k + 1]) == done + {line};
      assert line in Members(lines);
      if line < 0 {
        ReindentedSkipsNegative(buffer, result, done, line);
        continue;
      }
      ReindentedStep(buffer, result, done, line);
      var currentLineContent := view.lines[line];
      ReindentNoNewline(currentLineContent, result[line]);
      view.Replace(line, ReindentLine(currentLineContent, result[line]));
    }
    assert lines[..|lines|] == lines;
  }

  /** `OcpIndentLinesOnInsert.run`, after the typed character is in the buffer:
      `spans` are the rows of the two ends of each selection and `order` is the
      order in which the target set is iterated. Re-indents every selected row
      and the row above each selection, then turns every selection into a
      caret at its `b` end; the collapse happens outside an OCaml scope too. */
  method IndentLinesOnInsert(view: View, spans: seq<RowSpan>, order: seq<int>, output: string)
    requires view.Valid()
    requires Members(order) == InsertTargets(spans)
    requires view.ocaml ==> WellFormed(output) && Targetable(InsertTargets(spans), |view.lines|, |ParseOutput(output)|)
    modifies view`lines, view.sel
    ensures view.Valid()
    ensures view.lines == if view.ocaml then Reindented(old(view.lines), ParseOutput(output), InsertTargets(spans)) else old(view.lines)
    ensures view.sel.regions == Collapse(old(view.sel.regions))
  {
    IndentLines(view, order, output);
    var selectionRegions := Collapse(view.sel.regions);
    view.sel.Clear();
    view.sel.AddAll(selectionRegions);
  }

  /** `OcpIndentSelection.run`: re-indents every row some selection spans, the
      set being iterated in `order`; the selections stay as they are. */
  method IndentSelection(view: View, spans: seq<RowSpan>, order: seq<int>, output: string)
    requires view.Valid()
    requires Members(order) == SelectionTargets(spans)
    requires view.ocaml ==> WellFormed(output) && Targetable(SelectionTargets(spans), |view.lines|, |ParseOutput(output)|)
    modifies view`lines
    ensures view.Valid()
    ensures view.lines == if view.ocaml then Reindented(old(view.lines), ParseOutput(output), SelectionTargets(spans)) else old(view.lines)
  {
    IndentLines(view, order, output);
  }

  /** `OcpIndentFile.run`: re-indents every line of the buffer. Needs a width
      for every line, which ocp-indent gives. */
  method IndentFile(view: View, output: string)
    requires view.Valid()
    requires view.ocaml ==> WellFormed(output) && |view.lines| <= |ParseOutput(output)|
    modifies view`lines
    ensures view.Valid()
    ensures |view.lines| == |old(view.lines)|
    ensures forall i :: 0 <= i < |view.lines| ==>
      view.lines[i] == if view.ocaml then ReindentLine(old(view.lines)[i], ParseOutput(output)[i]) else old(view.lines)[i]
  {
    var lines := FileTargets(view.LastRow());
    FileTargetsCoverRows(view.LastRow());
    IndentLines(view, lines, output);
  }

  /** ocp-indent's output `0` and `2` for the buffer `let x =` / `  1`. */
  lemma LetBindingOutput()
    ensures WellFormed("0\n2\n") && ParseOutput("0\n2\n") == [0, 2]
  {
    assert Terminated(["0", "2"]) == "0\n2\n";
    ParseTerminated(["0", "2"]);
    assert "0"[..0] == "" && "2"[..0] == "";
  }

  /** With widths 0 and 2, re-indenting both lines of `let x =` / `  1` leaves
      it as it is, and after the second line lost its indentation re-indenting
      restores it. */
  lemma LetBindingReindent()
    ensures Targetable({0, 1}, 2, 2)
    ensures Reindented(["let x =", "  1"], [0, 2], {0, 1}) == ["let x =", "  1"]
    ensures Reindented(["let x =", "1"], [0, 2], {0, 1}) == ["let x =", "  1"]
  {
    assert LStripSpaces("let x =") == "let x =" && LStripSpaces("1") == "1";
    assert Spaces(2) == "  " by {
      assert Spaces(2) == [' '] + Spaces(1) && Spaces(1) == [' '] + Spaces(0);
    }
    LStripSpacesOfPadded(2, "1");
    assert "  1" == Spaces(2) + "1";
    var first := Reindented(["let x =", "  1"], [0, 2], {0, 1});
    assert first[0] == ReindentLine("let x =", 0) == "let x =";
    assert first[1] == ReindentLine("  1", 2) == "  1";
    var second := Reindented(["let x =", "1"], [0, 2], {0, 1});
    assert second[0] == ReindentLine("let x =", 0) == "let x =";
    assert second[1] == ReindentLine("1", 2) == "  1";
  }
}
