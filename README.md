# sublime-text-ocp-indent, modelled in Dafny

The plugin lets the editor re-indent OCaml code with the external `ocp-indent`
tool. It sends the whole buffer to `ocp-indent --numeric --indent-empty`, which
prints one indent width per buffer line. The plugin reads those widths and
rewrites each target line as that many spaces followed by the line's text
without its leading spaces. Three commands choose the target lines:

- the on-insert command re-indents the rows of every selection and the row above each;
- the selection command re-indents the rows the selections span;
- the file command re-indents every row.

After a character is typed, every selection becomes a caret at its `b` end.

The model has five modules:

- `Text` (`text.dfy`): the string operations the plugin uses. These are
  `" " * n`, `str.lstrip(" ")`, `str.split`, and decimal digit strings as
  `int()` reads them.
- `OcpOutput` (`output.dfy`): reading `ocp-indent`'s numeric output into the
  indent vector. It also defines the output `ocp-indent` writes for a vector,
  and proves that parsing that output gives the vector back.
- `Reindent` (`reindent.dfy`): the rewrite of one line. It also defines
  `Reindented`, the buffer after a set of target lines has been rewritten, with
  its frame, idempotence, order and negative-index lemmas.
- `Selections` (`selections.dfy`): the target sets of the three commands, and
  the collapse of selections to carets.
- `Plugin` (`plugin.dfy`): the editor state as classes. `View` holds the lines,
  the scope flag and the selection set; `Selection` holds the regions. This
  module also has the `indent_lines` loop, which rewrites the view line by line
  in place, and the three commands. Every method states the new state as a
  function of the old.

The buffer is a sequence of lines with no newline in them. A boolean field of
the view stands for the `source.ocaml` scope test. The text `ocp-indent` printed
is a parameter of each operation. Commands take the rows of each selection's
two ends as row pairs, not text offsets.

## Model

| member | source | states |
|---|---|---|
| `Text.Spaces` | sublime-text-ocp-indent.py:40 | `" " * n` is n characters, all spaces |
| `Text.LStripSpaces` | sublime-text-ocp-indent.py:40 | the result does not start with a space, and the input is that many spaces followed by the result; only `' '` is removed |
| `Text.LStripSpacesOfPadded` | sublime-text-ocp-indent.py:40 | stripping k spaces in front of a text that does not start with a space gives that text, for every k |
| `Text.Split` | sublime-text-ocp-indent.py:32 | `split("\n")` gives one more piece than there are newlines, no piece holds a newline, and joining the pieces with newlines gives the input back |
| `Text.SplitJoin` | sublime-text-ocp-indent.py:32 | splitting newline-free pieces joined with newlines gives exactly those pieces |
| `Text.DecimalValue` | sublime-text-ocp-indent.py:32 | `int()` of a digit string: its units digit is the string's last digit, and k digits denote a number below 10^k |
| `Text.DecimalValueShowNat` | sublime-text-ocp-indent.py:32 | `int()` of the decimal rendering of n is n |
| `OcpOutput.Pieces` | sublime-text-ocp-indent.py:32 | `result[:-1].split("\n")` gives at least one piece, no piece holds a newline, and joining the pieces with newlines gives the output without its last character |
| `OcpOutput.WellFormed` | sublime-text-ocp-indent.py:32 | output every piece of which `int()` can read is at least two characters long and starts with a digit |
| `OcpOutput.Values` | sublime-text-ocp-indent.py:32 | the comprehension `[int(r) for r in ...]` gives one number per piece |
| `OcpOutput.ParseOutput` | sublime-text-ocp-indent.py:32 | the indent vector has one entry per newline before the dropped last character, plus one |
| `OcpOutput.ParseTerminated` | sublime-text-ocp-indent.py:32 | output made of n digit strings, each followed by a newline, is readable and parses to the n numbers they denote, in order |
| `OcpOutput.ParseRender` | sublime-text-ocp-indent.py:32 | for every non-empty indent vector, parsing the output that prints it gives the vector back |
| `OcpOutput.EmptyOutputIsNotWellFormed` | sublime-text-ocp-indent.py:32 | empty output, or a lone newline, is not readable: `int("")` fails |
| `Reindent.ReindentLine` | sublime-text-ocp-indent.py:40 | the new line is `width` spaces followed by the old line's text without leading spaces: its length is `width` plus that text's, its first `width` characters are spaces, and stripping it gives what stripping the old line gave |
| `Reindent.ReindentPadded` | sublime-text-ocp-indent.py:40 | a line of k spaces and a text not starting with a space becomes `width` spaces and that same text, whatever k was |
| `Reindent.ReindentKeepsOtherWhitespace` | sublime-text-ocp-indent.py:40 | when the first character after the leading spaces is not a space (a tab, say), it and everything after it come right after the new spaces |
| `Reindent.ReindentFixpoint` | sublime-text-ocp-indent.py:40 | a line whose first `width` characters are spaces and whose next character, if any, is not a space is left as it is |
| `Reindent.ReindentIdempotent` | sublime-text-ocp-indent.py:40 | re-indenting a line twice with the same width equals re-indenting it once |
| `Reindent.ReindentNoNewline` | sublime-text-ocp-indent.py:40-41 | the new line text holds no newline when the old one held none, so the buffer keeps its line count |
| `Reindent.Reindented` | sublime-text-ocp-indent.py:35-41 | re-indenting a set of target lines keeps the line count, and every line outside the target set is unchanged |
| `Reindent.ReindentedAt` | sublime-text-ocp-indent.py:38-41 | spells out the definition on target lines: each target line is `widths[i]` spaces followed by its old text without leading spaces |
| `Reindent.ReindentedSkipsNegative` | sublime-text-ocp-indent.py:35-37 | adding a negative index to the target set changes nothing |
| `Reindent.ReindentedNonNegative` | sublime-text-ocp-indent.py:35-37 | only the non-negative targets matter |
| `Reindent.ReindentedNothing` | sublime-text-ocp-indent.py:35-41 | no targets leave the buffer unchanged |
| `Reindent.ReindentedStep` | sublime-text-ocp-indent.py:38-41 | one loop step rewrites only its own line, and the result is the buffer re-indented on one more target, whether or not that target was already done |
| `Reindent.ReindentedIdempotent` | sublime-text-ocp-indent.py:35-41 | re-indenting the same target set twice with the same widths equals doing it once |
| `Reindent.ReindentedUnion` | sublime-text-ocp-indent.py:35-41 | re-indenting one set and then another equals re-indenting their union, so grouping and order of targets do not matter |
| `Reindent.ReindentedNoNewline` | sublime-text-ocp-indent.py:35-41 | after re-indenting, no line holds a newline |
| `Selections.Lo` | sublime-text-ocp-indent.py:53 | `min` of a selection's two end rows: at most both, and equal to one of them |
| `Selections.Hi` | sublime-text-ocp-indent.py:53 | `max` of a selection's two end rows: at least both, and equal to one of them |
| `Selections.Range` | sublime-text-ocp-indent.py:53 | `range(lo, hi)` holds exactly the x with lo <= x < hi |
| `Selections.Covered` | sublime-text-ocp-indent.py:53 | the nested comprehension holds a line exactly when some span's first row, less the rows above, is at most that line, and the line is at most the span's last row |
| `Selections.InsertTargets` | sublime-text-ocp-indent.py:52-53 | a line is an on-insert target exactly when, for some selection, it lies between one above the selection's lower row and its higher row, inclusive |
| `Selections.SelectionTargets` | sublime-text-ocp-indent.py:64-65 | a line is a selection-command target exactly when it lies between some selection's lower and higher row, inclusive |
| `Selections.InsertTargetsExtendSelection` | sublime-text-ocp-indent.py:53 | the on-insert targets are the selection-command targets plus the row above each selection |
| `Selections.InsertTargetsBounded` | sublime-text-ocp-indent.py:52-53 | with all selections inside n lines, every on-insert target is between -1 and n-1 |
| `Selections.SelectionTargetsBounded` | sublime-text-ocp-indent.py:64-65 | with all selections inside n lines, every selection-command target is between 0 and n-1 |
| `Selections.FileTargets` | sublime-text-ocp-indent.py:71 | the file targets number lastRow + 1 and strictly ascend, so each row is listed once |
| `Selections.FileTargetsCoverRows` | sublime-text-ocp-indent.py:71 | a row is a file target exactly when it is between 0 and lastRow |
| `Selections.Collapse` | sublime-text-ocp-indent.py:57 | same number and order of selections; each becomes empty, at its own `b` offset |
| `Selections.CollapseKeepsCarets` | sublime-text-ocp-indent.py:57 | a selection that already is a caret stays as it is |
| `Selections.CollapseIdempotent` | sublime-text-ocp-indent.py:57 | collapsing twice equals collapsing once |
| `Plugin.Selection.Clear` | sublime-text-ocp-indent.py:58 | the selection set is empty afterwards |
| `Plugin.Selection.AddAll` | sublime-text-ocp-indent.py:59 | the given regions are appended, in order |
| `Plugin.View.LastRow` | sublime-text-ocp-indent.py:71 | the row of the buffer's end is the index of its last line |
| `Plugin.View.Replace` | sublime-text-ocp-indent.py:38-41 | replacing line `row` changes that line only; the view stays valid |
| `Plugin.Members` | sublime-text-ocp-indent.py:35 | the lines `for line in lines` visits, as a set: every listed line is in it and it holds nothing else |
| `Plugin.IndentLines` | sublime-text-ocp-indent.py:17-41 | outside an OCaml scope the buffer is unchanged; otherwise it is `Reindented` on the set of targets, whatever their order or repetition; negative targets are skipped; the buffer stays valid |
| `Plugin.IndentLinesOnInsert` | sublime-text-ocp-indent.py:44-59 | the buffer is re-indented on the on-insert targets (unchanged outside OCaml); the selections become `Collapse` of the old ones, also outside OCaml |
| `Plugin.IndentSelection` | sublime-text-ocp-indent.py:62-66 | the buffer is re-indented on the selection-command targets (unchanged outside OCaml) |
| `Plugin.IndentFile` | sublime-text-ocp-indent.py:69-71 | every line i becomes `ReindentLine(old line i, width i)` in an OCaml scope; the line count is unchanged; nothing changes outside OCaml |
| `Plugin.LetBindingOutput` | sublime-text-ocp-indent.py:32 | the output `0\n2\n` is readable and parses to `[0, 2]` |
| `Plugin.LetBindingReindent` | sublime-text-ocp-indent.py:35-41 | with widths `[0, 2]`, re-indenting both lines of `let x =` / `  1` leaves it unchanged, and `let x =` / `1` becomes `let x =` / `  1` |

## Left out

- The `ocp-indent` subprocess (`Popen`/`communicate`, lines 22-31) is process I/O. Its standard output is a parameter (`output`). The rule that it prints one width per line is the caller's precondition (`Targetable`, or `|view.lines| <= |ParseOutput(output)|` for the file command).
- `ParseOutput` accepts only non-empty ASCII digit strings. Python's `int()` also accepts signs, surrounding whitespace and underscores; `ocp-indent` prints none of these. Output `int()` cannot read, and a target index past the indent vector, crash the source. The model excludes both by precondition (`WellFormed`, `Targetable`) and does not model the crash.
- The `source.ocaml` scope test (`match_selector`, lines 14-15) is the view's boolean field `ocaml`.
- Converting between text offsets and rows (`text_point`, `rowcol`, `view.line`, lines 38, 52, 64, 71) is not modelled. The commands take the rows of each selection's ends as `RowSpan` pairs, and a line is addressed by its row.
- Python set iteration order is unspecified. The on-insert and selection commands therefore take the order as a parameter (`order`, listing exactly the target set). `IndentLines` proves that the result does not depend on it.
- Plugin.IndentLinesOnInsert: the host editor shifts selection offsets when `view.replace` changes text before them. That is editor behaviour and is not modelled, so the collapse is stated on the regions as they were before the command ran.
- Plugin.Selection.AddAll: Sublime's `add_all` also merges overlapping regions. The model appends the regions as given. That is the list the source builds on line 57, whose count and order `Collapse` states.
- `settings().set("auto_indent", False)` (line 46) and `run_command("insert")` (line 49) are editor settings and a host command. The on-insert model starts from the buffer after the typed character is in.
- `OcpIndentEventListener.on_pre_save` (lines 73-76) is event wiring that calls the file command when the scope is OCaml. It is not modelled separately.
- The module docstring (lines 1-4) describes autocompletion and type inference, which this file does not implement.
