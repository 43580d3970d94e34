/** Re-indenting lines: a line's new text is the prescribed number of spaces
    followed by its old text with the leading spaces removed. */
module Reindent {
  import opened Text

  /** `(" " * width) + line.lstrip(" ")`: the new line starts with exactly
      `width` spaces, and what follows its leading spaces is what followed the
      old line's leading spaces. */
  function ReindentLine(line: string, width: nat): (r: string)
    ensures |r| == width + |LStripSpaces(line)|
    ensures forall i :: 0 <= i < width ==> r[i] == ' '
    ensures LStripSpaces(r) == LStripSpaces(line)
  {
    LStripSpacesOfPadded(width, LStripSpaces(line));
    Spaces(width) + LStripSpaces(line)
  }

  /** Closed form: a line of k spaces and a rest that does not start with a
      space becomes `width` spaces and the same rest, whatever k was. */
  lemma ReindentPadded(k: nat, rest: string, width: nat)
    requires rest == [] || rest[0] != ' '
    ensures ReindentLine(Spaces(k) + rest, width) == Spaces(width) + rest
  {
    LStripSpacesOfPadded(k, rest);
  }

  /** Only spaces are stripped: when the first k characters of a line are
      spaces and the next one is not (a tab, say), that character and all that
      follows it come right after the new spaces, unchanged. */
  lemma ReindentKeepsOtherWhitespace(line: string, k: nat, width: nat)
    requires k < |line| && line[k] != ' '
    requires forall i :: 0 <= i < k ==> line[i] == ' '
    ensures ReindentLine(line, width) == Spaces(width) + line[k..]
    ensures ReindentLine(line, width)[width] == line[k]
  {
    assert line == Spaces(k) + line[k..];
    ReindentPadded(k, line[k..], width);
  }

  /** A line already indented as prescribed (its first `width` characters
      are spaces and the next one, if any, is not) is left as it is. */
  lemma ReindentFixpoint(line: string, width: nat)
    requires width <= |line|
    requires forall i :: 0 <= i < width ==> line[i] == ' '
    requires width == |line| || line[width] != ' '
    ensures ReindentLine(line, width) == line
  {
    assert line == Spaces(width) + line[width..];
    ReindentPadded(width, line[width..], width);
  }

  /** Re-indenting a line twice with the same width is re-indenting it once. */
  lemma ReindentIdempotent(line: string, width: nat)
    ensures ReindentLine(ReindentLine(line, width), width) == ReindentLine(line, width)
  {
    ReindentPadded(width, LStripSpaces(line), width);
  }

  /** Re-indenting never puts a newline into a line. */
  lemma ReindentNoNewline(line: string, width: nat)
    requires NoNewline(line)
    ensures NoNewline(ReindentLine(line, width))
  {
    var t := LStripSpaces(line);
    assert line == Spaces(|line| - |t|) + t;
    assert forall c :: c in t ==> c in line;
  }

  /** Every non-negative target names a line of the buffer and an entry of the
      indent vector (indexing `result[line]` would fail otherwise); negative
      targets are allowed and name no line. */
  predicate Targetable(targets: set<int>, lineCount: nat, widthCount: nat) {
    forall t :: t in targets ==> t < lineCount && t < widthCount
  }

  /** The buffer after every line in `targets` has been re-indented with its
      width from `widths`: it keeps its number of lines, and every line that is
      not a target is as it was. */
  function Reindented(buffer: seq<string>, widths: seq<nat>, targets: set<int>): (r: seq<string>)
    requires Targetable(targets, |buffer|, |widths|)
    ensures |r| == |buffer|
    ensures forall i :: 0 <= i < |buffer| && i !in targets ==> r[i] == buffer[i]
  {
    seq(|buffer|, i requires 0 <= i < |buffer| =>
      if i in targets then ReindentLine(buffer[i], widths[i]) else buffer[i])
  }

  /** Spells out the definition of `Reindented` on the target lines: each is
      its width in spaces followed by its old text without leading spaces. */
  lemma ReindentedAt(buffer: seq<string>, widths: seq<nat>, targets: set<int>)
    requires Targetable(targets, |buffer|, |widths|)
    ensures forall i :: 0 <= i < |buffer| && i in targets ==>
      Reindented(buffer, widths, targets)[i] == Spaces(widths[i]) + LStripSpaces(buffer[i])
  {
  }

  /** Negative targets are skipped: adding one changes nothing. */
  lemma ReindentedSkipsNegative(buffer: seq<string>, widths: seq<nat>, targets: set<int>, t: int)
    requires Targetable(targets, |buffer|, |widths|)
    requires t < 0
    ensures Targetable(targets + {t}, |buffer|, |widths|)
    ensures Reindented(buffer, widths, targets + {t}) == Reindented(buffer, widths, targets)
  {
  }

  /** Only the non-negative targets matter. */
  lemma ReindentedNonNegative(buffer: seq<string>, widths: seq<nat>, targets: set<int>)
    requires Targetable(targets, |buffer|, |widths|)
    ensures Targetable(set t | t in targets && t >= 0, |buffer|, |widths|)
    ensures Reindented(buffer, widths, set t | t in targets && t >= 0) == Reindented(buffer, widths, targets)
  {
  }

  /** An empty target set leaves the buffer as it is. */
  lemma ReindentedNothing(buffer: seq<string>, widths: seq<nat>)
    ensures Targetable({}, |buffer|, |widths|)
    ensures Reindented(buffer, widths, {}) == buffer
  {
  }

  /** One more step of the loop: re-indenting line t of the buffer re-indented
      on `done` gives the buffer re-indented on `done + {t}`. The step touches
      line t only and reads only line t's old text, whether or not t was done before. */
  lemma ReindentedStep(buffer: seq<string>, widths: seq<nat>, done: set<int>, t: int)
    requires Targetable(done + {t}, |buffer|, |widths|)
    requires 0 <= t
    ensures Targetable(done, |buffer|, |widths|)
    ensures var prev := Reindented(buffer, widths, done);
      Reindented(buffer, widths, done + {t}) == prev[t := ReindentLine(prev[t], widths[t])]
  {
    var prev := Reindented(buffer, widths, done);
    if t in done {
      ReindentIdempotent(buffer[t], widths[t]);
    }
    assert Reindented(buffer, widths, done + {t})[t] == prev[t := ReindentLine(prev[t], widths[t])][t];
  }

  /** Re-indenting the same set twice with the same widths is re-indenting it once. */
  lemma ReindentedIdempotent(buffer: seq<string>, widths: seq<nat>, targets: set<int>)
    requires Targetable(targets, |buffer|, |widths|)
    ensures Targetable(targets, |Reindented(buffer, widths, targets)|, |widths|)
    ensures Reindented(Reindented(buffer, widths, targets), widths, targets) == Reindented(buffer, widths, targets)
  {
    var once := Reindented(buffer, widths, targets);
    forall i | 0 <= i < |buffer| && i in targets
      ensures ReindentLine(once[i], widths[i]) == once[i]
    {
      ReindentIdempotent(buffer[i], widths[i]);
    }
  }

  /** Re-indenting one set and then another is re-indenting their union:
      how the targets are grouped or ordered does not matter. */
  lemma ReindentedUnion(buffer: seq<string>, widths: seq<nat>, first: set<int>, second: set<int>)
    requires Targetable(first + second, |buffer|, |widths|)
    ensures Targetable(first, |buffer|, |widths|)
    ensures Targetable(second, |Reindented(buffer, widths, first)|, |widths|)
    ensures Reindented(Reindented(buffer, widths, first), widths, second) == Reindented(buffer, widths, first + second)
  {
    var once := Reindented(buffer, widths, first);
    forall i | 0 <= i < |buffer| && i in first && i in second
      ensures ReindentLine(once[i], widths[i]) == ReindentLine(buffer[i], widths[i])
    {
      ReindentIdempotent(buffer[i], widths[i]);
    }
  }

  /** Re-indenting keeps every line free of newlines. */
  lemma ReindentedNoNewline(buffer: seq<string>, widths: seq<nat>, targets: set<int>)
    requires Targetable(targets, |buffer|, |widths|)
    requires forall i :: 0 <= i < |buffer| ==> NoNewline(buffer[i])
    ensures forall i :: 0 <= i < |buffer| ==> NoNewline(Reindented(buffer, widths, targets)[i])
  {
    forall i | 0 <= i < |buffer|
      ensures NoNewline(Reindented(buffer, widths, targets)[i])
    {
      if i in targets {
        ReindentNoNewline(buffer[i], widths[i]);
      }
    }
  }
}
