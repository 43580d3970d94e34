/** The numeric output of `ocp-indent --numeric`: one decimal indent width per
    buffer line, each followed by a newline. The plugin drops the last character
    of the output, splits the rest on newlines and reads every piece with `int()`. */
module OcpOutput {
  import opened Text

  /** `result[:-1].split("\n")`; the last character is dropped whatever it is. */
  function Pieces(out: string): (ps: seq<string>)
    requires |out| > 0
    ensures |ps| >= 1
    ensures forall i :: 0 <= i < |ps| ==> NoNewline(ps[i])
    ensures Join(ps, '\n') == out[..|out| - 1]
  {
    Split(out[..|out| - 1], '\n')
  }

  /** Output the plugin can read without `int()` failing: every piece is a
      non-empty run of ASCII digits. Empty output fails (`int("")`). */
  predicate WellFormed(out: string)
    ensures WellFormed(out) ==> |out| >= 2 && IsDigit(out[0])
  {
    |out| > 0 &&
    var ps := Pieces(out);
    JoinStartsWithFirst(ps, '\n');
    assert out[..|out| - 1][..|ps[0]|] == out[..|ps[0]|];
    forall i :: 0 <= i < |ps| ==> IsDigits(ps[i])
  }

  /** `[int(r) for r in ds]`: one number per piece. */
  function Values(ds: seq<string>): (r: seq<nat>)
    requires forall i :: 0 <= i < |ds| ==> IsDigits(ds[i])
    ensures |r| == |ds|
  {
    seq(|ds|, i requires 0 <= i < |ds| => assert IsDigits(ds[i]); DecimalValue(ds[i]))
  }

  /** The indent vector: entry i is the width ocp-indent prescribes for line i.
      There is one entry per newline before the last character, plus one. */
  function ParseOutput(out: string): (r: seq<nat>)
    requires WellFormed(out)
    ensures |r| == Count(out[..|out| - 1], '\n') + 1
  {
    Values(Pieces(out))
  }

  /** Pieces each followed by a newline, as ocp-indent writes its lines. */
  function Terminated(ps: seq<string>): string {
    if ps == [] then "" else ps[0] + "\n" + Terminated(ps[1..])
  }

  lemma {:induction false} TerminatedIsJoin(ps: seq<string>)
    requires |ps| >= 1
    ensures Terminated(ps) == Join(ps, '\n') + "\n"
  {
    if |ps| > 1 {
      TerminatedIsJoin(ps[1..]);
    }
  }

  /** Output made of n digit strings, each followed by a newline, parses to
      exactly the n numbers they denote, in the same order. */
  lemma ParseTerminated(ds: seq<string>)
    requires |ds| >= 1
    requires forall i :: 0 <= i < |ds| ==> IsDigits(ds[i])
    ensures WellFormed(Terminated(ds))
    ensures ParseOutput(Terminated(ds)) == Values(ds)
  {
    var out := Terminated(ds);
    TerminatedIsJoin(ds);
    assert out[..|out| - 1] == Join(ds, '\n');
    SplitJoin(ds, '\n');
  }

  /** The output ocp-indent writes for an indent vector. */
  function Render(widths: seq<nat>): string {
    Terminated(seq(|widths|, i requires 0 <= i < |widths| => ShowNat(widths[i])))
  }

  /** Parsing undoes rendering for every non-empty indent vector. */
  lemma ParseRender(widths: seq<nat>)
    requires |widths| >= 1
    ensures WellFormed(Render(widths))
    ensures ParseOutput(Render(widths)) == widths
  {
    var ds := seq(|widths|, i requires 0 <= i < |widths| => ShowNat(widths[i]));
    ParseTerminated(ds);
    forall i | 0 <= i < |widths|
      ensures ParseOutput(Render(widths))[i] == widths[i]
    {
      DecimalValueShowNat(widths[i]);
    }
  }

  /** The source's `int()` fails on empty output, so it cannot be read. */
  lemma EmptyOutputIsNotWellFormed()
    ensures !WellFormed("") && !WellFormed("\n")
  {
    assert Pieces("\n") == Split("", '\n');
  }
}
