/** textwrap.dedent, which shapes the header of every published message.
    It works line by line: a line of only spaces and tabs is emptied, the
    longest common run of leading spaces and tabs of the lines that have
    text is the margin, and the margin is cut from the start of every line
    that begins with it. */
module TextWrap {
  import opened Wrappers
  import opened Text

  predicate IsIndentChar(c: char) {
    c == ' ' || c == '\t'
  }

  /** A line the pattern ^[ \t]+$ matches. */
  predicate IsBlankLine(line: string) {
    |line| > 0 && forall i :: 0 <= i < |line| ==> IsIndentChar(line[i])
  }

  /** A line the pattern ^[ \t]*[^ \t\n] matches (lines hold no newline). */
  predicate HasText(line: string) {
    exists i :: 0 <= i < |line| && !IsIndentChar(line[i])
  }

  /** The leading run of spaces and tabs of a line. */
  function Indent(line: string): (ind: string)
    ensures ind <= line
    ensures forall i :: 0 <= i < |ind| ==> IsIndentChar(ind[i])
    ensures |ind| < |line| ==> !IsIndentChar(line[|ind|])
  {
    if line != [] && IsIndentChar(line[0]) then [line[0]] + Indent(line[1..]) else []
  }

  /** The longest common prefix of two strings. */
  function CommonPrefix(a: string, b: string): (p: string)
    ensures p <= a && p <= b
    ensures |p| < |a| && |p| < |b| ==> a[|p|] != b[|p|]
  {
    if a != [] && b != [] && a[0] == b[0] then [a[0]] + CommonPrefix(a[1..], b[1..]) else []
  }

  /** The margin dedent computes: None when no line has text, otherwise the
      longest common prefix of the indents of the lines with text. */
  function Margin(lines: seq<string>): Option<string> {
    if lines == [] then None
    else
      var m := Margin(lines[..|lines| - 1]);
      var line := lines[|lines| - 1];
      if !HasText(line) then m
      else if m.None? then Some(Indent(line))
      else Some(CommonPrefix(m.value, Indent(line)))
  }

  function ClearBlank(line: string): string {
    if IsBlankLine(line) then [] else line
  }

  function CutMargin(line: string, margin: string): string {
    if margin <= line then line[|margin|..] else line
  }

  /** Every blank line emptied. */
  function ClearAll(lines: seq<string>): (r: seq<string>)
    ensures |r| == |lines|
  {
    if lines == [] then [] else ClearAll(lines[..|lines| - 1]) + [ClearBlank(lines[|lines| - 1])]
  }

  /** The margin cut from every line that starts with it. */
  function CutAll(lines: seq<string>, margin: string): (r: seq<string>)
    ensures |r| == |lines|
  {
    if lines == [] then [] else CutAll(lines[..|lines| - 1], margin) + [CutMargin(lines[|lines| - 1], margin)]
  }

  lemma {:induction false} ClearAllAt(lines: seq<string>, i: int)
    requires 0 <= i < |lines|
    ensures ClearAll(lines)[i] == ClearBlank(lines[i])
  {
    var n := |lines| - 1;
    if i < n {
      ClearAllAt(lines[..n], i);
    }
  }

  lemma {:induction false} CutAllAt(lines: seq<string>, margin: string, i: int)
    requires 0 <= i < |lines|
    ensures CutAll(lines, margin)[i] == CutMargin(lines[i], margin)
  {
    var n := |lines| - 1;
    if i < n {
      CutAllAt(lines[..n], margin, i);
    }
  }

  function Dedent(text: string): string {
    var cleared := ClearAll(Split(text, '\n'));
    Join(CutAll(cleared, Margin(cleared).GetOr([])), '\n')
  }

  /** When every line with text has exactly the indent `ind`, and one line
      has text, the margin is `ind`. */
  lemma {:induction false} UniformMargin(lines: seq<string>, ind: string)
    requires forall i :: 0 <= i < |lines| && HasText(lines[i]) ==> Indent(lines[i]) == ind
    ensures Margin(lines) == if exists i :: 0 <= i < |lines| && HasText(lines[i]) then Some(ind) else None
  {
    if lines != [] {
      var n := |lines| - 1;
      UniformMargin(lines[..n], ind);
      assert forall i :: 0 <= i < n ==> lines[..n][i] == lines[i];
      CommonPrefixSelf(ind);
    }
  }

  lemma {:induction false} CommonPrefixSelf(a: string)
    ensures CommonPrefix(a, a) == a
  {
    if a != [] {
      CommonPrefixSelf(a[1..]);
    }
  }

  /** A line made of the indent `ind` and a text starting with a character
      other than space or tab has exactly that indent. */
  lemma {:induction false} IndentOf(ind: string, rest: string)
    requires forall i :: 0 <= i < |ind| ==> IsIndentChar(ind[i])
    requires rest != [] && !IsIndentChar(rest[0])
    ensures Indent(ind + rest) == ind
    ensures HasText(ind + rest)
  {
    assert (ind + rest)[|ind|] == rest[0];
    if ind != [] {
      assert (ind + rest)[1..] == ind[1..] + rest;
      IndentOf(ind[1..], rest);
    }
  }

  /** A line without newline that is either blank with an empty output, or
      `ind` followed by an output starting with a character other than
      space or tab. */
  predicate IndentedLine(line: string, ind: string, out: string) {
    && '\n' !in line
    && (((IsBlankLine(line) || line == []) && out == []) ||
        (out != [] && line == ind + out && !IsIndentChar(out[0])))
  }

  predicate IndentedLines(lines: seq<string>, ind: string, out: seq<string>) {
    && |out| == |lines|
    && (forall i :: 0 <= i < |ind| ==> IsIndentChar(ind[i]))
    && (forall i :: 0 <= i < |lines| ==> IndentedLine(lines[i], ind, out[i]))
  }

  lemma ClearedLines(lines: seq<string>, ind: string, out: seq<string>)
    requires IndentedLines(lines, ind, out)
    ensures forall i :: 0 <= i < |lines| && HasText(ClearAll(lines)[i]) ==> Indent(ClearAll(lines)[i]) == ind
    ensures forall i :: 0 <= i < |lines| ==> CutMargin(ClearAll(lines)[i], ind) == out[i]
    ensures forall i :: 0 <= i < |lines| && out[i] != [] ==> HasText(ClearAll(lines)[i])
  {
    var cleared := ClearAll(lines);
    forall i | 0 <= i < |lines|
      ensures HasText(cleared[i]) ==> Indent(cleared[i]) == ind
      ensures CutMargin(cleared[i], ind) == out[i]
      ensures out[i] != [] ==> HasText(cleared[i])
    {
      ClearAllAt(lines, i);
      if out[i] != [] {
        IndentOf(ind, out[i]);
        assert lines[i][|ind|] == out[i][0];
        assert !IsBlankLine(lines[i]);
        assert cleared[i] == lines[i];
        assert lines[i][|ind|..] == out[i];
      } else {
        assert cleared[i] == [];
        assert !HasText(cleared[i]);
      }
    }
  }

  /** dedent of lines that share the indent `ind`, one of them with text:
      the result is the lines with `ind` cut off and blank lines emptied. */
  lemma DedentLines(lines: seq<string>, ind: string, out: seq<string>, k: int)
    requires IndentedLines(lines, ind, out)
    requires 0 <= k < |lines| && out[k] != []
    ensures Dedent(Join(lines, '\n')) == Join(out, '\n')
  {
    SplitJoin(lines, '\n');
    ClearedLines(lines, ind, out);
    var cleared := ClearAll(lines);
    assert HasText(cleared[k]);
    UniformMargin(cleared, ind);
    assert Margin(cleared).GetOr([]) == ind;
    forall i | 0 <= i < |out| ensures CutAll(cleared, ind)[i] == out[i] {
      CutAllAt(cleared, ind, i);
    }
    assert CutAll(cleared, ind) == out;
    assert Split(Join(lines, '\n'), '\n') == lines;
  }
}
