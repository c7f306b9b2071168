/** Splitting the corpus file into lines the way `file.readlines()` does:
    every line keeps its terminating '\n', a blank line is the line "\n",
    and only the last line may lack the '\n'. */
module Corpus {
  import opened Text

  /** Length of the first line of non-empty text, its '\n' included. */
  function FirstLineLength(text: string): (k: nat)
    requires text != []
    ensures 0 < k <= |text|
    ensures text[k - 1] == '\n' || k == |text|
    ensures forall i :: 0 <= i < k - 1 ==> text[i] != '\n'
    decreases |text|
  {
    if text[0] == '\n' || |text| == 1 then 1
    else 1 + FirstLineLength(text[1..])
  }

  /** `readlines()` on the decoded contents of the file. */
  function ReadLines(text: string): seq<string>
    decreases |text|
  {
    if text == [] then []
    else
      var k := FirstLineLength(text);
      [text[..k]] + ReadLines(text[k..])
  }

  /** A line as `readlines()` returns it: not empty, with no line break
      except possibly one at its very end. */
  predicate IsLine(line: string)
  {
    line != [] && forall i :: 0 <= i < |line| - 1 ==> line[i] != '\n'
  }

  predicate EndsWithNewline(line: string)
  {
    line != [] && line[|line| - 1] == '\n'
  }

  /** Reading the lines loses nothing: their concatenation is the file. */
  lemma {:induction false} ReadLinesConcat(text: string)
    ensures Concat(ReadLines(text)) == text
    decreases |text|
  {
    if text != [] {
      var k := FirstLineLength(text);
      var rest := ReadLines(text[k..]);
      calc {
        Concat(ReadLines(text));
        { assert ReadLines(text) == [text[..k]] + rest; }
        Concat([text[..k]] + rest);
        { ConcatCons(text[..k], rest); }
        text[..k] + Concat(rest);
        { ReadLinesConcat(text[k..]); }
        text[..k] + text[k..];
      }
      assert text[..k] + text[k..] == text;
    }
  }

  /** Every line is a proper line, and every line but the last ends with '\n'. */
  lemma {:induction false} ReadLinesShape(text: string)
    ensures forall i :: 0 <= i < |ReadLines(text)| ==> IsLine(ReadLines(text)[i])
    ensures forall i :: 0 <= i < |ReadLines(text)| - 1 ==> EndsWithNewline(ReadLines(text)[i])
    decreases |text|
  {
    if text != [] {
      var k := FirstLineLength(text);
      ReadLinesShape(text[k..]);
      var lines := ReadLines(text);
      assert lines[1..] == ReadLines(text[k..]);
      assert IsLine(lines[0]);
      forall i | 0 <= i < |lines| ensures IsLine(lines[i]) {
        if i > 0 { assert lines[i] == lines[1..][i - 1]; }
      }
      forall i | 0 <= i < |lines| - 1 ensures EndsWithNewline(lines[i]) {
        if i > 0 {
          assert lines[i] == lines[1..][i - 1];
        } else {
          assert k < |text| by { assert text[k..] != []; }
        }
      }
    }
  }

  /** Text that follows a whole line has one more line break before it than
      the text after the line alone. */
  lemma BreaksAfterLine(line: string, after: string)
    requires IsLine(line) && EndsWithNewline(line)
    ensures multiset(line + after)['\n'] == 1 + multiset(after)['\n']
  {
    var body := line[..|line| - 1];
    assert line + after == body + ['\n'] + after;
    assert '\n' !in body;
  }

  /** A prefix that reaches past a cut is the part before the cut followed by
      a prefix of the part after it. */
  lemma PrefixPastCut(text: string, k: nat, i: nat)
    requires k <= i <= |text|
    ensures text[..i] == text[..k] + text[k..][..i - k]
  {
    assert forall m :: 0 <= m < i ==> text[..i][m] == (text[..k] + text[k..][..i - k])[m];
  }

  /** Text that starts with a line break has the blank line "\n" first. */
  lemma BlankFirstLine(text: string)
    requires text != [] && text[0] == '\n'
    ensures ReadLines(text) != [] && ReadLines(text)[0] == "\n"
  {
    assert FirstLineLength(text) == 1;
    assert text[..1] == "\n";
  }

  /** Past the first line, the lines of the text are those of the rest. */
  lemma LinesPastFirst(text: string, n: nat)
    requires text != [] && n < |ReadLines(text[FirstLineLength(text)..])|
    ensures n + 1 < |ReadLines(text)|
    ensures ReadLines(text)[n + 1] == ReadLines(text[FirstLineLength(text)..])[n]
  {
    var k := FirstLineLength(text);
    var lines := ReadLines(text);
    assert lines == [text[..k]] + ReadLines(text[k..]);
  }

  /** A blank line of the file -- a '\n' at the start of the text or right after
      another '\n' -- is returned as a line of its own, "\n", and its place in the
      result is the number of line breaks before it. */
  lemma {:induction false} BlankLineKept(text: string, i: nat)
    requires i < |text| && text[i] == '\n'
    requires i == 0 || text[i - 1] == '\n'
    ensures multiset(text[..i])['\n'] < |ReadLines(text)|
    ensures ReadLines(text)[multiset(text[..i])['\n']] == "\n"
    decreases |text|
  {
    var k := FirstLineLength(text);
    if i < k {
      // No '\n' comes before position k - 1, so the blank line is the first line.
      assert i == 0;
      assert text[..i] == [];
      BlankFirstLine(text);
    } else {
      var rest, j := text[k..], i - k;
      assert rest[j] == text[i];
      assert j == 0 || rest[j - 1] == text[i - 1];
      BlankLineKept(rest, j);
      assert IsLine(text[..k]) && EndsWithNewline(text[..k]);
      PrefixPastCut(text, k, i);
      BreaksAfterLine(text[..k], rest[..j]);
      LinesPastFirst(text, multiset(rest[..j])['\n']);
    }
  }
}
