/** `AttributionTracker.countWords`: the number of white-space separated words of a text,
    computed as the source does (trim, then split at runs of white space) and proved equal
    to a word counter that scans the text once. */
module Words {

  /** The characters matched by JavaScript's `\s` and removed by `String.prototype.trim`
      (WhiteSpace and LineTerminator of ECMAScript). */
  predicate IsWhitespace(c: char)
  {
    || c == ' ' || c == '\t' || c == '\n' || c == '\U{000B}' || c == '\U{000C}' || c == '\r'
    || c == '\U{00A0}' || c == '\U{1680}' || ('\U{2000}' <= c <= '\U{200A}')
    || c == '\U{2028}' || c == '\U{2029}' || c == '\U{202F}' || c == '\U{205F}'
    || c == '\U{3000}' || c == '\U{FEFF}'
  }

  predicate AllWhitespace(s: string)
  {
    forall i :: 0 <= i < |s| ==> IsWhitespace(s[i])
  }

  predicate NoWhitespace(s: string)
  {
    forall i :: 0 <= i < |s| ==> !IsWhitespace(s[i])
  }

  /** Length of the longest prefix of `s` made of white space. */
  function LeadingWhitespace(s: string): (n: nat)
    ensures n <= |s|
  {
    if s == [] || !IsWhitespace(s[0]) then 0 else 1 + LeadingWhitespace(s[1..])
  }

  lemma {:induction false} LeadingWhitespaceSpec(s: string)
    ensures AllWhitespace(s[..LeadingWhitespace(s)])
    ensures LeadingWhitespace(s) < |s| ==> !IsWhitespace(s[LeadingWhitespace(s)])
  {
    if s != [] && IsWhitespace(s[0]) {
      LeadingWhitespaceSpec(s[1..]);
      var n := LeadingWhitespace(s);
      assert s[..n] == [s[0]] + s[1..][..n - 1];
      assert n < |s| ==> s[n] == s[1..][n - 1];
    }
  }

  /** Length of the longest prefix of `s` without white space. */
  function LeadingWord(s: string): (n: nat)
    ensures n <= |s|
  {
    if s == [] || IsWhitespace(s[0]) then 0 else 1 + LeadingWord(s[1..])
  }

  lemma {:induction false} LeadingWordSpec(s: string)
    ensures NoWhitespace(s[..LeadingWord(s)])
    ensures LeadingWord(s) < |s| ==> IsWhitespace(s[LeadingWord(s)])
  {
    if s != [] && !IsWhitespace(s[0]) {
      LeadingWordSpec(s[1..]);
      var n := LeadingWord(s);
      assert s[..n] == [s[0]] + s[1..][..n - 1];
      assert n < |s| ==> s[n] == s[1..][n - 1];
    }
  }

  /** Length of the longest suffix of `s` made of white space. */
  function TrailingWhitespace(s: string): (n: nat)
    ensures n <= |s|
  {
    if s == [] || !IsWhitespace(s[|s| - 1]) then 0 else 1 + TrailingWhitespace(s[..|s| - 1])
  }

  lemma {:induction false} TrailingWhitespaceSpec(s: string)
    ensures AllWhitespace(s[|s| - TrailingWhitespace(s)..])
    ensures TrailingWhitespace(s) < |s| ==> !IsWhitespace(s[|s| - 1 - TrailingWhitespace(s)])
  {
    if s != [] && IsWhitespace(s[|s| - 1]) {
      var u := s[..|s| - 1];
      TrailingWhitespaceSpec(u);
      var n := TrailingWhitespace(s);
      assert s[|s| - n..] == u[|u| - (n - 1)..] + [s[|s| - 1]];
      assert n < |s| ==> s[|s| - 1 - n] == u[|u| - 1 - (n - 1)];
    }
  }

  /** `String.prototype.trim`. */
  function Trim(s: string): (t: string)
    ensures t == [] || (!IsWhitespace(t[0]) && !IsWhitespace(t[|t| - 1]))
  {
    var i := LeadingWhitespace(s);
    if i == |s| then []
    else
      LeadingWhitespaceSpec(s);
      TrailingWhitespaceSpec(s);
      var j := |s| - TrailingWhitespace(s);
      assert i < j;
      assert s[i..j][0] == s[i] && s[i..j][j - i - 1] == s[j - 1];
      s[i..j]
  }

  /** `s.split(/\s+/)`: the pieces of `s` between maximal runs of white space (a leading
      or trailing run yields an empty first or last piece, and `""` yields `[""]`). */
  function SplitAtWhitespace(s: string): (pieces: seq<string>)
    ensures |pieces| >= 1
    ensures forall i :: 0 <= i < |pieces| ==> NoWhitespace(pieces[i])
    decreases |s|
  {
    var n := LeadingWord(s);
    LeadingWordSpec(s);
    if n == |s| then
      assert s[..n] == s;
      [s]
    else
      var m := n + LeadingWhitespace(s[n..]);
      [s[..n]] + SplitAtWhitespace(s[m..])
  }

  /** `countWords(text)`: 0 for an empty or blank text, otherwise the number of pieces of
      the trimmed text split at white space. That is the number of maximal non-blank runs
      of the text. */
  function CountWords(text: string): (n: nat)
    ensures n == WordRuns(text)
  {
    var t := Trim(text);
    TrimKeepsRuns(text);
    if text == "" || t == "" then 0
    else
      SplitCountsRuns(t);
      |SplitAtWhitespace(t)|
  }

  /** Reference word counter: one scan with a flag saying whether the previous character
      belonged to a word; every non-blank character that follows a blank (or the start)
      begins a word. */
  function RunsFrom(s: string, inWord: bool): nat
  {
    if s == [] then 0
    else if IsWhitespace(s[0]) then RunsFrom(s[1..], false)
    else (if inWord then 0 else 1) + RunsFrom(s[1..], true)
  }

  /** The number of maximal runs of non-white-space characters in `s`. */
  function WordRuns(s: string): nat
  {
    RunsFrom(s, false)
  }

  lemma {:induction false} RunsOfBlank(w: string, b: bool)
    requires AllWhitespace(w)
    ensures RunsFrom(w, b) == 0
  {
    if w != [] {
      RunsOfBlank(w[1..], false);
    }
  }

  /** A blank run in front of `s` ends any word in progress and adds none. */
  lemma {:induction false} RunsAfterBlank(w: string, s: string, b: bool)
    requires AllWhitespace(w) && w != []
    ensures RunsFrom(w + s, b) == RunsFrom(s, false)
  {
    assert (w + s)[1..] == w[1..] + s;
    if |w| > 1 {
      RunsAfterBlank(w[1..], s, false);
    }
  }

  /** A non-empty word in front of `s` counts once unless a word was already in progress. */
  lemma {:induction false} RunsAfterWord(w: string, s: string, b: bool)
    requires w != [] && NoWhitespace(w)
    ensures RunsFrom(w + s, b) == (if b then 0 else 1) + RunsFrom(s, true)
  {
    assert (w + s)[1..] == w[1..] + s;
    if |w| > 1 {
      RunsAfterWord(w[1..], s, true);
    }
  }

  /** Trailing white space adds no word. */
  lemma {:induction false} RunsBeforeBlank(s: string, w: string, b: bool)
    requires AllWhitespace(w)
    ensures RunsFrom(s + w, b) == RunsFrom(s, b)
  {
    if s == [] {
      assert s + w == w;
      RunsOfBlank(w, b);
    } else {
      assert (s + w)[1..] == s[1..] + w;
      RunsBeforeBlank(s[1..], w, !IsWhitespace(s[0]));
    }
  }

  /** A word, then a blank run, then the rest: the word counts once. */
  lemma WordBlankRuns(word: string, blank: string, tail: string)
    requires word != [] && NoWhitespace(word) && blank != [] && AllWhitespace(blank)
    ensures WordRuns(word + (blank + tail)) == 1 + WordRuns(tail)
  {
    RunsAfterWord(word, blank + tail, false);
    RunsAfterBlank(blank, tail, true);
  }

  /** The first cut `split(/\s+/)` makes in a text that starts and ends with a word but
      holds white space: a word `s[..n]`, a blank run `s[n..m]`, and the rest from `m`,
      which again starts and ends with a word; the word counts once. */
  lemma FirstCut(s: string, n: nat, m: nat)
    requires s != [] && !IsWhitespace(s[0]) && !IsWhitespace(s[|s| - 1])
    requires n == LeadingWord(s) < |s| && m == n + LeadingWhitespace(s[n..])
    ensures m < |s| && !IsWhitespace(s[m..][0]) && !IsWhitespace(s[m..][|s[m..]| - 1])
    ensures WordRuns(s) == 1 + WordRuns(s[m..])
  {
    LeadingWordSpec(s);
    var rest := s[n..];
    var k := LeadingWhitespace(rest);
    LeadingWhitespaceSpec(rest);
    assert m < |s| by {
      assert rest[|s| - 1 - n] == s[|s| - 1];
    }
    var tail := s[m..];
    assert tail[0] == rest[k] && tail[|tail| - 1] == s[|s| - 1];
    assert s == s[..n] + (rest[..k] + tail);
    WordBlankRuns(s[..n], rest[..k], tail);
  }

  /** On a text that starts and ends with a word, splitting at white space yields one
      piece per word. */
  lemma {:induction false} SplitCountsRuns(s: string)
    requires s != [] && !IsWhitespace(s[0]) && !IsWhitespace(s[|s| - 1])
    ensures |SplitAtWhitespace(s)| == WordRuns(s)
    decreases |s|
  {
    var n := LeadingWord(s);
    if n == |s| {
      LeadingWordSpec(s);
      assert s == s + [] && s[..|s|] == s;
      RunsAfterWord(s, [], false);
    } else {
      var m := n + LeadingWhitespace(s[n..]);
      FirstCut(s, n, m);
      assert |SplitAtWhitespace(s)| == 1 + |SplitAtWhitespace(s[m..])|;
      SplitCountsRuns(s[m..]);
    }
  }

  /** What `trim` removes is white space in front and white space behind. */
  lemma TrimParts(s: string) returns (front: string, back: string)
    ensures s == front + (Trim(s) + back)
    ensures AllWhitespace(front) && AllWhitespace(back)
  {
    var i := LeadingWhitespace(s);
    LeadingWhitespaceSpec(s);
    if i == |s| {
      front, back := s[..i], [];
      assert s == front;
    } else {
      TrailingWhitespaceSpec(s);
      var j := |s| - TrailingWhitespace(s);
      front, back := s[..i], s[j..];
      assert s == front + (s[i..j] + back);
    }
  }

  /** Trimming does not change the number of words. */
  lemma TrimKeepsRuns(s: string)
    ensures WordRuns(Trim(s)) == WordRuns(s)
  {
    var t := Trim(s);
    var front, back := TrimParts(s);
    if front != [] {
      RunsAfterBlank(front, t + back, false);
    } else {
      assert s == t + back;
    }
    RunsBeforeBlank(t, back, false);
  }

  /** A text has no words exactly when it is empty or all white space. */
  lemma {:induction false} NoRunsIffBlank(s: string)
    ensures WordRuns(s) == 0 <==> AllWhitespace(s)
  {
    if AllWhitespace(s) {
      RunsOfBlank(s, false);
    } else {
      var k := LeadingWhitespace(s);
      LeadingWhitespaceSpec(s);
      assert s[..|s|] == s;
      assert k < |s|;
      assert s == s[..k] + s[k..];
      assert s[k..] == [s[k]] + s[k + 1..];
      RunsAfterWord([s[k]], s[k + 1..], false);
      if k > 0 {
        RunsAfterBlank(s[..k], s[k..], false);
      }
    }
  }

  /** `countWords` is 0 exactly for the empty and the blank texts. */
  lemma CountWordsZeroIffBlank(text: string)
    ensures CountWords(text) == 0 <==> AllWhitespace(text)
  {
    NoRunsIffBlank(text);
  }

  /** The empty text and a text of two spaces have no words. */
  lemma CountWordsBlankExamples()
    ensures CountWords("") == 0
    ensures CountWords("  ") == 0
  {
    CountWordsZeroIffBlank("  ");
  }

  /** `"a b  c"` has three words: the double space separates like a single one. */
  lemma CountWordsExample()
    ensures CountWords("a b  c") == 3
  {
    var s := "a b  c";
    assert s[5..] == "c" && RunsFrom(s[5..], false) == 1;
    assert s[4..] == " c" && RunsFrom(s[4..], false) == 1;
    assert s[3..] == "  c" && RunsFrom(s[3..], true) == 1;
    assert s[2..] == "b  c" && RunsFrom(s[2..], false) == 2;
    assert s[1..] == " b  c" && RunsFrom(s[1..], true) == 2;
  }
}
