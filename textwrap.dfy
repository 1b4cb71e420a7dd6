/**
  InfoCard.wrap_text: greedy word wrapping of a description for the card's
  text viewport. The rendered width of a string (font.size(s)[0]) is a
  parameter. The text is split at single spaces, as str.split(' ') does, and
  each line is stripped of surrounding whitespace, as str.strip() does.
*/
module TextWrap {

  /** The whitespace str.strip() removes. */
  predicate IsSpace(c: char) {
    c == ' ' || '\t' <= c <= '\r' || '\U{001C}' <= c <= '\U{001F}' || c == '\U{0085}' || c == '\U{00A0}' ||
    c == '\U{1680}' || '\U{2000}' <= c <= '\U{200A}' || c == '\U{2028}' || c == '\U{2029}' ||
    c == '\U{202F}' || c == '\U{205F}' || c == '\U{3000}'
  }

  /** str.lstrip(): whitespace removed from the front (see StripLeftSuffix). */
  function StripLeft(s: string): string {
    if |s| > 0 && IsSpace(s[0]) then StripLeft(s[1..]) else s
  }

  /** str.rstrip(): whitespace removed from the back (see StripRightPrefix). */
  function StripRight(s: string): string {
    if |s| > 0 && IsSpace(s[|s| - 1]) then StripRight(s[..|s| - 1]) else s
  }

  /** str.strip(): whitespace removed from both ends (see StripSlice). */
  function Strip(s: string): string {
    StripRight(StripLeft(s))
  }

  /** StripLeft keeps the suffix of s that starts at its first non-whitespace character. */
  lemma {:induction false} StripLeftSuffix(s: string)
    ensures var r := StripLeft(s);
      |r| <= |s| && r == s[|s| - |r|..] &&
      (|r| > 0 ==> !IsSpace(r[0])) &&
      (forall k :: 0 <= k < |s| - |r| ==> IsSpace(s[k]))
  {
    if |s| > 0 && IsSpace(s[0]) {
      StripLeftSuffix(s[1..]);
    }
  }

  /** StripRight keeps the prefix of s that ends at its last non-whitespace character. */
  lemma {:induction false} StripRightPrefix(s: string)
    ensures var r := StripRight(s);
      |r| <= |s| && r == s[..|r|] &&
      (|r| > 0 ==> !IsSpace(r[|r| - 1])) &&
      (forall k :: |r| <= k < |s| ==> IsSpace(s[k]))
  {
    if |s| > 0 && IsSpace(s[|s| - 1]) {
      StripRightPrefix(s[..|s| - 1]);
    }
  }

  /**
    Strip keeps the slice of s from its first to its last non-whitespace
    character: everything cut at either end is whitespace.
  */
  lemma StripSlice(s: string)
    ensures var r, i := Strip(s), |s| - |StripLeft(s)|;
      0 <= i && i + |r| <= |s| && r == s[i..i + |r|] &&
      (forall k :: 0 <= k < i ==> IsSpace(s[k])) &&
      (forall k :: i + |r| <= k < |s| ==> IsSpace(s[k]))
  {
    var l := StripLeft(s);
    StripLeftSuffix(s);
    StripRightPrefix(l);
    var r, i := StripRight(l), |s| - |l|;
    assert r == s[i..i + |r|];
    forall k | i + |r| <= k < |s|
      ensures IsSpace(s[k])
    {
      assert s[k] == l[k - i];
    }
  }

  /** What Strip leaves is empty or trimmed, and it is empty exactly when s is all whitespace. */
  lemma StripTrimmed(s: string)
    ensures var r := Strip(s);
      (r == "" || Trimmed(r)) &&
      (r == "" <==> forall k :: 0 <= k < |s| ==> IsSpace(s[k]))
  {
    var l := StripLeft(s);
    StripLeftSuffix(s);
    StripRightPrefix(l);
    StripSlice(s);
    var r := StripRight(l);
    if r != "" {
      assert !IsSpace(s[|s| - |l|]) by { assert s[|s| - |l|] == l[0] == r[0]; }
    }
  }

  /** str.split(' '): the pieces between single spaces, empty ones included. */
  function Split(s: string): (words: seq<string>)
    ensures |words| >= 1
    ensures forall k :: 0 <= k < |words| ==> ' ' !in words[k]
  {
    if |s| == 0 then [""]
    else
      var rest := Split(s[1..]);
      if s[0] == ' ' then [""] + rest
      else [[s[0]] + rest[0]] + rest[1..]
  }

  /** ' '.join(words). */
  function Join(words: seq<string>): string {
    if |words| == 0 then ""
    else if |words| == 1 then words[0]
    else words[0] + " " + Join(words[1..])
  }

  /** Joining the pieces of a split gives the text back. */
  lemma {:induction false} JoinSplit(s: string)
    ensures Join(Split(s)) == s
  {
    if |s| > 0 {
      var rest := Split(s[1..]);
      JoinSplit(s[1..]);
      if s[0] == ' ' {
        assert ([""] + rest)[1..] == rest;
        assert s == " " + s[1..];
      } else {
        var words := [[s[0]] + rest[0]] + rest[1..];
        if |rest| > 1 {
          assert words[1..] == rest[1..];
          assert Join(words) == [s[0]] + rest[0] + " " + Join(rest[1..]);
        }
        assert s == [s[0]] + s[1..];
      }
    }
  }

  lemma {:induction false} SplitWord(a: string)
    requires ' ' !in a
    ensures Split(a) == [a]
  {
    if |a| > 0 {
      assert ' ' !in a[1..];
      SplitWord(a[1..]);
      assert [a[0]] + a[1..] == a;
    }
  }

  lemma {:induction false} SplitAtSpace(a: string, t: string)
    requires ' ' !in a
    ensures Split(a + " " + t) == [a] + Split(t)
  {
    var s := a + " " + t;
    if |a| == 0 {
      assert s[1..] == t;
    } else {
      assert ' ' !in a[1..];
      SplitAtSpace(a[1..], t);
      assert s[1..] == a[1..] + " " + t;
      assert [a[0]] + a[1..] == a;
    }
  }

  /** Splitting a join of space-free words gives the words back. */
  lemma {:induction false} SplitJoin(g: seq<string>)
    requires |g| >= 1
    requires forall k :: 0 <= k < |g| ==> ' ' !in g[k]
    ensures Split(Join(g)) == g
  {
    if |g| == 1 {
      SplitWord(g[0]);
    } else {
      SplitJoin(g[1..]);
      SplitAtSpace(g[0], Join(g[1..]));
      assert [g[0]] + g[1..] == g;
    }
  }

  lemma {:induction false} JoinAppend(ws: seq<string>, x: string)
    requires |ws| >= 1
    ensures Join(ws + [x]) == Join(ws) + " " + x
  {
    if |ws| > 1 {
      assert (ws + [x])[1..] == ws[1..] + [x];
      JoinAppend(ws[1..], x);
    }
  }

  lemma {:induction false} JoinConcat(a: seq<string>, b: seq<string>)
    requires |a| >= 1 && |b| >= 1
    ensures Join(a + b) == Join(a) + " " + Join(b)
  {
    if |a| == 1 {
      assert (a + b)[1..] == b;
    } else {
      assert (a + b)[1..] == a[1..] + b;
      JoinConcat(a[1..], b);
    }
  }

  /** A word the wrapper can reassemble: not empty, no whitespace in it. */
  predicate CleanWord(w: string) {
    |w| > 0 && forall c :: c in w ==> !IsSpace(c)
  }

  /** Not empty and without whitespace at either end. */
  predicate Trimmed(s: string) {
    |s| > 0 && !IsSpace(s[0]) && !IsSpace(s[|s| - 1])
  }

  lemma {:induction false} JoinTrimmed(g: seq<string>)
    requires |g| >= 1
    requires forall k :: 0 <= k < |g| ==> CleanWord(g[k])
    ensures Trimmed(Join(g))
  {
    if |g| == 1 {
      assert g[0][0] in g[0];
      assert g[0][|g[0]| - 1] in g[0];
    } else {
      JoinTrimmed(g[1..]);
      assert g[0][0] in g[0];
      var j := Join(g[1..]);
      assert Join(g) == g[0] + " " + j;
    }
  }

  lemma StripTrailingSpace(s: string)
    requires Trimmed(s)
    ensures Strip(s + " ") == s
  {
    var t := s + " ";
    assert StripLeft(t) == t;
    assert t[..|t| - 1] == s;
    assert StripRight(t) == StripRight(s) == s;
  }

  /** The lines that are not empty, in order. */
  function NonEmpty(lines: seq<string>): seq<string> {
    if |lines| == 0 then []
    else NonEmpty(lines[..|lines| - 1]) + (if lines[|lines| - 1] == "" then [] else [lines[|lines| - 1]])
  }

  lemma NonEmptyAppend(lines: seq<string>, x: string)
    ensures NonEmpty(lines + [x]) == NonEmpty(lines) + (if x == "" then [] else [x])
  {
    assert (lines + [x])[..|lines|] == lines;
  }

  /** What a line contributes to the candidate of the next word: itself and a space, or nothing if empty. */
  function WithSpace(line: string): string {
    if line == "" then "" else line + " "
  }

  ghost predicate AllClean(words: seq<string>) {
    forall k :: 0 <= k < |words| ==> CleanWord(words[k])
  }

  /**
    The state of wrap_text's loop after the first i words: current holds the
    words from start on (each followed by a space), the lines closed so far
    hold the words before start. For text that is not made of clean words
    only the shape is kept track of.
  */
  ghost predicate WrapInv(words: seq<string>, width: string -> int, maxWidth: int,
                          i: nat, start: nat, current: string, lines: seq<string>)
  {
    && start <= i <= |words| && (i > 0 ==> start < i)
    && (i == 0 ==> current == "" && lines == [])
    && (AllClean(words) ==>
      && GroupInv(words, width, maxWidth, i, start, current)
      && JoinInv(words, start, lines)
      && FirstLineInv(words, width, maxWidth, i, lines)
      && FitInv(width, maxWidth, lines)
      && GreedyInv(words, width, maxWidth, i, start, lines))
  }

  /** current is the group of words from start, and either one word or measured to fit. */
  ghost predicate GroupInv(words: seq<string>, width: string -> int, maxWidth: int,
                           i: nat, start: nat, current: string)
    requires start <= i <= |words|
  {
    i > 0 ==> current == Join(words[start..i]) + " " && (start == i - 1 || width(current) < maxWidth)
  }

  /** The closed non-empty lines join to the words before start; only the first line may be empty. */
  ghost predicate JoinInv(words: seq<string>, start: nat, lines: seq<string>)
    requires start <= |words|
  {
    && (start == 0 ==> NonEmpty(lines) == [])
    && (start > 0 ==> Join(NonEmpty(lines)) == Join(words[..start]))
    && (forall k :: 0 < k < |lines| ==> lines[k] != "")
  }

  ghost predicate FirstLineInv(words: seq<string>, width: string -> int, maxWidth: int, i: nat, lines: seq<string>)
  {
    0 < i <= |words| ==> (width(words[0] + " ") >= maxWidth <==> |lines| > 0 && lines[0] == "")
  }

  ghost predicate FitInv(width: string -> int, maxWidth: int, lines: seq<string>) {
    forall k :: 0 <= k < |lines| ==> ' ' !in lines[k] || width(lines[k] + " ") < maxWidth
  }

  ghost predicate GreedyInv(words: seq<string>, width: string -> int, maxWidth: int,
                            i: nat, start: nat, lines: seq<string>)
  {
    && (forall k :: 0 <= k < |lines| - 1 ==>
          width(WithSpace(lines[k]) + Split(lines[k + 1])[0] + " ") >= maxWidth)
    && (i > 0 && |lines| > 0 && start < |words| ==>
          width(WithSpace(lines[|lines| - 1]) + words[start] + " ") >= maxWidth)
  }

  /** The next word fits: it joins the current line. */
  lemma StepFits(words: seq<string>, width: string -> int, maxWidth: int,
                 i: nat, start: nat, current: string, lines: seq<string>)
    requires WrapInv(words, width, maxWidth, i, start, current, lines) && i < |words|
    requires width(current + words[i] + " ") < maxWidth
    ensures WrapInv(words, width, maxWidth, i + 1, start, current + words[i] + " ", lines)
  {
    if AllClean(words) {
      if i == 0 {
        assert current + words[i] + " " == words[0] + " ";
        assert words[0..1] == [words[0]];
      } else {
        JoinAppend(words[start..i], words[i]);
        assert words[start..i + 1] == words[start..i] + [words[i]];
      }
    }
  }

  /** The next word does not fit: the current line is closed and the word starts a new one. */
  lemma StepBreaks(words: seq<string>, width: string -> int, maxWidth: int,
                   i: nat, start: nat, current: string, lines: seq<string>)
    requires WrapInv(words, width, maxWidth, i, start, current, lines) && i < |words|
    requires width(current + words[i] + " ") >= maxWidth
    ensures WrapInv(words, width, maxWidth, i + 1, i, words[i] + " ", lines + [Strip(current)])
  {
    if AllClean(words) {
      assert words[i..i + 1] == [words[i]];
      if i == 0 {
        FirstBreak(words, width, maxWidth, current, lines);
      } else {
        LaterBreak(words, width, maxWidth, i, start, current, lines);
      }
    }
  }

  lemma FirstBreak(words: seq<string>, width: string -> int, maxWidth: int,
                   current: string, lines: seq<string>)
    requires AllClean(words) && |words| > 0
    requires current == "" && lines == []
    requires width(current + words[0] + " ") >= maxWidth
    ensures JoinInv(words, 0, lines + [Strip(current)])
    ensures FirstLineInv(words, width, maxWidth, 1, lines + [Strip(current)])
    ensures FitInv(width, maxWidth, lines + [Strip(current)])
    ensures GreedyInv(words, width, maxWidth, 1, 0, lines + [Strip(current)])
  {
    assert Strip(current) == "";
    assert current + words[0] + " " == words[0] + " ";
    NonEmptyAppend(lines, "");
  }

  lemma LaterBreak(words: seq<string>, width: string -> int, maxWidth: int,
                   i: nat, start: nat, current: string, lines: seq<string>)
    requires WrapInv(words, width, maxWidth, i, start, current, lines)
    requires AllClean(words) && 0 < i < |words|
    requires width(current + words[i] + " ") >= maxWidth
    ensures JoinInv(words, i, lines + [Strip(current)])
    ensures FirstLineInv(words, width, maxWidth, i + 1, lines + [Strip(current)])
    ensures FitInv(width, maxWidth, lines + [Strip(current)])
    ensures GreedyInv(words, width, maxWidth, i + 1, i, lines + [Strip(current)])
  {
    var line := Join(words[start..i]);
    assert current == line + " ";
    PushGroup(words, start, i, lines);
    AppendKeepsNonEmpty(lines, line);
    AppendKeepsFit(width, maxWidth, lines, line);
    AppendKeepsGreedy(width, maxWidth, lines, line);
  }

  /** After the last word: the current line is closed and the result has the promised shape. */
  lemma Finish(text: string, width: string -> int, maxWidth: int,
               start: nat, current: string, lines: seq<string>)
    requires WrapInv(Split(text), width, maxWidth, |Split(text)|, start, current, lines)
    ensures var result := lines + [Strip(current)];
      && (AllClean(Split(text)) ==> forall k :: 0 < k < |result| ==> result[k] != "")
      && (AllClean(Split(text)) ==> (result[0] == "" <==> width(Split(text)[0] + " ") >= maxWidth))
      && (AllClean(Split(text)) ==> Join(NonEmpty(result)) == text)
      && (AllClean(Split(text)) ==> FitInv(width, maxWidth, result))
      && (AllClean(Split(text)) ==>
            forall k :: 0 <= k < |result| - 1 ==>
              width(WithSpace(result[k]) + Split(result[k + 1])[0] + " ") >= maxWidth)
  {
    var words := Split(text);
    if AllClean(words) {
      FinishClean(words, width, maxWidth, start, current, lines);
      FinishFits(words, width, maxWidth, start, current, lines);
      JoinSplit(text);
    }
  }

  /** Finish for clean words: closing the last group gives the whole text back, only the first line possibly empty. */
  lemma FinishClean(words: seq<string>, width: string -> int, maxWidth: int,
                    start: nat, current: string, lines: seq<string>)
    requires WrapInv(words, width, maxWidth, |words|, start, current, lines) && AllClean(words) && |words| > 0
    ensures var result := lines + [Strip(current)];
      && (forall k :: 0 < k < |result| ==> result[k] != "")
      && (result[0] == "" <==> width(words[0] + " ") >= maxWidth)
      && Join(NonEmpty(result)) == Join(words)
  {
    var line := Join(words[start..|words|]);
    assert current == line + " ";
    PushGroup(words, start, |words|, lines);
    assert words[..|words|] == words;
    AppendKeepsNonEmpty(lines, line);
  }

  /** Finish for clean words: the last line fits, and no line could have taken the next one's first word. */
  lemma FinishFits(words: seq<string>, width: string -> int, maxWidth: int,
                   start: nat, current: string, lines: seq<string>)
    requires WrapInv(words, width, maxWidth, |words|, start, current, lines) && AllClean(words) && |words| > 0
    ensures var result := lines + [Strip(current)];
      && FitInv(width, maxWidth, result)
      && (forall k :: 0 <= k < |result| - 1 ==>
            width(WithSpace(result[k]) + Split(result[k + 1])[0] + " ") >= maxWidth)
  {
    var line := Join(words[start..|words|]);
    assert current == line + " ";
    PushGroup(words, start, |words|, lines);
    AppendKeepsFit(width, maxWidth, lines, line);
    AppendKeepsGreedy(width, maxWidth, lines, line);
  }

  lemma AppendKeepsNonEmpty(lines: seq<string>, line: string)
    requires forall k :: 0 < k < |lines| ==> lines[k] != ""
    requires line != ""
    ensures forall k :: 0 < k < |lines + [line]| ==> (lines + [line])[k] != ""
    ensures (lines + [line])[0] == "" <==> |lines| > 0 && lines[0] == ""
  {
  }

  lemma AppendKeepsFit(width: string -> int, maxWidth: int, lines: seq<string>, line: string)
    requires FitInv(width, maxWidth, lines)
    requires ' ' !in line || width(line + " ") < maxWidth
    ensures FitInv(width, maxWidth, lines + [line])
  {
    assert forall k :: 0 <= k < |lines| ==> (lines + [line])[k] == lines[k];
  }

  lemma AppendKeepsGreedy(width: string -> int, maxWidth: int, lines: seq<string>, line: string)
    requires forall k :: 0 <= k < |lines| - 1 ==>
      width(WithSpace(lines[k]) + Split(lines[k + 1])[0] + " ") >= maxWidth
    requires |lines| > 0 ==> width(WithSpace(lines[|lines| - 1]) + Split(line)[0] + " ") >= maxWidth
    ensures forall k :: 0 <= k < |lines + [line]| - 1 ==>
      width(WithSpace((lines + [line])[k]) + Split((lines + [line])[k + 1])[0] + " ") >= maxWidth
  {
    var result := lines + [line];
    forall k | 0 <= k < |result| - 1
      ensures width(WithSpace(result[k]) + Split(result[k + 1])[0] + " ") >= maxWidth
    {
      assert result[k] == lines[k];
      if k < |lines| - 1 {
        assert result[k + 1] == lines[k + 1];
      } else {
        assert result[k + 1] == line;
      }
    }
  }

  /**
    wrap_text. For any text at least one line comes out. When the text is
    words separated by single spaces (no other whitespace): only the first
    line can be empty, and it is exactly when the first word alone does not
    fit; the non-empty lines joined by spaces give the text back; every line
    is a single word or was measured to fit; and no line could have taken the
    first word of the next one.
  */
  method WrapText(text: string, width: string -> int, maxWidth: int) returns (lines: seq<string>)
    ensures |lines| >= 1
    ensures AllClean(Split(text)) ==> forall k :: 0 < k < |lines| ==> lines[k] != ""
    ensures AllClean(Split(text)) ==>
      (lines[0] == "" <==> width(Split(text)[0] + " ") >= maxWidth)
    ensures AllClean(Split(text)) ==> Join(NonEmpty(lines)) == text
    ensures AllClean(Split(text)) ==>
      forall k :: 0 <= k < |lines| ==> ' ' !in lines[k] || width(lines[k] + " ") < maxWidth
    ensures AllClean(Split(text)) ==>
      forall k :: 0 <= k < |lines| - 1 ==>
        width(WithSpace(lines[k]) + Split(lines[k + 1])[0] + " ") >= maxWidth
  {
    var words := Split(text);
    ghost var start := 0;
    lines := [];
    var current := "";
    for i := 0 to |words|
      invariant WrapInv(words, width, maxWidth, i, start, current, lines)
    {
      var word := words[i];
      var testLine := current + word + " ";
      if width(testLine) < maxWidth {
        StepFits(words, width, maxWidth, i, start, current, lines);
        current := testLine;
      } else {
        StepBreaks(words, width, maxWidth, i, start, current, lines);
        lines := lines + [Strip(current)];
        current := word + " ";
        start := i;
      }
    }
    Finish(text, width, maxWidth, start, current, lines);
    lines := lines + [Strip(current)];
  }

  /** What closing the group words[start..i] as a line does to the join of the non-empty lines. */
  lemma PushGroup(words: seq<string>, start: nat, i: nat, lines: seq<string>)
    requires start < i <= |words| && AllClean(words)
    requires start == 0 ==> NonEmpty(lines) == []
    requires start > 0 ==> Join(NonEmpty(lines)) == Join(words[..start])
    ensures var line := Join(words[start..i]);
      && Strip(line + " ") == line && line != ""
      && WithSpace(line) == line + " "
      && Split(line)[0] == words[start]
      && (i == start + 1 ==> ' ' !in line)
      && Join(NonEmpty(lines + [line])) == Join(words[..i])
  {
    var g := words[start..i];
    var line := Join(g);
    JoinTrimmed(g);
    StripTrailingSpace(line);
    forall k | 0 <= k < |g| ensures ' ' !in g[k] {
      assert CleanWord(g[k]);
    }
    SplitJoin(g);
    NonEmptyAppend(lines, line);
    if start == 0 {
      assert words[..i] == g;
    } else {
      JoinAppend(NonEmpty(lines), line);
      JoinConcat(words[..start], g);
      assert words[..start] + g == words[..i];
    }
  }
}
