/** The pieces of Python 2 string handling that the annotation text files rely on:
    str.split() with no separator, ' '.join, file.readlines(), str(int) and int(str).
    Each is stated once here, with the facts the file formats need about it. */
module TextFormat {
  import opened Wrappers

  /** The six characters Python 2 str.split() treats as whitespace in a byte string. */
  predicate IsSpace(c: char) {
    c == ' ' || c == '\t' || c == '\n' || c == '\r' || c == '\U{000B}' || c == '\U{000C}'
  }

  /** A token as str.split() produces it: non-empty, without whitespace. */
  predicate IsWord(s: string) {
    |s| > 0 && forall i :: 0 <= i < |s| ==> !IsSpace(s[i])
  }

  /** Length of the leading run of non-whitespace characters. */
  function WordLen(s: string): (n: nat)
    ensures n <= |s|
    ensures forall i :: 0 <= i < n ==> !IsSpace(s[i])
    ensures n < |s| ==> IsSpace(s[n])
  {
    if s == [] || IsSpace(s[0]) then 0 else 1 + WordLen(s[1..])
  }

  /** WordLen is the index of the first whitespace character, or the length. */
  lemma {:induction false} WordLenIs(s: string, k: nat)
    requires k <= |s|
    requires forall i :: 0 <= i < k ==> !IsSpace(s[i])
    requires k < |s| ==> IsSpace(s[k])
    ensures WordLen(s) == k
  {
    if k > 0 {
      WordLenIs(s[1..], k - 1);
    }
  }

  /** str.split(): the maximal runs of non-whitespace characters, in order. */
  function Split(s: string): (tokens: seq<string>)
    ensures forall t :: t in tokens ==> IsWord(t)
    decreases |s|
  {
    if s == [] then []
    else if IsSpace(s[0]) then Split(s[1..])
    else
      var n := WordLen(s);
      [s[..n]] + Split(s[n..])
  }

  /** ' '.join(tokens) */
  function Join(tokens: seq<string>): string {
    if |tokens| == 0 then ""
    else if |tokens| == 1 then tokens[0]
    else tokens[0] + " " + Join(tokens[1..])
  }

  lemma SplitWord(w: string)
    requires IsWord(w)
    ensures Split(w) == [w]
  {
    WordLenIs(w, |w|);
    assert w[..|w|] == w && w[|w|..] == [];
    assert Split(w[|w|..]) == [];
  }

  /** A word followed by a space splits off as the first token. */
  lemma SplitWordThenSpace(w: string, rest: string)
    requires IsWord(w)
    ensures Split(w + " " + rest) == [w] + Split(rest)
  {
    var s := w + " " + rest;
    var n := WordLen(s);
    assert s[|w|] == ' ';
    WordLenIs(s, |w|);
    assert s[..n] == w;
    assert s[n..][1..] == rest;
  }

  /** Dropping the line terminator before splitting changes nothing, since '\n' is whitespace. */
  lemma {:induction false} SplitIgnoresNewline(l: string)
    ensures Split(l + "\n") == Split(l)
    decreases |l|
  {
    var s := l + "\n";
    if l == [] {
      assert s[1..] == [];
    } else if IsSpace(l[0]) {
      assert s[1..] == l[1..] + "\n";
      SplitIgnoresNewline(l[1..]);
    } else {
      var n := WordLen(l);
      assert s[n] == if n < |l| then l[n] else '\n';
      WordLenIs(s, n);
      assert s[..n] == l[..n];
      assert s[n..] == l[n..] + "\n";
      SplitIgnoresNewline(l[n..]);
    }
  }

  /** A label that str.split() followed by ' '.join gives back unchanged:
      words separated by single spaces, with no other whitespace. */
  predicate IsLabel(t: string) {
    && |t| > 0
    && !IsSpace(t[0])
    && !IsSpace(t[|t| - 1])
    && (forall i :: 0 <= i < |t| && IsSpace(t[i]) ==> t[i] == ' ')
    && (forall i :: 0 <= i < |t| - 1 && IsSpace(t[i]) ==> !IsSpace(t[i + 1]))
  }

  lemma {:induction false} LabelSplitJoin(t: string)
    requires IsLabel(t)
    ensures Split(t) != [] && Join(Split(t)) == t
    decreases |t|
  {
    var n := WordLen(t);
    if n == |t| {
      SplitWord(t);
    } else {
      var w, rest := t[..n], t[n + 1..];
      assert t[n] == ' ';
      assert n < |t| - 1;
      assert t == w + " " + rest;
      assert IsWord(w);
      assert IsLabel(rest) by {
        assert rest[0] == t[n + 1];
        assert rest[|rest| - 1] == t[|t| - 1];
        forall i | 0 <= i < |rest| && IsSpace(rest[i])
          ensures rest[i] == ' '
        {
          assert rest[i] == t[n + 1 + i];
        }
        forall i | 0 <= i < |rest| - 1 && IsSpace(rest[i])
          ensures !IsSpace(rest[i + 1])
        {
          assert rest[i] == t[n + 1 + i] && rest[i + 1] == t[n + 1 + i + 1];
        }
      }
      SplitWordThenSpace(w, rest);
      LabelSplitJoin(rest);
      assert ([w] + Split(rest))[1..] == Split(rest);
    }
  }

  /** The other direction: joining words gives a label that splits back into the same words,
      so text that has been through one load is saved and loaded again unchanged. */
  lemma {:induction false} JoinWordsSplit(ws: seq<string>)
    requires ws != []
    requires forall k :: 0 <= k < |ws| ==> IsWord(ws[k])
    ensures IsLabel(Join(ws)) && Split(Join(ws)) == ws
  {
    if |ws| == 1 {
      SplitWord(ws[0]);
    } else {
      var w, rest := ws[0], Join(ws[1..]);
      JoinWordsSplit(ws[1..]);
      SplitWordThenSpace(w, rest);
      var t := w + " " + rest;
      assert Join(ws) == t;
      assert ws == [w] + ws[1..];
      forall i | 0 <= i < |t| && IsSpace(t[i])
        ensures t[i] == ' '
      {
        if i > |w| {
          assert t[i] == rest[i - |w| - 1];
        }
      }
      forall i | 0 <= i < |t| - 1 && IsSpace(t[i])
        ensures !IsSpace(t[i + 1])
      {
        if i < |w| {
        } else if i == |w| {
          assert t[i + 1] == rest[0];
        } else {
          assert t[i] == rest[i - |w| - 1] && t[i + 1] == rest[i - |w|];
        }
      }
      assert t[|t| - 1] == rest[|rest| - 1];
    }
  }

  /** Length of the first line, up to (not including) the first '\n'. */
  function LineLen(s: string): (n: nat)
    ensures n <= |s|
    ensures forall i :: 0 <= i < n ==> s[i] != '\n'
    ensures n < |s| ==> s[n] == '\n'
  {
    if s == [] || s[0] == '\n' then 0 else 1 + LineLen(s[1..])
  }

  /** LineLen is the index of the first '\n', or the length. */
  lemma {:induction false} LineLenIs(s: string, k: nat)
    requires k <= |s|
    requires forall i :: 0 <= i < k ==> s[i] != '\n'
    requires k < |s| ==> s[k] == '\n'
    ensures LineLen(s) == k
  {
    if k > 0 {
      LineLenIs(s[1..], k - 1);
    }
  }

  /** file.readlines() on a file opened in text mode, each line without its terminating '\n'
      (the only use of a line is str.split(), which drops it: SplitIgnoresNewline).
      A final '\n' does not start an extra empty line. */
  function ReadLines(s: string): (lines: seq<string>)
    ensures forall l :: l in lines ==> '\n' !in l
    decreases |s|
  {
    if s == [] then []
    else
      var n := LineLen(s);
      assert '\n' !in s[..n] by {
        forall i | 0 <= i < n ensures s[..n][i] != '\n' { }
      }
      if n == |s| then [s] else [s[..n]] + ReadLines(s[n + 1..])
  }

  /** Lines written one after another with a '\n' between consecutive ones. */
  function Unlines(lines: seq<string>): string {
    if |lines| == 0 then ""
    else if |lines| == 1 then lines[0]
    else lines[0] + "\n" + Unlines(lines[1..])
  }

  lemma {:induction false} UnlinesSnoc(lines: seq<string>, l: string)
    requires |lines| > 0
    ensures Unlines(lines + [l]) == Unlines(lines) + "\n" + l
  {
    if |lines| == 1 {
      assert (lines + [l])[1..] == [l];
    } else {
      assert (lines + [l])[1..] == lines[1..] + [l];
      UnlinesSnoc(lines[1..], l);
    }
  }

  /** Reading back what was written one line at a time gives the same lines, provided
      no line holds a '\n' and the last one is not empty. */
  lemma {:induction false} ReadLinesUnlines(lines: seq<string>)
    requires |lines| > 0 && lines[|lines| - 1] != ""
    requires forall k :: 0 <= k < |lines| ==> '\n' !in lines[k]
    ensures ReadLines(Unlines(lines)) == lines
  {
    var first := lines[0];
    if |lines| == 1 {
      LineLenIs(first, |first|);
    } else {
      var s := Unlines(lines);
      var rest := Unlines(lines[1..]);
      assert s == first + "\n" + rest;
      assert s[|first|] == '\n';
      LineLenIs(s, |first|);
      assert s[..|first|] == first;
      assert s[|first| + 1..] == rest;
      ReadLinesUnlines(lines[1..]);
      assert lines == [first] + lines[1..];
    }
  }

  /** ReadLinesUnlines for header lines followed by body lines that are each non-empty. */
  lemma ReadLinesWithHeader(head: seq<string>, body: seq<string>)
    requires |head| > 0 && (|body| == 0 ==> head[|head| - 1] != "")
    requires forall k :: 0 <= k < |head| ==> '\n' !in head[k]
    requires forall k :: 0 <= k < |body| ==> '\n' !in body[k] && body[k] != ""
    ensures ReadLines(Unlines(head + body)) == head + body
  {
    var lines := head + body;
    forall k | 0 <= k < |lines| ensures '\n' !in lines[k] {
      if k >= |head| {
        assert lines[k] == body[k - |head|];
      }
    }
    if |body| > 0 {
      assert lines[|lines| - 1] == body[|body| - 1];
    }
    ReadLinesUnlines(lines);
  }

  predicate IsDigit(c: char) {
    '0' <= c <= '9'
  }

  predicate AllDigits(s: string) {
    forall i :: 0 <= i < |s| ==> IsDigit(s[i])
  }

  function DigitValue(c: char): (d: nat)
    requires IsDigit(c)
    ensures d < 10
  {
    c as int - '0' as int
  }

  function DigitChar(d: nat): (c: char)
    requires d < 10
    ensures IsDigit(c) && DigitValue(c) == d
  {
    ('0' as int + d) as char
  }

  /** The decimal digits of `n`, without leading zeros. */
  function NatToString(n: nat): (s: string)
    ensures |s| > 0 && AllDigits(s)
  {
    if n < 10 then [DigitChar(n)] else NatToString(n / 10) + [DigitChar(n % 10)]
  }

  /** str(i) for a Python int. */
  function IntToString(i: int): (s: string)
    ensures IsWord(s)
  {
    if i < 0 then "-" + NatToString(-i) else NatToString(i)
  }

  function DigitsValue(s: string): nat
    requires AllDigits(s)
  {
    if s == [] then 0 else DigitsValue(s[..|s| - 1]) * 10 + DigitValue(s[|s| - 1])
  }

  /** int(token) for a token str.split() produced: an optional sign followed by decimal
      digits. None stands for the ValueError Python raises on anything else. */
  function ParseInt(s: string): Option<int> {
    if |s| > 0 && (s[0] == '-' || s[0] == '+') then
      if |s| > 1 && AllDigits(s[1..]) then
        var magnitude: int := DigitsValue(s[1..]);
        Some(if s[0] == '-' then -magnitude else magnitude)
      else None
    else if |s| > 0 && AllDigits(s) then Some(DigitsValue(s))
    else None
  }

  lemma {:induction false} NatDigitsRoundTrip(n: nat)
    ensures DigitsValue(NatToString(n)) == n
  {
    if n >= 10 {
      var s := NatToString(n);
      assert s[..|s| - 1] == NatToString(n / 10);
      NatDigitsRoundTrip(n / 10);
    }
  }

  /** int(str(i)) == i */
  lemma IntStringRoundTrip(i: int)
    ensures ParseInt(IntToString(i)) == Some(i)
  {
    var s := IntToString(i);
    if i < 0 {
      assert s[1..] == NatToString(-i);
      NatDigitsRoundTrip(-i);
    } else {
      NatDigitsRoundTrip(i);
    }
  }

  /** Distinct integers print differently. */
  lemma IntToStringInjective(a: int, b: int)
    requires IntToString(a) == IntToString(b)
    ensures a == b
  {
    IntStringRoundTrip(a);
    IntStringRoundTrip(b);
  }
}
