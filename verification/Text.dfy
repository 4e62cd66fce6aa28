/**
 Character truncation (src/text.rs) and the whitespace handling shared by Slack text and HTML
 text: `split_whitespace`, joining with one space, and `trim`. Strings are sequences of Unicode
 scalar values, as `str::chars` yields them.
 */
module Text {
  const ELLIPSIS: char := '\U{2026}'

  /** `truncate_chars`: at most `maxChars` characters, a cut being marked by a trailing ellipsis. */
  function TruncateChars(s: string, maxChars: nat): string {
    if maxChars == 0 then ""
    else if |s| <= maxChars then s
    else s[..maxChars - 1] + [ELLIPSIS]
  }

  /** Unicode White_Space, which `char::is_whitespace` tests. */
  predicate IsWhitespace(c: char) {
    || '\U{0009}' <= c <= '\U{000D}'
    || c == ' '
    || c == '\U{0085}'
    || c == '\U{00A0}'
    || c == '\U{1680}'
    || '\U{2000}' <= c <= '\U{200A}'
    || c == '\U{2028}'
    || c == '\U{2029}'
    || c == '\U{202F}'
    || c == '\U{205F}'
    || c == '\U{3000}'
  }

  /** The length of the leading run of characters that are not whitespace. */
  function WordLength(s: string): (n: nat)
    ensures n <= |s|
    ensures forall i :: 0 <= i < n ==> !IsWhitespace(s[i])
    ensures n < |s| ==> IsWhitespace(s[n])
  {
    if s == "" || IsWhitespace(s[0]) then 0 else 1 + WordLength(s[1..])
  }

  /** `str::split_whitespace`: the maximal runs of characters that are not whitespace. */
  function SplitWhitespace(s: string): (words: seq<string>)
    ensures forall i :: 0 <= i < |words| ==> IsWord(words[i])
    decreases |s|
  {
    if s == "" then []
    else if IsWhitespace(s[0]) then SplitWhitespace(s[1..])
    else
      var n := WordLength(s);
      [s[..n]] + SplitWhitespace(s[n..])
  }

  predicate IsWord(w: string) {
    w != "" && forall i :: 0 <= i < |w| ==> !IsWhitespace(w[i])
  }

  function JoinWithSpace(words: seq<string>): string {
    if words == [] then ""
    else if |words| == 1 then words[0]
    else words[0] + " " + JoinWithSpace(words[1..])
  }

  /** Line breaks and other whitespace folded to single spaces. */
  function Fold(s: string): string {
    JoinWithSpace(SplitWhitespace(s))
  }

  function TrimStart(s: string): string {
    if s != "" && IsWhitespace(s[0]) then TrimStart(s[1..]) else s
  }

  function TrimEnd(s: string): string {
    if s != "" && IsWhitespace(s[|s| - 1]) then TrimEnd(s[..|s| - 1]) else s
  }

  /** `str::trim`. */
  function Trim(s: string): string {
    TrimEnd(TrimStart(s))
  }

  /** A folded text starts and ends with a word character, and holds no whitespace but lone spaces. */
  ghost predicate Folded(s: string) {
    && (s != "" ==> !IsWhitespace(s[0]) && !IsWhitespace(s[|s| - 1]))
    && (forall i :: 0 <= i < |s| && IsWhitespace(s[i]) ==> s[i] == ' ')
    && (forall i :: 0 <= i < |s| - 1 && s[i] == ' ' ==> s[i + 1] != ' ')
  }

  lemma {:induction false} JoinIsFolded(words: seq<string>)
    requires forall i :: 0 <= i < |words| ==> IsWord(words[i])
    ensures Folded(JoinWithSpace(words))
    ensures words != [] ==> JoinWithSpace(words) != ""
  {
    if |words| > 1 {
      var w, rest := words[0], JoinWithSpace(words[1..]);
      JoinIsFolded(words[1..]);
      var s := JoinWithSpace(words);
      assert s == w + " " + rest;
      assert forall i :: 0 <= i < |w| ==> s[i] == w[i];
      forall i | 0 <= i < |s| && IsWhitespace(s[i])
        ensures s[i] == ' ' && (i < |s| - 1 ==> s[i + 1] != ' ')
      {
        if i == |w| {
          assert s[i + 1] == rest[0];
        } else if i > |w| {
          assert s[i] == rest[i - |w| - 1];
          assert i < |s| - 1 ==> s[i + 1] == rest[i - |w|];
        }
      }
      assert s[|s| - 1] == rest[|rest| - 1];
    }
  }

  /** Folding leaves nothing for `trim` to remove. */
  lemma FoldIsFolded(s: string)
    ensures Folded(Fold(s))
    ensures Trim(Fold(s)) == Fold(s)
  {
    JoinIsFolded(SplitWhitespace(s));
  }

  /** A folded text is a fixed point, so `Fold` is idempotent and keeps exactly the words. */
  lemma {:induction false} FoldedIsFixed(words: seq<string>)
    requires forall i :: 0 <= i < |words| ==> IsWord(words[i])
    ensures SplitWhitespace(JoinWithSpace(words)) == words
  {
    if words == [] {
    } else if |words| == 1 {
      WordThenRest(words[0], "");
      assert words[0] + "" == words[0];
    } else {
      var rest := JoinWithSpace(words[1..]);
      FoldedIsFixed(words[1..]);
      WordThenRest(words[0], " " + rest);
      assert words[0] + (" " + rest) == words[0] + " " + rest;
      assert (" " + rest)[1..] == rest;
    }
  }

  lemma WordThenRest(w: string, rest: string)
    requires IsWord(w)
    requires rest != "" ==> IsWhitespace(rest[0])
    ensures SplitWhitespace(w + rest) == [w] + SplitWhitespace(rest)
  {
    var s := w + rest;
    var n := WordLength(s);
    assert forall i :: 0 <= i < |w| ==> s[i] == w[i];
    assert rest != "" ==> s[|w|] == rest[0];
    assert n == |w|;
    assert s[..n] == w && s[n..] == rest;
  }

  lemma FoldIdempotent(s: string)
    ensures Fold(Fold(s)) == Fold(s)
    ensures SplitWhitespace(Fold(s)) == SplitWhitespace(s)
  {
    FoldedIsFixed(SplitWhitespace(s));
  }

  // ---------------------------------------------------------------------------------------------
  // The same operations, described from outside

  /** Whitespace by code point. */
  lemma WhitespaceCodePoints(c: char)
    ensures IsWhitespace(c) <==>
            var code := c as int;
            || 9 <= code <= 13 || code in {32, 133, 160, 5_760} || 8_192 <= code <= 8_202
            || code in {8_232, 8_233, 8_239, 8_287, 12_288}
  {
  }

  /** A cut text is as long as allowed: all but its last character come from the text, and U+2026 ends it. */
  lemma TruncationIsExact(s: string, maxChars: nat)
    ensures var r := TruncateChars(s, maxChars);
            && (|s| <= maxChars ==> r == s)
            && (|s| > maxChars ==> |r| == maxChars)
            && (|s| > maxChars > 0 ==> r[..maxChars - 1] == s[..maxChars - 1] && r[maxChars - 1] as int == 0x2026)
  {
  }

  predicate AllWhitespace(s: string) {
    forall i :: 0 <= i < |s| ==> IsWhitespace(s[i])
  }

  /** Nothing to trim at either end. */
  predicate Trimmed(s: string) {
    s != "" ==> !IsWhitespace(s[0]) && !IsWhitespace(s[|s| - 1])
  }

  lemma {:induction false} TrimStartDrops(a: string, t: string)
    requires AllWhitespace(a)
    ensures TrimStart(a + t) == TrimStart(t)
  {
    if a == "" {
      assert a + t == t;
    } else {
      assert (a + t)[1..] == a[1..] + t;
      TrimStartDrops(a[1..], t);
    }
  }

  lemma {:induction false} TrimEndDrops(t: string, b: string)
    requires AllWhitespace(b)
    ensures TrimEnd(t + b) == TrimEnd(t)
  {
    if b == "" {
      assert t + b == t;
    } else {
      assert (t + b)[..|t + b| - 1] == t + b[..|b| - 1];
      TrimEndDrops(t, b[..|b| - 1]);
    }
  }

  /** Whitespace around a trimmed text is what `trim` removes. */
  lemma {:induction false} TrimRemovesAround(a: string, t: string, b: string)
    requires AllWhitespace(a) && AllWhitespace(b) && Trimmed(t)
    ensures Trim(a + t + b) == t
  {
    assert a + t + b == a + (t + b);
    TrimStartDrops(a, t + b);
    if t == "" {
      assert t + b == b && b + "" == b;
      TrimStartDrops(b, "");
    } else {
      assert (t + b)[0] == t[0];
      TrimEndDrops(t, b);
    }
  }

  ghost predicate TrimsTo(s: string, t: string, a: string, b: string) {
    s == a + t + b && AllWhitespace(a) && AllWhitespace(b) && Trimmed(t)
  }

  lemma {:induction false} TrimStartSplits(s: string) returns (a: string)
    ensures AllWhitespace(a) && s == a + TrimStart(s) && (TrimStart(s) != "" ==> !IsWhitespace(TrimStart(s)[0]))
  {
    if s != "" && IsWhitespace(s[0]) {
      var rest := TrimStartSplits(s[1..]);
      a := [s[0]] + rest;
      assert s == [s[0]] + s[1..];
    } else {
      a := "";
    }
  }

  lemma {:induction false} TrimEndSplits(s: string) returns (b: string)
    ensures AllWhitespace(b) && s == TrimEnd(s) + b && (TrimEnd(s) != "" ==> !IsWhitespace(TrimEnd(s)[|TrimEnd(s)| - 1]))
  {
    if s != "" && IsWhitespace(s[|s| - 1]) {
      var rest := TrimEndSplits(s[..|s| - 1]);
      b := rest + [s[|s| - 1]];
      assert s == s[..|s| - 1] + [s[|s| - 1]];
    } else {
      b := "";
    }
  }

  /** `trim` removes the whitespace at both ends, all of it and nothing else. */
  lemma {:induction false} TrimIsExact(s: string, t: string)
    ensures Trim(s) == t <==> exists a, b :: TrimsTo(s, t, a, b)
  {
    var a := TrimStartSplits(s);
    var b := TrimEndSplits(TrimStart(s));
    assert TrimsTo(s, Trim(s), a, b) by {
      assert a + (Trim(s) + b) == a + Trim(s) + b;
      assert Trim(s) != "" ==> Trim(s)[0] == TrimStart(s)[0];
    }
    forall c, d | TrimsTo(s, t, c, d) ensures Trim(s) == t {
      TrimRemovesAround(c, t, d);
    }
  }

  lemma {:induction false} LeadingWhitespaceHoldsNoWord(a: string, rest: string)
    requires AllWhitespace(a)
    ensures SplitWhitespace(a + rest) == SplitWhitespace(rest)
  {
    if a == "" {
      assert a + rest == rest;
    } else {
      assert (a + rest)[1..] == a[1..] + rest;
      LeadingWhitespaceHoldsNoWord(a[1..], rest);
    }
  }

  /** Words set apart by whitespace: each one with the whitespace before it. */
  function SetApart(gaps: seq<string>, words: seq<string>, end: string): string
    requires |gaps| == |words|
  {
    if words == [] then end else gaps[0] + words[0] + SetApart(gaps[1..], words[1..], end)
  }

  /** Splitting gives the words of a text, whatever the whitespace between and around them. */
  lemma {:induction false} SplitFindsTheWords(gaps: seq<string>, words: seq<string>, end: string)
    requires |gaps| == |words| && AllWhitespace(end)
    requires forall i :: 0 <= i < |words| ==> IsWord(words[i]) && AllWhitespace(gaps[i]) && (i > 0 ==> gaps[i] != "")
    ensures SplitWhitespace(SetApart(gaps, words, end)) == words
  {
    if words == [] {
      LeadingWhitespaceHoldsNoWord(end, "");
      assert end + "" == end;
    } else {
      var rest := SetApart(gaps[1..], words[1..], end);
      SplitFindsTheWords(gaps[1..], words[1..], end);
      assert gaps[0] + words[0] + rest == gaps[0] + (words[0] + rest);
      LeadingWhitespaceHoldsNoWord(gaps[0], words[0] + rest);
      if |words| > 1 {
        assert rest == gaps[1] + words[1] + SetApart(gaps[2..], words[2..], end) by {
          assert gaps[1..][1..] == gaps[2..] && words[1..][1..] == words[2..];
        }
        assert rest[0] == gaps[1][0];
      }
      WordThenRest(words[0], rest);
    }
  }
}
