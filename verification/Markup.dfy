/**
 Text escaping for Slack (src/slack.rs) and HTML decoding (src/signals.rs). Both are chains of
 sequential whole-string replacements; the proofs show that the chains act character by character,
 that decoding undoes escaping, and that truncation never splits an entity.
 */
module Markup {
  import opened Text

  /** `str::replace` with a character pattern. */
  function ReplaceChar(s: string, from: char, to: string): string {
    if s == "" then "" else (if s[0] == from then to else [s[0]]) + ReplaceChar(s[1..], from, to)
  }

  predicate StartsWith(s: string, pattern: string) {
    |pattern| <= |s| && forall i :: 0 <= i < |pattern| ==> s[i] == pattern[i]
  }

  /** `str::replace`: leftmost matches that do not overlap. */
  function Replace(s: string, pattern: string, to: string): string
    requires pattern != ""
    decreases |s|
  {
    if s == "" then ""
    else if StartsWith(s, pattern) then to + Replace(s[|pattern|..], pattern, to)
    else [s[0]] + Replace(s[1..], pattern, to)
  }

  /** `sanitize_mrkdwn`. */
  function SanitizeMrkdwn(s: string): string {
    ReplaceChar(ReplaceChar(ReplaceChar(Fold(s), '&', "&amp;"), '<', "&lt;"), '>', "&gt;")
  }

  /** What the tag scan of `html_to_plain` keeps, given whether it starts inside a tag. */
  function StripTags(s: string, inTag: bool): string {
    if s == "" then ""
    else if s[0] == '<' then StripTags(s[1..], true)
    else if s[0] == '>' then StripTags(s[1..], false)
    else (if inTag then "" else [s[0]]) + StripTags(s[1..], inTag)
  }

  function BreaksToNewlines(html: string): string {
    Replace(Replace(Replace(Replace(html, "<br>", "\n"), "<br/>", "\n"), "<br />", "\n"), "</p><p>", "\n\n")
  }

  function DecodeEntities(s: string): string {
    Replace(Replace(Replace(Replace(Replace(s, "&lt;", "<"), "&gt;", ">"), "&quot;", "\""), "&#39;", "'"), "&amp;", "&")
  }

  function HtmlToPlain(html: string): string {
    Trim(DecodeEntities(StripTags(BreaksToNewlines(html), false)))
  }

  /** `html_to_plain` with its scanning loop. */
  method HtmlToPlainText(html: string) returns (text: string)
    ensures text == HtmlToPlain(html)
  {
    var result := BreaksToNewlines(html);
    var plain := "";
    var inTag := false;
    assert result[0..] == result;
    for i := 0 to |result|
      invariant plain + StripTags(result[i..], inTag) == StripTags(result, false)
    {
      var ch := result[i];
      assert result[i..][0] == ch && result[i..][1..] == result[i + 1..];
      if ch == '<' {
        inTag := true;
      } else if ch == '>' {
        inTag := false;
      } else if !inTag {
        plain := plain + [ch];
      }
    }
    assert result[|result|..] == "";
    assert plain == StripTags(result, false);
    text := Trim(DecodeEntities(plain));
  }

  /** `truncate_mrkdwn`: a cut that falls inside an entity drops the whole entity. */
  function TruncateMrkdwn(s: string, maxChars: nat): string {
    var truncated := TruncateChars(s, maxChars);
    if truncated == "" || truncated[|truncated| - 1] != ELLIPSIS then truncated
    else
      var pos := LastAmpersand(truncated);
      if pos < |truncated| && ';' !in truncated[pos..] then truncated[..pos] + [ELLIPSIS] else truncated
  }

  /** `rfind('&')`, or the length of the text when there is none. */
  function LastAmpersand(s: string): (pos: nat)
    ensures pos <= |s|
    ensures pos < |s| ==> s[pos] == '&'
    ensures forall i :: pos < i < |s| ==> s[i] != '&'
    ensures pos == |s| ==> forall i :: 0 <= i < |s| ==> s[i] != '&'
  {
    LastAmpersandBefore(s, |s|)
  }

  function LastAmpersandBefore(s: string, end: nat): (pos: nat)
    requires end <= |s|
    requires forall i :: end <= i < |s| ==> s[i] != '&'
    ensures pos <= |s|
    ensures pos < |s| ==> s[pos] == '&'
    ensures forall i :: pos < i < |s| ==> s[i] != '&'
    ensures pos == |s| ==> forall i :: 0 <= i < |s| ==> s[i] != '&'
    decreases end
  {
    if end == 0 then |s|
    else if s[end - 1] == '&' then end - 1
    else LastAmpersandBefore(s, end - 1)
  }

  // ---------------------------------------------------------------------------------------------
  // The character-by-character reading of the chains

  /** Which characters besides `&` are written as an entity. */
  datatype Coding = Coding(lt: bool, gt: bool, quote: bool, apostrophe: bool)

  /** What `sanitize_mrkdwn` escapes. */
  const MRKDWN := Coding(true, true, false, false)

  function Encode(c: char, coding: Coding): string {
    if c == '&' then "&amp;"
    else if c == '<' && coding.lt then "&lt;"
    else if c == '>' && coding.gt then "&gt;"
    else if c == '"' && coding.quote then "&quot;"
    else if c == '\'' && coding.apostrophe then "&#39;"
    else [c]
  }

  /** The escape of a text, one character at a time. */
  function Escape(s: string, coding: Coding := MRKDWN): string {
    if s == "" then "" else Encode(s[0], coding) + Escape(s[1..], coding)
  }

  lemma {:induction false} ReplaceCharConcat(a: string, b: string, from: char, to: string)
    ensures ReplaceChar(a + b, from, to) == ReplaceChar(a, from, to) + ReplaceChar(b, from, to)
  {
    if a == "" {
      assert a + b == b;
    } else {
      assert (a + b)[0] == a[0] && (a + b)[1..] == a[1..] + b;
      ReplaceCharConcat(a[1..], b, from, to);
      ConcatAssociates(if a[0] == from then to else [a[0]], ReplaceChar(a[1..], from, to), ReplaceChar(b, from, to));
    }
  }

  lemma {:induction false} EscapingChainIsEscape(s: string)
    ensures ReplaceChar(ReplaceChar(ReplaceChar(s, '&', "&amp;"), '<', "&lt;"), '>', "&gt;") == Escape(s)
  {
    if s == "" {
    } else {
      var head := if s[0] == '&' then "&amp;" else [s[0]];
      var one := ReplaceChar(s[1..], '&', "&amp;");
      var two := ReplaceChar(one, '<', "&lt;");
      EscapingChainIsEscape(s[1..]);
      ReplaceCharConcat(head, one, '<', "&lt;");
      ReplaceCharConcat(ReplaceChar(head, '<', "&lt;"), two, '>', "&gt;");
      EscapingOneChar(s[0]);
    }
  }

  lemma EscapingOneChar(c: char)
    ensures ReplaceChar(ReplaceChar(if c == '&' then "&amp;" else [c], '<', "&lt;"), '>', "&gt;") == Encode(c, MRKDWN)
  {
    if c == '&' {
      ReplaceCharAbsent("&amp;", '<', "&lt;");
      ReplaceCharAbsent("&amp;", '>', "&gt;");
    } else if c == '<' {
      assert [c][1..] == "";
      assert ReplaceChar([c], '<', "&lt;") == "&lt;" + "" == "&lt;";
      ReplaceCharAbsent("&lt;", '>', "&gt;");
    } else {
      ReplaceCharAbsent([c], '<', "&lt;");
      assert [c][1..] == "";
    }
  }

  lemma {:induction false} ReplaceCharAbsent(s: string, from: char, to: string)
    requires from !in s
    ensures ReplaceChar(s, from, to) == s
  {
    if s == "" {
    } else {
      ReplaceCharAbsent(s[1..], from, to);
      assert s == [s[0]] + s[1..];
    }
  }

  /** `sanitize_mrkdwn` escapes the folded text one character at a time. */
  lemma SanitizeIsEscapeOfFold(s: string)
    ensures SanitizeMrkdwn(s) == Escape(Fold(s))
  {
    EscapingChainIsEscape(Fold(s));
  }

  lemma {:induction false} EscapeHasNoTags(s: string, coding: Coding)
    requires coding.lt && coding.gt
    ensures '<' !in Escape(s, coding) && '>' !in Escape(s, coding)
  {
    if s != "" {
      EscapeHasNoTags(s[1..], coding);
      assert Escape(s, coding) == Encode(s[0], coding) + Escape(s[1..], coding);
      forall c | c in Escape(s, coding) ensures c != '<' && c != '>' {
        assert c in Encode(s[0], coding) || c in Escape(s[1..], coding);
      }
    }
  }

  /** A pattern that starts with a character the text lacks is never found. */
  lemma {:induction false} ReplaceAbsent(s: string, pattern: string, to: string)
    requires pattern != "" && pattern[0] !in s
    ensures Replace(s, pattern, to) == s
  {
    if s == "" {
    } else {
      assert s[0] != pattern[0];
      ReplaceAbsent(s[1..], pattern, to);
      assert s == [s[0]] + s[1..];
    }
  }

  lemma {:induction false} StripTagsAbsent(s: string)
    requires '<' !in s && '>' !in s
    ensures StripTags(s, false) == s
  {
    if s == "" {
    } else {
      assert s[0] in s;
      StripTagsAbsent(s[1..]);
      assert s == [s[0]] + s[1..];
    }
  }

  /** A match at the front is replaced and skipped. */
  lemma ReplaceMatched(pattern: string, to: string, rest: string)
    requires pattern != ""
    ensures Replace(pattern + rest, pattern, to) == to + Replace(rest, pattern, to)
  {
    assert (pattern + rest)[|pattern|..] == rest;
  }

  /**
   An entity (or a lone character) whose first character starts no match and whose other
   characters differ from the pattern's first is copied.
   */
  lemma {:induction false} ReplaceCopies(head: string, pattern: string, to: string, rest: string)
    requires head != "" && pattern != ""
    requires !StartsWith(head + rest, pattern)
    requires forall i :: 1 <= i < |head| ==> head[i] != pattern[0]
    ensures Replace(head + rest, pattern, to) == head + Replace(rest, pattern, to)
  {
    var s := head + rest;
    assert s[1..] == head[1..] + rest;
    if |head| == 1 {
      assert s[1..] == rest;
      assert head == [s[0]];
    } else {
      var tail := head[1..];
      assert tail[0] != pattern[0];
      assert (tail + rest)[0] == tail[0];
      ReplaceCopies(tail, pattern, to, rest);
      assert head == [s[0]] + tail;
    }
  }

  /** One decoding step on one encoded character: it either matches exactly or is copied. */
  lemma DecodeOneChar(c: char, coding: Coding, pattern: string, to: string, rest: string)
    requires pattern in {"&lt;", "&gt;", "&quot;", "&#39;"} || (pattern == "&amp;" && coding == Coding(false, false, false, false))
    ensures Replace(Encode(c, coding) + rest, pattern, to)
         == (if Encode(c, coding) == pattern then to else Encode(c, coding)) + Replace(rest, pattern, to)
  {
    var e := Encode(c, coding);
    if e == pattern {
      ReplaceMatched(pattern, to, rest);
    } else {
      var s := e + rest;
      if |e| == 1 {
        assert s[0] == c != pattern[0];
      } else {
        assert s[1] == e[1] != pattern[1];
      }
      ReplaceCopies(e, pattern, to, rest);
    }
  }

  /** A replacement that decodes one entity, and what is still coded after it. */
  predicate Decodes(pattern: string, to: string, coding: Coding, left: Coding) {
    || (pattern == "&lt;" && to == "<" && left == coding.(lt := false))
    || (pattern == "&gt;" && to == ">" && left == coding.(gt := false))
    || (pattern == "&quot;" && to == "\"" && left == coding.(quote := false))
    || (pattern == "&#39;" && to == "'" && left == coding.(apostrophe := false))
  }

  lemma {:induction false} DecodeOneEntity(t: string, pattern: string, to: string, coding: Coding, left: Coding)
    requires Decodes(pattern, to, coding, left)
    ensures Replace(Escape(t, coding), pattern, to) == Escape(t, left)
  {
    if t != "" {
      DecodeOneEntity(t[1..], pattern, to, coding, left);
      DecodeOneChar(t[0], coding, pattern, to, Escape(t[1..], coding));
    }
  }

  lemma {:induction false} DecodeAmp(t: string)
    ensures Replace(Escape(t, Coding(false, false, false, false)), "&amp;", "&") == t
  {
    if t != "" {
      var none := Coding(false, false, false, false);
      DecodeAmp(t[1..]);
      DecodeOneChar(t[0], none, "&amp;", "&", Escape(t[1..], none));
      assert t == [t[0]] + t[1..];
    }
  }

  /** The entity chain, with `&amp;` decoded last, inverts the escape of any text, with quotes coded or not. */
  lemma EntitiesDecodeEscape(t: string, coding: Coding)
    ensures DecodeEntities(Escape(t, coding)) == t
  {
    var noLt := coding.(lt := false);
    var noGt := noLt.(gt := false);
    var noQuote := noGt.(quote := false);
    DecodeOneEntity(t, "&lt;", "<", coding, noLt);
    DecodeOneEntity(t, "&gt;", ">", noLt, noGt);
    DecodeOneEntity(t, "&quot;", "\"", noGt, noQuote);
    DecodeOneEntity(t, "&#39;", "'", noQuote, Coding(false, false, false, false));
    DecodeAmp(t);
  }

  /** Decoding undoes escaping, for every text, entities and tags in it included. */
  lemma DecoderUndoesEncoder(s: string)
    ensures HtmlToPlain(SanitizeMrkdwn(s)) == Fold(s)
  {
    var t := Fold(s);
    SanitizeIsEscapeOfFold(s);
    var e := Escape(t);
    EscapeHasNoTags(t, MRKDWN);
    ReplaceAbsent(e, "<br>", "\n");
    ReplaceAbsent(e, "<br/>", "\n");
    ReplaceAbsent(e, "<br />", "\n");
    ReplaceAbsent(e, "</p><p>", "\n\n");
    StripTagsAbsent(e);
    EntitiesDecodeEscape(t, MRKDWN);
    FoldIsFolded(s);
  }

  /** Sanitized text tells apart any two texts that differ in more than whitespace. */
  lemma SanitizeIsInjectiveUpToWhitespace(a: string, b: string)
    ensures SanitizeMrkdwn(a) == SanitizeMrkdwn(b) <==> Fold(a) == Fold(b)
  {
    DecoderUndoesEncoder(a);
    DecoderUndoesEncoder(b);
  }

  // ---------------------------------------------------------------------------------------------
  // Entity-safe truncation

  /** `p` is the longest prefix of `t` whose escape fits in `room` characters. */
  ghost predicate LongestFittingPrefix(p: string, t: string, room: nat) {
    && p <= t
    && |Escape(p)| <= room
    && forall q :: q <= t && |q| > |p| ==> |Escape(q)| > room
  }

  /** The number of characters of `t` whose escapes fit whole in `room`. */
  function FittingCount(t: string, room: nat): (k: nat)
    ensures k <= |t|
  {
    if t == "" || |Encode(t[0], MRKDWN)| > room then 0
    else 1 + FittingCount(t[1..], room - |Encode(t[0], MRKDWN)|)
  }

  lemma {:induction false} EscapeConcat(a: string, b: string, coding: Coding)
    ensures Escape(a + b, coding) == Escape(a, coding) + Escape(b, coding)
  {
    if a == "" {
      assert a + b == b;
    } else {
      assert (a + b)[0] == a[0] && (a + b)[1..] == a[1..] + b;
      EscapeConcat(a[1..], b, coding);
      ConcatAssociates(Encode(a[0], coding), Escape(a[1..], coding), Escape(b, coding));
    }
  }

  lemma ConcatAssociates(a: string, b: string, c: string)
    ensures a + (b + c) == (a + b) + c
  {
  }

  lemma EscapeOfLongerPrefix(p: string, q: string, t: string)
    requires p <= t && q <= t && |q| > |p|
    ensures |Escape(q)| >= |Escape(p)| + |Encode(t[|p|], MRKDWN)|
  {
    assert q == p + [t[|p|]] + q[|p| + 1..];
    EscapeConcat(p + [t[|p|]], q[|p| + 1..], MRKDWN);
    EscapeConcat(p, [t[|p|]], MRKDWN);
    assert [t[|p|]][1..] == "";
  }

  /** Where the cut at `room` characters falls: after whole characters, then inside the next one. */
  lemma {:induction false} CutStructure(t: string, room: nat)
    requires |Escape(t)| > room
    ensures var k := FittingCount(t, room);
            && k < |t|
            && |Escape(t[..k])| <= room < |Escape(t[..k])| + |Encode(t[k], MRKDWN)|
            && Escape(t)[..room] == Escape(t[..k]) + Encode(t[k], MRKDWN)[..room - |Escape(t[..k])|]
  {
    var head := Encode(t[0], MRKDWN);
    if |head| > room {
      assert t[..0] == "";
    } else {
      var k := FittingCount(t, room);
      var rest := t[1..];
      CutStructure(rest, room - |head|);
      assert t[..k][1..] == rest[..k - 1] && t[..k][0] == t[0];
      PrefixOfConcat(head, Escape(rest), room);
      ConcatAssociates(head, Escape(rest[..k - 1]), Encode(t[k], MRKDWN)[..room - |Escape(t[..k])|]);
    }
  }

  lemma PrefixOfConcat(a: string, b: string, n: nat)
    requires |a| <= n <= |a| + |b|
    ensures (a + b)[..n] == a + b[..n - |a|]
  {
  }

  /** In the escape of a text every `&` begins an entity that a `;` closes. */
  lemma {:induction false} EntitiesAreClosed(p: string, pos: nat)
    requires pos < |Escape(p)| && Escape(p)[pos] == '&'
    ensures ';' in Escape(p)[pos..]
  {
    var head := Encode(p[0], MRKDWN);
    var rest := Escape(p[1..]);
    if pos == 0 {
      assert Escape(p)[|head| - 1] == ';';
      assert Escape(p)[pos..][|head| - 1] == ';';
    } else if pos < |head| {
      assert false;
    } else {
      EntitiesAreClosed(p[1..], pos - |head|);
      assert Escape(p)[pos..] == rest[pos - |head|..];
    }
  }

  lemma LastAmpersandIs(s: string, pos: nat)
    requires pos < |s| && s[pos] == '&'
    requires forall i :: pos < i < |s| ==> s[i] != '&'
    ensures LastAmpersand(s) == pos
  {
  }

  /** A cut that leaves part of an entity is moved back to the start of that entity. */
  lemma PartialEntityIsDropped(whole: string, part: string)
    requires part != "" && part[0] == '&'
    requires forall i :: 1 <= i < |part| ==> part[i] != '&'
    requires ';' !in part
    ensures var s := whole + part + [ELLIPSIS];
            LastAmpersand(s) == |whole| && ';' !in s[|whole|..] && s[..|whole|] == whole
  {
    var s := whole + part + [ELLIPSIS];
    assert s[|whole|] == part[0];
    assert s[|whole|..] == part + [ELLIPSIS];
    forall i | |whole| < i < |s| ensures s[i] != '&' {
      assert s[i] == s[|whole|..][i - |whole|];
    }
    LastAmpersandIs(s, |whole|);
  }

  /** A cut between two whole characters is left where it is. */
  lemma WholeEntitiesAreKept(p: string)
    ensures var s := Escape(p) + [ELLIPSIS];
            var pos := LastAmpersand(s);
            pos == |s| || ';' in s[pos..]
  {
    var s := Escape(p) + [ELLIPSIS];
    var pos := LastAmpersand(s);
    if pos < |s| {
      assert pos < |Escape(p)|;
      EntitiesAreClosed(p, pos);
      assert s[pos..] == Escape(p)[pos..] + [ELLIPSIS];
    }
  }

  lemma PartOfEntity(c: char, n: nat)
    requires 0 < n < |Encode(c, MRKDWN)|
    ensures var part := Encode(c, MRKDWN)[..n];
            && part[0] == '&' && ';' !in part
            && forall i :: 1 <= i < |part| ==> part[i] != '&'
  {
  }

  /**
   Truncating sanitized text gives at most `maxChars` characters, and is the whole text or the
   escape of the longest prefix of the folded input that leaves room for the ellipsis.
   */
  lemma TruncationNeverSplitsAnEntity(s: string, maxChars: nat)
    requires maxChars >= 1
    ensures var r := TruncateMrkdwn(SanitizeMrkdwn(s), maxChars);
            && |r| <= maxChars
            && (|SanitizeMrkdwn(s)| <= maxChars ==> r == SanitizeMrkdwn(s))
            && (|SanitizeMrkdwn(s)| > maxChars ==>
                  exists p :: LongestFittingPrefix(p, Fold(s), maxChars - 1) && r == Escape(p) + [ELLIPSIS])
  {
    var t := Fold(s);
    SanitizeIsEscapeOfFold(s);
    if |Escape(t)| <= maxChars {
      ShortTextIsKept(t, maxChars);
    } else {
      CutTextEndsCleanly(t, maxChars - 1);
    }
  }

  /** A text that ends in an ellipsis of its own is not taken for a cut one. */
  lemma ShortTextIsKept(t: string, maxChars: nat)
    requires 1 <= maxChars && |Escape(t)| <= maxChars
    ensures TruncateMrkdwn(Escape(t), maxChars) == Escape(t)
  {
    var pos := LastAmpersand(Escape(t));
    if pos < |Escape(t)| {
      EntitiesAreClosed(t, pos);
    }
  }

  /** The escape of a text, cut one short of a limit it exceeds. */
  lemma CutTextEndsCleanly(t: string, room: nat)
    requires |Escape(t)| > room + 1
    ensures exists p :: LongestFittingPrefix(p, t, room) && TruncateMrkdwn(Escape(t), room + 1) == Escape(p) + [ELLIPSIS]
  {
    var k := FittingCount(t, room);
    var p := t[..k];
    CutStructure(t, room);
    var part := Encode(t[k], MRKDWN)[..room - |Escape(p)|];
    var cut := Escape(t)[..room] + [ELLIPSIS];
    assert TruncateChars(Escape(t), room + 1) == cut;
    assert cut == Escape(p) + part + [ELLIPSIS];
    CutIsCleaned(Escape(t), p, t[k], part, room);
    FittingIsLongest(t, room);
  }

  /** A cut after the escape of `p` and part of the escape of `c` drops that part. */
  lemma CutIsCleaned(escaped: string, p: string, c: char, part: string, room: nat)
    requires TruncateChars(escaped, room + 1) == Escape(p) + part + [ELLIPSIS]
    requires part <= Encode(c, MRKDWN) && |part| < |Encode(c, MRKDWN)|
    ensures TruncateMrkdwn(escaped, room + 1) == Escape(p) + [ELLIPSIS]
  {
    if part == "" {
      assert Escape(p) + part + [ELLIPSIS] == Escape(p) + [ELLIPSIS];
      WholeEntitiesAreKept(p);
    } else {
      PartOfEntity(c, |part|);
      PartialEntityIsDropped(Escape(p), part);
    }
  }

  lemma FittingIsLongest(t: string, room: nat)
    requires |Escape(t)| > room
    ensures LongestFittingPrefix(t[..FittingCount(t, room)], t, room)
  {
    var p := t[..FittingCount(t, room)];
    CutStructure(t, room);
    forall q | q <= t && |q| > |p| ensures |Escape(q)| > room {
      EscapeOfLongerPrefix(p, q, t);
    }
  }
}
