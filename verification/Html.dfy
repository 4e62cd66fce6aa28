/**
 What `html_to_plain` (src/signals.rs) makes of markup: tags vanish, the three forms of a line break and
 the border of two paragraphs become newlines, and coded characters are decoded, quotes included.
 */
module Html {
  import opened Text
  import opened Markup

  // ---------------------------------------------------------------------------------------------
  // The scan

  /** A tag has been opened and not closed before position `i`. */
  ghost predicate InsideTag(s: string, i: nat)
    requires i <= |s|
  {
    exists j :: 0 <= j < i && s[j] == '<' && '>' !in s[j..i]
  }

  /** The characters before position `i` that are neither angle brackets nor inside a tag. */
  ghost function OutsideTags(s: string, i: nat): string
    requires i <= |s|
  {
    if i == 0 then ""
    else
      OutsideTags(s, i - 1) + (if s[i - 1] == '<' || s[i - 1] == '>' || InsideTag(s, i - 1) then "" else [s[i - 1]])
  }

  /** Whether the scan is inside a tag after the text. */
  function EndsInTag(s: string, inTag: bool): bool {
    if s == "" then inTag
    else EndsInTag(s[1..], if s[0] == '<' then true else if s[0] == '>' then false else inTag)
  }

  lemma {:induction false} ScanOneMore(s: string, c: char, inTag: bool)
    ensures EndsInTag(s + [c], inTag) == if c == '<' then true else if c == '>' then false else EndsInTag(s, inTag)
    ensures StripTags(s + [c], inTag) == StripTags(s, inTag) + (if c == '<' || c == '>' || EndsInTag(s, inTag) then "" else [c])
  {
    if s == "" {
      assert (s + [c])[1..] == "";
    } else {
      assert (s + [c])[1..] == s[1..] + [c];
      ScanOneMore(s[1..], c, if s[0] == '<' then true else if s[0] == '>' then false else inTag);
    }
  }

  lemma OneMoreInside(s: string, i: nat)
    requires i < |s|
    ensures InsideTag(s, i + 1) <==> s[i] == '<' || (s[i] != '>' && InsideTag(s, i))
  {
    if s[i] == '<' {
      assert s[i..i + 1] == [s[i]];
    } else {
      forall j | 0 <= j < i ensures '>' in s[j..i + 1] <==> '>' in s[j..i] || s[i] == '>' {
        assert s[j..i + 1] == s[j..i] + [s[i]];
      }
    }
  }

  lemma {:induction false} ScanReaches(s: string, i: nat)
    requires i <= |s|
    ensures EndsInTag(s[..i], false) == InsideTag(s, i)
    ensures StripTags(s[..i], false) == OutsideTags(s, i)
  {
    if i > 0 {
      ScanReaches(s, i - 1);
      assert s[..i] == s[..i - 1] + [s[i - 1]];
      ScanOneMore(s[..i - 1], s[i - 1], false);
      OneMoreInside(s, i - 1);
    }
  }

  /** The scan keeps, of any text, exactly the characters that are neither angle brackets nor inside a tag. */
  lemma ScanKeepsWhatIsOutside(s: string)
    ensures StripTags(s, false) == OutsideTags(s, |s|)
  {
    ScanReaches(s, |s|);
    assert s[..|s|] == s;
  }

  // ---------------------------------------------------------------------------------------------
  // Markup

  datatype Piece =
    | Words(text: string)
    | Tag(body: string)
    | Break(form: nat)

  /** The forms of a break, in the order in which they are replaced. */
  function BreakForm(form: nat): (pattern: string)
    ensures pattern != "" && pattern[0] == '<'
  {
    if form == 0 then "<br>" else if form == 1 then "<br/>" else if form == 2 then "<br />" else "</p><p>"
  }

  function BreakText(form: nat): string {
    if form < 3 then "\n" else "\n\n"
  }

  /** A piece, once the first `done` forms of a break have been replaced. */
  function Render(piece: Piece, coding: Coding, done: nat): string {
    match piece
    case Words(text) => Escape(text, coding)
    case Tag(body) => "<" + body + ">"
    case Break(form) => if form < done then BreakText(form) else BreakForm(form)
  }

  function RenderAll(pieces: seq<Piece>, coding: Coding, done: nat): string {
    if pieces == [] then "" else Render(pieces[0], coding, done) + RenderAll(pieces[1..], coding, done)
  }

  /** What a reader sees of a piece. */
  function Seen(piece: Piece): string {
    match piece
    case Words(text) => text
    case Tag(_) => ""
    case Break(form) => BreakText(form)
  }

  function Plain(pieces: seq<Piece>): string {
    if pieces == [] then "" else Seen(pieces[0]) + Plain(pieces[1..])
  }

  /** The pieces are told apart as they stand: a tag is no break, nor is one together with its next. */
  predicate WellFormed(pieces: seq<Piece>) {
    && (forall i :: 0 <= i < |pieces| ==>
          match pieces[i]
          case Words(_) => true
          case Tag(body) => '<' !in body && '>' !in body && body !in {"br", "br/", "br /"}
          case Break(form) => form <= 3)
    && (forall i :: 0 <= i < |pieces| - 1 && pieces[i] == Tag("/p") ==> pieces[i + 1] != Tag("p") && pieces[i + 1] != Words(""))
  }

  // ---------------------------------------------------------------------------------------------
  // The replacements

  /** A text without the first character of the pattern is copied. */
  lemma {:induction false} ReplaceSkips(head: string, pattern: string, to: string, rest: string)
    requires pattern != "" && pattern[0] !in head
    ensures Replace(head + rest, pattern, to) == head + Replace(rest, pattern, to)
  {
    if head == "" {
      assert head + rest == rest;
    } else {
      assert (head + rest)[0] == head[0] && (head + rest)[1..] == head[1..] + rest;
      ReplaceSkips(head[1..], pattern, to, rest);
      assert head == [head[0]] + head[1..];
    }
  }

  lemma TagIsCopied(body: string, pattern: string, to: string, rest: string)
    requires '<' !in body && pattern != "" && pattern[0] == '<' && !StartsWith("<" + body + ">" + rest, pattern)
    ensures Replace("<" + body + ">" + rest, pattern, to) == "<" + body + ">" + Replace(rest, pattern, to)
  {
    var head := "<" + body + ">";
    forall i | 1 <= i < |head| ensures head[i] != '<' {
      if i - 1 < |body| {
        assert head[i] == body[i - 1];
      }
    }
    ReplaceCopies(head, pattern, to, rest);
  }

  /** Two tags that begin the same text are the same tag. */
  lemma {:induction false} TagsAreTold(body: string, other: string, rest: string)
    requires '>' !in body && '>' !in other
    ensures StartsWith(body + (">" + rest), other + ">") ==> body == other
  {
    var s, t := body + (">" + rest), other + ">";
    if body == "" && other != "" {
      assert s[0] == '>' && t[0] == other[0] && other[0] in other;
    } else if body != "" && other == "" {
      assert t[0] == '>' && s[0] == body[0] && body[0] in body;
    } else if body != "" {
      assert s[0] == body[0] && t[0] == other[0];
      assert s[1..] == body[1..] + (">" + rest) && t[1..] == other[1..] + ">";
      TagsAreTold(body[1..], other[1..], rest);
      assert StartsWith(s, t) ==> StartsWith(s[1..], t[1..]);
      assert body == [body[0]] + body[1..] && other == [other[0]] + other[1..];
    }
  }

  lemma TagStarts(body: string, other: string, rest: string)
    requires '>' !in body && '>' !in other
    ensures StartsWith("<" + body + ">" + rest, "<" + other + ">") ==> body == other
  {
    var s, t := "<" + body + ">" + rest, "<" + other + ">";
    assert s[1..] == body + (">" + rest) && t[1..] == other + ">";
    TagsAreTold(body, other, rest);
    assert StartsWith(s, t) ==> StartsWith(s[1..], t[1..]);
  }

  lemma EscapeStarts(text: string, coding: Coding)
    requires text != "" && coding.lt && coding.gt
    ensures Escape(text, coding) != "" && Escape(text, coding)[0] != '<'
  {
    EscapeHasNoTags(text, coding);
  }

  /** Only the tag itself begins what starts with `<p>`. */
  lemma ParagraphStarts(pieces: seq<Piece>, coding: Coding)
    requires WellFormed(pieces) && coding.lt && coding.gt
    ensures StartsWith(RenderAll(pieces, coding, 3), "<p>") ==> pieces != [] && (pieces[0] == Tag("p") || pieces[0] == Words(""))
  {
    if pieces != [] && pieces[0] != Words("") {
      var rest := RenderAll(pieces[1..], coding, 3);
      match pieces[0] {
        case Words(text) =>
          EscapeStarts(text, coding);
          assert RenderAll(pieces, coding, 3)[0] == Escape(text, coding)[0];
        case Tag(body) =>
          TagStarts(body, "p", rest);
          assert "<" + "p" + ">" == "<p>";
        case Break(form) =>
          assert RenderAll(pieces, coding, 3)[0] == '\n' || RenderAll(pieces, coding, 3)[1] == '/';
      }
    }
  }

  /** Replacing one form of a break leaves every other piece alone. */
  lemma BreakIsReplaced(piece: Piece, next: seq<Piece>, coding: Coding, done: nat)
    requires WellFormed([piece] + next) && WellFormed(next) && coding.lt && coding.gt && done < 4
    ensures var rest := RenderAll(next, coding, done);
            Replace(Render(piece, coding, done) + rest, BreakForm(done), BreakText(done))
            == Render(piece, coding, done + 1) + Replace(rest, BreakForm(done), BreakText(done))
  {
    var rest := RenderAll(next, coding, done);
    var pattern, to := BreakForm(done), BreakText(done);
    assert ([piece] + next)[0] == piece;
    match piece {
      case Words(text) =>
        EscapeHasNoTags(text, coding);
        ReplaceSkips(Escape(text, coding), pattern, to, rest);
      case Tag(body) =>
        TagStartsNoBreak(body, next, coding, done);
        TagIsCopied(body, pattern, to, rest);
      case Break(form) =>
        if form < done {
          ReplaceSkips(BreakText(form), pattern, to, rest);
        } else if form == done {
          ReplaceMatched(pattern, to, rest);
        } else {
          LaterBreakIsCopied(form, pattern, to, rest, done);
        }
    }
  }

  lemma StartsWithIsPrefix(s: string, pattern: string)
    requires |pattern| <= |s|
    ensures StartsWith(s, pattern) <==> s[..|pattern|] == pattern
  {
    assert forall i :: 0 <= i < |pattern| ==> s[..|pattern|][i] == s[i];
  }

  lemma StartsInParts(s: string, a: string, b: string)
    ensures StartsWith(s, a + b) <==> |a| <= |s| && StartsWith(s, a) && StartsWith(s[|a|..], b)
  {
    if |a| + |b| <= |s| {
      StartsWithIsPrefix(s, a + b);
      StartsWithIsPrefix(s, a);
      StartsWithIsPrefix(s[|a|..], b);
      assert s[..|a + b|] == s[..|a|] + s[|a|..][..|b|];
    }
  }

  lemma TagStartsNoBreak(body: string, next: seq<Piece>, coding: Coding, done: nat)
    requires WellFormed([Tag(body)] + next) && WellFormed(next) && coding.lt && coding.gt && done < 4
    ensures !StartsWith("<" + body + ">" + RenderAll(next, coding, done), BreakForm(done))
  {
    var rest := RenderAll(next, coding, done);
    var s := "<" + body + ">" + rest;
    assert ([Tag(body)] + next)[0] == Tag(body);
    if done == 3 {
      TagStarts(body, "/p", rest);
      ParagraphStarts(next, coding);
      assert next != [] ==> ([Tag(body)] + next)[1] == next[0];
      assert "<" + "/p" + ">" == "</p>" && "</p>" + "<p>" == BreakForm(3);
      assert body == "/p" ==> s == "</p>" + rest;
      StartsInParts(s, "</p>", "<p>");
    } else {
      var other := if done == 0 then "br" else if done == 1 then "br/" else "br /";
      assert BreakForm(done) == "<" + other + ">";
      TagStarts(body, other, rest);
    }
  }

  /** A break of a form not yet reached is copied. */
  lemma LaterBreakIsCopied(form: nat, pattern: string, to: string, rest: string, done: nat)
    requires done < form <= 3 && pattern == BreakForm(done)
    ensures Replace(BreakForm(form) + rest, pattern, to) == BreakForm(form) + Replace(rest, pattern, to)
  {
    if form < 3 {
      var body := if form == 1 then "br/" else "br /";
      assert BreakForm(form) == "<" + body + ">";
      assert ("<" + body + ">" + rest)[3] == body[2] != pattern[3];
      TagIsCopied(body, pattern, to, rest);
    } else {
      BorderIsCopied(pattern, to, rest, done);
    }
  }

  /** The border of two paragraphs is two tags, neither of which is a line break. */
  lemma BorderIsCopied(pattern: string, to: string, rest: string, done: nat)
    requires done < 3 && pattern == BreakForm(done)
    ensures Replace("</p><p>" + rest, pattern, to) == "</p><p>" + Replace(rest, pattern, to)
  {
    var second := "<" + "p" + ">" + rest;
    assert "</p><p>" + rest == "<" + "/p" + ">" + second;
    assert ("<" + "/p" + ">" + second)[1] != pattern[1] && second[1] != pattern[1];
    TagIsCopied("/p", pattern, to, second);
    TagIsCopied("p", pattern, to, rest);
    assert "<" + "/p" + ">" + ("<" + "p" + ">" + Replace(rest, pattern, to)) == "</p><p>" + Replace(rest, pattern, to);
  }

  lemma {:induction false} BreaksAreReplaced(pieces: seq<Piece>, coding: Coding, done: nat)
    requires WellFormed(pieces) && coding.lt && coding.gt && done < 4
    ensures Replace(RenderAll(pieces, coding, done), BreakForm(done), BreakText(done)) == RenderAll(pieces, coding, done + 1)
  {
    if pieces != [] {
      assert [pieces[0]] + pieces[1..] == pieces;
      BreaksAreReplaced(pieces[1..], coding, done);
      BreakIsReplaced(pieces[0], pieces[1..], coding, done);
    }
  }

  // ---------------------------------------------------------------------------------------------
  // The tags, and the whole

  lemma {:induction false} ScanKeepsText(text: string, rest: string)
    requires '<' !in text && '>' !in text
    ensures StripTags(text + rest, false) == text + StripTags(rest, false)
  {
    if text == "" {
      assert text + rest == rest;
    } else {
      assert (text + rest)[0] == text[0] && text[0] in text && (text + rest)[1..] == text[1..] + rest;
      ScanKeepsText(text[1..], rest);
      assert text == [text[0]] + text[1..];
    }
  }

  lemma {:induction false} ScanSkipsBody(body: string, rest: string)
    requires '<' !in body && '>' !in body
    ensures StripTags(body + (">" + rest), true) == StripTags(rest, false)
  {
    if body == "" {
      assert body + (">" + rest) == ">" + rest && (">" + rest)[1..] == rest;
    } else {
      assert (body + (">" + rest))[0] == body[0] && body[0] in body && (body + (">" + rest))[1..] == body[1..] + (">" + rest);
      ScanSkipsBody(body[1..], rest);
    }
  }

  lemma ScanSkipsTag(body: string, rest: string)
    requires '<' !in body && '>' !in body
    ensures StripTags("<" + body + ">" + rest, false) == StripTags(rest, false)
  {
    assert ("<" + body + ">" + rest)[1..] == body + (">" + rest);
    ScanSkipsBody(body, rest);
  }

  /** The scan of pieces with all breaks replaced leaves the escape of what a reader sees. */
  lemma {:induction false} TagsAreStripped(pieces: seq<Piece>, coding: Coding)
    requires WellFormed(pieces) && coding.lt && coding.gt
    ensures StripTags(RenderAll(pieces, coding, 4), false) == Escape(Plain(pieces), coding)
  {
    if pieces != [] {
      var rest := RenderAll(pieces[1..], coding, 4);
      TagsAreStripped(pieces[1..], coding);
      match pieces[0] {
        case Words(text) =>
          EscapeHasNoTags(text, coding);
          ScanKeepsText(Escape(text, coding), rest);
          EscapeConcat(text, Plain(pieces[1..]), coding);
        case Tag(body) =>
          ScanSkipsTag(body, rest);
          assert "" + Plain(pieces[1..]) == Plain(pieces[1..]);
        case Break(form) =>
          ScanKeepsText(BreakText(form), rest);
          BreakTextIsPlain(form, coding);
          EscapeConcat(BreakText(form), Plain(pieces[1..]), coding);
      }
    }
  }

  lemma BreakTextIsPlain(form: nat, coding: Coding)
    ensures Escape(BreakText(form), coding) == BreakText(form)
  {
    assert "\n"[1..] == "" && "\n\n"[1..] == "\n";
    assert Escape("\n", coding) == "\n" + Escape("", coding) == "\n";
  }

  lemma AllBreaksAreReplaced(pieces: seq<Piece>, coding: Coding)
    requires WellFormed(pieces) && coding.lt && coding.gt
    ensures BreaksToNewlines(RenderAll(pieces, coding, 0)) == RenderAll(pieces, coding, 4)
  {
    forall done: nat | done < 4
      ensures Replace(RenderAll(pieces, coding, done), BreakForm(done), BreakText(done)) == RenderAll(pieces, coding, done + 1)
    {
      BreaksAreReplaced(pieces, coding, done);
    }
    FourReplacements(RenderAll(pieces, coding, 0), RenderAll(pieces, coding, 1), RenderAll(pieces, coding, 2),
                     RenderAll(pieces, coding, 3), RenderAll(pieces, coding, 4));
  }

  lemma FourReplacements(a: string, b: string, c: string, d: string, e: string)
    requires Replace(a, BreakForm(0), BreakText(0)) == b && Replace(b, BreakForm(1), BreakText(1)) == c
    requires Replace(c, BreakForm(2), BreakText(2)) == d && Replace(d, BreakForm(3), BreakText(3)) == e
    ensures BreaksToNewlines(a) == e
  {
  }

  /**
   Whatever texts, tags and breaks a document is made of, and whichever of its quotes are coded, the
   plain text is what a reader sees, trimmed.
   */
  lemma PlainTextIsWhatIsSeen(pieces: seq<Piece>, coding: Coding)
    requires WellFormed(pieces) && coding.lt && coding.gt
    ensures HtmlToPlain(RenderAll(pieces, coding, 0)) == Trim(Plain(pieces))
  {
    AllBreaksAreReplaced(pieces, coding);
    TagsAreStripped(pieces, coding);
    EntitiesDecodeEscape(Plain(pieces), coding);
  }

  // ---------------------------------------------------------------------------------------------
  // Markup as Mastodon writes it

  lemma OnePiece(piece: Piece, rest: seq<Piece>, coding: Coding)
    ensures RenderAll([piece] + rest, coding, 0) == Render(piece, coding, 0) + RenderAll(rest, coding, 0)
    ensures Plain([piece] + rest) == Seen(piece) + Plain(rest)
  {
    assert ([piece] + rest)[1..] == rest;
  }

  lemma ThreePieces(a: Piece, b: Piece, c: Piece, rest: seq<Piece>, coding: Coding)
    ensures RenderAll([a, b, c] + rest, coding, 0)
         == Render(a, coding, 0) + Render(b, coding, 0) + Render(c, coding, 0) + RenderAll(rest, coding, 0)
    ensures Plain([a, b, c] + rest) == Seen(a) + Seen(b) + Seen(c) + Plain(rest)
  {
    var two := [c] + rest;
    var three := [b] + two;
    OnePiece(c, rest, coding);
    OnePiece(b, two, coding);
    OnePiece(a, three, coding);
    assert [a, b, c] + rest == [a] + three;
    Regroup(Render(a, coding, 0), Render(b, coding, 0), Render(c, coding, 0), RenderAll(rest, coding, 0));
    Regroup(Seen(a), Seen(b), Seen(c), Plain(rest));
  }

  lemma Regroup(a: string, b: string, c: string, d: string)
    ensures a + (b + (c + d)) == a + b + c + d
  {
  }

  /** The pieces of two paragraphs. */
  function Paragraphs(x: string, y: string): (pieces: seq<Piece>)
    ensures WellFormed(pieces)
  {
    [Tag("p"), Words(x), Break(3)] + [Words(y), Tag("/p")]
  }

  lemma ParagraphsAre(x: string, y: string, coding: Coding)
    ensures RenderAll(Paragraphs(x, y), coding, 0) == "<p>" + Escape(x, coding) + "</p><p>" + Escape(y, coding) + "</p>"
    ensures Plain(Paragraphs(x, y)) == x + "\n\n" + y
  {
    var end := [Tag("/p")];
    ThreePieces(Tag("p"), Words(x), Break(3), [Words(y)] + end, coding);
    assert [Words(y)] + end == [Words(y), Tag("/p")];
    OnePiece(Words(y), end, coding);
    assert end == [Tag("/p")] + [];
    OnePiece(Tag("/p"), [], coding);
    NothingAfter("<" + "/p" + ">");
    NothingAfter("");
    FlatParagraphs(Escape(x, coding), Escape(y, coding), x, y);
  }

  lemma NothingAfter(s: string)
    ensures s + "" == s
  {
  }

  lemma FlatParagraphs(a: string, b: string, x: string, y: string)
    ensures "<" + "p" + ">" + a + "</p><p>" + (b + ("<" + "/p" + ">")) == "<p>" + a + "</p><p>" + b + "</p>"
    ensures "" + x + "\n\n" + (y + "") == x + "\n\n" + y
  {
  }

  /** The reading of pieces, by the texts they make up. */
  lemma ReadsAs(pieces: seq<Piece>, coding: Coding, html: string, plain: string)
    requires WellFormed(pieces) && coding.lt && coding.gt
    requires RenderAll(pieces, coding, 0) == html && Plain(pieces) == plain
    ensures HtmlToPlain(html) == Trim(plain)
  {
    PlainTextIsWhatIsSeen(pieces, coding);
  }

  /** Two paragraphs become their texts with an empty line between them. */
  lemma TwoParagraphs(x: string, y: string, coding: Coding)
    requires coding.lt && coding.gt
    ensures HtmlToPlain("<p>" + Escape(x, coding) + "</p><p>" + Escape(y, coding) + "</p>") == Trim(x + "\n\n" + y)
  {
    ParagraphsAre(x, y, coding);
    ReadsAs(Paragraphs(x, y), coding, "<p>" + Escape(x, coding) + "</p><p>" + Escape(y, coding) + "</p>", x + "\n\n" + y);
  }

  /** A line break in each of its forms is a newline, whatever stands around it. */
  lemma BreakIsNewline(x: string, form: nat, y: string, coding: Coding)
    requires coding.lt && coding.gt && form < 3
    ensures HtmlToPlain(Escape(x, coding) + (if form == 0 then "<br>" else if form == 1 then "<br/>" else "<br />") + Escape(y, coding))
         == Trim(x + "\n" + y)
  {
    var all := [Words(x), Break(form), Words(y)] + [];
    ThreePieces(Words(x), Break(form), Words(y), [], coding);
    NothingAfter(Escape(x, coding) + BreakForm(form) + Escape(y, coding));
    NothingAfter(x + "\n" + y);
    PlainTextIsWhatIsSeen(all, coding);
  }

  /** The five entities, as they are written. */
  lemma EntitiesAsWritten()
    ensures var all := Coding(true, true, true, true);
            && Encode('&', all) == "&amp;" && Encode('<', all) == "&lt;" && Encode('>', all) == "&gt;"
            && Encode('"', all) == "&quot;" && Encode('\'', all) == "&#39;"
  {
  }

  /** An entity on its own is decoded to its character, and so is a character that is written as it is. */
  lemma EntityIsDecoded(c: char, coding: Coding, html: string)
    requires !IsWhitespace(c) && coding.lt && coding.gt && html == Escape([c], coding)
    ensures HtmlToPlain(html) == [c]
    ensures html == Encode(c, coding)
  {
    OneCharEscapes(c, coding);
    OneText([c], coding);
    ReadsAs([Words([c])], coding, html, [c]);
    OneCharStays(c);
  }

  lemma OneText(text: string, coding: Coding)
    ensures RenderAll([Words(text)], coding, 0) == Escape(text, coding) && Plain([Words(text)]) == text
  {
    assert [Words(text)] + [] == [Words(text)];
    OnePiece(Words(text), [], coding);
    NothingAfter(Escape(text, coding));
    NothingAfter(text);
  }

  lemma OneCharStays(c: char)
    requires !IsWhitespace(c)
    ensures Trim([c]) == [c]
  {
  }

  /** Slack text has three of the five characters coded, and everything else in a word as it is. */
  lemma SlackCodesThree(c: char)
    requires !IsWhitespace(c)
    ensures SanitizeMrkdwn([c]) == if c == '&' then "&amp;" else if c == '<' then "&lt;" else if c == '>' then "&gt;" else [c]
  {
    OneCharEscapes(c, MRKDWN);
    SanitizeIsEscapeOfFold([c]);
    OneWordFolds([c]);
  }

  lemma OneCharEscapes(c: char, coding: Coding)
    ensures Escape([c], coding) == Encode(c, coding)
  {
    assert [c][1..] == "";
    NothingAfter(Encode(c, coding));
  }

  lemma OneWordFolds(w: string)
    requires IsWord(w)
    ensures Fold(w) == w
  {
    WordThenRest(w, "");
    NothingAfter(w);
  }
}
