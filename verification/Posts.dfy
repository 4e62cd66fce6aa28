/**
 The recent-posts section of the prompt (src/llm.rs): posts share one character budget, and what
 the budget does not reach is counted instead of shown.
 */
module Posts {
  import opened Wrappers
  import opened Text

  const FIELD_MAX_CHARS: nat := 200
  const POST_MAX_CHARS: nat := 500
  const POSTS_TOTAL_MAX_CHARS: nat := 4_000

  /** A post as the section needs it, its text already extracted and made plain. */
  datatype Post = Post(text: string, language: Option<string>, createdAt: string, url: Option<string>)

  datatype Line =
    | Header
    | NoPosts
    | PostLine(created: string, language: string, source: string, text: string)
    | Omitted(count: nat)

  function GetOr(value: Option<string>, default: string): string {
    match value
    case Some(v) => v
    case None => default
  }

  /** The post texts shown for `texts` when `budget` characters are left. */
  function Shown(texts: seq<string>, budget: nat): (shown: seq<string>)
    ensures |shown| <= |texts|
  {
    if texts == [] then []
    else
      var post := TruncateChars(texts[0], Min(POST_MAX_CHARS, budget));
      assert |post| <= budget;
      [post] + (if |post| == budget then [] else Shown(texts[1..], budget - |post|))
  }

  function TextsOf(posts: seq<Post>): (texts: seq<string>)
    ensures |texts| == |posts|
    ensures forall i :: 0 <= i < |texts| ==> texts[i] == posts[i].text
  {
    seq(|posts|, i requires 0 <= i < |posts| => posts[i].text)
  }

  function LineFor(post: Post, text: string): Line {
    PostLine(
      if post.createdAt == "" then "unknown" else post.createdAt,
      GetOr(post.language, "unknown"),
      TruncateChars(GetOr(post.url, "unknown"), FIELD_MAX_CHARS),
      text)
  }

  /** The line of a post names its time, language and source where they are given, and shows the text as it stands. */
  lemma LineShowsThePost(post: Post, text: string)
    ensures var line := LineFor(post, text);
            && line.PostLine? && line.text == text
            && line.created == (if post.createdAt == "" then "unknown" else post.createdAt)
            && (post.language == None ==> line.language == "unknown")
            && (post.language.Some? ==> line.language == post.language.value)
            && (post.url == None ==> line.source == "unknown")
            && (post.url.Some? ==> |line.source| == Min(|post.url.value|, 200) && IsShortenedTo(post.url.value, line.source))
  {
  }

  function LinesFor(posts: seq<Post>, shown: seq<string>): seq<Line>
    requires |shown| <= |posts|
  {
    seq(|shown|, i requires 0 <= i < |shown| => LineFor(posts[i], shown[i]))
  }

  function Section(posts: seq<Post>, shown: seq<string>): seq<Line>
    requires |shown| <= |posts|
  {
    var omitted := |posts| - |shown|;
    [Header] + LinesFor(posts, shown) + (if omitted > 0 then [Omitted(omitted)] else [])
  }

  /** The whole section. */
  function RecentPosts(posts: seq<Post>): seq<Line> {
    if posts == [] then [Header, NoPosts] else Section(posts, Shown(TextsOf(posts), POSTS_TOTAL_MAX_CHARS))
  }

  /** What the loop has emitted so far and what it has still to spend. */
  ghost predicate SpentSoFar(texts: seq<string>, total: nat, emitted: seq<string>, budget: nat) {
    && |emitted| <= |texts|
    && Shown(texts, total) == emitted + (if budget == 0 then [] else Shown(texts[|emitted|..], budget))
  }

  lemma SpendOne(texts: seq<string>, total: nat, emitted: seq<string>, budget: nat)
    requires budget > 0 && |emitted| < |texts| && SpentSoFar(texts, total, emitted, budget)
    ensures var post := TruncateChars(texts[|emitted|], Min(POST_MAX_CHARS, budget));
            |post| <= budget && SpentSoFar(texts, total, emitted + [post], budget - |post|)
  {
    var k := |emitted|;
    var post := TruncateChars(texts[k], Min(POST_MAX_CHARS, budget));
    assert texts[k..][0] == texts[k] && texts[k..][1..] == texts[k + 1..];
    var rest := if |post| == budget then [] else Shown(texts[k + 1..], budget - |post|);
    assert Shown(texts[k..], budget) == [post] + rest;
    AppendAssociates(emitted, post, rest);
  }

  lemma AppendAssociates(a: seq<string>, x: string, b: seq<string>)
    ensures a + ([x] + b) == (a + [x]) + b
  {
  }

  lemma LinesGrow(posts: seq<Post>, emitted: seq<string>, text: string)
    requires |emitted| < |posts|
    ensures LinesFor(posts, emitted + [text]) == LinesFor(posts, emitted) + [LineFor(posts[|emitted|], text)]
  {
  }

  /** The loop of `append_recent_posts`. The budget is a `nat`, so the subtraction never underflows. */
  method ShowPosts(posts: seq<Post>, total: nat) returns (lines: seq<Line>)
    requires total > 0
    ensures lines == LinesFor(posts, Shown(TextsOf(posts), total))
  {
    lines := [];
    var budget := total;
    ghost var texts := TextsOf(posts);
    ghost var emitted: seq<string> := [];
    assert texts[0..] == texts;
    for reached := 0 to |posts|
      invariant reached == |emitted| == |lines|
      invariant budget > 0
      invariant SpentSoFar(texts, total, emitted, budget)
      invariant lines == LinesFor(posts, emitted)
    {
      var text := TruncateChars(posts[reached].text, Min(POST_MAX_CHARS, budget));
      SpendOne(texts, total, emitted, budget);
      LinesGrow(posts, emitted, text);
      budget := budget - |text|;
      lines := lines + [LineFor(posts[reached], text)];
      emitted := emitted + [text];
      if budget == 0 {
        break;
      }
    }
    assert emitted == Shown(texts, total);
  }

  /** `append_recent_posts`: the posts the budget reaches, then a count of the rest. */
  method AppendRecentPosts(prompt: seq<Line>, posts: seq<Post>) returns (extended: seq<Line>)
    ensures extended == prompt + RecentPosts(posts)
    ensures posts == [] ==> extended == prompt + [Header, NoPosts]
  {
    if posts == [] {
      return prompt + [Header, NoPosts];
    }
    var lines := ShowPosts(posts, POSTS_TOTAL_MAX_CHARS);
    var omitted := |posts| - |lines|;
    extended := prompt + ([Header] + lines + (if omitted > 0 then [Omitted(omitted)] else []));
  }

  function TotalChars(texts: seq<string>): nat {
    if texts == [] then 0 else |texts[0]| + TotalChars(texts[1..])
  }

  /** What a reader may expect of a shortened text: itself, or a prefix of it and an ellipsis. */
  predicate IsShortenedTo(text: string, shown: string) {
    shown == text || (shown != "" && shown[|shown| - 1] == ELLIPSIS && shown[..|shown| - 1] <= text)
  }

  lemma {:induction false} BudgetIsShared(texts: seq<string>, budget: nat)
    requires budget > 0
    ensures var shown := Shown(texts, budget);
            && TotalChars(shown) <= budget
            && (|shown| < |texts| ==> TotalChars(shown) == budget && |shown| * POST_MAX_CHARS >= budget)
            && forall i :: 0 <= i < |shown| ==> |shown[i]| <= POST_MAX_CHARS && IsShortenedTo(texts[i], shown[i])
  {
    if texts != [] {
      var shown := Shown(texts, budget);
      var left := budget - |shown[0]|;
      if left > 0 {
        BudgetIsShared(texts[1..], left);
      }
      forall i | 0 <= i < |shown|
        ensures |shown[i]| <= POST_MAX_CHARS && IsShortenedTo(texts[i], shown[i])
      {
        if i > 0 {
          assert shown[i] == shown[1..][i - 1] && texts[i] == texts[1..][i - 1];
        }
      }
    }
  }

  lemma SectionLayout(posts: seq<Post>, shown: seq<string>)
    requires |shown| <= |posts|
    ensures var section := Section(posts, shown);
            && |section| == 1 + |shown| + (if |shown| < |posts| then 1 else 0)
            && (forall i :: 0 <= i < |shown| ==> section[i + 1] == LineFor(posts[i], shown[i]))
            && (|shown| < |posts| ==> section[|shown| + 1] == Omitted(|posts| - |shown|))
  {
  }

  /**
   The section spends at most 4,000 characters on post text and 500 on each post, accounts for
   every post as shown or omitted, always shows the first eight, and omits only once the whole
   budget is spent.
   */
  lemma SectionIsBounded(posts: seq<Post>)
    requires posts != []
    ensures var shown := Shown(TextsOf(posts), POSTS_TOTAL_MAX_CHARS);
            && RecentPosts(posts)[0] == Header
            && TotalChars(shown) <= 4_000
            && (forall i :: 0 <= i < |shown| ==>
                  && |shown[i]| <= 500
                  && IsShortenedTo(posts[i].text, shown[i])
                  && RecentPosts(posts)[i + 1] == LineFor(posts[i], shown[i]))
            && |shown| >= Min(|posts|, 8)
            && (|shown| == |posts| ==> |RecentPosts(posts)| == 1 + |shown|)
            && (|shown| < |posts| ==>
                  && |RecentPosts(posts)| == 2 + |shown|
                  && RecentPosts(posts)[|shown| + 1] == Omitted(|posts| - |shown|)
                  && TotalChars(shown) == 4_000)
  {
    var texts := TextsOf(posts);
    BudgetIsShared(texts, POSTS_TOTAL_MAX_CHARS);
    SectionLayout(posts, Shown(texts, POSTS_TOTAL_MAX_CHARS));
  }
}
