/**
 Mastodon account IDs (src/ids.rs): unpadded decimals kept as text, ordered by length and then
 textually. This module proves that the textual order is the order of the integers denoted, which
 is what lets the protocol modules use `nat` for an account ID.
 */
module Ids {
  import opened Wrappers

  predicate IsDigit(c: char) {
    '0' <= c <= '9'
  }

  /** `is_numeric_id`: a non-empty run of ASCII digits. */
  predicate IsNumericId(id: string) {
    id != "" && forall i :: 0 <= i < |id| ==> IsDigit(id[i])
  }

  /** What Mastodon issues: a decimal without leading zeros. `is_numeric_id` does not enforce it. */
  predicate Unpadded(id: string) {
    IsNumericId(id) && (|id| == 1 || id[0] != '0')
  }

  function Digit(c: char): nat
    requires IsDigit(c)
  {
    c as int - '0' as int
  }

  function Pow10(n: nat): (p: nat)
    ensures p > 0
  {
    if n == 0 then 1 else 10 * Pow10(n - 1)
  }

  /** The integer a run of digits denotes. */
  function Value(id: string): nat
    requires forall i :: 0 <= i < |id| ==> IsDigit(id[i])
  {
    if id == "" then 0 else Digit(id[0]) * Pow10(|id| - 1) + Value(id[1..])
  }

  /** One more digit is ten times the value and that digit: the numerals are decimal. */
  lemma {:induction false} ValueIsDecimal(id: string, c: char)
    requires (forall i :: 0 <= i < |id| ==> '0' <= id[i] <= '9') && '0' <= c <= '9'
    ensures Value("") == 0 && Value(id + [c]) == 10 * Value(id) + (c as int - 48)
  {
    if id == "" {
      assert id + [c] == [c] && [c][1..] == "";
      assert Value([c]) == Digit(c) * Pow10(0) + Value("");
    } else {
      assert (id + [c])[1..] == id[1..] + [c];
      ValueIsDecimal(id[1..], c);
      assert Pow10(|id|) == 10 * Pow10(|id| - 1);
      assert Value(id + [c]) == Digit(id[0]) * Pow10(|id|) + Value(id[1..] + [c]);
      TenTimes(Digit(id[0]), Pow10(|id| - 1));
    }
  }

  lemma TenTimes(a: nat, b: nat)
    ensures a * (10 * b) == 10 * (a * b)
  {
  }

  /** Textual (byte) comparison, as `str::cmp` and Lua's `>` on ASCII text. */
  function TextCmp(a: string, b: string): Ordering {
    if a == "" && b == "" then Equal
    else if a == "" then Less
    else if b == "" then Greater
    else if a[0] < b[0] then Less
    else if a[0] > b[0] then Greater
    else TextCmp(a[1..], b[1..])
  }

  function IntCmp(a: int, b: int): Ordering {
    if a < b then Less else if a == b then Equal else Greater
  }

  /** `numeric_id_cmp`: length first, then text. */
  function NumericIdCmp(a: string, b: string): Ordering {
    match IntCmp(|a|, |b|)
    case Equal => TextCmp(a, b)
    case other => other
  }

  lemma ScaledGap(a: nat, b: nat, unit: nat)
    requires a < b
    ensures a * unit + unit <= b * unit
  {
    var excess: nat := b - a - 1;
    assert b == a + 1 + excess;
    assert b * unit == a * unit + unit + excess * unit;
  }

  lemma {:induction false} ValueBelowPow10(id: string)
    requires forall i :: 0 <= i < |id| ==> IsDigit(id[i])
    ensures Value(id) < Pow10(|id|)
  {
    if id == "" {
    } else {
      ValueBelowPow10(id[1..]);
      ScaledGap(Digit(id[0]), 10, Pow10(|id| - 1));
    }
  }

  lemma UnpaddedAtLeast(id: string)
    requires Unpadded(id) && |id| > 1
    ensures Value(id) >= Pow10(|id| - 1)
  {
    ScaledGap(0, Digit(id[0]), Pow10(|id| - 1));
  }

  lemma {:induction false} Pow10Monotone(m: nat, n: nat)
    requires m <= n
    ensures Pow10(m) <= Pow10(n)
  {
    if m < n {
      Pow10Monotone(m, n - 1);
    }
  }

  lemma LeadingDigitDecides(a: string, b: string)
    requires |a| == |b| && a != ""
    requires forall i :: 0 <= i < |a| ==> IsDigit(a[i]) && IsDigit(b[i])
    requires a[0] < b[0]
    ensures Value(a) < Value(b)
  {
    ValueBelowPow10(a[1..]);
    ScaledGap(Digit(a[0]), Digit(b[0]), Pow10(|a| - 1));
  }

  /** For runs of digits of one length, textual order is numeric order, padded or not. */
  lemma {:induction false} SameLengthTextOrder(a: string, b: string)
    requires |a| == |b|
    requires forall i :: 0 <= i < |a| ==> IsDigit(a[i]) && IsDigit(b[i])
    ensures TextCmp(a, b) == IntCmp(Value(a), Value(b))
    ensures TextCmp(a, b) == Equal <==> a == b
  {
    if a == "" {
    } else {
      if a[0] < b[0] {
        LeadingDigitDecides(a, b);
      } else if a[0] > b[0] {
        LeadingDigitDecides(b, a);
      } else {
        SameLengthTextOrder(a[1..], b[1..]);
        assert a == [a[0]] + a[1..] && b == [b[0]] + b[1..];
      }
    }
  }

  lemma ShorterIsSmaller(a: string, b: string)
    requires Unpadded(a) && Unpadded(b) && |a| < |b|
    ensures Value(a) < Value(b)
  {
    ValueBelowPow10(a);
    UnpaddedAtLeast(b);
    Pow10Monotone(|a|, |b| - 1);
  }

  /** Digit-string order is numeric order, and only identical text compares equal. */
  lemma CmpIsNumericOrder(a: string, b: string)
    requires Unpadded(a) && Unpadded(b)
    ensures NumericIdCmp(a, b) == IntCmp(Value(a), Value(b))
    ensures NumericIdCmp(a, b) == Less <==> Value(a) < Value(b)
    ensures NumericIdCmp(a, b) == Equal <==> a == b
    ensures Value(a) == Value(b) <==> a == b
  {
    if |a| < |b| {
      ShorterIsSmaller(a, b);
    } else if |a| > |b| {
      ShorterIsSmaller(b, a);
    } else {
      SameLengthTextOrder(a, b);
    }
  }

  /** `is_numeric_id` alone is not enough: a padded ID is misplaced by the comparison. */
  lemma PaddedIdsAreMisordered()
    ensures IsNumericId("05") && IsNumericId("7")
    ensures NumericIdCmp("05", "7") == Greater && Value("05") < Value("7")
  {
    assert Value("5") == 5 by { assert Value("5") == Digit('5') * Pow10(0) + Value(""); }
    assert "05"[1..] == "5";
    assert Value("7") == 7 by { assert Value("7") == Digit('7') * Pow10(0) + Value(""); }
  }

  /** The digits without leading zeros. */
  function Strip(id: string): string {
    if |id| > 1 && id[0] == '0' then Strip(id[1..]) else id
  }

  lemma {:induction false} StripKeepsValue(id: string)
    requires IsNumericId(id)
    ensures Unpadded(Strip(id)) && Value(Strip(id)) == Value(id)
    ensures |Strip(id)| <= |id| && (!Unpadded(id) ==> |Strip(id)| < |id|)
  {
    if |id| > 1 && id[0] == '0' {
      assert IsNumericId(id[1..]);
      assert Digit(id[0]) * Pow10(|id| - 1) == 0;
      StripKeepsValue(id[1..]);
    }
  }

  /** Among unpadded IDs an ID that passes validation is placed right exactly when it is unpadded too. */
  lemma OrderIsNumericIffUnpadded(id: string)
    requires IsNumericId(id)
    ensures (forall other :: Unpadded(other) ==> NumericIdCmp(other, id) == IntCmp(Value(other), Value(id))) <==> Unpadded(id)
  {
    if Unpadded(id) {
      forall other | Unpadded(other) ensures NumericIdCmp(other, id) == IntCmp(Value(other), Value(id)) {
        CmpIsNumericOrder(other, id);
      }
    } else {
      StripKeepsValue(id);
      assert NumericIdCmp(Strip(id), id) == Less;
    }
  }

  // ---------------------------------------------------------------------------------------------
  // The cursor script

  /** The Lua guard of `set_cursor`: longer, or as long and textually greater. */
  predicate Supersedes(current: Option<string>, candidate: string) {
    match current
    case None => true
    case Some(held) =>
      || |candidate| > |held|
      || (|candidate| == |held| && TextCmp(candidate, held) == Greater)
  }

  function SaveCursor(current: Option<string>, candidate: string): Option<string> {
    if Supersedes(current, candidate) then Some(candidate) else current
  }

  function SaveAll(current: Option<string>, saves: seq<string>): Option<string>
    decreases |saves|
  {
    if saves == [] then current else SaveAll(SaveCursor(current, saves[0]), saves[1..])
  }

  /** The script's guard and `numeric_id_cmp` are one order. */
  lemma ScriptGuardIsNumericOrder(held: string, candidate: string)
    requires Unpadded(held) && Unpadded(candidate)
    ensures Supersedes(Some(held), candidate) <==> NumericIdCmp(candidate, held) == Greater
    ensures Supersedes(Some(held), candidate) <==> Value(candidate) > Value(held)
  {
    CmpIsNumericOrder(candidate, held);
  }

  predicate AllUnpadded(ids: seq<string>) {
    forall i :: 0 <= i < |ids| ==> Unpadded(ids[i])
  }

  /** After any sequence of saves the cursor is the largest ID ever saved, and never moves back. */
  lemma {:induction false} CursorIsMaximum(current: Option<string>, saves: seq<string>)
    requires current.Some? ==> Unpadded(current.value)
    requires AllUnpadded(saves)
    ensures var last := SaveAll(current, saves);
            && (last.None? <==> current.None? && saves == [])
            && (last.Some? ==>
                  && Unpadded(last.value)
                  && (last == current || last.value in saves)
                  && (current.Some? ==> Value(current.value) <= Value(last.value))
                  && forall i :: 0 <= i < |saves| ==> Value(saves[i]) <= Value(last.value))
    decreases |saves|
  {
    if saves == [] {
    } else {
      var next := SaveCursor(current, saves[0]);
      if current.Some? {
        ScriptGuardIsNumericOrder(current.value, saves[0]);
      }
      CursorIsMaximum(next, saves[1..]);
      var last := SaveAll(current, saves);
      forall i | 0 <= i < |saves| ensures Value(saves[i]) <= Value(last.value) {
        if i > 0 {
          assert saves[i] == saves[1..][i - 1];
        }
      }
    }
  }

  // ---------------------------------------------------------------------------------------------
  // most_recent_matches

  /** The cap on a lookup: on the entries read from each key, and on the report made of them. */
  const CAMPAIGN_MATCHES_REPORTED: nat := 20

  /** `ids` strictly descending by `numeric_id_cmp`. */
  ghost predicate Descending(ids: seq<string>) {
    forall i, j :: 0 <= i < j < |ids| ==> NumericIdCmp(ids[i], ids[j]) == Greater
  }

  /** One step of the descending sort of distinct IDs. */
  function InsertDescending(id: string, sorted: seq<string>): (r: seq<string>)
    ensures multiset(r) == multiset(sorted) + multiset{id}
  {
    if sorted == [] || NumericIdCmp(id, sorted[0]) == Greater then [id] + sorted
    else
      assert sorted == [sorted[0]] + sorted[1..];
      [sorted[0]] + InsertDescending(id, sorted[1..])
  }

  function SortDescending(ids: seq<string>): (r: seq<string>)
    ensures multiset(r) == multiset(ids)
  {
    if ids == [] then []
    else
      assert ids == [ids[0]] + ids[1..];
      InsertDescending(ids[0], SortDescending(ids[1..]))
  }

  /** `most_recent_matches` over the merged, repeat-free matches. */
  function MostRecentMatches(matches: seq<string>): seq<string> {
    var sorted := SortDescending(matches);
    if |sorted| <= CAMPAIGN_MATCHES_REPORTED then sorted else sorted[..CAMPAIGN_MATCHES_REPORTED]
  }

  ghost predicate Distinct(ids: seq<string>) {
    forall i, j :: 0 <= i < j < |ids| ==> ids[i] != ids[j]
  }

  lemma SameMembers(a: seq<string>, b: seq<string>)
    requires multiset(a) == multiset(b)
    ensures |a| == |b|
    ensures forall x :: x in a <==> x in b
  {
    assert |multiset(a)| == |multiset(b)|;
    forall x ensures x in a <==> x in b {
      assert x in a <==> x in multiset(a);
      assert x in b <==> x in multiset(b);
    }
  }

  lemma {:induction false} InsertKeepsDescending(id: string, sorted: seq<string>)
    requires Unpadded(id) && AllUnpadded(sorted) && Descending(sorted) && id !in sorted
    ensures Descending(InsertDescending(id, sorted))
    ensures AllUnpadded(InsertDescending(id, sorted))
  {
    var r := InsertDescending(id, sorted);
    if sorted == [] {
    } else if NumericIdCmp(id, sorted[0]) == Greater {
      forall j | 0 <= j < |sorted| ensures NumericIdCmp(id, sorted[j]) == Greater {
        CmpIsNumericOrder(id, sorted[0]);
        CmpIsNumericOrder(sorted[0], sorted[j]);
        CmpIsNumericOrder(id, sorted[j]);
      }
    } else {
      var tail := InsertDescending(id, sorted[1..]);
      InsertKeepsDescending(id, sorted[1..]);
      assert r == [sorted[0]] + tail;
      SameMembers(tail, sorted[1..] + [id]);
      forall j | 0 <= j < |tail| ensures NumericIdCmp(sorted[0], tail[j]) == Greater {
        assert tail[j] in sorted[1..] + [id];
        CmpIsNumericOrder(id, sorted[0]);
        CmpIsNumericOrder(sorted[0], id);
      }
    }
  }

  lemma {:induction false} SortIsDescending(ids: seq<string>)
    requires AllUnpadded(ids) && Distinct(ids)
    ensures Descending(SortDescending(ids)) && AllUnpadded(SortDescending(ids))
  {
    if ids == [] {
    } else {
      SortIsDescending(ids[1..]);
      SameMembers(SortDescending(ids[1..]), ids[1..]);
      assert ids[0] !in ids[1..] by {
        forall j | 0 <= j < |ids[1..]| ensures ids[1..][j] != ids[0] {
          assert ids[1..][j] == ids[j + 1];
        }
      }
      InsertKeepsDescending(ids[0], SortDescending(ids[1..]));
    }
  }

  /** Cutting a descending list keeps its largest. */
  lemma PrefixKeepsTheLargest(sorted: seq<string>, n: nat)
    requires AllUnpadded(sorted) && Descending(sorted) && n <= |sorted|
    ensures forall i, j :: 0 <= i < j < n ==> Value(sorted[i]) > Value(sorted[j])
    ensures forall id :: id in sorted && id !in sorted[..n] ==>
              n < |sorted| && Unpadded(id) && forall i :: 0 <= i < n ==> Value(id) < Value(sorted[i])
  {
    forall i, j | 0 <= i < j < |sorted| ensures Value(sorted[i]) > Value(sorted[j]) {
      CmpIsNumericOrder(sorted[i], sorted[j]);
    }
    forall id | id in sorted && id !in sorted[..n]
      ensures n < |sorted| && Unpadded(id) && forall i :: 0 <= i < n ==> Value(id) < Value(sorted[i])
    {
      assert forall i :: 0 <= i < n ==> sorted[i] in sorted[..n];
      var k :| 0 <= k < |sorted| && sorted[k] == id;
    }
  }

  /** The report keeps exactly the 20 numerically largest matches, largest first. */
  lemma ReportKeepsTheLargest(matches: seq<string>)
    requires AllUnpadded(matches) && Distinct(matches)
    ensures var kept := MostRecentMatches(matches);
            && |kept| == (if |matches| < CAMPAIGN_MATCHES_REPORTED then |matches| else CAMPAIGN_MATCHES_REPORTED)
            && AllUnpadded(kept)
            && (forall i, j :: 0 <= i < j < |kept| ==> Value(kept[i]) > Value(kept[j]))
            && (forall i :: 0 <= i < |kept| ==> kept[i] in matches)
            && (forall id :: id in matches && id !in kept ==>
                  |kept| == CAMPAIGN_MATCHES_REPORTED && Unpadded(id) && forall i :: 0 <= i < |kept| ==> Value(id) < Value(kept[i]))
  {
    var sorted := SortDescending(matches);
    SortIsDescending(matches);
    SameMembers(sorted, matches);
    var n := if |sorted| <= CAMPAIGN_MATCHES_REPORTED then |sorted| else CAMPAIGN_MATCHES_REPORTED;
    PrefixKeepsTheLargest(sorted, n);
    assert MostRecentMatches(matches) == sorted[..n];
  }
}
