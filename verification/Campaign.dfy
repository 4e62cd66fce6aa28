/**
 The campaign index (src/redis.rs): per signal, a Redis sorted set of the accounts last seen with
 it, trimmed to a sliding window, capped, and expired as a whole. Times are Unix seconds. The proofs
 relate it to an uncapped log of last sightings that never forgets anything.
 */
module Campaign {
  import opened Wrappers
  import opened Ids

  const CAMPAIGN_WINDOW_SECS: nat := 30 * 24 * 60 * 60
  const CAMPAIGN_MEMBERS_PER_SIGNAL: nat := 1_000

  /** A sorted set: members and their scores. */
  type ZSet = map<string, nat>

  // ---------------------------------------------------------------------------------------------
  // The order of a sorted set: by score, then by member

  lemma {:induction false} TextCmpIsTotal(a: string, b: string)
    ensures TextCmp(a, b) == Equal <==> a == b
    ensures TextCmp(a, b) == Greater <==> TextCmp(b, a) == Less
  {
    if a != "" && b != "" {
      TextCmpIsTotal(a[1..], b[1..]);
      assert a == [a[0]] + a[1..] && b == [b[0]] + b[1..];
    }
  }

  lemma {:induction false} TextCmpIsTransitive(a: string, b: string, c: string)
    requires TextCmp(a, b) == Greater && TextCmp(b, c) == Greater
    ensures TextCmp(a, c) == Greater
  {
    if c != "" && a[0] == b[0] == c[0] {
      TextCmpIsTransitive(a[1..], b[1..], c[1..]);
    }
  }

  /** Member `a` ranks above member `b`: seen later, or as late and textually greater. */
  predicate Above(m: ZSet, a: string, b: string)
    requires a in m && b in m
  {
    m[a] > m[b] || (m[a] == m[b] && TextCmp(a, b) == Greater)
  }

  lemma AboveIsTotal(m: ZSet, a: string, b: string)
    requires a in m && b in m
    ensures a != b ==> (Above(m, a, b) <==> !Above(m, b, a))
    ensures !Above(m, a, a)
  {
    TextCmpIsTotal(a, b);
    TextCmpIsTotal(b, a);
    TextCmpIsTotal(a, a);
  }

  lemma AboveIsTransitive(m: ZSet, a: string, b: string, c: string)
    requires a in m && b in m && c in m && Above(m, a, b) && Above(m, b, c)
    ensures Above(m, a, c)
  {
    if m[a] == m[b] == m[c] {
      TextCmpIsTransitive(a, b, c);
    }
  }

  /** Members ranking above `x`, and below it. */
  function AboveSet(m: ZSet, x: string): set<string>
    requires x in m
  {
    set j | j in m && Above(m, j, x)
  }

  function BelowSet(m: ZSet, x: string): set<string>
    requires x in m
  {
    set j | j in m && Above(m, x, j)
  }

  lemma RanksPartition(m: ZSet, x: string)
    requires x in m
    ensures |AboveSet(m, x)| + |BelowSet(m, x)| + 1 == |m|
  {
    forall j | j in m ensures j == x || j in AboveSet(m, x) || j in BelowSet(m, x) {
      AboveIsTotal(m, j, x);
    }
    forall j | j in m ensures !(j in AboveSet(m, x) && j in BelowSet(m, x)) {
      AboveIsTotal(m, j, x);
    }
    AboveIsTotal(m, x, x);
    assert m.Keys == AboveSet(m, x) + BelowSet(m, x) + {x};
    assert AboveSet(m, x) !! BelowSet(m, x);
  }

  // ---------------------------------------------------------------------------------------------
  // Redis commands

  /** ZREMRANGEBYSCORE key -inf max. */
  function ZRemRangeByScore(m: ZSet, max: nat): ZSet {
    map x | x in m && m[x] > max :: m[x]
  }

  /** ZREMRANGEBYRANK key 0 stop, for a negative stop: counted from the highest rank. */
  function ZRemRangeByRank(m: ZSet, stop: int): ZSet
    requires stop < 0
  {
    map x | x in m && |BelowSet(m, x)| > |m| + stop :: m[x]
  }

  /** The members of `m` scored above the exclusive bound. */
  function Window(m: ZSet, cutoff: nat): ZSet {
    map x | x in m && m[x] > cutoff :: m[x]
  }

  predicate IsTop(m: ZSet, x: string) {
    x in m && forall y :: y in m && y != x ==> Above(m, x, y)
  }

  lemma {:induction false} TopExists(m: ZSet)
    requires m != map[]
    ensures exists x :: IsTop(m, x)
  {
    var a :| a in m;
    var rest := m - {a};
    if rest == map[] {
      assert forall y :: y in m && y != a ==> y in rest;
      assert IsTop(m, a);
    } else {
      TopExists(rest);
      var b :| IsTop(rest, b);
      AboveIsTotal(m, a, b);
      var x := if Above(m, a, b) then a else b;
      forall y | y in m && y != x ensures Above(m, x, y) {
        if y != a && y != b {
          assert y in rest && Above(rest, b, y);
          if x == a {
            AboveIsTransitive(m, a, b, y);
          }
        }
      }
      assert IsTop(m, x);
    }
  }

  lemma TopIsUnique(m: ZSet, x: string, y: string)
    requires IsTop(m, x) && IsTop(m, y)
    ensures x == y
  {
    AboveIsTotal(m, x, y);
  }

  lemma TopsAgree(m: ZSet)
    ensures forall x, y :: IsTop(m, x) && IsTop(m, y) ==> x == y
  {
    forall x, y | IsTop(m, x) && IsTop(m, y) ensures x == y {
      TopIsUnique(m, x, y);
    }
  }

  /** All members, highest first. */
  function Listing(m: ZSet): seq<string>
    decreases |m|
  {
    if m == map[] then []
    else
      TopExists(m);
      TopsAgree(m);
      var x :| x in m && IsTop(m, x);
      assert |m - {x}| < |m| by { assert (m - {x}).Keys == m.Keys - {x}; }
      [x] + Listing(m - {x})
  }

  function Take(s: seq<string>, n: nat): seq<string> {
    if |s| <= n then s else s[..n]
  }

  /** ZREVRANGEBYSCORE key +inf (cutoff LIMIT 0 n. */
  function Read(m: ZSet, cutoff: nat, limit: nat): seq<string> {
    Take(Listing(Window(m, cutoff)), limit)
  }

  // ---------------------------------------------------------------------------------------------
  // One signal key

  /** A key's members and the second at which Redis drops the whole key. */
  datatype SignalSet = SignalSet(members: ZSet, expiry: nat)

  function Cutoff(now: nat): nat {
    if now < CAMPAIGN_WINDOW_SECS then 0 else now - CAMPAIGN_WINDOW_SECS
  }

  /** What Redis still holds at `now`. */
  function Held(signal: Option<SignalSet>, now: nat): ZSet {
    match signal
    case None => map[]
    case Some(s) => if now >= s.expiry then map[] else s.members
  }

  /** The four recording commands of `campaign_pipeline`, in order. */
  function RecordSighting(signal: Option<SignalSet>, id: string, now: nat): SignalSet {
    var trimmed := ZRemRangeByScore(Held(signal, now), Cutoff(now));
    var added := trimmed[id := now];
    SignalSet(ZRemRangeByRank(added, -(CAMPAIGN_MEMBERS_PER_SIGNAL + 1)), now + CAMPAIGN_WINDOW_SECS)
  }

  /** The read that ends the pipeline, recording or not. */
  function ReadSignal(signal: Option<SignalSet>, now: nat): seq<string> {
    Read(Held(signal, now), Cutoff(now), CAMPAIGN_MATCHES_REPORTED)
  }

  // ---------------------------------------------------------------------------------------------
  // The uncapped reference

  /** The `k` highest-ranked members of `m`. */
  ghost function Newest(m: ZSet, k: nat): ZSet {
    map x | x in m && |AboveSet(m, x)| < k :: m[x]
  }

  /** The capped key is the newest members of the windowed log, as of the last recording. */
  ghost predicate Refines(signal: Option<SignalSet>, log: ZSet, last: nat) {
    match signal
    case None => log == map[]
    case Some(s) =>
      && (forall x :: x in log ==> log[x] <= last)
      && s.expiry == last + CAMPAIGN_WINDOW_SECS
      && s.members == Newest(Window(log, Cutoff(last)), CAMPAIGN_MEMBERS_PER_SIGNAL)
  }

  lemma RankTrimKeepsNewest(m: ZSet, k: nat)
    ensures ZRemRangeByRank(m, -(k + 1)) == Newest(m, k)
  {
    forall x | x in m ensures |BelowSet(m, x)| > |m| - (k + 1) <==> |AboveSet(m, x)| < k {
      RanksPartition(m, x);
    }
  }

  /** Windowing and capping commute: whatever ranks above a member in the window is in it too. */
  lemma WindowOfNewest(m: ZSet, k: nat, cutoff: nat)
    ensures Window(Newest(m, k), cutoff) == Newest(Window(m, cutoff), k)
  {
    var w := Window(m, cutoff);
    forall x | x in w ensures AboveSet(w, x) == AboveSet(m, x) {
    }
  }

  lemma WindowOfWindow(m: ZSet, early: nat, late: nat)
    requires early <= late
    ensures Window(Window(m, early), late) == Window(m, late)
  {
  }

  /** A member that a cap leaves out has the highest such member above it, or is it. */
  lemma {:induction false} HighestOutside(m: ZSet, kept: set<string>, j: string) returns (top: string)
    requires j in m && j !in kept
    ensures top in m && top !in kept && AboveSet(m, top) <= kept
    ensures top == j || Above(m, top, j)
    decreases |AboveSet(m, j)|
  {
    if AboveSet(m, j) <= kept {
      top := j;
    } else {
      var i :| i in AboveSet(m, j) && i !in kept;
      forall a | a in AboveSet(m, i) ensures a in AboveSet(m, j) {
        AboveIsTransitive(m, a, i, j);
      }
      AboveIsTotal(m, i, i);
      assert i !in AboveSet(m, i);
      SubsetSize(AboveSet(m, i) + {i}, AboveSet(m, j));
      top := HighestOutside(m, kept, i);
      if top != i {
        AboveIsTransitive(m, top, i, j);
      }
    }
  }

  /** Stamping `id` with a time no earlier than any other never lowers it below anyone. */
  lemma StampRaises(m: ZSet, id: string, now: nat, y: string)
    requires forall x :: x in m ==> m[x] <= now
    requires y in m && y != id
    ensures AboveSet(m, y) <= AboveSet(m[id := now], y)
  {
    var m' := m[id := now];
    forall j | j in AboveSet(m, y) ensures j in AboveSet(m', y) {
    }
  }

  /** A member outside the cap that outranks `y` after the stamp puts a full cap above `y`. */
  lemma FullCapAbove(m: ZSet, k: nat, id: string, now: nat, y: string, j: string)
    requires forall x :: x in m ==> m[x] <= now
    requires y in Newest(m, k)[id := now]
    requires j in m && j != id && j !in Newest(m, k) && Above(m[id := now], j, y)
    ensures |AboveSet(Newest(m, k)[id := now], y)| >= k
  {
    var t := Newest(m, k);
    var m', t' := m[id := now], t[id := now];
    var top := HighestOutside(m, t.Keys, j);
    var full := AboveSet(m, top);
    assert |full| >= k;
    forall i | i in full ensures i in AboveSet(t', y) {
      assert i in t;
      if top != j {
        AboveIsTransitive(m, i, top, j);
      }
      assert Above(m, i, j);
      AboveIsTotal(m, i, j);
      TextCmpIsTotal(i, j);
      assert Above(m', i, j);
      AboveIsTransitive(m', i, j, y);
      assert i != y by { AboveIsTotal(m', y, y); }
    }
    SubsetSize(full, AboveSet(t', y));
  }

  /** Capping before a stamp changes nothing the cap after it would keep. */
  lemma CapAfterStamp(m: ZSet, k: nat, id: string, now: nat)
    requires forall x :: x in m ==> m[x] <= now
    ensures Newest(Newest(m, k)[id := now], k) == Newest(m[id := now], k)
  {
    var t := Newest(m, k);
    var m', t' := m[id := now], t[id := now];
    forall y | y in Newest(m', k) ensures y in Newest(t', k) {
      if y != id {
        StampRaises(m, id, now, y);
        SubsetSize(AboveSet(m, y), AboveSet(m', y));
        assert y in t;
      }
      SubsetSize(AboveSet(t', y), AboveSet(m', y));
    }
    forall y | y in Newest(t', k) ensures y in Newest(m', k) {
      if j :| j in AboveSet(m', y) && j !in t' {
        FullCapAbove(m, k, id, now, y, j);
      } else {
        assert AboveSet(m', y) == AboveSet(t', y);
      }
    }
  }

  lemma HeldRefines(signal: Option<SignalSet>, log: ZSet, last: nat, now: nat)
    requires Refines(signal, log, last) && last <= now
    ensures Window(Held(signal, now), Cutoff(now)) == Newest(Window(log, Cutoff(now)), CAMPAIGN_MEMBERS_PER_SIGNAL)
  {
    if signal.Some? {
      if now >= signal.value.expiry {
        assert Window(log, Cutoff(now)) == map[];
      } else {
        WindowOfNewest(Window(log, Cutoff(last)), CAMPAIGN_MEMBERS_PER_SIGNAL, Cutoff(now));
        WindowOfWindow(log, Cutoff(last), Cutoff(now));
      }
    }
  }

  /** One recording keeps the capped key a refinement of the log with that sighting added. */
  lemma RecordingRefines(signal: Option<SignalSet>, log: ZSet, last: nat, id: string, now: nat)
    requires Refines(signal, log, last) && last <= now && now > 0
    ensures Refines(Some(RecordSighting(signal, id, now)), log[id := now], now)
  {
    var w := Window(log, Cutoff(now));
    var trimmed := ZRemRangeByScore(Held(signal, now), Cutoff(now));
    HeldRefines(signal, log, last, now);
    assert trimmed == Newest(w, CAMPAIGN_MEMBERS_PER_SIGNAL);
    RankTrimKeepsNewest(trimmed[id := now], CAMPAIGN_MEMBERS_PER_SIGNAL);
    CapAfterStamp(w, CAMPAIGN_MEMBERS_PER_SIGNAL, id, now);
    assert Window(log[id := now], Cutoff(now)) == w[id := now];
  }

  // ---------------------------------------------------------------------------------------------
  // Reads

  /** Removing the top member shifts every rank by one. */
  lemma NewestWithoutTop(m: ZSet, x: string, k: nat)
    requires IsTop(m, x) && k > 0
    ensures x in Newest(m, k) && IsTop(Newest(m, k), x)
    ensures Newest(m, k) - {x} == Newest(m - {x}, k - 1)
  {
    var rest := m - {x};
    assert AboveSet(m, x) == {} by {
      forall j | j in m ensures !Above(m, j, x) {
        AboveIsTotal(m, j, x);
      }
    }
    forall y | y in rest ensures |AboveSet(m, y)| == |AboveSet(rest, y)| + 1 {
      assert AboveSet(m, y) == AboveSet(rest, y) + {x};
    }
  }

  /** The first `k` of a listing are the listing of the `k` highest. */
  lemma {:induction false} ListingOfNewest(m: ZSet, k: nat)
    ensures Listing(Newest(m, k)) == Take(Listing(m), k)
    decreases |m|
  {
    if m == map[] || k == 0 {
      assert Newest(m, k) == map[];
    } else {
      ListingHead(m);
      var x := Listing(m)[0];
      var rest := m - {x};
      assert rest.Keys == m.Keys - {x};
      ListingOfNewest(rest, k - 1);
      NewestStep(m, x, k);
    }
  }

  lemma NewestStep(m: ZSet, x: string, k: nat)
    requires IsTop(m, x) && k > 0
    requires Listing(Newest(m - {x}, k - 1)) == Take(Listing(m - {x}), k - 1)
    ensures Listing(Newest(m, k)) == Take(Listing(m), k)
  {
    NewestWithoutTop(m, x, k);
    ListingStep(m, Newest(m, k), x, k);
  }

  lemma ListingStep(m: ZSet, n: ZSet, x: string, k: nat)
    requires IsTop(m, x) && IsTop(n, x) && k > 0
    requires Listing(n - {x}) == Take(Listing(m - {x}), k - 1)
    ensures Listing(n) == Take(Listing(m), k)
  {
    ListingFrom(m, x);
    ListingFrom(n, x);
    TakeCons(x, Listing(m - {x}), k);
  }

  lemma ListingFrom(m: ZSet, x: string)
    requires IsTop(m, x)
    ensures Listing(m) == [x] + Listing(m - {x})
  {
    ListingHead(m);
    TopIsUnique(m, x, Listing(m)[0]);
  }

  lemma TakeCons(x: string, rest: seq<string>, k: nat)
    requires k > 0
    ensures Take([x] + rest, k) == [x] + Take(rest, k - 1)
  {
  }

  lemma ListingHead(m: ZSet)
    requires m != map[]
    ensures |Listing(m)| > 0 && IsTop(m, Listing(m)[0])
    ensures Listing(m) == [Listing(m)[0]] + Listing(m - {Listing(m)[0]})
  {
    TopExists(m);
  }

  lemma {:induction false} ListingMembers(m: ZSet)
    ensures forall x :: x in Listing(m) <==> x in m
    ensures |Listing(m)| == |m|
    ensures Distinct(Listing(m))
    decreases |m|
  {
    if m == map[] {
    } else {
      ListingHead(m);
      var x := Listing(m)[0];
      assert (m - {x}).Keys == m.Keys - {x};
      ListingMembers(m - {x});
    }
  }

  /** Every read of the capped key equals the read of the uncapped log. */
  lemma ReadsAgree(signal: Option<SignalSet>, log: ZSet, last: nat, now: nat)
    requires Refines(signal, log, last) && last <= now
    ensures ReadSignal(signal, now) == Read(log, Cutoff(now), CAMPAIGN_MATCHES_REPORTED)
  {
    HeldRefines(signal, log, last, now);
    ListingOfNewest(Window(log, Cutoff(now)), CAMPAIGN_MEMBERS_PER_SIGNAL);
  }

  /** Whole-key expiry drops only what every later read leaves out anyway. */
  lemma KeyExpiryLosesNothing(signal: SignalSet, log: ZSet, last: nat, now: nat)
    requires Refines(Some(signal), log, last) && now >= signal.expiry
    ensures Window(signal.members, Cutoff(now)) == map[]
    ensures Read(log, Cutoff(now), CAMPAIGN_MATCHES_REPORTED) == []
  {
    assert Window(log, Cutoff(now)) == map[];
  }

  datatype Sighting = Sighting(id: string, at: nat)

  predicate InOrder(sightings: seq<Sighting>, last: nat) {
    sightings == [] || (last <= sightings[0].at && sightings[0].at > 0 && InOrder(sightings[1..], sightings[0].at))
  }

  function RecordAll(signal: Option<SignalSet>, sightings: seq<Sighting>): (r: Option<SignalSet>)
    ensures r.None? <==> signal.None? && sightings == []
    decreases |sightings|
  {
    if sightings == [] then signal
    else RecordAll(Some(RecordSighting(signal, sightings[0].id, sightings[0].at)), sightings[1..])
  }

  function LogAll(log: ZSet, sightings: seq<Sighting>): ZSet
    decreases |sightings|
  {
    if sightings == [] then log else LogAll(log[sightings[0].id := sightings[0].at], sightings[1..])
  }

  function LastOf(last: nat, sightings: seq<Sighting>): nat {
    if sightings == [] then last else sightings[|sightings| - 1].at
  }

  lemma {:induction false} RecordingsRefine(signal: Option<SignalSet>, log: ZSet, last: nat, sightings: seq<Sighting>)
    requires Refines(signal, log, last) && InOrder(sightings, last)
    ensures Refines(RecordAll(signal, sightings), LogAll(log, sightings), LastOf(last, sightings))
    decreases |sightings|
  {
    if sightings != [] {
      var first := sightings[0];
      RecordingRefines(signal, log, last, first.id, first.at);
      RecordingsRefine(Some(RecordSighting(signal, first.id, first.at)), log[first.id := first.at], first.at, sightings[1..]);
    }
  }

  /**
   After any recordings at times that never go back, the stored key is the newest 1,000 members of
   the windowed log, and every later 20-entry read is the read of the log.
   */
  lemma CappedIndexRefinesLog(sightings: seq<Sighting>, now: nat)
    requires InOrder(sightings, 0) && LastOf(0, sightings) <= now
    ensures var signal, log := RecordAll(None, sightings), LogAll(map[], sightings);
            && (sightings != [] ==>
                  signal.value.members == Newest(Window(log, Cutoff(LastOf(0, sightings))), CAMPAIGN_MEMBERS_PER_SIGNAL))
            && ReadSignal(signal, now) == Read(log, Cutoff(now), CAMPAIGN_MATCHES_REPORTED)
  {
    RecordingsRefine(None, map[], 0, sightings);
    ReadsAgree(RecordAll(None, sightings), LogAll(map[], sightings), LastOf(0, sightings), now);
  }

  // ---------------------------------------------------------------------------------------------
  // What the log reads

  /** The members seen later than `x`, or as late and with a textually greater ID. */
  ghost function SeenLater(log: ZSet, x: string): set<string>
    requires x in log
  {
    set y | y in log && (log[y] > log[x] || (log[y] == log[x] && TextCmp(y, x) == Greater))
  }

  lemma {:induction false} ListingDescends(m: ZSet)
    ensures forall i :: 0 <= i < |Listing(m)| ==> Listing(m)[i] in m
    ensures forall i, j :: 0 <= i < j < |Listing(m)| ==> Above(m, Listing(m)[i], Listing(m)[j])
    decreases |m|
  {
    if m != map[] {
      ListingHead(m);
      var x := Listing(m)[0];
      var rest := m - {x};
      assert rest.Keys == m.Keys - {x};
      ListingDescends(rest);
      ListingFrom(m, x);
      forall i, j | 0 <= i < j < |Listing(m)| ensures Listing(m)[j] in m && Above(m, Listing(m)[i], Listing(m)[j]) {
        assert Listing(m)[j] == Listing(rest)[j - 1];
        if i > 0 {
          assert Listing(m)[i] == Listing(rest)[i - 1];
        }
      }
    }
  }

  /**
   A read gives, newest first, exactly the 20 members seen last among those of the last 30 days, second 0
   excepted.
   */
  lemma LogReadIsExact(log: ZSet, now: nat)
    ensures var read := Read(log, Cutoff(now), CAMPAIGN_MATCHES_REPORTED);
            && |read| <= 20
            && (forall x :: x in read <==> x in log && 0 < log[x] && now < log[x] + 2_592_000 && |SeenLater(log, x)| < 20)
            && (forall i, j :: 0 <= i < j < |read| ==> read[i] in log && read[j] in log && read[i] in SeenLater(log, read[j]))
  {
    var w := Window(log, Cutoff(now));
    var newest := Newest(w, 20);
    ListingOfNewest(w, 20);
    ListingMembers(newest);
    ListingDescends(newest);
    NewestAreLatest(log, now, newest);
  }

  lemma NewestAreLatest(log: ZSet, now: nat, newest: ZSet)
    requires newest == Newest(Window(log, Cutoff(now)), 20)
    ensures forall x :: x in newest <==> x in log && 0 < log[x] && now < log[x] + 2_592_000 && |SeenLater(log, x)| < 20
    ensures forall x, y :: x in newest && y in newest && Above(newest, x, y) ==> x in SeenLater(log, y)
  {
    var w := Window(log, Cutoff(now));
    forall x | x in w ensures AboveSet(w, x) == SeenLater(log, x) {
    }
  }

  /** A key that recordings have filled holds exactly the 1,000 members seen last of those still in the window then. */
  lemma StoredIsExact(sightings: seq<Sighting>)
    requires InOrder(sightings, 0) && sightings != []
    ensures var key, log, last := RecordAll(None, sightings).value, LogAll(map[], sightings), LastOf(0, sightings);
            && key.expiry == last + 2_592_000
            && (forall x :: x in key.members <==> x in log && 0 < log[x] && last < log[x] + 2_592_000 && |SeenLater(log, x)| < 1_000)
            && (forall x :: x in key.members ==> key.members[x] == log[x])
  {
    var log, last := LogAll(map[], sightings), LastOf(0, sightings);
    RecordingsRefine(None, map[], 0, sightings);
    var w := Window(log, Cutoff(last));
    forall x | x in w ensures AboveSet(w, x) == SeenLater(log, x) {
    }
  }

  // ---------------------------------------------------------------------------------------------
  // Dry run against recording run

  function Without(s: seq<string>, id: string): seq<string> {
    if s == [] then [] else (if s[0] == id then [] else [s[0]]) + Without(s[1..], id)
  }

  /** The other accounts a run sees on one key: a dry run only reads, a recording run stamps first. */
  function OthersSeen(signal: Option<SignalSet>, id: string, now: nat, record: bool): seq<string> {
    var read := if record then ReadSignal(Some(RecordSighting(signal, id, now)), now) else ReadSignal(signal, now);
    Without(read, id)
  }

  lemma {:induction false} WithoutAbsent(s: seq<string>, id: string)
    requires id !in s
    ensures Without(s, id) == s
  {
    if s != [] {
      WithoutAbsent(s[1..], id);
    }
  }

  /** How many of the first `n` without `id` are left when `id` is among them. */
  function Left(s: seq<string>, id: string, n: nat): nat {
    if id in Take(s, n) then n - 1 else n
  }

  lemma {:induction false} WithoutTake(s: seq<string>, id: string, n: nat)
    requires Distinct(s)
    ensures Without(Take(s, n), id) == Take(Without(s, id), Left(s, id, n))
    decreases n
  {
    if s == [] || n == 0 {
      assert Take(s, n) == [];
    } else {
      var rest := s[1..];
      assert s == [s[0]] + rest;
      TailHasNoHead(s);
      if s[0] == id {
        WithoutTakeHead(rest, id, n);
      } else {
        WithoutTake(rest, id, n - 1);
        WithoutTakeOther(s[0], rest, id, n);
      }
    }
  }

  lemma WithoutTakeHead(rest: seq<string>, id: string, n: nat)
    requires n > 0 && id !in rest
    ensures Without(Take([id] + rest, n), id) == Take(Without([id] + rest, id), Left([id] + rest, id, n))
  {
    TakeCons(id, rest, n);
    WithoutCons(id, Take(rest, n - 1), id);
    WithoutCons(id, rest, id);
    WithoutAbsent(Take(rest, n - 1), id);
    WithoutAbsent(rest, id);
  }

  lemma WithoutTakeOther(x: string, rest: seq<string>, id: string, n: nat)
    requires n > 0 && x != id
    requires Without(Take(rest, n - 1), id) == Take(Without(rest, id), Left(rest, id, n - 1))
    ensures Without(Take([x] + rest, n), id) == Take(Without([x] + rest, id), Left([x] + rest, id, n))
  {
    TakeCons(x, rest, n);
    WithoutCons(x, Take(rest, n - 1), id);
    WithoutCons(x, rest, id);
    TakeCons(x, Without(rest, id), Left(rest, id, n - 1) + 1);
  }

  lemma TailHasNoHead(s: seq<string>)
    requires Distinct(s) && s != []
    ensures Distinct(s[1..]) && s[0] !in s[1..]
  {
    assert forall j :: 0 <= j < |s[1..]| ==> s[1..][j] == s[j + 1];
  }

  lemma WithoutCons(x: string, rest: seq<string>, id: string)
    ensures Without([x] + rest, id) == if x == id then Without(rest, id) else [x] + Without(rest, id)
  {
    assert ([x] + rest)[1..] == rest;
  }

  lemma {:induction false} ListingWithout(m: ZSet, id: string)
    ensures Without(Listing(m), id) == Listing(m - {id})
    decreases |m|
  {
    if m == map[] {
      assert m - {id} == map[];
    } else {
      ListingHead(m);
      var x := Listing(m)[0];
      var rest := m - {x};
      assert rest.Keys == m.Keys - {x};
      ListingWithout(rest, id);
      WithoutCons(x, Listing(rest), id);
      if x == id {
        assert rest - {id} == m - {id};
      } else {
        TopSurvives(m, x, id);
        ListingFrom(m - {id}, x);
      }
    }
  }

  lemma TopSurvives(m: ZSet, x: string, id: string)
    requires IsTop(m, x) && x != id
    ensures IsTop(m - {id}, x)
    ensures m - {x} - {id} == m - {id} - {x}
  {
  }

  /** Whether `id` itself takes one of the slots of a read. */
  ghost predicate TakesSlot(m: ZSet, id: string) {
    id in Newest(m, CAMPAIGN_MATCHES_REPORTED)
  }

  lemma OthersInRead(m: ZSet, id: string)
    ensures Without(Take(Listing(m), CAMPAIGN_MATCHES_REPORTED), id)
         == Take(Listing(m - {id}), if TakesSlot(m, id) then CAMPAIGN_MATCHES_REPORTED - 1 else CAMPAIGN_MATCHES_REPORTED)
  {
    ListingMembers(m);
    ListingOfNewest(m, CAMPAIGN_MATCHES_REPORTED);
    ListingMembers(Newest(m, CAMPAIGN_MATCHES_REPORTED));
    WithoutTake(Listing(m), id, CAMPAIGN_MATCHES_REPORTED);
    ListingWithout(m, id);
  }

  lemma RecordingRead(signal: Option<SignalSet>, id: string, now: nat)
    requires forall x :: x in Held(signal, now) ==> Held(signal, now)[x] <= now
    requires now > 0
    ensures ReadSignal(Some(RecordSighting(signal, id, now)), now)
         == Take(Listing(Window(Held(signal, now), Cutoff(now))[id := now]), CAMPAIGN_MATCHES_REPORTED)
  {
    var added := Window(Held(signal, now), Cutoff(now))[id := now];
    assert ZRemRangeByScore(Held(signal, now), Cutoff(now)) == Window(Held(signal, now), Cutoff(now));
    RankTrimKeepsNewest(added, CAMPAIGN_MEMBERS_PER_SIGNAL);
    assert Window(Newest(added, CAMPAIGN_MEMBERS_PER_SIGNAL), Cutoff(now)) == Newest(added, CAMPAIGN_MEMBERS_PER_SIGNAL);
    ListingOfNewest(added, CAMPAIGN_MEMBERS_PER_SIGNAL);
  }

  /** Both runs see a prefix of the same listing; only the number of slots left differs. */
  lemma BothSeeOnePrefix(signal: Option<SignalSet>, id: string, now: nat)
    requires forall x :: x in Held(signal, now) ==> Held(signal, now)[x] <= now
    requires now > 0
    ensures var w := Window(Held(signal, now), Cutoff(now));
            var others := Listing(w - {id});
            && OthersSeen(signal, id, now, false) == Take(others, SlotsLeft(w, id))
            && OthersSeen(signal, id, now, true) == Take(others, SlotsLeft(w[id := now], id))
            && |others| == |w.Keys - {id}|
  {
    var w := Window(Held(signal, now), Cutoff(now));
    RecordingRead(signal, id, now);
    OthersInRead(w, id);
    OthersInRead(w[id := now], id);
    StampRemoved(w, id, now);
  }

  lemma StampRemoved(w: ZSet, id: string, now: nat)
    ensures w[id := now] - {id} == w - {id}
    ensures |Listing(w - {id})| == |w.Keys - {id}|
  {
    assert (w - {id}).Keys == w.Keys - {id};
    ListingMembers(w - {id});
  }

  ghost function SlotsLeft(m: ZSet, id: string): nat {
    if TakesSlot(m, id) then CAMPAIGN_MATCHES_REPORTED - 1 else CAMPAIGN_MATCHES_REPORTED
  }

  lemma StampKeepsSlot(m: ZSet, id: string, now: nat)
    requires forall x :: x in m ==> m[x] <= now
    ensures TakesSlot(m, id) ==> TakesSlot(m[id := now], id)
  {
    if TakesSlot(m, id) {
      var m' := m[id := now];
      forall j | j in AboveSet(m', id) ensures j in AboveSet(m, id) {
        AboveIsTotal(m', id, id);
      }
      SubsetSize(AboveSet(m', id), AboveSet(m, id));
    }
  }

  /**
   A recording run sees the dry run's list, or that list without its last entry: its own entry may
   take one of the 20 slots. The two differ exactly when 20 or more other accounts are in the
   window and the stamp moves the account's own entry into the newest 20.
   */
  lemma DryRunAgainstRecording(signal: Option<SignalSet>, id: string, now: nat)
    requires forall x :: x in Held(signal, now) ==> Held(signal, now)[x] <= now
    requires now > 0
    ensures var w := Window(Held(signal, now), Cutoff(now));
            var dry, recorded := OthersSeen(signal, id, now, false), OthersSeen(signal, id, now, true);
            && (recorded == dry || (|dry| == CAMPAIGN_MATCHES_REPORTED && recorded == dry[..|dry| - 1]))
            && (recorded != dry <==>
                  |w.Keys - {id}| >= CAMPAIGN_MATCHES_REPORTED && !TakesSlot(w, id) && TakesSlot(w[id := now], id))
  {
    var w := Window(Held(signal, now), Cutoff(now));
    BothSeeOnePrefix(signal, id, now);
    StampKeepsSlot(w, id, now);
  }

  /** The comment on the dry run is right below the limit. */
  lemma DryRunSeesTheSameBelowTheLimit(signal: Option<SignalSet>, id: string, now: nat)
    requires forall x :: x in Held(signal, now) ==> Held(signal, now)[x] <= now
    requires now > 0
    requires |Window(Held(signal, now), Cutoff(now)).Keys - {id}| < CAMPAIGN_MATCHES_REPORTED
    ensures OthersSeen(signal, id, now, true) == OthersSeen(signal, id, now, false)
  {
    DryRunAgainstRecording(signal, id, now);
  }

  /** At the limit it is not: an account new to a key with 20 or more others sees one fewer. */
  lemma NewcomerTakesASlot(signal: Option<SignalSet>, id: string, now: nat)
    requires forall x :: x in Held(signal, now) ==> Held(signal, now)[x] < now
    requires now > 0 && id !in Held(signal, now)
    requires |Window(Held(signal, now), Cutoff(now))| >= CAMPAIGN_MATCHES_REPORTED
    ensures var dry := OthersSeen(signal, id, now, false);
            && |dry| == CAMPAIGN_MATCHES_REPORTED
            && OthersSeen(signal, id, now, true) == dry[..CAMPAIGN_MATCHES_REPORTED - 1]
  {
    var w := Window(Held(signal, now), Cutoff(now));
    assert w.Keys - {id} == w.Keys;
    var stamped := w[id := now];
    AboveIsTotal(stamped, id, id);
    assert AboveSet(stamped, id) == {};
    DryRunAgainstRecording(signal, id, now);
  }

  /** An account with an ID of `n` ones. */
  function Name(n: nat): (name: string)
    ensures |name| == n
  {
    if n == 0 then "" else "1" + Name(n - 1)
  }

  /** `n` accounts, all seen at second 1. */
  function Crowd(n: nat): seq<Sighting> {
    if n == 0 then [] else [Sighting(Name(n), 1)] + Crowd(n - 1)
  }

  lemma {:induction false} CrowdIsInOrder(n: nat)
    ensures |Crowd(n)| == n && InOrder(Crowd(n), 1)
    ensures forall i :: 0 <= i < n ==> Crowd(n)[i].at == 1
  {
    if n > 0 {
      CrowdIsInOrder(n - 1);
      assert Crowd(n)[1..] == Crowd(n - 1);
    }
  }

  /** Every member was seen at second 1, and has an ID longer than `low` and no longer than `high`. */
  predicate SeenAtOne(m: ZSet, low: nat, high: nat) {
    forall x :: x in m ==> m[x] == 1 && low < |x| <= high
  }

  lemma OneMoreMember(m: ZSet, name: string, high: nat)
    requires name != "" && SeenAtOne(m, |name|, high) && |name| <= high
    ensures |m[name := 1]| == |m| + 1 && SeenAtOne(m[name := 1], |name| - 1, high)
  {
    assert m[name := 1].Keys == m.Keys + {name};
  }

  lemma {:induction false} CrowdInLog(n: nat, log: ZSet, high: nat)
    requires SeenAtOne(log, n, high) && n <= high
    ensures |LogAll(log, Crowd(n))| == |log| + n && SeenAtOne(LogAll(log, Crowd(n)), 0, high)
    decreases n
  {
    if n > 0 {
      var name := Name(n);
      OneMoreMember(log, name, high);
      CrowdInLog(n - 1, log[name := 1], high);
      CrowdStep(n, log);
    }
  }

  lemma CrowdStep(n: nat, log: ZSet)
    requires n > 0
    ensures LogAll(log, Crowd(n)) == LogAll(log[Name(n) := 1], Crowd(n - 1))
  {
    LogCons(log, Sighting(Name(n), 1), Crowd(n - 1));
  }

  lemma LogCons(log: ZSet, first: Sighting, rest: seq<Sighting>)
    ensures LogAll(log, [first] + rest) == LogAll(log[first.id := first.at], rest)
  {
    assert ([first] + rest)[1..] == rest;
  }

  /** A key that has refined such a log at second 1 still shows 20 of it at second 2. */
  lemma CrowdedKey(signal: Option<SignalSet>, log: ZSet, high: nat)
    requires Refines(signal, log, 1) && SeenAtOne(log, 0, high) && |log| >= CAMPAIGN_MATCHES_REPORTED
    ensures SeenAtOne(Held(signal, 2), 0, high)
    ensures |Window(Held(signal, 2), Cutoff(2))| >= CAMPAIGN_MATCHES_REPORTED
  {
    ReadsAgree(signal, log, 1, 2);
    assert Window(log, Cutoff(2)) == log;
    ReadIsNoLonger(Window(Held(signal, 2), Cutoff(2)), log, CAMPAIGN_MATCHES_REPORTED);
  }

  /** A full read comes from at least as many members. */
  lemma ReadIsNoLonger(held: ZSet, log: ZSet, n: nat)
    requires Take(Listing(held), n) == Take(Listing(log), n) && |log| >= n
    ensures |held| >= n
  {
    ListingMembers(log);
    ListingMembers(held);
  }

  /** One such input, reached by recordings, for every crowd size from 20 up. */
  lemma {:induction false} DryRunDiffersInACrowd(n: nat)
    requires n >= CAMPAIGN_MATCHES_REPORTED
    ensures var signal := RecordAll(None, Crowd(n));
            && |LogAll(map[], Crowd(n))| == n && InOrder(Crowd(n), 1)
            && OthersSeen(signal, Name(n + 1), 2, true) != OthersSeen(signal, Name(n + 1), 2, false)
  {
    CrowdIsInOrder(n);
    CrowdInLog(n, map[], n);
    RecordingsRefine(None, map[], 1, Crowd(n));
    var signal := RecordAll(None, Crowd(n));
    CrowdedKey(signal, LogAll(map[], Crowd(n)), n);
    NewcomerTakesASlot(signal, Name(n + 1), 2);
  }
}
