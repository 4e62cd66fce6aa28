/**
 The campaign index as one object: every signal key, updated and read by one pipeline per checked
 account (src/redis.rs, `campaign_context`). The ghost `log` is what an index without cap, window or
 expiry would hold.
 */
module CampaignIndexes {
  import opened Wrappers
  import opened Ids
  import opened Campaign

  function LookUp(signals: map<string, SignalSet>, key: string): Option<SignalSet> {
    if key in signals then Some(signals[key]) else None
  }

  function Entries(log: map<string, ZSet>, key: string): ZSet {
    if key in log then log[key] else map[]
  }

  /** Key by key, the log after the account was seen on `keys`. */
  function Stamped(log: map<string, ZSet>, keys: seq<string>, id: string, now: nat): map<string, ZSet>
    decreases |keys|
  {
    if keys == [] then log
    else Stamped(log[keys[0] := Entries(log, keys[0])[id := now]], keys[1..], id, now)
  }

  /** `matches` with the members of one read added, without repeats and without the account itself. */
  function Merge(matches: seq<string>, read: seq<string>, id: string): seq<string>
    decreases |read|
  {
    if read == [] then matches
    else Merge(if read[0] == id || read[0] in matches then matches else matches + [read[0]], read[1..], id)
  }

  /** The merged matches of the uncapped log over all keys. */
  function MergedFromLog(matches: seq<string>, log: map<string, ZSet>, keys: seq<string>, id: string, now: nat): seq<string>
    decreases |keys|
  {
    if keys == [] then matches
    else MergedFromLog(Merge(matches, Read(Entries(log, keys[0]), Cutoff(now), CAMPAIGN_MATCHES_REPORTED), id), log, keys[1..], id, now)
  }

  /** Another account stands in the read of some key of the uncapped log. */
  ghost predicate FoundInLog(log: map<string, ZSet>, keys: seq<string>, id: string, now: nat, other: string) {
    other != id && exists k :: 0 <= k < |keys| && other in Read(Entries(log, keys[k]), Cutoff(now), CAMPAIGN_MATCHES_REPORTED)
  }

  /** Exactly the 20 numerically largest accounts found, or all of them, largest first. */
  ghost predicate IsReport(matches: seq<string>, log: map<string, ZSet>, keys: seq<string>, id: string, now: nat) {
    && |matches| <= CAMPAIGN_MATCHES_REPORTED
    && (forall i :: 0 <= i < |matches| ==> FoundInLog(log, keys, id, now, matches[i]) && Unpadded(matches[i]))
    && (forall i, j :: 0 <= i < j < |matches| ==> Value(matches[i]) > Value(matches[j]))
    && (forall other :: FoundInLog(log, keys, id, now, other) && other !in matches ==>
          && |matches| == CAMPAIGN_MATCHES_REPORTED && Unpadded(other)
          && forall i :: 0 <= i < |matches| ==> Value(other) < Value(matches[i]))
  }

  ghost predicate FoundAreUnpadded(log: map<string, ZSet>, keys: seq<string>, id: string, now: nat) {
    forall other :: FoundInLog(log, keys, id, now, other) ==> Unpadded(other)
  }

  /** The merge of the reads, cut to its numerically largest, is the report. */
  lemma MergedIsReport(log: map<string, ZSet>, keys: seq<string>, id: string, now: nat)
    requires FoundAreUnpadded(log, keys, id, now)
    ensures IsReport(MostRecentMatches(MergedFromLog([], log, keys, id, now)), log, keys, id, now)
  {
    var merged := MergedFromLog([], log, keys, id, now);
    MergedHolds([], log, keys, id, now);
    assert forall other :: other in merged <==> FoundInLog(log, keys, id, now, other);
    assert AllUnpadded(merged) by {
      forall i | 0 <= i < |merged| ensures Unpadded(merged[i]) {
        assert merged[i] in merged;
      }
    }
    ReportKeepsTheLargest(merged);
  }

  /** A key's last recording, which set its expiry. */
  ghost predicate KeyRefines(signal: SignalSet, entries: ZSet, clock: nat) {
    && CAMPAIGN_WINDOW_SECS <= signal.expiry <= clock + CAMPAIGN_WINDOW_SECS
    && Refines(Some(signal), entries, signal.expiry - CAMPAIGN_WINDOW_SECS)
  }

  lemma LaterClock(signal: SignalSet, entries: ZSet, clock: nat, later: nat)
    requires KeyRefines(signal, entries, clock) && clock <= later
    ensures KeyRefines(signal, entries, later)
  {
  }

  lemma RecordedKeyRefines(signal: Option<SignalSet>, entries: ZSet, clock: nat, id: string, now: nat)
    requires clock <= now && now > 0
    requires match signal case None => entries == map[] case Some(s) => KeyRefines(s, entries, clock)
    ensures KeyRefines(RecordSighting(signal, id, now), entries[id := now], now)
  {
    RecordingRefines(signal, entries, if signal.Some? then signal.value.expiry - CAMPAIGN_WINDOW_SECS else 0, id, now);
  }

  lemma KeyReadsAgree(signal: Option<SignalSet>, entries: ZSet, clock: nat, now: nat)
    requires clock <= now
    requires match signal case None => entries == map[] case Some(s) => KeyRefines(s, entries, clock)
    ensures ReadSignal(signal, now) == Read(entries, Cutoff(now), CAMPAIGN_MATCHES_REPORTED)
  {
    ReadsAgree(signal, entries, if signal.Some? then signal.value.expiry - CAMPAIGN_WINDOW_SECS else 0, now);
  }

  class CampaignIndex {
    var signals: map<string, SignalSet>
    ghost var log: map<string, ZSet>
    /** No sighting recorded so far is later than this. */
    ghost var clock: nat

    ghost predicate Valid()
      reads this
    {
      && log.Keys == signals.Keys
      && forall key :: key in signals ==> KeyRefines(signals[key], log[key], clock)
    }

    constructor ()
      ensures Valid() && log == map[] && clock == 0
    {
      signals := map[];
      log := map[];
      clock := 0;
    }

    /** The recording commands for one key. */
    method RecordKey(key: string, id: string, now: nat)
      requires Valid() && clock <= now && now > 0
      modifies this
      ensures Valid() && clock == now
      ensures log == old(log)[key := Entries(old(log), key)[id := now]]
    {
      ghost var entries := Entries(log, key);
      var recorded := RecordSighting(LookUp(signals, key), id, now);
      RecordedKeyRefines(LookUp(signals, key), entries, clock, id, now);
      forall other | other in signals ensures KeyRefines(signals[other], log[other], now) {
        LaterClock(signals[other], log[other], clock, now);
      }
      signals := signals[key := recorded];
      log := log[key := entries[id := now]];
      clock := now;
    }

    /** The read that ends the commands for one key. */
    method ReadKey(key: string, now: nat) returns (read: seq<string>)
      requires Valid() && clock <= now
      ensures read == Read(Entries(log, key), Cutoff(now), CAMPAIGN_MATCHES_REPORTED)
    {
      KeyReadsAgree(LookUp(signals, key), Entries(log, key), clock, now);
      read := ReadSignal(LookUp(signals, key), now);
    }

    /**
     `campaign_context`: records the account on its keys unless told not to, and reports the other
     accounts recently seen there. The keys are a fingerprint and a set of domains, so they do not
     repeat. The report is exactly the 20 numerically largest other accounts that stand in some key's
     read of the uncapped log.
     */
    method Context(id: string, keys: seq<string>, now: nat, record: bool) returns (matches: seq<string>)
      requires Valid() && clock <= now && now > 0
      requires forall i, j :: 0 <= i < j < |keys| ==> keys[i] != keys[j]
      modifies this
      ensures Valid()
      ensures log == if record then Stamped(old(log), keys, id, now) else old(log)
      ensures !record ==> signals == old(signals)
      ensures matches == MostRecentMatches(MergedFromLog([], log, keys, id, now))
      ensures FoundAreUnpadded(log, keys, id, now) ==> IsReport(matches, log, keys, id, now)
    {
      var merged: seq<string> := [];
      ghost var final := if record then Stamped(log, keys, id, now) else log;
      assert keys[0..] == keys;
      for i := 0 to |keys|
        invariant Valid() && clock <= now
        invariant !record ==> signals == old(signals) && log == final
        invariant record ==> Stamped(log, keys[i..], id, now) == final
        invariant MergedFromLog(merged, final, keys[i..], id, now) == MergedFromLog([], final, keys, id, now)
      {
        ghost var rest := keys[i..];
        assert rest[0] == keys[i] && rest[1..] == keys[i + 1..];
        if record {
          RecordKey(keys[i], id, now);
          assert keys[i] !in keys[i + 1..];
          OtherKeysKept(log, keys[i + 1..], id, now, keys[i]);
        }
        var read := ReadKey(keys[i], now);
        merged := Merge(merged, read, id);
      }
      matches := MostRecentMatches(merged);
      if FoundAreUnpadded(log, keys, id, now) {
        MergedIsReport(log, keys, id, now);
      }
    }
  }

  lemma {:induction false} OtherKeysKept(log: map<string, ZSet>, keys: seq<string>, id: string, now: nat, key: string)
    requires key !in keys
    ensures Entries(Stamped(log, keys, id, now), key) == Entries(log, key)
    decreases |keys|
  {
    if keys != [] {
      OtherKeysKept(log[keys[0] := Entries(log, keys[0])[id := now]], keys[1..], id, now, key);
    }
  }

  /** The merge holds exactly what the reads hold, the account itself left out, without repeats. */
  lemma {:induction false} MergeHolds(matches: seq<string>, read: seq<string>, id: string)
    requires Distinct(matches) && id !in matches
    ensures var m := Merge(matches, read, id);
            && Distinct(m) && id !in m
            && forall x :: x in m <==> x in matches || (x in read && x != id)
    decreases |read|
  {
    if read != [] {
      var next := if read[0] == id || read[0] in matches then matches else matches + [read[0]];
      MergeHolds(next, read[1..], id);
    }
  }

  lemma {:induction false} MergedHolds(matches: seq<string>, log: map<string, ZSet>, keys: seq<string>, id: string, now: nat)
    requires Distinct(matches) && id !in matches
    ensures var m := MergedFromLog(matches, log, keys, id, now);
            && Distinct(m) && id !in m
            && forall x :: x in m <==>
                 || x in matches
                 || (x != id && exists k :: 0 <= k < |keys| && x in Read(Entries(log, keys[k]), Cutoff(now), CAMPAIGN_MATCHES_REPORTED))
    decreases |keys|
  {
    if keys != [] {
      var read := Read(Entries(log, keys[0]), Cutoff(now), CAMPAIGN_MATCHES_REPORTED);
      MergeHolds(matches, read, id);
      var next := Merge(matches, read, id);
      MergedHolds(next, log, keys[1..], id, now);
      var m := MergedFromLog(matches, log, keys, id, now);
      forall x | x != id
        ensures (exists k :: 0 <= k < |keys| && x in Read(Entries(log, keys[k]), Cutoff(now), CAMPAIGN_MATCHES_REPORTED))
           <==> x in read || exists k :: 0 <= k < |keys[1..]| && x in Read(Entries(log, keys[1..][k]), Cutoff(now), CAMPAIGN_MATCHES_REPORTED)
      {
        if k :| 0 <= k < |keys| && x in Read(Entries(log, keys[k]), Cutoff(now), CAMPAIGN_MATCHES_REPORTED) {
          if k > 0 {
            assert keys[1..][k - 1] == keys[k];
          }
        }
        if k :| 0 <= k < |keys[1..]| && x in Read(Entries(log, keys[1..][k]), Cutoff(now), CAMPAIGN_MATCHES_REPORTED) {
          assert keys[k + 1] == keys[1..][k];
        }
      }
    }
  }
}
