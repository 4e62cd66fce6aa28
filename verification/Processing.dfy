/**
 Chunked concurrent processing (src/check.rs, `process_accounts`) and the sequential scan it
 refines. What each account's check would answer is given as `results`; the order in which the
 tasks of a chunk finish is left open.
 */
module Processing {
  import opened Wrappers
  import opened Accounts

  datatype Outcome = Existing | System | NotSpam | Spam(notified: bool) | Undetermined

  datatype TaskResult = Checked(outcome: Outcome) | CheckFailed(error: string) | Panicked(error: string)

  datatype Failure =
    | CheckError(id: AccountId, error: string)
    | NoResult(id: AccountId)
    | JoinError(error: string)

  datatype Summary = Summary(
    lastContiguousId: Option<AccountId>,
    spamDetected: nat,
    spamNotified: nat,
    undetermined: nat,
    skippedExisting: nat,
    firstFailure: Option<Failure>)
  {
    /** `record_failure`: the first failure recorded is the one kept. */
    function RecordFailure(failure: Failure): Summary {
      if firstFailure.Some? then this else this.(firstFailure := Some(failure))
    }

    function Count(outcome: Outcome): Summary {
      match outcome
      case Spam(notified) =>
        this.(spamDetected := spamDetected + 1, spamNotified := spamNotified + (if notified then 1 else 0))
      case Undetermined => this.(undetermined := undetermined + 1)
      case Existing => this.(skippedExisting := skippedExisting + 1)
      case System => this
      case NotSpam => this
    }
  }

  const EMPTY := Summary(None, 0, 0, 0, 0, None)

  /** One account of the in-order pass over a chunk. */
  function FailureOf(id: AccountId, result: TaskResult): Failure
    requires !result.Checked?
  {
    match result
    case CheckFailed(error) => CheckError(id, error)
    case Panicked(_) => NoResult(id)
  }

  /** The reference: accounts one by one, stopping at the first that does not succeed. */
  function Scan(accounts: seq<Account>, results: seq<TaskResult>, summary: Summary): Summary
    requires |accounts| == |results|
    decreases |accounts|
  {
    if accounts == [] then summary
    else if results[0].Checked? then
      Scan(accounts[1..], results[1..], summary.Count(results[0].outcome).(lastContiguousId := Some(accounts[0].id)))
    else summary.RecordFailure(FailureOf(accounts[0].id, results[0]))
  }

  /** How many accounts succeed before the first that does not. */
  function SuccessfulPrefix(results: seq<TaskResult>): (k: nat)
    ensures k <= |results|
    ensures forall i :: 0 <= i < k ==> results[i].Checked?
    ensures k < |results| ==> !results[k].Checked?
  {
    if results == [] || !results[0].Checked? then 0 else 1 + SuccessfulPrefix(results[1..])
  }

  function CountWhere(results: seq<TaskResult>, p: Outcome -> bool): nat {
    if results == [] then 0
    else (if results[0].Checked? && p(results[0].outcome) then 1 else 0) + CountWhere(results[1..], p)
  }

  /** What the scan reports, read off the longest successful prefix. */
  lemma {:induction false} ScanReportsThePrefix(accounts: seq<Account>, results: seq<TaskResult>, summary: Summary)
    requires |accounts| == |results|
    requires summary.firstFailure.None?
    ensures var k := SuccessfulPrefix(results);
            var s := Scan(accounts, results, summary);
            && s.lastContiguousId == (if k == 0 then summary.lastContiguousId else Some(accounts[k - 1].id))
            && s.spamDetected == summary.spamDetected + CountWhere(results[..k], (o: Outcome) => o.Spam?)
            && s.spamNotified == summary.spamNotified + CountWhere(results[..k], (o: Outcome) => o.Spam? && o.notified)
            && s.undetermined == summary.undetermined + CountWhere(results[..k], (o: Outcome) => o.Undetermined?)
            && s.skippedExisting == summary.skippedExisting + CountWhere(results[..k], (o: Outcome) => o.Existing?)
            && (k == |results| ==> s.firstFailure == None)
            && (k < |results| ==>
                  s.firstFailure == Some(if results[k].CheckFailed? then CheckError(accounts[k].id, results[k].error) else NoResult(accounts[k].id)))
    decreases |accounts|
  {
    if accounts != [] && results[0].Checked? {
      var k := SuccessfulPrefix(results);
      var next := summary.Count(results[0].outcome).(lastContiguousId := Some(accounts[0].id));
      ScanReportsThePrefix(accounts[1..], results[1..], next);
      assert results[..k][1..] == results[1..][..k - 1];
    }
  }

  /** Scanning in two parts, when the first part succeeds. */
  lemma {:induction false} ScanConcat(accounts: seq<Account>, results: seq<TaskResult>, n: nat, summary: Summary)
    requires |accounts| == |results| && n <= |accounts|
    ensures var s := Scan(accounts[..n], results[..n], summary);
            Scan(accounts, results, summary) ==
              if SuccessfulPrefix(results[..n]) == n then Scan(accounts[n..], results[n..], s) else s
    decreases n
  {
    if n == 0 {
      assert accounts[n..] == accounts && results[n..] == results;
    } else if results[0].Checked? {
      var next := summary.Count(results[0].outcome).(lastContiguousId := Some(accounts[0].id));
      ScanConcat(accounts[1..], results[1..], n - 1, next);
      assert accounts[1..][..n - 1] == accounts[..n][1..] && results[1..][..n - 1] == results[..n][1..];
      assert accounts[1..][n - 1..] == accounts[n..] && results[1..][n - 1..] == results[n..];
    }
  }

  ghost predicate NoPanic(results: seq<TaskResult>) {
    forall i :: 0 <= i < |results| ==> !results[i].Panicked?
  }

  /** What the run has recorded of a panic among the tasks joined so far. */
  ghost predicate PanicRecorded(failure: Option<Failure>, results: seq<TaskResult>) {
    failure.Some? && failure.value.JoinError? && exists i :: 0 <= i < |results| && results[i] == Panicked(failure.value.error)
  }

  function IndicesBelow(n: nat): (indices: set<nat>)
    ensures forall i: int :: i in indices <==> 0 <= i < n
  {
    if n == 0 then {} else IndicesBelow(n - 1) + {n - 1}
  }

  /**
   Joins the tasks of one chunk, in whatever order they finish. A task that panicked is recorded at
   once and leaves no result.
   */
  method JoinChunk(chunk: seq<Account>, results: seq<TaskResult>, summary: Summary)
    returns (joined: map<AccountId, TaskResult>, after: Summary)
    requires |chunk| == |results| && DistinctIds(chunk)
    requires summary.firstFailure.None?
    ensures forall i :: 0 <= i < |chunk| ==> (chunk[i].id in joined <==> !results[i].Panicked?)
    ensures forall i :: 0 <= i < |chunk| && chunk[i].id in joined ==> joined[chunk[i].id] == results[i]
    ensures after.(firstFailure := None) == summary
    ensures if NoPanic(results) then after.firstFailure.None? else PanicRecorded(after.firstFailure, results)
  {
    joined := map[];
    after := summary;
    var running := IndicesBelow(|chunk|);
    ghost var panicked := false;
    while running != {}
      invariant forall i :: i in running ==> 0 <= i < |chunk|
      invariant forall i :: 0 <= i < |chunk| ==> (chunk[i].id in joined <==> i !in running && !results[i].Panicked?)
      invariant forall i :: 0 <= i < |chunk| && chunk[i].id in joined ==> joined[chunk[i].id] == results[i]
      invariant after.(firstFailure := None) == summary
      invariant panicked ==> PanicRecorded(after.firstFailure, results)
      invariant !panicked ==> after.firstFailure.None? && forall i :: 0 <= i < |chunk| && i !in running ==> !results[i].Panicked?
      decreases |running|
    {
      var i :| i in running;
      running := running - {i};
      if results[i].Panicked? {
        after := after.RecordFailure(JoinError(results[i].error));
        panicked := true;
      } else {
        joined := joined[chunk[i].id := results[i]];
      }
    }
  }

  /** The pass over a chunk in original order. */
  method FoldChunk(chunk: seq<Account>, ghost results: seq<TaskResult>, joined: map<AccountId, TaskResult>, summary: Summary)
    returns (after: Summary, ghost succeeded: nat)
    requires |chunk| == |results| && DistinctIds(chunk)
    requires forall i :: 0 <= i < |chunk| ==> (chunk[i].id in joined <==> !results[i].Panicked?)
    requires forall i :: 0 <= i < |chunk| && chunk[i].id in joined ==> joined[chunk[i].id] == results[i]
    ensures succeeded == SuccessfulPrefix(results)
    ensures after == Scan(chunk, results, summary)
  {
    after := summary;
    var i := 0;
    assert chunk[0..] == chunk && results[0..] == results;
    while i < |chunk|
      invariant i <= |chunk|
      invariant forall j :: 0 <= j < i ==> results[j].Checked?
      invariant Scan(chunk[i..], results[i..], after) == Scan(chunk, results, summary)
    {
      var account := chunk[i];
      assert results[i..][0] == results[i] && chunk[i..][0] == account;
      if account.id !in joined || !joined[account.id].Checked? {
        var failure := if account.id in joined then FailureOf(account.id, joined[account.id]) else NoResult(account.id);
        after := after.RecordFailure(failure);
        break;
      }
      after := after.Count(joined[account.id].outcome).(lastContiguousId := Some(account.id));
      assert chunk[i..][1..] == chunk[i + 1..] && results[i..][1..] == results[i + 1..];
      i := i + 1;
    }
    succeeded := i;
    PrefixIs(results, i);
  }

  lemma {:induction false} PrefixIs(results: seq<TaskResult>, k: nat)
    requires k <= |results|
    requires forall i :: 0 <= i < k ==> results[i].Checked?
    requires k < |results| ==> !results[k].Checked?
    ensures SuccessfulPrefix(results) == k
  {
  }

  /** One chunk: its tasks joined, then passed over in original order. */
  method ProcessChunk(chunk: seq<Account>, results: seq<TaskResult>, summary: Summary) returns (after: Summary)
    requires |chunk| == |results| && DistinctIds(chunk)
    requires summary.firstFailure.None?
    ensures WithoutFailure(after) == WithoutFailure(Scan(chunk, results, summary))
    ensures after.firstFailure.Some? <==> SuccessfulPrefix(results) < |results|
    ensures if NoPanic(results) then after == Scan(chunk, results, summary) else PanicRecorded(after.firstFailure, results)
  {
    var joined, afterJoin := JoinChunk(chunk, results, summary);
    ghost var succeeded;
    after, succeeded := FoldChunk(chunk, results, joined, afterJoin);
    ScanKeepsEarlierFailure(chunk, results, afterJoin);
    ScanReportsThePrefix(chunk, results, summary);
  }

  /** Everything but the failure text of a panicked task. */
  function WithoutFailure(summary: Summary): Summary {
    summary.(firstFailure := None)
  }

  /** Where a chunk may begin. */
  predicate IsBoundary(b: nat, concurrency: nat)
    requires concurrency >= 1
  {
    b == 0 || (b >= concurrency && IsBoundary(b - concurrency, concurrency))
  }

  /** Entry `i` is in a chunk before which all of the first `k` entries suffice: every earlier chunk succeeded. */
  ghost predicate Reached(i: nat, concurrency: nat, k: nat)
    requires concurrency >= 1
  {
    exists b: nat :: IsBoundary(b, concurrency) && b <= i < b + concurrency && b <= k
  }

  lemma {:induction false} BoundariesAreApart(a: nat, b: nat, concurrency: nat)
    requires concurrency >= 1 && IsBoundary(a, concurrency) && IsBoundary(b, concurrency) && a < b
    ensures a + concurrency <= b
  {
    if a > 0 {
      BoundariesAreApart(a - concurrency, b - concurrency, concurrency);
    }
  }

  lemma {:induction false} EveryEntryHasChunk(i: nat, concurrency: nat) returns (b: nat)
    requires concurrency >= 1
    ensures IsBoundary(b, concurrency) && b <= i < b + concurrency
  {
    if i < concurrency {
      b := 0;
    } else {
      b := EveryEntryHasChunk(i - concurrency, concurrency);
      b := b + concurrency;
    }
  }

  /** A run whose last chunk began at `b` and holds the first failure reached what that chunk ends. */
  lemma ReachedUpTo(b: nat, concurrency: nat, k: nat, i: nat)
    requires concurrency >= 1 && IsBoundary(b, concurrency) && b <= k < b + concurrency
    ensures Reached(i, concurrency, k) <==> i < b + concurrency
  {
    var mine := EveryEntryHasChunk(i, concurrency);
    if mine < b {
      BoundariesAreApart(mine, b, concurrency);
    } else if b < mine {
      BoundariesAreApart(b, mine, concurrency);
      if Reached(i, concurrency, k) {
        var other: nat :| IsBoundary(other, concurrency) && other <= i < other + concurrency && other <= k;
        if other < mine {
          BoundariesAreApart(other, mine, concurrency);
        }
      }
    }
  }

  lemma LastChunkReached(b: nat, concurrency: nat, k: nat, n: nat)
    requires concurrency >= 1 && IsBoundary(b, concurrency) && b <= k < b + concurrency && k < n
    ensures forall i :: 0 <= i < n ==> (i < Min(b + concurrency, n) <==> Reached(i, concurrency, k))
  {
    forall i | 0 <= i < n ensures i < Min(b + concurrency, n) <==> Reached(i, concurrency, k) {
      ReachedUpTo(b, concurrency, k, i);
    }
  }

  lemma AllReached(concurrency: nat, n: nat)
    requires concurrency >= 1
    ensures forall i :: 0 <= i < n ==> Reached(i, concurrency, n)
  {
    forall i | 0 <= i < n ensures Reached(i, concurrency, n) {
      var b := EveryEntryHasChunk(i, concurrency);
    }
  }

  /**
   `process_accounts`. For every concurrency and every completion order the cursor and the counts
   are those of the one-by-one scan, and so is the failure reported unless a task panicked.
   `started` is how many accounts were handed to tasks: past the account that stopped the run, at
   most `concurrency - 1` more, and exactly those of which every earlier chunk succeeded.
   */
  method ProcessAccounts(accounts: seq<Account>, results: seq<TaskResult>, concurrency: nat)
    returns (summary: Summary, started: nat)
    requires |accounts| == |results| && DistinctIds(accounts) && concurrency >= 1
    ensures started <= |accounts|
    ensures WithoutFailure(summary) == WithoutFailure(Scan(accounts, results, EMPTY))
    ensures summary.firstFailure.Some? <==> Scan(accounts, results, EMPTY).firstFailure.Some?
    ensures if NoPanic(results[..started]) then summary == Scan(accounts, results, EMPTY)
            else PanicRecorded(summary.firstFailure, results[..started])
    ensures var k := SuccessfulPrefix(results);
            if k == |accounts| then started == |accounts| else k < started < k + 1 + concurrency
    ensures forall i :: 0 <= i < |accounts| ==> (i < started <==> Reached(i, concurrency, SuccessfulPrefix(results)))
  {
    summary := EMPTY;
    started := 0;
    assert accounts[0..] == accounts && results[0..] == results;
    while started < |accounts|
      invariant started <= |accounts|
      invariant started < |accounts| ==> IsBoundary(started, concurrency)
      invariant summary.firstFailure.None?
      invariant forall i :: 0 <= i < started ==> results[i].Checked?
      invariant Scan(accounts[started..], results[started..], summary) == Scan(accounts, results, EMPTY)
    {
      var end := Min(started + concurrency, |accounts|);
      var chunk := accounts[started..end];
      ghost var outcomes := results[started..end];
      ghost var before := summary;
      summary := ProcessChunk(chunk, results[started..end], summary);
      Split(accounts, results, started, end, before);
      if summary.firstFailure.Some? {
        RunStops(results, started, end, concurrency, summary.firstFailure);
        started := end;
        return;
      }
      ChunkSucceeded(results, started, end);
      started := end;
    }
    PrefixIs(results, |results|);
    AllReached(concurrency, |accounts|);
  }

  lemma ChunkSucceeded(results: seq<TaskResult>, from: nat, end: nat)
    requires from <= end <= |results| && SuccessfulPrefix(results[from..end]) == end - from
    ensures forall i :: from <= i < end ==> results[i].Checked?
    ensures NoPanic(results[from..end])
  {
    assert forall i :: from <= i < end ==> results[i] == results[from..end][i - from];
  }

  /** A run that stops in the chunk from `from` to `end`: how far it got, and which panics it saw. */
  lemma RunStops(results: seq<TaskResult>, from: nat, end: nat, concurrency: nat, failure: Option<Failure>)
    requires concurrency >= 1 && from < end == Min(from + concurrency, |results|)
    requires IsBoundary(from, concurrency) && forall i :: 0 <= i < from ==> results[i].Checked?
    requires SuccessfulPrefix(results[from..end]) < end - from
    ensures from <= SuccessfulPrefix(results) < end
    ensures forall i :: 0 <= i < |results| ==> (i < end <==> Reached(i, concurrency, SuccessfulPrefix(results)))
    ensures NoPanic(results[..end]) <==> NoPanic(results[from..end])
    ensures PanicRecorded(failure, results[from..end]) ==> PanicRecorded(failure, results[..end])
  {
    var k := SuccessfulPrefix(results[from..end]);
    assert forall i :: from <= i < end ==> results[i] == results[from..end][i - from];
    PrefixIs(results, from + k);
    PanicsInChunk(results, from, end);
    LastChunkReached(from, concurrency, from + k, |results|);
  }

  /** What is left of the scan once the chunk from `from` to `end` is done. */
  lemma Split(accounts: seq<Account>, results: seq<TaskResult>, from: nat, end: nat, summary: Summary)
    requires |accounts| == |results| && from <= end <= |accounts|
    requires summary.firstFailure.None?
    ensures var s := Scan(accounts[from..end], results[from..end], summary);
            && (SuccessfulPrefix(results[from..end]) == end - from ==>
                  && s.firstFailure.None?
                  && Scan(accounts[from..], results[from..], summary) == Scan(accounts[end..], results[end..], s))
            && (SuccessfulPrefix(results[from..end]) < end - from ==>
                  && s.firstFailure.Some?
                  && Scan(accounts[from..], results[from..], summary) == s)
  {
    var n := end - from;
    assert accounts[from..][..n] == accounts[from..end] && results[from..][..n] == results[from..end];
    assert accounts[from..][n..] == accounts[end..] && results[from..][n..] == results[end..];
    ScanConcat(accounts[from..], results[from..], n, summary);
    ScanReportsThePrefix(accounts[from..end], results[from..end], summary);
  }

  /** A failure recorded before the pass survives it, and changes nothing else. */
  lemma {:induction false} ScanKeepsEarlierFailure(chunk: seq<Account>, results: seq<TaskResult>, summary: Summary)
    requires |chunk| == |results|
    ensures var with, without := Scan(chunk, results, summary), Scan(chunk, results, WithoutFailure(summary));
            && WithoutFailure(with) == WithoutFailure(without)
            && (summary.firstFailure.Some? ==> with.firstFailure == summary.firstFailure)
            && (summary.firstFailure.None? ==> with == without)
    decreases |chunk|
  {
    if chunk != [] && results[0].Checked? {
      ScanKeepsEarlierFailure(chunk[1..], results[1..], summary.Count(results[0].outcome).(lastContiguousId := Some(chunk[0].id)));
    }
  }

  lemma PanicsInChunk(results: seq<TaskResult>, from: nat, end: nat)
    requires from <= end <= |results|
    requires forall i :: 0 <= i < from ==> results[i].Checked?
    ensures NoPanic(results[..end]) <==> NoPanic(results[from..end])
    ensures forall f: Option<Failure> :: PanicRecorded(f, results[from..end]) ==> PanicRecorded(f, results[..end])
  {
    forall i | from <= i < end ensures results[..end][i] == results[from..end][i - from] {
    }
    forall f: Option<Failure> | PanicRecorded(f, results[from..end]) ensures PanicRecorded(f, results[..end]) {
      var i :| 0 <= i < |results[from..end]| && results[from..end][i] == Panicked(f.value.error);
      assert results[..end][from + i] == Panicked(f.value.error);
    }
  }
}
