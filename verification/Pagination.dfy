/**
 Pagination over the Admin API (src/mastodon.rs, `fetch_remote_accounts`). The server is an
 arbitrary function of the request number and the request; `listed` is the set of remote accounts
 it knows at each request, which may grow while the loop runs.
 */
module Pagination {
  import opened Wrappers
  import opened Accounts

  datatype Request = Request(minId: Option<AccountId>, maxId: Option<AccountId>, limit: nat)

  /** The answer to the n-th request: a page, or a request that failed for good. */
  type Server = (nat, Request) -> Option<seq<Account>>

  const MAX_PAGE: nat := 200

  /** The IDs of `pool` strictly between the bounds. */
  function Between(pool: set<AccountId>, minId: Option<AccountId>, maxId: Option<AccountId>): set<AccountId> {
    set x | x in pool && (minId.Some? ==> minId.value < x) && (maxId.Some? ==> x < maxId.value)
  }

  /** With any ID of `pool`, `ids` holds every lower one. */
  ghost predicate LowerClosed(ids: set<AccountId>, pool: set<AccountId>) {
    ids <= pool && forall x, y :: x in pool && y in ids && x < y ==> x in ids
  }

  /** With any ID of `pool`, `ids` holds every higher one. */
  ghost predicate UpperClosed(ids: set<AccountId>, pool: set<AccountId>) {
    ids <= pool && forall x, y :: x in pool && y in ids && x > y ==> x in ids
  }

  /** `ids` are the `n` lowest of `pool`, or all of it when it has no more. */
  ghost predicate Lowest(ids: set<AccountId>, pool: set<AccountId>, n: nat) {
    LowerClosed(ids, pool) && |ids| <= n && (|ids| == n || ids == pool)
  }

  /** `ids` are the `n` highest of `pool`, or all of it when it has no more. */
  ghost predicate Highest(ids: set<AccountId>, pool: set<AccountId>, n: nat) {
    UpperClosed(ids, pool) && |ids| <= n && (|ids| == n || ids == pool)
  }

  /**
   What the API promises of one page: it is contiguous from the bound the request names, holds no
   more than was asked for, and is short only when nothing is left. An ID may repeat inside a page.
   */
  ghost predicate PageObeys(page: seq<Account>, request: Request, pool: set<AccountId>) {
    var ids := IdsOf(page);
    var wanted := Between(pool, request.minId, request.maxId);
    && |page| <= request.limit
    && (if request.minId.Some? then LowerClosed(ids, wanted) else UpperClosed(ids, wanted))
    && (|page| < request.limit ==> ids == wanted)
  }

  /** Accounts that federate while the loop runs get IDs above every existing one. */
  ghost predicate GrowsUpward(before: set<AccountId>, after: set<AccountId>) {
    before <= after && forall x, y :: x in before && y in after && y !in before ==> x < y
  }

  ghost predicate ServerObeys(server: Server, listed: nat -> set<AccountId>) {
    && (forall n, request :: server(n, request).Some? ==> PageObeys(server(n, request).value, request, listed(n)))
    && (forall n: nat :: GrowsUpward(listed(n), listed(n + 1)))
  }

  /** The part of `pool` up to, or down to, the bound of the next page. */
  function UpTo(pool: set<AccountId>, bound: AccountId): set<AccountId> {
    set x | x in pool && x <= bound
  }

  function DownTo(pool: set<AccountId>, bound: AccountId): set<AccountId> {
    set x | x in pool && bound <= x
  }

  /** What a forward loop has gathered: everything up to the bound of the next page. */
  ghost predicate GatheredForward(accounts: seq<Account>, pool: set<AccountId>, minId: AccountId, maxId: Option<AccountId>, next: AccountId) {
    && minId <= next
    && StrictlyAscending(accounts)
    && IdsOf(accounts) == UpTo(Between(pool, Some(minId), maxId), next)
    && (next == minId || next in IdsOf(accounts))
  }

  /** What a backward loop has gathered: everything down to the bound of the next page. */
  ghost predicate GatheredBackward(accounts: seq<Account>, pool: set<AccountId>, maxId: Option<AccountId>, next: Option<AccountId>) {
    && |IdsOf(accounts)| == |accounts|
    && if next == maxId then accounts == []
       else next.Some? && next.value in IdsOf(accounts) && IdsOf(accounts) == DownTo(Between(pool, None, maxId), next.value)
  }

  lemma GrowthKeepsForward(accounts: seq<Account>, pool: set<AccountId>, later: set<AccountId>,
                           minId: AccountId, maxId: Option<AccountId>, next: AccountId)
    requires GatheredForward(accounts, pool, minId, maxId, next) && next != minId && GrowsUpward(pool, later)
    ensures GatheredForward(accounts, later, minId, maxId, next)
  {
    assert next in pool;
  }

  /** The sets behind a forward page: `page` extends `gathered` without a gap. */
  lemma ForwardSets(pool: set<AccountId>, minId: AccountId, maxId: Option<AccountId>, next: AccountId, page: set<AccountId>)
    requires minId <= next
    requires LowerClosed(page, Between(pool, Some(next), maxId))
    ensures var wanted := Between(pool, Some(minId), maxId);
            var all := UpTo(wanted, next) + page;
            && UpTo(wanted, next) !! page
            && LowerClosed(all, wanted)
            && (page == Between(pool, Some(next), maxId) ==> all == wanted)
            && (forall last :: last in page && (forall x :: x in page ==> x <= last) ==> all == UpTo(wanted, last))
  {
  }

  lemma BackwardSets(pool: set<AccountId>, maxId: Option<AccountId>, next: AccountId, page: set<AccountId>)
    requires maxId.Some? ==> next < maxId.value
    requires UpperClosed(page, Between(pool, None, Some(next)))
    ensures var wanted := Between(pool, None, maxId);
            var all := DownTo(wanted, next) + page;
            && DownTo(wanted, next) !! page
            && UpperClosed(all, wanted)
            && (page == Between(pool, None, Some(next)) ==> all == wanted)
            && (forall first :: first in page && (forall x :: x in page ==> first <= x) ==> all == DownTo(wanted, first))
  {
  }

  lemma IdsOfConcat(a: seq<Account>, b: seq<Account>)
    ensures IdsOf(a + b) == IdsOf(a) + IdsOf(b)
  {
    forall x | x in IdsOf(a) + IdsOf(b) ensures x in IdsOf(a + b) {
      if x in IdsOf(a) {
        var i :| 0 <= i < |a| && a[i].id == x;
        assert (a + b)[i].id == x;
      } else {
        var i :| 0 <= i < |b| && b[i].id == x;
        assert (a + b)[|a| + i].id == x;
      }
    }
    forall x | x in IdsOf(a + b) ensures x in IdsOf(a) + IdsOf(b) {
      var i :| 0 <= i < |a + b| && (a + b)[i].id == x;
      if i < |a| {
        assert a[i].id == x;
      } else {
        assert b[i - |a|].id == x;
      }
    }
  }

  lemma LastIsGreatest(page: seq<Account>)
    requires StrictlyAscending(page) && page != []
    ensures page[|page| - 1].id in IdsOf(page) && page[0].id in IdsOf(page)
    ensures forall x :: x in IdsOf(page) ==> page[0].id <= x <= page[|page| - 1].id
  {
  }

  /** A forward page continues exactly where the accounts gathered so far end. */
  lemma ForwardPage(accounts: seq<Account>, raw: seq<Account>, pool: set<AccountId>,
                    minId: AccountId, maxId: Option<AccountId>, next: AccountId, limit: nat)
    requires GatheredForward(accounts, pool, minId, maxId, next)
    requires PageObeys(raw, Request(Some(next), maxId, limit), pool)
    ensures var page := SortUnique(raw);
            var wanted := Between(pool, Some(minId), maxId);
            && StrictlyAscending(accounts + page)
            && LowerClosed(IdsOf(accounts + page), wanted)
            && (|raw| < limit ==> IdsOf(accounts + page) == wanted)
            && (page != [] ==>
                  && page[|page| - 1].id > next
                  && GatheredForward(accounts + page, pool, minId, maxId, page[|page| - 1].id))
  {
    var page := SortUnique(raw);
    SortUniqueIsSortedUnique(raw);
    IdsOfConcat(accounts, page);
    ForwardSets(pool, minId, maxId, next, IdsOf(page));
    AscendingConcat(accounts, page, next);
    if page != [] {
      LastIsGreatest(page);
    }
  }

  lemma AscendingConcat(a: seq<Account>, b: seq<Account>, bound: AccountId)
    requires StrictlyAscending(a) && StrictlyAscending(b)
    requires forall x :: x in IdsOf(a) ==> x <= bound
    requires forall x :: x in IdsOf(b) ==> bound < x
    ensures StrictlyAscending(a + b)
  {
    forall i | 0 <= i < |a| ensures a[i].id <= bound {
      assert a[i].id in IdsOf(a);
    }
    forall j | 0 <= j < |b| ensures bound < b[j].id {
      assert b[j].id in IdsOf(b);
    }
  }

  lemma PageNoLonger(raw: seq<Account>)
    ensures |SortUnique(raw)| <= |raw|
    ensures raw != [] ==> SortUnique(raw) != []
  {
    SortUniqueIsSortedUnique(raw);
    AscendingIdCount(SortUnique(raw));
    IdCountAtMost(raw);
    if raw != [] {
      assert raw[0].id in IdsOf(raw);
    }
  }

  lemma {:induction false} IdCountAtMost(raw: seq<Account>)
    ensures |IdsOf(raw)| <= |raw|
  {
    if raw != [] {
      IdCountAtMost(raw[1..]);
      IdsOfConcat([raw[0]], raw[1..]);
      assert raw == [raw[0]] + raw[1..];
      assert IdsOf([raw[0]]) == {raw[0].id};
    }
  }

  /** The first backward page is the top of the listing. */
  lemma FirstBackwardPage(raw: seq<Account>, pool: set<AccountId>, maxId: Option<AccountId>, limit: nat)
    requires PageObeys(raw, Request(None, maxId, limit), pool)
    ensures var page := SortUnique(raw);
            var wanted := Between(pool, None, maxId);
            && |IdsOf(page)| == |page|
            && UpperClosed(IdsOf(page), wanted)
            && (|raw| < limit ==> IdsOf(page) == wanted)
            && (page != [] ==>
                  && (maxId.Some? ==> page[0].id < maxId.value)
                  && GatheredBackward(page, pool, maxId, Some(page[0].id)))
  {
    var page := SortUnique(raw);
    SortUniqueIsSortedUnique(raw);
    AscendingIdCount(page);
    if page != [] {
      LastIsGreatest(page);
    }
    FirstBackwardSets(pool, maxId, IdsOf(page));
  }

  /** A later backward page continues exactly where the accounts gathered so far end. */
  lemma LaterBackwardPage(accounts: seq<Account>, raw: seq<Account>, pool: set<AccountId>,
                          maxId: Option<AccountId>, next: AccountId, limit: nat)
    requires GatheredBackward(accounts, pool, maxId, Some(next)) && Some(next) != maxId
    requires PageObeys(raw, Request(None, Some(next), limit), pool)
    ensures var page := SortUnique(raw);
            var wanted := Between(pool, None, maxId);
            && |IdsOf(accounts + page)| == |accounts + page|
            && UpperClosed(IdsOf(accounts + page), wanted)
            && (|raw| < limit ==> IdsOf(accounts + page) == wanted)
            && (page != [] ==>
                  && page[0].id < next
                  && GatheredBackward(accounts + page, pool, maxId, Some(page[0].id)))
  {
    var page := SortUnique(raw);
    SortUniqueIsSortedUnique(raw);
    IdsOfConcat(accounts, page);
    AscendingIdCount(page);
    if page != [] {
      LastIsGreatest(page);
    }
    BackwardSets(pool, maxId, next, IdsOf(page));
  }

  lemma FirstBackwardSets(pool: set<AccountId>, maxId: Option<AccountId>, page: set<AccountId>)
    requires UpperClosed(page, Between(pool, None, maxId))
    ensures forall first :: first in page && (forall x :: x in page ==> first <= x) ==> page == DownTo(Between(pool, None, maxId), first)
  {
  }

  /** New accounts never enter the part of the listing below an account already gathered. */
  lemma GrowthBelow(pool: set<AccountId>, later: set<AccountId>, maxId: Option<AccountId>, bound: AccountId)
    requires GrowsUpward(pool, later) && bound in pool
    ensures Between(later, None, Some(bound)) == Between(pool, None, Some(bound))
  {
  }

  lemma {:induction false} GrowthChains(listed: nat -> set<AccountId>, n: nat)
    requires forall k: nat :: GrowsUpward(listed(k), listed(k + 1))
    ensures GrowsUpward(listed(0), listed(n))
  {
    if n > 0 {
      GrowthChains(listed, n - 1);
      assert GrowsUpward(listed(n - 1), listed(n - 1 + 1));
    }
  }

  /** The account was on some page the server sent. */
  ghost predicate Served(server: Server, requests: nat, account: Account) {
    exists n, request :: 0 <= n < requests && server(n, request).Some? && account in server(n, request).value
  }

  /** The loop state of `fetch_remote_accounts` against a server that keeps the contract. */
  ghost predicate Gathered(server: Server, listed: nat -> set<AccountId>, requests: nat, accounts: seq<Account>,
                           minId: Option<AccountId>, maxId: Option<AccountId>, pageMin: Option<AccountId>, pageMax: Option<AccountId>)
  {
    if minId.Some? then
      && pageMax == maxId && pageMin.Some?
      && GatheredForward(accounts, listed(requests), minId.value, maxId, pageMin.value)
    else
      && pageMin.None?
      && (pageMax == maxId ==> requests == 0)
      && GatheredBackward(accounts, listed(0), maxId, pageMax)
  }

  /** What a fetch that made `requests` requests promises of the IDs it gathered. */
  ghost predicate Exact(ids: set<AccountId>, listed: nat -> set<AccountId>, requests: nat,
                        minId: Option<AccountId>, maxId: Option<AccountId>, n: nat)
  {
    if minId.Some? then Lowest(ids, Between(listed(if requests == 0 then 0 else requests - 1), minId, maxId), n)
    else Highest(ids, Between(listed(0), None, maxId), n)
  }

  /** How many accounts the first requests gathered. */
  ghost function GatheredBy(server: Server, asked: seq<Request>): nat {
    if asked == [] then 0
    else
      var n := |asked| - 1;
      GatheredBy(server, asked[..n]) + (match server(n, asked[n]) case None => 0 case Some(page) => |SortUnique(page)|)
  }

  /** The request asks for all that is still wanted, but for no more than 200 at once. */
  ghost predicate AsksForTheRest(server: Server, asked: seq<Request>, k: nat, maxAccounts: nat)
    requires k < |asked|
  {
    var wanted := maxAccounts - GatheredBy(server, asked[..k]);
    0 < asked[k].limit == if wanted <= 200 then wanted else 200
  }

  /** The requests of a fetch: the first has its bounds, and each asks for the rest. */
  ghost predicate AskedWell(server: Server, asked: seq<Request>, minId: Option<AccountId>, maxId: Option<AccountId>, maxAccounts: nat) {
    && (asked != [] ==> asked[0].minId == minId && asked[0].maxId == maxId)
    && forall k :: 0 <= k < |asked| ==> AsksForTheRest(server, asked, k, maxAccounts)
  }

  /** So many accounts have been gathered, and the first `requests` requests were as they should be. */
  ghost predicate AskedSoFar(server: Server, asked: seq<Request>, requests: nat, gathered: nat, minId: Option<AccountId>, maxId: Option<AccountId>, maxAccounts: nat) {
    |asked| == requests && AskedWell(server, asked, minId, maxId, maxAccounts) && GatheredBy(server, asked) == gathered
  }

  lemma AskedOnce(server: Server, asked: seq<Request>, requests: nat, gathered: nat, request: Request,
                  minId: Option<AccountId>, maxId: Option<AccountId>, maxAccounts: nat)
    requires AskedSoFar(server, asked, requests, gathered, minId, maxId, maxAccounts)
    requires requests == 0 ==> request.minId == minId && request.maxId == maxId
    requires gathered < maxAccounts && request.limit == Min(200, maxAccounts - gathered)
    ensures var page := server(requests, request);
            AskedSoFar(server, asked + [request], requests + 1, gathered + (if page.Some? then |SortUnique(page.value)| else 0), minId, maxId, maxAccounts)
  {
    var more := asked + [request];
    assert more[..|asked|] == asked;
    forall k | 0 <= k < |more| ensures AsksForTheRest(server, more, k, maxAccounts) {
      if k < |asked| {
        assert more[..k] == asked[..k] && AsksForTheRest(server, asked, k, maxAccounts);
      }
    }
  }

  /** One answered request: the accounts stay gathered, or the loop may stop with an exact answer. */
  lemma PageGathered(server: Server, listed: nat -> set<AccountId>, requests: nat, accounts: seq<Account>, raw: seq<Account>,
                     minId: Option<AccountId>, maxId: Option<AccountId>, pageMin: Option<AccountId>, pageMax: Option<AccountId>,
                     limit: nat, n: nat)
    requires ServerObeys(server, listed)
    requires Gathered(server, listed, requests, accounts, minId, maxId, pageMin, pageMax)
    requires server(requests, Request(pageMin, pageMax, limit)) == Some(raw)
    requires 0 < limit && |accounts| + limit <= n
    ensures var page := SortUnique(raw);
            && |accounts + page| <= n
            && (|raw| < limit || |accounts + page| == n ==>
                  Exact(IdsOf(accounts + page), listed, requests + 1, minId, maxId, n))
            && (|raw| >= limit ==>
                  && page != []
                  && Some(page[|page| - 1].id) != pageMin && Some(page[0].id) != pageMax
                  && Gathered(server, listed, requests + 1, accounts + page, minId, maxId,
                              if minId.Some? then Some(page[|page| - 1].id) else pageMin,
                              if minId.Some? then pageMax else Some(page[0].id)))
  {
    var page := SortUnique(raw);
    PageNoLonger(raw);
    var request := Request(pageMin, pageMax, limit);
    assert PageObeys(raw, request, listed(requests));
    if minId.Some? {
      ForwardPage(accounts, raw, listed(requests), minId.value, maxId, pageMin.value, limit);
      AscendingIdCount(accounts + page);
      if page != [] {
        GrowthKeepsForward(accounts + page, listed(requests), listed(requests + 1), minId.value, maxId, page[|page| - 1].id);
        SortUniqueIsSortedUnique(raw);
        LastIsGreatest(page);
      }
    } else {
      GrowthChains(listed, requests);
      if pageMax != maxId {
        assert pageMax.value in IdsOf(accounts);
        GrowthBelow(listed(0), listed(requests), maxId, pageMax.value);
        LaterBackwardPage(accounts, raw, listed(0), maxId, pageMax.value, limit);
      } else {
        assert accounts + page == page;
        FirstBackwardPage(raw, listed(0), maxId, limit);
      }
    }
  }

  /**
   `fetch_remote_accounts`. The loop ends against any server: every request that does not end it
   adds an account. Against a server that keeps the contract a forward fetch returns exactly the
   lowest `maxAccounts` IDs between the bounds, and a backward fetch exactly the highest, also when
   a page repeats an ID and when accounts federate meanwhile.
   */
  method FetchRemoteAccounts(server: Server, minId: Option<AccountId>, maxId: Option<AccountId>, maxAccounts: nat,
                             ghost listed: nat -> set<AccountId>)
    returns (fetched: Option<seq<Account>>, requests: nat, ghost asked: seq<Request>)
    ensures fetched.Some? ==> StrictlyAscending(fetched.value) && AllServed(server, requests, fetched.value)
    ensures requests <= maxAccounts
    ensures fetched.Some? ==> IsExactAnswer(server, listed, requests, fetched.value, minId, maxId, maxAccounts)
    ensures AskedSoFar(server, asked, requests, GatheredBy(server, asked), minId, maxId, maxAccounts)
  {
    var pageLimit := Min(maxAccounts, MAX_PAGE);
    var accounts: seq<Account> := [];
    var pageMin, pageMax := minId, maxId;
    requests := 0;
    asked := [];
    NothingWanted(listed, minId, maxId);
    while |accounts| < maxAccounts
      invariant requests <= |accounts|
      invariant |accounts| < maxAccounts || (requests == 0 == maxAccounts && accounts == [])
      invariant TakenSoFar(server, requests, accounts, asked, minId, maxId, maxAccounts)
      invariant requests == 0 ==> pageMin == minId && pageMax == maxId
      invariant |accounts| < maxAccounts ==> MayGoOn(server, listed, requests, accounts, minId, maxId, pageMin, pageMax)
      decreases maxAccounts - |accounts|
    {
      var limit := Min(pageLimit, maxAccounts - |accounts|);
      var reply := server(requests, Request(pageMin, pageMax, limit));
      if reply.None? {
        AskedOnce(server, asked, requests, |accounts|, Request(pageMin, pageMax, limit), minId, maxId, maxAccounts);
        return None, requests + 1, asked + [Request(pageMin, pageMax, limit)];
      }
      PageTaken(server, listed, requests, accounts, asked, reply.value, minId, maxId, pageMin, pageMax, limit, maxAccounts);
      asked := asked + [Request(pageMin, pageMax, limit)];
      var pageWasFull := |reply.value| >= limit;
      var page := SortUnique(reply.value);
      accounts := accounts + page;
      requests := requests + 1;
      if !pageWasFull || |accounts| >= maxAccounts {
        break;
      }
      var nextMin := Some(page[|page| - 1].id);
      var nextMax := Some(page[0].id);
      if minId.Some? {
        if nextMin == pageMin {
          break;
        }
        pageMin := nextMin;
      } else {
        if nextMax == pageMax {
          break;
        }
        pageMax := nextMax;
      }
    }
    assert IsExactAnswer(server, listed, requests, accounts, minId, maxId, maxAccounts);
    assert TakenSoFar(server, requests, accounts, asked, minId, maxId, maxAccounts);
    AnswerIsSorted(server, listed, requests, accounts, minId, maxId, maxAccounts);
    fetched := Some(SortUnique(accounts));
  }

  lemma AnswerIsSorted(server: Server, listed: nat -> set<AccountId>, requests: nat, accounts: seq<Account>,
                       minId: Option<AccountId>, maxId: Option<AccountId>, maxAccounts: nat)
    requires AllServed(server, requests, accounts) && IsExactAnswer(server, listed, requests, accounts, minId, maxId, maxAccounts)
    ensures StrictlyAscending(SortUnique(accounts)) && AllServed(server, requests, SortUnique(accounts))
    ensures IsExactAnswer(server, listed, requests, SortUnique(accounts), minId, maxId, maxAccounts)
  {
    SortedServed(server, requests, accounts);
  }

  /** What the loop keeps against any server. */
  ghost predicate TakenSoFar(server: Server, requests: nat, accounts: seq<Account>, asked: seq<Request>,
                             minId: Option<AccountId>, maxId: Option<AccountId>, maxAccounts: nat)
  {
    AllServed(server, requests, accounts) && AskedSoFar(server, asked, requests, |accounts|, minId, maxId, maxAccounts)
  }

  /** What it keeps against one that keeps the contract. */
  ghost predicate MayGoOn(server: Server, listed: nat -> set<AccountId>, requests: nat, accounts: seq<Account>,
                          minId: Option<AccountId>, maxId: Option<AccountId>, pageMin: Option<AccountId>, pageMax: Option<AccountId>)
  {
    ServerObeys(server, listed) ==> Gathered(server, listed, requests, accounts, minId, maxId, pageMin, pageMax)
  }

  /** Against such a server, the accounts are the exact answer. */
  ghost predicate IsExactAnswer(server: Server, listed: nat -> set<AccountId>, requests: nat, accounts: seq<Account>,
                          minId: Option<AccountId>, maxId: Option<AccountId>, maxAccounts: nat)
  {
    ServerObeys(server, listed) ==> Exact(IdsOf(accounts), listed, requests, minId, maxId, maxAccounts)
  }

  /** One answered request of the loop. */
  lemma PageTaken(server: Server, listed: nat -> set<AccountId>, requests: nat, accounts: seq<Account>, asked: seq<Request>, raw: seq<Account>,
                  minId: Option<AccountId>, maxId: Option<AccountId>, pageMin: Option<AccountId>, pageMax: Option<AccountId>, limit: nat, n: nat)
    requires TakenSoFar(server, requests, accounts, asked, minId, maxId, n) && (requests == 0 ==> pageMin == minId && pageMax == maxId)
    requires MayGoOn(server, listed, requests, accounts, minId, maxId, pageMin, pageMax)
    requires server(requests, Request(pageMin, pageMax, limit)) == Some(raw)
    requires |accounts| < n && limit == Min(200, n - |accounts|)
    ensures var page := SortUnique(raw);
            && TakenSoFar(server, requests + 1, accounts + page, asked + [Request(pageMin, pageMax, limit)], minId, maxId, n)
            && (|raw| < limit || |accounts + page| >= n ==> IsExactAnswer(server, listed, requests + 1, accounts + page, minId, maxId, n))
            && (|raw| >= limit ==>
                  && page != []
                  && ((if minId.Some? then Some(page[|page| - 1].id) == pageMin else Some(page[0].id) == pageMax)
                      ==> IsExactAnswer(server, listed, requests + 1, accounts + page, minId, maxId, n))
                  && MayGoOn(server, listed, requests + 1, accounts + page, minId, maxId,
                             if minId.Some? then Some(page[|page| - 1].id) else pageMin,
                             if minId.Some? then pageMax else Some(page[0].id)))
  {
    PageNoLonger(raw);
    AskedOnce(server, asked, requests, |accounts|, Request(pageMin, pageMax, limit), minId, maxId, n);
    PageServed(server, requests, accounts, Request(pageMin, pageMax, limit), raw);
    if ServerObeys(server, listed) {
      PageGathered(server, listed, requests, accounts, raw, minId, maxId, pageMin, pageMax, limit, n);
    }
  }

  lemma NothingWanted(listed: nat -> set<AccountId>, minId: Option<AccountId>, maxId: Option<AccountId>)
    ensures Exact(IdsOf([]), listed, 0, minId, maxId, 0)
  {
    assert IdsOf([]) == {};
  }

  ghost predicate AllServed(server: Server, requests: nat, accounts: seq<Account>) {
    forall a :: a in accounts ==> Served(server, requests, a)
  }

  lemma SortedServed(server: Server, requests: nat, accounts: seq<Account>)
    requires AllServed(server, requests, accounts)
    ensures var sorted := SortUnique(accounts);
            StrictlyAscending(sorted) && IdsOf(sorted) == IdsOf(accounts) && AllServed(server, requests, sorted)
  {
    SortUniqueIsSortedUnique(accounts);
  }

  lemma PageServed(server: Server, requests: nat, accounts: seq<Account>, request: Request, raw: seq<Account>)
    requires server(requests, request) == Some(raw)
    requires AllServed(server, requests, accounts)
    ensures AllServed(server, requests + 1, accounts + SortUnique(raw))
  {
    SortUniqueIsSortedUnique(raw);
    forall a | a in accounts + SortUnique(raw) ensures Served(server, requests + 1, a) {
      if a in accounts {
        var n, q :| 0 <= n < requests && server(n, q).Some? && a in server(n, q).value;
        assert 0 <= n < requests + 1 && server(n, q).Some? && a in server(n, q).value;
      } else {
        assert a in raw;
        assert server(requests, request).Some? && a in server(requests, request).value;
      }
    }
  }
}
