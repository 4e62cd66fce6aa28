/**
 Accounts as the Admin API lists them. An account ID is the integer its digit string denotes;
 `Ids.CmpIsNumericOrder` is what makes that identification exact for unpadded IDs.
 */
module Accounts {
  import opened Wrappers

  type AccountId = nat

  datatype Account = Account(id: AccountId, username: string, domain: Option<string>)

  const SYSTEM_USERNAMES := ["mastodon.internal", "internal.fetch", "system.actor"]

  /** `is_system_account`, an account without a domain having domain `?`. */
  predicate IsSystemAccount(account: Account) {
    || account.username in SYSTEM_USERNAMES
    || account.username == (match account.domain case Some(d) => d case None => "?")
  }

  /** Three reserved names, or the name of the account's own domain. */
  lemma SystemAccountsAre(account: Account)
    ensures IsSystemAccount(account) <==>
            || account.username == "mastodon.internal" || account.username == "internal.fetch" || account.username == "system.actor"
            || account.domain == Some(account.username) || (account.domain == None && account.username == "?")
  {
  }

  function IdsOf(accounts: seq<Account>): (ids: set<AccountId>) {
    set i | 0 <= i < |accounts| :: accounts[i].id
  }

  predicate StrictlyAscending(accounts: seq<Account>) {
    forall i, j :: 0 <= i < j < |accounts| ==> accounts[i].id < accounts[j].id
  }

  predicate DistinctIds(accounts: seq<Account>) {
    forall i, j :: 0 <= i < j < |accounts| ==> accounts[i].id != accounts[j].id
  }

  lemma {:induction false} AscendingIdCount(accounts: seq<Account>)
    requires StrictlyAscending(accounts)
    ensures |IdsOf(accounts)| == |accounts|
  {
    if accounts != [] {
      var last := accounts[|accounts| - 1];
      var front := accounts[..|accounts| - 1];
      AscendingIdCount(front);
      assert last.id !in IdsOf(front);
      assert IdsOf(accounts) == IdsOf(front) + {last.id} by {
        forall x | x in IdsOf(accounts) ensures x in IdsOf(front) + {last.id} {
          var i :| 0 <= i < |accounts| && accounts[i].id == x;
          assert i < |front| ==> front[i].id == x;
        }
        forall x | x in IdsOf(front) ensures x in IdsOf(accounts) {
          var i :| 0 <= i < |front| && front[i].id == x;
          assert accounts[i].id == x;
        }
        assert accounts[|accounts| - 1].id in IdsOf(accounts);
      }
    }
  }

  /** One step of the stable sort and dedup: an earlier account replaces a later one of its ID. */
  function InsertUnique(account: Account, sorted: seq<Account>): seq<Account> {
    if sorted == [] || account.id < sorted[0].id then [account] + sorted
    else if account.id == sorted[0].id then [account] + sorted[1..]
    else [sorted[0]] + InsertUnique(account, sorted[1..])
  }

  /** `sort_unique_by_id`: the stable sort by ID followed by `dedup_by`. */
  function SortUnique(accounts: seq<Account>): seq<Account> {
    if accounts == [] then [] else InsertUnique(accounts[0], SortUnique(accounts[1..]))
  }

  lemma {:induction false} InsertUniqueKeeps(account: Account, sorted: seq<Account>)
    requires StrictlyAscending(sorted)
    ensures var r := InsertUnique(account, sorted);
            && StrictlyAscending(r)
            && account in r
            && (forall a :: a in r <==> a == account || (a in sorted && a.id != account.id))
  {
    var r := InsertUnique(account, sorted);
    if sorted == [] || account.id < sorted[0].id {
      assert r == [account] + sorted;
    } else if account.id == sorted[0].id {
      assert sorted == [sorted[0]] + sorted[1..];
    } else {
      var tail := InsertUnique(account, sorted[1..]);
      InsertUniqueKeeps(account, sorted[1..]);
      assert sorted == [sorted[0]] + sorted[1..];
      forall j | 0 <= j < |tail| ensures sorted[0].id < tail[j].id {
        assert tail[j] in tail;
      }
      PrependKeepsAscending(sorted[0], tail);
    }
  }

  lemma PrependKeepsAscending(first: Account, tail: seq<Account>)
    requires StrictlyAscending(tail) && forall j :: 0 <= j < |tail| ==> first.id < tail[j].id
    ensures StrictlyAscending([first] + tail)
  {
  }

  /** The first account of each ID, in strictly ascending ID order. */
  lemma {:induction false} SortUniqueIsSortedUnique(accounts: seq<Account>)
    ensures var r := SortUnique(accounts);
            && StrictlyAscending(r)
            && IdsOf(r) == IdsOf(accounts)
            && (forall a :: a in r <==> exists i :: 0 <= i < |accounts| && accounts[i] == a && a.id !in IdsOf(accounts[..i]))
  {
    if accounts != [] {
      var first, rest := accounts[0], accounts[1..];
      var r := SortUnique(accounts);
      SortUniqueIsSortedUnique(rest);
      InsertUniqueKeeps(first, SortUnique(rest));
      forall a ensures a in r <==> exists i :: 0 <= i < |accounts| && accounts[i] == a && a.id !in IdsOf(accounts[..i]) {
        if a == first {
          assert accounts[0] == a && a.id !in IdsOf(accounts[..0]);
        } else {
          FirstShifts(accounts, a);
        }
      }
      IdsOfMembers(accounts);
      IdsOfMembers(r);
      assert forall x :: x in IdsOf(accounts) <==> x == first.id || x in IdsOf(rest) by {
        IdsOfMembers(rest);
        assert accounts == [first] + rest;
      }
      IdsOfMembers(SortUnique(rest));
    }
  }

  lemma IdsOfMembers(accounts: seq<Account>)
    ensures forall x :: x in IdsOf(accounts) <==> exists a :: a in accounts && a.id == x
  {
    forall x ensures x in IdsOf(accounts) <==> exists a :: a in accounts && a.id == x {
      if x in IdsOf(accounts) {
        var i :| 0 <= i < |accounts| && accounts[i].id == x;
        assert accounts[i] in accounts;
      }
    }
  }

  /** Being the first of its ID, seen from one place further along. */
  lemma FirstShifts(accounts: seq<Account>, a: Account)
    requires accounts != [] && a != accounts[0]
    ensures (exists i :: 0 <= i < |accounts| && accounts[i] == a && a.id !in IdsOf(accounts[..i]))
       <==> (a.id != accounts[0].id &&
             exists i :: 0 <= i < |accounts[1..]| && accounts[1..][i] == a && a.id !in IdsOf(accounts[1..][..i]))
  {
    var rest := accounts[1..];
    forall i | 1 <= i < |accounts|
      ensures a.id !in IdsOf(accounts[..i]) <==> a.id != accounts[0].id && a.id !in IdsOf(rest[..i - 1])
    {
      IdsOfMembers(accounts[..i]);
      IdsOfMembers(rest[..i - 1]);
      assert accounts[..i] == [accounts[0]] + rest[..i - 1];
    }
    if i :| 0 <= i < |accounts| && accounts[i] == a && a.id !in IdsOf(accounts[..i]) {
      assert rest[i - 1] == a;
    }
    if i :| 0 <= i < |rest| && rest[i] == a && a.id !in IdsOf(rest[..i]) && a.id != accounts[0].id {
      assert accounts[i + 1] == a;
    }
  }
}
