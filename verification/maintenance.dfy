/** The maintenance commands of database_utils.py over the account and publication
    tables: importing accounts from the old pickle file, the statistics, the cleanup of
    old publications and the orphan check. The tables are the in-memory sequences of
    main.py's model; sessions, commits and rollbacks are not modelled. */
module Maintenance {
  import opened Wrappers
  import opened Lifecycle
  import opened Accounts
  import opened Publications

  /** One value of the pickled dictionary; a missing key is None. */
  datatype PickledAccount = PickledAccount(encryptedPassword: Option<string>, userId: Option<string>,
                                           verificationMethod: Option<string>, lastUsed: Option<int>,
                                           createdAt: Option<int>)

  /** What opening the pickle file gives: no file, a file that fails to load, or its
      `username -> data` items in iteration order. */
  datatype PickleFile = Missing | Unreadable | Loaded(items: seq<(string, PickledAccount)>)

  datatype Migration = Migration(ok: bool, accounts: seq<Account>, migrated: nat)

  function OrElse<T>(o: Option<T>, default: T): T
  {
    match o case Some(v) => v case None => default
  }

  /** The row built for a pickled account: absent fields take their defaults and the
      times default to now; the row is active with zero counters. */
  function MigratedRow(username: string, data: PickledAccount, now: int): (a: Account)
    ensures a.username == username && a.isActive
    ensures a.postsCount == 0 && a.storiesCount == 0 && a.reelsCount == 0
  {
    Account(username, OrElse(data.encryptedPassword, ""), OrElse(data.userId, ""), data.verificationMethod,
            OrElse(data.createdAt, now), Some(OrElse(data.lastUsed, now)), true, 0, 0, 0)
  }

  /** Every row past the original table is a migrated pickled account whose username
      no earlier row has. */
  predicate AddedFresh(accounts: seq<Account>, items: seq<(string, PickledAccount)>, now: int, after: seq<Account>)
    requires |accounts| <= |after|
  {
    forall j :: |accounts| <= j < |after| ==>
      !HasUsername(after[..j], after[j].username)
      && exists k :: 0 <= k < |items| && after[j] == MigratedRow(items[k].0, items[k].1, now)
  }

  /** The first `n` pickled usernames are all in the table. */
  predicate Covers(after: seq<Account>, items: seq<(string, PickledAccount)>, n: nat)
    requires n <= |items|
  {
    forall i :: 0 <= i < n ==> HasUsername(after, items[i].0)
  }

  /** One step of the migration loop: appending the row for a username not yet in the
      table keeps the rows fresh, covers one more item and keeps usernames unique. */
  lemma {:induction false} AppendMigrated(accounts: seq<Account>, items: seq<(string, PickledAccount)>, now: int,
                                          after: seq<Account>, k: nat)
    requires k < |items| && |accounts| <= |after| && after[..|accounts|] == accounts
    requires AddedFresh(accounts, items, now, after) && Covers(after, items, k)
    requires !HasUsername(after, items[k].0)
    ensures var next := after + [MigratedRow(items[k].0, items[k].1, now)];
      next[..|accounts|] == accounts && AddedFresh(accounts, items, now, next) && Covers(next, items, k + 1)
      && (UniqueUsernames(after) ==> UniqueUsernames(next))
  {
    var row := MigratedRow(items[k].0, items[k].1, now);
    var next := after + [row];
    assert next[..|after|] == after;
    assert next[..|accounts|] == accounts;
    assert forall j :: 0 <= j < |after| ==> next[..j] == after[..j];
    assert next[|after|] == row;
    forall i | 0 <= i < k + 1 ensures HasUsername(next, items[i].0) {
      if i < k {
        var j :| 0 <= j < |after| && after[j].username == items[i].0;
        assert next[j].username == items[i].0;
      } else {
        assert next[|after|].username == items[i].0;
      }
    }
  }

  /** `migrate_from_pickle`: each pickled username not yet in the table (the query sees
      rows added earlier in the same session) becomes a new row at the end; existing
      rows are never touched. A missing or unreadable file returns False and changes
      nothing. */
  method MigrateFromPickle(accounts: seq<Account>, file: PickleFile, now: int) returns (r: Migration)
    ensures file.Missing? || file.Unreadable? ==> r == Migration(false, accounts, 0)
    ensures file.Loaded? ==> r.ok
    ensures |r.accounts| == |accounts| + r.migrated && r.accounts[..|accounts|] == accounts
    ensures forall j :: |accounts| <= j < |r.accounts| ==>
      !HasUsername(r.accounts[..j], r.accounts[j].username)
      && exists k :: 0 <= k < |file.items| && r.accounts[j] == MigratedRow(file.items[k].0, file.items[k].1, now)
    ensures file.Loaded? ==> forall k :: 0 <= k < |file.items| ==> HasUsername(r.accounts, file.items[k].0)
    ensures UniqueUsernames(accounts) ==> UniqueUsernames(r.accounts)
  {
    if !file.Loaded? {
      return Migration(false, accounts, 0);
    }
    var items := file.items;
    var after := accounts;
    var count := 0;
    var k := 0;
    assert after[..|accounts|] == accounts;
    while k < |items|
      invariant 0 <= k <= |items|
      invariant |after| == |accounts| + count && after[..|accounts|] == accounts
      invariant AddedFresh(accounts, items, now, after)
      invariant Covers(after, items, k)
      invariant UniqueUsernames(accounts) ==> UniqueUsernames(after)
    {
      var (username, data) := items[k];
      if !HasUsername(after, username) {
        AppendMigrated(accounts, items, now, after, k);
        after := after + [MigratedRow(username, data, now)];
        count := count + 1;
      }
      k := k + 1;
    }
    return Migration(true, after, count);
  }

  /** `sum(1 for x in s if p(x))`. */
  function Count<T>(s: seq<T>, p: T -> bool): (n: nat)
    ensures n <= |s|
  {
    if s == [] then 0 else Count(s[..|s| - 1], p) + (if p(s[|s| - 1]) then 1 else 0)
  }

  /** The positions of `s` whose element satisfies `p`: an independent reading of what
      `Count` counts. */
  ghost function Positions<T>(s: seq<T>, p: T -> bool): set<int>
  {
    set j | 0 <= j < |s| && p(s[j])
  }

  lemma {:induction false} CountIsPositions<T>(s: seq<T>, p: T -> bool)
    ensures Count(s, p) == |Positions(s, p)|
  {
    if s != [] {
      var n := |s| - 1;
      CountIsPositions(s[..n], p);
      var before := Positions(s[..n], p);
      assert n !in before;
      if p(s[n]) {
        assert Positions(s, p) == before + {n};
      } else {
        assert Positions(s, p) == before;
      }
    }
  }

  /** Counts of predicates that never hold together add up to at most the length. */
  lemma {:induction false} CountDisjoint3<T>(s: seq<T>, p: T -> bool, q: T -> bool, r: T -> bool)
    requires forall x :: !(p(x) && q(x)) && !(p(x) && r(x)) && !(q(x) && r(x))
    ensures Count(s, p) + Count(s, q) + Count(s, r) <= |s|
  {
    if s != [] {
      CountDisjoint3(s[..|s| - 1], p, q, r);
    }
  }

  datatype Stats = Stats(
    accountsTotal: nat, accountsActive: nat,
    publicationsTotal: nat, queued: nat, published: nat, failed: nat,
    posts: nat, stories: nat, reels: nat,
    users: nat)

  function WithStatus(st: Status): Publication -> bool
  {
    (p: Publication) => p.status == st
  }

  function OfKind(k: ContentType): Publication -> bool
  {
    (p: Publication) => p.contentType == k
  }

  /** `COUNT(*) FROM accounts WHERE is_active = 1`. */
  function ActiveCount(accounts: seq<Account>): (n: nat)
    ensures n <= |accounts|
    ensures n == |set j | 0 <= j < |accounts| && accounts[j].isActive|
  {
    CountIsPositions(accounts, (a: Account) => a.isActive);
    assert Positions(accounts, (a: Account) => a.isActive) == set j | 0 <= j < |accounts| && accounts[j].isActive;
    Count(accounts, (a: Account) => a.isActive)
  }

  /** `COUNT(*) FROM publications WHERE status = ?`. */
  function StatusCount(pubs: seq<Publication>, st: Status): (n: nat)
    ensures n == |set j | 0 <= j < |pubs| && pubs[j].status == st|
  {
    CountIsPositions(pubs, WithStatus(st));
    assert Positions(pubs, WithStatus(st)) == set j | 0 <= j < |pubs| && pubs[j].status == st;
    Count(pubs, WithStatus(st))
  }

  /** `COUNT(*) FROM publications WHERE content_type = ?`. */
  function KindCount(pubs: seq<Publication>, k: ContentType): (n: nat)
    ensures n == |set j | 0 <= j < |pubs| && pubs[j].contentType == k|
  {
    CountIsPositions(pubs, OfKind(k));
    assert Positions(pubs, OfKind(k)) == set j | 0 <= j < |pubs| && pubs[j].contentType == k;
    Count(pubs, OfKind(k))
  }

  /** `get_database_stats`; the `user_settings` count is passed in, that table being
      outside this model. Every count is the number of rows that satisfy its filter. */
  function DatabaseStats(accounts: seq<Account>, pubs: seq<Publication>, users: nat): (s: Stats)
    ensures s.accountsTotal == |accounts| && s.publicationsTotal == |pubs|
    ensures s.accountsActive <= s.accountsTotal
    ensures s.queued + s.published + s.failed <= s.publicationsTotal
    ensures s.posts + s.stories + s.reels <= s.publicationsTotal
    ensures s.users == users
    ensures s.accountsActive == |set j | 0 <= j < |accounts| && accounts[j].isActive|
    ensures s.queued == |set j | 0 <= j < |pubs| && pubs[j].status == Queued|
    ensures s.published == |set j | 0 <= j < |pubs| && pubs[j].status == Published|
    ensures s.failed == |set j | 0 <= j < |pubs| && pubs[j].status == Failed|
    ensures s.posts == |set j | 0 <= j < |pubs| && pubs[j].contentType == Post|
    ensures s.stories == |set j | 0 <= j < |pubs| && pubs[j].contentType == Story|
    ensures s.reels == |set j | 0 <= j < |pubs| && pubs[j].contentType == Reel|
  {
    CountDisjoint3(pubs, WithStatus(Queued), WithStatus(Published), WithStatus(Failed));
    CountDisjoint3(pubs, OfKind(Post), OfKind(Story), OfKind(Reel));
    Stats(|accounts|, ActiveCount(accounts),
          |pubs|, StatusCount(pubs, Queued), StatusCount(pubs, Published), StatusCount(pubs, Failed),
          KindCount(pubs, Post), KindCount(pubs, Story), KindCount(pubs, Reel),
          users)
  }

  const SecondsPerDay: int := 86400

  /** The rows `cleanup_old_data` deletes: published or failed, created before the
      cutoff. */
  predicate Stale(p: Publication, cutoff: int)
  {
    (p.status == Published || p.status == Failed) && p.createdAt < cutoff
  }

  datatype Cleanup = Cleanup(kept: seq<Publication>, deleted: nat)

  /** `cleanup_old_data` as written: computing the cutoff names `timedelta`, which the
      module never imports, so every call raises NameError before the `try`, and no row
      is deleted. */
  function CleanupAsWritten(pubs: seq<Publication>, now: int, days: int): Attempt<Cleanup>
  {
    Raises("NameError: name 'timedelta' is not defined")
  }

  /** No call of the cleanup as written ever deletes anything or returns a count. */
  lemma CleanupAsWrittenAlwaysRaises(pubs: seq<Publication>, now: int, days: int)
    ensures CleanupAsWritten(pubs, now, days).Raises?
    ensures CleanupAsWritten(pubs, now, days).error == "NameError: name 'timedelta' is not defined"
  {
  }

  /** The evidently intended cleanup: delete the stale rows before `now - days` days,
      keep the others, and return how many went. */
  function CleanupOldData(pubs: seq<Publication>, now: int, days: int): (r: Cleanup)
    ensures |r.kept| + r.deleted == |pubs|
    ensures forall p :: p in r.kept <==> p in pubs && !Stale(p, now - days * SecondsPerDay)
    ensures r.deleted == Count(pubs, (p: Publication) => Stale(p, now - days * SecondsPerDay))
    ensures r.deleted == 0 ==> r.kept == pubs
  {
    if pubs == [] then Cleanup([], 0)
    else
      var last := pubs[|pubs| - 1];
      var init := CleanupOldData(pubs[..|pubs| - 1], now, days);
      assert pubs == pubs[..|pubs| - 1] + [last];
      if Stale(last, now - days * SecondsPerDay) then Cleanup(init.kept, init.deleted + 1)
      else Cleanup(init.kept + [last], init.deleted)
  }

  /** Queued and cancelled rows always survive the cleanup, whatever their age. */
  lemma CleanupKeepsUnfinished(pubs: seq<Publication>, now: int, days: int, i: nat)
    requires i < |pubs| && (pubs[i].status == Queued || pubs[i].status == Cancelled)
    ensures pubs[i] in CleanupOldData(pubs, now, days).kept
  {
  }

  /** A second cleanup with the same cutoff deletes nothing. */
  lemma {:induction false} CleanupIdempotent(pubs: seq<Publication>, now: int, days: int)
    ensures var once := CleanupOldData(pubs, now, days);
      CleanupOldData(once.kept, now, days) == Cleanup(once.kept, 0)
  {
    var once := CleanupOldData(pubs, now, days);
    NothingStaleNothingDeleted(once.kept, now, days);
  }

  lemma {:induction false} NothingStaleNothingDeleted(pubs: seq<Publication>, now: int, days: int)
    requires forall p :: p in pubs ==> !Stale(p, now - days * SecondsPerDay)
    ensures CleanupOldData(pubs, now, days) == Cleanup(pubs, 0)
  {
    if pubs != [] {
      var init := pubs[..|pubs| - 1];
      assert forall p :: p in init ==> p in pubs;
      NothingStaleNothingDeleted(init, now, days);
      assert pubs == init + [pubs[|pubs| - 1]];
      assert pubs[|pubs| - 1] in pubs;
    }
  }

  /** A publication whose account name is in no account row. */
  predicate Orphaned(p: Publication, accounts: seq<Account>)
  {
    !HasUsername(accounts, p.accountUsername)
  }

  /** The orphan count of `verify_database_integrity`, one scan per publication. */
  function OrphanCount(pubs: seq<Publication>, accounts: seq<Account>): (n: nat)
    ensures n == 0 <==> forall i :: 0 <= i < |pubs| ==> !Orphaned(pubs[i], accounts)
  {
    if pubs == [] then 0
    else OrphanCount(pubs[1..], accounts) + (if HasUsername(accounts, pubs[0].accountUsername) then 0 else 1)
  }

  /** `verify_database_integrity`: passes exactly when every publication names an
      existing account, active or not. */
  function VerifyIntegrity(accounts: seq<Account>, pubs: seq<Publication>): (ok: bool)
    ensures ok <==> forall i :: 0 <= i < |pubs| ==> HasUsername(accounts, pubs[i].accountUsername)
  {
    OrphanCount(pubs, accounts) == 0
  }

  /** Adding accounts never breaks the check; the migration only adds. */
  lemma IntegritySurvivesMigration(accounts: seq<Account>, pubs: seq<Publication>, more: seq<Account>)
    requires VerifyIntegrity(accounts, pubs)
    ensures VerifyIntegrity(accounts + more, pubs)
  {
    forall i | 0 <= i < |pubs| ensures HasUsername(accounts + more, pubs[i].accountUsername) {
      var j :| 0 <= j < |accounts| && accounts[j].username == pubs[i].accountUsername;
      assert (accounts + more)[j] == accounts[j];
    }
  }

  /** Cleanup only deletes, so it never breaks the check either. */
  lemma IntegritySurvivesCleanup(accounts: seq<Account>, pubs: seq<Publication>, now: int, days: int)
    requires VerifyIntegrity(accounts, pubs)
    ensures VerifyIntegrity(accounts, CleanupOldData(pubs, now, days).kept)
  {
    var kept := CleanupOldData(pubs, now, days).kept;
    forall i | 0 <= i < |kept| ensures HasUsername(accounts, kept[i].accountUsername) {
      assert kept[i] in pubs;
    }
  }
}
