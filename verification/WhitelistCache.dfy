/**
 * The whitelist check's cache of Mainnet accounts (gateway/src/whitelist.rs): reads that may
 * finish out of order, a positional merge of cached and fetched accounts, and the whole check.
 */
module WhitelistCache {
  import opened Common
  import opened WhitelistRule

  /** Milliseconds. */
  type Time = nat

  const CACHE_TTL: nat := 5_000
  const MAX_CACHED_ACCOUNTS: nat := 10_000

  /** A Mainnet read and when it started. No account is one that does not exist. */
  datatype Entry = Entry(readAt: Time, account: Option<Account>)

  type Cache = map<Pubkey, Entry>

  predicate Fresh(e: Entry, now: Time) {
    now < e.readAt + CACHE_TTL
  }

  // ---------------------------------------------------------------------------
  // The cache
  // ---------------------------------------------------------------------------

  function Cached(cache: Cache, key: Pubkey, now: Time): Option<Option<Account>> {
    if key in cache && Fresh(cache[key], now) then Some(cache[key].account) else None
  }

  function Retained(cache: Cache, now: Time): Cache {
    map k | k in cache && Fresh(cache[k], now) :: cache[k]
  }

  /** One read stored under its key, unless the key already holds a read that started later. */
  function Stored(cache: Cache, key: Pubkey, e: Entry): Cache {
    if key in cache && cache[key].readAt > e.readAt then cache else cache[key := e]
  }

  function StoredUpTo(cache: Cache, readAt: Time, keys: seq<Pubkey>, accounts: seq<Option<Account>>, n: nat): Cache
    requires n <= |keys| && n <= |accounts|
  {
    if n == 0 then cache
    else Stored(StoredUpTo(cache, readAt, keys, accounts, n - 1), keys[n - 1], Entry(readAt, accounts[n - 1]))
  }

  function Remembered(cache: Cache, now: Time, readAt: Time, keys: seq<Pubkey>, accounts: seq<Option<Account>>): Cache {
    var kept := Retained(cache, now);
    if |kept| + |keys| > MAX_CACHED_ACCOUNTS then kept
    else StoredUpTo(kept, readAt, keys, accounts, Min(|keys|, |accounts|))
  }

  class WithdrawWhitelist {
    var cache: Cache

    constructor ()
      ensures cache == map[]
    {
      cache := map[];
    }

    /** `cached`: the key's account while its read is younger than the TTL. */
    method Lookup(key: Pubkey, now: Time) returns (found: Option<Option<Account>>)
      ensures found == Cached(cache, key, now)
    {
      found := None;
      if key in cache && Fresh(cache[key], now) {
        found := Some(cache[key].account);
      }
    }

    /** `remember`: drop expired reads, then store this one unless the map would pass its cap. */
    method Remember(now: Time, readAt: Time, keys: seq<Pubkey>, accounts: seq<Option<Account>>)
      modifies this
      ensures cache == Remembered(old(cache), now, readAt, keys, accounts)
    {
      cache := map k | k in cache && Fresh(cache[k], now) :: cache[k];
      ghost var kept := cache;
      if |cache| + |keys| > MAX_CACHED_ACCOUNTS {
        return;
      }
      var n := if |keys| <= |accounts| then |keys| else |accounts|;
      for i := 0 to n
        invariant cache == StoredUpTo(kept, readAt, keys, accounts, i)
      {
        if keys[i] in cache && cache[keys[i]].readAt > readAt {
          continue;
        }
        cache := cache[keys[i] := Entry(readAt, accounts[i])];
      }
    }
  }

  lemma {:induction false} StoredUpToGrowsSlowly(
    cache: Cache, readAt: Time, keys: seq<Pubkey>, accounts: seq<Option<Account>>, n: nat)
    requires n <= |keys| && n <= |accounts|
    ensures |StoredUpTo(cache, readAt, keys, accounts, n)| <= |cache| + n
  {
    if n > 0 {
      StoredUpToGrowsSlowly(cache, readAt, keys, accounts, n - 1);
      InsertedSize(StoredUpTo(cache, readAt, keys, accounts, n - 1), keys[n - 1], Entry(readAt, accounts[n - 1]));
    }
  }

  lemma {:induction false} InsertedSize(cache: Cache, key: Pubkey, e: Entry)
    ensures |cache[key := e]| <= |cache| + 1
  {
    assert cache[key := e].Keys == cache.Keys + {key};
    assert |cache.Keys + {key}| <= |cache.Keys| + 1;
    assert |cache[key := e]| == |cache[key := e].Keys|;
    assert |cache| == |cache.Keys|;
  }

  lemma {:induction false} RetainedSize(cache: Cache, now: Time)
    ensures |Retained(cache, now)| <= |cache|
  {
    assert Retained(cache, now).Keys <= cache.Keys;
    SubsetSize(Retained(cache, now).Keys, cache.Keys);
    assert |Retained(cache, now)| == |Retained(cache, now).Keys|;
    assert |cache| == |cache.Keys|;
  }

  /** The entry a key ends with: the one it had, or this read's for that key. */
  lemma {:induction false} StoredUpToEntry(
    cache: Cache, readAt: Time, keys: seq<Pubkey>, accounts: seq<Option<Account>>, n: nat, k: Pubkey)
    requires n <= |keys| && n <= |accounts|
    ensures k in cache ==> k in StoredUpTo(cache, readAt, keys, accounts, n)
                           && cache[k].readAt <= StoredUpTo(cache, readAt, keys, accounts, n)[k].readAt
    ensures k in StoredUpTo(cache, readAt, keys, accounts, n) ==>
              || (k in cache && StoredUpTo(cache, readAt, keys, accounts, n)[k] == cache[k])
              || (exists i ::
                    && 0 <= i < n && keys[i] == k
                    && StoredUpTo(cache, readAt, keys, accounts, n)[k] == Entry(readAt, accounts[i]))
  {
    if n > 0 {
      StoredUpToEntry(cache, readAt, keys, accounts, n - 1, k);
    }
  }

  /** Read `i` is the last of the first `n` for key `k`. */
  predicate LastFor(keys: seq<Pubkey>, n: nat, k: Pubkey, i: nat)
    requires n <= |keys|
  {
    i < n && keys[i] == k && forall j :: i < j < n ==> keys[j] != k
  }

  lemma {:induction false} StoredUpToKeeps(
    cache: Cache, readAt: Time, keys: seq<Pubkey>, accounts: seq<Option<Account>>, n: nat, k: Pubkey, i: nat)
    requires n <= |keys| && n <= |accounts|
    ensures var r := StoredUpTo(cache, readAt, keys, accounts, n);
            && (k !in keys[..n] || (k in cache && cache[k].readAt > readAt) ==>
                  (k in r <==> k in cache) && (k in cache ==> r[k] == cache[k]))
            && (LastFor(keys, n, k, i) && !(k in cache && cache[k].readAt > readAt) ==>
                  k in r && r[k] == Entry(readAt, accounts[i]))
    decreases n
  {
    if n > 0 {
      StoredUpToKeeps(cache, readAt, keys, accounts, n - 1, k, i);
      assert keys[..n] == keys[..n - 1] + [keys[n - 1]];
      if k in keys[..n - 1] {
        var last := LastIndex(keys, n - 1, k);
        StoredUpToKeeps(cache, readAt, keys, accounts, n - 1, k, last);
      }
    }
  }

  ghost function LastIndex(keys: seq<Pubkey>, n: nat, k: Pubkey): (i: nat)
    requires n <= |keys| && k in keys[..n]
    ensures LastFor(keys, n, k, i)
  {
    assert keys[..n] == keys[..n - 1] + [keys[n - 1]];
    if keys[n - 1] == k then n - 1 else LastIndex(keys, n - 1, k)
  }

  /** What a lookup of `k` finds of its own entry: the account, for five seconds from the start of its read. */
  function Held(cache: Cache, k: Pubkey, now: Time): Option<Option<Account>> {
    if k in cache && now < cache[k].readAt + 5_000 then Some(cache[k].account) else None
  }

  /**
   * A read that is remembered is found: unless the map has no room for it, or holds a fresh one of the key that
   * started later, every lookup of its keys finds what it read while it is fresh, and all others what they held.
   */
  lemma {:induction false} RememberedIsFound(
    cache: Cache, now: Time, readAt: Time, keys: seq<Pubkey>, accounts: seq<Option<Account>>, k: Pubkey, later: Time,
    i: nat)
    requires now <= later
    ensures var n := Min(|keys|, |accounts|);
            var found := Cached(Remembered(cache, now, readAt, keys, accounts), k, later);
            var room := |set x | x in cache && now < cache[x].readAt + 5_000| + |keys| <= 10_000;
            var newer := k in cache && now < cache[k].readAt + 5_000 && cache[k].readAt > readAt;
            && (room && LastFor(keys, n, k, i) && !newer
                ==> found == if later < readAt + 5_000 then Some(accounts[i]) else None)
            && (!room || k !in keys[..n] || newer ==> found == Held(cache, k, later))
  {
    var kept := Retained(cache, now);
    assert kept.Keys == set x | x in cache && now < cache[x].readAt + 5_000;
    assert |kept| == |kept.Keys|;
    StoredUpToKeeps(kept, readAt, keys, accounts, Min(|keys|, |accounts|), k, i);
  }

  // ---------------------------------------------------------------------------
  // Every interleaving of reads and lookups
  // ---------------------------------------------------------------------------

  /** Mainnet's account at each instant and address. */
  type Mainnet = (Time, Pubkey) -> Option<Account>

  datatype Read = Read(readAt: Time, keys: seq<Pubkey>)

  /** One answer taken from the cache: when, for which key, from a read started when. */
  datatype Answer = Answer(at: Time, key: Pubkey, readAt: Time, account: Option<Account>)

  datatype State = State(now: Time, cache: Cache, inFlight: map<nat, Read>, answers: seq<Answer>)

  datatype Event =
    | Tick(later: Time)
    | Start(id: nat, keys: seq<Pubkey>)
    | Finish(id: nat, instants: seq<Time>)
    | Fail(id: nat)
    | Serve(key: Pubkey)

  /** Time moves forward; a read ends after it started, and each account was read in between. */
  predicate Enabled(s: State, ev: Event) {
    match ev
    case Tick(later) => s.now <= later
    case Start(id, keys) => id !in s.inFlight
    case Finish(id, instants) =>
      && id in s.inFlight
      && |instants| == |s.inFlight[id].keys|
      && forall i :: 0 <= i < |instants| ==> s.inFlight[id].readAt <= instants[i] <= s.now
    case Fail(id) => id in s.inFlight
    case Serve(key) => true
  }

  function ReadAccounts(mainnet: Mainnet, keys: seq<Pubkey>, instants: seq<Time>): (r: seq<Option<Account>>)
    requires |keys| == |instants|
    ensures |r| == |keys|
    ensures forall i :: 0 <= i < |r| ==> r[i] == mainnet(instants[i], keys[i])
  {
    seq(|keys|, i requires 0 <= i < |keys| => mainnet(instants[i], keys[i]))
  }

  function Step(mainnet: Mainnet, s: State, ev: Event): State
    requires Enabled(s, ev)
  {
    match ev
    case Tick(later) => s.(now := later)
    case Start(id, keys) => s.(inFlight := s.inFlight[id := Read(s.now, keys)])
    case Finish(id, instants) =>
      var read := s.inFlight[id];
      s.(inFlight := s.inFlight - {id},
         cache := Remembered(s.cache, s.now, read.readAt, read.keys, ReadAccounts(mainnet, read.keys, instants)))
    case Fail(id) => s.(inFlight := s.inFlight - {id})
    case Serve(key) =>
      if Cached(s.cache, key, s.now).None? then s
      else s.(answers := s.answers + [Answer(s.now, key, s.cache[key].readAt, s.cache[key].account)])
  }

  /** A run from the empty cache, newest event last. */
  datatype Run = Begin(now: Time) | More(run: Run, ev: Event)

  ghost predicate ValidRun(mainnet: Mainnet, r: Run)
    decreases r, 0
  {
    match r
    case Begin(_) => true
    case More(before, ev) => ValidRun(mainnet, before) && Enabled(After(mainnet, before), ev)
  }

  ghost function After(mainnet: Mainnet, r: Run): State
    requires ValidRun(mainnet, r)
    decreases r, 1
  {
    match r
    case Begin(now) => State(now, map[], map[], [])
    case More(before, ev) => Step(mainnet, After(mainnet, before), ev)
  }

  // ---------------------------------------------------------------------------
  // What every run keeps
  // ---------------------------------------------------------------------------

  /** The entry's account was Mainnet's at some instant since its read started. */
  ghost predicate Truthful(mainnet: Mainnet, key: Pubkey, e: Entry, now: Time) {
    exists u: Time :: e.readAt <= u <= now && mainnet(u, key) == e.account
  }

  ghost predicate CacheTruthful(mainnet: Mainnet, cache: Cache, now: Time) {
    forall k :: k in cache ==> Truthful(mainnet, k, cache[k], now)
  }

  /** An answer already given is not newer than the key's entry, or has expired. */
  predicate NotOvertaken(a: Answer, cache: Cache, now: Time) {
    (a.key in cache && a.readAt <= cache[a.key].readAt) || a.readAt + CACHE_TTL <= now
  }

  /** Taken from a state Mainnet was in within the last TTL. */
  ghost predicate Recent(mainnet: Mainnet, a: Answer) {
    exists u: Time :: u <= a.at < u + CACHE_TTL && mainnet(u, a.key) == a.account
  }

  predicate Monotone(answers: seq<Answer>) {
    forall i, j :: 0 <= i < j < |answers| && answers[i].key == answers[j].key ==> answers[i].readAt <= answers[j].readAt
  }

  ghost predicate Inv(mainnet: Mainnet, s: State) {
    && CacheTruthful(mainnet, s.cache, s.now)
    && |s.cache| <= MAX_CACHED_ACCOUNTS
    && (forall id :: id in s.inFlight ==> s.inFlight[id].readAt <= s.now)
    && (forall a :: a in s.answers ==> NotOvertaken(a, s.cache, s.now) && Recent(mainnet, a))
    && Monotone(s.answers)
  }

  lemma {:induction false} RememberedTruthful(
    mainnet: Mainnet, cache: Cache, now: Time, read: Read, instants: seq<Time>)
    requires CacheTruthful(mainnet, cache, now)
    requires |instants| == |read.keys| && forall i :: 0 <= i < |instants| ==> read.readAt <= instants[i] <= now
    ensures CacheTruthful(mainnet,
            Remembered(cache, now, read.readAt, read.keys, ReadAccounts(mainnet, read.keys, instants)), now)
  {
    var accounts := ReadAccounts(mainnet, read.keys, instants);
    var kept := Retained(cache, now);
    var after := Remembered(cache, now, read.readAt, read.keys, accounts);
    forall k | k in after ensures Truthful(mainnet, k, after[k], now) {
      if k in kept && after[k] == kept[k] {
        assert Truthful(mainnet, k, cache[k], now);
      } else {
        StoredUpToEntry(kept, read.readAt, read.keys, accounts, |read.keys|, k);
        var i :| 0 <= i < |read.keys| && read.keys[i] == k && after[k] == Entry(read.readAt, accounts[i]);
        assert mainnet(instants[i], k) == after[k].account;
      }
    }
  }

  lemma {:induction false} RememberedNotOvertaken(
    a: Answer, cache: Cache, now: Time, readAt: Time, keys: seq<Pubkey>, accounts: seq<Option<Account>>)
    requires |keys| == |accounts| && NotOvertaken(a, cache, now)
    ensures NotOvertaken(a, Remembered(cache, now, readAt, keys, accounts), now)
  {
    if now < a.readAt + CACHE_TTL {
      assert a.key in Retained(cache, now);
      StoredUpToEntry(Retained(cache, now), readAt, keys, accounts, |keys|, a.key);
    }
  }

  lemma {:induction false} RememberedSize(
    cache: Cache, now: Time, readAt: Time, keys: seq<Pubkey>, accounts: seq<Option<Account>>)
    requires |keys| == |accounts| && |cache| <= MAX_CACHED_ACCOUNTS
    ensures |Remembered(cache, now, readAt, keys, accounts)| <= MAX_CACHED_ACCOUNTS
  {
    RetainedSize(cache, now);
    StoredUpToGrowsSlowly(Retained(cache, now), readAt, keys, accounts, |keys|);
  }

  lemma {:induction false} FinishKeepsInv(mainnet: Mainnet, s: State, id: nat, instants: seq<Time>)
    requires Inv(mainnet, s) && Enabled(s, Finish(id, instants))
    ensures Inv(mainnet, Step(mainnet, s, Finish(id, instants)))
  {
    var read := s.inFlight[id];
    var accounts := ReadAccounts(mainnet, read.keys, instants);
    RememberedTruthful(mainnet, s.cache, s.now, read, instants);
    RememberedSize(s.cache, s.now, read.readAt, read.keys, accounts);
    forall a | a in s.answers
      ensures NotOvertaken(a, Remembered(s.cache, s.now, read.readAt, read.keys, accounts), s.now)
    {
      RememberedNotOvertaken(a, s.cache, s.now, read.readAt, read.keys, accounts);
    }
  }

  lemma {:induction false} ServeKeepsInv(mainnet: Mainnet, s: State, key: Pubkey)
    requires Inv(mainnet, s) && Cached(s.cache, key, s.now).Some?
    ensures Inv(mainnet, Step(mainnet, s, Serve(key)))
  {
    var e := s.cache[key];
    var a := Answer(s.now, key, e.readAt, e.account);
    assert Recent(mainnet, a) by {
      assert Truthful(mainnet, key, e, s.now);
      var u: Time :| e.readAt <= u <= s.now && mainnet(u, key) == e.account;
    }
    var after := s.answers + [a];
    forall i, j | 0 <= i < j < |after| && after[i].key == after[j].key ensures after[i].readAt <= after[j].readAt {
      assert after[i] in s.answers;
      if j == |s.answers| {
        assert NotOvertaken(after[i], s.cache, s.now);
      }
    }
  }

  lemma {:induction false} TickKeepsInv(mainnet: Mainnet, s: State, later: Time)
    requires Inv(mainnet, s) && s.now <= later
    ensures Inv(mainnet, s.(now := later))
  {
    forall k | k in s.cache ensures Truthful(mainnet, k, s.cache[k], later) {
      assert Truthful(mainnet, k, s.cache[k], s.now);
      var u: Time :| s.cache[k].readAt <= u <= s.now && mainnet(u, k) == s.cache[k].account;
    }
    forall a | a in s.answers ensures NotOvertaken(a, s.cache, later) {
      assert NotOvertaken(a, s.cache, s.now);
    }
  }

  lemma {:induction false} StepKeepsInv(mainnet: Mainnet, s: State, ev: Event)
    requires Inv(mainnet, s) && Enabled(s, ev)
    ensures Inv(mainnet, Step(mainnet, s, ev))
  {
    match ev
    case Tick(later) => TickKeepsInv(mainnet, s, later);
    case Start(id, keys) =>
    case Finish(id, instants) => FinishKeepsInv(mainnet, s, id, instants);
    case Fail(id) =>
    case Serve(key) =>
      if Cached(s.cache, key, s.now).Some? {
        ServeKeepsInv(mainnet, s, key);
      }
  }

  /**
   * Over every interleaving: each answer was Mainnet's account within the last TTL, the read
   * stamps answered for one key never go back, and the map never passes its cap.
   */
  lemma {:induction false} EveryRunIsRecentAndMonotone(mainnet: Mainnet, r: Run)
    requires ValidRun(mainnet, r)
    ensures Inv(mainnet, After(mainnet, r))
    ensures forall a :: a in After(mainnet, r).answers ==> Recent(mainnet, a)
    ensures Monotone(After(mainnet, r).answers)
    ensures |After(mainnet, r).cache| <= MAX_CACHED_ACCOUNTS
  {
    match r
    case Begin(now) =>
    case More(before, ev) =>
      EveryRunIsRecentAndMonotone(mainnet, before);
      StepKeepsInv(mainnet, After(mainnet, before), ev);
  }

  // ---------------------------------------------------------------------------
  // Merging cached and fetched accounts
  // ---------------------------------------------------------------------------

  /** The keys with no cached answer, in order. */
  function Missing(keys: seq<Pubkey>, cached: seq<Option<Option<Account>>>): seq<Pubkey>
    requires |keys| == |cached|
  {
    if keys == [] then []
    else (if cached[0].None? then [keys[0]] else []) + Missing(keys[1..], cached[1..])
  }

  /** Each gap takes the next fetched account, or nothing once they run out. */
  function Merged(cached: seq<Option<Option<Account>>>, fetched: seq<Option<Account>>): (r: seq<Option<Account>>)
    ensures |r| == |cached|
  {
    if cached == [] then []
    else if cached[0].Some? then [cached[0].value] + Merged(cached[1..], fetched)
    else if fetched == [] then [None] + Merged(cached[1..], [])
    else [fetched[0]] + Merged(cached[1..], fetched[1..])
  }

  /** The merge at the end of `fetch_cached`, consuming the fetched accounts one by one. */
  method Merge(
    cached: seq<Option<Option<Account>>>, fetched: seq<Option<Account>>) returns (accounts: seq<Option<Account>>)
    ensures accounts == Merged(cached, fetched)
  {
    accounts := [];
    var next := 0;
    for i := 0 to |cached|
      invariant 0 <= next <= |fetched|
      invariant accounts + Merged(cached[i..], fetched[next..]) == Merged(cached, fetched)
    {
      MergedFrom(accounts, cached, fetched, i, next);
      if cached[i].Some? {
        accounts := accounts + [cached[i].value];
      } else if next < |fetched| {
        accounts := accounts + [fetched[next]];
        next := next + 1;
      } else {
        accounts := accounts + [None];
      }
    }
    assert cached[|cached|..] == [];
  }

  /** One step of the merge, with what was merged before it. */
  lemma {:induction false} MergedFrom(
    accounts: seq<Option<Account>>, cached: seq<Option<Option<Account>>>, fetched: seq<Option<Account>>, i: nat,
    next: nat)
    requires i < |cached| && next <= |fetched|
    ensures var rest := cached[i + 1..];
            accounts + Merged(cached[i..], fetched[next..])
            == if cached[i].Some? then accounts + [cached[i].value] + Merged(rest, fetched[next..])
               else if next < |fetched| then accounts + [fetched[next]] + Merged(rest, fetched[next + 1..])
               else accounts + [None] + Merged(rest, fetched[next..])
  {
    assert cached[i..][1..] == cached[i + 1..];
    if next < |fetched| {
      assert fetched[next..][1..] == fetched[next + 1..];
    } else {
      assert fetched[next..] == [];
    }
  }

  /** What holds of each cached and each fetched account under its own key holds of the merge, position by position. */
  lemma {:induction false} MergeKeepsPositions(
    keys: seq<Pubkey>, cached: seq<Option<Option<Account>>>, fetched: seq<Option<Account>>,
    holds: (Pubkey, Option<Account>) -> bool, i: nat)
    requires |keys| == |cached| && |fetched| == |Missing(keys, cached)| && i < |keys|
    requires forall j :: 0 <= j < |keys| && cached[j].Some? ==> holds(keys[j], cached[j].value)
    requires forall j :: 0 <= j < |fetched| ==> holds(Missing(keys, cached)[j], fetched[j])
    ensures holds(keys[i], Merged(cached, fetched)[i])
  {
    if cached[0].None? {
      assert holds(Missing(keys, cached)[0], fetched[0]);
    }
    if i > 0 {
      var rest := if cached[0].None? then fetched[1..] else fetched;
      forall j | 0 <= j < |keys[1..]| && cached[1..][j].Some? ensures holds(keys[1..][j], cached[1..][j].value) {
        assert holds(keys[j + 1], cached[j + 1].value);
      }
      forall j | 0 <= j < |rest| ensures holds(Missing(keys[1..], cached[1..])[j], rest[j]) {
        if cached[0].None? {
          assert holds(Missing(keys, cached)[j + 1], fetched[j + 1]);
        }
      }
      MergeKeepsPositions(keys[1..], cached[1..], rest, holds, i - 1);
    }
  }

  // ---------------------------------------------------------------------------
  // The whole check
  // ---------------------------------------------------------------------------

  function AccountKeys(p: Programs, wallets: seq<Pubkey>): (r: seq<Pubkey>)
    ensures |r| == 1 + |wallets| && r[0] == p.instance
    ensures forall i :: 0 <= i < |wallets| ==> r[i + 1] == p.entryAddress(wallets[i])
  {
    [p.instance] + seq(|wallets|, i requires 0 <= i < |wallets| => p.entryAddress(wallets[i]))
  }

  /** Each key looked up in the cache as it was then; the lock is taken once per key. */
  function CachedAll(seen: seq<State>, keys: seq<Pubkey>): (r: seq<Option<Option<Account>>>)
    requires |seen| == |keys|
    ensures |r| == |keys|
    ensures forall i :: 0 <= i < |keys| ==> r[i] == Cached(seen[i].cache, keys[i], seen[i].now)
  {
    seq(|keys|, i requires 0 <= i < |keys| => Cached(seen[i].cache, keys[i], seen[i].now))
  }

  /**
   * `check`: `first` is the state when the instance is looked up, `seen` the state as each key is
   * looked up after that, and `fetched` what Mainnet answered for the keys missing then, if it did.
   */
  function Check(
    p: Programs, tx: Option<Transaction>, first: State, seen: seq<State>,
    fetched: Option<seq<Option<Account>>>): Verdict
    requires |seen| == 1 + |Deduped(AllWallets(p, tx))|
  {
    var wallets := Deduped(AllWallets(p, tx));
    if wallets == [] then Allowed
    else if |wallets| > MAX_WALLETS then Unchecked(TooManyWallets)
    else
      var instance := Cached(first.cache, p.instance, first.now);
      if instance.Some? && WhitelistsWithdrawals(p, instance.value) != Some(true)
      then Decide(p, wallets, [instance.value])
      else
        var keys := AccountKeys(p, wallets);
        var cached := CachedAll(seen, keys);
        if Missing(keys, cached) == [] then Decide(p, wallets, Merged(cached, []))
        else if fetched.None? then Unchecked(NoAnswer)
        else Decide(p, wallets, Merged(cached, fetched.value))
  }

  /** The instance, as last read, settles the check alone: it is no escrow instance, or does not whitelist. */
  predicate Settled(p: Programs, instance: Option<Option<Account>>) {
    && instance.Some?
    && (instance.value.None? || instance.value.value.owner != p.escrowProgram
        || p.decodeInstance(instance.value.value.data) != Some(true))
  }

  /**
   * When the check gives no verdict of the rule: for a transaction without a withdrawal, for one of more than
   * 99 wallets, and where an account it needs is neither cached nor fetched.
   */
  lemma {:induction false} CheckByCase(
    p: Programs, tx: Option<Transaction>, first: State, seen: seq<State>, fetched: Option<seq<Option<Account>>>)
    requires |seen| == 1 + |Deduped(AllWallets(p, tx))|
    ensures var wallets := Deduped(AllWallets(p, tx));
            var verdict := Check(p, tx, first, seen, fetched);
            var keys := AccountKeys(p, wallets);
            && (wallets == [] ==> verdict == Allowed)
            && (|wallets| > 99 <==> verdict == Unchecked(TooManyWallets))
            && (verdict == Unchecked(NoAnswer) <==>
                  && 0 < |wallets| <= 99 && !Settled(p, Cached(first.cache, p.instance, first.now)) && fetched.None?
                  && exists i :: 0 <= i < |keys| && Cached(seen[i].cache, keys[i], seen[i].now).None?)
  {
    var wallets := Deduped(AllWallets(p, tx));
    var keys := AccountKeys(p, wallets);
    MissingNoneIff(keys, CachedAll(seen, keys));
    forall accounts
      ensures Decide(p, wallets, accounts) !in {Unchecked(NoAnswer), Unchecked(TooManyWallets)}
    {
      DecideGivesRuleReasons(p, wallets, accounts);
    }
  }

  lemma {:induction false} MissingNoneIff(keys: seq<Pubkey>, cached: seq<Option<Option<Account>>>)
    requires |keys| == |cached|
    ensures Missing(keys, cached) == [] <==> forall i :: 0 <= i < |cached| ==> cached[i].Some?
  {
    if keys != [] {
      MissingNoneIff(keys[1..], cached[1..]);
      assert forall i :: 0 <= i < |cached[1..]| ==> cached[1..][i] == cached[i + 1];
      assert cached == [cached[0]] + cached[1..];
    }
  }

  lemma {:induction false} DecideGivesRuleReasons(p: Programs, wallets: seq<Pubkey>, accounts: seq<Option<Account>>)
    ensures Decide(p, wallets, accounts) !in {Unchecked(NoAnswer), Unchecked(TooManyWallets)}
  {
    if accounts != [] {
      ScanGivesRuleReasons(p, wallets, accounts[1..]);
    }
  }

  lemma {:induction false} ScanGivesRuleReasons(p: Programs, wallets: seq<Pubkey>, entries: seq<Option<Account>>)
    ensures ScanEntries(p, wallets, entries) !in {Unchecked(NoAnswer), Unchecked(TooManyWallets)}
  {
    if wallets != [] && entries != [] {
      ScanGivesRuleReasons(p, wallets[1..], entries[1..]);
    }
  }

  /** Runs get somewhere: a read of a key, and a lookup of it afterwards, which is answered from that read. */
  lemma {:induction false} ReadThenServed(mainnet: Mainnet, key: Pubkey, begin: Time, id: nat, later: Time)
    requires begin <= later < begin + CACHE_TTL
    ensures var read := More(More(Begin(begin), Start(id, [key])), Finish(id, [begin]));
            var run := More(More(read, Tick(later)), Serve(key));
            && ValidRun(mainnet, run)
            && After(mainnet, run).answers == [Answer(later, key, begin, mainnet(begin, key))]
  {
    var empty := Begin(begin);
    var started := More(empty, Start(id, [key]));
    var read := More(started, Finish(id, [begin]));
    var found := mainnet(begin, key);
    assert ValidRun(mainnet, empty) && After(mainnet, empty) == State(begin, map[], map[], []);
    assert ValidRun(mainnet, started);
    assert After(mainnet, started) == State(begin, map[], map[id := Read(begin, [key])], []);
    assert ReadAccounts(mainnet, [key], [begin]) == [found];
    OneRemembered(begin, key, found);
    assert ValidRun(mainnet, read);
    assert After(mainnet, read).cache == map[key := Entry(begin, found)] && After(mainnet, read).answers == [];
    var ticked := More(read, Tick(later));
    assert ValidRun(mainnet, ticked) && After(mainnet, ticked) == After(mainnet, read).(now := later);
  }

  lemma {:induction false} OneRemembered(now: Time, key: Pubkey, account: Option<Account>)
    ensures Remembered(map[], now, now, [key], [account]) == map[key := Entry(now, account)]
  {
    assert Retained(map[], now) == map[];
    assert StoredUpTo(map[], now, [key], [account], 0) == map[];
  }

  /** The account stood at `key` on Mainnet at some instant in `(from, to]`. */
  ghost predicate Stood(mainnet: Mainnet, key: Pubkey, account: Option<Account>, from: int, to: Time) {
    exists u: Time :: from < u <= to && mainnet(u, key) == account
  }

  /** A verdict the plain rule gives on accounts that all stood on Mainnet in `(from, to]`. */
  ghost predicate RuledOn(mainnet: Mainnet, p: Programs, raw: seq<Pubkey>, verdict: Verdict, from: int, to: Time,
                          instance: Option<Account>, entries: map<Pubkey, Option<Account>>) {
    && (forall w :: w in raw ==> w in entries)
    && Stood(mainnet, p.instance, instance, from, to)
    && (forall w :: w in entries ==> Stood(mainnet, p.entryAddress(w), entries[w], from, to))
    && verdict == PlainRule(p, raw, instance, entries)
  }

  ghost predicate PlainVerdict(mainnet: Mainnet, p: Programs, raw: seq<Pubkey>, verdict: Verdict, from: int, to: Time) {
    exists instance, entries :: RuledOn(mainnet, p, raw, verdict, from, to, instance, entries)
  }

  lemma {:induction false} FreshStood(mainnet: Mainnet, cache: Cache, key: Pubkey, now: Time, to: Time)
    requires CacheTruthful(mainnet, cache, now) && Cached(cache, key, now).Some? && now <= to
    ensures Stood(mainnet, key, Cached(cache, key, now).value, now - CACHE_TTL, to)
  {
    var e := cache[key];
    assert Truthful(mainnet, key, e, now);
    var u: Time :| e.readAt <= u <= now && mainnet(u, key) == e.account;
    assert now - CACHE_TTL < u <= to;
  }

  /** With the instance not whitelisting, its cached state alone gives the plain rule's verdict. */
  lemma {:induction false} EarlyExitIsRuled(mainnet: Mainnet, p: Programs, raw: seq<Pubkey>, cache: Cache, now: Time)
    requires CacheTruthful(mainnet, cache, now)
    requires Cached(cache, p.instance, now).Some?
    requires WhitelistsWithdrawals(p, Cached(cache, p.instance, now).value) != Some(true)
    ensures PlainVerdict(mainnet, p, raw, Decide(p, Deduped(raw), [Cached(cache, p.instance, now).value]),
            now - CACHE_TTL, now)
  {
    var instance := Cached(cache, p.instance, now).value;
    FreshStood(mainnet, cache, p.instance, now, now);
    var entries := map w | w in raw :: mainnet(now, p.entryAddress(w));
    forall w | w in entries ensures Stood(mainnet, p.entryAddress(w), entries[w], now - CACHE_TTL, now) {
      assert mainnet(now, p.entryAddress(w)) == entries[w];
    }
    InstanceAloneDecides(p, raw, instance, entries);
    assert RuledOn(mainnet, p, raw, Decide(p, Deduped(raw), [instance]), now - CACHE_TTL, now, instance, entries);
  }

  /** Deciding on positioned accounts that all stood is the plain rule on accounts that stood. */
  lemma {:induction false} PositionedIsRuled(
    mainnet: Mainnet, p: Programs, raw: seq<Pubkey>, accounts: seq<Option<Account>>, from: int, to: Time)
    requires |accounts| == 1 + |Deduped(raw)|
    requires forall i :: 0 <= i < |accounts| ==> Stood(mainnet, AccountKeys(p, Deduped(raw))[i], accounts[i], from, to)
    ensures PlainVerdict(mainnet, p, raw, Decide(p, Deduped(raw), accounts), from, to)
  {
    DecideIsPlainRule(p, raw, accounts);
    var wallets := Deduped(raw);
    var entries := ByWallet(wallets, accounts[1..]);
    assert Stood(mainnet, AccountKeys(p, wallets)[0], accounts[0], from, to);
    forall w | w in entries ensures Stood(mainnet, p.entryAddress(w), entries[w], from, to) {
      var i := IndexOf(wallets, w);
      assert Stood(mainnet, AccountKeys(p, wallets)[i + 1], accounts[i + 1], from, to);
    }
    assert RuledOn(mainnet, p, raw, Decide(p, wallets, accounts), from, to, accounts[0], entries);
  }

  /** States that runs of the cache reach, none before `from` and none after `to`. */
  ghost predicate ReachedBetween(mainnet: Mainnet, runs: seq<Run>, seen: seq<State>, from: Time, to: Time) {
    && |seen| == |runs|
    && forall i :: 0 <= i < |runs| ==>
         ValidRun(mainnet, runs[i]) && seen[i] == After(mainnet, runs[i]) && from <= seen[i].now <= to
  }

  /** Mainnet's answer for the keys missing, each account read between `from` and `to`. */
  ghost predicate AnsweredBetween(
    mainnet: Mainnet, missing: seq<Pubkey>, fetched: seq<Option<Account>>, instants: seq<Time>, from: Time, to: Time)
  {
    && |missing| == |instants| && fetched == ReadAccounts(mainnet, missing, instants)
    && forall i :: 0 <= i < |instants| ==> from <= instants[i] <= to
  }

  /**
   * The cached check equals the plain rule on recent Mainnet state, over every interleaving: the instance
   * is looked up after one run of the cache, and each key after its own, between `t1` and `t2`. Whenever
   * the check answers, its verdict is ReleaseFunds' rule over the raw withdrawer and destination list, on
   * an instance and entries that each stood on Mainnet within the TTL before the first lookup.
   */
  lemma {:induction false} CheckIsPlainRuleOnRecentState(
    mainnet: Mainnet, p: Programs, tx: Option<Transaction>, r0: Run, runs: seq<Run>, seen: seq<State>,
    fetched: Option<seq<Option<Account>>>, instants: seq<Time>, t1: Time, t2: Time)
    requires ValidRun(mainnet, r0) && t1 <= t2
    requires |seen| == 1 + |Deduped(AllWallets(p, tx))| && ReachedBetween(mainnet, runs, seen, t1, t2)
    requires fetched.Some? ==>
               var keys := AccountKeys(p, Deduped(AllWallets(p, tx)));
               AnsweredBetween(mainnet, Missing(keys, CachedAll(seen, keys)), fetched.value, instants, t1, t2)
    ensures var raw := AllWallets(p, tx);
            var first := After(mainnet, r0);
            var verdict := Check(p, tx, first, seen, fetched);
            || (raw == [] && verdict == Allowed)
            || (|Deduped(raw)| > MAX_WALLETS && verdict == Unchecked(TooManyWallets))
            || (fetched.None? && verdict == Unchecked(NoAnswer))
            || PlainVerdict(mainnet, p, raw, verdict, first.now - CACHE_TTL, first.now)
            || PlainVerdict(mainnet, p, raw, verdict, t1 - CACHE_TTL, t2)
  {
    var raw := AllWallets(p, tx);
    var wallets := Deduped(raw);
    var first := After(mainnet, r0);
    DedupedKeepsExactly(raw);
    EveryRunIsRecentAndMonotone(mainnet, r0);
    var instance := Cached(first.cache, p.instance, first.now);
    if wallets == [] || |wallets| > MAX_WALLETS {
      assert wallets == [] ==> raw == [] by {
        if raw != [] {
          assert raw[0] in wallets;
        }
      }
    } else if instance.Some? && WhitelistsWithdrawals(p, instance.value) != Some(true) {
      EarlyExitIsRuled(mainnet, p, raw, first.cache, first.now);
    } else {
      var missing := Missing(AccountKeys(p, wallets), CachedAll(seen, AccountKeys(p, wallets)));
      if missing == [] {
        assert AnsweredBetween(mainnet, missing, [], [], t1, t2);
        MergedIsRuled(mainnet, p, raw, runs, seen, [], [], t1, t2);
      } else if fetched.Some? {
        MergedIsRuled(mainnet, p, raw, runs, seen, fetched.value, instants, t1, t2);
      }
    }
  }

  lemma {:induction false} MergedIsRuled(
    mainnet: Mainnet, p: Programs, raw: seq<Pubkey>, runs: seq<Run>, seen: seq<State>,
    fetched: seq<Option<Account>>, instants: seq<Time>, t1: Time, t2: Time)
    requires |seen| == 1 + |Deduped(raw)| && ReachedBetween(mainnet, runs, seen, t1, t2)
    requires var keys := AccountKeys(p, Deduped(raw));
             AnsweredBetween(mainnet, Missing(keys, CachedAll(seen, keys)), fetched, instants, t1, t2)
    ensures var accounts := Merged(CachedAll(seen, AccountKeys(p, Deduped(raw))), fetched);
            PlainVerdict(mainnet, p, raw, Decide(p, Deduped(raw), accounts), t1 - CACHE_TTL, t2)
  {
    var keys := AccountKeys(p, Deduped(raw));
    MergedStood(mainnet, keys, runs, seen, fetched, instants, t1, t2);
    PositionedIsRuled(mainnet, p, raw, Merged(CachedAll(seen, keys), fetched), t1 - CACHE_TTL, t2);
  }

  lemma {:induction false} MergedStood(
    mainnet: Mainnet, keys: seq<Pubkey>, runs: seq<Run>, seen: seq<State>,
    fetched: seq<Option<Account>>, instants: seq<Time>, t1: Time, t2: Time)
    requires |seen| == |keys| && ReachedBetween(mainnet, runs, seen, t1, t2)
    requires AnsweredBetween(mainnet, Missing(keys, CachedAll(seen, keys)), fetched, instants, t1, t2)
    ensures var accounts := Merged(CachedAll(seen, keys), fetched);
            forall i :: 0 <= i < |keys| ==> Stood(mainnet, keys[i], accounts[i], t1 - CACHE_TTL, t2)
  {
    var cached := CachedAll(seen, keys);
    var holds := (k: Pubkey, a: Option<Account>) => Stood(mainnet, k, a, t1 - CACHE_TTL, t2);
    forall j | 0 <= j < |keys| && cached[j].Some? ensures holds(keys[j], cached[j].value) {
      SeenStood(mainnet, runs[j], keys[j], t1, t2);
    }
    forall j | 0 <= j < |fetched| ensures holds(Missing(keys, cached)[j], fetched[j]) {
      assert mainnet(instants[j], Missing(keys, cached)[j]) == fetched[j];
    }
    forall i | 0 <= i < |keys| ensures Stood(mainnet, keys[i], Merged(cached, fetched)[i], t1 - CACHE_TTL, t2) {
      MergeKeepsPositions(keys, cached, fetched, holds, i);
    }
  }

  /** A key found in the cache a run reaches stood within the TTL. */
  lemma {:induction false} SeenStood(mainnet: Mainnet, r: Run, key: Pubkey, t1: Time, t2: Time)
    requires ValidRun(mainnet, r) && t1 <= After(mainnet, r).now <= t2
    requires Cached(After(mainnet, r).cache, key, After(mainnet, r).now).Some?
    ensures var s := After(mainnet, r); Stood(mainnet, key, Cached(s.cache, key, s.now).value, t1 - CACHE_TTL, t2)
  {
    EveryRunIsRecentAndMonotone(mainnet, r);
    var s := After(mainnet, r);
    FreshStood(mainnet, s.cache, key, s.now, t2);
    var account := Cached(s.cache, key, s.now).value;
    var u: Time :| s.now - CACHE_TTL < u <= t2 && mainnet(u, key) == account;
    assert t1 - CACHE_TTL < u;
  }
}
