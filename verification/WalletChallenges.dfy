/**
 * Wallet challenges (auth/src/db.rs, auth/src/routes/verify_wallet.rs): a user proves a wallet by
 * signing a challenge that is spent with the proof. Each statement or transaction is one step.
 */
module WalletChallenges {
  import opened Common

  type UserId = nat
  type Nonce = nat

  /** Milliseconds. */
  type Time = int

  const CHALLENGE_LIFETIME := 600_000

  datatype Challenge = Challenge(nonce: Nonce, expiresAt: Time)

  datatype Row = Row(challenge: Challenge, usedAt: Option<Time>)

  /** The two tables; the schema makes `user_id` unique among challenges and (user, pubkey) among wallets. */
  datatype Tables = Tables(challenges: map<UserId, Row>, wallets: set<(UserId, string)>)

  const EMPTY := Tables(map[], {})

  /** What a wallet's key is asked to sign. */
  datatype Message = Message(user: UserId, pubkey: string, challenge: Challenge)

  predicate HeldByAnother(t: Tables, user: UserId, nonce: Nonce) {
    exists u :: u in t.challenges && u != user && t.challenges[u].challenge.nonce == nonce
  }

  predicate Consumable(row: Row, nonce: Nonce, now: Time) {
    row.challenge.nonce == nonce && row.usedAt.None? && now < row.challenge.expiresAt
  }

  predicate Stale(row: Row, now: Time) {
    row.usedAt.Some? || row.challenge.expiresAt < now
  }

  function Consumed(t: Tables, user: UserId, now: Time): Tables
    requires user in t.challenges
  {
    t.(challenges := t.challenges[user := t.challenges[user].(usedAt := Some(now))])
  }

  function Cleaned(t: Tables, now: Time): Tables {
    t.(challenges := map u | u in t.challenges && !Stale(t.challenges[u], now) :: t.challenges[u])
  }

  function Unlinked(t: Tables, user: UserId, pubkey: string): Tables {
    Tables(t.challenges - {user}, t.wallets - {(user, pubkey)})
  }

  // ---------------------------------------------------------------------------
  // The database
  // ---------------------------------------------------------------------------

  class AuthDb {
    var challenges: map<UserId, Row>
    var wallets: set<(UserId, string)>

    ghost function Contents(): Tables
      reads this
    {
      Tables(challenges, wallets)
    }

    constructor ()
      ensures Contents() == EMPTY
    {
      challenges, wallets := map[], {};
    }

    /** An upsert on the user; a nonce another user's row holds violates its unique constraint. */
    method InsertChallenge(user: UserId, nonce: Nonce, clock: Time) returns (r: Result<Challenge, int>)
      modifies this
      ensures (Contents(), r) == IssueStep(old(Contents()), user, nonce, clock)
    {
      if exists u :: u in challenges && u != user && challenges[u].challenge.nonce == nonce {
        return Err(500);
      }
      var issued := Challenge(nonce, clock + CHALLENGE_LIFETIME);
      challenges := challenges[user := Row(issued, None)];
      r := Ok(issued);
    }

    /** One update guarded by its own condition, so it can succeed once per challenge. */
    method ConsumeChallenge(user: UserId, nonce: Nonce, now: Time) returns (r: Option<Challenge>)
      modifies this`challenges
      ensures r.Some? <==> user in old(challenges) && Consumable(old(challenges)[user], nonce, now)
      ensures r.Some? ==> r.value == old(challenges)[user].challenge
      ensures r.Some? ==> Contents() == Consumed(old(Contents()), user, now)
      ensures r.None? ==> Contents() == old(Contents())
    {
      if user !in challenges || !Consumable(challenges[user], nonce, now) {
        return None;
      }
      challenges := challenges[user := challenges[user].(usedAt := Some(now))];
      r := Some(challenges[user].challenge);
    }

    method InsertVerifiedWallet(user: UserId, pubkey: string) returns (ok: bool)
      modifies this`wallets
      ensures ok <==> (user, pubkey) !in old(wallets)
      ensures wallets == old(wallets) + {(user, pubkey)}
    {
      ok := (user, pubkey) !in wallets;
      wallets := wallets + {(user, pubkey)};
    }

    /** The whole `verify_wallet` transaction: a bad signature commits, a failed insert rolls back. */
    method VerifyWallet(user: UserId, nonce: Nonce, pubkey: string, verifies: Message -> bool, now: Time)
      returns (r: Result<Challenge, int>)
      modifies this
      ensures (Contents(), Answer(r)) == VerifyStep(old(Contents()), user, nonce, pubkey, verifies, now)
      ensures r.Err? ==> r.error in {400, 401, 409}
      ensures r == Err(401) <==>
                && user in old(challenges) && Consumable(old(challenges)[user], nonce, now)
                && !verifies(Message(user, pubkey, old(challenges)[user].challenge))
    {
      var before := challenges;
      var challenge := ConsumeChallenge(user, nonce, now);
      if challenge.None? {
        return Err(400);
      }
      if !verifies(Message(user, pubkey, challenge.value)) {
        return Err(401);
      }
      var inserted := InsertVerifiedWallet(user, pubkey);
      if !inserted {
        challenges := before;
        assert wallets == old(wallets);
        return Err(409);
      }
      r := Ok(challenge.value);
    }

    /** Challenge first, then wallet; a miss rolls both back. */
    method DeleteVerifiedWallet(user: UserId, pubkey: string) returns (found: bool)
      modifies this
      ensures found <==> (user, pubkey) in old(wallets)
      ensures found ==> Contents() == Unlinked(old(Contents()), user, pubkey)
      ensures !found ==> Contents() == old(Contents())
    {
      var before := challenges;
      challenges := challenges - {user};
      found := (user, pubkey) in wallets;
      wallets := wallets - {(user, pubkey)};
      if !found {
        challenges := before;
      }
    }

    method CleanupStaleChallenges(now: Time) returns (deleted: nat)
      modifies this`challenges
      ensures Contents() == Cleaned(old(Contents()), now)
      ensures deleted == |old(challenges)| - |challenges|
    {
      var before := challenges;
      challenges := map u | u in challenges && !Stale(challenges[u], now) :: challenges[u];
      SubmapIsNoLarger(challenges, before);
      deleted := |before| - |challenges|;
    }
  }

  lemma {:induction false} SubmapIsNoLarger(small: map<UserId, Row>, large: map<UserId, Row>)
    requires small.Keys <= large.Keys
    ensures |small| <= |large|
  {
    SubsetSize(small.Keys, large.Keys);
    assert |small| == |small.Keys| && |large| == |large.Keys|;
  }

  // ---------------------------------------------------------------------------
  // Runs
  // ---------------------------------------------------------------------------

  /** `Issue` reads the service's clock; `Verify` and `Cleanup` read the database's. */
  datatype Event =
    | Issue(user: UserId, nonce: Nonce, clock: Time)
    | Verify(user: UserId, nonce: Nonce, pubkey: string, verifies: Message -> bool, now: Time)
    | Attach(user: UserId, pubkey: string)
    | Unlink(user: UserId, pubkey: string)
    | Cleanup(now: Time)

  /** `Linked` and `Burned` spend the challenge: one with a wallet linked, one on a bad signature. */
  datatype Outcome = Issued(challenge: Challenge) | Linked(challenge: Challenge) | Burned | Done | Refused(status: int)

  function IssueStep(t: Tables, user: UserId, nonce: Nonce, clock: Time): (Tables, Result<Challenge, int>) {
    if HeldByAnother(t, user, nonce) then (t, Err(500))
    else
      var issued := Challenge(nonce, clock + CHALLENGE_LIFETIME);
      (t.(challenges := t.challenges[user := Row(issued, None)]), Ok(issued))
  }

  function VerifyStep(
    t: Tables, user: UserId, nonce: Nonce, pubkey: string, verifies: Message -> bool, now: Time): (Tables, Outcome)
  {
    if user !in t.challenges || !Consumable(t.challenges[user], nonce, now) then (t, Refused(400))
    else if !verifies(Message(user, pubkey, t.challenges[user].challenge)) then (Consumed(t, user, now), Burned)
    else if (user, pubkey) in t.wallets then (t, Refused(409))
    else
      (Consumed(t, user, now).(wallets := t.wallets + {(user, pubkey)}), Linked(t.challenges[user].challenge))
  }

  /** How a `verify_wallet` reply reads as an outcome. */
  function Answer(r: Result<Challenge, int>): Outcome {
    match r
    case Ok(c) => Linked(c)
    case Err(status) => if status == 401 then Burned else Refused(status)
  }

  function Step(t: Tables, e: Event): (Tables, Outcome) {
    match e
    case Issue(user, nonce, clock) =>
      var (after, r) := IssueStep(t, user, nonce, clock);
      (after, if r.Ok? then Issued(r.value) else Refused(r.error))
    case Verify(user, nonce, pubkey, verifies, now) => VerifyStep(t, user, nonce, pubkey, verifies, now)
    case Attach(user, pubkey) =>
      if (user, pubkey) in t.wallets then (t, Refused(409)) else (t.(wallets := t.wallets + {(user, pubkey)}), Done)
    case Unlink(user, pubkey) =>
      if (user, pubkey) in t.wallets then (Unlinked(t, user, pubkey), Done) else (t, Refused(404))
    case Cleanup(now) => (Cleaned(t, now), Done)
  }

  function After(t: Tables, es: seq<Event>): Tables
    decreases |es|
  {
    if es == [] then t else After(Step(t, es[0]).0, es[1..])
  }

  // ---------------------------------------------------------------------------
  // One proof
  // ---------------------------------------------------------------------------

  /** No later proof of this user's can use the challenge, whatever it signs. */
  ghost predicate NothingToProve(t: Tables, user: UserId) {
    forall nonce, pubkey, verifies, now :: Step(t, Verify(user, nonce, pubkey, verifies, now)) == (t, Refused(400))
  }

  /**
   * A challenge just issued links the wallet whose signature over it verifies, if it comes within the
   * lifetime and the wallet is not linked yet; a signature that does not verify spends it all the same; and
   * a wallet already linked spends nothing.
   */
  lemma {:induction false} ProofByCase(
    t: Tables, user: UserId, nonce: Nonce, clock: Time, pubkey: string, verifies: Message -> bool, now: Time)
    requires Step(t, Issue(user, nonce, clock)).1.Issued?
    ensures var issued := Step(t, Issue(user, nonce, clock)).0;
            var c := Challenge(nonce, clock + 600_000);
            var (after, r) := Step(issued, Verify(user, nonce, pubkey, verifies, now));
            if clock + 600_000 <= now then (after, r) == (issued, Refused(400))
            else if !verifies(Message(user, pubkey, c)) then
              r == Burned && after.wallets == t.wallets && NothingToProve(after, user)
            else if (user, pubkey) in t.wallets then (after, r) == (issued, Refused(409))
            else
              r == Linked(c) && after.wallets == t.wallets + {(user, pubkey)} && NothingToProve(after, user)
  {
  }

  /** A nonce another user's row holds is not issued; any other replaces whatever the user was last issued. */
  lemma {:induction false} IssueByCase(t: Tables, user: UserId, nonce: Nonce, clock: Time)
    ensures var (after, r) := Step(t, Issue(user, nonce, clock));
            if exists u :: u in t.challenges && u != user && t.challenges[u].challenge.nonce == nonce
            then (after, r) == (t, Refused(500))
            else
              && r == Issued(Challenge(nonce, clock + 600_000)) && after.wallets == t.wallets
              && forall other, pubkey, verifies, now ::
                   Step(after, Verify(user, other, pubkey, verifies, now)).1 != Refused(400)
                   ==> other == nonce && now < clock + 600_000
  {
  }

  /** Linking by hand and unlinking, each of which a second time is an error that changes nothing. */
  lemma {:induction false} LinkByCase(t: Tables, user: UserId, pubkey: string)
    ensures Step(t, Attach(user, pubkey)) ==
              if (user, pubkey) in t.wallets then (t, Refused(409))
              else (Tables(t.challenges, t.wallets + {(user, pubkey)}), Done)
    ensures var (after, r) := Step(t, Unlink(user, pubkey));
            if (user, pubkey) !in t.wallets then (after, r) == (t, Refused(404))
            else
              && r == Done && after.wallets == t.wallets - {(user, pubkey)} && NothingToProve(after, user)
              && forall u :: u != user ==>
                   (u in after.challenges <==> u in t.challenges)
                   && (u in t.challenges ==> after.challenges[u] == t.challenges[u])
  {
  }

  /** A cleanup keeps exactly the rows that are unused and have not expired. */
  lemma {:induction false} CleanupByCase(t: Tables, now: Time, u: UserId)
    ensures var (after, r) := Step(t, Cleanup(now));
            && r == Done && after.wallets == t.wallets
            && (u in after.challenges <==>
                  && u in t.challenges && t.challenges[u].usedAt.None? && now <= t.challenges[u].challenge.expiresAt)
            && (u in after.challenges ==> after.challenges[u] == t.challenges[u])
  {
  }

  // ---------------------------------------------------------------------------
  // Every spent challenge was issued
  // ---------------------------------------------------------------------------

  /** Whether this event spends challenge `c` of user `u`. */
  predicate Spends(t: Tables, e: Event, u: UserId, c: Challenge) {
    && e.Verify? && e.user == u && u in t.challenges && t.challenges[u].challenge == c
    && (Step(t, e).1.Linked? || Step(t, e).1.Burned?)
  }

  predicate Issues(t: Tables, e: Event, u: UserId, c: Challenge) {
    e.Issue? && e.user == u && Step(t, e).1 == Issued(c)
  }

  function SpentCount(t: Tables, es: seq<Event>, u: UserId, c: Challenge): nat
    decreases |es|
  {
    if es == [] then 0
    else (if Spends(t, es[0], u, c) then 1 else 0) + SpentCount(Step(t, es[0]).0, es[1..], u, c)
  }

  function IssuedCount(t: Tables, es: seq<Event>, u: UserId, c: Challenge): nat
    decreases |es|
  {
    if es == [] then 0
    else (if Issues(t, es[0], u, c) then 1 else 0) + IssuedCount(Step(t, es[0]).0, es[1..], u, c)
  }

  function Outstanding(t: Tables, u: UserId, c: Challenge): nat {
    if u in t.challenges && t.challenges[u] == Row(c, None) then 1 else 0
  }

  /**
   * Conservation over every run from every state: a challenge spent, with whatever of it is still
   * outstanding, was outstanding at the start or issued since.
   */
  lemma {:induction false} SpendsNeedIssues(t: Tables, es: seq<Event>, u: UserId, c: Challenge)
    ensures SpentCount(t, es, u, c) + Outstanding(After(t, es), u, c) <= Outstanding(t, u, c) + IssuedCount(t, es, u, c)
    decreases |es|
  {
    if es != [] {
      SpendsNeedIssues(Step(t, es[0]).0, es[1..], u, c);
    }
  }

  /**
   * After an unlink that found its wallet, only challenges issued later can be spent, whatever the user
   * signed before.
   */
  lemma {:induction false} UnlinkRevokes(t: Tables, user: UserId, pubkey: string, es: seq<Event>, c: Challenge)
    requires Step(t, Unlink(user, pubkey)).1 == Done
    ensures var after := Step(t, Unlink(user, pubkey)).0;
            SpentCount(after, es, user, c) <= IssuedCount(after, es, user, c)
  {
    SpendsNeedIssues(Step(t, Unlink(user, pubkey)).0, es, user, c);
  }

  // ---------------------------------------------------------------------------
  // Every linked wallet was proved
  // ---------------------------------------------------------------------------

  /** The tables before the `k`-th event of a run from empty tables. */
  function At(es: seq<Event>, k: nat): Tables
    requires k <= |es|
  {
    if k == 0 then EMPTY else Step(At(es, k - 1), es[k - 1]).0
  }

  predicate UnlinksAt(es: seq<Event>, k: nat, u: UserId)
    requires k < |es|
  {
    es[k].Unlink? && es[k].user == u && Step(At(es, k), es[k]).1 == Done
  }

  /** The `j`-th event issued `c` to `u`, and no unlink of theirs took effect between it and the `k`-th. */
  predicate IssuedAt(es: seq<Event>, j: nat, k: nat, u: UserId, c: Challenge)
    requires k <= |es|
  {
    && j < k && Issues(At(es, j), es[j], u, c)
    && forall m :: j < m < k ==> !UnlinksAt(es, m, u)
  }

  /**
   * The `i`-th event verified a signature by `pubkey` over a challenge issued to `u` since `u` last
   * unlinked a wallet.
   */
  ghost predicate ProvedAt(es: seq<Event>, i: nat, u: UserId, pubkey: string)
    requires i < |es|
  {
    && es[i].Verify? && es[i].user == u && es[i].pubkey == pubkey
    && u in At(es, i).challenges
    && var c := At(es, i).challenges[u].challenge;
       && es[i].verifies(Message(u, pubkey, c)) && es[i].now < c.expiresAt
       && exists j :: IssuedAt(es, j, i, u, c)
  }

  /** The `i`-th event linked the wallet, by proof or by an administrator, and it stayed linked up to the `k`-th. */
  ghost predicate LinkedAt(es: seq<Event>, i: nat, k: nat, u: UserId, pubkey: string)
    requires k <= |es|
  {
    && i < k && (es[i] == Attach(u, pubkey) || ProvedAt(es, i, u, pubkey))
    && forall m :: i < m < k ==> !(es[m] == Unlink(u, pubkey))
  }

  lemma {:induction false} UnusedRowsWereIssued(es: seq<Event>, k: nat, u: UserId)
    requires k <= |es|
    ensures u in At(es, k).challenges && At(es, k).challenges[u].usedAt.None?
            ==> exists j :: IssuedAt(es, j, k, u, At(es, k).challenges[u].challenge)
  {
    if k > 0 && u in At(es, k).challenges && At(es, k).challenges[u].usedAt.None? {
      var c := At(es, k).challenges[u].challenge;
      if Issues(At(es, k - 1), es[k - 1], u, c) {
        assert IssuedAt(es, k - 1, k, u, c);
      } else {
        UnusedRowsWereIssued(es, k - 1, u);
        var j :| IssuedAt(es, j, k - 1, u, c);
        assert IssuedAt(es, j, k, u, c);
      }
    }
  }

  /**
   * Over every run: each wallet in the table was attached, or proved with a challenge newer than the user's
   * last unlink.
   */
  lemma {:induction false} LinkedWalletsWereProved(es: seq<Event>, k: nat, u: UserId, pubkey: string)
    requires k <= |es|
    ensures (u, pubkey) in At(es, k).wallets ==> exists i :: LinkedAt(es, i, k, u, pubkey)
  {
    if k > 0 && (u, pubkey) in At(es, k).wallets {
      if (u, pubkey) in At(es, k - 1).wallets {
        LinkedWalletsWereProved(es, k - 1, u, pubkey);
        var i :| LinkedAt(es, i, k - 1, u, pubkey);
        assert es[k - 1] != Unlink(u, pubkey);
        assert LinkedAt(es, i, k, u, pubkey);
      } else {
        UnusedRowsWereIssued(es, k - 1, u);
        assert LinkedAt(es, k - 1, k, u, pubkey);
      }
    }
  }

  // ---------------------------------------------------------------------------
  // With nonces never drawn twice, each is spent at most once
  // ---------------------------------------------------------------------------

  function Seen(seen: set<Nonce>, e: Event): set<Nonce> {
    if e.Issue? then seen + {e.nonce} else seen
  }

  /** Every nonce issued is one not seen before. */
  predicate FreshNonces(seen: set<Nonce>, es: seq<Event>)
    decreases |es|
  {
    es == []
    || (&& (es[0].Issue? ==> es[0].nonce !in seen)
        && FreshNonces(Seen(seen, es[0]), es[1..]))
  }

  /** The schema's unique constraint on `nonce`, and every live nonce among those seen. */
  ghost predicate Accounted(t: Tables, seen: set<Nonce>) {
    && (forall u :: u in t.challenges ==> t.challenges[u].challenge.nonce in seen)
    && forall u, v :: u in t.challenges && v in t.challenges && u != v ==>
         t.challenges[u].challenge.nonce != t.challenges[v].challenge.nonce
  }

  lemma {:induction false} StepKeepsNoncesUnique(t: Tables, e: Event, seen: set<Nonce>)
    requires Accounted(t, seen)
    ensures Accounted(Step(t, e).0, Seen(seen, e))
  {
  }

  predicate SpendsNonce(t: Tables, e: Event, n: Nonce) {
    e.Verify? && e.nonce == n && (Step(t, e).1.Linked? || Step(t, e).1.Burned?)
  }

  function NonceSpentCount(t: Tables, es: seq<Event>, n: Nonce): nat
    decreases |es|
  {
    if es == [] then 0
    else (if SpendsNonce(t, es[0], n) then 1 else 0) + NonceSpentCount(Step(t, es[0]).0, es[1..], n)
  }

  /** Some user still holds the nonce unused. */
  predicate Live(t: Tables, n: Nonce) {
    exists u :: u in t.challenges && t.challenges[u].challenge.nonce == n && t.challenges[u].usedAt.None?
  }

  /**
   * Over every run, by every user together: a nonce is spent at most once, and a seen one no longer live
   * never again.
   */
  lemma {:induction false} NonceIsSpentOnce(t: Tables, es: seq<Event>, seen: set<Nonce>, n: Nonce)
    requires Accounted(t, seen) && FreshNonces(seen, es)
    ensures NonceSpentCount(t, es, n) <= if n in seen && !Live(t, n) then 0 else 1
    decreases |es|
  {
    if es != [] {
      var after, seen' := Step(t, es[0]).0, Seen(seen, es[0]);
      StepKeepsNoncesUnique(t, es[0], seen);
      NonceIsSpentOnce(after, es[1..], seen', n);
      StepUsesUpNonce(t, es[0], seen, n);
    }
  }

  lemma {:induction false} StepUsesUpNonce(t: Tables, e: Event, seen: set<Nonce>, n: Nonce)
    requires Accounted(t, seen) && (e.Issue? ==> e.nonce !in seen)
    ensures n in seen && !Live(t, n) ==> !Live(Step(t, e).0, n)
    ensures SpendsNonce(t, e, n) ==> Live(t, n) && n in seen && !Live(Step(t, e).0, n)
  {
    var after := Step(t, e).0;
    if SpendsNonce(t, e, n) {
      assert t.challenges[e.user].challenge.nonce == n;
    }
    if u :| u in after.challenges && after.challenges[u].challenge.nonce == n && after.challenges[u].usedAt.None? {
      assert u in t.challenges || n !in seen;
    }
  }

  // ---------------------------------------------------------------------------
  // Cleanup is invisible
  // ---------------------------------------------------------------------------

  /** The database's clock never runs back. */
  predicate Monotone(now: Time, es: seq<Event>)
    decreases |es|
  {
    es == []
    || (if es[0].Verify? || es[0].Cleanup? then now <= es[0].now && Monotone(es[0].now, es[1..])
      else Monotone(now, es[1..]))
  }

  function Clock(now: Time, e: Event): Time {
    if e.Verify? || e.Cleanup? then e.now else now
  }

  /** The run with every cleanup taken out. */
  function WithoutCleanup(es: seq<Event>): seq<Event> {
    if es == [] then [] else (if es[0].Cleanup? then [] else [es[0]]) + WithoutCleanup(es[1..])
  }

  /** What callers see: every outcome but the cleanups'. */
  function Outcomes(t: Tables, es: seq<Event>): seq<Outcome>
    decreases |es|
  {
    if es == [] then []
    else (if es[0].Cleanup? then [] else [Step(t, es[0]).1]) + Outcomes(Step(t, es[0]).0, es[1..])
  }

  /** `b` is `a` but for rows that are stale by `now`. */
  ghost predicate Pruned(a: Tables, b: Tables, now: Time) {
    && a.wallets == b.wallets
    && (forall u :: u in b.challenges ==> u in a.challenges && a.challenges[u] == b.challenges[u])
    && forall u :: u in a.challenges && u !in b.challenges ==> Stale(a.challenges[u], now)
  }

  lemma {:induction false} StepKeepsPruned(a: Tables, b: Tables, now: Time, e: Event, seen: set<Nonce>)
    requires Pruned(a, b, now) && now <= Clock(now, e) && !e.Cleanup?
    requires Accounted(a, seen) && (e.Issue? ==> e.nonce !in seen)
    ensures Step(a, e).1 == Step(b, e).1
    ensures Pruned(Step(a, e).0, Step(b, e).0, Clock(now, e))
  {
  }

  lemma {:induction false} CleanupKeepsPruned(a: Tables, b: Tables, now: Time, at: Time)
    requires Pruned(a, b, now) && now <= at
    ensures Pruned(a, Cleaned(b, at), at)
  {
  }

  /** Cleanups anywhere in a run, at any frequency, change no other step's outcome and no wallet. */
  lemma {:induction false} CleanupIsInvisible(a: Tables, b: Tables, now: Time, es: seq<Event>, seen: set<Nonce>)
    requires Pruned(a, b, now) && Monotone(now, es)
    requires Accounted(a, seen) && FreshNonces(seen, es)
    ensures Outcomes(b, es) == Outcomes(a, WithoutCleanup(es))
    ensures After(b, es).wallets == After(a, WithoutCleanup(es)).wallets
    decreases |es|
  {
    if es == [] {
    } else if es[0].Cleanup? {
      CleanupKeepsPruned(a, b, now, es[0].now);
      CleanupIsInvisible(a, Cleaned(b, es[0].now), es[0].now, es[1..], seen);
      assert WithoutCleanup(es) == WithoutCleanup(es[1..]);
    } else {
      StepKeepsPruned(a, b, now, es[0], seen);
      StepKeepsNoncesUnique(a, es[0], seen);
      CleanupIsInvisible(Step(a, es[0]).0, Step(b, es[0]).0, Clock(now, es[0]), es[1..], Seen(seen, es[0]));
      var rest := WithoutCleanup(es[1..]);
      assert WithoutCleanup(es) == [es[0]] + rest;
      assert ([es[0]] + rest)[1..] == rest;
    }
  }

  /** The event issues a nonce that another user's row holds, and held only by rows cleaned up. */
  predicate RedrawsStaleNonce(a: Tables, b: Tables, e: Event) {
    e.Issue? && HeldByAnother(a, e.user, e.nonce) && !HeldByAnother(b, e.user, e.nonce)
  }

  /**
   * What cleanups can show at any later step: the outcome differs if and only if the step redraws a stale
   * nonce, and if it does not, the tables still differ by nothing but stale rows.
   */
  lemma {:induction false} StepSeesCleanupIff(a: Tables, b: Tables, now: Time, e: Event)
    requires Pruned(a, b, now) && now <= Clock(now, e) && !e.Cleanup?
    ensures Step(a, e).1 != Step(b, e).1 <==> RedrawsStaleNonce(a, b, e)
    ensures !RedrawsStaleNonce(a, b, e) ==> Pruned(Step(a, e).0, Step(b, e).0, Clock(now, e))
  {
    if e.Issue? && HeldByAnother(b, e.user, e.nonce) {
      var u :| u in b.challenges && u != e.user && b.challenges[u].challenge.nonce == e.nonce;
      assert u in a.challenges;
    }
  }

  /** No step of the run redraws a stale nonce, with cleanups taken on `b` alone. */
  predicate NeverRedraws(a: Tables, b: Tables, es: seq<Event>)
    decreases |es|
  {
    es == []
    || (if es[0].Cleanup? then NeverRedraws(a, Step(b, es[0]).0, es[1..])
        else !RedrawsStaleNonce(a, b, es[0]) && NeverRedraws(Step(a, es[0]).0, Step(b, es[0]).0, es[1..]))
  }

  /** Over every run: cleanups change some other step's outcome if and only if a step redraws a stale nonce. */
  lemma {:induction false} CleanupInvisibleIffNoneRedrawn(a: Tables, b: Tables, now: Time, es: seq<Event>)
    requires Pruned(a, b, now) && Monotone(now, es)
    ensures Outcomes(b, es) == Outcomes(a, WithoutCleanup(es)) <==> NeverRedraws(a, b, es)
    decreases |es|
  {
    if es == [] {
    } else if es[0].Cleanup? {
      CleanupKeepsPruned(a, b, now, es[0].now);
      CleanupInvisibleIffNoneRedrawn(a, Cleaned(b, es[0].now), es[0].now, es[1..]);
      assert WithoutCleanup(es) == WithoutCleanup(es[1..]);
    } else {
      var rest := WithoutCleanup(es[1..]);
      assert WithoutCleanup(es) == [es[0]] + rest && ([es[0]] + rest)[1..] == rest;
      var left, right := [Step(b, es[0]).1], [Step(a, es[0]).1];
      assert Outcomes(b, es) == left + Outcomes(Step(b, es[0]).0, es[1..]);
      assert Outcomes(a, WithoutCleanup(es)) == right + Outcomes(Step(a, es[0]).0, rest);
      StepSeesCleanupIff(a, b, now, es[0]);
      ConsEqual(left[0], right[0], Outcomes(Step(b, es[0]).0, es[1..]), Outcomes(Step(a, es[0]).0, rest));
      if !RedrawsStaleNonce(a, b, es[0]) {
        CleanupInvisibleIffNoneRedrawn(Step(a, es[0]).0, Step(b, es[0]).0, Clock(now, es[0]), es[1..]);
      }
    }
  }

  lemma {:induction false} ConsEqual(x: Outcome, y: Outcome, xs: seq<Outcome>, ys: seq<Outcome>)
    ensures [x] + xs == [y] + ys <==> x == y && xs == ys
  {
    if [x] + xs == [y] + ys {
      assert ([x] + xs)[0] == x && ([y] + ys)[0] == y;
      assert ([x] + xs)[1..] == xs && ([y] + ys)[1..] == ys;
    }
  }

  /** Such a run: a nonce drawn again while another user's used row holds it is issued only after a cleanup. */
  lemma {:induction false} RedrawnNonceSeesCleanup()
    ensures var t := Tables(map[1 := Row(Challenge(7, 100), Some(50))], {});
            && Monotone(60, [Cleanup(60), Issue(2, 7, 60)])
            && Outcomes(t, [Cleanup(60), Issue(2, 7, 60)]) == [Issued(Challenge(7, 60 + CHALLENGE_LIFETIME))]
            && Outcomes(t, [Issue(2, 7, 60)]) == [Refused(500)]
  {
    var t := Tables(map[1 := Row(Challenge(7, 100), Some(50))], {});
    assert HeldByAnother(t, 2, 7) by {
      assert 1 in t.challenges;
    }
    assert Outcomes(t, [Issue(2, 7, 60)]) == [Refused(500)] + Outcomes(t, []);
    var issue := [Issue(2, 7, 60)];
    assert [Cleanup(60), Issue(2, 7, 60)][1..] == issue;
    assert Cleaned(t, 60) == EMPTY;
    assert Outcomes(EMPTY, issue) == [Step(EMPTY, issue[0]).1] + Outcomes(Step(EMPTY, issue[0]).0, []);
  }
}
