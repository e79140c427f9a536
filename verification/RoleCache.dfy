/**
 * The gateway's confirmed-role cache and the authorization it feeds (gateway/src/lib.rs,
 * gateway/src/auth.rs): an Operator claim is honoured only while the auth database agrees.
 */
module RoleCache {
  import opened Common

  // ---------------------------------------------------------------------------
  // Request policy
  // ---------------------------------------------------------------------------

  datatype Role = Operator | User

  /** The verified JWT claims; `sub` is none when it does not parse as a user id. */
  datatype Claims = Claims(sub: Option<UserId>, role: Role)

  type UserId = nat

  const OPERATOR_ONLY_METHODS: set<string> :=
    {"getBlock", "getTransaction", "simulateTransaction", "getSignatureStatusSnapshot", "getAddressIndexSlot"}

  const ACCOUNT_GATED_METHODS: set<string> := {"getAccountInfo", "getTokenAccountBalance", "getSignaturesForAddress"}

  const ERROR_BEARING_METHODS: set<string> := {"getSignaturesForAddress", "getSignatureStatuses"}

  predicate IsGated(rpc: string) {
    rpc in OPERATOR_ONLY_METHODS || rpc in ACCOUNT_GATED_METHODS
  }

  /** Only an Operator keeps raw transaction errors. */
  predicate RedactsErrors(claims: Option<Claims>, rpc: string) {
    rpc in ERROR_BEARING_METHODS && !(claims.Some? && claims.value.role.Operator?)
  }

  datatype Decision =
    | Proceed(redact: bool)
    | Reject(status: int)
    | NeedsAccountFetch(user: UserId, pubkey: string, redact: bool)

  /** `check_request_auth`, given claims whose role is the effective one. */
  function CheckRequestAuth(claims: Option<Claims>, rpc: string, pubkey: Option<string>): Decision {
    var redact := RedactsErrors(claims, rpc);
    if !IsGated(rpc) then Proceed(redact)
    else if claims.None? then Reject(401)
    else if rpc in OPERATOR_ONLY_METHODS && !claims.value.role.Operator? then Reject(403)
    else if claims.value.role.Operator? then Proceed(redact)
    else if pubkey.None? then Reject(400)
    else if claims.value.sub.None? then Reject(401)
    else NeedsAccountFetch(claims.value.sub.value, pubkey.value, redact)
  }

  /** What the role lookup for an Operator claim returned. */
  datatype Confirmation = Confirmed(isOperator: bool) | Unreachable

  /** The claims `enforce_auth` decides on: an Operator claim survives only a positive confirmation. */
  function Effective(claims: Option<Claims>, confirmation: Confirmation): Option<Claims> {
    if claims.None? || claims.value.role.User? then claims
    else if claims.value.sub.Some? && confirmation == Confirmed(true) then claims
    else Some(claims.value.(role := User))
  }

  /** `enforce_auth` up to the account fetch. With auth off every request passes unredacted. */
  function EnforceAuth(
    authOn: bool, claims: Option<Claims>, confirmation: Confirmation, rpc: string, pubkey: Option<string>): Decision
  {
    if !authOn then Proceed(false)
    else
      var effective := Effective(claims, confirmation);
      var roleCheckFailed := claims.Some? && claims.value.role.Operator? && claims.value.sub.Some?
        && confirmation.Unreachable?;
      if IsGated(rpc) && roleCheckFailed then Reject(500)
      else CheckRequestAuth(effective, rpc, pubkey)
  }

  /** No operator access and no raw errors: what anyone but a confirmed operator gets. */
  predicate Unprivileged(d: Decision, rpc: string) {
    && (rpc in OPERATOR_ONLY_METHODS ==> d.Reject?)
    && (IsGated(rpc) ==> !d.Proceed?)
    && (rpc in ERROR_BEARING_METHODS && !d.Reject? ==> d.redact)
  }

  /** With auth on, privilege takes an Operator claim and a confirmation, and nothing less or more. */
  lemma {:induction false} PrivilegeIffConfirmedOperator(
    claims: Option<Claims>, confirmation: Confirmation, rpc: string, pubkey: Option<string>)
    requires IsGated(rpc) || rpc in ERROR_BEARING_METHODS
    ensures !Unprivileged(EnforceAuth(true, claims, confirmation, rpc, pubkey), rpc)
            <==> && claims.Some? && claims.value.role.Operator? && claims.value.sub.Some?
                 && confirmation == Confirmed(true)
  {
  }

  /** With auth off everything passes, and nothing is redacted. */
  lemma {:induction false} AuthOffPasses(
    claims: Option<Claims>, confirmation: Confirmation, rpc: string, pubkey: Option<string>)
    ensures EnforceAuth(false, claims, confirmation, rpc, pubkey) == Proceed(false)
  {
  }

  /** A public method passes for anyone, whatever the claims and the confirmation. */
  lemma {:induction false} PublicMethodsPass(
    claims: Option<Claims>, confirmation: Confirmation, rpc: string, pubkey: Option<string>)
    requires !IsGated(rpc)
    ensures EnforceAuth(true, claims, confirmation, rpc, pubkey).Proceed?
  {
  }

  /** An operator the database confirms passes every method, raw errors and all. */
  lemma {:induction false} ConfirmedOperatorPasses(user: UserId, rpc: string, pubkey: Option<string>)
    ensures EnforceAuth(true, Some(Claims(Some(user), Operator)), Confirmed(true), rpc, pubkey) == Proceed(false)
  {
  }

  /** A claim that counts as a User's: one that is, or an Operator's the database does not bear out. */
  predicate CountsAsUser(claims: Claims, confirmation: Confirmation) {
    claims.role.User? || claims.sub.None? || confirmation == Confirmed(false)
  }

  /**
   * What a gated call comes to for everyone else: a User is asked about on the account they named, for
   * themselves; and each reason to refuse has its own status.
   */
  lemma {:induction false} GatedCallByCaller(
    claims: Option<Claims>, confirmation: Confirmation, rpc: string, pubkey: Option<string>)
    requires IsGated(rpc)
    ensures var d := EnforceAuth(true, claims, confirmation, rpc, pubkey);
            && (claims.None? ==> d == Reject(401))
            && (claims.Some? && !CountsAsUser(claims.value, confirmation) && confirmation.Unreachable?
                ==> d == Reject(500))
            && (claims.Some? && CountsAsUser(claims.value, confirmation) ==>
                  d == if rpc in OPERATOR_ONLY_METHODS then Reject(403)
                       else if pubkey.None? then Reject(400)
                       else if claims.value.sub.None? then Reject(401)
                       else NeedsAccountFetch(claims.value.sub.value, pubkey.value, rpc in ERROR_BEARING_METHODS))
  {
  }

  // ---------------------------------------------------------------------------
  // The cache
  // ---------------------------------------------------------------------------

  /** Milliseconds. */
  type Time = nat

  const ROLE_CACHE_TTL: nat := 30_000

  datatype CachedRole = CachedRole(isOperator: bool, checkedAt: Time)

  type Cache = map<UserId, CachedRole>

  predicate Fresh(e: CachedRole, now: Time) {
    now < e.checkedAt + ROLE_CACHE_TTL
  }

  function Cached(cache: Cache, user: UserId, now: Time): Option<bool> {
    if user in cache && Fresh(cache[user], now) then Some(cache[user].isOperator) else None
  }

  /** Evict expired entries, then insert whatever this lookup found, newer or older. */
  function Stored(cache: Cache, now: Time, user: UserId, e: CachedRole): Cache {
    (map u | u in cache && Fresh(cache[u], now) :: cache[u])[user := e]
  }

  /** The shared map `confirm_operator` takes its lock on, before and after its query. */
  class RoleMap {
    var roles: Cache

    constructor ()
      ensures roles == map[]
    {
      roles := map[];
    }

    method Lookup(user: UserId, now: Time) returns (found: Option<bool>)
      ensures found == Cached(roles, user, now)
    {
      found := None;
      if user in roles && Fresh(roles[user], now) {
        found := Some(roles[user].isOperator);
      }
    }

    method Store(now: Time, user: UserId, isOperator: bool, checkedAt: Time)
      modifies this
      ensures roles == Stored(old(roles), now, user, CachedRole(isOperator, checkedAt))
    {
      roles := map u | u in roles && Fresh(roles[u], now) :: roles[u];
      roles := roles[user := CachedRole(isOperator, checkedAt)];
    }
  }

  /** What was stored is found for thirty seconds from its check, and so is what else the map held. */
  lemma {:induction false} StoredIsFound(
    cache: Cache, now: Time, user: UserId, e: CachedRole, who: UserId, later: Time)
    requires now <= later
    ensures Cached(Stored(cache, now, user, e), who, later) ==
              if who == user then if later < e.checkedAt + 30_000 then Some(e.isOperator) else None
              else if who in cache && later < cache[who].checkedAt + 30_000 then Some(cache[who].isOperator)
              else None
  {
  }

  // ---------------------------------------------------------------------------
  // Every interleaving of racing lookups
  // ---------------------------------------------------------------------------

  /** Whether the auth database holds the user as an operator, at each instant. */
  type Roles = (Time, UserId) -> bool

  datatype Lookup = Lookup(user: UserId, checkedAt: Time)

  /** The outcome of one `confirm_operator` call and when the call was made. */
  datatype Outcome = Outcome(user: UserId, askedAt: Time, confirmation: Confirmation)

  datatype State = State(now: Time, cache: Cache, pending: map<nat, Lookup>, outcomes: seq<Outcome>)

  datatype Event =
    | Tick(later: Time)
    | Ask(id: nat, user: UserId)
    | Answer(id: nat, instant: Time)
    | Error(id: nat)

  predicate Enabled(s: State, ev: Event) {
    match ev
    case Tick(later) => s.now <= later
    case Ask(id, user) => id !in s.pending
    case Answer(id, instant) => id in s.pending && s.pending[id].checkedAt <= instant <= s.now
    case Error(id) => id in s.pending
  }

  function Step(roles: Roles, s: State, ev: Event): State
    requires Enabled(s, ev)
  {
    match ev
    case Tick(later) => s.(now := later)
    case Ask(id, user) =>
      var hit := Cached(s.cache, user, s.now);
      if hit.Some? then s.(outcomes := s.outcomes + [Outcome(user, s.now, Confirmed(hit.value))])
      else s.(pending := s.pending[id := Lookup(user, s.now)])
    case Answer(id, instant) =>
      var q := s.pending[id];
      var isOperator := roles(instant, q.user);
      s.(pending := s.pending - {id},
         cache := Stored(s.cache, s.now, q.user, CachedRole(isOperator, q.checkedAt)),
         outcomes := s.outcomes + [Outcome(q.user, q.checkedAt, Confirmed(isOperator))])
    case Error(id) =>
      s.(pending := s.pending - {id},
         outcomes := s.outcomes + [Outcome(s.pending[id].user, s.pending[id].checkedAt, Unreachable)])
  }

  datatype Run = Begin(now: Time) | More(run: Run, ev: Event)

  ghost predicate ValidRun(roles: Roles, r: Run)
    decreases r, 0
  {
    match r
    case Begin(_) => true
    case More(before, ev) => ValidRun(roles, before) && Enabled(After(roles, before), ev)
  }

  ghost function After(roles: Roles, r: Run): State
    requires ValidRun(roles, r)
    decreases r, 1
  {
    match r
    case Begin(now) => State(now, map[], map[], [])
    case More(before, ev) => Step(roles, After(roles, before), ev)
  }

  /** The cached role was the user's at some instant since its stamp. */
  ghost predicate Truthful(roles: Roles, user: UserId, e: CachedRole, now: Time) {
    exists u: Time :: e.checkedAt <= u <= now && roles(u, user) == e.isOperator
  }

  /** A confirmation reflects the database at an instant less than one TTL before it was asked for. */
  ghost predicate Grounded(roles: Roles, o: Outcome) {
    o.confirmation.Confirmed? ==>
      exists u: Time :: o.askedAt < u + ROLE_CACHE_TTL && roles(u, o.user) == o.confirmation.isOperator
  }

  ghost predicate Inv(roles: Roles, s: State) {
    && (forall u :: u in s.cache ==> Truthful(roles, u, s.cache[u], s.now))
    && (forall o :: o in s.outcomes ==> Grounded(roles, o))
  }

  lemma {:induction false} StepKeepsInv(roles: Roles, s: State, ev: Event)
    requires Inv(roles, s) && Enabled(s, ev)
    ensures Inv(roles, Step(roles, s, ev))
  {
    match ev
    case Tick(later) =>
      forall u | u in s.cache ensures Truthful(roles, u, s.cache[u], later) {
        assert Truthful(roles, u, s.cache[u], s.now);
      }
    case Ask(id, user) =>
      if Cached(s.cache, user, s.now).Some? {
        assert Truthful(roles, user, s.cache[user], s.now);
        var u: Time :| s.cache[user].checkedAt <= u <= s.now && roles(u, user) == s.cache[user].isOperator;
        assert s.now < u + ROLE_CACHE_TTL;
      }
    case Answer(id, instant) =>
      var q := s.pending[id];
      assert roles(instant, q.user) == CachedRole(roles(instant, q.user), q.checkedAt).isOperator;
      assert q.checkedAt < instant + ROLE_CACHE_TTL;
    case Error(id) =>
  }

  lemma {:induction false} EveryRunIsGrounded(roles: Roles, r: Run)
    requires ValidRun(roles, r)
    ensures Inv(roles, After(roles, r))
  {
    match r
    case Begin(now) =>
    case More(before, ev) =>
      EveryRunIsGrounded(roles, before);
      StepKeepsInv(roles, After(roles, before), ev);
  }

  /**
   * Revocation is bounded: over every interleaving, in which older lookups may overwrite newer
   * ones, a user the database no longer holds as operator from instant `d` on gets neither
   * operator access nor raw errors on any call asked for at or after `d` plus the TTL.
   */
  lemma {:induction false} RevocationIsBounded(
    roles: Roles, r: Run, user: UserId, d: Time, o: Outcome, rpc: string, pubkey: Option<string>)
    requires ValidRun(roles, r)
    requires forall t: Time :: d <= t ==> !roles(t, user)
    requires o in After(roles, r).outcomes && o.user == user && d + ROLE_CACHE_TTL <= o.askedAt
    ensures o.confirmation != Confirmed(true)
    ensures Unprivileged(EnforceAuth(true, Some(Claims(Some(user), Operator)), o.confirmation, rpc, pubkey), rpc)
  {
    EveryRunIsGrounded(roles, r);
    assert Grounded(roles, o);
  }

  /** The bound is reached: demoted at 1, a user confirmed at 0 is still one a TTL less a millisecond later. */
  lemma {:induction false} RevocationBoundIsReached(user: UserId)
    ensures var roles: Roles := (t, u) => t < 1;
            var r := More(More(More(More(Begin(0), Ask(0, user)), Answer(0, 0)), Tick(ROLE_CACHE_TTL - 1)),
              Ask(1, user));
            && ValidRun(roles, r)
            && (forall t: Time :: 1 <= t ==> !roles(t, user))
            && Outcome(user, ROLE_CACHE_TTL - 1, Confirmed(true)) in After(roles, r).outcomes
  {
    var roles: Roles := (t, u) => t < 1;
    var r1 := More(Begin(0), Ask(0, user));
    var r2 := More(r1, Answer(0, 0));
    var r3 := More(r2, Tick(ROLE_CACHE_TTL - 1));
    assert After(roles, Begin(0)) == State(0, map[], map[], []);
    assert ValidRun(roles, r1);
    assert After(roles, r1) == State(0, map[], map[0 := Lookup(user, 0)], []);
    assert ValidRun(roles, r2);
    assert After(roles, r2) == State(0, map[user := CachedRole(true, 0)], map[], [Outcome(user, 0, Confirmed(true))]);
    assert ValidRun(roles, r3);
    assert After(roles, r3).cache == map[user := CachedRole(true, 0)];
  }
}
