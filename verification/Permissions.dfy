/** The role-permission cache in Redis and the database sets it stands for. */
module Permissions {
  import opened Options

  type RoleId = string
  type Permission = string
  type Time = int // seconds

  const PERMS_CACHE_TTL: int := 7200

  /** A Redis set is never empty; without an expiry it stays until deleted. */
  datatype Entry = Entry(perms: set<Permission>, expiresAt: Option<Time>)
  datatype State = State(db: map<RoleId, set<Permission>>, cache: map<RoleId, Entry>)

  /** Which Redis commands fail during one lookup. */
  datatype Faults = Faults(sismember: bool, exists_: bool, smembers: bool, sadd: bool, expire: bool)

  // ----- Specification -----

  /** findByRoleId: an unknown role has no permissions. */
  function InDatabase(s: State, role: RoleId): set<Permission> {
    if role in s.db then s.db[role] else {}
  }

  predicate Cached(s: State, role: RoleId, now: Time) {
    role in s.cache && (s.cache[role].expiresAt.Some? ==> now < s.cache[role].expiresAt.value)
  }

  /** sadd then expire; the set is written only when there is something to write. */
  function Fill(s: State, role: RoleId, perms: set<Permission>, now: Time, f: Faults): State {
    if perms == {} || f.sadd then s
    else
      var all := if Cached(s, role, now) then s.cache[role].perms + perms else perms;
      var kept := if Cached(s, role, now) then s.cache[role].expiresAt else None;
      s.(cache := s.cache[role := Entry(all, if f.expire then kept else Some(now + PERMS_CACHE_TTL))])
  }

  function Resolved(s: State, role: RoleId, now: Time, f: Faults): set<Permission> {
    if !f.smembers && Cached(s, role, now) then s.cache[role].perms else InDatabase(s, role)
  }

  function AfterResolve(s: State, role: RoleId, now: Time, f: Faults): State {
    if f.smembers || Cached(s, role, now) then s else Fill(s, role, InDatabase(s, role), now, f)
  }

  function Answer(s: State, role: RoleId, p: Permission, now: Time, f: Faults): bool {
    if f.sismember then p in InDatabase(s, role)
    else if Cached(s, role, now) && p in s.cache[role].perms then true
    else if f.exists_ then p in InDatabase(s, role)
    else if Cached(s, role, now) then false
    else p in Resolved(s, role, now, f)
  }

  /** The role's permissions are replaced, then its cache entry deleted unless that fails. */
  function Assign(s: State, role: RoleId, perms: set<Permission>, delFails: bool): State {
    if role !in s.db then s
    else
      var written := s.(db := s.db[role := perms]);
      if delFails then written else written.(cache := written.cache - {role})
  }

  // ----- When answers are right -----

  predicate NeverEmpty(s: State) {
    forall r | r in s.cache :: s.cache[r].perms != {}
  }

  predicate Coherent(s: State, role: RoleId, now: Time) {
    Cached(s, role, now) ==> s.cache[role].perms == InDatabase(s, role)
  }

  const HEALTHY := Faults(false, false, false, false, false)

  /** On a healthy Redis every answer about a role is right exactly when its cached set is the database's. */
  lemma RightExactlyWhenCoherent(s: State, role: RoleId, now: Time)
    ensures (forall p :: Answer(s, role, p, now, HEALTHY) <==> p in InDatabase(s, role)) <==> Coherent(s, role, now)
  {
    if (forall p :: Answer(s, role, p, now, HEALTHY) <==> p in InDatabase(s, role)) && Cached(s, role, now) {
      forall p
        ensures p in s.cache[role].perms <==> p in InDatabase(s, role)
      {
        assert Answer(s, role, p, now, HEALTHY) <==> p in InDatabase(s, role);
      }
    }
  }

  // ----- Runs -----

  datatype Event =
    | Lookup(role: RoleId, now: Time, f: Faults)
    | Reassign(role: RoleId, perms: set<Permission>, now: Time, delFails: bool)
    | NewRole(role: RoleId)
    | LateFill(role: RoleId, read: set<Permission>, now: Time, f: Faults) // a lookup that missed and read the database earlier

  function Step(s: State, e: Event): State {
    match e
    case Lookup(role, now, f) => AfterResolve(s, role, now, f)
    case Reassign(role, perms, _, delFails) => Assign(s, role, perms, delFails)
    case NewRole(role) => if role in s.db then s else s.(db := s.db[role := {}])
    case LateFill(role, read, now, f) => Fill(s, role, read, now, f)
  }

  function Run(es: seq<Event>): State {
    if es == [] then State(map[], map[]) else Step(Run(es[..|es| - 1]), es[|es| - 1])
  }

  function When(e: Event, clock: Time): Time {
    match e
    case Lookup(_, now, _) => now
    case Reassign(_, _, now, _) => now
    case NewRole(_) => clock
    case LateFill(_, _, now, _) => now
  }

  function Clock(es: seq<Event>): Time {
    if es == [] then 0 else When(es[|es| - 1], Clock(es[..|es| - 1]))
  }

  ghost predicate InOrder(es: seq<Event>) {
    es == [] || (InOrder(es[..|es| - 1]) && Clock(es[..|es| - 1]) <= When(es[|es| - 1], Clock(es[..|es| - 1])))
  }

  /** Operations one at a time, with every invalidation succeeding. */
  ghost predicate AlwaysInvalidates(es: seq<Event>) {
    forall e | e in es :: (e.Reassign? ==> !e.delFails) && !e.LateFill?
  }

  predicate Mirrors(s: State) {
    forall r | r in s.cache :: r in s.db && s.cache[r].perms == s.db[r]
  }

  lemma StepKeepsMirror(s: State, e: Event)
    requires Mirrors(s) && (e.Reassign? ==> !e.delFails) && !e.LateFill?
    ensures Mirrors(Step(s, e))
  {}

  lemma {:induction false} CacheMirrorsDatabase(es: seq<Event>)
    requires AlwaysInvalidates(es)
    ensures Mirrors(Run(es))
  {
    if es != [] {
      assert es[|es| - 1] in es;
      CacheMirrorsDatabase(es[..|es| - 1]);
      StepKeepsMirror(Run(es[..|es| - 1]), es[|es| - 1]);
    }
  }

  /** While every invalidation succeeds, every lookup is right, whichever Redis commands fail and whatever expires. */
  lemma LookupsAreRight(es: seq<Event>, role: RoleId, p: Permission, now: Time, f: Faults)
    requires AlwaysInvalidates(es)
    ensures Answer(Run(es), role, p, now, f) <==> p in InDatabase(Run(es), role)
    ensures Resolved(Run(es), role, now, f) == InDatabase(Run(es), role)
  {
    CacheMirrorsDatabase(es);
  }

  /**
   * What the cache is for: after a healthy lookup of a role with permissions, lookups answer from the
   * entry for two hours, whatever the database holds by then, and not from then on.
   */
  lemma LookupsAreCachedForTwoHours(s: State, role: RoleId, now: Time, later: Time, db: map<RoleId, set<Permission>>)
    requires InDatabase(s, role) != {} && !Cached(s, role, now) && now <= later
    ensures var filled := AfterResolve(s, role, now, HEALTHY).(db := db);
            && Resolved(filled, role, later, HEALTHY) == (if later < now + 7200 then InDatabase(s, role) else InDatabase(filled, role))
            && forall p :: Answer(filled, role, p, later, HEALTHY) <==> p in Resolved(filled, role, later, HEALTHY)
  {}

  // ----- When answers go wrong, exactly -----

  /**
   * The deletion failed while an entry was alive and the set really changed; or a late fill brings
   * something the database no longer holds, or less than it holds.
   */
  predicate Corrupts(s: State, role: RoleId, e: Event) {
    match e
    case Reassign(r, perms, now, delFails) =>
      r == role && role in s.db && delFails && Cached(s, role, now) && s.db[role] != perms
    case LateFill(r, read, now, f) =>
      && r == role && read != {} && !f.sadd
      && !(if Cached(s, role, now) then read <= InDatabase(s, role) else read == InDatabase(s, role))
    case _ => false
  }

  lemma StepKeepsCoherentExactly(s: State, role: RoleId, clock: Time, e: Event)
    requires Coherent(s, role, clock) && clock <= When(e, clock)
    ensures Coherent(Step(s, e), role, When(e, clock)) <==> !Corrupts(s, role, e)
  {
    match e
    case LateFill(r, read, now, f) =>
      if r == role && read != {} && !f.sadd && Cached(s, role, now) {
        assert s.cache[role].perms + read == InDatabase(s, role) <==> read <= InDatabase(s, role);
      }
    case _ =>
  }

  /** Every answer about the role, on a healthy Redis, agrees with the database. */
  ghost predicate AnswersRight(s: State, role: RoleId, now: Time) {
    forall p :: Answer(s, role, p, now, HEALTHY) <==> p in InDatabase(s, role)
  }

  ghost predicate NeverCorrupts(es: seq<Event>, role: RoleId) {
    forall i | 0 <= i < |es| :: !Corrupts(Run(es[..i]), role, es[i])
  }

  lemma RunUpTo(es: seq<Event>, i: nat)
    requires i < |es|
    ensures Run(es[..i + 1]) == Step(Run(es[..i]), es[i])
    ensures Clock(es[..i + 1]) == When(es[i], Clock(es[..i]))
  {
    assert es[..i + 1][..i] == es[..i];
  }

  lemma {:induction false} InOrderUpTo(es: seq<Event>, i: nat)
    requires InOrder(es) && i < |es|
    ensures Clock(es[..i]) <= When(es[i], Clock(es[..i]))
  {
    var n := |es| - 1;
    if i < n {
      InOrderUpTo(es[..n], i);
      assert es[..n][..i] == es[..i];
    }
  }

  lemma {:induction false} CoherentUpTo(es: seq<Event>, role: RoleId, j: nat)
    requires InOrder(es) && NeverCorrupts(es, role) && j <= |es|
    ensures Coherent(Run(es[..j]), role, Clock(es[..j]))
  {
    if j > 0 {
      CoherentUpTo(es, role, j - 1);
      InOrderUpTo(es, j - 1);
      RunUpTo(es, j - 1);
      StepKeepsCoherentExactly(Run(es[..j - 1]), role, Clock(es[..j - 1]), es[j - 1]);
    }
  }

  /**
   * In every run, with failed invalidations, late fills, expiries and Redis failures anywhere: answers
   * about a role are right throughout if and only if no event corrupts its entry.
   */
  lemma RightThroughoutExactly(es: seq<Event>, role: RoleId)
    requires InOrder(es)
    ensures (forall i | 0 <= i <= |es| :: AnswersRight(Run(es[..i]), role, Clock(es[..i]))) <==> NeverCorrupts(es, role)
  {
    if NeverCorrupts(es, role) {
      forall i | 0 <= i <= |es|
        ensures AnswersRight(Run(es[..i]), role, Clock(es[..i]))
      {
        CoherentUpTo(es, role, i);
        RightExactlyWhenCoherent(Run(es[..i]), role, Clock(es[..i]));
      }
    } else {
      var k :| 0 <= k < |es| && Corrupts(Run(es[..k]), role, es[k]);
      RightExactlyWhenCoherent(Run(es[..k]), role, Clock(es[..k]));
      RightExactlyWhenCoherent(Run(es[..k + 1]), role, Clock(es[..k + 1]));
      InOrderUpTo(es, k);
      RunUpTo(es, k);
      if AnswersRight(Run(es[..k]), role, Clock(es[..k])) {
        StepKeepsCoherentExactly(Run(es[..k]), role, Clock(es[..k]), es[k]);
        assert !AnswersRight(Run(es[..k + 1]), role, Clock(es[..k + 1]));
      }
    }
  }

  // ----- How long answers stay wrong -----

  /** The last instant something could have put the role's entry at odds with the database. */
  function LastDisturbed(es: seq<Event>, role: RoleId): Time {
    if es == [] then 0
    else
      var last := es[|es| - 1];
      if (last.Reassign? || last.LateFill?) && last.role == role then last.now
      else LastDisturbed(es[..|es| - 1], role)
  }

  ghost predicate AlwaysExpires(es: seq<Event>) {
    forall e | e in es :: e.Lookup? || e.LateFill? ==> !e.f.expire
  }

  /** Every entry expires in bounded time; one that differs from the database was filled before the last disturbance. */
  ghost predicate Bounded(s: State, es: seq<Event>) {
    forall r | r in s.cache ::
      && s.cache[r].expiresAt.Some?
      && s.cache[r].expiresAt.value <= Clock(es) + PERMS_CACHE_TTL
      && (s.cache[r].perms != InDatabase(s, r) ==> s.cache[r].expiresAt.value <= LastDisturbed(es, r) + PERMS_CACHE_TTL)
  }

  lemma {:induction false} StalenessIsBounded(es: seq<Event>)
    requires InOrder(es) && AlwaysExpires(es)
    ensures Bounded(Run(es), es)
  {
    if es != [] {
      assert es[|es| - 1] in es;
      StalenessIsBounded(es[..|es| - 1]);
    }
  }

  /** Whatever failed, answers are right again two hours after the role's last assignment or late fill. */
  lemma AnswersHeal(es: seq<Event>, role: RoleId, p: Permission, now: Time, f: Faults)
    requires InOrder(es) && AlwaysExpires(es)
    requires LastDisturbed(es, role) + PERMS_CACHE_TTL <= now
    ensures Answer(Run(es), role, p, now, f) <==> p in InDatabase(Run(es), role)
  {
    StalenessIsBounded(es);
  }

  /** Until then a revoked permission is still granted: the failed deletion is only logged. */
  lemma FailedInvalidationGrantsRevoked(role: RoleId, p: Permission, now: Time)
    requires 0 <= now < PERMS_CACHE_TTL
    ensures var es := [NewRole(role), Reassign(role, {p}, 0, false), Lookup(role, 0, HEALTHY), Reassign(role, {}, 0, true)];
            Answer(Run(es), role, p, now, HEALTHY) && p !in InDatabase(Run(es), role)
  {
    var es := [NewRole(role), Reassign(role, {p}, 0, false), Lookup(role, 0, HEALTHY), Reassign(role, {}, 0, true)];
    RunUpTo(es, 0);
    RunUpTo(es, 1);
    RunUpTo(es, 2);
    RunUpTo(es, 3);
    assert es[..0] == [] && es[..4] == es;
  }

  /**
   * A reader that missed the cache, read the database, and fills only after an assignment and its
   * successful invalidation brings the old permissions back.
   */
  lemma LateFillRestoresOld(s: State, role: RoleId, new_: set<Permission>, p: Permission, now: Time)
    requires role in s.db && p in s.db[role] && p !in new_
    ensures var read := s.db[role];
            var replaced := Assign(s, role, new_, false);
            var filled := Fill(replaced, role, read, now, HEALTHY);
            Answer(filled, role, p, now, HEALTHY) && p !in InDatabase(filled, role)
  {}

  // ----- The services -----

  class PermissionsService {
    var db: map<RoleId, set<Permission>>
    var cache: map<RoleId, Entry>

    ghost function Tables(): State
      reads this
    {
      State(db, cache)
    }

    constructor ()
      ensures Tables() == State(map[], map[])
    {
      db, cache := map[], map[];
    }

    method FindByRoleId(role: RoleId) returns (perms: set<Permission>)
      ensures perms == InDatabase(Tables(), role)
    {
      perms := if role in db then db[role] else {};
    }

    method GetPermissionsByRoleId(role: RoleId, now: Time, f: Faults) returns (perms: set<Permission>)
      requires NeverEmpty(Tables())
      modifies `cache
      ensures perms == Resolved(old(Tables()), role, now, f)
      ensures Tables() == AfterResolve(old(Tables()), role, now, f)
      ensures old(Coherent(Tables(), role, now)) ==> perms == InDatabase(Tables(), role) && Coherent(Tables(), role, now)
      ensures NeverEmpty(Tables())
    {
      if f.smembers {
        perms := FindByRoleId(role);
        return;
      }
      var hit := role in cache && (cache[role].expiresAt.Some? ==> now < cache[role].expiresAt.value);
      var cached := if hit then cache[role].perms else {};
      if cached != {} {
        return cached;
      }
      perms := FindByRoleId(role);
      if perms != {} {
        if !f.sadd {
          cache := cache[role := Entry(perms, None)];
          if !f.expire {
            cache := cache[role := cache[role].(expiresAt := Some(now + PERMS_CACHE_TTL))];
          }
        }
      }
    }

    method HasPermission(role: RoleId, p: Permission, now: Time, f: Faults) returns (granted: bool)
      requires NeverEmpty(Tables())
      modifies `cache
      ensures granted == Answer(old(Tables()), role, p, now, f)
      ensures old(Coherent(Tables(), role, now)) ==> granted == (p in InDatabase(Tables(), role))
      ensures NeverEmpty(Tables())
    {
      if f.sismember {
        var perms := FindByRoleId(role);
        return p in perms;
      }
      var hit := role in cache && (cache[role].expiresAt.Some? ==> now < cache[role].expiresAt.value);
      if hit && p in cache[role].perms {
        return true;
      }
      if f.exists_ {
        var perms := FindByRoleId(role);
        return p in perms;
      }
      if !hit {
        var perms := GetPermissionsByRoleId(role, now, f);
        return p in perms;
      }
      granted := false;
    }

    /** assignPermissions: write the database, then clear the cache; a failure to clear is swallowed. */
    method AssignPermissions(role: RoleId, perms: set<Permission>, writeFails: bool, delFails: bool) returns (ok: bool)
      modifies this
      ensures ok <==> role in old(db) && !writeFails
      ensures Tables() == if ok then Assign(old(Tables()), role, perms, delFails) else old(Tables())
      ensures ok ==> db == old(db)[role := perms] && cache == if delFails then old(cache) else old(cache) - {role}
      ensures !ok ==> db == old(db) && cache == old(cache)
      ensures ok && !delFails ==> forall now :: Coherent(Tables(), role, now)
    {
      if role !in db || writeFails {
        return false;
      }
      db := db[role := perms];
      ClearRoleCache(role, delFails);
      ok := true;
    }

    method ClearRoleCache(role: RoleId, delFails: bool)
      modifies `cache
      ensures cache == if delFails then old(cache) else old(cache) - {role}
    {
      if !delFails {
        cache := cache - {role};
      }
    }
  }
}
