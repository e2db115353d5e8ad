/**
 The record layer: users, sessions, session expiry and refresh, and the
 group-subset permission rule shared by both record types.

 Time is an integer count of microseconds (the resolution of Python's
 `datetime`); the wall clock is never read here, callers pass `now`.
 */
module Models {
  import opened Wrappers

  /** Minutes a session stays valid after it is issued or refreshed. */
  const SessionsExpireMin: int := 1
  const MicrosecondsPerMinute: int := 60_000_000
  /** `timedelta(minutes=SessionsExpireMin)` on the integer clock. */
  const SessionTtl: int := SessionsExpireMin * MicrosecondsPerMinute

  /** A `List[str] = None` field: `None` when the group list was never given. */
  type Groups = Option<seq<string>>

  datatype User = User(username: string, password: string, groups: Groups)

  datatype Session = Session(username: string, groups: Groups, expires: int)

  /** What the permission rule does: answer yes, answer no, or raise `TypeError`. */
  datatype Verdict = Allowed | NotAllowed | TypeFault

  /** The distinct names in a group list, as Python's `set(...)` collects them. */
  function Members(gs: seq<string>): set<string> {
    set g | g in gs
  }

  /** Set inclusion of the collected names is element-wise containment. */
  lemma MembersSubset(a: seq<string>, b: seq<string>)
    ensures Members(a) <= Members(b) <==> forall g :: g in a ==> g in b
  {
    if Members(a) <= Members(b) {
      forall g | g in a ensures g in b {
        assert g in Members(a);
      }
    }
  }

  /** A present group list contains every required group. */
  predicate Holds(required: seq<string>, held: Groups) {
    held.Some? && Members(required) <= Members(held.value)
  }

  /**
   `_sufficient_permissions`: no requirement always passes; otherwise every
   required group must be held. Testing a subset against a missing (`None`)
   group list raises `TypeError`, even for an empty requirement.
   */
  function SufficientPermissions(required: Groups, held: Groups): (v: Verdict)
    ensures v == Allowed <==> required.None? || Holds(required.value, held)
    ensures v == TypeFault <==> required.Some? && held.None?
  {
    if required.None? then Allowed
    else if held.None? then TypeFault
    else
      MembersSubset(required.value, held.value);
      if forall g :: g in required.value ==> g in held.value then Allowed
      else NotAllowed
  }

  /** `User.sufficient_permissions`: the shared rule over the user's own groups. */
  function UserPermissions(u: User, required: Groups): Verdict {
    SufficientPermissions(required, u.groups)
  }

  /** `Session.sufficient_permissions`: the shared rule over the session's own groups. */
  function SessionPermissions(s: Session, required: Groups): Verdict {
    SufficientPermissions(required, s.groups)
  }

  /** `User.is_valid`: the stored password equals the one presented. */
  predicate PasswordMatches(u: User, password: string) {
    u.password == password
  }

  /** `Session.is_valid`: a session is expired only once `expires < now`. */
  predicate SessionIsValid(s: Session, now: int) {
    !(s.expires < now)
  }

  /**
   The class-level default of `Session.expires`: computed once, when the
   models module is imported at `importedAt`, and shared by every session
   built without an explicit expiry.
   */
  function DefaultExpires(importedAt: int): int {
    importedAt + SessionTtl
  }

  /** `Session(username=..., groups=...)` with the class-level default expiry. */
  function NewSession(username: string, groups: Groups, importedAt: int): (s: Session)
    ensures s.username == username && s.groups == groups
    ensures SessionIsValid(s, importedAt + SessionTtl) && !SessionIsValid(s, importedAt + SessionTtl + 1)
  {
    Session(username, groups, DefaultExpires(importedAt))
  }

  /**
   `Session.refresh`: the session is valid through exactly one TTL from `now`,
   and keeps its username and groups.
   */
  function Refresh(s: Session, now: int): (r: Session)
    ensures r.username == s.username && r.groups == s.groups
    ensures forall t :: SessionIsValid(r, t) <==> t <= now + SessionTtl
  {
    s.(expires := now + SessionTtl)
  }

  /** `User.is_valid` holds exactly for the stored password. */
  lemma PasswordCheckIsEquality(u: User, p: string)
    ensures PasswordMatches(u, p) <==> p == u.password
    ensures PasswordMatches(u, u.password)
  {
  }

  /** Expiry is strict: a session whose `expires` equals `now` is still valid. */
  lemma ExpiryIsStrict(s: Session, now: int)
    ensures !SessionIsValid(s, now) <==> s.expires < now
    ensures s.expires == now ==> SessionIsValid(s, now)
    ensures SessionIsValid(s, now) ==> forall t :: t <= now ==> SessionIsValid(s, t)
  {
  }

  /** With no requirement, any held group list, even a missing one, passes. */
  lemma NoRequirementAlwaysPasses(held: Groups)
    ensures SufficientPermissions(None, held) == Allowed
  {
  }

  /** With a requirement and a present group list, the rule is set inclusion. */
  lemma RequirementIsSubset(required: seq<string>, held: seq<string>)
    ensures SufficientPermissions(Some(required), Some(held)) == Allowed <==>
      forall g :: g in required ==> g in held
    ensures SufficientPermissions(Some(required), Some(held)) != TypeFault
  {
  }

  /**
   Monotonicity: holding more groups, or requiring fewer (down to no
   requirement at all), never turns an allowed check into a refused one.
   */
  lemma PermissionsMonotonic(required: Groups, required': Groups, held: seq<string>, held': seq<string>)
    requires SufficientPermissions(required, Some(held)) == Allowed
    requires Members(held) <= Members(held')
    requires required'.Some? ==> required.Some? && Members(required'.value) <= Members(required.value)
    ensures SufficientPermissions(required', Some(held')) == Allowed
  {
  }

  /** Users and sessions apply the one rule to their own group lists. */
  lemma SameRuleForUsersAndSessions(u: User, s: Session, required: Groups)
    requires u.groups == s.groups
    ensures UserPermissions(u, required) == SessionPermissions(s, required)
  {
  }

  /**
   Every session built without an explicit expiry gets the same instant,
   fixed at import time: two sessions issued for different users at any
   times share it.
   */
  lemma DefaultExpiryIsShared(importedAt: int, a: string, ga: Groups, b: string, gb: Groups)
    ensures NewSession(a, ga, importedAt).expires == NewSession(b, gb, importedAt).expires == importedAt + SessionTtl
  {
  }
}
