/**
 `SimpleAuth`: the in-process auth service over two module-level stores,
 `users` (username to user) and `sessions` (token to session).

 Each call is a pure function from the stores it reads to an outcome and the
 new session store. The token `Session.create_id()` would generate is passed
 in as `newToken`; the source does not guard against a collision, so neither
 do these functions, and the lemmas that need an unused token say so.
 */
module SimpleAuth {
  import opened Wrappers
  import opened Models
  import opened Outcomes

  type Users = map<string, User>
  type Sessions = map<string, Session>

  /** The outcome of one call and the session store it leaves behind. */
  datatype Reply = Reply(outcome: Outcome, sessions: Sessions)

  /**
   The login sequence of `get_auth`, for a session expiring at `expires`:
   look the user up, check the password, check `groupsNeeded`, then store a
   session with the user's groups under `newToken`.
   */
  function Login(users: Users, sessions: Sessions, groupsNeeded: Groups,
                 username: string, password: string, newToken: string, expires: int): (r: Reply)
    ensures username !in users ==> r == Reply(AuthFailed, sessions)
    ensures username in users && users[username].password != password ==> r == Reply(AuthFailed, sessions)
    ensures r.outcome == AuthFailed <==> username !in users || users[username].password != password
    ensures r.outcome == Permissions <==>
      && username in users && users[username].password == password
      && groupsNeeded.Some? && users[username].groups.Some? && !Holds(groupsNeeded.value, users[username].groups)
    ensures r.outcome == Fault <==>
      && username in users && users[username].password == password
      && groupsNeeded.Some? && users[username].groups.None?
    ensures r.outcome.Ok? <==>
      && username in users && users[username].password == password
      && (groupsNeeded.None? || Holds(groupsNeeded.value, users[username].groups))
    ensures r.outcome != AuthExpired
    ensures !r.outcome.Ok? ==> r.sessions == sessions
    ensures r.outcome.Ok? ==>
      && r.outcome.token == newToken
      && r.sessions.Keys == sessions.Keys + {newToken}
      && r.sessions[newToken] == Session(username, users[username].groups, expires)
      && (forall t :: t in sessions && t != newToken ==> r.sessions[t] == sessions[t])
    ensures r.outcome.Ok? && newToken !in sessions ==> |r.sessions| == |sessions| + 1
  {
    if username !in users then Reply(AuthFailed, sessions)
    else
      var user := users[username];
      if !PasswordMatches(user, password) then Reply(AuthFailed, sessions)
      else match UserPermissions(user, groupsNeeded)
        case NotAllowed => Reply(Permissions, sessions)
        case TypeFault => Reply(Fault, sessions)
        case Allowed => Reply(Ok(newToken), sessions[newToken := Session(username, user.groups, expires)])
  }

  /**
   `get_auth` as written: the new session is built without an explicit
   expiry, so it takes the class-level default fixed when the models module
   was imported at `importedAt`. Login reads no clock at all.
   */
  function GetAuth(users: Users, sessions: Sessions, importedAt: int, groupsNeeded: Groups,
                   username: string, password: string, newToken: string): (r: Reply)
    ensures r.outcome.Ok? ==>
      && username in users && newToken in r.sessions
      && r.sessions[newToken] == NewSession(username, users[username].groups, importedAt)
      && r.sessions[newToken].expires == importedAt + SessionTtl
  {
    Login(users, sessions, groupsNeeded, username, password, newToken, DefaultExpires(importedAt))
  }

  /**
   Re-validation of a token against `required` groups: the token must name a
   session that has not expired and whose groups pass the permission rule. On
   success the session is refreshed, stored under `newToken`, and the
   presented token is removed, in that order. Failures leave the store as it
   was: expired sessions are not evicted.
   */
  function Validate(sessions: Sessions, now: int, required: Groups, token: string, newToken: string): (r: Reply)
    ensures token !in sessions ==> r == Reply(AuthExpired, sessions)
    ensures token in sessions && sessions[token].expires < now ==> r == Reply(AuthExpired, sessions)
    ensures r.outcome == AuthExpired <==> token !in sessions || sessions[token].expires < now
    ensures r.outcome == Permissions <==>
      && token in sessions && now <= sessions[token].expires
      && required.Some? && sessions[token].groups.Some? && !Holds(required.value, sessions[token].groups)
    ensures r.outcome == Fault <==>
      && token in sessions && now <= sessions[token].expires
      && required.Some? && sessions[token].groups.None?
    ensures r.outcome.Ok? <==>
      && token in sessions && now <= sessions[token].expires
      && (required.None? || Holds(required.value, sessions[token].groups))
    ensures r.outcome != AuthFailed
    ensures !r.outcome.Ok? ==> r.sessions == sessions
    ensures r.outcome.Ok? ==> r.outcome.token == newToken && token !in r.sessions
    ensures r.outcome.Ok? && newToken != token ==>
      && r.sessions.Keys == sessions.Keys - {token} + {newToken}
      && r.sessions[newToken].username == sessions[token].username
      && r.sessions[newToken].groups == sessions[token].groups
      && r.sessions[newToken].expires == now + SessionTtl
      && (forall t :: t in sessions && t != token && t != newToken ==> r.sessions[t] == sessions[t])
    ensures r.outcome.Ok? && newToken !in sessions ==> |r.sessions| == |sessions|
    ensures r.outcome.Ok? && newToken == token ==>
      && r.sessions.Keys == sessions.Keys - {token}
      && (forall t :: t in r.sessions ==> r.sessions[t] == sessions[t])
  {
    if token !in sessions then Reply(AuthExpired, sessions)
    else
      var session := sessions[token];
      if !SessionIsValid(session, now) then Reply(AuthExpired, sessions)
      else match SessionPermissions(session, required)
        case NotAllowed => Reply(Permissions, sessions)
        case TypeFault => Reply(Fault, sessions)
        case Allowed => Reply(Ok(newToken), sessions[newToken := Refresh(session, now)] - {token})
  }

  /**
   `check_auth` as written: re-validation with no required groups, since
   `sufficient_permissions()` is called without an argument. It can only
   succeed or report the token expired.
   */
  function CheckAuth(sessions: Sessions, now: int, token: string, newToken: string): (r: Reply)
    ensures r.outcome.Ok? <==> token in sessions && now <= sessions[token].expires
    ensures r.outcome.Ok? || r.outcome == AuthExpired
  {
    Validate(sessions, now, None, token, newToken)
  }

  /** Who a session speaks for: its username and its groups. */
  type Identity = (string, Groups)

  function IdentityOf(s: Session): Identity {
    (s.username, s.groups)
  }

  /** The identities a login can issue: each user's name with that user's groups. */
  function UserIdentities(users: Users): set<Identity> {
    set u | u in users :: (u, users[u].groups)
  }

  /** The identities carried by the sessions of a store. */
  function StoredIdentities(sessions: Sessions): set<Identity> {
    set s | s in sessions.Values :: IdentityOf(s)
  }

  /**
   The snapshot invariant, relative to a set of admissible identities: every
   stored session carries one of them. For a running process the admissible
   identities are the users' own and those of the sessions it started with,
   which need not belong to any user.
   */
  predicate Coherent(origins: set<Identity>, sessions: Sessions) {
    forall s :: s in sessions.Values ==> IdentityOf(s) in origins
  }

  /** Every store is coherent relative to the users' identities and its own. */
  lemma InitialStoreIsCoherent(users: Users, sessions: Sessions)
    ensures Coherent(UserIdentities(users) + StoredIdentities(sessions), sessions)
  {
  }

  /** Logging in only adds a snapshot of a user's groups. */
  lemma GetAuthPreservesCoherence(origins: set<Identity>, users: Users, sessions: Sessions, importedAt: int,
                                  groupsNeeded: Groups, username: string, password: string, newToken: string)
    requires UserIdentities(users) <= origins
    requires Coherent(origins, sessions)
    ensures Coherent(origins, GetAuth(users, sessions, importedAt, groupsNeeded, username, password, newToken).sessions)
  {
  }

  /** Re-validating copies the presented session's identity into the new entry. */
  lemma CheckAuthPreservesCoherence(origins: set<Identity>, sessions: Sessions, now: int, token: string, newToken: string)
    requires Coherent(origins, sessions)
    ensures Coherent(origins, CheckAuth(sessions, now, token, newToken).sessions)
  {
    var r := CheckAuth(sessions, now, token, newToken);
    forall s | s in r.sessions.Values
      ensures IdentityOf(s) in origins
    {
      var t :| t in r.sessions && r.sessions[t] == s;
      if r.outcome.Ok? && t == newToken && newToken != token {
        assert sessions[token] in sessions.Values;
      } else {
        assert sessions[t] in sessions.Values;
      }
    }
  }

  /**
   An unknown user and a wrong password are indistinguishable to the caller:
   the same outcome and the same, untouched, store.
   */
  lemma WrongPasswordLooksLikeUnknownUser(users: Users, sessions: Sessions, importedAt: int, groupsNeeded: Groups,
                                          username: string, password: string, stranger: string, guess: string,
                                          newToken: string)
    requires username in users && users[username].password != password
    requires stranger !in users
    ensures GetAuth(users, sessions, importedAt, groupsNeeded, username, password, newToken)
         == GetAuth(users, sessions, importedAt, groupsNeeded, stranger, guess, newToken)
         == Reply(AuthFailed, sessions)
  {
  }

  /**
   A just-issued token passes `check_auth` exactly while the class-level
   default expiry has not passed.
   */
  lemma IssuedTokenPassesUntilDefaultExpiry(users: Users, sessions: Sessions, importedAt: int, groupsNeeded: Groups,
                                            username: string, password: string, newToken: string,
                                            now: int, next: string)
    requires GetAuth(users, sessions, importedAt, groupsNeeded, username, password, newToken).outcome.Ok?
    ensures var issued := GetAuth(users, sessions, importedAt, groupsNeeded, username, password, newToken).sessions;
      CheckAuth(issued, now, newToken, next).outcome.Ok? <==> now <= importedAt + SessionTtl
  {
  }

  /**
   Rotation retires the presented token: once `check_auth(token)` succeeded,
   any later `check_auth(token)` reports it expired.
   */
  lemma RotationRetiresOldToken(sessions: Sessions, now: int, token: string, newToken: string,
                                later: int, another: string)
    requires CheckAuth(sessions, now, token, newToken).outcome.Ok?
    ensures var rotated := CheckAuth(sessions, now, token, newToken).sessions;
      CheckAuth(rotated, later, token, another) == Reply(AuthExpired, rotated)
  {
  }

  /**
   The rotated token is good for exactly one TTL from the moment of
   rotation, whatever the old session's expiry was.
   */
  lemma RotatedTokenLastsOneTtl(sessions: Sessions, now: int, token: string, newToken: string,
                                later: int, another: string)
    requires newToken != token
    requires CheckAuth(sessions, now, token, newToken).outcome.Ok?
    ensures var rotated := CheckAuth(sessions, now, token, newToken).sessions;
      CheckAuth(rotated, later, newToken, another).outcome.Ok? <==> later <= now + SessionTtl
  {
  }

  /**
   Expired sessions are rejected but not evicted: the store is unchanged and
   every later check of the same token is rejected again.
   */
  lemma ExpiredSessionIsKeptAndRejected(sessions: Sessions, now: int, later: int, token: string,
                                        newToken: string, another: string)
    requires token in sessions && sessions[token].expires < now <= later
    ensures CheckAuth(sessions, now, token, newToken) == Reply(AuthExpired, sessions)
    ensures token in CheckAuth(sessions, now, token, newToken).sessions
    ensures CheckAuth(CheckAuth(sessions, now, token, newToken).sessions, later, token, another).outcome == AuthExpired
  {
  }

  /**
   A permission refusal does not consume the session: the store is unchanged,
   and the same token still passes a check with a requirement it meets.
   */
  lemma PermissionRefusalKeepsSession(sessions: Sessions, now: int, required: Groups, enough: Groups,
                                      token: string, newToken: string)
    requires Validate(sessions, now, required, token, newToken).outcome == Permissions
    requires enough.None? || Holds(enough.value, sessions[token].groups)
    ensures Validate(sessions, now, required, token, newToken).sessions == sessions
    ensures Validate(sessions, now, enough, token, newToken).outcome == Ok(newToken)
  {
  }

  /**
   `get_auth` with the expiry computed at login time, as `Session.refresh`
   computes it: the evidently intended behaviour of `Session(...)`.
   */
  function GetAuthIntended(users: Users, sessions: Sessions, now: int, groupsNeeded: Groups,
                           username: string, password: string, newToken: string): (r: Reply)
    ensures r.outcome.Ok? ==>
      && username in users && newToken in r.sessions
      && r.sessions[newToken] == Refresh(Session(username, users[username].groups, now), now)
  {
    Login(users, sessions, groupsNeeded, username, password, newToken, now + SessionTtl)
  }

  /** With expiry computed at login, a new token passes `check_auth` for one TTL after login. */
  lemma IntendedLoginPassesForOneTtl(users: Users, sessions: Sessions, now: int, groupsNeeded: Groups,
                                     username: string, password: string, newToken: string,
                                     later: int, next: string)
    requires GetAuthIntended(users, sessions, now, groupsNeeded, username, password, newToken).outcome.Ok?
    ensures var issued := GetAuthIntended(users, sessions, now, groupsNeeded, username, password, newToken).sessions;
      CheckAuth(issued, later, newToken, next).outcome.Ok? <==> later <= now + SessionTtl
  {
  }

  /**
   Re-validation that honours the instance's `groups_needed` grants a token
   only to sessions whose groups contain every required group.
   */
  lemma ValidateEnforcesRequiredGroups(sessions: Sessions, now: int, groupsNeeded: seq<string>,
                                       token: string, newToken: string)
    requires Validate(sessions, now, Some(groupsNeeded), token, newToken).outcome.Ok?
    ensures token in sessions && sessions[token].groups.Some?
    ensures forall g :: g in groupsNeeded ==> g in sessions[token].groups.value
  {
  }
}
