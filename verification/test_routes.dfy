/**
 The test web server's `/check` and `/token` routes: the same session engine
 as `SimpleAuth`, answering with HTTP status codes instead of exceptions.
 `/check` does not rotate the token and honours `groups_needed`; `/token`
 tells an unknown user (204) from a wrong password (401).
 */
module TestRoutes {
  import opened Wrappers
  import opened Models
  import opened Http
  import opened SimpleAuth

  /**
   `auth_check`: existence, then expiry, then permissions, each failure
   answered with its own status; success returns the presented token and
   changes nothing.
   */
  function AuthCheck(sessions: Sessions, now: int, token: string, groupsNeeded: Groups): (x: Exchange<Sessions>)
    ensures x.store == sessions
    ensures x.response.status == StatusNoContent <==> token !in sessions || sessions[token].expires < now
    ensures x.response.status == StatusForbidden <==>
      && token in sessions && now <= sessions[token].expires
      && groupsNeeded.Some? && sessions[token].groups.Some? && !Holds(groupsNeeded.value, sessions[token].groups)
    ensures x.response.status == StatusServerError <==>
      && token in sessions && now <= sessions[token].expires
      && groupsNeeded.Some? && sessions[token].groups.None?
    ensures x.response.status == StatusOk <==>
      && token in sessions && now <= sessions[token].expires
      && (groupsNeeded.None? || Holds(groupsNeeded.value, sessions[token].groups))
    ensures x.response.status == StatusOk ==> x.response.token == Some(token)
    ensures x.response.status != StatusOk ==> x.response.token == None
  {
    if token !in sessions then Exchange(Refusal(StatusNoContent), sessions)
    else
      var session := sessions[token];
      if !SessionIsValid(session, now) then Exchange(Refusal(StatusNoContent), sessions)
      else match SessionPermissions(session, groupsNeeded)
        case NotAllowed => Exchange(Refusal(StatusForbidden), sessions)
        case TypeFault => Exchange(Refusal(StatusServerError), sessions)
        case Allowed => Exchange(Response(StatusOk, Some(token)), sessions)
  }

  /**
   `auth_token`: 204 for an unknown user, 401 for a wrong password, 403 for
   missing groups; on success a session with the user's groups and the
   class-level default expiry is stored under `newToken` (the text of a new
   UUID) and that token is returned.
   */
  function AuthToken(users: Users, sessions: Sessions, importedAt: int, username: string, password: string,
                     groupsNeeded: Groups, newToken: string): (x: Exchange<Sessions>)
    ensures x.response.status == StatusNoContent <==> username !in users
    ensures x.response.status == StatusUnauthorized <==> username in users && users[username].password != password
    ensures x.response.status == StatusForbidden <==>
      && username in users && users[username].password == password
      && groupsNeeded.Some? && users[username].groups.Some? && !Holds(groupsNeeded.value, users[username].groups)
    ensures x.response.status == StatusServerError <==>
      && username in users && users[username].password == password
      && groupsNeeded.Some? && users[username].groups.None?
    ensures x.response.status == StatusOk <==>
      && username in users && users[username].password == password
      && (groupsNeeded.None? || Holds(groupsNeeded.value, users[username].groups))
    ensures x.response.status != StatusOk ==> x.store == sessions && x.response.token == None
    ensures x.response.status == StatusOk ==>
      && x.response.token == Some(newToken)
      && x.store.Keys == sessions.Keys + {newToken}
      && x.store[newToken] == NewSession(username, users[username].groups, importedAt)
      && (forall t :: t in sessions && t != newToken ==> x.store[t] == sessions[t])
  {
    if username !in users then Exchange(Refusal(StatusNoContent), sessions)
    else
      var user := users[username];
      if !PasswordMatches(user, password) then Exchange(Refusal(StatusUnauthorized), sessions)
      else match UserPermissions(user, groupsNeeded)
        case NotAllowed => Exchange(Refusal(StatusForbidden), sessions)
        case TypeFault => Exchange(Refusal(StatusServerError), sessions)
        case Allowed =>
          Exchange(Response(StatusOk, Some(newToken)),
                   sessions[newToken := NewSession(username, user.groups, importedAt)])
  }

  /**
   The checks run in a fixed order: an expired session answers 204 even
   when its groups would also fail.
   */
  lemma ExpiryIsCheckedBeforePermissions(sessions: Sessions, now: int, token: string, groupsNeeded: Groups)
    requires token in sessions && sessions[token].expires < now
    ensures AuthCheck(sessions, now, token, groupsNeeded).response.status == StatusNoContent
  {
  }

  /**
   Without `groups_needed` the permission step always passes: `/check`
   answers 200 or 204, never 403 or 500, for any store, time and token.
   */
  lemma AbsentRequirementNeverForbids(sessions: Sessions, now: int, token: string)
    ensures AuthCheck(sessions, now, token, None).response.status in {StatusOk, StatusNoContent}
  {
  }

  /** Repeated checks of a live token keep answering with the same token: nothing rotates. */
  lemma CheckDoesNotRotate(sessions: Sessions, now: int, later: int, token: string, groupsNeeded: Groups)
    requires AuthCheck(sessions, now, token, groupsNeeded).response.status == StatusOk
    requires now <= later <= sessions[token].expires
    ensures AuthCheck(AuthCheck(sessions, now, token, groupsNeeded).store, later, token, groupsNeeded).response
         == Response(StatusOk, Some(token))
  {
  }

  /**
   A token fresh from `/token` passes `/check` with the same requirement as
   long as the class-level default expiry has not passed.
   */
  lemma IssuedTokenPassesCheck(users: Users, sessions: Sessions, importedAt: int, username: string, password: string,
                               groupsNeeded: Groups, newToken: string, now: int)
    requires AuthToken(users, sessions, importedAt, username, password, groupsNeeded, newToken).response.status == StatusOk
    requires now <= importedAt + SessionTtl
    ensures var issued := AuthToken(users, sessions, importedAt, username, password, groupsNeeded, newToken).store;
      AuthCheck(issued, now, newToken, groupsNeeded).response == Response(StatusOk, Some(newToken))
  {
  }
}
