/**
 `RestAPIAuth`: the client side of the HTTP variants. Each call posts to a
 route and turns the reply's status code back into one of the auth
 outcomes; the transport itself is abstracted to the status and the
 `"token"` field of the reply body.
 */
module RestClient {
  import opened Wrappers
  import opened Models
  import opened Outcomes
  import opened Http
  import SimpleAuth
  import TestRoutes

  /**
   `get_auth`: 401 and 204 mean bad credentials, 403 missing groups, 200 the
   token in the body; any other status is reported as an expired session.
   */
  function ClassifyLogin(status: int, token: string): (o: Outcome)
    ensures o == AuthFailed <==> status == 401 || status == 204
    ensures o == Permissions <==> status == 403
    ensures o.Ok? <==> status == 200
    ensures o.Ok? ==> o.token == token
    ensures o == AuthExpired <==> status !in {200, 204, 401, 403}
  {
    if status == StatusUnauthorized || status == StatusNoContent then AuthFailed
    else if status == StatusForbidden then Permissions
    else if status != StatusOk then AuthExpired
    else Ok(token)
  }

  /**
   `check_auth`: 403 means missing groups, 200 the rotated (or same) token;
   204, 401 and every other status mean the session is gone.
   */
  function ClassifyCheck(status: int, token: string): (o: Outcome)
    ensures o == Permissions <==> status == 403
    ensures o.Ok? <==> status == 200
    ensures o.Ok? ==> o.token == token
    ensures o == AuthExpired <==> status != 200 && status != 403
  {
    if status == StatusNoContent || status == StatusUnauthorized then AuthExpired
    else if status == StatusForbidden then Permissions
    else if status != StatusOk then AuthExpired
    else Ok(token)
  }

  /** Neither classifier ever reports a fault, and the check never reports bad credentials. */
  lemma ClassifiersNeverFault(status: int, token: string)
    ensures !ClassifyLogin(status, token).Fault? && !ClassifyCheck(status, token).Fault?
    ensures ClassifyCheck(status, token) != AuthFailed
  {
  }

  /** The `"token"` field the client reads from a reply (only ever read on success). */
  function BodyToken(r: Response): string {
    match r.token
    case Some(t) => t
    case None => ""
  }

  /** What an in-process outcome looks like once it has crossed HTTP: a crash is a 500. */
  function OverHttp(o: Outcome): Outcome {
    if o.Fault? then AuthExpired else o
  }

  /** Logging in through `/token` and the client classifier. */
  function RemoteLogin(users: SimpleAuth.Users, sessions: SimpleAuth.Sessions, importedAt: int,
                       groupsNeeded: Groups, username: string, password: string, newToken: string): Outcome
  {
    var x := TestRoutes.AuthToken(users, sessions, importedAt, username, password, groupsNeeded, newToken);
    ClassifyLogin(x.response.status, BodyToken(x.response))
  }

  /**
   The route plus the classifier behave like the in-process `get_auth`: the
   same outcome (a crash surfacing as an expired session) and the same
   session store.
   */
  lemma RemoteLoginMatchesInProcess(users: SimpleAuth.Users, sessions: SimpleAuth.Sessions, importedAt: int,
                                    groupsNeeded: Groups, username: string, password: string, newToken: string)
    ensures RemoteLogin(users, sessions, importedAt, groupsNeeded, username, password, newToken)
         == OverHttp(SimpleAuth.GetAuth(users, sessions, importedAt, groupsNeeded, username, password, newToken).outcome)
    ensures TestRoutes.AuthToken(users, sessions, importedAt, username, password, groupsNeeded, newToken).store
         == SimpleAuth.GetAuth(users, sessions, importedAt, groupsNeeded, username, password, newToken).sessions
  {
  }

  /**
   The server tells an unknown user (204) from a wrong password (401), but
   the client reports both as the same bad-credentials outcome.
   */
  lemma ClientHidesUnknownUser(users: SimpleAuth.Users, sessions: SimpleAuth.Sessions, importedAt: int,
                               groupsNeeded: Groups, username: string, password: string,
                               stranger: string, guess: string, newToken: string)
    requires username in users && users[username].password != password
    requires stranger !in users
    ensures TestRoutes.AuthToken(users, sessions, importedAt, stranger, guess, groupsNeeded, newToken).response.status
         != TestRoutes.AuthToken(users, sessions, importedAt, username, password, groupsNeeded, newToken).response.status
    ensures RemoteLogin(users, sessions, importedAt, groupsNeeded, stranger, guess, newToken)
         == RemoteLogin(users, sessions, importedAt, groupsNeeded, username, password, newToken)
         == AuthFailed
  {
  }

  /** Checking a token through `/check` and the client classifier. */
  function RemoteCheck(sessions: SimpleAuth.Sessions, now: int, token: string, groupsNeeded: Groups): Outcome {
    var x := TestRoutes.AuthCheck(sessions, now, token, groupsNeeded);
    ClassifyCheck(x.response.status, BodyToken(x.response))
  }

  /**
   `/check` plus the classifier reach the same verdict as in-process
   re-validation against the same groups, but hand back the presented token
   where the in-process service rotates to a new one.
   */
  lemma RemoteCheckMatchesInProcess(sessions: SimpleAuth.Sessions, now: int, token: string, groupsNeeded: Groups,
                                    newToken: string)
    ensures var local := SimpleAuth.Validate(sessions, now, groupsNeeded, token, newToken).outcome;
      RemoteCheck(sessions, now, token, groupsNeeded)
        == if local.Ok? then Ok(token) else OverHttp(local)
  {
  }
}
