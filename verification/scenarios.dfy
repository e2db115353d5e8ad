/**
 The repository's seed stores as constants, and the login, check and
 rotation scenarios its browser tests walk through, stated over them.
 Times are microseconds after the models module was imported at 0.
 */
module Scenarios {
  import opened Wrappers
  import opened Models
  import opened Outcomes
  import opened Http
  import opened SimpleAuth
  import TestRoutes
  import LegacyRoutes
  import RestClient
  import Traces

  /** Users of the in-process service. */
  const SimpleUsers: Users := map[
    "username" := User("username", "password", Some(["app1"])),
    "username2" := User("username2", "password2", Some(["app2"]))
  ]

  /** Users of the development app, whose page requires `group1`. */
  const DevUsers: Users := map[
    "username" := User("username", "password", Some(["app1", "group1"])),
    "username2" := User("username2", "password2", Some(["app2"]))
  ]

  const AppGroupsRequired: Groups := Some(["group1"])

  /** The seed session: no groups, expiring at the instant the storage module was loaded. */
  function SeedSessions(loadedAt: int): Sessions {
    map["example_token" := Session("example", None, loadedAt)]
  }

  const LegacyUsers: map<string, string> := map["username" := "password", "username1" := "password1"]

  const LegacySessions: LegacyRoutes.Store :=
    map[LegacyRoutes.TextKey("token") := LegacyRoutes.Record("", LegacyRoutes.GroupList([]))]

  const Second: int := 1_000_000

  /**
   The development app's login attempts: unknown user and wrong password
   both fail without touching the store, `username2` lacks `group1`, and
   `username` gets a session.
   */
  lemma DevAppLogins(sessions: Sessions)
    ensures GetAuth(DevUsers, sessions, 0, AppGroupsRequired, "username_fake", "password", "T1")
         == Reply(AuthFailed, sessions)
    ensures GetAuth(DevUsers, sessions, 0, AppGroupsRequired, "username", "password_fake", "T1")
         == Reply(AuthFailed, sessions)
    ensures GetAuth(DevUsers, sessions, 0, AppGroupsRequired, "username2", "password2", "T1")
         == Reply(Permissions, sessions)
    ensures GetAuth(DevUsers, sessions, 0, AppGroupsRequired, "username", "password", "T1").outcome == Ok("T1")
  {
    assert "username_fake" !in DevUsers;
    assert "group1" !in DevUsers["username2"].groups.value;
    assert Members(["group1"]) <= Members(DevUsers["username"].groups.value);
  }

  /**
   Login, then a reload half a minute later: the token rotates, the old
   token is refused, and the new one lasts one minute from the reload.
   */
  lemma LoginReloadRotates()
    ensures var login := GetAuth(DevUsers, map[], 0, AppGroupsRequired, "username", "password", "T1");
      && login.outcome == Ok("T1")
      && var reload := CheckAuth(login.sessions, 30 * Second, "T1", "T2");
      && reload.outcome == Ok("T2")
      && reload.sessions.Keys == {"T2"}
      && CheckAuth(reload.sessions, 30 * Second, "T1", "T3").outcome == AuthExpired
      && CheckAuth(reload.sessions, 90 * Second, "T2", "T3").outcome == Ok("T3")
      && CheckAuth(reload.sessions, 90 * Second + 1, "T2", "T3").outcome == AuthExpired
  {
  }

  /**
   The seed session is still valid at the very instant it expires, and is
   re-validated despite having no groups, since no groups are required.
   One microsecond later it is refused and stays stored.
   */
  lemma SeedSessionExpiresStrictly(loadedAt: int)
    ensures CheckAuth(SeedSessions(loadedAt), loadedAt, "example_token", "T1").outcome == Ok("T1")
    ensures CheckAuth(SeedSessions(loadedAt), loadedAt + 1, "example_token", "T1")
         == Reply(AuthExpired, SeedSessions(loadedAt))
  {
  }

  /**
   A live session with no group list crashes the test web server (500) when
   it is checked against any requirement, and the client reads that reply
   as an expired session. The storage seed session is one such session at
   the instant it was loaded.
   */
  lemma GrouplessSessionCrashesTestServer(sessions: Sessions, now: int, token: string, required: seq<string>)
    requires token in sessions && !(sessions[token].expires < now) && sessions[token].groups.None?
    ensures TestRoutes.AuthCheck(sessions, now, token, Some(required)).response.status == StatusServerError
    ensures RestClient.RemoteCheck(sessions, now, token, Some(required)) == AuthExpired
  {
  }

  /**
   The seed session's `"example"` is no user, so the shipped store is not
   coherent with the users alone; relative to the users and the seed
   session's own identity it is, and any run of calls keeps it so.
   */
  lemma ShippedStoreStaysCoherent(loadedAt: int, importedAt: int, groupsNeeded: Groups, calls: seq<Traces.Call>)
    ensures !Coherent(UserIdentities(SimpleUsers), SeedSessions(loadedAt))
    ensures var origins := UserIdentities(SimpleUsers) + StoredIdentities(SeedSessions(loadedAt));
      && Coherent(origins, SeedSessions(loadedAt))
      && Coherent(origins, Traces.Run(Traces.Service(SimpleUsers, importedAt, groupsNeeded), SeedSessions(loadedAt), calls).sessions)
  {
    var seed := SeedSessions(loadedAt);
    assert seed["example_token"] in seed.Values;
    assert IdentityOf(seed["example_token"]) !in UserIdentities(SimpleUsers);
    var origins := UserIdentities(SimpleUsers) + StoredIdentities(seed);
    InitialStoreIsCoherent(SimpleUsers, seed);
    Traces.RunPreservesCoherence(Traces.Service(SimpleUsers, importedAt, groupsNeeded), origins, seed, calls);
  }

  /**
   Because new sessions take the default expiry fixed at import time, a
   login two minutes after the service started yields a token that the very
   next check refuses.
   */
  lemma LoginAfterFirstMinuteIsAlreadyExpired()
    ensures var login := GetAuth(DevUsers, map[], 0, AppGroupsRequired, "username", "password", "T1");
      && login.outcome == Ok("T1")
      && CheckAuth(login.sessions, 120 * Second, "T1", "T2").outcome == AuthExpired
  {
  }

  /** The same late login, with the expiry computed at login time, passes the check. */
  lemma IntendedLateLoginPasses()
    ensures var login := GetAuthIntended(DevUsers, map[], 120 * Second, AppGroupsRequired, "username", "password", "T1");
      && login.outcome == Ok("T1")
      && CheckAuth(login.sessions, 120 * Second, "T1", "T2").outcome == Ok("T2")
  {
  }

  /**
   `check_auth` ignores `groups_needed`: a token issued to `username2` by an
   instance with no requirement passes `check_auth` on the shared store even
   though `username2` lacks `app1`; re-validation against `app1` refuses it.
   */
  lemma CheckAuthIgnoresGroupsNeeded()
    ensures var login := GetAuth(SimpleUsers, map[], 0, None, "username2", "password2", "T1");
      && login.outcome == Ok("T1")
      && CheckAuth(login.sessions, 0, "T1", "T2").outcome == Ok("T2")
      && Validate(login.sessions, 0, Some(["app1"]), "T1", "T2").outcome == Permissions
  {
    assert "app1" !in SimpleUsers["username2"].groups.value;
  }

  /**
   The legacy seed token passes with an empty requirement, is refused for
   `app1`, and crashes the route when `groups_needed` is missing.
   */
  lemma LegacySeedToken()
    ensures LegacyRoutes.AuthCheck(LegacySessions, "token", Some([])).response == Response(StatusOk, Some("token"))
    ensures LegacyRoutes.AuthCheck(LegacySessions, "token", Some(["app1"])).response.status == StatusForbidden
    ensures LegacyRoutes.AuthCheck(LegacySessions, "token", None).response.status == StatusServerError
  {
    assert "app1" in ["app1"];
  }

  /**
   A legacy login with good credentials answers 500 with no token, yet leaves
   a session stored under the UUID key, which no text token reaches; with a
   text key the same login returns the token, which passes with no
   requirement.
   */
  lemma LegacyLoginTokenIsLost()
    ensures var login := LegacyRoutes.AuthToken(LegacyUsers, LegacySessions, "username", "password", "T1");
      && login.response == Response(StatusServerError, None)
      && LegacyRoutes.UuidKey("T1") in login.store
      && LegacyRoutes.AuthCheck(login.store, "T1", Some([])).response.status == StatusNoContent
    ensures var login := LegacyRoutes.AuthTokenIntended(LegacyUsers, LegacySessions, "username", "password", "T1");
      && login.response == Response(StatusOk, Some("T1"))
      && LegacyRoutes.AuthCheck(login.store, "T1", Some([])).response == Response(StatusOk, Some("T1"))
  {
  }
}
