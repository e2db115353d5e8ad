/**
 A run of the in-process service: the front-ends' calls applied one after
 another to the module-level session store, as a long-lived process sees
 them. Calls are sequential; interleaving is not modelled.
 */
module Traces {
  import opened Models
  import opened Outcomes
  import opened SimpleAuth

  /** The fixed part of a service: its users, the models' import instant, and `groups_needed`. */
  datatype Service = Service(users: Users, importedAt: int, groupsNeeded: Groups)

  /** One call on the service, with the token the generator yields for it. */
  datatype Call =
    | Login(username: string, password: string, newToken: string)
    | Check(now: int, token: string, newToken: string)

  /** A run's final store and how many logins it granted. */
  datatype History = History(sessions: Sessions, logins: nat)

  function Step(svc: Service, sessions: Sessions, c: Call): Reply {
    match c
    case Login(username, password, newToken) =>
      GetAuth(svc.users, sessions, svc.importedAt, svc.groupsNeeded, username, password, newToken)
    case Check(now, token, newToken) =>
      CheckAuth(sessions, now, token, newToken)
  }

  /** The tokens the generator yields over a sequence of calls. */
  function Generated(calls: seq<Call>): set<string> {
    set i | 0 <= i < |calls| :: calls[i].newToken
  }

  /** The number of login calls in a sequence of calls. */
  function LoginAttempts(calls: seq<Call>): nat
    decreases |calls|
  {
    if |calls| == 0 then 0
    else (if calls[0].Login? then 1 else 0) + LoginAttempts(calls[1..])
  }

  /**
   Applies the calls in order. Every token in the final store was either
   already stored or generated during the run, and each login call grants
   at most one login.
   */
  function Run(svc: Service, sessions: Sessions, calls: seq<Call>): (h: History)
    ensures h.sessions.Keys <= sessions.Keys + Generated(calls)
    ensures h.logins <= LoginAttempts(calls)
    decreases |calls|
  {
    if |calls| == 0 then History(sessions, 0)
    else
      var r := Step(svc, sessions, calls[0]);
      var h := Run(svc, r.sessions, calls[1..]);
      assert Generated(calls) == {calls[0].newToken} + Generated(calls[1..]) by {
        forall t | t in Generated(calls) ensures t in {calls[0].newToken} + Generated(calls[1..]) {
          var i :| 0 <= i < |calls| && calls[i].newToken == t;
          if i > 0 { assert calls[1..][i - 1] == calls[i]; }
        }
      }
      History(h.sessions, h.logins + if calls[0].Login? && r.outcome.Ok? then 1 else 0)
  }

  /** Every call is handed a token not in the store at the moment it is made. */
  predicate UnusedTokens(svc: Service, sessions: Sessions, calls: seq<Call>)
    decreases |calls|
  {
    |calls| == 0 ||
    (calls[0].newToken !in sessions && UnusedTokens(svc, Step(svc, sessions, calls[0]).sessions, calls[1..]))
  }

  /**
   With unused tokens, the number of live entries grows by exactly the
   number of granted logins: rotation replaces one entry with one, and
   nothing is ever evicted.
   */
  lemma {:induction false} SessionCountTracksLogins(svc: Service, sessions: Sessions, calls: seq<Call>)
    requires UnusedTokens(svc, sessions, calls)
    ensures |Run(svc, sessions, calls).sessions| == |sessions| + Run(svc, sessions, calls).logins
    decreases |calls|
  {
    if |calls| > 0 {
      var r := Step(svc, sessions, calls[0]);
      SessionCountTracksLogins(svc, r.sessions, calls[1..]);
    }
  }

  /**
   Every session stays a copy of a user's identity or of a session the run
   started with, across any run.
   */
  lemma {:induction false} RunPreservesCoherence(svc: Service, origins: set<Identity>, sessions: Sessions,
                                                 calls: seq<Call>)
    requires UserIdentities(svc.users) <= origins
    requires Coherent(origins, sessions)
    ensures Coherent(origins, Run(svc, sessions, calls).sessions)
    decreases |calls|
  {
    if |calls| > 0 {
      var c := calls[0];
      match c {
        case Login(username, password, newToken) =>
          GetAuthPreservesCoherence(origins, svc.users, sessions, svc.importedAt, svc.groupsNeeded,
                                    username, password, newToken);
        case Check(now, token, newToken) =>
          CheckAuthPreservesCoherence(origins, sessions, now, token, newToken);
      }
      RunPreservesCoherence(svc, origins, Step(svc, sessions, c).sessions, calls[1..]);
    }
  }
}
