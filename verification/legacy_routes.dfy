/**
 The older dict-backed web server routes `/auth-check` and `/auth-token`:
 users map a username to a password, sessions map a key to a
 `{"username", "groups"}` record, and nothing expires or rotates.

 `/auth-token` stores its session under a `uuid.UUID` object, while
 `/auth-check` looks the presented token up as a `str`; the two never compare
 equal in Python, so keys carry their kind. The UUID also fails the `str`
 validation of the pydantic (v1) response model, so as written the route
 raises after storing the session and answers 500.
 */
module LegacyRoutes {
  import opened Wrappers
  import opened Models
  import opened Http

  /** A session key: a text token, or a UUID object with its text form. */
  datatype Key = TextKey(text: string) | UuidKey(text: string)

  /**
   The `"groups"` value: a list of names, or a string, which `issubset`
   iterates one character at a time.
   */
  datatype GroupsField = GroupList(items: seq<string>) | GroupText(chars: string)

  datatype Record = Record(username: string, groups: GroupsField)

  type Store = map<Key, Record>

  /** The names a `"groups"` value yields when iterated. */
  function Elements(g: GroupsField): set<string> {
    match g
    case GroupList(items) => Members(items)
    case GroupText(chars) => set c | c in chars :: [c]
  }

  /**
   `auth_check`: 204 when the text token is not a key; `set(None)` raises for
   a missing `groups_needed` (500); 403 unless every needed group is among the
   record's groups; otherwise the token comes back and nothing changes.
   */
  function AuthCheck(sessions: Store, token: string, groupsNeeded: Option<seq<string>>): (x: Exchange<Store>)
    ensures x.store == sessions
    ensures x.response.status == StatusNoContent <==> TextKey(token) !in sessions
    ensures x.response.status == StatusServerError <==> TextKey(token) in sessions && groupsNeeded.None?
    ensures x.response.status == StatusForbidden <==>
      TextKey(token) in sessions && groupsNeeded.Some?
      && exists g :: g in groupsNeeded.value && g !in Elements(sessions[TextKey(token)].groups)
    ensures x.response.status == StatusOk <==>
      TextKey(token) in sessions && groupsNeeded.Some?
      && forall g :: g in groupsNeeded.value ==> g in Elements(sessions[TextKey(token)].groups)
    ensures x.response.status == StatusOk ==> x.response.token == Some(token)
    ensures x.response.status != StatusOk ==> x.response.token == None
  {
    if TextKey(token) !in sessions then Exchange(Refusal(StatusNoContent), sessions)
    else if groupsNeeded.None? then Exchange(Refusal(StatusServerError), sessions)
    else if !(Members(groupsNeeded.value) <= Elements(sessions[TextKey(token)].groups)) then
      Exchange(Refusal(StatusForbidden), sessions)
    else Exchange(Response(StatusOk, Some(token)), sessions)
  }

  /** The credential test of `auth_token`: a known user whose stored password matches. */
  predicate CredentialsMatch(users: map<string, string>, username: string, password: string) {
    username in users && users[username] == password
  }

  /** The record `auth_token` stores: the username and the groups value `""`. */
  function LoginRecord(username: string): Record {
    Record(username, GroupText(""))
  }

  /**
   `auth_token` as written: 401 for an unknown user or a wrong password with
   the store unchanged; otherwise the record is stored under the UUID object,
   and building the response from that UUID raises, so the reply is 500
   with no token.
   */
  function AuthToken(users: map<string, string>, sessions: Store, username: string, password: string,
                     newToken: string): (x: Exchange<Store>)
    ensures x.response.token == None
    ensures x.response.status == StatusUnauthorized <==> !CredentialsMatch(users, username, password)
    ensures x.response.status == StatusServerError <==> CredentialsMatch(users, username, password)
    ensures x.response.status == StatusUnauthorized ==> x.store == sessions
    ensures x.response.status == StatusServerError ==>
      && x.store.Keys == sessions.Keys + {UuidKey(newToken)}
      && x.store[UuidKey(newToken)] == Record(username, GroupText(""))
      && (forall k :: k in sessions && k != UuidKey(newToken) ==> x.store[k] == sessions[k])
  {
    if !CredentialsMatch(users, username, password) then Exchange(Refusal(StatusUnauthorized), sessions)
    else Exchange(Refusal(StatusServerError), sessions[UuidKey(newToken) := LoginRecord(username)])
  }

  /**
   `auth_token` with the key converted to text, as the test web server does:
   401 as before; otherwise the record is stored under the text token, which
   is returned with 200.
   */
  function AuthTokenIntended(users: map<string, string>, sessions: Store, username: string, password: string,
                             newToken: string): (x: Exchange<Store>)
    ensures x.response.status == StatusOk || x.response.status == StatusUnauthorized
    ensures x.response.status == StatusUnauthorized <==> !CredentialsMatch(users, username, password)
    ensures x.response.status == StatusUnauthorized ==> x.store == sessions && x.response.token == None
    ensures x.response.status == StatusOk ==>
      && x.response.token == Some(newToken)
      && x.store.Keys == sessions.Keys + {TextKey(newToken)}
      && x.store[TextKey(newToken)] == Record(username, GroupText(""))
      && (forall k :: k in sessions && k != TextKey(newToken) ==> x.store[k] == sessions[k])
  {
    if !CredentialsMatch(users, username, password) then Exchange(Refusal(StatusUnauthorized), sessions)
    else Exchange(Response(StatusOk, Some(newToken)), sessions[TextKey(newToken) := LoginRecord(username)])
  }

  /** An unknown user and a wrong password get the same 401 and leave the store alone, in both versions. */
  lemma CredentialFailuresLookAlike(users: map<string, string>, sessions: Store, username: string, password: string,
                                    stranger: string, guess: string, newToken: string)
    requires username in users && users[username] != password
    requires stranger !in users
    ensures AuthToken(users, sessions, username, password, newToken)
         == AuthToken(users, sessions, stranger, guess, newToken)
         == AuthTokenIntended(users, sessions, username, password, newToken)
         == AuthTokenIntended(users, sessions, stranger, guess, newToken)
         == Exchange(Refusal(StatusUnauthorized), sessions)
  {
  }

  /**
   As written, the session a login stores is unreachable: for every text
   token and every requirement, `/auth-check` answers exactly as it did on
   the store before the login.
   */
  lemma LoginSessionIsUnreachable(users: map<string, string>, sessions: Store, username: string, password: string,
                                  newToken: string, token: string, groupsNeeded: Option<seq<string>>)
    ensures var after := AuthToken(users, sessions, username, password, newToken).store;
      AuthCheck(after, token, groupsNeeded).response == AuthCheck(sessions, token, groupsNeeded).response
  {
  }

  /**
   With a text key, the issued token passes `/auth-check` exactly for an
   empty `groups_needed`: its groups value `""` yields no names.
   */
  lemma IntendedTokenPassesOnlyWithoutGroups(users: map<string, string>, sessions: Store, username: string,
                                             password: string, newToken: string, groupsNeeded: seq<string>)
    requires AuthTokenIntended(users, sessions, username, password, newToken).response.status == StatusOk
    ensures var issued := AuthTokenIntended(users, sessions, username, password, newToken).store;
      && (AuthCheck(issued, newToken, Some(groupsNeeded)).response.status == StatusOk <==> |groupsNeeded| == 0)
      && (AuthCheck(issued, newToken, Some(groupsNeeded)).response.status == StatusForbidden <==> |groupsNeeded| > 0)
      && AuthCheck(issued, newToken, None).response.status == StatusServerError
  {
    var issued := AuthTokenIntended(users, sessions, username, password, newToken).store;
    assert Elements(issued[TextKey(newToken)].groups) == {};
    if |groupsNeeded| > 0 {
      assert groupsNeeded[0] in groupsNeeded;
    }
  }
}
