/**
 The three exceptions every auth backend raises towards the Shiny front-ends
 (`ShinyLiveAuthFailed`, `ShinyLiveAuthExpired`, `ShinyLivePermissions`),
 the token returned on success, and the uncaught `TypeError` that the
 permission rule raises when a record has no group list.
 */
module Outcomes {

  datatype Outcome =
    | Ok(token: string)   // the call returned this token
    | AuthFailed          // credentials rejected
    | AuthExpired         // token absent, expired, or an unexplained failure
    | Permissions         // identity proven, groups insufficient
    | Fault               // an uncaught TypeError escaped the call
}
