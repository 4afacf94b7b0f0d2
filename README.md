# MariaDB multi-user rotation, modelled in Dafny

This project models the rotation handler for a Secrets Manager secret that
holds MariaDB credentials, using the multi-user scheme. Two database users
take turns: a base user and its clone, which has the same name with `_clone`
appended. Each rotation writes the other user's name and a fresh password into
a pending version of the secret. It then copies the current user's grants to
that user, checks that the new credential logs in, and finally moves the
`AWSCURRENT` label onto the pending version.

The model follows the handler's four steps and the gate in front of them:

- **Gate** (`Gate.Decide`): rotation must not be switched off, and the token
  must be a version of the secret. A version that already holds
  `AWSCURRENT` ends the invocation successfully, whatever step is named.
  Otherwise the version must hold `AWSPENDING`. Only then is the step name
  looked at.
- **createSecret**: when no pending payload exists at the token, it derives
  one from the current payload. It takes the alternate user name and a
  generated password, and stores the result at the token, labelled
  `AWSPENDING`.
- **setSecret**: it runs a fixed chain of checks. These are the pending
  login, the pending user and host against the current ones, the current
  login, the master secret's host (the same host, or a read replica of it, by
  the RDS inventory) and the master login. Then, on the master connection, it
  replays each of the current user's grants for the pending user, commits
  once, and closes the connection on every path.
- **testSecret**: it logs in with the pending credential, runs `SELECT NOW()`
  and commits, and closes the connection.
- **finishSecret**: it scans the versions for the first one holding
  `AWSCURRENT` and moves that label to the token.

Layout:

- `outcomes.dfy`: results and the handler's error cases.
- `text.dfy`: the first field of a string split.
- `usernames.dfy`: the alternate user name.
- `credentials.dfy`: payload validation and connection parameters, with the
  default port 3306.
- `grants.dfy`: grant-row rewriting, `%` escaping and the client's
  `%`-formatting.
- `replica.dfy`: the replica decision.
- `store.dfy`: the secret store, a `SecretsManager` class whose methods update
  its secrets.
- `sessions.dfy`: the database, a `Database` class with an event log of logins,
  statements, commits and closes.
- `gate.dfy`: the gate.
- `rotation_spec.dfy`: each step as a function of the store and the server's
  answers.
- `rotation.dfy`: the steps as imperative methods over the two classes, each
  proved to produce exactly what its function describes.
- `rotation_properties.dfy`: what the steps guarantee, proved about those
  functions.

The store, the database server and the RDS inventory are collaborators given
as values:

- the store's state is a map from ARN to a secret: an optional
  rotation-enabled flag, the listing order of the versions, their labels and
  their payloads;
- the server is three functions: whether a login is accepted, what
  `SHOW GRANTS` returns for a user, and whether a statement succeeds;
- the inventory is a function from instance identifier to a lookup answer;
- the password generator is a function of how many passwords were requested
  before.

The alternate-user-name function is sometimes described as an involution,
but the code is not one: a name that carries the suffix twice loses one
suffix per application (`Usernames.NotAnInvolution`). The model follows the
code.

## Model

| member | source | states |
|---|---|---|
| Text.BeforeFirst | SecretsManagerRDSMariaDBRotationMultiUser/lambda_function.py:254 | the first field of `split(sep)` is a prefix with no occurrence of the separator, ending at the first occurrence or at the end of the text |
| Text.BeforeFirstOfJoin | SecretsManagerRDSMariaDBRotationMultiUser/lambda_function.py:254 | splitting `a + sep + b` at the first separator gives back `a` when `a` holds no separator |
| Usernames.AltUsername | SecretsManagerRDSMariaDBRotationMultiUser/lambda_function.py:449-455 | a name ending in `_clone` loses the suffix, with no length check; any other name gains it, and the call fails exactly when the result would exceed 80 characters |
| Usernames.BaseRoundTrip | SecretsManagerRDSMariaDBRotationMultiUser/lambda_function.py:449-455 | a base name of at most 74 characters is cloned, and the clone maps back to it |
| Usernames.CloneRoundTrip | SecretsManagerRDSMariaDBRotationMultiUser/lambda_function.py:450-455 | a clone name within the limit whose base has no suffix maps to its base, and the base maps back to it |
| Usernames.NotAnInvolution | SecretsManagerRDSMariaDBRotationMultiUser/lambda_function.py:450-451 | `a_clone_clone` maps to `a_clone`, which maps to `a`, so applying the function twice does not return the original |
| Usernames.AppUserExamples | SecretsManagerRDSMariaDBRotationMultiUser/lambda_function.py:449-455 | `app_user` and `app_user_clone` map to each other |
| Credentials.FirstMissing | SecretsManagerRDSMariaDBRotationMultiUser/lambda_function.py:426-428 | the index of the first required field missing from the payload, with every earlier field present |
| Credentials.ValidateSecretDict | SecretsManagerRDSMariaDBRotationMultiUser/lambda_function.py:413-431 | validation succeeds exactly when the engine is `mariadb` and host, username and password are all present. The engine is checked first, then the fields in order, each naming the first missing key. A valid payload is returned unchanged |
| Credentials.ParsePort | SecretsManagerRDSMariaDBRotationMultiUser/lambda_function.py:372 | the port text parses exactly when it is a non-empty run of digits, and otherwise fails with InvalidPort |
| Credentials.PortRoundTrip | SecretsManagerRDSMariaDBRotationMultiUser/lambda_function.py:372 | parsing the decimal text of a port gives back the port |
| Credentials.ConnectionParams | SecretsManagerRDSMariaDBRotationMultiUser/lambda_function.py:372-385 | the login uses the payload's host, username and password. The port defaults to 3306 and otherwise must parse. The database name is present exactly when the payload names one |
| Grants.EscapePercent | SecretsManagerRDSMariaDBRotationMultiUser/lambda_function.py:255 | Python's `replace('%', '%%')`; `Grants.EscapeChangesOnlyPercent` states which texts it changes and `Grants.FormatEscaped` that formatting undoes it |
| Grants.EscapeChangesOnlyPercent | SecretsManagerRDSMariaDBRotationMultiUser/lambda_function.py:255 | text without `%` is left unchanged, and text with a `%` grows, so the escaping changes exactly the texts holding `%` |
| Grants.Format | SecretsManagerRDSMariaDBRotationMultiUser/lambda_function.py:256-258 | the client's `query % args` for `%%` and `%s`; a missing or left-over argument or another conversion is an error. Its behaviour is stated by `Grants.FormatEscaped`, `FormatLiteral` and `FormatArgument` |
| Grants.GrantTemplate | SecretsManagerRDSMariaDBRotationMultiUser/lambda_function.py:254-257 | the template built from a grant row: its escaped text before the first ` TO `, then ` TO %s IDENTIFIED BY %s` (`Grants.GrantTemplateRenders`, `RetargetsGrant`) |
| Grants.FormatEscaped | SecretsManagerRDSMariaDBRotationMultiUser/lambda_function.py:255-258 | `%`-formatting undoes the escaping: the escaped text comes out exactly as it went in |
| Grants.FormatLiteral | SecretsManagerRDSMariaDBRotationMultiUser/lambda_function.py:257-258 | text without `%` passes through formatting unchanged |
| Grants.FormatArgument | SecretsManagerRDSMariaDBRotationMultiUser/lambda_function.py:257-258 | a `%s` conversion consumes the next parameter |
| Grants.RetargetRenders | SecretsManagerRDSMariaDBRotationMultiUser/lambda_function.py:257-258 | ` TO %s IDENTIFIED BY %s` with the pending user and password formats to ` TO user IDENTIFIED BY password` |
| Grants.GrantTemplateRenders | SecretsManagerRDSMariaDBRotationMultiUser/lambda_function.py:254-258 | the statement sent for a grant row is its text before the first ` TO `, verbatim, followed by ` TO user IDENTIFIED BY password` |
| Grants.RetargetsGrant | SecretsManagerRDSMariaDBRotationMultiUser/lambda_function.py:254-258 | a row `clause TO grantee` becomes `clause TO user IDENTIFIED BY password`, whatever the grantee and whatever `%` signs the clause holds |
| Replica.InstanceId | SecretsManagerRDSMariaDBRotationMultiUser/lambda_function.py:477-478 | the instance identifier is the host up to its first dot, or the whole host when it has none |
| Replica.InstanceIdOfEndpoint | SecretsManagerRDSMariaDBRotationMultiUser/lambda_function.py:477-478 | the endpoint `id.domain` yields `id` |
| Replica.IsRdsReplica | SecretsManagerRDSMariaDBRotationMultiUser/lambda_function.py:477-497 | fails closed: a failed lookup or an empty answer is "not a replica". Otherwise the answer is yes exactly when the first instance's replication source is the master's identifier |
| Replica.ReplicaDecidedByIdentifiers | SecretsManagerRDSMariaDBRotationMultiUser/lambda_function.py:477-497 | the decision depends on the two hosts only through their instance identifiers |
| Sessions.SessionBracketed | SecretsManagerRDSMariaDBRotationMultiUser/lambda_function.py:262-267 | a connection that is opened, used for statements and commits, and closed leaves a well-bracketed log |
| Sessions.BracketedConcat | SecretsManagerRDSMariaDBRotationMultiUser/lambda_function.py:211-267 | connections used one after another leave a well-bracketed log |
| Sessions.Database.Connect | SecretsManagerRDSMariaDBRotationMultiUser/lambda_function.py:375-387 | a login opens a connection exactly when the server accepts the credential; a refused login records nothing |
| Sessions.Database.Probe | SecretsManagerRDSMariaDBRotationMultiUser/lambda_function.py:207-219 | a login that only checks a credential: it succeeds exactly when the server accepts the credential, and an accepted login is closed at once |
| Sessions.Database.Execute | SecretsManagerRDSMariaDBRotationMultiUser/lambda_function.py:252-258 | every statement submitted is logged, and its success is the server's answer |
| Sessions.Database.FetchGrants | SecretsManagerRDSMariaDBRotationMultiUser/lambda_function.py:253 | the rows fetched are the server's grants for the user |
| Sessions.Database.Commit | SecretsManagerRDSMariaDBRotationMultiUser/lambda_function.py:261 | a commit is appended to the log |
| Sessions.Database.Close | SecretsManagerRDSMariaDBRotationMultiUser/lambda_function.py:267 | a close is appended to the log |
| Store.FirstIndexWith | SecretsManagerRDSMariaDBRotationMultiUser/lambda_function.py:337-345 | the scan stops at the first listed version carrying the label; no earlier version carries it |
| Store.FirstWith | SecretsManagerRDSMariaDBRotationMultiUser/lambda_function.py:337-345 | the version found carries the label and is listed; when none is found, no listed version carries it |
| Store.FirstWithUnique | SecretsManagerRDSMariaDBRotationMultiUser/lambda_function.py:337-345 | when one version alone carries the label, the scan finds exactly that version |
| Store.SecretValue | SecretsManagerRDSMariaDBRotationMultiUser/lambda_function.py:416-419 | with a version, the payload is returned exactly when that version carries the stage and has a payload. Any failure is ResourceNotFound. The lookup without a version is stated by `Store.SecretValueFirstHolder` |
| Store.SecretValueFirstHolder | SecretsManagerRDSMariaDBRotationMultiUser/lambda_function.py:419 | without a version, the payload of the first listed version carrying the stage is returned, exactly when that version exists and has a payload |
| Store.PutValue | SecretsManagerRDSMariaDBRotationMultiUser/lambda_function.py:143 | storing a payload sets it at the token. A known version gains the labels; a new version gets exactly the labels and is appended to the listing, which otherwise stays as it was. No other version changes, and the secret stays well formed |
| Store.MoveLabel | SecretsManagerRDSMariaDBRotationMultiUser/lambda_function.py:350 | moving a label succeeds exactly when the target is a version. The target then holds the label and the named previous holder does not; no other label or version changes |
| Store.SecretsManager.DescribeSecret | SecretsManagerRDSMariaDBRotationMultiUser/lambda_function.py:58 | the metadata of a known secret, or ResourceNotFound |
| Store.SecretsManager.GetSecretValue | SecretsManagerRDSMariaDBRotationMultiUser/lambda_function.py:416-419 | the payload lookup of `Store.SecretValue` on the current store |
| Store.SecretsManager.GetRandomPassword | SecretsManagerRDSMariaDBRotationMultiUser/lambda_function.py:137-139 | a password is requested with the excluded characters and recorded in the request log |
| Store.SecretsManager.PutSecretValue | SecretsManagerRDSMariaDBRotationMultiUser/lambda_function.py:143 | the secret becomes `Store.PutValue` of itself, the store stays well formed, and no other secret changes |
| Store.SecretsManager.UpdateSecretVersionStage | SecretsManagerRDSMariaDBRotationMultiUser/lambda_function.py:350 | the secret becomes `Store.MoveLabel` of itself when the target exists. Otherwise the call fails and nothing changes |
| Gate.ParseStep | SecretsManagerRDSMariaDBRotationMultiUser/lambda_function.py:88-103 | each of the four step names, and only it, selects its step |
| Gate.Decide | SecretsManagerRDSMariaDBRotationMultiUser/lambda_function.py:58-103 | the gate's decisions, each with its exact condition. Rotation switched off is rejected, then an unknown token. A current version ends the invocation successfully whatever the step. A version that is not pending is rejected. Only then is the step looked at, and an unknown step is rejected |
| RotationSpec.SecretDict | SecretsManagerRDSMariaDBRotationMultiUser/lambda_function.py:413-431 | a fetched payload that validates is a MariaDB payload with host, username and password; `RotationSpec.SecretDictLookup` states which payload is fetched and when the fetch fails |
| RotationSpec.SecretDictLookup | SecretsManagerRDSMariaDBRotationMultiUser/lambda_function.py:413-431 | with a non-empty token, the result is the payload stored at that version, and it succeeds exactly when the version carries the stage and its payload validates. Otherwise the payload comes from the first listed version carrying the stage, with the same condition. An unknown secret is ResourceNotFound |
| RotationSpec.PendingRecord | SecretsManagerRDSMariaDBRotationMultiUser/lambda_function.py:134-140 | the current payload with the user name and password replaced; its keys and other values are stated by `RotationProperties.CreateSecretStoresDerivedPayload` |
| RotationSpec.CreateSecretSpec | SecretsManagerRDSMariaDBRotationMultiUser/lambda_function.py:126-143 | createSecret: fetch the current payload, keep an existing pending payload, otherwise store the derived one at the token labelled `AWSPENDING`. Its properties are `RotationProperties.CreateSecretKeepsExistingPending`, `CreateSecretFailureChangesNothing`, `CreateSecretStoresDerivedPayload`, `CreateSecretIdempotent` and `CreateSecretKeepsInvariant` |
| RotationSpec.GrantSession | SecretsManagerRDSMariaDBRotationMultiUser/lambda_function.py:249-264 | the master connection's work: `SHOW GRANTS`, the replay of every row, and one commit when all succeeded. Its properties are `RotationProperties.GrantSessionCommitsOnce` and `GrantSessionWithin` |
| RotationSpec.SetSecretSpec | SecretsManagerRDSMariaDBRotationMultiUser/lambda_function.py:172-173 | setSecret: fetch the current and pending payloads, then the checks and grants below. Its properties are `RotationProperties.SetSecretPayloadGuards`, `SetSecretMasterGuards`, `SetSecretGrantsOnlyAfterChecks`, `SetSecretReplaysGrants`, `SetSecretClosesEveryConnection` and `SetSecretSameHostIgnoresInventory` |
| RotationSpec.SetPayloadsSpec | SecretsManagerRDSMariaDBRotationMultiUser/lambda_function.py:175-183 | the pending login: if it is accepted, the connection is closed and the step ends (`RotationProperties.SetSecretPayloadGuards`) |
| RotationSpec.SetPendingUserSpec | SecretsManagerRDSMariaDBRotationMultiUser/lambda_function.py:185-205 | the clone-name, user and host checks in order (`RotationProperties.SetSecretPayloadGuards`) |
| RotationSpec.CurrentLoginSpec | SecretsManagerRDSMariaDBRotationMultiUser/lambda_function.py:207-219 | the current login, closed before the master phase (`RotationProperties.SetSecretPayloadGuards`) |
| RotationSpec.MasterGrantSpec | SecretsManagerRDSMariaDBRotationMultiUser/lambda_function.py:222-233 | the `masterarn` key, the master fetch and the same-host-or-replica test (`RotationProperties.SetSecretMasterGuards`) |
| RotationSpec.MasterSessionSpec | SecretsManagerRDSMariaDBRotationMultiUser/lambda_function.py:235-267 | the master login, the grant session and the close (`RotationProperties.MasterSessionBracketed`, `SetSecretReachesGrantSession`) |
| RotationSpec.TestSecretSpec | SecretsManagerRDSMariaDBRotationMultiUser/lambda_function.py:291-315 | testSecret: the pending login, `SELECT NOW()`, the commit and the close (`RotationProperties.TestSecretLogsInAsPending`, `TestSecretClosesConnection`) |
| RotationSpec.FinishSecretSpec | SecretsManagerRDSMariaDBRotationMultiUser/lambda_function.py:335-350 | finishSecret: scan for the first current version and move the label to the token (`RotationProperties.FinishSecretMovesCurrent`, `FinishSecretKeepsOneCurrent`, `FinishSecretIdempotent`) |
| RotationSpec.HandlerSpec | SecretsManagerRDSMariaDBRotationMultiUser/lambda_function.py:58-103 | one invocation: describe, gate, dispatch (`RotationProperties.HandlerStepEffects`, `HandlerClosesEveryConnection`, `HandlerKeepsInvariant`, `HandlerFinishedRotationIsNoOp`) |
| RotationSpec.RunInOrder | SecretsManagerRDSMariaDBRotationMultiUser/lambda_function.py:253-258 | replaying grants either completes or fails with StatementFailed, and runs no more statements than there are rows |
| RotationSpec.RunInOrderSplit | SecretsManagerRDSMariaDBRotationMultiUser/lambda_function.py:253-258 | once a run of statements has all succeeded, the replay continues with the rest exactly as if it started there |
| Rotation.GetSecretDict | SecretsManagerRDSMariaDBRotationMultiUser/lambda_function.py:413-431 | the method returns the fetched and validated payload of `RotationSpec.SecretDict` |
| Rotation.CreateSecret | SecretsManagerRDSMariaDBRotationMultiUser/lambda_function.py:126-143 | the outcome and the new store are those of the createSecret function, and the store stays well formed |
| Rotation.ReplicateGrants | SecretsManagerRDSMariaDBRotationMultiUser/lambda_function.py:253-258 | the loop runs the rewritten statement for each row in order, stops at the first refusal, and logs exactly the run `RotationSpec.RunInOrder` describes |
| Rotation.SetSecret | SecretsManagerRDSMariaDBRotationMultiUser/lambda_function.py:172-267 | the outcome and the database log are those of the setSecret function |
| Rotation.SetPayloads | SecretsManagerRDSMariaDBRotationMultiUser/lambda_function.py:175-183 | a pending credential that logs in is closed and ends the step. Otherwise the log is that of the remaining checks |
| Rotation.SetPendingUser | SecretsManagerRDSMariaDBRotationMultiUser/lambda_function.py:185-205 | the user and host checks, in order, with their errors |
| Rotation.CurrentLogin | SecretsManagerRDSMariaDBRotationMultiUser/lambda_function.py:207-219 | the current credential must log in; its connection is closed before the master phase |
| Rotation.GrantAsMaster | SecretsManagerRDSMariaDBRotationMultiUser/lambda_function.py:222-233 | the master secret must be for the current host or for a database it replicates |
| Rotation.MasterSession | SecretsManagerRDSMariaDBRotationMultiUser/lambda_function.py:235-267 | the master login, the grant session, and a close on every path |
| Rotation.ReplayGrants | SecretsManagerRDSMariaDBRotationMultiUser/lambda_function.py:249-264 | list the grants, replay them, and commit only after all succeeded |
| Rotation.TestSecret | SecretsManagerRDSMariaDBRotationMultiUser/lambda_function.py:291-315 | the outcome and the database log are those of the testSecret function |
| Rotation.FinishSecret | SecretsManagerRDSMariaDBRotationMultiUser/lambda_function.py:335-350 | the loop finds the first current version and breaks; the outcome and the new store are those of the finishSecret function, and the store stays well formed |
| Rotation.LambdaHandler | SecretsManagerRDSMariaDBRotationMultiUser/lambda_function.py:58-103 | the outcome, the new store and the database log of one invocation are those of the handler function |
| RotationProperties.FirstFailure | SecretsManagerRDSMariaDBRotationMultiUser/lambda_function.py:253-258 | the position of the first statement the server refuses, with every earlier one accepted |
| RotationProperties.RunInOrderStopsAtFirstFailure | SecretsManagerRDSMariaDBRotationMultiUser/lambda_function.py:253-258 | the replay runs exactly the statements up to and including the first refused one, in order. It succeeds exactly when none is refused |
| RotationProperties.RunInOrderDone | SecretsManagerRDSMariaDBRotationMultiUser/lambda_function.py:253-258 | a completed replay ran every statement, each successfully |
| RotationProperties.RunInOrderPlain | SecretsManagerRDSMariaDBRotationMultiUser/lambda_function.py:253-258 | the replay only runs statements; it opens, commits and closes nothing |
| RotationProperties.GrantStatementsRetarget | SecretsManagerRDSMariaDBRotationMultiUser/lambda_function.py:254-258 | there is one statement per grant row. The i-th is the escaped clause of row i with the retargeting suffix and the parameters (pending user, pending password), and it formats to `clause TO user IDENTIFIED BY password` |
| RotationProperties.GrantSessionCommitsOnce | SecretsManagerRDSMariaDBRotationMultiUser/lambda_function.py:249-264 | the session starts with `SHOW GRANTS` and succeeds exactly when every statement does. It then logs the listing, every replayed grant in order, and one commit at the end. A failed session commits nothing |
| RotationProperties.FinishSecretMovesCurrent | SecretsManagerRDSMariaDBRotationMultiUser/lambda_function.py:335-350 | finishSecret succeeds exactly when the token is a version. The token then holds `AWSCURRENT`, the previous holder found by the scan loses it, and no other label, payload or secret changes. On failure nothing changes |
| RotationProperties.FinishSecretKeepsOneCurrent | SecretsManagerRDSMariaDBRotationMultiUser/lambda_function.py:335-350 | on a store with one current version, the token is afterwards the one and only current version |
| RotationProperties.FinishSecretIdempotent | SecretsManagerRDSMariaDBRotationMultiUser/lambda_function.py:337-345 | running finishSecret again for the same token changes nothing |
| RotationProperties.FirstWithUnaffected | SecretsManagerRDSMariaDBRotationMultiUser/lambda_function.py:337-345 | relabelling that leaves every version's standing for a label alone, and appending versions without it, leaves the scan's answer unchanged |
| RotationProperties.CreateSecretKeepsExistingPending | SecretsManagerRDSMariaDBRotationMultiUser/lambda_function.py:129-131 | when a pending payload already exists at the token, nothing is written and no password is requested |
| RotationProperties.CreateSecretFailureChangesNothing | SecretsManagerRDSMariaDBRotationMultiUser/lambda_function.py:126-135 | every failure leaves the store as it was; a user name that cannot be cloned fails before any password is requested |
| RotationProperties.CreateSecretStoresDerivedPayload | SecretsManagerRDSMariaDBRotationMultiUser/lambda_function.py:132-143 | the payload stored at the token has the current payload's keys, the alternate user name and the generated password, with every other key unchanged. The token gains `AWSPENDING` and no other label, and is appended to the listing only if it was not listed. The only new payload is at the token. One password is requested, and no other version, label or secret changes |
| RotationProperties.CreateSecretIdempotent | SecretsManagerRDSMariaDBRotationMultiUser/lambda_function.py:126-143 | once createSecret has succeeded for a non-empty token, running it again changes nothing and requests no password |
| RotationProperties.SetSecretPayloadGuards | SecretsManagerRDSMariaDBRotationMultiUser/lambda_function.py:172-216 | a pending credential that logs in ends the step with just that login. Otherwise the first failing check decides the error, in the order clone name, user, host, current login |
| RotationProperties.SetSecretMasterGuards | SecretsManagerRDSMariaDBRotationMultiUser/lambda_function.py:219-244 | after the current login, in order: a missing `masterarn`, an invalid master secret, a master on an untrusted host, a refused master login. When none of these fails, every check of setSecret has passed |
| RotationProperties.MasterSessionBracketed | SecretsManagerRDSMariaDBRotationMultiUser/lambda_function.py:235-267 | the master connection is closed on every path |
| RotationProperties.SetSecretClosesEveryConnection | SecretsManagerRDSMariaDBRotationMultiUser/lambda_function.py:172-267 | whichever check fails, every connection setSecret opens is closed, and connections do not overlap |
| RotationProperties.SetSecretGrantsOnlyAfterChecks | SecretsManagerRDSMariaDBRotationMultiUser/lambda_function.py:175-258 | no statement runs unless every check has passed |
| RotationProperties.SetSecretReachesGrantSession | SecretsManagerRDSMariaDBRotationMultiUser/lambda_function.py:211-267 | once every check has passed, the log is the current login, the master login, the grant session and the master close |
| RotationProperties.CurrentLoginReachesGrantSession | SecretsManagerRDSMariaDBRotationMultiUser/lambda_function.py:207-267 | once the payload and master checks have passed, the current-login phase logs the current login and its close, then the master session |
| RotationProperties.MasterGrantReachesGrantSession | SecretsManagerRDSMariaDBRotationMultiUser/lambda_function.py:222-267 | once the master secret has passed its checks, the master phase is one master connection around the grant session |
| RotationProperties.GrantSessionWithin | SecretsManagerRDSMariaDBRotationMultiUser/lambda_function.py:249-267 | a grant session opened after commit-free events commits exactly once when all grants succeed, and not at all otherwise |
| RotationProperties.SetSecretReplaysGrants | SecretsManagerRDSMariaDBRotationMultiUser/lambda_function.py:249-267 | once every check has passed, setSecret succeeds exactly when the listing and every replayed grant succeed. Its full log is then the current login, the master login, the listing, each grant in order, one commit and the close. A failure commits nothing |
| RotationProperties.SetSecretSameHostIgnoresInventory | SecretsManagerRDSMariaDBRotationMultiUser/lambda_function.py:224 | the replica inventory is consulted only when the master's host differs from the current host |
| RotationProperties.TestSecretLogsInAsPending | SecretsManagerRDSMariaDBRotationMultiUser/lambda_function.py:291-315 | testSecret logs in as the pending user and fails with PendingLoginFailed exactly when that login is refused. It succeeds exactly when the login and `SELECT NOW()` succeed, and it commits exactly when it succeeds |
| RotationProperties.TestSecretClosesConnection | SecretsManagerRDSMariaDBRotationMultiUser/lambda_function.py:294-301 | the pending connection is closed even when the query fails |
| RotationProperties.HandlerStepEffects | SecretsManagerRDSMariaDBRotationMultiUser/lambda_function.py:58-103 | only setSecret and testSecret use the database, and only createSecret and finishSecret change the store. Nothing happens unless the gate dispatches a step |
| RotationProperties.HandlerClosesEveryConnection | SecretsManagerRDSMariaDBRotationMultiUser/lambda_function.py:88-100 | every invocation closes every connection it opens |
| RotationProperties.CreateSecretKeepsInvariant | SecretsManagerRDSMariaDBRotationMultiUser/lambda_function.py:143 | createSecret keeps every secret well formed with at most one current version |
| RotationProperties.HandlerKeepsInvariant | SecretsManagerRDSMariaDBRotationMultiUser/lambda_function.py:88-100 | every invocation keeps every secret well formed with at most one current version |
| RotationProperties.HandlerFinishedRotationIsNoOp | SecretsManagerRDSMariaDBRotationMultiUser/lambda_function.py:72-76 | after finishSecret has succeeded for a token, every later invocation for that token, whatever its step, succeeds without touching the store or the database |

## Left out

- The Secrets Manager and RDS clients and their transport are not modelled. The store is a map of secrets; the inventory is a function from instance identifier to answer.
- JSON parsing and serialisation are not modelled. Payloads are already-parsed maps from key to text, and the pending payload is stored as that map.
- What MariaDB does with `SHOW GRANTS`, `GRANT … IDENTIFIED BY` and `SELECT NOW()` is not modelled, and neither is the driver's quoting of parameters. Statements are recorded as a template and its parameters; their success and the grant rows are the server's answers.
- The connect timeout, logging, the event and context plumbing (a missing event key), and the module-level setup are not modelled.
- The environment variable that overrides the excluded password characters is not modelled. The default set is always requested.
- The password generator is a parameter: the n-th request returns `random(n)`.
- The store's automatic `AWSPREVIOUS` label is not modelled, nor its removal of `AWSPENDING` from other versions when a value is stored. Other errors the store's update call could raise are not modelled either.
- Failures of commit or close themselves are not modelled; each always succeeds.
- Credentials.ParsePort: accepts only a plain run of ASCII decimal digits; `int()` also accepts surrounding whitespace, a sign, underscores between digits and other Unicode decimal digits, which are not modelled.
- The server's answers are fixed for one invocation; concurrent or retried invocations are not modelled.
- RotationProperties.CreateSecretIdempotent: stated for a non-empty token only. With an empty token the pending fetch is not tied to the token (the handler passes a version only when the token is truthy), so a second run looks at the first pending version instead.
