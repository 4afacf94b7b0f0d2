/** What each rotation step does, as functions of the store's state and of
    the database server's answers. The methods in module Rotation are proved
    to do exactly this; module RotationProperties proves what it means. */
module RotationSpec {
  import opened Outcomes
  import opened Usernames
  import opened Credentials
  import opened Grants
  import opened Replica
  import opened Store
  import opened Sessions
  import opened Gate

  /** What createSecret and finishSecret do: an outcome and the store afterwards. */
  datatype StoreRun = StoreRun(outcome: Outcome, state: StoreState)

  /** What setSecret and testSecret do: an outcome and the database events. */
  datatype SessionRun = SessionRun(outcome: Outcome, events: seq<DbEvent>)

  /** What one invocation of the handler does. */
  datatype Effect = Effect(outcome: Outcome, state: StoreState, events: seq<DbEvent>)

  /** Fetch a payload and validate it. A version token is only passed on when
      it is non-empty, following the truthiness test on the token. */
  function SecretDict(secrets: map<Arn, Secret>, arn: Arn, stage: Stage, token: Option<Token>): (r: Result<Record>)
    ensures r.Ok? ==> arn in secrets && IsMariaDB(r.value) && HasCredentialFields(r.value)
  {
    var version := if token.Some? && token.value != "" then token else None;
    var v := SecretValue(secrets, arn, version, stage);
    if v.Err? then Err(v.error) else ValidateSecretDict(v.value)
  }

  /** What a fetch returns: with a non-empty token, the payload stored at
      that version, provided it carries the stage; otherwise the payload of
      the first listed version carrying the stage. The fetch succeeds exactly
      when that payload exists and validates. */
  lemma SecretDictLookup(secrets: map<Arn, Secret>, arn: Arn, stage: Stage, token: Option<Token>)
    ensures arn !in secrets ==> SecretDict(secrets, arn, stage, token) == Err(ResourceNotFound)
    ensures token.Some? && token.value != "" && arn in secrets ==>
              var s := secrets[arn];
              var r := SecretDict(secrets, arn, stage, token);
              && (r.Ok? <==> Holds(s.stages, token.value, stage) && token.value in s.values
                             && ValidateSecretDict(s.values[token.value]).Ok?)
              && (r.Ok? ==> r.value == s.values[token.value])
    ensures (token.None? || token.value == "") && arn in secrets ==>
              var s := secrets[arn];
              var v := FirstWith(s.order, s.stages, stage);
              var r := SecretDict(secrets, arn, stage, token);
              && (r.Ok? <==> v.Some? && v.value in s.values && ValidateSecretDict(s.values[v.value]).Ok?)
              && (r.Ok? ==> r.value == s.values[v.value])
  {
  }

  /** The payload createSecret stores: the current payload with a new user
      name and password, every other key unchanged. */
  function PendingRecord(current: Record, username: string, password: string): Record {
    current["username" := username]["password" := password]
  }

  function CreateSecretSpec(st: StoreState, random: nat -> string, arn: Arn, token: Token): StoreRun {
    var current := SecretDict(st.secrets, arn, Current, None);
    if current.Err? then StoreRun(Failed(current.error), st)
    else
      var pending := SecretDict(st.secrets, arn, Pending, Some(token));
      if pending.Ok? then StoreRun(Done, st)
      else if pending.error != ResourceNotFound then StoreRun(Failed(pending.error), st)
      else
        var alt := AltUsername(current.value["username"]);
        if alt.Err? then StoreRun(Failed(alt.error), st)
        else
          var rec := PendingRecord(current.value, alt.value, random(|st.passwordRequests|));
          StoreRun(Done, StoreState(st.secrets[arn := PutValue(st.secrets[arn], token, rec, {Pending})],
                                    st.passwordRequests + [DefaultExcludeCharacters]))
  }

  const ShowGrantsQuery: string := "SHOW GRANTS FOR %s"

  function ShowGrants(user: string): Statement {
    Statement(ShowGrantsQuery, [user])
  }

  /** The probe testSecret runs. */
  const SelectNow: Statement := Statement("SELECT NOW()", [])

  /** The statement built from one grant row for the pending user. */
  function GrantStatement(row: string, user: string, password: string): Statement {
    Statement(GrantTemplate(row), [user, password])
  }

  /** The statements built from the grant rows, one per row, in order. */
  function GrantStatements(rows: seq<string>, user: string, password: string): seq<Statement> {
    seq(|rows|, i requires 0 <= i < |rows| => GrantStatement(rows[i], user, password))
  }

  function RanEach(stmts: seq<Statement>): seq<DbEvent> {
    seq(|stmts|, i requires 0 <= i < |stmts| => Ran(stmts[i]))
  }

  /** Running one more statement extends the events by one. */
  lemma RanEachExtend(stmts: seq<Statement>, i: nat)
    requires i < |stmts|
    ensures RanEach(stmts[..i + 1]) == RanEach(stmts[..i]) + [Ran(stmts[i])]
  {
    assert stmts[..i + 1] == stmts[..i] + [stmts[i]];
  }

  /** Running statements in order, stopping at the first one the server
      refuses. */
  function RunInOrder(stmts: seq<Statement>, succeeds: Statement -> bool): (r: SessionRun)
    ensures r.outcome == Done || r.outcome == Failed(StatementFailed)
    ensures |r.events| <= |stmts|
  {
    if stmts == [] then SessionRun(Done, [])
    else if !succeeds(stmts[0]) then SessionRun(Failed(StatementFailed), [Ran(stmts[0])])
    else After([Ran(stmts[0])], RunInOrder(stmts[1..], succeeds))
  }

  /** A run preceded by some events. */
  function After(events: seq<DbEvent>, run: SessionRun): SessionRun {
    SessionRun(run.outcome, events + run.events)
  }

  /** Statements that all succeed contribute their events and let the run
      go on with what follows them. */
  lemma {:induction false} RunInOrderSplit(a: seq<Statement>, b: seq<Statement>, succeeds: Statement -> bool)
    requires forall j :: 0 <= j < |a| ==> succeeds(a[j])
    ensures RunInOrder(a + b, succeeds) == After(RanEach(a), RunInOrder(b, succeeds))
    decreases |a|
  {
    var rest := RunInOrder(b, succeeds);
    if a == [] {
      assert a + b == b;
      assert RanEach(a) + rest.events == rest.events;
    } else {
      assert (a + b)[0] == a[0] && (a + b)[1..] == a[1..] + b;
      RunInOrderSplit(a[1..], b, succeeds);
      assert RanEach(a) == [Ran(a[0])] + RanEach(a[1..]);
      assert [Ran(a[0])] + (RanEach(a[1..]) + rest.events) == RanEach(a) + rest.events;
    }
  }

  /** The grant replication on the master connection: list the current
      user's grants, replay each one for the pending user, and commit once
      if all of them succeeded. */
  function GrantSession(server: Server, currentUser: string, user: string, password: string): SessionRun {
    var show := ShowGrants(currentUser);
    if !server.succeeds(show) then SessionRun(Failed(StatementFailed), [Ran(show)])
    else
      var run := RunInOrder(GrantStatements(server.grantsFor(currentUser), user, password), server.succeeds);
      if run.outcome.Done? then SessionRun(Done, [Ran(show)] + run.events + [Committed])
      else SessionRun(run.outcome, [Ran(show)] + run.events)
  }

  /** setSecret: fetch the current and the pending payload. */
  function SetSecretSpec(secrets: map<Arn, Secret>, server: Server, inventory: Inventory, arn: Arn, token: Token): SessionRun {
    var current := SecretDict(secrets, arn, Current, None);
    if current.Err? then SessionRun(Failed(current.error), []) else
    var pending := SecretDict(secrets, arn, Pending, Some(token));
    if pending.Err? then SessionRun(Failed(pending.error), []) else
    SetPayloadsSpec(secrets, server, inventory, current.value, pending.value)
  }

  /** setSecret with both payloads: a pending credential that already logs
      in means the step has been done. */
  function SetPayloadsSpec(secrets: map<Arn, Secret>, server: Server, inventory: Inventory,
                           current: Record, pending: Record): SessionRun
    requires HasCredentialFields(current) && HasCredentialFields(pending)
  {
    var pendingParams := ConnectionParams(pending);
    if pendingParams.Err? then SessionRun(Failed(pendingParams.error), []) else
    if server.accepts(pendingParams.value) then SessionRun(Done, [Opened(pendingParams.value), Closed])
    else SetPendingUserSpec(secrets, server, inventory, current, pending)
  }

  /** setSecret once the pending login has failed: the pending user must be
      the current user's alternate on the same host. */
  function SetPendingUserSpec(secrets: map<Arn, Secret>, server: Server, inventory: Inventory,
                              current: Record, pending: Record): SessionRun
    requires HasCredentialFields(current) && HasCredentialFields(pending)
  {
    var alt := AltUsername(current["username"]);
    if alt.Err? then SessionRun(Failed(alt.error), []) else
    if alt.value != pending["username"] then SessionRun(Failed(UserMismatch), []) else
    if current["host"] != pending["host"] then SessionRun(Failed(HostMismatch), []) else
    CurrentLoginSpec(secrets, server, inventory, current, pending)
  }

  /** The current credential must still log in before the master phase. */
  function CurrentLoginSpec(secrets: map<Arn, Secret>, server: Server, inventory: Inventory,
                            current: Record, pending: Record): SessionRun
    requires HasCredentialFields(current) && HasCredentialFields(pending)
  {
    var currentParams := ConnectionParams(current);
    if currentParams.Err? then SessionRun(Failed(currentParams.error), []) else
    if !server.accepts(currentParams.value) then SessionRun(Failed(CurrentLoginFailed), []) else
    var master := MasterGrantSpec(secrets, server, inventory, current, pending);
    SessionRun(master.outcome, [Opened(currentParams.value), Closed] + master.events)
  }

  /** setSecret's master phase: the master secret named by the current
      payload must be for the current host or for the database that host
      replicates. */
  function MasterGrantSpec(secrets: map<Arn, Secret>, server: Server, inventory: Inventory,
                           current: Record, pending: Record): SessionRun
    requires HasCredentialFields(current) && HasCredentialFields(pending)
  {
    if "masterarn" !in current then SessionRun(Failed(MissingKey("masterarn")), []) else
    var master := SecretDict(secrets, current["masterarn"], Current, None);
    if master.Err? then SessionRun(Failed(master.error), []) else
    if current["host"] != master.value["host"] && !IsRdsReplica(current["host"], master.value["host"], inventory)
    then SessionRun(Failed(UntrustedHost), []) else
    MasterSessionSpec(server, master.value, current["username"], pending["username"], pending["password"])
  }

  /** The master session: log in with the master credential, replay the
      grants on that connection, and close it on every path. */
  function MasterSessionSpec(server: Server, master: Record, currentUser: string, user: string, password: string): SessionRun {
    var masterParams := ConnectionParams(master);
    if masterParams.Err? then SessionRun(Failed(masterParams.error), []) else
    if !server.accepts(masterParams.value) then SessionRun(Failed(MasterLoginFailed), []) else
    var grants := GrantSession(server, currentUser, user, password);
    SessionRun(grants.outcome, [Opened(masterParams.value)] + grants.events + [Closed])
  }

  function TestSecretSpec(secrets: map<Arn, Secret>, server: Server, arn: Arn, token: Token): SessionRun {
    var pending := SecretDict(secrets, arn, Pending, Some(token));
    if pending.Err? then SessionRun(Failed(pending.error), []) else
    var params := ConnectionParams(pending.value);
    if params.Err? then SessionRun(Failed(params.error), []) else
    if !server.accepts(params.value) then SessionRun(Failed(PendingLoginFailed), []) else
    if !server.succeeds(SelectNow) then SessionRun(Failed(StatementFailed), [Opened(params.value), Ran(SelectNow), Closed])
    else SessionRun(Done, [Opened(params.value), Ran(SelectNow), Committed, Closed])
  }

  function FinishSecretSpec(st: StoreState, arn: Arn, token: Token): StoreRun {
    if arn !in st.secrets then StoreRun(Failed(ResourceNotFound), st)
    else
      var s := st.secrets[arn];
      var currentVersion := FirstWith(s.order, s.stages, Current);
      if currentVersion == Some(token) then StoreRun(Done, st)
      else
        var moved := MoveLabel(s, Current, token, currentVersion);
        if moved.Err? then StoreRun(Failed(moved.error), st)
        else StoreRun(Done, st.(secrets := st.secrets[arn := moved.value]))
  }

  /** One invocation: describe the secret, run the gate, dispatch the step. */
  function HandlerSpec(st: StoreState, random: nat -> string, server: Server, inventory: Inventory,
                       arn: Arn, token: Token, step: string): Effect
  {
    if arn !in st.secrets then Effect(Failed(ResourceNotFound), st, [])
    else match Decide(st.secrets[arn], token, step)
      case Reject(e) => Effect(Failed(e), st, [])
      case AlreadyCurrent => Effect(Done, st, [])
      case Dispatch(CreateSecret) =>
        var r := CreateSecretSpec(st, random, arn, token);
        Effect(r.outcome, r.state, [])
      case Dispatch(SetSecret) =>
        var r := SetSecretSpec(st.secrets, server, inventory, arn, token);
        Effect(r.outcome, st, r.events)
      case Dispatch(TestSecret) =>
        var r := TestSecretSpec(st.secrets, server, arn, token);
        Effect(r.outcome, st, r.events)
      case Dispatch(FinishSecret) =>
        var r := FinishSecretSpec(st, arn, token);
        Effect(r.outcome, r.state, [])
  }
}
