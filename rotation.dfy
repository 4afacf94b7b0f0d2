/** The rotation handler and its four steps, written as the handler runs
    them: one call to the store or the database after another. Each method
    is proved to have exactly the effect its function in RotationSpec gives. */
module Rotation {
  import opened Outcomes
  import opened Usernames
  import opened Credentials
  import opened Grants
  import opened Replica
  import opened Store
  import opened Sessions
  import opened RotationSpec
  import Gate

  /** Fetch a payload and validate it. */
  method GetSecretDict(svc: SecretsManager, arn: Arn, stage: Stage, token: Option<Token>) returns (r: Result<Record>)
    ensures r == SecretDict(svc.secrets, arn, stage, token)
  {
    var version := if token.Some? && token.value != "" then token else None;
    var secret := svc.GetSecretValue(arn, version, stage);
    if secret.Err? {
      return Err(secret.error);
    }
    r := ValidateSecretDict(secret.value);
  }

  method CreateSecret(svc: SecretsManager, arn: Arn, token: Token) returns (outcome: Outcome)
    requires svc.Valid()
    modifies svc
    ensures svc.Valid()
    ensures var r := CreateSecretSpec(old(svc.State()), svc.random, arn, token);
            outcome == r.outcome && svc.State() == r.state
  {
    var current := GetSecretDict(svc, arn, Current, None);
    if current.Err? {
      return Failed(current.error);
    }
    var currentDict := current.value;
    var pending := GetSecretDict(svc, arn, Pending, Some(token));
    if pending.Ok? {
      return Done;
    }
    if pending.error != ResourceNotFound {
      return Failed(pending.error);
    }
    var alt := AltUsername(currentDict["username"]);
    if alt.Err? {
      return Failed(alt.error);
    }
    currentDict := currentDict["username" := alt.value];
    var password := svc.GetRandomPassword(DefaultExcludeCharacters);
    currentDict := currentDict["password" := password];
    outcome := svc.PutSecretValue(arn, token, currentDict, {Pending});
  }

  /** Replay each grant row for the pending user, in order, stopping at the
      first statement the server refuses. */
  method ReplicateGrants(db: Database, rows: seq<string>, user: string, password: string) returns (ok: bool)
    modifies db`log
    ensures var run := RunInOrder(GrantStatements(rows, user, password), db.server.succeeds);
            ok == run.outcome.Done? && db.log == old(db.log) + run.events
  {
    ghost var stmts := GrantStatements(rows, user, password);
    var i := 0;
    while i < |rows|
      invariant 0 <= i <= |rows|
      invariant forall j :: 0 <= j < i ==> db.server.succeeds(stmts[j])
      invariant db.log == old(db.log) + RanEach(stmts[..i])
    {
      var clause := EscapePercent(PrivilegeClause(rows[i]));
      assert stmts[i] == Statement(clause + Retarget, [user, password]);
      var executed := db.Execute(Statement(clause + Retarget, [user, password]));
      RanEachExtend(stmts, i);
      if !executed {
        RunInOrderSplit(stmts[..i], stmts[i..], db.server.succeeds);
        assert stmts[..i] + stmts[i..] == stmts && stmts[i..][0] == stmts[i];
        return false;
      }
      i := i + 1;
    }
    RunInOrderSplit(stmts, [], db.server.succeeds);
    assert stmts + [] == stmts && stmts[..i] == stmts;
    ok := true;
  }

  method SetSecret(svc: SecretsManager, db: Database, inventory: Inventory, arn: Arn, token: Token) returns (outcome: Outcome)
    modifies db`log
    ensures var r := SetSecretSpec(svc.secrets, db.server, inventory, arn, token);
            outcome == r.outcome && db.log == old(db.log) + r.events
  {
    ghost var spec := SetSecretSpec(svc.secrets, db.server, inventory, arn, token);
    var current := GetSecretDict(svc, arn, Current, None);
    if current.Err? {
      assert spec == SessionRun(Failed(current.error), []);
      return Failed(current.error);
    }
    var pending := GetSecretDict(svc, arn, Pending, Some(token));
    if pending.Err? {
      assert spec == SessionRun(Failed(pending.error), []);
      return Failed(pending.error);
    }
    assert spec == SetPayloadsSpec(svc.secrets, db.server, inventory, current.value, pending.value);
    outcome := SetPayloads(svc, db, inventory, current.value, pending.value);
  }

  method SetPayloads(svc: SecretsManager, db: Database, inventory: Inventory,
                     currentDict: Record, pendingDict: Record) returns (outcome: Outcome)
    requires HasCredentialFields(currentDict) && HasCredentialFields(pendingDict)
    modifies db`log
    ensures var r := SetPayloadsSpec(svc.secrets, db.server, inventory, currentDict, pendingDict);
            outcome == r.outcome && db.log == old(db.log) + r.events
  {
    ghost var spec := SetPayloadsSpec(svc.secrets, db.server, inventory, currentDict, pendingDict);
    // An already-working pending credential means the step has been done.
    var pendingParams := ConnectionParams(pendingDict);
    if pendingParams.Err? {
      assert spec == SessionRun(Failed(pendingParams.error), []);
      return Failed(pendingParams.error);
    }
    var connected := db.Probe(pendingParams.value);
    if connected {
      assert spec == SessionRun(Done, [Opened(pendingParams.value), Closed]);
      return Done;
    }
    assert spec == SetPendingUserSpec(svc.secrets, db.server, inventory, currentDict, pendingDict);
    outcome := SetPendingUser(svc, db, inventory, currentDict, pendingDict);
  }

  method SetPendingUser(svc: SecretsManager, db: Database, inventory: Inventory,
                        currentDict: Record, pendingDict: Record) returns (outcome: Outcome)
    requires HasCredentialFields(currentDict) && HasCredentialFields(pendingDict)
    modifies db`log
    ensures var r := SetPendingUserSpec(svc.secrets, db.server, inventory, currentDict, pendingDict);
            outcome == r.outcome && db.log == old(db.log) + r.events
  {
    ghost var spec := SetPendingUserSpec(svc.secrets, db.server, inventory, currentDict, pendingDict);
    var alt := AltUsername(currentDict["username"]);
    if alt.Err? {
      assert spec == SessionRun(Failed(alt.error), []);
      return Failed(alt.error);
    }
    if alt.value != pendingDict["username"] {
      assert spec == SessionRun(Failed(UserMismatch), []);
      return Failed(UserMismatch);
    }
    if currentDict["host"] != pendingDict["host"] {
      assert spec == SessionRun(Failed(HostMismatch), []);
      return Failed(HostMismatch);
    }
    assert spec == CurrentLoginSpec(svc.secrets, db.server, inventory, currentDict, pendingDict);
    outcome := CurrentLogin(svc, db, inventory, currentDict, pendingDict);
  }

  method CurrentLogin(svc: SecretsManager, db: Database, inventory: Inventory,
                      currentDict: Record, pendingDict: Record) returns (outcome: Outcome)
    requires HasCredentialFields(currentDict) && HasCredentialFields(pendingDict)
    modifies db`log
    ensures var r := CurrentLoginSpec(svc.secrets, db.server, inventory, currentDict, pendingDict);
            outcome == r.outcome && db.log == old(db.log) + r.events
  {
    // The current credential must still log in before it is trusted.
    var currentParams := ConnectionParams(currentDict);
    if currentParams.Err? {
      return Failed(currentParams.error);
    }
    var connected := db.Probe(currentParams.value);
    if !connected {
      return Failed(CurrentLoginFailed);
    }
    ghost var afterLogin := db.log;
    outcome := GrantAsMaster(svc, db, inventory, currentDict, pendingDict);
    ghost var master := MasterGrantSpec(svc.secrets, db.server, inventory, currentDict, pendingDict);
    assert db.log == old(db.log) + ([Opened(currentParams.value), Closed] + master.events) by {
      assert afterLogin == old(db.log) + [Opened(currentParams.value), Closed];
      assert db.log == afterLogin + master.events;
    }
  }

  method GrantAsMaster(svc: SecretsManager, db: Database, inventory: Inventory,
                       currentDict: Record, pendingDict: Record) returns (outcome: Outcome)
    requires HasCredentialFields(currentDict) && HasCredentialFields(pendingDict)
    modifies db`log
    ensures var r := MasterGrantSpec(svc.secrets, db.server, inventory, currentDict, pendingDict);
            outcome == r.outcome && db.log == old(db.log) + r.events
  {
    ghost var spec := MasterGrantSpec(svc.secrets, db.server, inventory, currentDict, pendingDict);
    if "masterarn" !in currentDict {
      assert spec == SessionRun(Failed(MissingKey("masterarn")), []);
      return Failed(MissingKey("masterarn"));
    }
    var master := GetSecretDict(svc, currentDict["masterarn"], Current, None);
    if master.Err? {
      assert spec == SessionRun(Failed(master.error), []);
      return Failed(master.error);
    }
    var masterDict := master.value;
    if currentDict["host"] != masterDict["host"] && !IsRdsReplica(currentDict["host"], masterDict["host"], inventory) {
      assert spec == SessionRun(Failed(UntrustedHost), []);
      return Failed(UntrustedHost);
    }
    assert spec == MasterSessionSpec(db.server, masterDict, currentDict["username"], pendingDict["username"], pendingDict["password"]);
    outcome := MasterSession(db, masterDict, currentDict["username"], pendingDict["username"], pendingDict["password"]);
  }

  method MasterSession(db: Database, masterDict: Record, currentUser: string, user: string, password: string)
    returns (outcome: Outcome)
    modifies db`log
    ensures var r := MasterSessionSpec(db.server, masterDict, currentUser, user, password);
            outcome == r.outcome && db.log == old(db.log) + r.events
  {
    var masterParams := ConnectionParams(masterDict);
    if masterParams.Err? {
      return Failed(masterParams.error);
    }
    var connected := db.Connect(masterParams.value);
    if !connected {
      return Failed(MasterLoginFailed);
    }
    // The master connection is closed on every path from here.
    outcome := ReplayGrants(db, currentUser, user, password);
    db.Close();
  }

  /** On the master connection: list the current user's grants, replay them
      for the pending user and commit once if all of them went through. */
  method ReplayGrants(db: Database, currentUser: string, user: string, password: string) returns (outcome: Outcome)
    modifies db`log
    ensures var r := GrantSession(db.server, currentUser, user, password);
            outcome == r.outcome && db.log == old(db.log) + r.events
  {
    var listed := db.Execute(ShowGrants(currentUser));
    if !listed {
      return Failed(StatementFailed);
    }
    var rows := db.FetchGrants(currentUser);
    ghost var before := db.log;
    var replicated := ReplicateGrants(db, rows, user, password);
    ghost var run := RunInOrder(GrantStatements(rows, user, password), db.server.succeeds);
    assert before == old(db.log) + [Ran(ShowGrants(currentUser))];
    if replicated {
      db.Commit();
      assert db.log == old(db.log) + ([Ran(ShowGrants(currentUser))] + run.events + [Committed]);
      outcome := Done;
    } else {
      assert db.log == old(db.log) + ([Ran(ShowGrants(currentUser))] + run.events);
      outcome := Failed(StatementFailed);
    }
  }

  method TestSecret(svc: SecretsManager, db: Database, arn: Arn, token: Token) returns (outcome: Outcome)
    modifies db`log
    ensures var r := TestSecretSpec(svc.secrets, db.server, arn, token);
            outcome == r.outcome && db.log == old(db.log) + r.events
  {
    var pending := GetSecretDict(svc, arn, Pending, Some(token));
    if pending.Err? {
      return Failed(pending.error);
    }
    var params := ConnectionParams(pending.value);
    if params.Err? {
      return Failed(params.error);
    }
    var connected := db.Connect(params.value);
    if !connected {
      return Failed(PendingLoginFailed);
    }
    var probed := db.Execute(SelectNow);
    if probed {
      db.Commit();
      outcome := Done;
    } else {
      outcome := Failed(StatementFailed);
    }
    db.Close();
  }

  method FinishSecret(svc: SecretsManager, arn: Arn, token: Token) returns (outcome: Outcome)
    requires svc.Valid()
    modifies svc`secrets
    ensures svc.Valid()
    ensures var r := FinishSecretSpec(old(svc.State()), arn, token);
            outcome == r.outcome && svc.State() == r.state
  {
    var metadata := svc.DescribeSecret(arn);
    if metadata.Err? {
      return Failed(metadata.error);
    }
    var versions := metadata.value;
    var currentVersion: Option<Token> := None;
    var i := 0;
    while i < |versions.order|
      invariant 0 <= i <= |versions.order|
      invariant forall j :: 0 <= j < i ==> !Holds(versions.stages, versions.order[j], Current)
      invariant currentVersion == None
    {
      var version := versions.order[i];
      assert version in versions.stages;
      if Current in versions.stages[version] {
        assert FirstIndexWith(versions.order, versions.stages, Current) == i;
        if version == token {
          return Done;
        }
        currentVersion := Some(version);
        break;
      }
      i := i + 1;
    }
    outcome := svc.UpdateSecretVersionStage(arn, Current, token, currentVersion);
  }

  /** The handler: describe the secret, run the stage-label gate, and
      dispatch to the requested step. */
  method LambdaHandler(svc: SecretsManager, db: Database, inventory: Inventory,
                       arn: Arn, token: Token, step: string) returns (outcome: Outcome)
    requires svc.Valid()
    modifies svc, db`log
    ensures svc.Valid()
    ensures var e := HandlerSpec(old(svc.State()), svc.random, db.server, inventory, arn, token, step);
            outcome == e.outcome && svc.State() == e.state && db.log == old(db.log) + e.events
  {
    var metadata := svc.DescribeSecret(arn);
    if metadata.Err? {
      return Failed(metadata.error);
    }
    match Gate.Decide(metadata.value, token, step)
    case Reject(e) =>
      outcome := Failed(e);
    case AlreadyCurrent =>
      outcome := Done;
    case Dispatch(s) =>
      match s
      case CreateSecret =>
        outcome := CreateSecret(svc, arn, token);
      case SetSecret =>
        outcome := SetSecret(svc, db, inventory, arn, token);
      case TestSecret =>
        outcome := TestSecret(svc, db, arn, token);
      case FinishSecret =>
        outcome := FinishSecret(svc, arn, token);
  }
}
