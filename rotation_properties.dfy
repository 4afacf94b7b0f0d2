/** What the rotation steps guarantee, proved about the functions of
    RotationSpec that the methods of Rotation are proved to implement. */
module RotationProperties {
  import opened Outcomes
  import opened Usernames
  import opened Credentials
  import opened Grants
  import opened Replica
  import opened Store
  import opened Sessions
  import opened Gate
  import opened RotationSpec

  // ---------------------------------------------------------------------
  // Grant replication

  /** The position of the first statement the server refuses, or `|stmts|`:
      an independent description of where the replication loop stops. */
  function FirstFailure(stmts: seq<Statement>, succeeds: Statement -> bool): (k: nat)
    ensures k <= |stmts|
    ensures forall i :: 0 <= i < k ==> succeeds(stmts[i])
    ensures k < |stmts| ==> !succeeds(stmts[k])
  {
    if stmts == [] then 0
    else if !succeeds(stmts[0]) then 0
    else 1 + FirstFailure(stmts[1..], succeeds)
  }

  /** The loop runs every statement up to and including the first refused
      one, and no statement after it; it succeeds exactly when none is
      refused. */
  lemma {:induction false} RunInOrderStopsAtFirstFailure(stmts: seq<Statement>, succeeds: Statement -> bool)
    ensures var k := FirstFailure(stmts, succeeds);
            RunInOrder(stmts, succeeds)
            == if k < |stmts| then SessionRun(Failed(StatementFailed), RanEach(stmts[..k + 1]))
               else SessionRun(Done, RanEach(stmts))
    decreases |stmts|
  {
    if stmts != [] && succeeds(stmts[0]) {
      var tail := stmts[1..];
      RunInOrderStopsAtFirstFailure(tail, succeeds);
      var k := FirstFailure(tail, succeeds);
      var rest := RunInOrder(tail, succeeds);
      assert RunInOrder(stmts, succeeds) == After([Ran(stmts[0])], rest);
      if k < |tail| {
        assert stmts[..k + 2] == [stmts[0]] + tail[..k + 1];
        assert RanEach(stmts[..k + 2]) == [Ran(stmts[0])] + RanEach(tail[..k + 1]);
      } else {
        assert stmts == [stmts[0]] + tail;
        assert RanEach(stmts) == [Ran(stmts[0])] + RanEach(tail);
      }
    } else if stmts != [] {
      assert stmts[..1] == [stmts[0]];
      assert RanEach(stmts[..1]) == [Ran(stmts[0])];
    }
  }

  /** A completed replication ran every statement, each accepted. */
  lemma RunInOrderDone(stmts: seq<Statement>, succeeds: Statement -> bool)
    requires RunInOrder(stmts, succeeds).outcome == Done
    ensures RunInOrder(stmts, succeeds).events == RanEach(stmts)
    ensures forall i :: 0 <= i < |stmts| ==> succeeds(stmts[i])
  {
    RunInOrderStopsAtFirstFailure(stmts, succeeds);
  }

  /** The replication only ever submits statements: it neither opens,
      commits nor closes a connection. */
  lemma {:induction false} RunInOrderPlain(stmts: seq<Statement>, succeeds: Statement -> bool)
    ensures Plain(RunInOrder(stmts, succeeds).events)
    decreases |stmts|
  {
    if stmts != [] && succeeds(stmts[0]) {
      RunInOrderPlain(stmts[1..], succeeds);
    }
  }

  /** The statement run for grant row `i` is the row's privilege clause,
      escaped, retargeted to the pending user; once formatted with the
      user and password it reads `clause TO user IDENTIFIED BY password`. */
  lemma GrantStatementsRetarget(rows: seq<string>, user: string, password: string, i: nat)
    requires i < |rows|
    ensures |GrantStatements(rows, user, password)| == |rows|
    ensures var s := GrantStatements(rows, user, password)[i];
            s.query == EscapePercent(PrivilegeClause(rows[i])) + Retarget && s.args == [user, password]
            && Format(s.query, s.args) == Some(PrivilegeClause(rows[i]) + GrantSeparator + user + IdentifiedBy + password)
  {
    GrantTemplateRenders(rows[i], user, password);
  }

  /** The master session: it lists the grants, and commits exactly when every
      grant statement went through, after the last of them. */
  lemma GrantSessionCommitsOnce(server: Server, currentUser: string, user: string, password: string)
    ensures var g := GrantSession(server, currentUser, user, password);
            var stmts := GrantStatements(server.grantsFor(currentUser), user, password);
            && Plain(g.events)
            && g.events != [] && g.events[0] == Ran(ShowGrants(currentUser))
            && (g.outcome == Done <==> server.succeeds(ShowGrants(currentUser))
                                       && forall i :: 0 <= i < |stmts| ==> server.succeeds(stmts[i]))
            && (g.outcome == Done ==> g.events == [Ran(ShowGrants(currentUser))] + RanEach(stmts) + [Committed])
            && (g.outcome != Done ==> Committed !in g.events)
  {
    var stmts := GrantStatements(server.grantsFor(currentUser), user, password);
    var show := ShowGrants(currentUser);
    var g := GrantSession(server, currentUser, user, password);
    if server.succeeds(show) {
      var run := RunInOrder(stmts, server.succeeds);
      RunInOrderPlain(stmts, server.succeeds);
      RunInOrderStopsAtFirstFailure(stmts, server.succeeds);
      if run.outcome == Done {
        assert g.events == [Ran(show)] + run.events + [Committed];
        assert forall i :: 0 <= i < |g.events| ==> g.events[i].Ran? || g.events[i].Committed?;
      } else {
        assert g.events == [Ran(show)] + run.events;
        assert forall i :: 0 <= i < |g.events| ==> g.events[i].Ran?;
        var k := FirstFailure(stmts, server.succeeds);
        assert k < |stmts| && !server.succeeds(stmts[k]);
      }
    }
  }

  // ---------------------------------------------------------------------
  // finishSecret

  /** finishSecret succeeds exactly when the token is a version of the
      secret. Then the token holds AWSCURRENT, the first version that held
      it before (if another) no longer does, and no other label, version,
      payload or secret changes; on failure nothing changes. */
  lemma FinishSecretMovesCurrent(st: StoreState, arn: Arn, token: Token)
    requires arn in st.secrets
    ensures var r := FinishSecretSpec(st, arn, token);
            var s := st.secrets[arn];
            var previous := FirstWith(s.order, s.stages, Current);
            && (r.outcome == Done <==> token in s.stages)
            && (r.outcome != Done ==> r.state == st)
            && r.state.passwordRequests == st.passwordRequests
            && r.state.secrets.Keys == st.secrets.Keys
            && (forall a :: a in st.secrets && a != arn ==> r.state.secrets[a] == st.secrets[a])
            && (r.outcome == Done ==>
                  var after := r.state.secrets[arn];
                  && after.order == s.order && after.values == s.values
                  && after.rotationEnabled == s.rotationEnabled && after.stages.Keys == s.stages.Keys
                  && Holds(after.stages, token, Current)
                  && (previous.Some? && previous.value != token ==> !Holds(after.stages, previous.value, Current))
                  && (forall t :: t != token && previous != Some(t) ==>
                                    (Holds(after.stages, t, Current) <==> Holds(s.stages, t, Current)))
                  && (forall t :: t in s.stages ==> after.stages[t] - {Current} == s.stages[t] - {Current}))
  {
    var s := st.secrets[arn];
    var previous := FirstWith(s.order, s.stages, Current);
    if previous == Some(token) {
      assert token in s.stages;
    }
  }

  /** With the store's invariant that at most one version is current,
      finishSecret leaves the token as the one current version. */
  lemma FinishSecretKeepsOneCurrent(st: StoreState, arn: Arn, token: Token)
    requires arn in st.secrets && token in st.secrets[arn].stages
    requires st.secrets[arn].WellFormed() && Unique(st.secrets[arn].stages, Current)
    ensures var r := FinishSecretSpec(st, arn, token);
            && r.outcome == Done
            && r.state.secrets[arn].WellFormed()
            && Unique(r.state.secrets[arn].stages, Current)
            && forall t :: Holds(r.state.secrets[arn].stages, t, Current) <==> t == token
  {
    FinishSecretMovesCurrent(st, arn, token);
    var s := st.secrets[arn];
    var after := FinishSecretSpec(st, arn, token).state.secrets[arn];
    forall t | Holds(after.stages, t, Current)
      ensures t == token
    {
      if t != token && Holds(s.stages, t, Current) {
        FirstWithUnique(s, Current, t);
      }
    }
  }

  /** finishSecret can be re-run: once it has succeeded, running it again
      for the same token changes nothing. */
  lemma FinishSecretIdempotent(st: StoreState, arn: Arn, token: Token)
    requires arn in st.secrets && token in st.secrets[arn].stages
    requires st.secrets[arn].WellFormed() && Unique(st.secrets[arn].stages, Current)
    ensures var r := FinishSecretSpec(st, arn, token);
            FinishSecretSpec(r.state, arn, token) == StoreRun(Done, r.state)
  {
    FinishSecretKeepsOneCurrent(st, arn, token);
    var r := FinishSecretSpec(st, arn, token);
    FirstWithUnique(r.state.secrets[arn], Current, token);
  }

  // ---------------------------------------------------------------------
  // createSecret

  /** Labelling versions so that every version of `order` keeps its standing
      for `stage`, and appending versions that do not carry it, leaves the
      first version carrying `stage` where it was. */
  lemma FirstWithUnaffected(order: seq<Token>, extra: seq<Token>, stages: map<Token, set<Stage>>,
                            stages2: map<Token, set<Stage>>, stage: Stage)
    requires forall t :: t in order ==> (Holds(stages2, t, stage) <==> Holds(stages, t, stage))
    requires forall t :: t in extra ==> !Holds(stages2, t, stage)
    ensures FirstWith(order + extra, stages2, stage) == FirstWith(order, stages, stage)
  {
    var all := order + extra;
    assert forall i :: 0 <= i < |order| ==> all[i] == order[i];
    var k := FirstIndexWith(order, stages, stage);
    var k2 := FirstIndexWith(all, stages2, stage);
  }

  /** If a pending payload is already stored at the token, createSecret
      writes nothing and asks for no password. */
  lemma CreateSecretKeepsExistingPending(st: StoreState, random: nat -> string, arn: Arn, token: Token)
    requires SecretDict(st.secrets, arn, Current, None).Ok?
    requires SecretDict(st.secrets, arn, Pending, Some(token)).Ok?
    ensures CreateSecretSpec(st, random, arn, token) == StoreRun(Done, st)
  {
  }

  /** Whenever createSecret fails, the store is as it was and no password
      was requested. */
  lemma CreateSecretFailureChangesNothing(st: StoreState, random: nat -> string, arn: Arn, token: Token)
    ensures var r := CreateSecretSpec(st, random, arn, token);
            r.outcome.Failed? ==> r.state == st
    ensures var current := SecretDict(st.secrets, arn, Current, None);
            current.Ok? && AltUsername(current.value["username"]).Err?
            && SecretDict(st.secrets, arn, Pending, Some(token)) == Err(ResourceNotFound)
            ==> CreateSecretSpec(st, random, arn, token) == StoreRun(Failed(UsernameTooLong), st)
  {
  }

  /** When no pending payload exists at the token, createSecret stores one
      at that token: the current payload with the alternate user name and a
      freshly generated password, every other key unchanged. The token gains
      the AWSPENDING label and no other, and is listed if it was not. One
      password is requested; no other version and no other secret changes. */
  lemma CreateSecretStoresDerivedPayload(st: StoreState, random: nat -> string, arn: Arn, token: Token)
    requires SecretDict(st.secrets, arn, Current, None).Ok?
    requires SecretDict(st.secrets, arn, Pending, Some(token)) == Err(ResourceNotFound)
    requires AltUsername(SecretDict(st.secrets, arn, Current, None).value["username"]).Ok?
    ensures var current := SecretDict(st.secrets, arn, Current, None).value;
            var r := CreateSecretSpec(st, random, arn, token);
            var before := st.secrets[arn];
            var after := r.state.secrets[arn];
            var stored := after.values[token];
            && r.outcome == Done
            && r.state.passwordRequests == st.passwordRequests + [DefaultExcludeCharacters]
            && r.state.secrets.Keys == st.secrets.Keys
            && (forall a :: a in st.secrets && a != arn ==> r.state.secrets[a] == st.secrets[a])
            && stored.Keys == current.Keys
            && stored["username"] == AltUsername(current["username"]).value
            && stored["password"] == random(|st.passwordRequests|)
            && (forall k :: k in current && k != "username" && k != "password" ==> stored[k] == current[k])
            && Holds(after.stages, token, Pending)
            && after.stages[token] == (if token in before.stages then before.stages[token] else {}) + {Pending}
            && after.values.Keys == before.values.Keys + {token}
            && after.order == before.order + (if token in before.stages then [] else [token])
            && (forall t :: t in before.values && t != token ==> t in after.values && after.values[t] == before.values[t])
            && (forall t :: t in after.stages && t != token ==> t in before.stages && after.stages[t] == before.stages[t])
            && after.rotationEnabled == before.rotationEnabled
  {
  }

  /** createSecret can be re-run: once it has succeeded for a (non-empty)
      token, running it again changes nothing and requests no password. */
  lemma CreateSecretIdempotent(st: StoreState, random: nat -> string, arn: Arn, token: Token)
    requires token != ""
    requires arn in st.secrets && st.secrets[arn].WellFormed()
    requires CreateSecretSpec(st, random, arn, token).outcome == Done
    ensures var r := CreateSecretSpec(st, random, arn, token);
            CreateSecretSpec(r.state, random, arn, token) == StoreRun(Done, r.state)
  {
    var r := CreateSecretSpec(st, random, arn, token);
    var current := SecretDict(st.secrets, arn, Current, None);
    if SecretDict(st.secrets, arn, Pending, Some(token)).Err? {
      var s := st.secrets[arn];
      var after := r.state.secrets[arn];
      var rec := after.values[token];
      // The payload just stored passes validation, so the pending fetch succeeds.
      assert "engine" != "username" && "engine" != "password";
      assert ValidateSecretDict(rec).Ok?;
      assert SecretDict(r.state.secrets, arn, Pending, Some(token)).Ok?;
      // The current fetch finds the same version as before.
      var extra := if token in s.stages then [] else [token];
      assert after.order == s.order + extra;
      forall t | t in s.order
        ensures Holds(after.stages, t, Current) <==> Holds(s.stages, t, Current)
      {
        assert t in s.stages;
      }
      FirstWithUnaffected(s.order, extra, s.stages, after.stages, Current);
      var v := FirstWith(s.order, s.stages, Current);
      assert v.Some? && v.value in s.values;
      if v.value == token {
        assert SecretDict(r.state.secrets, arn, Current, None) == Ok(rec);
      } else {
        assert after.values[v.value] == s.values[v.value];
        assert SecretDict(r.state.secrets, arn, Current, None) == current;
      }
    }
  }

  // ---------------------------------------------------------------------
  // setSecret

  /** Every check setSecret makes before it touches the pending user: both
      payloads validate, the pending credential does not log in yet, the
      pending user is the current user's alternate on the same host, the
      current credential logs in, and the master secret validates, is for
      the current host or for the database it replicates, and logs in. */
  ghost predicate ChecksPass(secrets: map<Arn, Secret>, server: Server, inventory: Inventory, arn: Arn, token: Token) {
    var current := SecretDict(secrets, arn, Current, None);
    var pending := SecretDict(secrets, arn, Pending, Some(token));
    && current.Ok? && pending.Ok?
    && PayloadChecksPass(server, current.value, pending.value)
    && "masterarn" in current.value
    && MasterChecksPass(secrets, server, inventory, current.value)
  }

  /** The checks on the two payloads, made before the master secret is read. */
  ghost predicate PayloadChecksPass(server: Server, current: Record, pending: Record)
    requires HasCredentialFields(current) && HasCredentialFields(pending)
  {
    && ConnectionParams(pending).Ok? && !server.accepts(ConnectionParams(pending).value)
    && AltUsername(current["username"]) == Ok(pending["username"])
    && current["host"] == pending["host"]
    && ConnectionParams(current).Ok? && server.accepts(ConnectionParams(current).value)
  }

  /** The checks on the master secret named by a current payload. */
  ghost predicate MasterChecksPass(secrets: map<Arn, Secret>, server: Server, inventory: Inventory, current: Record)
    requires HasCredentialFields(current) && "masterarn" in current
  {
    var master := SecretDict(secrets, current["masterarn"], Current, None);
    && master.Ok?
    && (current["host"] == master.value["host"] || IsRdsReplica(current["host"], master.value["host"], inventory))
    && ConnectionParams(master.value).Ok? && server.accepts(ConnectionParams(master.value).value)
  }

  /** The checks on the payloads, in order: a pending credential that logs
      in ends the step at once; otherwise the first check that fails decides
      the error, and nothing but the current login touches the database. */
  lemma SetSecretPayloadGuards(secrets: map<Arn, Secret>, server: Server, inventory: Inventory, arn: Arn, token: Token)
    requires SecretDict(secrets, arn, Current, None).Ok? && SecretDict(secrets, arn, Pending, Some(token)).Ok?
    ensures var c := SecretDict(secrets, arn, Current, None).value;
            var p := SecretDict(secrets, arn, Pending, Some(token)).value;
            var pp := ConnectionParams(p);
            var alt := AltUsername(c["username"]);
            var cp := ConnectionParams(c);
            var r := SetSecretSpec(secrets, server, inventory, arn, token);
            && (pp.Err? ==> r == SessionRun(Failed(pp.error), []))
            && (pp.Ok? && server.accepts(pp.value) ==> r == SessionRun(Done, [Opened(pp.value), Closed]))
            && (pp.Ok? && !server.accepts(pp.value) ==>
                  && (alt.Err? ==> r == SessionRun(Failed(UsernameTooLong), []))
                  && (alt.Ok? && alt.value != p["username"] ==> r == SessionRun(Failed(UserMismatch), []))
                  && (alt == Ok(p["username"]) && c["host"] != p["host"] ==> r == SessionRun(Failed(HostMismatch), []))
                  && (alt == Ok(p["username"]) && c["host"] == p["host"] && cp.Err? ==> r == SessionRun(Failed(cp.error), []))
                  && ((alt == Ok(p["username"]) && c["host"] == p["host"] && cp.Ok? && !server.accepts(cp.value))
                      ==> r == SessionRun(Failed(CurrentLoginFailed), [])))
  {
  }

  /** The checks on the master secret, in order, once the payload checks have
      passed: each failure is reported after the current credential's
      connection has been opened and closed, and when none fails every check
      of setSecret has passed. */
  lemma SetSecretMasterGuards(secrets: map<Arn, Secret>, server: Server, inventory: Inventory, arn: Arn, token: Token)
    requires SecretDict(secrets, arn, Current, None).Ok? && SecretDict(secrets, arn, Pending, Some(token)).Ok?
    requires PayloadChecksPass(server, SecretDict(secrets, arn, Current, None).value, SecretDict(secrets, arn, Pending, Some(token)).value)
    ensures var c := SecretDict(secrets, arn, Current, None).value;
            var login := [Opened(ConnectionParams(c).value), Closed];
            var r := SetSecretSpec(secrets, server, inventory, arn, token);
            && ("masterarn" !in c ==> r == SessionRun(Failed(MissingKey("masterarn")), login))
            && ("masterarn" in c ==>
                  var m := SecretDict(secrets, c["masterarn"], Current, None);
                  && (m.Err? ==> r == SessionRun(Failed(m.error), login))
                  && ((m.Ok? && c["host"] != m.value["host"] && !IsRdsReplica(c["host"], m.value["host"], inventory))
                      ==> r == SessionRun(Failed(UntrustedHost), login))
                  && ((m.Ok? && (c["host"] == m.value["host"] || IsRdsReplica(c["host"], m.value["host"], inventory))
                       && ConnectionParams(m.value).Ok? && !server.accepts(ConnectionParams(m.value).value))
                      ==> r == SessionRun(Failed(MasterLoginFailed), login))
                  && (MasterChecksPass(secrets, server, inventory, c) ==> ChecksPass(secrets, server, inventory, arn, token)))
  {
    var c := SecretDict(secrets, arn, Current, None).value;
    var p := SecretDict(secrets, arn, Pending, Some(token)).value;
    var login := [Opened(ConnectionParams(c).value), Closed];
    var master := MasterGrantSpec(secrets, server, inventory, c, p);
    assert SetSecretSpec(secrets, server, inventory, arn, token) == SessionRun(master.outcome, login + master.events);
    if master.events == [] {
      assert login + master.events == login;
    }
  }

  /** The master session opens one connection and closes it on every path. */
  lemma MasterSessionBracketed(server: Server, master: Record, currentUser: string, user: string, password: string)
    ensures Bracketed(MasterSessionSpec(server, master, currentUser, user, password).events)
  {
    var masterParams := ConnectionParams(master);
    if masterParams.Ok? && server.accepts(masterParams.value) {
      GrantSessionCommitsOnce(server, currentUser, user, password);
      SessionBracketed(masterParams.value, GrantSession(server, currentUser, user, password).events);
    }
  }

  /** setSecret closes every connection it opens, whichever check fails. */
  lemma SetSecretClosesEveryConnection(secrets: map<Arn, Secret>, server: Server, inventory: Inventory, arn: Arn, token: Token)
    ensures Bracketed(SetSecretSpec(secrets, server, inventory, arn, token).events)
  {
    var current := SecretDict(secrets, arn, Current, None);
    var pending := SecretDict(secrets, arn, Pending, Some(token));
    if current.Ok? && pending.Ok? {
      var c := current.value;
      var p := pending.value;
      var pendingParams := ConnectionParams(p);
      if pendingParams.Ok? && server.accepts(pendingParams.value) {
        SessionBracketed(pendingParams.value, []);
        assert [Opened(pendingParams.value)] + [] + [Closed] == [Opened(pendingParams.value), Closed];
      } else if pendingParams.Ok? && AltUsername(c["username"]) == Ok(p["username"]) && c["host"] == p["host"] {
        var currentParams := ConnectionParams(c);
        if currentParams.Ok? && server.accepts(currentParams.value) {
          var master := MasterGrantSpec(secrets, server, inventory, c, p);
          if "masterarn" in c && SecretDict(secrets, c["masterarn"], Current, None).Ok? {
            MasterSessionBracketed(server, SecretDict(secrets, c["masterarn"], Current, None).value,
                                   c["username"], p["username"], p["password"]);
          }
          assert Bracketed(master.events);
          SessionBracketed(currentParams.value, []);
          assert [Opened(currentParams.value)] + [] + [Closed] == [Opened(currentParams.value), Closed];
          BracketedConcat([Opened(currentParams.value), Closed], master.events);
        }
      }
    }
  }

  /** setSecret submits a statement only once every check has passed. */
  lemma SetSecretGrantsOnlyAfterChecks(secrets: map<Arn, Secret>, server: Server, inventory: Inventory, arn: Arn, token: Token)
    ensures var r := SetSecretSpec(secrets, server, inventory, arn, token);
            (exists i :: 0 <= i < |r.events| && r.events[i].Ran?) ==> ChecksPass(secrets, server, inventory, arn, token)
  {
    var r := SetSecretSpec(secrets, server, inventory, arn, token);
    if !ChecksPass(secrets, server, inventory, arn, token) {
      var current := SecretDict(secrets, arn, Current, None);
      var pending := SecretDict(secrets, arn, Pending, Some(token));
      if current.Ok? && pending.Ok? {
        var c := current.value;
        var p := pending.value;
        var currentParams := ConnectionParams(c);
        if ConnectionParams(p).Ok? && !server.accepts(ConnectionParams(p).value)
           && AltUsername(c["username"]) == Ok(p["username"]) && c["host"] == p["host"]
           && currentParams.Ok? && server.accepts(currentParams.value)
        {
          assert r.events == [Opened(currentParams.value), Closed] + MasterGrantSpec(secrets, server, inventory, c, p).events;
        }
      }
      assert forall i :: 0 <= i < |r.events| ==> !r.events[i].Ran?;
    }
  }

  /** Once every check has passed, setSecret's log is the current login,
      the master login, the grant session and the close of the master
      connection, and its outcome is the grant session's. */
  lemma SetSecretReachesGrantSession(secrets: map<Arn, Secret>, server: Server, inventory: Inventory, arn: Arn, token: Token)
    requires ChecksPass(secrets, server, inventory, arn, token)
    ensures var c := SecretDict(secrets, arn, Current, None).value;
            var p := SecretDict(secrets, arn, Pending, Some(token)).value;
            var m := SecretDict(secrets, c["masterarn"], Current, None).value;
            var g := GrantSession(server, c["username"], p["username"], p["password"]);
            SetSecretSpec(secrets, server, inventory, arn, token)
              == SessionRun(g.outcome, [Opened(ConnectionParams(c).value), Closed, Opened(ConnectionParams(m).value)]
                                       + g.events + [Closed])
  {
    var c := SecretDict(secrets, arn, Current, None).value;
    var p := SecretDict(secrets, arn, Pending, Some(token)).value;
    var m := SecretDict(secrets, c["masterarn"], Current, None).value;
    var g := GrantSession(server, c["username"], p["username"], p["password"]);
    var cp := ConnectionParams(c).value;
    var mp := ConnectionParams(m).value;
    assert SetSecretSpec(secrets, server, inventory, arn, token) == CurrentLoginSpec(secrets, server, inventory, c, p);
    CurrentLoginReachesGrantSession(secrets, server, inventory, c, p);
  }

  /** The current-login phase of setSecret once the payloads and the master
      secret have passed their checks. */
  lemma CurrentLoginReachesGrantSession(secrets: map<Arn, Secret>, server: Server, inventory: Inventory,
                                        c: Record, p: Record)
    requires HasCredentialFields(c) && HasCredentialFields(p) && "masterarn" in c
    requires PayloadChecksPass(server, c, p) && MasterChecksPass(secrets, server, inventory, c)
    ensures var m := SecretDict(secrets, c["masterarn"], Current, None).value;
            var g := GrantSession(server, c["username"], p["username"], p["password"]);
            CurrentLoginSpec(secrets, server, inventory, c, p)
              == SessionRun(g.outcome, [Opened(ConnectionParams(c).value), Closed, Opened(ConnectionParams(m).value)]
                                       + g.events + [Closed])
  {
    var m := SecretDict(secrets, c["masterarn"], Current, None).value;
    var g := GrantSession(server, c["username"], p["username"], p["password"]);
    var cp := ConnectionParams(c).value;
    var mp := ConnectionParams(m).value;
    MasterGrantReachesGrantSession(secrets, server, inventory, c, p);
    assert [Opened(cp), Closed] + ([Opened(mp)] + g.events + [Closed])
        == [Opened(cp), Closed, Opened(mp)] + g.events + [Closed];
  }

  /** The master phase of setSecret once the master secret has passed its
      checks: one master connection around the grant session. */
  lemma MasterGrantReachesGrantSession(secrets: map<Arn, Secret>, server: Server, inventory: Inventory,
                                       c: Record, p: Record)
    requires HasCredentialFields(c) && HasCredentialFields(p) && "masterarn" in c
    requires MasterChecksPass(secrets, server, inventory, c)
    ensures var m := SecretDict(secrets, c["masterarn"], Current, None).value;
            var g := GrantSession(server, c["username"], p["username"], p["password"]);
            MasterGrantSpec(secrets, server, inventory, c, p)
              == SessionRun(g.outcome, [Opened(ConnectionParams(m).value)] + g.events + [Closed])
  {
    var m := SecretDict(secrets, c["masterarn"], Current, None).value;
    assert MasterGrantSpec(secrets, server, inventory, c, p) == MasterSessionSpec(server, m, c["username"], p["username"], p["password"]);
  }

  /** A grant session run inside a connection that was opened after events
      holding no commit: the whole log commits exactly when the session did. */
  lemma GrantSessionWithin(server: Server, currentUser: string, user: string, password: string, head: seq<DbEvent>)
    requires Committed !in head
    ensures var g := GrantSession(server, currentUser, user, password);
            var stmts := GrantStatements(server.grantsFor(currentUser), user, password);
            var events := head + g.events + [Closed];
            && (g.outcome == Done <==> server.succeeds(ShowGrants(currentUser))
                                       && forall i :: 0 <= i < |stmts| ==> server.succeeds(stmts[i]))
            && (g.outcome == Done ==> events == head + [Ran(ShowGrants(currentUser))] + RanEach(stmts) + [Committed, Closed])
            && (g.outcome != Done ==> g.outcome == Failed(StatementFailed) && Committed !in events)
  {
    var g := GrantSession(server, currentUser, user, password);
    var stmts := GrantStatements(server.grantsFor(currentUser), user, password);
    GrantSessionCommitsOnce(server, currentUser, user, password);
    if g.outcome == Done {
      assert head + g.events + [Closed]
          == head + [Ran(ShowGrants(currentUser))] + RanEach(stmts) + [Committed, Closed];
    } else if server.succeeds(ShowGrants(currentUser)) {
      assert RunInOrder(stmts, server.succeeds).outcome != Done;
    }
  }

  /** Once every check has passed, setSecret lists the current user's grants
      on the master connection and replays each one for the pending user. It
      succeeds exactly when all of them go through, and then the log is: the
      current login, the master login, the listing, every replayed grant in
      order, one commit, and the close. */
  lemma SetSecretReplaysGrants(secrets: map<Arn, Secret>, server: Server, inventory: Inventory, arn: Arn, token: Token)
    requires ChecksPass(secrets, server, inventory, arn, token)
    ensures var c := SecretDict(secrets, arn, Current, None).value;
            var p := SecretDict(secrets, arn, Pending, Some(token)).value;
            var m := SecretDict(secrets, c["masterarn"], Current, None).value;
            var stmts := GrantStatements(server.grantsFor(c["username"]), p["username"], p["password"]);
            var r := SetSecretSpec(secrets, server, inventory, arn, token);
            && (r.outcome == Done <==> server.succeeds(ShowGrants(c["username"]))
                                       && forall i :: 0 <= i < |stmts| ==> server.succeeds(stmts[i]))
            && (r.outcome == Done ==>
                  r.events == [Opened(ConnectionParams(c).value), Closed, Opened(ConnectionParams(m).value)]
                              + [Ran(ShowGrants(c["username"]))] + RanEach(stmts) + [Committed, Closed])
            && (r.outcome != Done ==> r.outcome == Failed(StatementFailed) && Committed !in r.events)
  {
    var c := SecretDict(secrets, arn, Current, None).value;
    var p := SecretDict(secrets, arn, Pending, Some(token)).value;
    var m := SecretDict(secrets, c["masterarn"], Current, None).value;
    var head := [Opened(ConnectionParams(c).value), Closed, Opened(ConnectionParams(m).value)];
    SetSecretReachesGrantSession(secrets, server, inventory, arn, token);
    GrantSessionWithin(server, c["username"], p["username"], p["password"], head);
  }

  /** The replica inventory is consulted only when the master secret is for
      another host: for a master on the current host, the answer it would
      give makes no difference. */
  lemma SetSecretSameHostIgnoresInventory(secrets: map<Arn, Secret>, server: Server, inv1: Inventory, inv2: Inventory,
                                          arn: Arn, token: Token)
    requires SecretDict(secrets, arn, Current, None).Ok?
    requires var c := SecretDict(secrets, arn, Current, None).value;
             "masterarn" in c && SecretDict(secrets, c["masterarn"], Current, None).Ok?
             && SecretDict(secrets, c["masterarn"], Current, None).value["host"] == c["host"]
    ensures SetSecretSpec(secrets, server, inv1, arn, token) == SetSecretSpec(secrets, server, inv2, arn, token)
  {
  }

  // ---------------------------------------------------------------------
  // testSecret

  /** testSecret logs in as the pending user with the pending password; it
      fails with PendingLoginFailed exactly when that login is refused, and
      succeeds exactly when the login and the trivial query both go through. */
  lemma TestSecretLogsInAsPending(secrets: map<Arn, Secret>, server: Server, arn: Arn, token: Token)
    requires SecretDict(secrets, arn, Pending, Some(token)).Ok?
    requires ConnectionParams(SecretDict(secrets, arn, Pending, Some(token)).value).Ok?
    ensures var pending := SecretDict(secrets, arn, Pending, Some(token)).value;
            var params := ConnectionParams(pending).value;
            var r := TestSecretSpec(secrets, server, arn, token);
            && params.user == pending["username"] && params.password == pending["password"]
            && (r.outcome == Failed(PendingLoginFailed) <==> !server.accepts(params))
            && (r.outcome == Done <==> server.accepts(params) && server.succeeds(SelectNow))
            && (r.events != [] ==> r.events[0] == Opened(params))
            && (Committed in r.events <==> r.outcome == Done)
  {
  }

  /** testSecret closes the connection it opens. */
  lemma TestSecretClosesConnection(secrets: map<Arn, Secret>, server: Server, arn: Arn, token: Token)
    ensures Bracketed(TestSecretSpec(secrets, server, arn, token).events)
  {
    var pending := SecretDict(secrets, arn, Pending, Some(token));
    if pending.Ok? && ConnectionParams(pending.value).Ok? && server.accepts(ConnectionParams(pending.value).value) {
      var params := ConnectionParams(pending.value).value;
      if server.succeeds(SelectNow) {
        SessionBracketed(params, [Ran(SelectNow), Committed]);
        assert [Opened(params)] + [Ran(SelectNow), Committed] + [Closed] == [Opened(params), Ran(SelectNow), Committed, Closed];
      } else {
        SessionBracketed(params, [Ran(SelectNow)]);
        assert [Opened(params)] + [Ran(SelectNow)] + [Closed] == [Opened(params), Ran(SelectNow), Closed];
      }
    }
  }

  // ---------------------------------------------------------------------
  // The handler

  /** The store's invariant for every secret: each listed version has labels
      and the other way round, and at most one version is AWSCURRENT. */
  ghost predicate StoreInvariant(st: StoreState) {
    forall a :: a in st.secrets ==> st.secrets[a].WellFormed() && Unique(st.secrets[a].stages, Current)
  }

  /** Only setSecret and testSecret use the database, only createSecret and
      finishSecret change the store, and nothing happens unless the gate
      dispatches a step. */
  lemma HandlerStepEffects(st: StoreState, random: nat -> string, server: Server, inventory: Inventory,
                           arn: Arn, token: Token, step: string)
    ensures var e := HandlerSpec(st, random, server, inventory, arn, token, step);
            && (e.events != [] ==> step == "setSecret" || step == "testSecret")
            && (e.state != st ==> step == "createSecret" || step == "finishSecret")
            && (arn !in st.secrets || !Decide(st.secrets[arn], token, step).Dispatch? ==> e.state == st && e.events == [])
  {
  }

  /** Every invocation closes every connection it opens. */
  lemma HandlerClosesEveryConnection(st: StoreState, random: nat -> string, server: Server, inventory: Inventory,
                                     arn: Arn, token: Token, step: string)
    ensures Bracketed(HandlerSpec(st, random, server, inventory, arn, token, step).events)
  {
    if arn in st.secrets {
      match Decide(st.secrets[arn], token, step)
      case Dispatch(SetSecret) =>
        SetSecretClosesEveryConnection(st.secrets, server, inventory, arn, token);
      case Dispatch(TestSecret) =>
        TestSecretClosesConnection(st.secrets, server, arn, token);
      case _ =>
    }
  }

  /** createSecret labels only AWSPENDING, so the holders of AWSCURRENT stay
      as they were and the store's invariant is kept. */
  lemma CreateSecretKeepsInvariant(st: StoreState, random: nat -> string, arn: Arn, token: Token)
    requires StoreInvariant(st)
    ensures StoreInvariant(CreateSecretSpec(st, random, arn, token).state)
  {
    var r := CreateSecretSpec(st, random, arn, token);
    if r.state != st {
      var s := st.secrets[arn];
      var after := r.state.secrets[arn];
      assert forall t :: Holds(after.stages, t, Current) ==> Holds(s.stages, t, Current);
    }
  }

  /** Every invocation keeps the store's invariant. */
  lemma HandlerKeepsInvariant(st: StoreState, random: nat -> string, server: Server, inventory: Inventory,
                              arn: Arn, token: Token, step: string)
    requires StoreInvariant(st)
    ensures StoreInvariant(HandlerSpec(st, random, server, inventory, arn, token, step).state)
  {
    if arn in st.secrets {
      match Decide(st.secrets[arn], token, step)
      case Dispatch(CreateSecret) =>
        CreateSecretKeepsInvariant(st, random, arn, token);
      case Dispatch(FinishSecret) =>
        FinishSecretKeepsOneCurrent(st, arn, token);
        var r := FinishSecretSpec(st, arn, token);
        assert forall a :: a in r.state.secrets && a != arn ==> r.state.secrets[a] == st.secrets[a];
      case _ =>
    }
  }

  /** Once finishSecret has succeeded for a token, every later invocation
      for that token, whatever step it names, ends successfully without
      touching the store or the database. */
  lemma HandlerFinishedRotationIsNoOp(st: StoreState, random: nat -> string, server: Server, inventory: Inventory,
                                      arn: Arn, token: Token, step: string)
    requires HandlerSpec(st, random, server, inventory, arn, token, "finishSecret").outcome == Done
    ensures var after := HandlerSpec(st, random, server, inventory, arn, token, "finishSecret").state;
            HandlerSpec(after, random, server, inventory, arn, token, step) == Effect(Done, after, [])
  {
    var s := st.secrets[arn];
    if Decide(s, token, "finishSecret").Dispatch? {
      FinishSecretMovesCurrent(st, arn, token);
    }
  }
}
