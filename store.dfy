/** The secret store as the handler sees it: for each secret, whether rotation
    is enabled, its versions with their stage labels, and the payload stored
    at each version. */
module Store {
  import opened Outcomes
  import opened Credentials

  type Arn = string
  type Token = string
  type Stage = string

  const Current: Stage := "AWSCURRENT"
  const Pending: Stage := "AWSPENDING"

  /** The characters the handler asks the password generator to leave out. */
  const DefaultExcludeCharacters: string := "/@\"'\\"

  /** One secret. `order` is the order in which the store lists the versions;
      a version can carry labels before any payload is stored at it. */
  datatype Secret = Secret(rotationEnabled: Option<bool>,
                           order: seq<Token>,
                           stages: map<Token, set<Stage>>,
                           values: map<Token, Record>)
  {
    /** The listed versions are exactly the labelled ones. */
    ghost predicate WellFormed() {
      forall t :: t in stages <==> t in order
    }
  }

  predicate Holds(stages: map<Token, set<Stage>>, t: Token, stage: Stage) {
    t in stages && stage in stages[t]
  }

  /** At most one version carries `stage`: the store's own invariant for the current label. */
  ghost predicate Unique(stages: map<Token, set<Stage>>, stage: Stage) {
    forall a, b :: Holds(stages, a, stage) && Holds(stages, b, stage) ==> a == b
  }

  /** The position of the first listed version carrying `stage`, or `|order|`. */
  function FirstIndexWith(order: seq<Token>, stages: map<Token, set<Stage>>, stage: Stage): (k: nat)
    ensures k <= |order|
    ensures forall i :: 0 <= i < k ==> !Holds(stages, order[i], stage)
    ensures k < |order| ==> Holds(stages, order[k], stage)
  {
    if order == [] then 0
    else if Holds(stages, order[0], stage) then 0
    else 1 + FirstIndexWith(order[1..], stages, stage)
  }

  /** The first listed version carrying `stage`, if any. */
  function FirstWith(order: seq<Token>, stages: map<Token, set<Stage>>, stage: Stage): (r: Option<Token>)
    ensures r.Some? ==> Holds(stages, r.value, stage) && r.value in order
    ensures r.None? ==> forall i :: 0 <= i < |order| ==> !Holds(stages, order[i], stage)
  {
    var k := FirstIndexWith(order, stages, stage);
    if k < |order| then Some(order[k]) else None
  }

  /** When only one version carries `stage`, the scan finds exactly that one. */
  lemma FirstWithUnique(s: Secret, stage: Stage, t: Token)
    requires s.WellFormed() && Unique(s.stages, stage) && Holds(s.stages, t, stage)
    ensures FirstWith(s.order, s.stages, stage) == Some(t)
  {
    assert t in s.order;
  }

  /** GetSecretValue: the payload at the given version if it carries `stage`,
      or, without a version, at the first version carrying `stage`. */
  function SecretValue(secrets: map<Arn, Secret>, arn: Arn, token: Option<Token>, stage: Stage): (r: Result<Record>)
    ensures r.Err? ==> r.error == ResourceNotFound
    ensures r.Ok? ==> arn in secrets
    ensures r.Ok? && token.Some? ==>
              && Holds(secrets[arn].stages, token.value, stage)
              && token.value in secrets[arn].values
              && r.value == secrets[arn].values[token.value]
    ensures (token.Some? && arn in secrets && Holds(secrets[arn].stages, token.value, stage)
             && token.value in secrets[arn].values) ==> r.Ok?
  {
    if arn !in secrets then Err(ResourceNotFound)
    else
      var s := secrets[arn];
      match token
      case Some(t) =>
        if Holds(s.stages, t, stage) && t in s.values then Ok(s.values[t]) else Err(ResourceNotFound)
      case None =>
        var v := FirstWith(s.order, s.stages, stage);
        if v.Some? && v.value in s.values then Ok(s.values[v.value]) else Err(ResourceNotFound)
  }

  /** Without a version, the lookup answers with the payload of the first
      listed version carrying the stage, and fails when that version has none
      or no version carries the stage. */
  lemma SecretValueFirstHolder(secrets: map<Arn, Secret>, arn: Arn, stage: Stage)
    requires arn in secrets
    ensures var v := FirstWith(secrets[arn].order, secrets[arn].stages, stage);
            var r := SecretValue(secrets, arn, None, stage);
            && (r.Ok? <==> v.Some? && v.value in secrets[arn].values)
            && (r.Ok? ==> r.value == secrets[arn].values[v.value])
  {
  }

  /** PutSecretValue: stores `rec` at `token` and attaches `labels` to it,
      listing the version if it is new. */
  function PutValue(s: Secret, token: Token, rec: Record, labels: set<Stage>): (r: Secret)
    ensures r.rotationEnabled == s.rotationEnabled
    ensures r.values == s.values[token := rec]
    ensures r.stages.Keys == s.stages.Keys + {token}
    ensures forall l :: l in labels ==> Holds(r.stages, token, l)
    ensures token in s.stages ==> r.stages[token] == s.stages[token] + labels && r.order == s.order
    ensures token !in s.stages ==> r.stages[token] == labels && r.order == s.order + [token]
    ensures forall t :: t in s.stages && t != token ==> r.stages[t] == s.stages[t]
    ensures s.WellFormed() ==> r.WellFormed()
  {
    if token in s.stages then
      s.(stages := s.stages[token := s.stages[token] + labels], values := s.values[token := rec])
    else
      s.(order := s.order + [token], stages := s.stages[token := labels], values := s.values[token := rec])
  }

  /** UpdateSecretVersionStage: moves the label `stage` from version `from`
      (if given) to version `to`, which must exist; no other label changes. */
  function MoveLabel(s: Secret, stage: Stage, to: Token, from: Option<Token>): (r: Result<Secret>)
    ensures r.Ok? <==> to in s.stages
    ensures r.Err? ==> r.error == ResourceNotFound
    ensures r.Ok? ==> r.value.rotationEnabled == s.rotationEnabled && r.value.order == s.order
                      && r.value.values == s.values && r.value.stages.Keys == s.stages.Keys
    ensures r.Ok? ==> Holds(r.value.stages, to, stage)
    ensures r.Ok? && from.Some? && from.value != to ==> !Holds(r.value.stages, from.value, stage)
    ensures r.Ok? ==> forall t :: t in s.stages ==> r.value.stages[t] - {stage} == s.stages[t] - {stage}
    ensures r.Ok? ==> forall t :: t != to && from != Some(t) ==> (Holds(r.value.stages, t, stage) <==> Holds(s.stages, t, stage))
    ensures r.Ok? && s.WellFormed() ==> r.value.WellFormed()
  {
    if to !in s.stages then Err(ResourceNotFound)
    else
      var cleared := if from.Some? && from.value in s.stages
                     then s.stages[from.value := s.stages[from.value] - {stage}]
                     else s.stages;
      Ok(s.(stages := cleared[to := cleared[to] + {stage}]))
  }

  /** Everything of the store that the handler can change: the secrets and
      the log of password requests. */
  datatype StoreState = StoreState(secrets: map<Arn, Secret>, passwordRequests: seq<string>)

  /** The secret store service. */
  class SecretsManager {
    var secrets: map<Arn, Secret>
    /** The excluded-character set of each password request, in order. */
    var passwordRequests: seq<string>
    /** The generator's answer to the n-th password request. */
    const random: nat -> string

    function State(): StoreState
      reads this
    {
      StoreState(secrets, passwordRequests)
    }

    ghost predicate Valid()
      reads this
    {
      forall a :: a in secrets ==> secrets[a].WellFormed()
    }

    constructor (secrets: map<Arn, Secret>, random: nat -> string)
      requires forall a :: a in secrets ==> secrets[a].WellFormed()
      ensures Valid()
      ensures this.secrets == secrets && this.random == random && passwordRequests == []
    {
      this.secrets := secrets;
      this.random := random;
      passwordRequests := [];
    }

    method DescribeSecret(arn: Arn) returns (r: Result<Secret>)
      ensures arn in secrets ==> r == Ok(secrets[arn])
      ensures arn !in secrets ==> r == Err(ResourceNotFound)
    {
      if arn in secrets {
        r := Ok(secrets[arn]);
      } else {
        r := Err(ResourceNotFound);
      }
    }

    method GetSecretValue(arn: Arn, token: Option<Token>, stage: Stage) returns (r: Result<Record>)
      ensures r == SecretValue(secrets, arn, token, stage)
    {
      r := SecretValue(secrets, arn, token, stage);
    }

    method GetRandomPassword(exclude: string) returns (password: string)
      modifies this`passwordRequests
      ensures password == random(|old(passwordRequests)|)
      ensures passwordRequests == old(passwordRequests) + [exclude]
    {
      password := random(|passwordRequests|);
      passwordRequests := passwordRequests + [exclude];
    }

    method PutSecretValue(arn: Arn, token: Token, rec: Record, labels: set<Stage>) returns (r: Outcome)
      requires Valid()
      modifies this`secrets
      ensures Valid()
      ensures arn in old(secrets) ==> r == Done && secrets == old(secrets)[arn := PutValue(old(secrets)[arn], token, rec, labels)]
      ensures arn !in old(secrets) ==> r == Failed(ResourceNotFound) && secrets == old(secrets)
    {
      if arn in secrets {
        secrets := secrets[arn := PutValue(secrets[arn], token, rec, labels)];
        r := Done;
      } else {
        r := Failed(ResourceNotFound);
      }
    }

    method UpdateSecretVersionStage(arn: Arn, stage: Stage, moveTo: Token, removeFrom: Option<Token>) returns (r: Outcome)
      requires Valid()
      modifies this`secrets
      ensures Valid()
      ensures arn !in old(secrets) ==> r == Failed(ResourceNotFound) && secrets == old(secrets)
      ensures arn in old(secrets) ==>
                var m := MoveLabel(old(secrets)[arn], stage, moveTo, removeFrom);
                if m.Ok? then r == Done && secrets == old(secrets)[arn := m.value]
                else r == Failed(m.error) && secrets == old(secrets)
    {
      if arn !in secrets {
        return Failed(ResourceNotFound);
      }
      var m := MoveLabel(secrets[arn], stage, moveTo, removeFrom);
      if m.Ok? {
        secrets := secrets[arn := m.value];
        r := Done;
      } else {
        r := Failed(m.error);
      }
    }
  }
}
