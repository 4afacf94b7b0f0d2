/** The replica check: is the current database host a read replica of the
    master's host, according to the RDS instance inventory. */
module Replica {
  import opened Outcomes
  import opened Text

  /** One instance record as the inventory reports it. */
  datatype DbInstance = DbInstance(readReplicaSource: Option<string>)

  /** The inventory's answer to a lookup by instance identifier: the call
      raised, or it returned a (possibly empty) list of instances. */
  datatype InventoryAnswer = LookupFailed | Instances(instances: seq<DbInstance>)

  /** The inventory service, as a function from instance identifier to answer. */
  type Inventory = string -> InventoryAnswer

  /** The instance identifier of an endpoint: the host text before its first
      dot, or the whole host when it has none. */
  function InstanceId(host: string): (r: string)
    ensures r <= host
    ensures forall i :: 0 <= i < |r| ==> r[i] != '.'
    ensures |r| == |host| || host[|r|] == '.'
  {
    var r := BeforeFirst(host, ".");
    forall i | 0 <= i < |host| ensures OccursAt(host, i, ".") <==> host[i] == '.' {
      assert host[i..i + 1] == [host[i]];
    }
    r
  }

  /** An endpoint built from an identifier and a domain yields the identifier. */
  lemma InstanceIdOfEndpoint(id: string, domain: string)
    requires forall i :: 0 <= i < |id| ==> id[i] != '.'
    ensures InstanceId(id + "." + domain) == id
  {
    var host := id + "." + domain;
    var r := InstanceId(host);
    assert host[|id|] == '.';
    assert forall i :: 0 <= i < |id| ==> host[i] == id[i];
    assert r == host[..|id|] == id;
  }

  /** The replica decision. It fails closed: a failed lookup or an empty
      answer is "not a replica"; otherwise only the first instance is
      consulted, and its recorded replication source must be the master's
      identifier. */
  function IsRdsReplica(replicaHost: string, masterHost: string, inventory: Inventory): (r: bool)
    ensures inventory(InstanceId(replicaHost)).LookupFailed? ==> !r
    ensures inventory(InstanceId(replicaHost)) == Instances([]) ==> !r
    ensures r ==> inventory(InstanceId(replicaHost)).Instances?
    ensures r <==> (var a := inventory(InstanceId(replicaHost));
                    a.Instances? && |a.instances| > 0
                    && a.instances[0].readReplicaSource == Some(InstanceId(masterHost)))
  {
    match inventory(InstanceId(replicaHost))
    case LookupFailed => false
    case Instances(xs) => |xs| > 0 && xs[0].readReplicaSource == Some(InstanceId(masterHost))
  }

  /** The decision depends on the endpoints only through their identifiers:
      hosts in different domains are compared by identifier alone. */
  lemma ReplicaDecidedByIdentifiers(replicaId: string, d1: string, d2: string,
                                    masterId: string, e1: string, e2: string, inventory: Inventory)
    requires forall i :: 0 <= i < |replicaId| ==> replicaId[i] != '.'
    requires forall i :: 0 <= i < |masterId| ==> masterId[i] != '.'
    ensures IsRdsReplica(replicaId + "." + d1, masterId + "." + e1, inventory)
         == IsRdsReplica(replicaId + "." + d2, masterId + "." + e2, inventory)
  {
    InstanceIdOfEndpoint(replicaId, d1);
    InstanceIdOfEndpoint(replicaId, d2);
    InstanceIdOfEndpoint(masterId, e1);
    InstanceIdOfEndpoint(masterId, e2);
  }
}
