/** create_route_tables (lambda/vpc_api.py, lines 179-196): a public route
    table with a default route to the internet gateway, associated with the
    ingress subnet of zone 0, and a private route table with a default route
    to the NAT gateway, associated with the private and data subnets. */
module RouteTables {
  import opened Python
  import opened Aws
  import opened SubnetLayout

  /** Which names the private route table is associated with: the lookups of
      lines 192-194 as written, or the subnets create_subnets actually made. */
  datatype Revision = AsWritten | Corrected

  /** For each zone, in order: its private subnet, then its data subnet. */
  function PerZoneKeys(azNames: seq<string>): (keys: seq<string>)
    ensures |keys| == 2 * |azNames|
    ensures forall i :: 0 <= i < |azNames| ==>
              keys[2 * i] == Roles[2] + azNames[i] && keys[2 * i + 1] == Roles[3] + azNames[i]
  {
    if azNames == [] then []
    else [Roles[2] + azNames[0], Roles[3] + azNames[0]] + PerZoneKeys(azNames[1..])
  }

  /** The names whose subnets are looked up for the private table, in order.
      As written every zone contributes its private and data names; the
      corrected lookups name the private subnet of zone 0 and the data subnet
      of zone 1, the two that exist (line 148), and need two zones. */
  function PrivateKeys(rev: Revision, azNames: seq<string>): Result<seq<string>> {
    match rev
    case AsWritten => Ok(PerZoneKeys(azNames))
    case Corrected =>
      if |azNames| < 2 then Raised(IndexError)
      else Ok([Roles[2] + azNames[0], Roles[3] + azNames[1]])
  }

  /** Lines 192-194 for the names still to handle: look the subnet up (a
      missing name is a KeyError), then associate it with the table. */
  function AssociateAll(associate: (Id, Id) -> Result<()>, subnets: Dict<Id>, tableId: Id,
                        keys: seq<string>, calls: seq<Call>): Run<()>
  {
    if keys == [] then Run(Ok(()), calls)
    else
      match Get(subnets, keys[0])
      case Raised(f) => Run(Raised(f), calls)
      case Ok(subnetId) =>
        var calls' := calls + [AssociateRouteTable(subnetId, tableId)];
        match associate(subnetId, tableId)
        case Raised(f) => Run(Raised(f), calls')
        case Ok(_) => AssociateAll(associate, subnets, tableId, keys[1..], calls')
  }

  /** create_route_tables, step by step, with the private lookups of `rev`. */
  function CreateRouteTablesSpec(ec2: Ec2, rev: Revision, vpcId: Id, subnets: Dict<Id>,
                                 igwId: Id, natId: Id, azNames: seq<string>): Run<()>
  {
    var c1 := [CreateRouteTable(vpcId, InternetGateway(igwId))];
    match ec2.createRouteTable(vpcId, InternetGateway(igwId))
    case Raised(f) => Run(Raised(f), c1)
    case Ok(publicId) =>
      if azNames == [] then Run(Raised(IndexError), c1)
      else
        match Get(subnets, Roles[0] + azNames[0])
        case Raised(f) => Run(Raised(f), c1)
        case Ok(ingressId) =>
          var c2 := c1 + [AssociateRouteTable(ingressId, publicId)];
          match ec2.associateRouteTable(ingressId, publicId)
          case Raised(f) => Run(Raised(f), c2)
          case Ok(_) =>
            var c3 := c2 + [CreateRouteTable(vpcId, NatGateway(natId))];
            match ec2.createRouteTable(vpcId, NatGateway(natId))
            case Raised(f) => Run(Raised(f), c3)
            case Ok(privateId) =>
              match PrivateKeys(rev, azNames)
              case Raised(f) => Run(Raised(f), c3)
              case Ok(keys) => AssociateAll(ec2.associateRouteTable, subnets, privateId, keys, c3)
  }

  /** The function of lines 179-196, the private associations made in a loop. */
  method CreateRouteTables(ec2: Ec2, rev: Revision, vpcId: Id, subnets: Dict<Id>,
                           igwId: Id, natId: Id, azNames: seq<string>) returns (r: Run<()>)
    ensures r == CreateRouteTablesSpec(ec2, rev, vpcId, subnets, igwId, natId, azNames)
  {
    var calls := [CreateRouteTable(vpcId, InternetGateway(igwId))];
    var publicTable := ec2.createRouteTable(vpcId, InternetGateway(igwId));
    if publicTable.Raised? {
      return Run(Raised(publicTable.fault), calls);
    }
    if |azNames| == 0 {
      return Run(Raised(IndexError), calls);
    }
    var ingress := Get(subnets, Roles[0] + azNames[0]);
    if ingress.Raised? {
      return Run(Raised(ingress.fault), calls);
    }
    calls := calls + [AssociateRouteTable(ingress.value, publicTable.value)];
    var associated := ec2.associateRouteTable(ingress.value, publicTable.value);
    if associated.Raised? {
      return Run(Raised(associated.fault), calls);
    }
    calls := calls + [CreateRouteTable(vpcId, NatGateway(natId))];
    var privateTable := ec2.createRouteTable(vpcId, NatGateway(natId));
    if privateTable.Raised? {
      return Run(Raised(privateTable.fault), calls);
    }
    var keys := PrivateKeys(rev, azNames);
    if keys.Raised? {
      return Run(Raised(keys.fault), calls);
    }
    ghost var spec := AssociateAll(ec2.associateRouteTable, subnets, privateTable.value, keys.value, calls);
    for i := 0 to |keys.value|
      invariant spec == AssociateAll(ec2.associateRouteTable, subnets, privateTable.value, keys.value[i..], calls)
    {
      assert keys.value[i..][1..] == keys.value[i + 1..];
      var subnetId := Get(subnets, keys.value[i]);
      if subnetId.Raised? {
        return Run(Raised(subnetId.fault), calls);
      }
      calls := calls + [AssociateRouteTable(subnetId.value, privateTable.value)];
      associated := ec2.associateRouteTable(subnetId.value, privateTable.value);
      if associated.Raised? {
        return Run(Raised(associated.fault), calls);
      }
    }
    return Run(Ok(()), calls);
  }

  /** The associations made when every name is present, in order. */
  function Associations(subnets: Dict<Id>, tableId: Id, keys: seq<string>): (calls: seq<Call>)
    requires forall j :: 0 <= j < |keys| ==> keys[j] in Keys(subnets)
    ensures |calls| == |keys|
    ensures forall j :: 0 <= j < |keys| ==> calls[j] == AssociateRouteTable(Get(subnets, keys[j]).value, tableId)
  {
    if keys == [] then []
    else [AssociateRouteTable(Get(subnets, keys[0]).value, tableId)] + Associations(subnets, tableId, keys[1..])
  }

  /** The loop completes only if every name it looks up is in the dict. */
  lemma {:induction false} AssociateAllNeedsKeys(associate: (Id, Id) -> Result<()>, subnets: Dict<Id>,
                                                 tableId: Id, keys: seq<string>, calls: seq<Call>)
    ensures AssociateAll(associate, subnets, tableId, keys, calls).result.Ok? ==>
              forall j :: 0 <= j < |keys| ==> keys[j] in Keys(subnets)
  {
    if keys != [] && Get(subnets, keys[0]).Ok? {
      AssociateAllNeedsKeys(associate, subnets, tableId, keys[1..], calls + [AssociateRouteTable(Get(subnets, keys[0]).value, tableId)]);
    }
  }

  /** With every name present and every association accepted, the loop
      completes after exactly one association per name. */
  lemma {:induction false} AssociateAllSucceeds(associate: (Id, Id) -> Result<()>, subnets: Dict<Id>,
                                                tableId: Id, keys: seq<string>, calls: seq<Call>)
    requires forall j :: 0 <= j < |keys| ==> keys[j] in Keys(subnets)
    requires forall j :: 0 <= j < |keys| ==> associate(Get(subnets, keys[j]).value, tableId).Ok?
    ensures AssociateAll(associate, subnets, tableId, keys, calls) ==
            Run(Ok(()), calls + Associations(subnets, tableId, keys))
  {
    if keys != [] {
      var call := AssociateRouteTable(Get(subnets, keys[0]).value, tableId);
      AssociateAllSucceeds(associate, subnets, tableId, keys[1..], calls + [call]);
      assert calls + Associations(subnets, tableId, keys) ==
             (calls + [call]) + Associations(subnets, tableId, keys[1..]);
    } else {
      assert calls + [] == calls;
    }
  }

  /** The first missing name ends the loop with a KeyError for that name,
      when the associations before it were accepted. */
  lemma {:induction false} AssociateAllStopsAtMissing(associate: (Id, Id) -> Result<()>, subnets: Dict<Id>,
                                                      tableId: Id, keys: seq<string>, calls: seq<Call>, m: nat)
    requires m < |keys| && keys[m] !in Keys(subnets)
    requires forall j :: 0 <= j < m ==> keys[j] in Keys(subnets)
    requires forall j :: 0 <= j < m ==> associate(Get(subnets, keys[j]).value, tableId).Ok?
    ensures AssociateAll(associate, subnets, tableId, keys, calls).result == Raised(KeyError(keys[m]))
  {
    if m > 0 {
      var call := AssociateRouteTable(Get(subnets, keys[0]).value, tableId);
      AssociateAllStopsAtMissing(associate, subnets, tableId, keys[1..], calls + [call], m - 1);
    }
  }

  /** The association loop only appends associations to the log. */
  lemma {:induction false} AssociateAllCallsOnly(associate: (Id, Id) -> Result<()>, subnets: Dict<Id>,
                                                 tableId: Id, keys: seq<string>, calls: seq<Call>)
    ensures var r := AssociateAll(associate, subnets, tableId, keys, calls);
      calls <= r.calls && forall i :: |calls| <= i < |r.calls| ==> r.calls[i].AssociateRouteTable?
  {
    if keys != [] && Get(subnets, keys[0]).Ok? {
      var subnetId := Get(subnets, keys[0]).value;
      if associate(subnetId, tableId).Ok? {
        AssociateAllCallsOnly(associate, subnets, tableId, keys[1..], calls + [AssociateRouteTable(subnetId, tableId)]);
      }
    }
  }

  /** create_route_tables makes route tables and associations, nothing else. */
  lemma RouteTableCallsOnly(ec2: Ec2, rev: Revision, vpcId: Id, subnets: Dict<Id>,
                            igwId: Id, natId: Id, azNames: seq<string>)
    ensures forall c :: c in CreateRouteTablesSpec(ec2, rev, vpcId, subnets, igwId, natId, azNames).calls ==>
              c.CreateRouteTable? || c.AssociateRouteTable?
  {
    var r := CreateRouteTablesSpec(ec2, rev, vpcId, subnets, igwId, natId, azNames);
    var publicId := ec2.createRouteTable(vpcId, InternetGateway(igwId));
    var privateId := ec2.createRouteTable(vpcId, NatGateway(natId));
    if publicId.Ok? && azNames != [] && Get(subnets, Roles[0] + azNames[0]).Ok? && privateId.Ok? &&
       PrivateKeys(rev, azNames).Ok? {
      var ingressId := Get(subnets, Roles[0] + azNames[0]).value;
      if ec2.associateRouteTable(ingressId, publicId.value).Ok? {
        var c3 := [CreateRouteTable(vpcId, InternetGateway(igwId))] + [AssociateRouteTable(ingressId, publicId.value)]
                  + [CreateRouteTable(vpcId, NatGateway(natId))];
        AssociateAllCallsOnly(ec2.associateRouteTable, subnets, privateId.value, PrivateKeys(rev, azNames).value, c3);
        forall c | c in r.calls
          ensures c.CreateRouteTable? || c.AssociateRouteTable?
        {
          var i :| 0 <= i < |r.calls| && r.calls[i] == c;
          if i < |c3| {
            assert r.calls[i] == c3[i];
          }
        }
      }
    }
  }

  /** Every route-table call the provider accepts. */
  ghost predicate RouteCallsSucceed(ec2: Ec2) {
    (forall v, t :: ec2.createRouteTable(v, t).Ok?) &&
    (forall s, t :: ec2.associateRouteTable(s, t).Ok?)
  }

  /** A completed run looked up zone 0's ingress subnet and every private name. */
  lemma CompletedRunFoundAllNames(ec2: Ec2, rev: Revision, vpcId: Id, subnets: Dict<Id>,
                                  igwId: Id, natId: Id, azNames: seq<string>)
    ensures CreateRouteTablesSpec(ec2, rev, vpcId, subnets, igwId, natId, azNames).result.Ok? ==>
              |azNames| > 0 && Roles[0] + azNames[0] in Keys(subnets) &&
              PrivateKeys(rev, azNames).Ok? &&
              forall k :: k in PrivateKeys(rev, azNames).value ==> k in Keys(subnets)
  {
    var r := CreateRouteTablesSpec(ec2, rev, vpcId, subnets, igwId, natId, azNames);
    if r.result.Ok? {
      var publicId := ec2.createRouteTable(vpcId, InternetGateway(igwId)).value;
      var ingressId := Get(subnets, Roles[0] + azNames[0]).value;
      var c3 := [CreateRouteTable(vpcId, InternetGateway(igwId)), AssociateRouteTable(ingressId, publicId),
                 CreateRouteTable(vpcId, NatGateway(natId))];
      assert [CreateRouteTable(vpcId, InternetGateway(igwId))] + [AssociateRouteTable(ingressId, publicId)]
             + [CreateRouteTable(vpcId, NatGateway(natId))] == c3;
      var privateId := ec2.createRouteTable(vpcId, NatGateway(natId)).value;
      AssociateAllNeedsKeys(ec2.associateRouteTable, subnets, privateId, PrivateKeys(rev, azNames).value, c3);
    }
  }

  /** As written, on the dict create_subnets returns, the route tables are
      completed only if every zone equals zone 0 and zone 1: a zone of its
      own has no private or data subnet to look up. */
  lemma AsWrittenCompletesOnlyForOneZone(ec2: Ec2, vpcId: Id, subnets: Dict<Id>,
                                         igwId: Id, natId: Id, azNames: seq<string>)
    requires NamedByLayout(subnets, azNames)
    ensures CreateRouteTablesSpec(ec2, AsWritten, vpcId, subnets, igwId, natId, azNames).result.Ok? ==>
              forall i :: 0 <= i < |azNames| ==> azNames[i] == azNames[0] && azNames[i] == azNames[1]
  {
    CompletedRunFoundAllNames(ec2, AsWritten, vpcId, subnets, igwId, natId, azNames);
    if CreateRouteTablesSpec(ec2, AsWritten, vpcId, subnets, igwId, natId, azNames).result.Ok? {
      var keys := PerZoneKeys(azNames);
      forall i | 0 <= i < |azNames|
        ensures azNames[i] == azNames[0] && azNames[i] == azNames[1]
      {
        assert keys[2 * i] in keys && keys[2 * i + 1] in keys;
        LayoutHasName(subnets, azNames, 2, azNames[i]);
        LayoutHasName(subnets, azNames, 3, azNames[i]);
      }
    }
  }

  /** As written, with two different zones and a provider that accepts every
      route-table call, the run fails on the data subnet of zone 0, the
      second lookup of the loop. By then both tables exist, the public one
      is associated with zone 0's ingress subnet only, and the private one
      with zone 0's private subnet. */
  lemma AsWrittenMissesDataSubnet(ec2: Ec2, vpcId: Id, subnets: Dict<Id>,
                                  igwId: Id, natId: Id, azNames: seq<string>)
    requires NamedByLayout(subnets, azNames) && azNames[0] != azNames[1]
    requires RouteCallsSucceed(ec2)
    ensures var r := CreateRouteTablesSpec(ec2, AsWritten, vpcId, subnets, igwId, natId, azNames);
      var publicId := ec2.createRouteTable(vpcId, InternetGateway(igwId)).value;
      var privateId := ec2.createRouteTable(vpcId, NatGateway(natId)).value;
      r.result == Raised(KeyError(Roles[3] + azNames[0])) &&
      r.calls == [CreateRouteTable(vpcId, InternetGateway(igwId)),
                  AssociateRouteTable(subnets[0].1, publicId),
                  CreateRouteTable(vpcId, NatGateway(natId)),
                  AssociateRouteTable(subnets[2].1, privateId)]
  {
    LayoutHasName(subnets, azNames, 0, azNames[0]);
    LayoutHasName(subnets, azNames, 2, azNames[0]);
    LayoutHasName(subnets, azNames, 3, azNames[0]);
    LayoutLookup(subnets, azNames);
    var keys := PerZoneKeys(azNames);
    var privateId := ec2.createRouteTable(vpcId, NatGateway(natId)).value;
    var publicId := ec2.createRouteTable(vpcId, InternetGateway(igwId)).value;
    var ingressId := Get(subnets, Roles[0] + azNames[0]).value;
    assert ec2.associateRouteTable(ingressId, publicId).Ok?;
    assert ec2.associateRouteTable(Get(subnets, keys[0]).value, privateId).Ok?;
    var c3 := [CreateRouteTable(vpcId, InternetGateway(igwId))] + [AssociateRouteTable(ingressId, publicId)]
              + [CreateRouteTable(vpcId, NatGateway(natId))];
    var c4 := c3 + [AssociateRouteTable(Get(subnets, keys[0]).value, privateId)];
    assert AssociateAll(ec2.associateRouteTable, subnets, privateId, keys, c3) ==
           AssociateAll(ec2.associateRouteTable, subnets, privateId, keys[1..], c4);
    assert keys[1..][0] !in Keys(subnets);
  }

  /** With the corrected lookups, on the dict create_subnets returns and a
      provider that accepts every route-table call, the run completes: the
      public table is associated with the ingress subnet, the private table
      with the private and the data subnet, and nothing else is called. */
  lemma CorrectedCompletes(ec2: Ec2, vpcId: Id, subnets: Dict<Id>,
                           igwId: Id, natId: Id, azNames: seq<string>)
    requires NamedByLayout(subnets, azNames)
    requires RouteCallsSucceed(ec2)
    ensures var r := CreateRouteTablesSpec(ec2, Corrected, vpcId, subnets, igwId, natId, azNames);
      var publicId := ec2.createRouteTable(vpcId, InternetGateway(igwId)).value;
      var privateId := ec2.createRouteTable(vpcId, NatGateway(natId)).value;
      r.result == Ok(()) &&
      r.calls == [CreateRouteTable(vpcId, InternetGateway(igwId)),
                  AssociateRouteTable(subnets[0].1, publicId),
                  CreateRouteTable(vpcId, NatGateway(natId)),
                  AssociateRouteTable(subnets[2].1, privateId),
                  AssociateRouteTable(subnets[3].1, privateId)]
  {
    LayoutHasName(subnets, azNames, 0, azNames[0]);
    LayoutHasName(subnets, azNames, 2, azNames[0]);
    LayoutHasName(subnets, azNames, 3, azNames[1]);
    LayoutLookup(subnets, azNames);
    var keys := [Roles[2] + azNames[0], Roles[3] + azNames[1]];
    var privateId := ec2.createRouteTable(vpcId, NatGateway(natId)).value;
    var publicId := ec2.createRouteTable(vpcId, InternetGateway(igwId)).value;
    var ingressId := Get(subnets, Roles[0] + azNames[0]).value;
    assert ec2.associateRouteTable(ingressId, publicId).Ok?;
    assert ec2.associateRouteTable(Get(subnets, keys[0]).value, privateId).Ok?;
    assert ec2.associateRouteTable(Get(subnets, keys[1]).value, privateId).Ok?;
    var c3 := [CreateRouteTable(vpcId, InternetGateway(igwId))] + [AssociateRouteTable(ingressId, publicId)]
              + [CreateRouteTable(vpcId, NatGateway(natId))];
    AssociateAllSucceeds(ec2.associateRouteTable, subnets, privateId, keys, c3);
  }
}
