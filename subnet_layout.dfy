/** create_subnets (lambda/vpc_api.py, lines 127-162): split the VPC block
    into four quarters, name them by role and zone, create each subnet and
    collect the name -> id dict in creation order. */
module SubnetLayout {
  import opened Python
  import opened Ipv4
  import opened Aws

  /** The role part of each subnet name, in creation order (line 148). */
  const Roles: seq<string> := ["ingresssubnet", "egresssubnet", "privatesubnet", "datasubnet"]

  /** The message of the dict line 141 returns instead of subnets. */
  const TooSmallMessage: string := "CIDR block too small for desired subnets"

  /** `subnet_names` (line 148): role i followed by zone `az_names[i % 2]`,
      with no separator; fewer than two zones is an IndexError. */
  function SubnetNames(azNames: seq<string>): (r: Result<seq<string>>)
    ensures r.Ok? <==> |azNames| >= 2
    ensures r.Raised? ==> r.fault == IndexError
    ensures r.Ok? ==> |r.value| == 4 && forall i :: 0 <= i < 4 ==> r.value[i] == Roles[i] + azNames[i % 2]
  {
    if |azNames| < 2 then Raised(IndexError)
    else Ok([Roles[0] + azNames[0], Roles[1] + azNames[1], Roles[2] + azNames[0], Roles[3] + azNames[1]])
  }

  /** The four names differ whatever the zones are: the roles start with
      different letters. */
  lemma SubnetNamesDistinct(azNames: seq<string>)
    requires |azNames| >= 2
    ensures forall i, j :: 0 <= i < j < 4 ==> SubnetNames(azNames).value[i] != SubnetNames(azNames).value[j]
  {
    var names := SubnetNames(azNames).value;
    forall i, j | 0 <= i < j < 4
      ensures names[i] != names[j]
    {
      assert names[i][0] == Roles[i][0] && names[j][0] == Roles[j][0];
    }
  }

  /** A dict whose names are those create_subnets gives its four subnets. */
  ghost predicate NamedByLayout(subnets: Dict<Id>, azNames: seq<string>) {
    |azNames| >= 2 && |subnets| == 4 &&
    forall i :: 0 <= i < 4 ==> subnets[i].0 == Roles[i] + azNames[i % 2]
  }

  /** In such a dict, role `role` followed by zone `az` is a name exactly when
      `az` is the zone that role was created in. */
  lemma LayoutHasName(subnets: Dict<Id>, azNames: seq<string>, role: nat, az: string)
    requires NamedByLayout(subnets, azNames) && role < 4
    ensures Roles[role] + az in Keys(subnets) <==> az == azNames[role % 2]
  {
    if az == azNames[role % 2] {
      assert Keys(subnets)[role] == Roles[role] + az;
    }
    if Roles[role] + az in Keys(subnets) {
      var i :| 0 <= i < |Keys(subnets)| && Keys(subnets)[i] == Roles[role] + az;
      assert (Roles[role] + az)[0] == Roles[role][0];
      assert (Roles[i] + azNames[i % 2])[0] == Roles[i][0];
      assert i == role;
      assert az == (Roles[role] + az)[|Roles[role]|..];
      assert azNames[i % 2] == (Roles[i] + azNames[i % 2])[|Roles[i]|..];
    }
  }

  /** Such a dict has distinct names, and looking up name i yields id i. */
  lemma LayoutLookup(subnets: Dict<Id>, azNames: seq<string>)
    requires NamedByLayout(subnets, azNames)
    ensures DistinctKeys(subnets)
    ensures forall i :: 0 <= i < 4 ==> Get(subnets, Roles[i] + azNames[i % 2]) == Ok(subnets[i].1)
  {
    forall i, j | 0 <= i < j < 4
      ensures subnets[i].0 != subnets[j].0
    {
      assert subnets[i].0[0] == Roles[i][0] && subnets[j].0[0] == Roles[j][0];
    }
    forall i | 0 <= i < 4
      ensures Get(subnets, Roles[i] + azNames[i % 2]) == Ok(subnets[i].1)
    {
      GetFindsUniqueKey(subnets, i);
    }
  }

  /** The argument of the i-th `create_subnet` call (lines 152-159): block i,
      zone `az_names[i % 2]`, name i. */
  function Plan(vpcId: Id, blocks: seq<Cidr>, names: seq<string>, azNames: seq<string>): seq<SubnetRequest>
    requires |blocks| == 4 && |names| == 4 && |azNames| >= 2
  {
    seq(4, i requires 0 <= i < 4 => SubnetRequest(vpcId, blocks[i], azNames[i % 2], names[i]))
  }

  /** The planned requests pair block i of the parent with role i and with
      the zone that the name ends in. */
  lemma PlanShape(vpcId: Id, net: Network, azNames: seq<string>)
    requires net.prefix <= 30 && |azNames| >= 2
    ensures QuarterBlocks(net).Ok? && SubnetNames(azNames).Ok?
    ensures var reqs := Plan(vpcId, QuarterBlocks(net).value, SubnetNames(azNames).value, azNames);
      forall i :: 0 <= i < 4 ==>
        reqs[i].vpcId == vpcId && reqs[i].zone == azNames[i % 2] &&
        reqs[i].name == Roles[i] + reqs[i].zone &&
        reqs[i].block == Cidr(net.base + i * QuarterSize(net), net.prefix + 2)
  {
    QuarterBlocksLayout(net);
  }

  /** Lines 151-160 for the requests still to send, given the dict and the
      call log so far: each request is sent; a failure propagates; a
      returned id is stored under the request's name. */
  function Fill(createSubnet: SubnetRequest -> Result<Id>, reqs: seq<SubnetRequest>,
                subnets: Dict<Id>, calls: seq<Call>): Run<Dict<Id>>
  {
    if reqs == [] then Run(Ok(subnets), calls)
    else
      var calls' := calls + [CreateSubnet(reqs[0])];
      match createSubnet(reqs[0])
      case Raised(f) => Run(Raised(f), calls')
      case Ok(id) => Fill(createSubnet, reqs[1..], Put(subnets, reqs[0].name, id), calls')
  }

  /** One create_subnet call per request, in order. */
  function CallsFor(reqs: seq<SubnetRequest>): (calls: seq<Call>)
    ensures |calls| == |reqs|
  {
    if reqs == [] then [] else [CreateSubnet(reqs[0])] + CallsFor(reqs[1..])
  }

  /** The items a run of successful create_subnet calls adds, in order. */
  function CreatedItems(createSubnet: SubnetRequest -> Result<Id>, reqs: seq<SubnetRequest>): (items: Dict<Id>)
    requires forall j :: 0 <= j < |reqs| ==> createSubnet(reqs[j]).Ok?
    ensures |items| == |reqs|
    ensures forall j :: 0 <= j < |reqs| ==> items[j] == (reqs[j].name, createSubnet(reqs[j]).value)
  {
    if reqs == [] then []
    else [(reqs[0].name, createSubnet(reqs[0]).value)] + CreatedItems(createSubnet, reqs[1..])
  }

  /** One successful call with a new name appends one item to the dict. */
  lemma FillStep(createSubnet: SubnetRequest -> Result<Id>, reqs: seq<SubnetRequest>,
                 subnets: Dict<Id>, calls: seq<Call>)
    requires reqs != [] && createSubnet(reqs[0]).Ok? && reqs[0].name !in Keys(subnets)
    ensures Fill(createSubnet, reqs, subnets, calls) ==
            Fill(createSubnet, reqs[1..], subnets + [(reqs[0].name, createSubnet(reqs[0]).value)],
                 calls + [CreateSubnet(reqs[0])])
  {
  }

  lemma CreatedSplit(createSubnet: SubnetRequest -> Result<Id>, reqs: seq<SubnetRequest>, subnets: Dict<Id>)
    requires reqs != [] && forall j :: 0 <= j < |reqs| ==> createSubnet(reqs[j]).Ok?
    ensures subnets + CreatedItems(createSubnet, reqs) ==
            (subnets + [(reqs[0].name, createSubnet(reqs[0]).value)]) + CreatedItems(createSubnet, reqs[1..])
  {
  }

  /** When every call succeeds and the names are new and distinct, the dict
      gains one item per request, in order, holding the returned id. */
  lemma {:induction false} FillAllCreated(createSubnet: SubnetRequest -> Result<Id>, reqs: seq<SubnetRequest>,
                                          subnets: Dict<Id>, calls: seq<Call>)
    requires forall j :: 0 <= j < |reqs| ==> createSubnet(reqs[j]).Ok?
    requires forall j, k :: 0 <= j < k < |reqs| ==> reqs[j].name != reqs[k].name
    requires forall j :: 0 <= j < |reqs| ==> reqs[j].name !in Keys(subnets)
    ensures Fill(createSubnet, reqs, subnets, calls) ==
            Run(Ok(subnets + CreatedItems(createSubnet, reqs)), calls + CallsFor(reqs))
  {
    if reqs != [] {
      var next := subnets + [(reqs[0].name, createSubnet(reqs[0]).value)];
      assert Keys(next) == Keys(subnets) + [reqs[0].name];
      FillStep(createSubnet, reqs, subnets, calls);
      FillAllCreated(createSubnet, reqs[1..], next, calls + [CreateSubnet(reqs[0])]);
      CreatedSplit(createSubnet, reqs, subnets);
      assert calls + CallsFor(reqs) == (calls + [CreateSubnet(reqs[0])]) + CallsFor(reqs[1..]);
    } else {
      assert calls + [] == calls && subnets + [] == subnets;
    }
  }

  /** The first failing call ends the loop: its fault propagates and no
      later request is sent. */
  lemma {:induction false} FillStopsAtFault(createSubnet: SubnetRequest -> Result<Id>, reqs: seq<SubnetRequest>,
                                            subnets: Dict<Id>, calls: seq<Call>, k: nat)
    requires k < |reqs|
    requires forall j :: 0 <= j < k ==> createSubnet(reqs[j]).Ok?
    requires createSubnet(reqs[k]).Raised?
    ensures Fill(createSubnet, reqs, subnets, calls) ==
            Run(Raised(createSubnet(reqs[k]).fault), calls + CallsFor(reqs[..k + 1]))
  {
    if k > 0 {
      var next := Put(subnets, reqs[0].name, createSubnet(reqs[0]).value);
      FillStopsAtFault(createSubnet, reqs[1..], next, calls + [CreateSubnet(reqs[0])], k - 1);
      assert reqs[..k + 1][1..] == reqs[1..][..k];
    }
  }

  /** The loop only appends create_subnet calls to the log. */
  lemma {:induction false} FillCallsOnly(createSubnet: SubnetRequest -> Result<Id>, reqs: seq<SubnetRequest>,
                                         subnets: Dict<Id>, calls: seq<Call>)
    ensures var r := Fill(createSubnet, reqs, subnets, calls);
      calls <= r.calls && forall i :: |calls| <= i < |r.calls| ==> r.calls[i].CreateSubnet?
  {
    if reqs != [] && createSubnet(reqs[0]).Ok? {
      FillCallsOnly(createSubnet, reqs[1..], Put(subnets, reqs[0].name, createSubnet(reqs[0]).value),
                    calls + [CreateSubnet(reqs[0])]);
    }
  }

  /** create_subnets as written (lines 127-162). A string `ip_network` cannot
      parse raises ValueError (line 129). */
  function CreateSubnetsSpec(ip: Ipaddress, createSubnet: SubnetRequest -> Result<Id>, vpcId: Id,
                             cidrBlock: string, azNames: seq<string>): Run<Dict<Id>>
  {
    match ip.parse(cidrBlock)
    case None => Run(Raised(ValueError("does not appear to be an IPv4 or IPv6 network")), [])
    case Some(net) =>
      if PrefixLenDiff(net) < 0 then Run(Ok([("error", TooSmallMessage)]), [])
      else
        match QuarterBlocks(net)
        case Raised(f) => Run(Raised(f), [])
        case Ok(blocks) =>
          match SubnetNames(azNames)
          case Raised(f) => Run(Raised(f), [])
          case Ok(names) => Fill(createSubnet, Plan(vpcId, blocks, names, azNames), [], [])
  }

  /** The loop of lines 151-160, filling `subnets` one created subnet at a time. */
  method CreateSubnets(ip: Ipaddress, createSubnet: SubnetRequest -> Result<Id>, vpcId: Id,
                       cidrBlock: string, azNames: seq<string>) returns (r: Run<Dict<Id>>)
    ensures r == CreateSubnetsSpec(ip, createSubnet, vpcId, cidrBlock, azNames)
  {
    var parsed := ip.parse(cidrBlock);
    if parsed.None? {
      return Run(Raised(ValueError("does not appear to be an IPv4 or IPv6 network")), []);
    }
    var net := parsed.value;
    var subnets: Dict<Id> := [];
    if PrefixLenDiff(net) < 0 {
      return Run(Ok([("error", TooSmallMessage)]), []);
    }
    var blocks := QuarterBlocks(net);
    if blocks.Raised? {
      return Run(Raised(blocks.fault), []);
    }
    var names := SubnetNames(azNames);
    if names.Raised? {
      return Run(Raised(names.fault), []);
    }
    QuarterBlocksOutcome(net);
    QuarterBlocksLayout(net);
    ghost var reqs := Plan(vpcId, blocks.value, names.value, azNames);
    var calls: seq<Call> := [];
    for i := 0 to 4
      invariant Fill(createSubnet, reqs, [], []) == Fill(createSubnet, reqs[i..], subnets, calls)
    {
      var request := SubnetRequest(vpcId, blocks.value[i], azNames[i % 2], names.value[i]);
      assert request == reqs[i];
      calls := calls + [CreateSubnet(request)];
      var subnet := createSubnet(request);
      if subnet.Raised? {
        return Run(Raised(subnet.fault), calls);
      }
      subnets := Put(subnets, names.value[i], subnet.value);
    }
    return Run(Ok(subnets), calls);
  }

  /** create_subnets calls nothing but create_subnet. */
  lemma CreateSubnetsCallsOnly(ip: Ipaddress, createSubnet: SubnetRequest -> Result<Id>, vpcId: Id,
                               cidrBlock: string, azNames: seq<string>)
    ensures forall c :: c in CreateSubnetsSpec(ip, createSubnet, vpcId, cidrBlock, azNames).calls ==> c.CreateSubnet?
  {
    var parsed := ip.parse(cidrBlock);
    if parsed.Some? && QuarterBlocks(parsed.value).Ok? && |azNames| >= 2 {
      var reqs := Plan(vpcId, QuarterBlocks(parsed.value).value, SubnetNames(azNames).value, azNames);
      FillCallsOnly(createSubnet, reqs, [], []);
    }
  }

  /** On a parent of prefix <= 30 with at least two zones, and a provider
      that creates every subnet: exactly four items, with distinct names,
      name i being role i + zone i % 2 and bound to the id returned for
      request i; exactly the four create_subnet calls were made. */
  lemma CreateSubnetsCreatesFour(ip: Ipaddress, createSubnet: SubnetRequest -> Result<Id>, vpcId: Id,
                                 cidrBlock: string, azNames: seq<string>)
    requires ip.parse(cidrBlock).Some? && ip.parse(cidrBlock).value.prefix <= 30 && |azNames| >= 2
    requires QuarterBlocks(ip.parse(cidrBlock).value).Ok?
    requires var reqs := Plan(vpcId, QuarterBlocks(ip.parse(cidrBlock).value).value, SubnetNames(azNames).value, azNames);
      forall i :: 0 <= i < 4 ==> createSubnet(reqs[i]).Ok?
    ensures var r := CreateSubnetsSpec(ip, createSubnet, vpcId, cidrBlock, azNames);
      var reqs := Plan(vpcId, QuarterBlocks(ip.parse(cidrBlock).value).value, SubnetNames(azNames).value, azNames);
      r.result.Ok? && |r.result.value| == 4 && DistinctKeys(r.result.value) &&
      (forall i :: 0 <= i < 4 ==> r.result.value[i] == (Roles[i] + azNames[i % 2], createSubnet(reqs[i]).value)) &&
      r.calls == CallsFor(reqs)
  {
    var net := ip.parse(cidrBlock).value;
    QuarterBlocksLayout(net);
    var reqs := Plan(vpcId, QuarterBlocks(net).value, SubnetNames(azNames).value, azNames);
    SubnetNamesDistinct(azNames);
    FillAllCreated(createSubnet, reqs, [], []);
  }

  /** The first create_subnet call that fails ends create_subnets with its
      fault, after exactly the calls up to and including it. */
  lemma CreateSubnetsStopsAtFault(ip: Ipaddress, createSubnet: SubnetRequest -> Result<Id>, vpcId: Id,
                                  cidrBlock: string, azNames: seq<string>, k: nat)
    requires ip.parse(cidrBlock).Some? && ip.parse(cidrBlock).value.prefix <= 30 && |azNames| >= 2
    requires QuarterBlocks(ip.parse(cidrBlock).value).Ok?
    requires k < 4
    requires var reqs := Plan(vpcId, QuarterBlocks(ip.parse(cidrBlock).value).value, SubnetNames(azNames).value, azNames);
      (forall i :: 0 <= i < k ==> createSubnet(reqs[i]).Ok?) && createSubnet(reqs[k]).Raised?
    ensures var r := CreateSubnetsSpec(ip, createSubnet, vpcId, cidrBlock, azNames);
      var reqs := Plan(vpcId, QuarterBlocks(ip.parse(cidrBlock).value).value, SubnetNames(azNames).value, azNames);
      r.result == Raised(createSubnet(reqs[k]).fault) && r.calls == CallsFor(reqs[..k + 1])
  {
    var net := ip.parse(cidrBlock).value;
    QuarterBlocksLayout(net);
    var reqs := Plan(vpcId, QuarterBlocks(net).value, SubnetNames(azNames).value, azNames);
    FillStopsAtFault(createSubnet, reqs, [], [], k);
  }

  /** A /31 or /32 parent, or fewer than two zones, fails before any subnet is
      requested: ValueError for a /31 (it cannot be split two bits further),
      IndexError for a /32 (its subnet list has one entry) and for a missing
      second zone. */
  lemma CreateSubnetsFailsEarly(ip: Ipaddress, createSubnet: SubnetRequest -> Result<Id>, vpcId: Id,
                                cidrBlock: string, azNames: seq<string>)
    requires ip.parse(cidrBlock).Some?
    requires ip.parse(cidrBlock).value.prefix >= 31 || |azNames| < 2
    ensures var r := CreateSubnetsSpec(ip, createSubnet, vpcId, cidrBlock, azNames);
      var p := ip.parse(cidrBlock).value.prefix;
      r.result.Raised? && r.calls == [] &&
      (p == 31 ==> r.result.fault.ValueError?) &&
      (p != 31 ==> r.result.fault == IndexError)
  {
    var net := ip.parse(cidrBlock).value;
    QuarterBlocksOutcome(net);
    PrefixLenDiffIsTwo(net);
  }

  /** Whatever the provider answers, a dict create_subnets returns is the
      four-item dict of `subnet_names`, never the `{"error": ...}` dict. */
  lemma CreateSubnetsResultShape(ip: Ipaddress, createSubnet: SubnetRequest -> Result<Id>, vpcId: Id,
                                 cidrBlock: string, azNames: seq<string>)
    ensures var r := CreateSubnetsSpec(ip, createSubnet, vpcId, cidrBlock, azNames);
      r.result.Ok? ==> NamedByLayout(r.result.value, azNames)
  {
    var r := CreateSubnetsSpec(ip, createSubnet, vpcId, cidrBlock, azNames);
    if r.result.Ok? {
      var net := ip.parse(cidrBlock).value;
      PrefixLenDiffIsTwo(net);
      QuarterBlocksOutcome(net);
      QuarterBlocksLayout(net);
      var reqs := Plan(vpcId, QuarterBlocks(net).value, SubnetNames(azNames).value, azNames);
      if k :| 0 <= k < 4 && createSubnet(reqs[k]).Raised? {
        var k0 := FirstFailure(createSubnet, reqs, k);
        FillStopsAtFault(createSubnet, reqs, [], [], k0);
      }
      SubnetNamesDistinct(azNames);
      FillAllCreated(createSubnet, reqs, [], []);
    }
  }

  /** The least index at or below `k` whose request fails. */
  ghost function FirstFailure(createSubnet: SubnetRequest -> Result<Id>, reqs: seq<SubnetRequest>, k: nat): (f: nat)
    requires k < |reqs| && createSubnet(reqs[k]).Raised?
    ensures f <= k && createSubnet(reqs[f]).Raised?
    ensures forall j :: 0 <= j < f ==> createSubnet(reqs[j]).Ok?
  {
    if exists j :: 0 <= j < k && createSubnet(reqs[j]).Raised? then
      var j :| 0 <= j < k && createSubnet(reqs[j]).Raised?;
      FirstFailure(createSubnet, reqs, j)
    else k
  }
}
