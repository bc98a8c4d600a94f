/** The request handler of lambda/vpc_api.py: routing (lambda_handler),
    VPC provisioning (create_vpc and the helpers it calls) and the record
    lookup (get_vpcs). */
module VpcApi {
  import opened Python
  import opened Ipv4
  import opened Aws
  import opened SubnetLayout
  import opened Egress
  import opened RouteTables

  const VpcsResource: string := "/vpcs"
  const InvalidRequestMessage: string := "Invalid request"
  const MissingFieldsMessage: string := "Missing CIDR or region"
  const NotPrivateMessage: string := "CIDR is not a private IP range"
  const DuplicateMessage: string := "VPC with this CIDR already exists"
  const NoEgressMessage: string := "Egress subnet not found."
  const NoVpcIdMessage: string := "Provide vpc_id in query parameters"
  const NotFoundMessage: string := "VPC not found"

  /** The POST body as `json.loads` and `.get` see it: JSON null (the
      gateway's value for an empty body), text that is not JSON, a JSON value
      that is not an object, or an object with its two string fields. */
  datatype RequestBody =
    | NoBody
    | Unparsable
    | NotAnObject
    | Object(cidrBlock: Option<string>, region: Option<string>)

  /** `queryStringParameters`: null when the request has no query string. */
  datatype Query = NoQuery | Params(params: map<string, string>)

  /** The fields of the gateway event the handler reads; None is a missing key. */
  datatype Event = Event(email: Option<string>, resource: Option<string>, httpMethod: Option<string>,
                         body: Option<RequestBody>, query: Option<Query>)

  /** The JSON object of a response body. */
  datatype Payload =
    | Message(text: string)                     // {"message": text}
    | Conflict(text: string, vpcId: Id)         // {"message": text, "vpc_id": id}
    | Created(vpcId: Id, subnets: Dict<Id>)     // {"vpc_id": id, "subnets": {...}}
    | Item(record: VpcRecord)                   // the stored item itself
    | ErrorMessage(fault: Fault)                // {"message": str(e)}

  datatype Response = Response(statusCode: int, body: Payload)

  /** A response with the calls made to produce it. */
  datatype Outcome = Outcome(response: Response, calls: seq<Call>)

  /** What every `except Exception` clause returns. */
  function ServerError(f: Fault): Response {
    Response(500, ErrorMessage(f))
  }

  /** Python truthiness of an id or of `False`/`None`: a non-empty string. */
  predicate IsTruthy(id: Option<Id>) {
    id.Some? && id.value != ""
  }

  /** is_private_cidr (lines 114-119): a string that is no network is not private. */
  function IsPrivateCidr(ip: Ipaddress, cidr: string): bool {
    match ip.parse(cidr)
    case None => false
    case Some(net) => ip.isPrivate(net)
  }

  /** vpc_exists (lines 121-125), on the module-level client: the id of the
      first VPC with this block, or None for `False`. */
  function VpcExists(env: Env, cidr: string): Run<Option<Id>> {
    var calls := [DescribeVpcs(cidr)];
    match env.describeVpcs(cidr)
    case Raised(f) => Run(Raised(f), calls)
    case Ok(ids) => Run(Ok(if ids == [] then None else Some(ids[0])), calls)
  }

  /** Lines 51-61: create the VPC, enable DNS support and hostnames, list the
      region's zones; yields the VPC id and the zone names. */
  function SetUpVpc(ec2: Ec2, cidr: string, region: string, calls: seq<Call>): Run<(Id, seq<string>)> {
    var c1 := calls + [Call.CreateVpc(cidr, region)];
    match ec2.createVpc(cidr, region)
    case Raised(f) => Run(Raised(f), c1)
    case Ok(vpcId) =>
      var c2 := c1 + [ModifyVpcAttribute(vpcId, EnableDnsSupport)];
      match ec2.modifyVpcAttribute(vpcId, EnableDnsSupport)
      case Raised(f) => Run(Raised(f), c2)
      case Ok(_) =>
        var c3 := c2 + [ModifyVpcAttribute(vpcId, EnableDnsHostnames)];
        match ec2.modifyVpcAttribute(vpcId, EnableDnsHostnames)
        case Raised(f) => Run(Raised(f), c3)
        case Ok(_) =>
          var c4 := c3 + [DescribeAvailabilityZones(region)];
          match ec2.describeAvailabilityZones(region)
          case Raised(f) => Run(Raised(f), c4)
          case Ok(azNames) => Run(Ok((vpcId, azNames)), c4)
  }

  /** Lines 68-88, once the subnets exist: internet gateway, egress scan, NAT
      gateway in the egress subnet, route tables, the stored record, 201. */
  function Connect(env: Env, ec2: Ec2, rev: Revision, vpcId: Id, cidr: string, region: string,
                   email: string, azNames: seq<string>, subnets: Dict<Id>, calls: seq<Call>): Outcome
  {
    var c1 := calls + [CreateInternetGateway(vpcId)];
    match ec2.createInternetGateway(vpcId)
    case Raised(f) => Outcome(ServerError(f), c1)
    case Ok(igwId) =>
      var egress := FirstEgress(subnets);
      if !IsTruthy(egress) then Outcome(Response(500, Message(NoEgressMessage)), c1)
      else
        var c2 := c1 + [CreateNatGateway(egress.value)];
        match ec2.createNatGateway(egress.value)
        case Raised(f) => Outcome(ServerError(f), c2)
        case Ok(natId) =>
          var routes := CreateRouteTablesSpec(ec2, rev, vpcId, subnets, igwId, natId, azNames);
          var c3 := c2 + routes.calls;
          match routes.result
          case Raised(f) => Outcome(ServerError(f), c3)
          case Ok(_) =>
            var record := VpcRecord(vpcId, cidr, region, subnets, email);
            var c4 := c3 + [PutItem(record)];
            match env.table.putItem(record)
            case Raised(f) => Outcome(ServerError(f), c4)
            case Ok(_) => Outcome(Response(201, Created(vpcId, subnets)), c4)
  }

  /** The `try` block of create_vpc (lines 50-95): every exception becomes a 500. */
  function Provision(env: Env, rev: Revision, cidr: string, region: string, email: string,
                     calls: seq<Call>): Outcome
  {
    var ec2 := env.ec2In(region);
    var setup := SetUpVpc(ec2, cidr, region, calls);
    match setup.result
    case Raised(f) => Outcome(ServerError(f), setup.calls)
    case Ok((vpcId, azNames)) =>
      var created := CreateSubnetsSpec(env.ip, ec2.createSubnet, vpcId, cidr, azNames);
      var c1 := setup.calls + created.calls;
      match created.result
      case Raised(f) => Outcome(ServerError(f), c1)
      case Ok(subnets) => Connect(env, ec2, rev, vpcId, cidr, region, email, azNames, subnets, c1)
  }

  /** create_vpc (lines 34-95). Exceptions raised before the `try` (the body,
      the existence check) escape as Raised. */
  function CreateVpcSpec(env: Env, rev: Revision, body: RequestBody, email: string): Run<Response> {
    match body
    case NoBody => Run(Raised(TypeError), [])
    case Unparsable => Run(Raised(JsonDecodeError), [])
    case NotAnObject => Run(Raised(AttributeError), [])
    case Object(cidrBlock, region) =>
      if IsBlank(cidrBlock) || IsBlank(region) then Run(Ok(Response(400, Message(MissingFieldsMessage))), [])
      else if !IsPrivateCidr(env.ip, cidrBlock.value) then Run(Ok(Response(400, Message(NotPrivateMessage))), [])
      else
        var first := VpcExists(env, cidrBlock.value);
        match first.result
        case Raised(f) => Run(Raised(f), first.calls)
        case Ok(existing) =>
          if IsTruthy(existing) then
            var again := VpcExists(env, cidrBlock.value);
            Run(Ok(Response(409, Conflict(DuplicateMessage, again.result.value.value))), first.calls + again.calls)
          else
            var p := Provision(env, rev, cidrBlock.value, region.value, email, first.calls);
            Run(Ok(p.response), p.calls)
  }

  /** get_vpcs (lines 97-112). */
  function GetVpcs(table: Table, query: Query): Outcome {
    if query.Params? && "vpc_id" in query.params then
      var vpcId := query.params["vpc_id"];
      var calls := [GetItem(vpcId)];
      match table.getItem(vpcId)
      case Raised(f) => Outcome(ServerError(f), calls)
      case Ok(Some(item)) => Outcome(Response(200, Item(item)), calls)
      case Ok(None) => Outcome(Response(404, Message(NotFoundMessage)), calls)
    else Outcome(Response(400, Message(NoVpcIdMessage)), [])
  }

  /** lambda_handler (lines 15-32). A missing key anywhere on the path to the
      caller's email is reported as KeyError("email"). */
  function LambdaHandlerSpec(env: Env, rev: Revision, event: Event): Outcome {
    if event.email.None? then Outcome(ServerError(KeyError("email")), [])
    else if event.resource.None? then Outcome(ServerError(KeyError("resource")), [])
    else if event.resource.value != VpcsResource then Outcome(Response(400, Message(InvalidRequestMessage)), [])
    else if event.httpMethod.None? then Outcome(ServerError(KeyError("httpMethod")), [])
    else if event.httpMethod.value == "POST" then
      if event.body.None? then Outcome(ServerError(KeyError("body")), [])
      else
        var r := CreateVpcSpec(env, rev, event.body.value, event.email.value);
        match r.result
        case Raised(f) => Outcome(ServerError(f), r.calls)
        case Ok(response) => Outcome(response, r.calls)
    else if event.httpMethod.value == "GET" then
      if event.query.None? then Outcome(ServerError(KeyError("queryStringParameters")), [])
      else GetVpcs(env.table, event.query.value)
    else Outcome(Response(400, Message(InvalidRequestMessage)), [])
  }

  /** create_vpc, statement by statement. The function above specifies it;
      this method form exists to run the loop methods of create_subnets, the
      egress scan and create_route_tables, and its ensures ties the loops'
      outcome and call log back to that specification. */
  method CreateVpc(env: Env, rev: Revision, body: RequestBody, email: string) returns (r: Run<Response>)
    ensures r == CreateVpcSpec(env, rev, body, email)
  {
    if body.NoBody? {
      return Run(Raised(TypeError), []);
    } else if body.Unparsable? {
      return Run(Raised(JsonDecodeError), []);
    } else if body.NotAnObject? {
      return Run(Raised(AttributeError), []);
    }
    var cidrBlock, region := body.cidrBlock, body.region;
    if IsBlank(cidrBlock) || IsBlank(region) {
      return Run(Ok(Response(400, Message(MissingFieldsMessage))), []);
    }
    var cidr, reg := cidrBlock.value, region.value;
    if !IsPrivateCidr(env.ip, cidr) {
      return Run(Ok(Response(400, Message(NotPrivateMessage))), []);
    }
    var existing := VpcExists(env, cidr);
    if existing.result.Raised? {
      return Run(Raised(existing.result.fault), existing.calls);
    }
    if IsTruthy(existing.result.value) {
      var again := VpcExists(env, cidr);
      return Run(Ok(Response(409, Conflict(DuplicateMessage, again.result.value.value))), existing.calls + again.calls);
    }
    var calls := existing.calls;
    var ec2 := env.ec2In(reg);
    calls := calls + [Call.CreateVpc(cidr, reg)];
    var vpc := ec2.createVpc(cidr, reg);
    if vpc.Raised? {
      return Run(Ok(ServerError(vpc.fault)), calls);
    }
    var vpcId := vpc.value;
    calls := calls + [ModifyVpcAttribute(vpcId, EnableDnsSupport)];
    var modified := ec2.modifyVpcAttribute(vpcId, EnableDnsSupport);
    if modified.Raised? {
      return Run(Ok(ServerError(modified.fault)), calls);
    }
    calls := calls + [ModifyVpcAttribute(vpcId, EnableDnsHostnames)];
    modified := ec2.modifyVpcAttribute(vpcId, EnableDnsHostnames);
    if modified.Raised? {
      return Run(Ok(ServerError(modified.fault)), calls);
    }
    calls := calls + [DescribeAvailabilityZones(reg)];
    var zones := ec2.describeAvailabilityZones(reg);
    if zones.Raised? {
      return Run(Ok(ServerError(zones.fault)), calls);
    }
    var azNames := zones.value;
    var created := CreateSubnets(env.ip, ec2.createSubnet, vpcId, cidr, azNames);
    calls := calls + created.calls;
    if created.result.Raised? {
      return Run(Ok(ServerError(created.result.fault)), calls);
    }
    var subnets := created.result.value;
    calls := calls + [CreateInternetGateway(vpcId)];
    var igw := ec2.createInternetGateway(vpcId);
    if igw.Raised? {
      return Run(Ok(ServerError(igw.fault)), calls);
    }
    var egress := FindEgressSubnet(subnets);
    if !IsTruthy(egress) {
      return Run(Ok(Response(500, Message(NoEgressMessage))), calls);
    }
    calls := calls + [CreateNatGateway(egress.value)];
    var natGateway := ec2.createNatGateway(egress.value);
    if natGateway.Raised? {
      return Run(Ok(ServerError(natGateway.fault)), calls);
    }
    var routes := CreateRouteTables(ec2, rev, vpcId, subnets, igw.value, natGateway.value, azNames);
    calls := calls + routes.calls;
    if routes.result.Raised? {
      return Run(Ok(ServerError(routes.result.fault)), calls);
    }
    var record := VpcRecord(vpcId, cidr, reg, subnets, email);
    calls := calls + [PutItem(record)];
    var stored := env.table.putItem(record);
    if stored.Raised? {
      return Run(Ok(ServerError(stored.fault)), calls);
    }
    return Run(Ok(Response(201, Created(vpcId, subnets))), calls);
  }

  /** lambda_handler: route, then turn an escaping exception into a 500. It
      has no loop of its own; it exists as a method to call CreateVpc, and
      with it the loop methods, and is proved equal to LambdaHandlerSpec. */
  method LambdaHandler(env: Env, rev: Revision, event: Event) returns (r: Outcome)
    ensures r == LambdaHandlerSpec(env, rev, event)
  {
    if event.email.None? {
      return Outcome(ServerError(KeyError("email")), []);
    } else if event.resource.None? {
      return Outcome(ServerError(KeyError("resource")), []);
    } else if event.resource.value != VpcsResource {
      return Outcome(Response(400, Message(InvalidRequestMessage)), []);
    } else if event.httpMethod.None? {
      return Outcome(ServerError(KeyError("httpMethod")), []);
    } else if event.httpMethod.value == "POST" {
      if event.body.None? {
        return Outcome(ServerError(KeyError("body")), []);
      }
      var created := CreateVpc(env, rev, event.body.value, event.email.value);
      if created.result.Raised? {
        return Outcome(ServerError(created.result.fault), created.calls);
      }
      return Outcome(created.result.value, created.calls);
    } else if event.httpMethod.value == "GET" {
      if event.query.None? {
        return Outcome(ServerError(KeyError("queryStringParameters")), []);
      }
      return GetVpcs(env.table, event.query.value);
    }
    return Outcome(Response(400, Message(InvalidRequestMessage)), []);
  }

  /** A request that passes the three checks of lines 41-48: both fields
      present and non-empty, a private block, and no VPC with that block. */
  ghost predicate Admitted(env: Env, body: RequestBody) {
    body.Object? && !IsBlank(body.cidrBlock) && !IsBlank(body.region) &&
    IsPrivateCidr(env.ip, body.cidrBlock.value) &&
    VpcExists(env, body.cidrBlock.value).result.Ok? &&
    !IsTruthy(VpcExists(env, body.cidrBlock.value).result.value)
  }

  lemma SetUpStartsWithVpc(ec2: Ec2, cidr: string, region: string, calls: seq<Call>)
    ensures calls + [Call.CreateVpc(cidr, region)] <= SetUpVpc(ec2, cidr, region, calls).calls
  {
  }

  lemma ConnectExtends(env: Env, ec2: Ec2, rev: Revision, vpcId: Id, cidr: string, region: string,
                       email: string, azNames: seq<string>, subnets: Dict<Id>, calls: seq<Call>)
    ensures var o := Connect(env, ec2, rev, vpcId, cidr, region, email, azNames, subnets, calls);
      calls <= o.calls && (o.response.statusCode == 201 || o.response.statusCode == 500)
  {
  }

  /** Provisioning starts by creating the VPC, only appends to the log, and
      answers 201 or 500. */
  lemma ProvisionStartsWithVpc(env: Env, rev: Revision, cidr: string, region: string, email: string,
                               calls: seq<Call>)
    ensures var p := Provision(env, rev, cidr, region, email, calls);
      calls + [Call.CreateVpc(cidr, region)] <= p.calls &&
      (p.response.statusCode == 201 || p.response.statusCode == 500)
  {
    var ec2 := env.ec2In(region);
    var setup := SetUpVpc(ec2, cidr, region, calls);
    SetUpStartsWithVpc(ec2, cidr, region, calls);
    if setup.result.Ok? {
      var (vpcId, azNames) := setup.result.value;
      var created := CreateSubnetsSpec(env.ip, ec2.createSubnet, vpcId, cidr, azNames);
      if created.result.Ok? {
        ConnectExtends(env, ec2, rev, vpcId, cidr, region, email, azNames, created.result.value,
                       setup.calls + created.calls);
      }
    }
  }

  /** Lines 36-49: create_vpc changes nothing at the provider or in the table
      unless the request passes every check, and then its first change is
      the VPC itself, right after the one existence query. A request that
      fails a check is only ever queried. */
  lemma ChangesOnlyWhenAdmitted(env: Env, rev: Revision, body: RequestBody, email: string)
    ensures var r := CreateVpcSpec(env, rev, body, email);
      (exists i :: 0 <= i < |r.calls| && Mutates(r.calls[i])) <==> Admitted(env, body)
    ensures var r := CreateVpcSpec(env, rev, body, email);
      Admitted(env, body) ==>
        [DescribeVpcs(body.cidrBlock.value), Call.CreateVpc(body.cidrBlock.value, body.region.value)] <= r.calls
    ensures var r := CreateVpcSpec(env, rev, body, email);
      !Admitted(env, body) ==> |r.calls| <= 2 && forall c :: c in r.calls ==> c.DescribeVpcs?
  {
    var r := CreateVpcSpec(env, rev, body, email);
    if Admitted(env, body) {
      var cidr, region := body.cidrBlock.value, body.region.value;
      ProvisionStartsWithVpc(env, rev, cidr, region, email, [DescribeVpcs(cidr)]);
      assert [DescribeVpcs(cidr)] + [Call.CreateVpc(cidr, region)] == [DescribeVpcs(cidr), Call.CreateVpc(cidr, region)];
      assert Mutates(r.calls[1]);
    }
  }

  /** The answer to each failed check of lines 36-45: a body that is not a
      JSON object raises; a missing or empty field, a block that is not a
      network or a public block is a 400. None of these makes a call. */
  lemma CheckResponses(env: Env, rev: Revision, body: RequestBody, email: string)
    ensures var r := CreateVpcSpec(env, rev, body, email);
      (body.NoBody? ==> r == Run(Raised(TypeError), [])) &&
      (body.Unparsable? ==> r == Run(Raised(JsonDecodeError), [])) &&
      (body.NotAnObject? ==> r == Run(Raised(AttributeError), [])) &&
      (body.Object? && (IsBlank(body.cidrBlock) || IsBlank(body.region)) ==>
         r == Run(Ok(Response(400, Message(MissingFieldsMessage))), []))
    ensures var r := CreateVpcSpec(env, rev, body, email);
      body.Object? && !IsBlank(body.cidrBlock) && !IsBlank(body.region) ==>
        (env.ip.parse(body.cidrBlock.value).None? ==>
           r == Run(Ok(Response(400, Message(NotPrivateMessage))), [])) &&
        (!IsPrivateCidr(env.ip, body.cidrBlock.value) ==>
           r == Run(Ok(Response(400, Message(NotPrivateMessage))), []))
  {
  }

  /** Lines 47-48: the answer is 409 exactly when the checks before it pass
      and the query finds a VPC with a non-empty id; it names the first VPC
      found, after two identical queries. */
  lemma ConflictResponse(env: Env, rev: Revision, body: RequestBody, email: string)
    ensures var r := CreateVpcSpec(env, rev, body, email);
      r.result.Ok? && r.result.value.statusCode == 409 <==>
        body.Object? && !IsBlank(body.cidrBlock) && !IsBlank(body.region) &&
        IsPrivateCidr(env.ip, body.cidrBlock.value) &&
        env.describeVpcs(body.cidrBlock.value).Ok? &&
        |env.describeVpcs(body.cidrBlock.value).value| > 0 &&
        env.describeVpcs(body.cidrBlock.value).value[0] != ""
    ensures var r := CreateVpcSpec(env, rev, body, email);
      r.result.Ok? && r.result.value.statusCode == 409 ==>
        var cidr := body.cidrBlock.value;
        r.result.value.body == Conflict(DuplicateMessage, env.describeVpcs(cidr).value[0]) &&
        r.calls == [DescribeVpcs(cidr), DescribeVpcs(cidr)]
  {
    if body.Object? && !IsBlank(body.cidrBlock) && !IsBlank(body.region) {
      ProvisionStartsWithVpc(env, rev, body.cidrBlock.value, body.region.value, email,
                             [DescribeVpcs(body.cidrBlock.value)]);
    }
  }

  /** A call that create_vpc makes only once the VPC is set up: a subnet,
      a gateway, a route table or its association, or the stored record. */
  predicate AfterSetUp(c: Call) {
    c.CreateSubnet? || c.CreateInternetGateway? || c.CreateNatGateway? ||
    c.CreateRouteTable? || c.AssociateRouteTable? || c.PutItem?
  }

  /** Provisioning a /31 or /32 stops after the set-up calls: with the VPC
      made, the quarters cannot be cut (ValueError for a /31, IndexError for
      a /32) and the answer is a 500. */
  lemma SmallBlockProvision(env: Env, rev: Revision, cidr: string, region: string, email: string,
                            calls: seq<Call>)
    requires env.ip.parse(cidr).Some? && env.ip.parse(cidr).value.prefix >= 31
    ensures var p := Provision(env, rev, cidr, region, email, calls);
      var setup := SetUpVpc(env.ec2In(region), cidr, region, calls);
      p.calls == setup.calls && p.response.statusCode == 500 &&
      (setup.result.Ok? ==>
         p.response.body.ErrorMessage? &&
         (env.ip.parse(cidr).value.prefix == 31 ==> p.response.body.fault.ValueError?) &&
         (env.ip.parse(cidr).value.prefix == 32 ==> p.response.body.fault == IndexError))
  {
    var ec2 := env.ec2In(region);
    var setup := SetUpVpc(ec2, cidr, region, calls);
    if setup.result.Ok? {
      var (vpcId, azNames) := setup.result.value;
      CreateSubnetsFailsEarly(env.ip, ec2.createSubnet, vpcId, cidr, azNames);
      assert setup.calls + [] == setup.calls;
    }
  }

  /** The set-up calls create the VPC and nothing that needs a subnet. */
  lemma SetUpCalls(ec2: Ec2, cidr: string, region: string, calls: seq<Call>)
    ensures var setup := SetUpVpc(ec2, cidr, region, calls);
      calls + [Call.CreateVpc(cidr, region)] <= setup.calls &&
      forall i :: |calls| <= i < |setup.calls| ==> !AfterSetUp(setup.calls[i])
  {
  }

  /** A private /31 or /32 that passes the checks gets a VPC and then a 500,
      and no subnet, gateway, route table or record is created: the VPC is
      left in place. */
  lemma SmallBlockFailsAfterVpc(env: Env, rev: Revision, body: RequestBody, email: string)
    requires Admitted(env, body)
    requires env.ip.parse(body.cidrBlock.value).value.prefix >= 31
    ensures var r := CreateVpcSpec(env, rev, body, email);
      r.result.Ok? && r.result.value.statusCode == 500 &&
      r.calls[1] == Call.CreateVpc(body.cidrBlock.value, body.region.value) &&
      forall c :: c in r.calls ==> !AfterSetUp(c)
  {
    var cidr, region := body.cidrBlock.value, body.region.value;
    var calls := [DescribeVpcs(cidr)];
    SmallBlockProvision(env, rev, cidr, region, email, calls);
    SetUpCalls(env.ec2In(region), cidr, region, calls);
    var r := CreateVpcSpec(env, rev, body, email);
    forall c | c in r.calls
      ensures !AfterSetUp(c)
    {
      var i :| 0 <= i < |r.calls| && r.calls[i] == c;
      if i == 0 {
        assert r.calls[0] == calls[0];
      }
    }
  }

  /** Lines 69-79: when no subnet name holds "egresssubnet", or the match has
      an empty id, the answer is 500 "Egress subnet not found." right after
      the internet gateway: no NAT gateway, route table or record. */
  lemma NoEgressStopsBeforeNat(env: Env, ec2: Ec2, rev: Revision, vpcId: Id, cidr: string, region: string,
                               email: string, azNames: seq<string>, subnets: Dict<Id>, calls: seq<Call>)
    requires ec2.createInternetGateway(vpcId).Ok?
    requires !IsTruthy(FirstEgress(subnets))
    ensures Connect(env, ec2, rev, vpcId, cidr, region, email, azNames, subnets, calls) ==
            Outcome(Response(500, Message(NoEgressMessage)), calls + [CreateInternetGateway(vpcId)])
  {
  }

  /** Lines 75-76: the NAT gateway is created only in the subnet the scan
      found, and only if its id is not empty. */
  lemma NatInEgressSubnet(env: Env, ec2: Ec2, rev: Revision, vpcId: Id, cidr: string, region: string,
                          email: string, azNames: seq<string>, subnets: Dict<Id>, calls: seq<Call>)
    ensures var o := Connect(env, ec2, rev, vpcId, cidr, region, email, azNames, subnets, calls);
      |o.calls| > |calls| + 1 ==>
        IsTruthy(FirstEgress(subnets)) && o.calls[|calls| + 1] == CreateNatGateway(FirstEgress(subnets).value)
  {
    var o := Connect(env, ec2, rev, vpcId, cidr, region, email, azNames, subnets, calls);
    if |o.calls| > |calls| + 1 {
      assert ec2.createInternetGateway(vpcId).Ok? && IsTruthy(FirstEgress(subnets));
      var c2 := calls + [CreateInternetGateway(vpcId)] + [CreateNatGateway(FirstEgress(subnets).value)];
      assert c2 <= o.calls;
      assert o.calls[|calls| + 1] == c2[|calls| + 1];
    }
  }

  /** Lines 86-88: a 201 answer is given only after the record of the new VPC
      (its id, the block, the region, the subnets dict returned in the answer
      and the caller's email) was written, as the last call; and the request
      passed every check. */
  lemma CreatedIsStored(env: Env, rev: Revision, body: RequestBody, email: string)
    ensures var r := CreateVpcSpec(env, rev, body, email);
      r.result.Ok? && r.result.value.statusCode == 201 ==>
        Admitted(env, body) && r.result.value.body.Created? &&
        var record := VpcRecord(r.result.value.body.vpcId, body.cidrBlock.value, body.region.value,
                                r.result.value.body.subnets, email);
        |r.calls| > 0 && r.calls[|r.calls| - 1] == PutItem(record) && env.table.putItem(record).Ok?
  {
    var r := CreateVpcSpec(env, rev, body, email);
    if r.result.Ok? && r.result.value.statusCode == 201 {
      ConflictResponse(env, rev, body, email);
      assert Admitted(env, body);
    }
  }

  /** As written, create_vpc answers 201 only when every zone of the region
      has the same name: a region whose zones differ never gets past the
      private route table (lines 192-194). */
  lemma AsWrittenCreatesOnlyInOneZone(env: Env, body: RequestBody, email: string)
    ensures var r := CreateVpcSpec(env, AsWritten, body, email);
      r.result.Ok? && r.result.value.statusCode == 201 ==>
        var zones := env.ec2In(body.region.value).describeAvailabilityZones(body.region.value);
        zones.Ok? && |zones.value| >= 2 && forall i :: 0 <= i < |zones.value| ==> zones.value[i] == zones.value[0]
  {
    var r := CreateVpcSpec(env, AsWritten, body, email);
    if r.result.Ok? && r.result.value.statusCode == 201 {
      CreatedIsStored(env, AsWritten, body, email);
      var cidr, region := body.cidrBlock.value, body.region.value;
      var ec2 := env.ec2In(region);
      var setup := SetUpVpc(ec2, cidr, region, [DescribeVpcs(cidr)]);
      assert setup.result.Ok?;
      var (vpcId, azNames) := setup.result.value;
      var created := CreateSubnetsSpec(env.ip, ec2.createSubnet, vpcId, cidr, azNames);
      assert created.result.Ok?;
      CreateSubnetsResultShape(env.ip, ec2.createSubnet, vpcId, cidr, azNames);
      var subnets := created.result.value;
      var igwId := ec2.createInternetGateway(vpcId).value;
      var natId := ec2.createNatGateway(FirstEgress(subnets).value).value;
      assert CreateRouteTablesSpec(ec2, AsWritten, vpcId, subnets, igwId, natId, azNames).result.Ok?;
      AsWrittenCompletesOnlyForOneZone(ec2, vpcId, subnets, igwId, natId, azNames);
    }
  }

  /** A provider client that accepts every call and names each subnet. */
  ghost predicate Cooperative(ec2: Ec2) {
    (forall c, r :: ec2.createVpc(c, r).Ok?) &&
    (forall v, a :: ec2.modifyVpcAttribute(v, a).Ok?) &&
    (forall r :: ec2.describeAvailabilityZones(r).Ok?) &&
    (forall q :: ec2.createSubnet(q).Ok? && ec2.createSubnet(q).value != "") &&
    (forall v :: ec2.createInternetGateway(v).Ok?) &&
    (forall s :: ec2.createNatGateway(s).Ok?) &&
    RouteCallsSucceed(ec2)
  }

  /** An admitted request for a private block of prefix 30 or shorter, in a
      region with at least two zones and a provider that accepts everything:
      the subnets are created with the layout's names, the scan finds a
      truthy egress id and the NAT gateway is created, and what follows is
      decided by the route tables of `rev`. */
  lemma CooperativeReachesRouteTables(env: Env, rev: Revision, body: RequestBody, email: string)
    requires Admitted(env, body) && Cooperative(env.ec2In(body.region.value))
    requires env.ip.parse(body.cidrBlock.value).value.prefix <= 30
    requires |env.ec2In(body.region.value).describeAvailabilityZones(body.region.value).value| >= 2
    ensures var cidr, region := body.cidrBlock.value, body.region.value;
      var ec2 := env.ec2In(region);
      var vpcId := ec2.createVpc(cidr, region).value;
      var azNames := ec2.describeAvailabilityZones(region).value;
      var created := CreateSubnetsSpec(env.ip, ec2.createSubnet, vpcId, cidr, azNames);
      created.result.Ok? && NamedByLayout(created.result.value, azNames) &&
      IsTruthy(FirstEgress(created.result.value)) &&
      var subnets := created.result.value;
      var igwId := ec2.createInternetGateway(vpcId).value;
      var natId := ec2.createNatGateway(FirstEgress(subnets).value).value;
      var routes := CreateRouteTablesSpec(ec2, rev, vpcId, subnets, igwId, natId, azNames);
      var r := CreateVpcSpec(env, rev, body, email);
      r.result.Ok? &&
      (routes.result.Raised? ==> r.result.value == ServerError(routes.result.fault)) &&
      (routes.result.Ok? ==>
         var record := VpcRecord(vpcId, cidr, region, subnets, email);
         env.table.putItem(record).Ok? ==> r.result.value == Response(201, Created(vpcId, subnets)))
  {
    var cidr, region := body.cidrBlock.value, body.region.value;
    var ec2 := env.ec2In(region);
    var vpcId := ec2.createVpc(cidr, region).value;
    var azNames := ec2.describeAvailabilityZones(region).value;
    var net := env.ip.parse(cidr).value;
    QuarterBlocksLayout(net);
    var reqs := Plan(vpcId, QuarterBlocks(net).value, SubnetNames(azNames).value, azNames);
    CreateSubnetsCreatesFour(env.ip, ec2.createSubnet, vpcId, cidr, azNames);
    var subnets := CreateSubnetsSpec(env.ip, ec2.createSubnet, vpcId, cidr, azNames).result.value;
    assert NamedByLayout(subnets, azNames);
    EgressOfCreatedSubnets(subnets, azNames);
    assert subnets[0].1 == ec2.createSubnet(reqs[0]).value && subnets[1].1 == ec2.createSubnet(reqs[1]).value;
    assert IsTruthy(FirstEgress(subnets));
  }

  /** Finding, as written: with two differently named zones and a provider
      that accepts everything, every admitted request for a block of prefix
      30 or shorter gets a 500 KeyError for "datasubnet" + zone 0, after the
      VPC, its subnets, the gateways and both route tables were made. */
  lemma AsWrittenFailsForTwoZones(env: Env, body: RequestBody, email: string)
    requires Admitted(env, body) && Cooperative(env.ec2In(body.region.value))
    requires env.ip.parse(body.cidrBlock.value).value.prefix <= 30
    requires var azNames := env.ec2In(body.region.value).describeAvailabilityZones(body.region.value).value;
      |azNames| >= 2 && azNames[0] != azNames[1]
    ensures var azNames := env.ec2In(body.region.value).describeAvailabilityZones(body.region.value).value;
      CreateVpcSpec(env, AsWritten, body, email).result == Ok(ServerError(KeyError(Roles[3] + azNames[0])))
  {
    CooperativeReachesRouteTables(env, AsWritten, body, email);
    var cidr, region := body.cidrBlock.value, body.region.value;
    var ec2 := env.ec2In(region);
    var vpcId := ec2.createVpc(cidr, region).value;
    var azNames := ec2.describeAvailabilityZones(region).value;
    var subnets := CreateSubnetsSpec(env.ip, ec2.createSubnet, vpcId, cidr, azNames).result.value;
    var igwId := ec2.createInternetGateway(vpcId).value;
    var natId := ec2.createNatGateway(FirstEgress(subnets).value).value;
    AsWrittenMissesDataSubnet(ec2, vpcId, subnets, igwId, natId, azNames);
  }

  /** Every step of the `try` block before the record succeeds: the VPC and
      its set-up, the subnets, the internet gateway, a truthy egress id, the
      NAT gateway and the route tables of `rev`. */
  ghost predicate StoreReached(env: Env, rev: Revision, cidr: string, region: string) {
    var ec2 := env.ec2In(region);
    var setup := SetUpVpc(ec2, cidr, region, []);
    setup.result.Ok? &&
    var (vpcId, azNames) := setup.result.value;
    var created := CreateSubnetsSpec(env.ip, ec2.createSubnet, vpcId, cidr, azNames);
    created.result.Ok? && ec2.createInternetGateway(vpcId).Ok? && IsTruthy(FirstEgress(created.result.value)) &&
    ec2.createNatGateway(FirstEgress(created.result.value).value).Ok? &&
    var igwId := ec2.createInternetGateway(vpcId).value;
    var natId := ec2.createNatGateway(FirstEgress(created.result.value).value).value;
    CreateRouteTablesSpec(ec2, rev, vpcId, created.result.value, igwId, natId, azNames).result.Ok?
  }

  /** The record of line 83 is written only once every earlier step of the
      `try` block succeeded, route tables included. */
  lemma ProvisionStoresOnlyAfterRoutes(env: Env, rev: Revision, cidr: string, region: string, email: string,
                                       calls: seq<Call>)
    requires forall c :: c in calls ==> !c.PutItem?
    ensures (exists c :: c in Provision(env, rev, cidr, region, email, calls).calls && c.PutItem?) ==>
              StoreReached(env, rev, cidr, region)
  {
    var ec2 := env.ec2In(region);
    var setup := SetUpVpc(ec2, cidr, region, calls);
    SetUpCalls(ec2, cidr, region, calls);
    assert setup.result == SetUpVpc(ec2, cidr, region, []).result;
    forall c | c in setup.calls
      ensures !c.PutItem?
    {
      var i :| 0 <= i < |setup.calls| && setup.calls[i] == c;
      if i < |calls| {
        assert setup.calls[i] == calls[i];
      }
    }
    if setup.result.Ok? {
      var (vpcId, azNames) := setup.result.value;
      var created := CreateSubnetsSpec(env.ip, ec2.createSubnet, vpcId, cidr, azNames);
      CreateSubnetsCallsOnly(env.ip, ec2.createSubnet, vpcId, cidr, azNames);
      if created.result.Ok? && ec2.createInternetGateway(vpcId).Ok? && IsTruthy(FirstEgress(created.result.value)) &&
         ec2.createNatGateway(FirstEgress(created.result.value).value).Ok?
      {
        var subnets := created.result.value;
        var igwId := ec2.createInternetGateway(vpcId).value;
        var natId := ec2.createNatGateway(FirstEgress(subnets).value).value;
        RouteTableCallsOnly(ec2, rev, vpcId, subnets, igwId, natId, azNames);
      }
    }
  }

  /** Finding, as written: in the run of AsWrittenFailsForTwoZones no record
      is stored: the log holds no put_item. */
  lemma AsWrittenStoresNothing(env: Env, body: RequestBody, email: string)
    requires Admitted(env, body) && Cooperative(env.ec2In(body.region.value))
    requires env.ip.parse(body.cidrBlock.value).value.prefix <= 30
    requires var azNames := env.ec2In(body.region.value).describeAvailabilityZones(body.region.value).value;
      |azNames| >= 2 && azNames[0] != azNames[1]
    ensures forall c :: c in CreateVpcSpec(env, AsWritten, body, email).calls ==> !c.PutItem?
  {
    CooperativeReachesRouteTables(env, AsWritten, body, email);
    var cidr, region := body.cidrBlock.value, body.region.value;
    var ec2 := env.ec2In(region);
    var vpcId := ec2.createVpc(cidr, region).value;
    var azNames := ec2.describeAvailabilityZones(region).value;
    var subnets := CreateSubnetsSpec(env.ip, ec2.createSubnet, vpcId, cidr, azNames).result.value;
    var igwId := ec2.createInternetGateway(vpcId).value;
    var natId := ec2.createNatGateway(FirstEgress(subnets).value).value;
    AsWrittenMissesDataSubnet(ec2, vpcId, subnets, igwId, natId, azNames);
    assert SetUpVpc(ec2, cidr, region, []).result == Ok((vpcId, azNames));
    assert !StoreReached(env, AsWritten, cidr, region);
    ProvisionStoresOnlyAfterRoutes(env, AsWritten, cidr, region, email, [DescribeVpcs(cidr)]);
  }

  /** Corrected: under the same conditions, and a table that accepts the
      record, every admitted request for a block of prefix 30 or shorter
      gets a 201 with the new VPC's id and its four named subnets. */
  lemma CorrectedCreates(env: Env, body: RequestBody, email: string)
    requires Admitted(env, body) && Cooperative(env.ec2In(body.region.value))
    requires forall record :: env.table.putItem(record).Ok?
    requires env.ip.parse(body.cidrBlock.value).value.prefix <= 30
    requires |env.ec2In(body.region.value).describeAvailabilityZones(body.region.value).value| >= 2
    ensures var r := CreateVpcSpec(env, Corrected, body, email);
      var azNames := env.ec2In(body.region.value).describeAvailabilityZones(body.region.value).value;
      r.result.Ok? && r.result.value.statusCode == 201 && r.result.value.body.Created? &&
      r.result.value.body.vpcId == env.ec2In(body.region.value).createVpc(body.cidrBlock.value, body.region.value).value &&
      NamedByLayout(r.result.value.body.subnets, azNames)
  {
    CooperativeReachesRouteTables(env, Corrected, body, email);
    var cidr, region := body.cidrBlock.value, body.region.value;
    var ec2 := env.ec2In(region);
    var vpcId := ec2.createVpc(cidr, region).value;
    var azNames := ec2.describeAvailabilityZones(region).value;
    var subnets := CreateSubnetsSpec(env.ip, ec2.createSubnet, vpcId, cidr, azNames).result.value;
    var igwId := ec2.createInternetGateway(vpcId).value;
    var natId := ec2.createNatGateway(FirstEgress(subnets).value).value;
    CorrectedCompletes(ec2, vpcId, subnets, igwId, natId, azNames);
  }

  /** The query names a VPC: it is not null and holds "vpc_id". */
  predicate NamesVpc(query: Query) {
    query.Params? && "vpc_id" in query.params
  }

  /** get_vpcs (lines 97-112): one read of the table, and only when the query
      names a VPC; 200 with the stored item exactly when there is one, 404
      when there is none, 400 without a vpc_id, 500 when the read fails. */
  lemma GetVpcsAnswers(table: Table, query: Query)
    ensures var o := GetVpcs(table, query);
      (!NamesVpc(query) <==> o.response.statusCode == 400) &&
      (!NamesVpc(query) ==> o == Outcome(Response(400, Message(NoVpcIdMessage)), []))
    ensures var o := GetVpcs(table, query);
      NamesVpc(query) ==>
        var answer := table.getItem(query.params["vpc_id"]);
        o.calls == [GetItem(query.params["vpc_id"])] &&
        (o.response.statusCode == 200 <==> answer.Ok? && answer.value.Some?) &&
        (o.response.statusCode == 200 ==> o.response.body == Item(answer.value.value)) &&
        (o.response.statusCode == 404 <==> answer == Ok(None)) &&
        (o.response.statusCode == 500 <==> answer.Raised?)
    ensures forall c :: c in GetVpcs(table, query).calls ==> !Mutates(c)
  {
  }

  /** lambda_handler (lines 15-32): POST /vpcs is create_vpc with any escaping
      exception as a 500; GET /vpcs is get_vpcs; any other request with an
      email and a resource is a 400; every answer is one of the codes the
      handler and its callees return. */
  lemma HandlerRoutes(env: Env, rev: Revision, event: Event)
    ensures var o := LambdaHandlerSpec(env, rev, event);
      o.response.statusCode in {200, 201, 400, 404, 409, 500}
    ensures var o := LambdaHandlerSpec(env, rev, event);
      (event.email.None? || event.resource.None? ||
       (event.resource == Some(VpcsResource) && event.httpMethod.None?)) ==>
        o.response.statusCode == 500 && o.response.body.ErrorMessage? && o.calls == []
    ensures var o := LambdaHandlerSpec(env, rev, event);
      (event.email.Some? && event.resource == Some(VpcsResource) && event.httpMethod == Some("POST") &&
       event.body.Some?) ==>
        var r := CreateVpcSpec(env, rev, event.body.value, event.email.value);
        o.calls == r.calls &&
        o.response == (if r.result.Raised? then ServerError(r.result.fault) else r.result.value)
    ensures var o := LambdaHandlerSpec(env, rev, event);
      (event.email.Some? && event.resource == Some(VpcsResource) && event.httpMethod == Some("GET") &&
       event.query.Some?) ==> o == GetVpcs(env.table, event.query.value)
    ensures var o := LambdaHandlerSpec(env, rev, event);
      event.email.Some? && event.resource.Some? &&
      (event.resource.value != VpcsResource ||
       (event.httpMethod.Some? && event.httpMethod.value != "POST" && event.httpMethod.value != "GET")) ==>
        o == Outcome(Response(400, Message(InvalidRequestMessage)), [])
    ensures var o := LambdaHandlerSpec(env, rev, event);
      (event.email.Some? && event.resource == Some(VpcsResource) && event.httpMethod == Some("POST") &&
       event.body.None?) ==> o == Outcome(ServerError(KeyError("body")), [])
    ensures var o := LambdaHandlerSpec(env, rev, event);
      (event.email.Some? && event.resource == Some(VpcsResource) && event.httpMethod == Some("GET") &&
       event.query.None?) ==> o == Outcome(ServerError(KeyError("queryStringParameters")), [])
  {
    if event.email.Some? && event.resource == Some(VpcsResource) && event.httpMethod == Some("POST") &&
       event.body.Some? {
      var body := event.body.value;
      ConflictResponse(env, rev, body, event.email.value);
      if Admitted(env, body) {
        ProvisionStartsWithVpc(env, rev, body.cidrBlock.value, body.region.value, event.email.value,
                               [DescribeVpcs(body.cidrBlock.value)]);
      }
    } else if event.email.Some? && event.resource == Some(VpcsResource) && event.httpMethod == Some("GET") &&
              event.query.Some? {
      GetVpcsAnswers(env.table, event.query.value);
    }
  }

  /** Only an admitted POST /vpcs with the caller's email changes anything at
      the provider or in the table; every other request at most reads. */
  lemma OnlyAdmittedPostChanges(env: Env, rev: Revision, event: Event)
    ensures var o := LambdaHandlerSpec(env, rev, event);
      (exists i :: 0 <= i < |o.calls| && Mutates(o.calls[i])) ==>
        event.email.Some? && event.resource == Some(VpcsResource) && event.httpMethod == Some("POST") &&
        event.body.Some? && Admitted(env, event.body.value)
  {
    var o := LambdaHandlerSpec(env, rev, event);
    if event.email.Some? && event.resource == Some(VpcsResource) && event.httpMethod == Some("POST") &&
       event.body.Some? {
      ChangesOnlyWhenAdmitted(env, rev, event.body.value, event.email.value);
    } else if event.email.Some? && event.resource == Some(VpcsResource) && event.httpMethod == Some("GET") &&
              event.query.Some? {
      GetVpcsAnswers(env.table, event.query.value);
      assert forall i :: 0 <= i < |o.calls| ==> o.calls[i] in o.calls;
    }
  }
}
