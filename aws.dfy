/** The collaborators the handler calls but does not implement: the EC2 API
    (module-level and per-region clients), the DynamoDB table and the
    `ipaddress` classification. Each is a record of answer functions, and
    every flow function returns the log of calls it made. */
module Aws {
  import opened Python
  import opened Ipv4

  /** A provider-assigned identifier (VpcId, SubnetId, ...). */
  type Id = string

  /** The `ipaddress` library: strict parsing of a CIDR string (None where
      `ip_network` raises ValueError) and its `is_private` range table. */
  datatype Ipaddress = Ipaddress(parse: string -> Option<Network>, isPrivate: Network -> bool)

  /** The arguments of one `create_subnet` call (lines 152-159). */
  datatype SubnetRequest = SubnetRequest(vpcId: Id, block: Cidr, zone: string, name: string)

  datatype VpcAttribute = EnableDnsSupport | EnableDnsHostnames

  /** Where a route table's default route 0.0.0.0/0 points. */
  datatype RouteTarget = InternetGateway(igwId: Id) | NatGateway(natId: Id)

  /** The item `store_vpc_data` writes (lines 199-205). */
  datatype VpcRecord = VpcRecord(vpcId: Id, cidrBlock: string, region: string, subnets: Dict<Id>, userEmail: string)

  /** One call to a collaborator. Compound helpers of the source appear as
      one call each: CreateInternetGateway is create + attach (lines 166-168),
      CreateNatGateway is allocate_address + create_nat_gateway + the
      availability waiter (lines 172-176), CreateRouteTable is
      create_route_table + create_route (lines 181-183, 187-189). */
  datatype Call =
    | DescribeVpcs(cidr: string)
    | CreateVpc(cidr: string, region: string)
    | ModifyVpcAttribute(vpcId: Id, attribute: VpcAttribute)
    | DescribeAvailabilityZones(region: string)
    | CreateSubnet(request: SubnetRequest)
    | CreateInternetGateway(vpcId: Id)
    | CreateNatGateway(subnetId: Id)
    | CreateRouteTable(vpcId: Id, target: RouteTarget)
    | AssociateRouteTable(subnetId: Id, tableId: Id)
    | PutItem(record: VpcRecord)
    | GetItem(vpcId: Id)

  /** Calls that create or change something at the provider or in the table. */
  predicate Mutates(call: Call) {
    !(call.DescribeVpcs? || call.DescribeAvailabilityZones? || call.GetItem?)
  }

  /** An EC2 client bound to one region: the answer to each call. */
  datatype Ec2 = Ec2(
    createVpc: (string, string) -> Result<Id>,
    modifyVpcAttribute: (Id, VpcAttribute) -> Result<()>,
    describeAvailabilityZones: string -> Result<seq<string>>,
    createSubnet: SubnetRequest -> Result<Id>,
    createInternetGateway: Id -> Result<Id>,
    createNatGateway: Id -> Result<Id>,
    createRouteTable: (Id, RouteTarget) -> Result<Id>,
    associateRouteTable: (Id, Id) -> Result<()>)

  /** The DynamoDB table of VPC records. */
  datatype Table = Table(putItem: VpcRecord -> Result<()>, getItem: Id -> Result<Option<VpcRecord>>)

  /** Everything the handler reaches: `ipaddress`, the module-level EC2 client
      (line 13, used only by `vpc_exists`), the client `boto3.client("ec2",
      region_name=region)` builds per region (line 51), and the table. */
  datatype Env = Env(ip: Ipaddress, describeVpcs: string -> Result<seq<Id>>, ec2In: string -> Ec2, table: Table)

  /** The outcome of a step together with the calls it made, in order. */
  datatype Run<+T> = Run(result: Result<T>, calls: seq<Call>)
}
