# vpc-api-svc: a Dafny model of the VPC provisioning handler

This project models `lambda/vpc_api.py`. That file is an API Gateway Lambda handler:

- `POST /vpcs` provisions a VPC in the requested region. It checks the request body first (a CIDR block and a region, both non-empty; a private block; no VPC with that block yet, as seen by the handler's own module-level EC2 client, i.e. in the handler's region rather than the requested one). It then creates the VPC and enables DNS support and hostnames. It splits the block into four quarters and creates the subnets `ingresssubnet<zone0>`, `egresssubnet<zone1>`, `privatesubnet<zone0>` and `datasubnet<zone1>`. It creates an internet gateway, finds the egress subnet by name and places a NAT gateway in it. It builds a public route table (to the internet gateway) and a private one (to the NAT gateway), stores a record of the VPC in a DynamoDB table, and answers 201.
- `GET /vpcs?vpc_id=…` reads that record back.

The model is split into modules:

- `Python` holds the language semantics the handler relies on:
  - exceptions, as `Fault`, and `Result`;
  - insertion-ordered dicts as `seq<(string, V)>`, with `d[k]` and `d[k] = v`;
  - substring membership `pat in s`.
- `Ipv4` is the block arithmetic of `create_subnets`:
  - `ipaddress.ip_network(...).subnets(prefixlen_diff=…)`;
  - the float division and `log2` of lines 135-137.
- `Aws` holds what the handler calls but does not implement. Each service is a record of answer functions:
  - the EC2 client of the module, used by `vpc_exists`;
  - the EC2 client built per region;
  - the DynamoDB table;
  - the `ipaddress` parser and its private-range table.
  
  Every flow returns the ordered log of the calls it made (`Run`, `Outcome`). That log is what the properties below speak about.
- `SubnetLayout` models `create_subnets`. `Egress` models the egress-subnet scan. `RouteTables` models `create_route_tables`.
- `VpcApi` models the rest:
  - `is_private_cidr`, `vpc_exists`, `create_vpc` (with the `try` block, which is `Provision`), `store_vpc_data`, `get_vpcs` and `lambda_handler`;
  - the properties of the whole request.

The loops of the source are methods proved equal to specification functions: the subnet loop, the egress scan and the private-association loop. `CreateVpc` and `LambdaHandler` are methods because they call those loops. The properties are proved about the specification functions.

`create_route_tables` depends on a `Revision`. Under `AsWritten` it looks up the names of lines 192-194 exactly. Under `Corrected` it looks up the names that `create_subnets` actually creates (see Findings). Everything else is the same for both.

## Model

| member | source | states |
|---|---|---|
| Python.Get | lambda/vpc_api.py:184 | `d[k]` succeeds exactly when `k` is a key, and yields a value stored under `k`. A missing key raises KeyError naming `k`. |
| Python.Put | lambda/vpc_api.py:160 | `d[k] = v` keeps the key order when `k` is present. A new key is appended at the end. |
| Python.PutThenGet | lambda/vpc_api.py:160 | After `d[k] = v`, `k` maps to `v` and every other key maps to what it did before. |
| Python.GetFindsUniqueKey | lambda/vpc_api.py:184 | In a dict with distinct keys, looking up the key of item `i` yields item `i`'s value. |
| Python.ContainsIff | lambda/vpc_api.py:71 | The recursive `pat in s` holds exactly when `pat` occurs at some position of `s`. |
| Python.ContainsAfterPrefix | lambda/vpc_api.py:71 | A prefix in which no occurrence of `pat` can start adds no occurrence to `prefix + s`. |
| Python.StartsWith | lambda/vpc_api.py:71 | A string contains each of its prefixes. |
| Ipv4.QuarterIsExact | lambda/vpc_api.py:134-136 | `num_addresses / 4` is exactly 2^(30-prefix), also for /31 and /32. So `log2` gives the exponent with no rounding. |
| Ipv4.PrefixLenDiffIsTwo | lambda/vpc_api.py:136-141 | The child prefix is always the parent prefix + 2. So `prefix_len_diff` is 2 and the "too small" branch is never taken. |
| Ipv4.ChildPrefixLen | lambda/vpc_api.py:134-136 | The prefix length of the blocks that split the parent into quarters: 32 minus the base-2 logarithm of a quarter of its addresses. |
| Ipv4.PrefixLenDiff | lambda/vpc_api.py:137 | The child prefix length minus the parent's. |
| Ipv4.Subnets | lambda/vpc_api.py:145 | `ipaddress`'s `subnets(prefixlen_diff=d)` as a list. A /32 yields only itself. A negative `d`, or one past 32 bits, raises ValueError. Otherwise the result is the 2^d blocks of prefix P+d, in address order. |
| Ipv4.QuarterBlocks | lambda/vpc_api.py:143-146 | The first four of those blocks, or IndexError when there are fewer than four. |
| Ipv4.QuarterBlocksOutcome | lambda/vpc_api.py:143-146 | The four blocks exist exactly for prefixes up to 30. A /31 raises ValueError. A /32 raises IndexError (its subnet list has one entry). |
| Ipv4.QuarterBlocksLayout | lambda/vpc_api.py:143-146 | Block i has prefix P+2 and 2^(30-P) addresses, and starts at base + i·2^(30-P). |
| Ipv4.QuarterBlocksValid | lambda/vpc_api.py:143-146 | The four blocks of a valid network are valid networks: aligned, and inside the address space. |
| Ipv4.QuarterBlocksPartition | lambda/vpc_api.py:143-146 | The four blocks lie inside the parent, are pairwise disjoint and cover every parent address. |
| SubnetLayout.SubnetNames | lambda/vpc_api.py:148 | The names are built exactly when there are at least two zones (otherwise IndexError). Name i is role i followed by zone i mod 2. |
| SubnetLayout.SubnetNamesDistinct | lambda/vpc_api.py:148 | The four names differ whatever the zone names are. |
| SubnetLayout.LayoutHasName | lambda/vpc_api.py:148 | In the dict `create_subnets` builds, role r followed by zone z is a key exactly when z is the zone role r was given. |
| SubnetLayout.LayoutLookup | lambda/vpc_api.py:148-160 | That dict has distinct names, and looking up name i yields subnet id i. |
| SubnetLayout.PlanShape | lambda/vpc_api.py:151-159 | Request i carries the VPC id, quarter block i, zone i mod 2, and a name that is role i followed by that zone. |
| SubnetLayout.Fill | lambda/vpc_api.py:151-160 | The request loop: each request is sent and appended to the log. A fault ends the loop. A returned id is stored under the request's name. |
| SubnetLayout.FillAllCreated | lambda/vpc_api.py:151-160 | When every call succeeds and the names are new and distinct, the dict gains one item per request in order. Each item holds the returned id, with one create_subnet call per request. |
| SubnetLayout.FillStopsAtFault | lambda/vpc_api.py:151-160 | The first failing create_subnet call ends the loop with its fault. The calls made are exactly those up to and including it. |
| SubnetLayout.CreateSubnets | lambda/vpc_api.py:127-162 | The method, with its loop, computes `CreateSubnetsSpec`: the same outcome and the same call log. |
| SubnetLayout.CreateSubnetsCreatesFour | lambda/vpc_api.py:127-162 | Prefix ≤ 30, two or more zones and a provider that accepts the four requests give exactly four items with distinct layout names. Each item is bound to the id of its request, and only those four calls are made. |
| SubnetLayout.CreateSubnetsStopsAtFault | lambda/vpc_api.py:151-160 | A failure of request k raises that fault after exactly the requests 0..k. |
| SubnetLayout.CreateSubnetsCallsOnly | lambda/vpc_api.py:127-162 | Every call that create_subnets makes is a create_subnet request. |
| SubnetLayout.CreateSubnetsFailsEarly | lambda/vpc_api.py:129-148 | A /31, a /32 or fewer than two zones raises before any request is sent. A /31 raises ValueError, the other cases IndexError. |
| SubnetLayout.CreateSubnetsResultShape | lambda/vpc_api.py:140-162 | Whatever the provider answers, a returned dict is the four-name layout, never the `{"error": …}` dict. |
| Egress.FirstEgressIsFirstMatch | lambda/vpc_api.py:69-73 | The scan finds something exactly when some name contains "egresssubnet". It yields the id of the first such item in dict order. |
| Egress.FindEgressSubnet | lambda/vpc_api.py:69-73 | The loop with its `break` computes `FirstEgress`. |
| Egress.EgressOfCreatedSubnets | lambda/vpc_api.py:69-73 | On the layout dict the scan picks the egress subnet. It picks the ingress subnet only when zone 0's own name contains "egresssubnet". |
| Egress.NoEgressInErrorDict | lambda/vpc_api.py:141 | The `{"error": …}` dict holds no egress subnet. |
| RouteTables.PrivateKeys | lambda/vpc_api.py:192-194 | The names looked up for the private table. As written: the private and data name of every zone. Corrected: the private name of zone 0 and the data name of zone 1, or IndexError with fewer than two zones. |
| RouteTables.AssociateAll | lambda/vpc_api.py:192-194 | For each name in turn: look it up (KeyError if missing), log the association and make it. A fault ends the loop. |
| RouteTables.PerZoneKeys | lambda/vpc_api.py:192-194 | For each zone in order, the private name is looked up, then the data name. |
| RouteTables.CreateRouteTables | lambda/vpc_api.py:179-196 | The method, with its association loop, computes `CreateRouteTablesSpec`: the same outcome and the same call log. |
| RouteTables.AssociateAllNeedsKeys | lambda/vpc_api.py:192-194 | The association loop completes only if every name it looks up is in the dict. |
| RouteTables.AssociateAllSucceeds | lambda/vpc_api.py:192-194 | When every name is present and every association is accepted, the loop makes exactly one association per name, in order. |
| RouteTables.AssociateAllStopsAtMissing | lambda/vpc_api.py:192-194 | The first missing name ends the loop with a KeyError for that name. |
| RouteTables.CompletedRunFoundAllNames | lambda/vpc_api.py:179-194 | A completed run found zone 0's ingress subnet and every private-table name in the dict. |
| RouteTables.RouteTableCallsOnly | lambda/vpc_api.py:179-196 | Every call that create_route_tables makes creates a route table or associates one. |
| RouteTables.AsWrittenCompletesOnlyForOneZone | lambda/vpc_api.py:192-194 | As written, on the layout dict, the route tables complete only if every zone name equals zone 0 and zone 1. |
| RouteTables.AsWrittenMissesDataSubnet | lambda/vpc_api.py:179-194 | As written, with two different zones and a provider that accepts every call, the run fails with KeyError for "datasubnet" + zone 0. By then exactly four calls were made: the public table was created and associated with zone 0's ingress subnet only, then the private table was created and associated with zone 0's private subnet. |
| RouteTables.CorrectedCompletes | lambda/vpc_api.py:179-196 | Corrected, the run completes. The public table is associated with the ingress subnet, and the private table with the private subnet and then the data subnet. No other call is made. |
| VpcApi.IsPrivateCidr | lambda/vpc_api.py:114-119 | True exactly when the string parses as a network and the network is private. A string that is no network is not private. |
| VpcApi.VpcExists | lambda/vpc_api.py:121-125 | One describe_vpcs call filtered by the block. The answer is the id of the first VPC found, None when none is found, or the call's fault. |
| VpcApi.SetUpVpc | lambda/vpc_api.py:50-61 | Creates the VPC, enables DNS support and then DNS hostnames, and lists the region's zones. It logs each call and stops at the first fault. |
| VpcApi.Provision | lambda/vpc_api.py:50-95 | The `try` block: set-up, then create_subnets, then the rest. A fault at any step becomes a 500 with its message. |
| VpcApi.Connect | lambda/vpc_api.py:67-88 | After the subnets: the internet gateway, the egress scan (500 "Egress subnet not found." when none is found), the NAT gateway, the route tables, the stored record, then 201 with the VPC id and the subnets. |
| VpcApi.ProvisionStartsWithVpc | lambda/vpc_api.py:50-95 | The `try` block starts with create_vpc, only appends to the call log, and answers 201 or 500. |
| VpcApi.SetUpCalls | lambda/vpc_api.py:51-61 | Setting up the VPC creates it first and makes no call that needs a subnet. |
| VpcApi.ChangesOnlyWhenAdmitted | lambda/vpc_api.py:36-52 | create_vpc makes a creating or changing call (create_vpc first) exactly when the request passes all three checks, whether or not the provider then accepts that call. The first such call comes right after the one existence query. A rejected request makes at most the two existence queries. |
| VpcApi.CheckResponses | lambda/vpc_api.py:36-45 | A body that is not a JSON object raises. An absent or empty field gets 400 "Missing CIDR or region". An unparsable or public block gets 400 "CIDR is not a private IP range". None of these makes a call. |
| VpcApi.ConflictResponse | lambda/vpc_api.py:47-48 | The answer is 409 exactly when the checks pass and the query finds a VPC whose id is not empty. It names the first VPC found, after two identical queries. |
| VpcApi.SmallBlockProvision | lambda/vpc_api.py:50-64 | Provisioning a /31 or /32 stops after the set-up calls with a 500: ValueError for a /31, IndexError for a /32. |
| VpcApi.SmallBlockFailsAfterVpc | lambda/vpc_api.py:41-64 | An admitted /31 or /32 creates the VPC and then answers 500. It creates no subnet, gateway, route table or record. |
| VpcApi.NoEgressStopsBeforeNat | lambda/vpc_api.py:68-79 | With no truthy egress id the answer is 500 "Egress subnet not found." right after the internet gateway. |
| VpcApi.NatInEgressSubnet | lambda/vpc_api.py:75-76 | The NAT gateway is created only in the subnet the scan found, and only if its id is truthy. |
| VpcApi.CreatedIsStored | lambda/vpc_api.py:83-88 | A 201 comes only for an admitted request. The last call stored the record, and that record holds the returned id, the block, the region, the returned subnets and the caller's email. |
| VpcApi.ProvisionStoresOnlyAfterRoutes | lambda/vpc_api.py:50-85 | The log holds a put_item only when every earlier step succeeded: the VPC set-up, the subnets, the internet gateway, a truthy egress id, the NAT gateway and the route tables. |
| VpcApi.AsWrittenCreatesOnlyInOneZone | lambda/vpc_api.py:183-194 | As written, create_vpc answers 201 only if every zone name of the region is the same. |
| VpcApi.CooperativeReachesRouteTables | lambda/vpc_api.py:50-83 | Under the stated conditions, with a provider that accepts every call, the subnets get their layout names, the egress id is truthy, and the answer is decided by the route tables. |
| VpcApi.AsWrittenFailsForTwoZones | lambda/vpc_api.py:192-194 | As written, two differently named zones and a provider that accepts everything give a 500 KeyError for "datasubnet" + zone 0. |
| VpcApi.AsWrittenStoresNothing | lambda/vpc_api.py:83-85 | In that same as-written run, the call log holds no put_item: no record is stored. |
| VpcApi.CorrectedCreates | lambda/vpc_api.py:34-88 | Corrected, under the same conditions, the answer is 201 with the new VPC id and its four subnets under their layout names. |
| VpcApi.GetVpcs | lambda/vpc_api.py:97-112 | Without `vpc_id` in the query: 400. Otherwise one get_item: 200 with the item, 404 when there is none, 500 when the read fails. |
| VpcApi.GetVpcsAnswers | lambda/vpc_api.py:97-112 | A query without vpc_id gets 400 with no call. Otherwise there is one table read: 200 with the stored item exactly when there is one, 404 when there is none, 500 when the read fails. Nothing is changed. |
| VpcApi.CreateVpc | lambda/vpc_api.py:34-95 | The method computes `CreateVpcSpec`: the same answer and the same call log. |
| VpcApi.LambdaHandler | lambda/vpc_api.py:15-32 | The method computes `LambdaHandlerSpec`: the same answer and the same call log. |
| VpcApi.HandlerRoutes | lambda/vpc_api.py:15-32 | POST /vpcs is create_vpc, with an escaping exception turned into 500. GET /vpcs is get_vpcs. A missing email or resource is a 500 with no call. So is a missing method on /vpcs; on any other resource the method is never read. A POST to /vpcs without a `body` key, or a GET without a `queryStringParameters` key, is a 500 KeyError for that key with no call. Any other resource, and any method on /vpcs other than POST and GET, gets 400 "Invalid request" with no call. Every status is 200, 201, 400, 404, 409 or 500. |
| VpcApi.OnlyAdmittedPostChanges | lambda/vpc_api.py:15-49 | Only an admitted POST /vpcs changes anything at the provider or in the table. |

## Left out

- Logging: the `print` calls (lines 16, 19-20, 31, 35, 39, 65, 78, 91, 94) have no effect on answers and are not modelled.
- JSON serialisation of response bodies: a body is a `Payload` value. `str(e)` is the `Fault` itself, and `ValueError` reasons are approximate texts.
- VpcApi.LambdaHandlerSpec: a missing key anywhere on the path `requestContext.authorizer.claims.email` is reported as `KeyError("email")`. Python names the first missing key.
- Request fields: `cidr_block` and `region` are modelled as strings or absent. JSON numbers, lists or objects in those fields (whose truthiness and `ip_network` behaviour differ) are not modelled.
- IPv6: `ip_network` also accepts IPv6 blocks. The model's parser yields IPv4 networks only, so IPv6 requests are not modelled.
- The private-range table of `ipaddress` (`is_private`) is a parameter, not spelled out.
- Compound provider helpers are one logged call each: create + attach for the internet gateway, allocate-address + create + waiter for the NAT gateway, and create-route-table + create-route for each table. A failure between their parts is not distinguished, and the elastic IP allocation is not logged separately. The waiter's timeout is one of the failures of the NAT call.
- Call arguments that are constants of the source are not logged: `InstanceTenancy="dedicated"`, the `0.0.0.0/0` destination, the `Domain="vpc"` address and the tag structure (only the Name value is kept).
- Subnet blocks are `Cidr` values, not their `str()` text.
- Module setup (the `DYNAMODB_TABLE` environment variable, the boto3 resource and clients) is not modelled. Each service is a parameter, and building a regional client cannot fail in the model.
- The two except clauses of lines 90-95 give the same answer and are modelled as one.
- Concurrency: each request is modelled alone. The two `vpc_exists` calls on the 409 path see the same answer, and two requests racing between the check and the creation are not modelled.
- Resources created before a failure are left in place by the source. The model logs them, and `SmallBlockFailsAfterVpc` shows one such case, but no cleanup is modelled because the source has none.

## Findings

| source | as written | input that shows it | evidently intended | confidence | as-written member | corrected member |
|---|---|---|---|---|---|---|
| lambda/vpc_api.py:192-194 | The private route table is associated with `privatesubnet<az>` and `datasubnet<az>` for every zone, but `create_subnets` (line 148) makes only `privatesubnet<zone0>` and `datasubnet<zone1>`. | A region with zones `["a", "b"]`, a private /16 and a provider that accepts every call: the lookup of `datasubneta` raises KeyError. The answer is 500. By then the VPC, its subnets, both gateways and both route tables exist, the public table is associated with the zone-0 ingress subnet and the private table with the zone-0 private subnet. No record is stored. | Associate the private table with the private and data subnets that exist: `privatesubnet<zone0>` and `datasubnet<zone1>`. With a table that accepts the record, the same request then gets 201. | not executed | RouteTables.AsWrittenMissesDataSubnet, VpcApi.AsWrittenFailsForTwoZones, VpcApi.AsWrittenStoresNothing, VpcApi.AsWrittenCreatesOnlyInOneZone | RouteTables.CorrectedCompletes, VpcApi.CorrectedCreates |
