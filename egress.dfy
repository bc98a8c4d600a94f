/** The egress-subnet scan of create_vpc (lambda/vpc_api.py, lines 69-73):
    the id of the first subnet, in dict order, whose name contains
    "egresssubnet". */
module Egress {
  import opened Python
  import opened Aws
  import SubnetLayout

  const EgressMarker: string := "egresssubnet"

  /** The value of `egress_subnet_id` after the scan: None if no name contains
      the marker. */
  function FirstEgress(subnets: Dict<Id>): Option<Id> {
    if subnets == [] then None
    else if Contains(subnets[0].0, EgressMarker) then Some(subnets[0].1)
    else FirstEgress(subnets[1..])
  }

  /** Item `i` is the first whose name contains the marker. */
  ghost predicate FirstMatchAt(subnets: Dict<Id>, i: int) {
    0 <= i < |subnets| && Contains(subnets[i].0, EgressMarker) &&
    forall j :: 0 <= j < i ==> !Contains(subnets[j].0, EgressMarker)
  }

  /** The scan finds the id of the first matching item, and finds nothing
      exactly when no name contains the marker. */
  lemma {:induction false} FirstEgressIsFirstMatch(subnets: Dict<Id>)
    ensures FirstEgress(subnets).Some? <==> exists i :: 0 <= i < |subnets| && Contains(subnets[i].0, EgressMarker)
    ensures forall i :: FirstMatchAt(subnets, i) ==> FirstEgress(subnets) == Some(subnets[i].1)
  {
    if subnets != [] && !Contains(subnets[0].0, EgressMarker) {
      var rest := subnets[1..];
      FirstEgressIsFirstMatch(rest);
      forall i | FirstMatchAt(subnets, i)
        ensures FirstEgress(rest) == Some(subnets[i].1)
      {
        assert FirstMatchAt(rest, i - 1);
      }
      if exists i :: 0 <= i < |subnets| && Contains(subnets[i].0, EgressMarker) {
        var i :| 0 <= i < |subnets| && Contains(subnets[i].0, EgressMarker);
        assert Contains(rest[i - 1].0, EgressMarker);
      }
    }
  }

  /** The loop of lines 70-73, stopping at the first match. */
  method FindEgressSubnet(subnets: Dict<Id>) returns (egress: Option<Id>)
    ensures egress == FirstEgress(subnets)
  {
    egress := None;
    var i := 0;
    while i < |subnets|
      invariant 0 <= i <= |subnets|
      invariant FirstEgress(subnets) == FirstEgress(subnets[i..])
    {
      assert subnets[i..][1..] == subnets[i + 1..];
      var (name, id) := subnets[i];
      if Contains(name, EgressMarker) {
        egress := Some(id);
        break;
      }
      i := i + 1;
    }
  }

  /** "ingresssubnet" holds no "e" followed by "g", so no occurrence of the
      marker can start in it. */
  lemma IngressCannotStartMarker()
    ensures forall i :: 0 <= i < |SubnetLayout.Roles[0]| ==> CannotStartAt(SubnetLayout.Roles[0], EgressMarker, i)
  {
  }

  /** On the dict create_subnets builds (ingress + zone 0, egress + zone 1,
      ...), the scan picks the egress subnet unless zone 0's name itself
      contains "egresssubnet", in which case it picks the ingress subnet. */
  lemma {:induction false} EgressOfCreatedSubnets(subnets: Dict<Id>, azNames: seq<string>)
    requires |azNames| >= 2 && |subnets| == 4
    requires forall i :: 0 <= i < 4 ==> subnets[i].0 == SubnetLayout.Roles[i] + azNames[i % 2]
    ensures !Contains(azNames[0], EgressMarker) ==> FirstEgress(subnets) == Some(subnets[1].1)
    ensures Contains(azNames[0], EgressMarker) ==> FirstEgress(subnets) == Some(subnets[0].1)
  {
    IngressCannotStartMarker();
    ContainsAfterPrefix(SubnetLayout.Roles[0], azNames[0], EgressMarker);
    assert subnets[0].0 == SubnetLayout.Roles[0] + azNames[0];
    assert subnets[1].0 == EgressMarker + azNames[1];
    StartsWith(EgressMarker, azNames[1]);
    assert subnets[1..][1..] == subnets[2..];
  }

  /** The `{"error": ...}` dict of line 141 holds no egress subnet. */
  lemma NoEgressInErrorDict()
    ensures FirstEgress([("error", SubnetLayout.TooSmallMessage)]) == None
  {
    assert !Contains("error", EgressMarker);
  }
}
