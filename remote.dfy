/** Outcome kinds of the UCloud VPC API as the resource handlers see them, the
    requests they issue, and the effect a successful network request has on the
    VPC's list of CIDR blocks. The transport itself is not modelled: every
    response is an input of the operation that receives it. */
module Remote {

  datatype Option<+T> = None | Some(value: T)

  /** Result of one API request: its payload, or the error the client returned. */
  datatype Reply<+T> = Ok(value: T) | Failed(cause: string)

  /** One element of a VPC's NetworkInfo list. */
  datatype NetworkInfoItem = NetworkInfoItem(network: string)

  /** The VPC record returned by describeVPCById. */
  datatype VpcSet = VpcSet(
    name: string,
    tag: string,
    network: seq<string>,
    networkInfo: seq<NetworkInfoItem>,
    createTime: int,
    updateTime: int)

  /** A describe outcome, classified the way isNotFoundError splits the errors. */
  datatype Describe = Found(vpc: VpcSet) | NotFound | OtherError(cause: string)

  /** The fields of a CreateVPC request; the network list is treated as a set. */
  datatype CreateVpcRequest = CreateVpcRequest(
    network: set<string>,
    name: string,
    tag: string,
    remark: Option<string>)

  /** A request issued to the API, as recorded in a call trace. */
  datatype Call =
    | AddNetwork(vpcId: string, net: set<string>)
    | UpdateNetwork(vpcId: string, net: set<string>)
    | DeleteVpc(vpcId: string)
    | DescribeVpc(vpcId: string)

  /** The VPC's CIDR blocks after a successful request: AddVPCNetwork adds the
      blocks it carries, UpdateVPCNetwork replaces the whole list. */
  function Apply(net: set<string>, c: Call): set<string>
  {
    match c
    case AddNetwork(_, blocks) => net + blocks
    case UpdateNetwork(_, blocks) => blocks
    case _ => net
  }

  /** The CIDR blocks after every request of a trace has succeeded, in order. */
  function ApplyAll(net: set<string>, calls: seq<Call>): set<string>
    decreases |calls|
  {
    if calls == [] then net else ApplyAll(Apply(net, calls[0]), calls[1..])
  }

  /** Running a trace in two pieces has the same effect as running it whole. */
  lemma {:induction false} ApplyAllAppend(net: set<string>, a: seq<Call>, b: seq<Call>)
    ensures ApplyAll(net, a + b) == ApplyAll(ApplyAll(net, a), b)
    decreases |a|
  {
    if a == [] {
      assert a + b == b;
    } else {
      assert (a + b)[0] == a[0];
      assert (a + b)[1..] == a[1..] + b;
      ApplyAllAppend(Apply(net, a[0]), a[1..], b);
    }
  }
}
