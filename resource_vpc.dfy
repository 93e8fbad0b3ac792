/** The ucloud_vpc resource: the rule that validates a change of its CIDR
    blocks, the create / read / update handlers over the resource data, the
    refresh step of the wait for a new VPC, and one attempt of the delete
    retry loop. */
module ResourceVpc {
  import opened Remote

  /** The tag used when none is configured (defaultTag). */
  const DEFAULT_TAG: string := "Default"
  /** The prefix of a generated VPC name. */
  const NAME_PREFIX: string := "tf-vpc-"
  /** The wait's pending state (statusPending) and its target (statusInitialized). */
  const STATUS_PENDING: string := "pending"
  const STATUS_INITIALIZED: string := "initialized"
  /** The key of each network_info entry. */
  const CIDR_BLOCK_KEY: string := "cidr_block"

  /** The errors the handlers return, each with the operation it wraps. */
  datatype Error =
    | MixedNetworkChange
    | CreateFailed(cause: string)
    | WaitFailed(vpcId: string, cause: string)
    | ReadFailed(vpcId: string, cause: string)
    | AddNetworkFailed(vpcId: string, cause: string)
    | UpdateNetworkFailed(vpcId: string, cause: string)
    | DeleteFailed(vpcId: string, cause: string)
    | DescribeOnDeleteFailed(vpcId: string, cause: string)
    | NotYetDeleted(vpcId: string)

  // ---------------------------------------------------------------------------
  // Validation of a cidr_blocks change

  /** Rejects a change that both removes and adds CIDR blocks. */
  function DiffSuppressNetworkUpdate(o: set<string>, n: set<string>): (r: Option<Error>)
    ensures r.Some? ==> r.value == MixedNetworkChange
  {
    if |o - n| > 0 && |n - o| > 0 then Some(MixedNetworkChange) else None
  }

  /** The change is rejected exactly when some block is removed and some block is added. */
  lemma RejectsExactlyMixed(o: set<string>, n: set<string>)
    ensures DiffSuppressNetworkUpdate(o, n).Some? <==>
            (exists x :: x in o && x !in n) && (exists y :: y in n && y !in o)
  {
    if (exists x :: x in o && x !in n) && (exists y :: y in n && y !in o) {
      var x :| x in o && x !in n;
      var y :| y in n && y !in o;
      assert x in o - n && y in n - o;
    }
  }

  /** Pure additions, pure removals and unchanged sets are accepted, and nothing else. */
  lemma AcceptsOneDirection(o: set<string>, n: set<string>)
    ensures DiffSuppressNetworkUpdate(o, n).None? <==> (o <= n || n <= o)
  {
    if o <= n {
      assert o - n == {};
    } else if n <= o {
      assert n - o == {};
    } else {
      var x :| x in o && x !in n;
      var y :| y in n && y !in o;
      assert x in o - n && y in n - o;
    }
  }

  // ---------------------------------------------------------------------------
  // Update of cidr_blocks

  /** True when Update takes its cidr_blocks branch (HasChange and not a new resource). */
  predicate ChangesNetwork(o: set<string>, n: set<string>, isNewResource: bool): (r: bool)
    ensures r <==> !isNewResource && (o - n != {} || n - o != {})
  {
    o != n && !isNewResource
  }

  /** The requests the cidr_blocks branch issues when every one of them succeeds:
      AddVPCNetwork with the added blocks, then UpdateVPCNetwork with the whole new set. */
  function NetworkRequests(vpcId: string, o: set<string>, n: set<string>): (plan: seq<Call>)
    ensures |plan| <= 2
    ensures forall i :: 0 <= i < |plan| ==> plan[i].vpcId == vpcId
    ensures forall i :: 0 <= i < |plan| ==> plan[i].AddNetwork? || plan[i].UpdateNetwork?
  {
    (if |n - o| > 0 then [AddNetwork(vpcId, n - o)] else [])
    + (if |o - n| > 0 then [UpdateNetwork(vpcId, n)] else [])
  }

  /** Exactly one AddNetwork, carrying exactly the added blocks, when blocks are added;
      none otherwise. */
  lemma AddsExactlyTheNewBlocks(vpcId: string, o: set<string>, n: set<string>)
    ensures var plan := NetworkRequests(vpcId, o, n);
            (n - o != {} ==> plan[0] == AddNetwork(vpcId, n - o)) &&
            (forall i :: 0 <= i < |plan| && plan[i].AddNetwork? ==>
               i == 0 && plan[i] == AddNetwork(vpcId, n - o) && n - o != {})
  {
  }

  /** Exactly one UpdateNetwork, carrying the whole new set (not the removed blocks), when
      blocks are removed; none otherwise. It is always the last request. */
  lemma OverwritesWithTheWholeNewSet(vpcId: string, o: set<string>, n: set<string>)
    ensures var plan := NetworkRequests(vpcId, o, n);
            (o - n != {} ==> plan[|plan| - 1] == UpdateNetwork(vpcId, n)) &&
            (forall i :: 0 <= i < |plan| && plan[i].UpdateNetwork? ==>
               i == |plan| - 1 && plan[i] == UpdateNetwork(vpcId, n) && o - n != {})
  {
  }

  /** A change the validation accepts needs at most one request, an unchanged set none. */
  lemma AcceptedChangeIssuesAtMostOne(vpcId: string, o: set<string>, n: set<string>)
    ensures DiffSuppressNetworkUpdate(o, n).None? ==> |NetworkRequests(vpcId, o, n)| <= 1
    ensures NetworkRequests(vpcId, o, n) == [] <==> o == n
  {
  }

  /** A mixed change (one that bypassed validation) adds before it overwrites. */
  lemma MixedChangeAddsFirst(vpcId: string, o: set<string>, n: set<string>)
    requires DiffSuppressNetworkUpdate(o, n).Some?
    ensures NetworkRequests(vpcId, o, n) == [AddNetwork(vpcId, n - o), UpdateNetwork(vpcId, n)]
  {
  }

  /** When every request succeeds the VPC holds exactly the new set, whether or not the
      change was validated. */
  lemma {:induction false} NetworkRequestsReachNewSet(vpcId: string, o: set<string>, n: set<string>)
    ensures ApplyAll(o, NetworkRequests(vpcId, o, n)) == n
  {
    var adds := if |n - o| > 0 then [AddNetwork(vpcId, n - o)] else [];
    var overwrites := if |o - n| > 0 then [UpdateNetwork(vpcId, n)] else [];
    ApplyAllAppend(o, adds, overwrites);
    var mid := ApplyAll(o, adds);
    assert mid == o + n by {
      if |n - o| > 0 {
        assert adds[1..] == [];
      } else {
        assert n - o == {};
        forall y | y in n
          ensures y in o
        {
          assert y !in n - o;
        }
      }
    }
    if |o - n| > 0 {
      assert overwrites[1..] == [];
    } else {
      assert o - n == {};
      forall x | x in o
        ensures x in n
      {
        assert x !in o - n;
      }
      assert mid == n;
    }
  }

  /** For a mixed change whose AddNetwork succeeds and whose UpdateNetwork then fails, the
      branch has sent the whole plan, and the one request that took effect leaves the VPC
      with the union of the old and the new blocks. */
  lemma AddThenFailedOverwriteLeavesUnion(vpcId: string, o: set<string>, n: set<string>, cause: string)
    requires DiffSuppressNetworkUpdate(o, n).Some?
    ensures var (calls, err) := NetworkOutcome(vpcId, o, n, Ok(()), Failed(cause));
            calls == NetworkRequests(vpcId, o, n) && err == Some(UpdateNetworkFailed(vpcId, cause)) &&
            ApplyAll(o, calls[..|calls| - 1]) == o + n
  {
  }

  /** The requests the cidr_blocks branch sends and the error it returns, given the outcomes
      of AddVPCNetwork and UpdateVPCNetwork: it stops at the first request that fails. */
  function NetworkOutcome(vpcId: string, o: set<string>, n: set<string>, added: Reply<()>, updated: Reply<()>)
    : (r: (seq<Call>, Option<Error>))
    ensures r.0 <= NetworkRequests(vpcId, o, n)
    ensures n - o != {} && added.Failed? ==>
              r.0 == [AddNetwork(vpcId, n - o)] && r.1 == Some(AddNetworkFailed(vpcId, added.cause))
    ensures (n - o == {} || added.Ok?) ==> r.0 == NetworkRequests(vpcId, o, n)
    ensures (n - o == {} || added.Ok?) && o - n != {} && updated.Failed? ==>
              r.1 == Some(UpdateNetworkFailed(vpcId, updated.cause))
    ensures (n - o == {} || added.Ok?) && (o - n == {} || updated.Ok?) ==> r.1 == None
  {
    var adds := if |n - o| > 0 then [AddNetwork(vpcId, n - o)] else [];
    if |n - o| > 0 && added.Failed? then
      (adds, Some(AddNetworkFailed(vpcId, added.cause)))
    else if |o - n| > 0 then
      (adds + [UpdateNetwork(vpcId, n)],
       if updated.Failed? then Some(UpdateNetworkFailed(vpcId, updated.cause)) else None)
    else
      (adds, None)
  }

  /** The cidr_blocks branch of Update: issues the requests one after the other and stops at
      the first that fails. */
  method UpdateNetworks(vpcId: string, o: set<string>, n: set<string>, added: Reply<()>, updated: Reply<()>)
    returns (calls: seq<Call>, err: Option<Error>)
    ensures (calls, err) == NetworkOutcome(vpcId, o, n, added, updated)
  {
    calls := [];
    err := None;
    var newBlocks := n - o;
    if |newBlocks| > 0 {
      calls := calls + [AddNetwork(vpcId, newBlocks)];
      assert calls == [AddNetwork(vpcId, newBlocks)];
      if added.Failed? {
        err := Some(AddNetworkFailed(vpcId, added.cause));
        return;
      }
    }
    var removed := o - n;
    if |removed| > 0 {
      // the API can only replace the list, so the whole new set is sent
      calls := calls + [UpdateNetwork(vpcId, n)];
      if updated.Failed? {
        err := Some(UpdateNetworkFailed(vpcId, updated.cause));
        return;
      }
    }
  }

  // ---------------------------------------------------------------------------
  // Resource data and the read handler

  /** The attributes of one resource as a value. */
  datatype VpcState = VpcState(
    id: string,
    name: string,
    tag: string,
    remark: string,
    cidrBlocks: set<string>,
    networkInfo: seq<map<string, string>>,
    createTime: int,
    updateTime: int)

  /** The resource data the handlers read their configuration from and write the remote
      state back to. An empty string stands for an attribute that GetOk reports unset. */
  class ResourceData {
    var id: string
    var name: string
    var tag: string
    var remark: string
    var cidrBlocks: set<string>
    var networkInfo: seq<map<string, string>>
    var createTime: int
    var updateTime: int

    function State(): VpcState
      reads this
    {
      VpcState(id, name, tag, remark, cidrBlocks, networkInfo, createTime, updateTime)
    }
  }

  /** The entries of network_info, one per element of the VPC's NetworkInfo. */
  predicate ListsNetworkInfo(info: seq<map<string, string>>, items: seq<NetworkInfoItem>)
  {
    |info| == |items| &&
    forall i :: 0 <= i < |items| ==> info[i] == map[CIDR_BLOCK_KEY := items[i].network]
  }

  /** The attributes Read copies from a described VPC. */
  ghost predicate Mirrors(s: VpcState, v: VpcSet)
  {
    && s.name == v.name
    && s.tag == v.tag
    && (forall c :: c in s.cidrBlocks <==> c in v.network)
    && ListsNetworkInfo(s.networkInfo, v.networkInfo)
    && s.createTime == v.createTime
    && s.updateTime == v.updateTime
  }

  /** What Read makes of the resource data and which error it returns, for a describe
      outcome. */
  function ReadInto(s: VpcState, desc: Describe): (r: (VpcState, Option<Error>))
    ensures desc.NotFound? ==> r.1 == None && r.0.id == "" && r.0 == s.(id := r.0.id)
    ensures desc.OtherError? ==> r.1 == Some(ReadFailed(s.id, desc.cause)) && r.0 == s
    ensures desc.Found? ==> r.1 == None && r.0.id == s.id && r.0.remark == s.remark && Mirrors(r.0, desc.vpc)
    ensures r.1 == None || r.1.value.ReadFailed?
  {
    match desc
    case NotFound => (s.(id := ""), None)
    case OtherError(cause) => (s, Some(ReadFailed(s.id, cause)))
    case Found(v) =>
      var info := seq(|v.networkInfo|, i requires 0 <= i < |v.networkInfo| =>
                        map[CIDR_BLOCK_KEY := v.networkInfo[i].network]);
      var blocks := set c | c in v.network;
      (s.(name := v.name, tag := v.tag, cidrBlocks := blocks,
          networkInfo := info, createTime := v.createTime, updateTime := v.updateTime),
       None)
  }

  /** Builds the network_info entries, one map per NetworkInfo element, in order. */
  method NetworkInfoEntries(items: seq<NetworkInfoItem>) returns (info: seq<map<string, string>>)
    ensures ListsNetworkInfo(info, items)
  {
    info := [];
    var k := 0;
    while k < |items|
      invariant 0 <= k <= |items|
      invariant ListsNetworkInfo(info, items[..k])
    {
      info := info + [map[CIDR_BLOCK_KEY := items[k].network]];
      k := k + 1;
    }
    assert items[..k] == items;
  }

  /** The read handler: a VPC that is not found clears the identifier and is no error. */
  method Read(d: ResourceData, desc: Describe) returns (err: Option<Error>)
    modifies d
    ensures (d.State(), err) == ReadInto(old(d.State()), desc)
  {
    match desc
    case NotFound =>
      d.id := "";
      err := None;
    case OtherError(cause) =>
      err := Some(ReadFailed(d.id, cause));
    case Found(v) =>
      d.name := v.name;
      d.tag := v.tag;
      d.cidrBlocks := set c | c in v.network;
      d.createTime := v.createTime;
      d.updateTime := v.updateTime;
      var info := NetworkInfoEntries(v.networkInfo);
      ghost var expected := ReadInto(old(d.State()), desc).0.networkInfo;
      assert info == expected by {
        assert ListsNetworkInfo(expected, v.networkInfo);
      }
      d.networkInfo := info;
      err := None;
  }

  // ---------------------------------------------------------------------------
  // Create

  /** The CreateVPC request for the configured attributes: a configured name, tag and remark
      are sent as given; a missing name becomes a generated one, a missing tag the default. */
  function CreateVpcRequestOf(cidrBlocks: set<string>, name: string, tag: string, remark: string,
                              uniqueSuffix: string): (req: CreateVpcRequest)
    ensures req.network == cidrBlocks
    ensures name != "" ==> req.name == name
    ensures name == "" ==> NAME_PREFIX <= req.name && req.name[|NAME_PREFIX|..] == uniqueSuffix
    ensures tag != "" ==> req.tag == tag
    ensures tag == "" ==> req.tag == DEFAULT_TAG
    ensures req.name != "" && req.tag != ""
    ensures req.remark.Some? <==> remark != ""
    ensures req.remark.Some? ==> req.remark.value == remark
  {
    CreateVpcRequest(
      cidrBlocks,
      if name != "" then name else NAME_PREFIX + uniqueSuffix,
      if tag != "" then tag else DEFAULT_TAG,
      if remark != "" then Some(remark) else None)
  }

  /** The create handler: sends CreateVPC, stores the identifier, waits for the VPC and reads
      it back. `created`, `waited` and `desc` are the outcomes of those three steps. */
  method Create(d: ResourceData, uniqueSuffix: string, created: Reply<string>, waited: Reply<()>,
                desc: Describe)
    returns (req: CreateVpcRequest, err: Option<Error>)
    modifies d
    ensures req == CreateVpcRequestOf(old(d.cidrBlocks), old(d.name), old(d.tag), old(d.remark), uniqueSuffix)
    ensures created.Failed? ==>
              err == Some(CreateFailed(created.cause)) && d.State() == old(d.State())
    ensures created.Ok? && waited.Failed? ==>
              err == Some(WaitFailed(created.value, waited.cause)) &&
              d.State() == old(d.State()).(id := created.value)
    ensures created.Ok? && waited.Ok? ==>
              (d.State(), err) == ReadInto(old(d.State()).(id := created.value), desc)
  {
    req := CreateVpcRequestOf(d.cidrBlocks, d.name, d.tag, d.remark, uniqueSuffix);
    if created.Failed? {
      err := Some(CreateFailed(created.cause));
      return;
    }
    d.id := created.value;
    if waited.Failed? {
      err := Some(WaitFailed(d.id, waited.cause));
      return;
    }
    err := Read(d, desc);
  }

  // ---------------------------------------------------------------------------
  // Update

  /** The update handler: `oldBlocks` is the prior state's cidr_blocks; the planned ones are in
      `d`. The network requests run only for a changed set of an existing resource; an error
      from them is returned at once, otherwise the VPC is read back. */
  method Update(d: ResourceData, oldBlocks: set<string>, isNewResource: bool,
                added: Reply<()>, updated: Reply<()>, desc: Describe)
    returns (calls: seq<Call>, err: Option<Error>)
    modifies d
    ensures !ChangesNetwork(oldBlocks, old(d.cidrBlocks), isNewResource) ==>
              calls == [] && (d.State(), err) == ReadInto(old(d.State()), desc)
    ensures ChangesNetwork(oldBlocks, old(d.cidrBlocks), isNewResource) ==>
              var (sent, failure) := NetworkOutcome(old(d.id), oldBlocks, old(d.cidrBlocks), added, updated);
              calls == sent &&
              (failure.Some? ==> err == failure && d.State() == old(d.State())) &&
              (failure.None? ==> (d.State(), err) == ReadInto(old(d.State()), desc))
  {
    calls := [];
    if ChangesNetwork(oldBlocks, d.cidrBlocks, isNewResource) {
      calls, err := UpdateNetworks(d.id, oldBlocks, d.cidrBlocks, added, updated);
      if err.Some? {
        return;
      }
    }
    err := Read(d, desc);
  }

  // ---------------------------------------------------------------------------
  // Waiting for a new VPC

  /** The pending and target states of the wait that follows CreateVPC. */
  datatype StateChangeConf = StateChangeConf(pending: seq<string>, target: seq<string>)

  function VpcWaitConf(): (conf: StateChangeConf)
    ensures STATUS_PENDING in conf.pending && STATUS_INITIALIZED in conf.target
    ensures forall s :: s in conf.pending ==> s !in conf.target
  {
    StateChangeConf([STATUS_PENDING], [STATUS_INITIALIZED])
  }

  /** What one refresh reports: the VPC if found, the state, and an error. */
  datatype RefreshResult = RefreshResult(value: Option<VpcSet>, state: string, err: Option<string>)

  /** One refresh of the wait: not found is still pending, found is initialized, and any other
      error ends the wait with an empty state. */
  function Refresh(desc: Describe): (r: RefreshResult)
    ensures r.err.None? <==> !desc.OtherError?
    ensures r.state == STATUS_PENDING <==> desc.NotFound?
    ensures r.state == STATUS_INITIALIZED <==> desc.Found?
    ensures r.value.Some? <==> desc.Found?
    ensures desc.Found? ==> r.value.value == desc.vpc
    ensures desc.OtherError? ==> r.state == "" && r.err == Some(desc.cause)
  {
    match desc
    case NotFound => RefreshResult(None, STATUS_PENDING, None)
    case Found(v) => RefreshResult(Some(v), STATUS_INITIALIZED, None)
    case OtherError(cause) => RefreshResult(None, "", Some(cause))
  }

  /** Every refresh without error reports a state the wait knows, and it reports the target
      exactly when the VPC was found: the wait can only move from pending to initialized. */
  lemma RefreshStaysWithinConf(desc: Describe)
    ensures var r, conf := Refresh(desc), VpcWaitConf();
            (r.err.None? ==> r.state in conf.pending + conf.target) &&
            (r.state in conf.target <==> desc.Found?) &&
            (r.state in conf.pending <==> desc.NotFound?)
  {
  }

  // ---------------------------------------------------------------------------
  // Delete

  /** The verdict of one attempt of the delete retry loop. */
  datatype RetryStep = Done | Retryable(err: Error) | NonRetryable(err: Error)

  /** One attempt of the delete loop: DeleteVPC, then a describe to confirm the VPC is gone.
      `deleted` and `desc` are the outcomes of the two requests. */
  method DeleteAttempt(vpcId: string, deleted: Reply<()>, desc: Describe)
    returns (calls: seq<Call>, step: RetryStep)
    ensures calls == if deleted.Ok? then [DeleteVpc(vpcId), DescribeVpc(vpcId)] else [DeleteVpc(vpcId)]
    ensures step.Done? <==> deleted.Ok? && desc.NotFound?
    ensures step.Retryable? <==> deleted.Ok? && desc.Found?
    ensures deleted.Failed? ==> step == NonRetryable(DeleteFailed(vpcId, deleted.cause))
    ensures deleted.Ok? && desc.OtherError? ==>
              step == NonRetryable(DescribeOnDeleteFailed(vpcId, desc.cause))
    ensures step.Retryable? ==> step.err == NotYetDeleted(vpcId)
  {
    calls := [DeleteVpc(vpcId)];
    if deleted.Failed? {
      step := NonRetryable(DeleteFailed(vpcId, deleted.cause));
      return;
    }
    calls := calls + [DescribeVpc(vpcId)];
    match desc
    case NotFound =>
      step := Done;
    case OtherError(cause) =>
      step := NonRetryable(DescribeOnDeleteFailed(vpcId, cause));
    case Found(_) =>
      step := Retryable(NotYetDeleted(vpcId));
  }

  // ---------------------------------------------------------------------------
  // Worked cases

  /** An added block alone is sent by one AddNetwork. */
  lemma AddOnlyExample(vpcId: string)
    ensures NetworkRequests(vpcId, {"10.0.0.0/8"}, {"10.0.0.0/8", "10.1.0.0/16"})
            == [AddNetwork(vpcId, {"10.1.0.0/16"})]
  {
    var o: set<string> := {"10.0.0.0/8"};
    var n: set<string> := {"10.0.0.0/8", "10.1.0.0/16"};
    assert "10.0.0.0/8" != "10.1.0.0/16";
    assert n - o == {"10.1.0.0/16"};
    assert o - n == {};
  }

  /** A removed block alone is sent by one UpdateNetwork that carries what remains. */
  lemma RemoveOnlyExample(vpcId: string)
    ensures NetworkRequests(vpcId, {"10.0.0.0/8", "10.1.0.0/16"}, {"10.0.0.0/8"})
            == [UpdateNetwork(vpcId, {"10.0.0.0/8"})]
  {
  }

  /** Replacing one block by another is rejected. */
  lemma ReplaceRejectedExample()
    ensures DiffSuppressNetworkUpdate({"10.0.0.0/8"}, {"10.1.0.0/16"}) == Some(MixedNetworkChange)
  {
  }
}
