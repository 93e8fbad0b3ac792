# ucloud_vpc resource handler, modelled in Dafny

This project models the decision logic of the `ucloud_vpc` resource of the UCloud
Terraform provider (`ucloud/resource_ucloud_vpc.go`):

- the `cidr_blocks` change rule, which rejects a change that both adds and removes CIDR blocks;
- the create handler, which defaults the name and the tag, creates the VPC, waits for it and reads it back;
- the read handler, which treats a VPC that is not found as absent (it clears the identifier and returns no error) and otherwise copies the described VPC into the resource data;
- the update handler, whose `cidr_blocks` branch sends an "add network" request with the added blocks and then an "overwrite network list" request with the whole new set;
- the refresh step of the wait after creation (not found = `pending`, found = `initialized`, other error = failure);
- one attempt of the delete retry loop (success, retryable or non-retryable).

Two modules:

- `Remote` (`remote.dfy`) holds the outcome kinds of the API calls, the VPC record a describe returns, the recorded request trace (`Call`), and the effect a successful network request has on the VPC's CIDR blocks: `AddVPCNetwork` adds, `UpdateVPCNetwork` replaces the whole list. That effect is the API behaviour the provider relies on, not code of the provider.
- `ResourceVpc` (`resource_vpc.dfy`) holds the handlers. The framework's `*schema.ResourceData` is the class `ResourceData`, one field per attribute, with `State()` giving its value. `Read`, `Create` and `Update` change it in place. Their contracts tie the new state to the pure function `ReadInto` of the old state. The update's `cidr_blocks` branch and the delete attempt change no state; they return the requests they issue as a `seq<Call>`. The `network_info` loop changes no state either; it returns the entries it builds.

Each remote outcome is an input of the operation that receives it: `Reply` for
CreateVPC, AddVPCNetwork, UpdateVPCNetwork, DeleteVPC and the wait, and `Describe`
(`Found`, `NotFound`, `OtherError`) for `describeVPCById` as `isNotFoundError`
classifies it. `GetOk` reports a zero value as unset, so an empty string stands for
an unset `name`, `tag` or `remark`.

The constants `defaultTag`, `statusPending` and `statusInitialized` are defined in
provider files that are not part of this model. They are taken here as `"Default"`,
`"pending"` and `"initialized"`. Every contract refers to them by name only.

Three behaviours of the code that are easy to miss:

- Read does not write `remark` back (the line is commented out at `resource_ucloud_vpc.go:144-145`), so `ReadInto` keeps the remark it had.
- The update makes both requests, add first, when a mixed change reaches it. Only the separate change rule keeps this from happening (`MixedChangeAddsFirst`).
- A delete is not idempotent in the code: an error from DeleteVPC is terminal, whether or not the VPC still exists (`DeleteAttempt`).

## Model

| member | source | states |
|---|---|---|
| `ResourceVpc.DiffSuppressNetworkUpdate` | ucloud/resource_ucloud_vpc.go:252-261 | the only error the rule returns is the mixed-change error |
| `ResourceVpc.RejectsExactlyMixed` | ucloud/resource_ucloud_vpc.go:255-258 | a change is rejected if and only if some old block is missing from the new set and some new block is missing from the old set |
| `ResourceVpc.AcceptsOneDirection` | ucloud/resource_ucloud_vpc.go:256-260 | a change is accepted if and only if it is a pure addition, a pure removal or no change (old ⊆ new or new ⊆ old) |
| `ResourceVpc.ChangesNetwork` | ucloud/resource_ucloud_vpc.go:171 | the `cidr_blocks` branch runs exactly for an existing resource whose set gains or loses some block |
| `ResourceVpc.NetworkRequests` | ucloud/resource_ucloud_vpc.go:175-196 | the plan of the `cidr_blocks` branch when every request succeeds: at most two requests, all for this VPC, each an AddNetwork or an UpdateNetwork (its lemmas below state which) |
| `ResourceVpc.AddsExactlyTheNewBlocks` | ucloud/resource_ucloud_vpc.go:175-184 | when blocks are added, the first request is AddNetwork and carries exactly new \ old; there is no other AddNetwork, and none at all when nothing is added |
| `ResourceVpc.OverwritesWithTheWholeNewSet` | ucloud/resource_ucloud_vpc.go:186-196 | when blocks are removed, the last request is UpdateNetwork and carries the whole new set, not the removed blocks; there is no other UpdateNetwork, and none at all when nothing is removed |
| `ResourceVpc.AcceptedChangeIssuesAtMostOne` | ucloud/resource_ucloud_vpc.go:171-196 | a change the rule accepts needs at most one request; the plan is empty if and only if the set is unchanged |
| `ResourceVpc.MixedChangeAddsFirst` | ucloud/resource_ucloud_vpc.go:175-196 | a mixed change that bypassed the rule is sent as AddNetwork(new \ old) followed by UpdateNetwork(new) |
| `ResourceVpc.NetworkRequestsReachNewSet` | ucloud/resource_ucloud_vpc.go:175-196 | when every request succeeds, the VPC's blocks go from the old set to exactly the new set, for every pair of sets |
| `ResourceVpc.AddThenFailedOverwriteLeavesUnion` | ucloud/resource_ucloud_vpc.go:180-194 | for a mixed change whose AddNetwork succeeds and whose overwrite fails, the branch sends the whole plan, returns the UpdateVPCNetwork error, and the one request that took effect leaves the VPC with old ∪ new |
| `ResourceVpc.NetworkOutcome` | ucloud/resource_ucloud_vpc.go:172-196 | the requests sent are always a prefix of the plan; a failed AddNetwork stops after that one request with the AddVPCNetwork error, so no overwrite is sent; otherwise the whole plan is sent, and a failed overwrite returns the UpdateVPCNetwork error; with no failure there is no error |
| `ResourceVpc.UpdateNetworks` | ucloud/resource_ucloud_vpc.go:172-196 | the requests this method sends one by one, and its error, are exactly those of `NetworkOutcome` |
| `ResourceVpc.Update` | ucloud/resource_ucloud_vpc.go:165-204 | no request for an unchanged set or a new resource, followed by Read; otherwise the requests and the error of `NetworkOutcome` for the old and new sets and the two outcomes; an error there is returned at once with the resource data untouched, and without one the data and error are those of Read |
| `ResourceVpc.ReadInto` | ucloud/resource_ucloud_vpc.go:129-163 | not found: the id is cleared, everything else is kept, no error; other error: data untouched, the error names the id; found: id and remark kept, name, tag, CIDR-block set, timestamps and network_info copied from the VPC, no error |
| `ResourceVpc.NetworkInfoEntries` | ucloud/resource_ucloud_vpc.go:151-156 | one `cidr_block` entry per NetworkInfo element, in the same order and with the same network |
| `ResourceVpc.Read` | ucloud/resource_ucloud_vpc.go:129-163 | the new resource data and the returned error are exactly what `ReadInto` gives for the old data and the describe outcome |
| `ResourceVpc.CreateVpcRequestOf` | ucloud/resource_ucloud_vpc.go:93-111 | the request carries the configured blocks; a configured name, tag or remark is sent as given; a missing name becomes `tf-vpc-` followed by the unique suffix; a missing tag becomes the default tag; a missing remark is not sent; name and tag are never empty |
| `ResourceVpc.Create` | ucloud/resource_ucloud_vpc.go:89-127 | the request is the one `CreateVpcRequestOf` builds; a failed CreateVPC leaves the data untouched; after a success the id is stored; a failed wait returns an error naming the new id; a successful wait ends in Read of the data with that id |
| `ResourceVpc.VpcWaitConf` | ucloud/resource_ucloud_vpc.go:231-234 | the wait's pending list holds `pending`, its target list holds `initialized`, and no state is in both |
| `ResourceVpc.Refresh` | ucloud/resource_ucloud_vpc.go:238-248 | no error unless the describe failed for another reason than not found; state `pending` if and only if not found; `initialized` if and only if found, together with the VPC; any other error gives the empty state and passes the error through unwrapped |
| `ResourceVpc.RefreshStaysWithinConf` | ucloud/resource_ucloud_vpc.go:231-248 | a refresh without error always reports a pending or a target state of the wait; it reports the target if and only if the VPC was found, and pending if and only if it was not found |
| `ResourceVpc.DeleteAttempt` | ucloud/resource_ucloud_vpc.go:213-228 | DeleteVPC is always sent; the describe is sent if and only if DeleteVPC succeeded; a DeleteVPC error is non-retryable; success if and only if DeleteVPC succeeded and the VPC is not found; retryable if and only if DeleteVPC succeeded and the VPC is still found; any other describe error is non-retryable |
| `ResourceVpc.AddOnlyExample` | ucloud/resource_ucloud_vpc.go:175-184 | going from {10.0.0.0/8} to {10.0.0.0/8, 10.1.0.0/16} sends only AddNetwork with {10.1.0.0/16} |
| `ResourceVpc.RemoveOnlyExample` | ucloud/resource_ucloud_vpc.go:186-196 | going from {10.0.0.0/8, 10.1.0.0/16} to {10.0.0.0/8} sends only UpdateNetwork with {10.0.0.0/8} |
| `ResourceVpc.ReplaceRejectedExample` | ucloud/resource_ucloud_vpc.go:256-258 | replacing {10.0.0.0/8} by {10.1.0.0/16} is rejected |

## Left out

- The resource schema and the framework: `schema.Resource`, `customdiff`, the `ForceNew`, `Computed` and `Default` flags, and `d.Partial` / `d.SetPartial`. The framework owns these and the state persistence they drive. It is also the framework that runs the change rule before Update; the model states the rule and the update separately.
- The UCloud SDK requests and responses are network I/O. Each outcome is an input of the operation that receives it. The effect of a successful network request on the VPC (`Remote.Apply`) is stated as the API's behaviour, not derived from code.
- Timing: the 3-minute timeout, the 2-second delay and the 1-second minimum interval of the wait, and the 5-minute ceiling of the delete retry. The polling engines `resource.StateChangeConf` and `resource.Retry` are library code that is not part of this model. The model covers one refresh and one delete attempt. Create receives the wait's overall outcome as an input.
- `validateName`, `validateCIDRBlock`, `validateTag`, `stateFuncTag`, `hashCIDR`, `timestampToString` and `schemaSetToStringSlice` are defined in files that are not part of this model. Because of that, timestamps are kept as the integers the API returns, and request network lists are sets with no order.
- `ResourceVpc.CreateVpcRequestOf`: it does not model that `resource.PrefixedUniqueId` is unique. The generated name is the prefix followed by a suffix passed in as an input.
- The error that `d.Set("network_info", …)` can return is a framework failure and is not modelled.
- The `meta.(*UCloudClient)` type assertions, which would panic on a wrong type.
- Passthrough import is framework behaviour: the identifier is used verbatim.
- CIDR blocks are compared as strings. The schema set compares them by the hash `hashCIDR` gives, which is defined in a file that is not part of this model.
