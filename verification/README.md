# Verified model of the DBaaS operator

The DBaaS operator connects database providers to a Kubernetes cluster: it elects an active policy in each namespace,
converts objects between two API versions, decides who may use a provider account (an inventory), mirrors inventories,
connections and instances into objects of the providers' own operators, guards inventories and connections with
admission webhooks, and installs the platform. This project models that logic and proves what it promises. The API
server, the other controllers and the users appear as arbitrary steps and arbitrary answers.

`dafny verify dfyconfig.toml` checks everything.

## The parts

- **Policy election** (`PolicyProtocol` and the seven modules after it). Every API call of a reconcile pass (list, get,
  quota write, status write) is a step of its own, interleaved with users who create, edit and delete policies and
  quotas, with the default-policy creator, with operator restarts, failed calls and writes whose answer is lost.
  `PolicySafety` proves that no reachable state has two active policies in a namespace. `PolicyQuiescence` proves that no
  work is lost: whenever nothing of a namespace is queued or in flight, whatever goes on elsewhere, a namespace with a
  policy has exactly one winner and its quota. `PolicyConvergence` bounds the undisturbed steps about a namespace,
  whatever happens in other namespaces. `PolicyLiveness` and `PolicyFairness` give the exact conditions: when
  every undisturbed schedule comes to rest, when some schedule does, and when every schedule that leaves no request
  waiting does. `PolicySweep` starts from arbitrary verdicts, several of them active, says
  exactly what any sweep of passes makes of them, and when a sweep over all policies leaves exactly one active.
  `PolicyReconciler` is the step-by-step code with any one of its calls failing, shown to be a run of the protocol.
- **Conversions** (`ProviderFields`, `ProviderConversion`, `InstanceConversion`, `InventoryConversion`). Go's map
  iteration picks any remaining key. The theorems are normal forms, exact losses and exact conditions for round trips.
- **Access and gate** (`Access`, `ProviderResource`, `Gate`, `GateRuns`). The decisions, the pass shared by the three
  reconcilers with its deferred status write, the checks in front of it, and an invariant over all runs: every provider
  object and every Ready status goes back to a pass that found the gate open for the object's own namespace, made since
  that provider object was last removed, or since that object was last created. From a connection or an instance the
  chain goes on through its inventory.
- **Memory** (`Slices`, `StatusAliasing`). Slices, maps and pointers as references, to show that setting a condition in
  place never reaches the provider's object although the conversion shares its memory.
- **Admission** (`InventoryAdmission`, `ConnectionLifetime`). What every history of admitted operations guarantees.
- **Platform** (`PlatformInstall`, `ConsolePlugin`). The installation loop with its latch, and the console plugin list.

## Assumptions

- Reads of the policy controller are linearizable; one worker serves policies (`controllers/dbaaspolicy_controller.go:145-150`).
- Status is a subresource (`api/v1beta1/dbaaspolicy_types.go:58`), so only `updateStatusCondition` sets `PolicyReady`.
- The work queue keeps a key that becomes dirty while it is processed, and a restarted operator lists every policy and
  quota again. A status update that changes nothing raises no event.
- In the runs of `GateRuns` the reads of a pass are arbitrary, and its accepted writes take effect together: the API
  server accepts a status write only on the version the pass read, and one object is never reconciled twice at a time.
- Label selectors are lists of requirements joined by AND; a `matchLabels` entry is an In requirement with one value.
- For the RDS rule, an admission check and the write it admits are atomic and the provider-name index is exact.

## What the proofs found out about the code

- While something else controls its quota `dbaas-<name>`, a policy is not activated and its request is retried. Whether a
  namespace without an active policy elects one then depends on the queue. Every schedule elects exactly when every
  pending request can be served (`PolicyLiveness.BoundedIffPromising`); every schedule that leaves no request waiting,
  exactly when one can be served (`PolicyFairness.ServedIffServable`); some schedule, exactly when one can elect with the
  list answered favourably (`PolicyLiveness.CanRestIffHopeful`). Three states tell the conditions apart
  (`PolicyFairness.NoScheduleHelps`, `PolicyFairness.ServingHelps`, `PolicyFairness.OrderDecides`).
- The comments on the two connection fields of a policy say that each inventory can individually override them
  (`api/v1alpha1/dbaaspolicy_types.go:36`, `api/v1alpha1/dbaaspolicy_types.go:42`). Read as overriding field by field,
  that is what the code does exactly when one of the policies is absent, or both of these hold: the inventory's policy
  has names or the active one names nobody; and it has a selector, or an asterisk among its names, or the active one has
  no selector (`Access.OverridesFieldsIff`, with a namespace that is shut out in `Access.OverrideFails`).
- An inventory with an empty policy loses that policy on a trip through v1alpha1, and with it the shield against the
  active policy (`InventoryConversion.RoundTripKeepsDecisions`).
- MongoDB's `ProjectName` of a v1alpha1 instance survives one trip through v1beta1, under the key `projectName`, which
  the next trip drops (`InstanceConversion.NIdempotentIff`).
- The normal form of provider conversion does not need an injective table; what it needs is exactly that the table
  names no parameter that `ConvertFrom` drops (`ProviderConversion.NormalForm`, `ProviderConversion.NoNormalForm`).
- The provider round trip returns its parameter specs exactly when names are distinct and known, every spec is a required
  string, and the cloud provider, alone, has a default.
- `InventoryReady=Unknown` would open the gate: only `False` or a missing condition closes it. The operator itself never
  stores it, whatever the provider reports (`GateRuns.ReadyStaysKnown`).
- The branch `!provision` after `checkInventory` in the instance reconciler (`controllers/dbaasinstance_controller.go:90-91`)
  cannot be reached.
- The platform latch is set before the status is written. If that write fails, or a platform falls back later,
  `PlatformReady=True` is never stored again by the same process (`PlatformInstall.LatchedStaysUnready`,
  `PlatformInstall.CompletingWriteCanBeLost`).
- A platform resource that is being deleted gets no platforms to visit (`controllers/dbaasplatform_controller.go:150-160`),
  so the `Cleanup` call in the loop is never made.

## Model

| member | source | states |
|---|---|---|
| PolicyProtocol.GetActive | controllers/dbaaspolicy_controller.go:167-174 | the first policy in list order whose PolicyReady is True, and none exactly when no listed policy is active |
| PolicySafety.NeverTwoActive | controllers/dbaaspolicy_controller.go:57-164 | in every state any interleaving can reach, no namespace has two active policies |
| PolicySafety.StepKeepsSafe | controllers/dbaaspolicy_controller.go:57-164 | every single step, of the worker, the creator, a user or a restart, keeps the invariant that the pass in flight knows the active policy of its namespace |
| PolicySafety.WriteStatusKeepsSafe | controllers/dbaaspolicy_controller.go:152-164 | a status write, checked only against the version the pass read, cannot activate a second policy, whether or not its answer arrives |
| PolicySafety.ListKeepsSafe | controllers/dbaaspolicy_controller.go:57-63 | a list answer in any order leaves the pass knowing the active policy and its identity |
| PolicySafety.OutsideKeepsSafe | controllers/dbaasdefaultpolicy_controller.go:81-112 | users, restarts and the default-policy creator keep the invariant too |
| PolicySafety.ActiveUntilDeleted | controllers/dbaaspolicy_controller.go:100-109 | an active policy stays active through every run in which its object is not deleted |
| PolicySafety.GoneStaysGone | controllers/dbaaspolicy_controller.go:66-75 | a deleted policy never comes back: one created later under its name is a different object |
| PolicySafety.CreatorSawNone | controllers/dbaasdefaultpolicy_controller.go:87-99 | whenever the default-policy creator is on its way to create, its last list in the same process found no policy in its namespace |
| PolicySafety.CreatorCreates | controllers/dbaasdefaultpolicy_controller.go:95-130 | it creates nothing but the policy called cluster in its own namespace, without a verdict, and only where that is missing |
| PolicyQuiescence.QuiescentMeansElected | controllers/dbaaspolicy_controller.go:57-81 | after any run with nothing of a namespace queued or in flight, whatever is going on in others, a namespace with a policy has exactly one active policy, whose quota it controls, and all others are False |
| PolicyQuiescence.StepKeepsInv | controllers/dbaaspolicy_controller.go:57-164 | every step keeps: policies without an active one, a policy without a verdict, or an active policy without its quota imply a pending or in-flight request that will see to it |
| PolicyQuiescence.ElectionStaysOwed | controllers/dbaaspolicy_controller.go:66-75 | an election is never forgotten, also when the get answers NotFound and the pass stops without requeue |
| PolicyQuiescence.LostActivePending | controllers/dbaaspolicy_controller.go:66-75 | the step that takes away the active policy of a namespace leaves a request of that namespace pending |
| PolicyQuiescence.VerdictStaysOwed | controllers/dbaaspolicy_controller.go:93-109 | a policy without a verdict is always queued, on its way to the queue or being handled |
| PolicyQuiescence.QuotaStaysOwed | controllers/dbaaspolicy_controller.go:111-139 | an active policy without its quota is always queued or about to claim it |
| PolicyQuiescence.SetQuotaIsSeen | controllers/dbaaspolicy_controller.go:145-150 | whoever changes the quota of an active policy makes its owner pending again |
| PolicyConvergence.QuietRunElects | controllers/dbaaspolicy_controller.go:51-142 | from any reachable state that is promising for one namespace, undisturbed runs have boundedly many steps about it, whatever the others do, and once none is left it has an elected policy |
| PolicyConvergence.QuietRunsAreShort | controllers/dbaaspolicy_controller.go:51-142 | an undisturbed run has at most as many steps about a promising set of namespaces as the rank that set starts with, and leaves it promising |
| PolicyConvergence.WholeRunsAreShort | controllers/dbaaspolicy_controller.go:51-142 | when all busy namespaces are promising, the number of all undisturbed steps is bounded |
| PolicyConvergence.QuietDescends | controllers/dbaaspolicy_controller.go:51-142 | every undisturbed step about a promising set of namespaces, also of a pass with outdated copies, lowers its rank |
| PolicyConvergence.ElsewhereKeepsRank | controllers/dbaaspolicy_controller.go:51-142 | undisturbed steps about other namespaces leave the rank alone |
| PolicyConvergence.QuietKeepsPromising | controllers/dbaaspolicy_controller.go:111-139 | every undisturbed step keeps: active policies can claim their quotas, and where none is active every request can be served |
| PolicyConvergence.ClaimableIsPromising | controllers/dbaaspolicy_controller.go:119-136 | a set of namespaces none of whose quotas is in other hands is promising in every state |
| PolicyConvergence.QuietStepExists | controllers/dbaaspolicy_controller.go:51-142 | while anything of a namespace is queued or in flight, some undisturbed step about it can be taken, or the worker can go on where it is busy |
| PolicyConvergence.RestReached | controllers/dbaaspolicy_controller.go:51-142 | a promising namespace can be brought to rest from any reachable state |
| PolicyLiveness.BoundedIffPromising | controllers/dbaaspolicy_controller.go:57-139 | in every reachable state, the undisturbed steps about a namespace are bounded under every schedule exactly when, however the pass in flight ends, its active policy can claim its quota or, where none is active, each pending policy can, and all policies can if a request for a gone one is pending; a pass elsewhere does not matter |
| PolicyLiveness.CanRestIffHopeful | controllers/dbaaspolicy_controller.go:57-139 | in every reachable state, some undisturbed schedule brings a namespace to rest exactly when the pass in flight can end so that its active policy can claim its quota or, where none is active, some pending request can elect a policy, or it has no policy; a pass elsewhere does not matter |
| PolicyFairness.ServedIffServable | controllers/dbaaspolicy_controller.go:57-139 | with no pass about a namespace in flight, every undisturbed schedule that serves each pending request once leaves it promising exactly when its active policy can claim its quota or, where none is active, some pending request can be served, or it has no policy |
| PolicyFairness.ServedAfterPassIff | controllers/dbaaspolicy_controller.go:57-139 | with a pass about the namespace in flight, the same of the states in which it can end |
| PolicyFairness.ServedWins | controllers/dbaaspolicy_controller.go:57-141 | once a request that can be served is taken, a policy with a claimable quota is active when the run ends |
| PolicyFairness.UnservedForEver | controllers/dbaaspolicy_controller.go:119-136 | otherwise any number of rounds in which each request is served can follow one another without result |
| PolicyFairness.NoScheduleHelps | controllers/dbaaspolicy_controller.go:119-136 | an initial state that fails all three conditions |
| PolicyFairness.ServingHelps | controllers/dbaaspolicy_controller.go:119-136 | an initial state in which serving everybody elects but a preference of the queue may prevent it |
| PolicyFairness.OrderDecides | controllers/dbaaspolicy_controller.go:66-75 | a state in which it depends on the order of the list whether a request for a deleted policy elects |
| PolicyLiveness.HopelessForEver | controllers/dbaaspolicy_controller.go:119-136 | a request that cannot be served can be retried any number of times in a row |
| PolicyLiveness.StuckNeverRests | controllers/dbaaspolicy_controller.go:119-136 | a namespace in which no request can elect, or whose active policy cannot claim its quota, never comes to rest while undisturbed |
| PolicyLiveness.BlockedNeverElects | controllers/dbaaspolicy_controller.go:119-136 | a namespace whose quotas all belong to others neither elects a policy nor comes to rest while undisturbed, also with an outdated pass in flight |
| PolicySweep.PassIsRun | controllers/dbaaspolicy_controller.go:57-141 | an uninterrupted pass is a run of protocol steps and ends in the state the function computes |
| PolicySweep.PassRepairsCount | controllers/dbaaspolicy_controller.go:93-109 | from any verdicts, no pass takes the number of active policies from one or more to none or above what it was; from none it gives exactly one unless the quota of the policy it turns to is controlled by something else |
| PolicySweep.ClaimsBeforeVerdict | controllers/dbaaspolicy_controller.go:111-141 | a pass whose claim is refused changes no policy and no quota and is retried; a policy that a pass tells it is active has its quota afterwards |
| PolicySweep.PassStops | controllers/dbaaspolicy_controller.go:72-75 | a pass for a policy that is gone changes nothing when another one is active or none is left |
| PolicySweep.SweepOutcome | controllers/dbaaspolicy_controller.go:93-109 | exactly what a sweep of any requests makes of any verdicts: the winner is active, whoever is requested once it is known is inactive in its favour, all others keep their verdicts |
| PolicySweep.SweepElects | controllers/dbaaspolicy_controller.go:93-109 | from any verdicts, a sweep that requests every policy, in any order, leaves exactly one active, exactly when some policy was active or some policy of the namespace can claim its quota; it is the first active in list order, or else the first one requested that can claim |
| PolicySweep.WinnerIff | controllers/dbaaspolicy_controller.go:93-109 | such a sweep has a winner exactly under that condition |
| PolicySweep.SweepInforms | controllers/dbaaspolicy_controller.go:93-109 | when the winner is known from the first request on, all other policies end False in its favour |
| PolicySweep.UnclaimableStaysInactive | controllers/dbaaspolicy_controller.go:119-136 | no sweep activates a policy whose quota something else controls |
| PolicyReconciler.Reconcile | controllers/dbaaspolicy_controller.go:51-142 | the imperative pass, with the list in whatever order the server answers and any one of its calls failing, before or after it took effect, changes policies, quotas and queue as the protocol's pass with that fault does |
| PolicyReconciler.PassWithIsRun | controllers/dbaaspolicy_controller.go:57-164 | a pass with any one call failing is a run of protocol steps and ends in the state the function computes |
| PolicyReconciler.NoFaultIsPass | controllers/dbaaspolicy_controller.go:57-141 | without a fault it is the uninterrupted pass of the sweeps |
| PolicyReconciler.ClaimQuota | controllers/dbaaspolicy_controller.go:111-139 | the claim of an active policy's quota, its refusal, its failure and its lost answer |
| PolicyReconciler.UpdateStatusCondition | controllers/dbaaspolicy_controller.go:152-164 | the status write, its conflict, its failure and its lost answer |
| PolicyReconciler.ApiServer.ListPolicies | controllers/dbaas_reconciler.go:108-114 | a list answer holds each policy of the namespace once, in some order |
| PolicyReconciler.ApiServer.CreateOrUpdateQuota | controllers/dbaaspolicy_controller.go:113-139 | the quota is created or taken over with limit one unless another controller owns it, and its event is raised only on a change |
| PolicyReconciler.ApiServer.UpdateStatus | controllers/dbaaspolicy_controller.go:152-164 | the verdict is stored exactly when the object still has the version read; otherwise nothing changes and the request is retried |
| PolicyReconciler.FindActive | controllers/dbaaspolicy_controller.go:167-174 | the search loop returns the first active policy |
| ProviderFields.ConvertNameTo | api/v1alpha1/dbaasprovider_conversion.go:183-191 | the table lookup, empty for an unknown provider or name |
| ProviderFields.ConvertNameFrom | api/v1alpha1/dbaasprovider_conversion.go:194-204 | some name the table maps to the parameter, and empty only when there is none, in any iteration order |
| ProviderFields.NameFromUnique | api/v1alpha1/dbaasprovider_conversion.go:194-204 | for a one-to-one table the iteration order does not matter |
| ProviderFields.FieldsInjective | api/v1alpha1/dbaasprovider_conversion.go:27-42 | the operator's own table is one-to-one for every provider |
| ProviderConversion.ConvertTo | api/v1alpha1/dbaasprovider_conversion.go:45-130 | the loops compute the v1beta1 provider whose parameters ParametersAre characterises |
| ProviderConversion.ParametersAre | api/v1alpha1/dbaasprovider_conversion.go:69-108 | a parameter is there exactly when some spec maps to it, and it renders the last such spec |
| ProviderConversion.FormShows | api/v1alpha1/dbaasprovider_conversion.go:69-108 | each form has the display name of the last spec that maps to it; the cloud provider depends on the free trial and offers one choice, its default or AWS; the others have no choices |
| ProviderConversion.HubIs | api/v1alpha1/dbaasprovider_conversion.go:48-129 | the plan form offers the free trial alone, the group version is the old one, the status is empty, the rest is copied |
| ProviderConversion.ConvertFrom | api/v1alpha1/dbaasprovider_conversion.go:133-180 | one spec for each kept parameter, once, in the order of the map iteration, and all other fields copied |
| ProviderConversion.SpokeShows | api/v1alpha1/dbaasprovider_conversion.go:137-177 | for any v1beta1 provider, the specs are those of the four known parameters, each once, as required strings under a name of the table's with the first conditional default; all else is copied |
| ProviderConversion.NormalForm | api/v1alpha1/dbaasprovider_conversion.go:45-180 | converting to v1beta1, back and again changes nothing more, for any parameters and iteration order, when the table names only kept parameters |
| ProviderConversion.NoNormalForm | api/v1alpha1/dbaasprovider_conversion.go:148-166 | for every other table some provider loses a parameter on that trip, in every iteration order |
| ProviderConversion.FieldsOneToOne | api/v1alpha1/dbaasprovider_conversion.go:27-42 | the operator's own table meets both conditions for every provider |
| ProviderConversion.RoundTrip | api/v1alpha1/dbaasprovider_conversion.go:55-174 | the trip returns the parameter specs as a permutation exactly when they are distinct, known, required strings with a default for the cloud provider alone; every other spec field is unchanged in any case |
| InstanceConversion.ConvertTo | api/v1alpha1/dbaasinstance_conversion.go:65-91 | whatever the iteration order, the result is the one that HubParameterIs and HubPlan describe; without client or inventory the error is returned and only reference and own fields are set |
| InstanceConversion.HubParameterIs | api/v1alpha1/dbaasinstance_conversion.go:66-89 | from the table alone: a parameter some other parameter is renamed to has that one's value, before the spec's own field; without one it is the own name, cloud provider or region, and nothing else is there but the plan |
| InstanceConversion.HubPlan | api/v1alpha1/dbaasinstance_conversion.go:66-89 | the plan is always the free trial, and the inventory reference is copied |
| InstanceConversion.ConvertFrom | api/v1alpha1/dbaasinstance_conversion.go:94-126 | whatever the iteration order, the kept parameters move back under the provider's names, with the Mongo and Crunchy special cases; on an error no other parameters are set |
| InstanceConversion.SpokeHas | api/v1alpha1/dbaasinstance_conversion.go:110-120 | from the table alone: each parameter it knows keeps its value under the provider's name, the project name in lower case |
| InstanceConversion.SpokeHasOnly | api/v1alpha1/dbaasinstance_conversion.go:110-120 | and no other parameter is kept |
| InstanceConversion.SpokeFields | api/v1alpha1/dbaasinstance_conversion.go:95-124 | name, cloud provider and region are the parameters, empty when absent, and the Crunchy region is us-east-1 |
| InstanceConversion.FillOthers | api/v1alpha1/dbaasinstance_conversion.go:110-120 | the loop's result does not depend on the iteration order |
| InstanceConversion.FieldOfIs | api/v1alpha1/dbaasprovider_conversion.go:27-42 | the reverse lookup in the operator's own table has one answer, tabulated |
| InstanceConversion.ExactLoss | api/v1alpha1/dbaasinstance_conversion.go:67-124 | the keys and values that are left after v1beta1 to v1alpha1 and back, and nothing else |
| InstanceConversion.MIdempotent | api/v1alpha1/dbaasinstance_conversion.go:65-126 | a second trip from v1beta1 changes nothing |
| InstanceConversion.NIdempotentIff | api/v1alpha1/dbaasinstance_conversion.go:115-119 | a second trip from v1alpha1 changes nothing exactly when the spec is not a Mongo spec with ProjectName |
| InstanceConversion.NStabilises | api/v1alpha1/dbaasinstance_conversion.go:65-126 | for every provider and spec the third trip changes nothing |
| InventoryConversion.BetaInventory.ConvertTo | api/v1alpha1/dbaasinventory_conversion.go:28-60 | each policy field that is set replaces the one in the target, unset ones leave it; a new target without any set field has no policy |
| InventoryConversion.BetaInventory.ConvertStatusTo | api/v1alpha1/dbaasinventory_conversion.go:90-103 | instances become services one by one in order; an empty list becomes nil and a nil list leaves the target |
| InventoryConversion.AlphaInventory.ConvertFrom | api/v1alpha1/dbaasinventory_conversion.go:79-87 | the policy fields move into the spec, and a missing policy leaves them as they were |
| InventoryConversion.AlphaRoundTrip | api/v1alpha1/dbaasinventory_conversion.go:28-87 | v1alpha1 to v1beta1 and back is the identity on specs |
| InventoryConversion.RoundTripKeepsDecisions | api/v1alpha1/dbaasinventory_conversion.go:35-87 | v1beta1 to v1alpha1 and back keeps every provisioning and namespace decision, for all namespaces, labels and active policies, exactly when the policy is absent or has a field set |
| Access.CanProvisionBranches | controllers/dbaas_reconciler.go:164-179 | yes exactly when there is an active policy and neither the inventory's policy, if it has one, nor otherwise the active one has the field set to true |
| Access.ProvisionIff | controllers/dbaas_reconciler.go:164-179 | the decision used by the gate is that one |
| Access.IsValidConnectionNS | controllers/dbaas_reconciler.go:117-161 | yes exactly for the inventory's own namespace, an asterisk or the name in the governing list, or an existing namespace whose labels meet every requirement of a well-formed selector when the list call works; which error comes exactly when; no exactly otherwise |
| Access.DecisionIsRight | controllers/dbaas_reconciler.go:117-161 | the decision used by the gate meets the same description |
| Access.RightAnswerUnique | controllers/dbaas_reconciler.go:117-161 | which leaves one answer for every input |
| Access.SelectorLaws | controllers/dbaas_reconciler.go:147-155 | NotIn and DoesNotExist are the opposites of In and Exists, an empty selector selects everything, requirements are joined by AND |
| Access.Contains | controllers/dbaas_reconciler.go:384-391 | true exactly for members |
| Access.OwnPolicyHidesActive | controllers/dbaas_reconciler.go:124-140 | with a policy of its own, an inventory is decided alike under any two active policies |
| Access.OverridesFieldsIff | api/v1alpha1/dbaaspolicy_types.go:35-44 | for all namespaces and clusters the code decides as field-by-field overriding would, exactly when a policy is absent or the inventory's leaves the active one no names and no selector that could matter |
| Access.OverridesProvisionsIff | controllers/dbaas_reconciler.go:164-179 | the same for provisioning, exactly when a policy is absent, the inventory decides it, or the active policy does not forbid it |
| Access.LeftOutShows | controllers/dbaas_reconciler.go:124-160 | otherwise some namespace is decided differently |
| Access.OverrideFails | api/v1alpha1/dbaaspolicy_types.go:35-44 | an inventory that only forbids provisioning shuts out a namespace the active policy names |
| Access.MoreNamesMoreAccess | controllers/dbaas_reconciler.go:143-160 | adding names never revokes access nor causes an error, and changes an answer only by granting it for a reason among the new names |
| ProviderResource.Subject.ReconcileProviderResource | controllers/dbaas_reconciler.go:181-255 | the pass ends with neither error nor requeue exactly when every call succeeded and the object was parsed; the error of the earliest failed call is returned, conflicts become requeues; status and calls are those FinalReadyIs, UnparsedKeepsRest, MergeKeepsProvider and CallsAre describe |
| ProviderResource.FinalReadyIs | controllers/dbaas_reconciler.go:187-254 | the Ready condition with its status and reason after a pass, for each kind and every combination of answers |
| ProviderResource.UnparsedKeepsRest | controllers/dbaas_reconciler.go:187-249 | a pass that takes over no provider status changes nothing but the Ready condition |
| ProviderResource.CallsAre | controllers/dbaas_reconciler.go:201-232 | the provider's object is written first, not at all without a provider, and the status once at the end of every pass |
| ProviderResource.Subject.MergeStatus | controllers/dbaasinstance_controller.go:164-185 | the provider's status replaces the object's, an instance without phase gets the unknown phase, and the verdict follows the sync condition |
| ProviderResource.MergeKeepsProvider | controllers/dbaasinventory_controller.go:172-190 | a parsed pass ends with unique condition types, one Ready condition that is True exactly when the provider reports the sync, and every other condition as and where the provider has it |
| ProviderResource.RepeatIsNoOp | controllers/dbaas_reconciler.go:187-254 | repeating a pass that meets the same answers changes nothing, whatever the answers: parsed, broken, missing or conflicting |
| ProviderResource.BrokenPassKeepsStatus | controllers/dbaas_reconciler.go:187-234 | a conflict or an unreadable provider leaves an existing Ready condition as it is |
| ProviderResource.ReadyWrittenIff | controllers/dbaas_reconciler.go:187-254 | exactly when the status a pass writes says Ready, in terms of its answers and the old condition |
| Gate.CheckInventory | controllers/dbaas_reconciler.go:257-316 | for every answer, whether the pass may go on and, when refused, the reason, the status written and that single write |
| Gate.ReconcileConnection | controllers/dbaasconnection_controller.go:56-167 | the calls and the status of a connection pass, exit by exit |
| Gate.ReconcileInstance | controllers/dbaasinstance_controller.go:50-150 | the calls and the status of an instance pass, exit by exit |
| Gate.ReconcileInventory | controllers/dbaasinventory_controller.go:50-158 | the calls and the status of an inventory pass, exit by exit |
| Gate.ActivePolicyExists | controllers/dbaaspolicy_controller.go:167-174 | the lookup finds an active policy exactly when the list holds one |
| Gate.ActivePolicyIs | controllers/dbaaspolicy_controller.go:167-174 | and it is the first one |
| Gate.CheckIs | controllers/dbaas_reconciler.go:257-316 | each refusal, the passage and the silent failure come for exactly their reasons, stated without the decision functions |
| Gate.DeniedShows | controllers/dbaasinstance_controller.go:76-85 | a refusal shows as the reason of the Ready condition, for an instance also in its phase, and changes nothing else |
| Gate.ExitsSay | controllers/dbaasconnection_controller.go:94-125 | what each exit of the connection and instance reconcilers before the provider leaves: nothing, or one status write with its reason |
| Gate.InventoryExitsSay | controllers/dbaasinventory_controller.go:57-117 | the same for the inventory reconciler |
| Gate.GateDecides | controllers/dbaasinstance_controller.go:76-149 | a pass goes through to the provider exactly when its gate is open, and otherwise never says Ready |
| Gate.ProviderBehindGate | controllers/dbaasconnection_controller.go:94-166 | the provider object is written exactly when the gate is open and the provider is still found; Ready is written only with the gate open |
| GateRuns.EverythingJustified | controllers/dbaas_reconciler.go:181-316 | over all runs of passes, creations, deletions and failed writes from an empty cluster, every provider object goes back to a pass of its object that found the gate open for the object's own namespace since the provider object was last removed, and every Ready status to such a pass since the object was last created, in which the provider reported the sync |
| GateRuns.OpenMeansAdmitted | controllers/dbaas_reconciler.go:117-179 | in such a pass the inventory admitted the object's own namespace and was not unready, and for an instance an active policy let it provision |
| GateRuns.PassMakesReady | controllers/dbaas_reconciler.go:187-254 | a pass makes no object ready but its own, and only as a synced one |
| GateRuns.EverythingChained | controllers/dbaas_reconciler.go:257-316 | when passes read inventories as stored, each provider object of a connection or an instance goes back, since it was last removed, to a pass with an open gate and through the inventory read there to an earlier synced pass of that very inventory |
| GateRuns.SyncedMeansPolicy | controllers/dbaasinventory_controller.go:75-101 | that inventory pass found an active policy in the inventory's namespace |
| GateRuns.ReadyStaysKnown | controllers/dbaas_reconciler.go:187-254 | whatever the passes read and the providers report, no stored Ready condition is Unknown |
| GateRuns.StepKeepsJustified | controllers/dbaas_reconciler.go:181-316 | each event keeps that invariant |
| GateRuns.EmptySystemJustified | controllers/dbaas_reconciler.go:181-316 | an empty cluster meets it |
| StatusAliasing.BetaStatusObject.DeepCopyInto | api/v1beta1/zz_generated.deepcopy.go:428-444 | the copy says the same, nil stays nil, and every array, map and type behind it is new and its own |
| StatusAliasing.DeepCopyService | api/v1beta1/zz_generated.deepcopy.go:861-875 | one element is overwritten by a copy with a new map and type, the other elements stay |
| StatusAliasing.AlphaStatusObject.ConvertTo | api/v1alpha1/dbaasinventory_conversion.go:90-103 | the condition slice and the info maps are shared, not copied; only the list of services is new |
| StatusAliasing.ConvertedAgrees | api/v1alpha1/dbaasinventory_conversion.go:90-103 | what the conversion leaves in a new status, read as a value, is the value conversion of the source |
| StatusAliasing.MergeInventoryStatus | controllers/dbaasinventory_controller.go:172-190 | the merged status has the provider's contents in memory of its own |
| StatusAliasing.SetStatusCondition | controllers/dbaas_reconciler.go:200 | the condition is overwritten where it lies or appended, in place where the array has room |
| StatusAliasing.TakeOver | controllers/dbaas_reconciler.go:200-254 | merge and deferred condition change nothing that existed before but the inventory's two fields, and the inventory ends with the provider's conditions, the verdict set |
| StatusAliasing.TakeOverAlpha | controllers/dbaasinventory_controller.go:142-148 | the same for an old provider, whose conditions, instances and info maps stay as they were although the conversion shares them |
| Slices.Append | controllers/reconcilers/consoleplugin/plugin_installation_reconciler.go:356 | appending writes in place when there is room and moves otherwise; the old view keeps its contents |
| InventoryAdmission.ValidateInventory | api/v1beta1/dbaasinventory_webhook.go:83-114 | the first failing check, in the code's order, is the refusal |
| InventoryAdmission.ValidateMandatoryFields | api/v1beta1/dbaasinventory_webhook.go:116-127 | the loop reports the first required field that is missing or empty |
| InventoryAdmission.NoneMissing | api/v1beta1/dbaasinventory_webhook.go:116-127 | nothing is reported exactly when every required field is filled |
| InventoryAdmission.AdmittedIff | api/v1beta1/dbaasinventory_webhook.go:83-138 | an inventory is admitted exactly when all five demands hold at once |
| InventoryAdmission.RefusedBecause | api/v1beta1/dbaasinventory_webhook.go:83-138 | each refusal is given exactly when its demand is the first one not met, and names the first missing field |
| InventoryAdmission.WebhookKeepsOneRds | api/v1beta1/dbaasinventory_webhook.go:83-138 | over any history of admitted creations, updates and deletions at most one inventory refers to RDS |
| InventoryAdmission.BothRulesNeeded | api/v1beta1/dbaasinventory_webhook.go:84-104 | RDS stays single over all histories exactly when both the create check and the immutable provider name are enforced |
| InventoryAdmission.TwoRdsWithout | api/v1beta1/dbaasinventory_webhook.go:84-104 | without either rule, a history from the empty cluster that ends with two RDS inventories |
| ConnectionLifetime.SpecCopy.GetConnectionSpec | controllers/dbaasconnection_controller.go:277-312 | the copy is resolved in place on success and unchanged on every error |
| ConnectionLifetime.ResolveIs | controllers/dbaasconnection_controller.go:277-312 | a spec with an ID is kept, a reference is replaced by the instance's ID, and each error comes for exactly its reason |
| ConnectionLifetime.CreateAdmittedIff | api/v1beta1/dbaasconnection_webhook.go:61-72 | creation is admitted exactly with an ID or a named reference, not both, and no type beside a reference; each refusal has its reason |
| ConnectionLifetime.UpdateAdmittedIff | api/v1beta1/dbaasconnection_webhook.go:74-92 | an update is admitted exactly when it changes nothing, and otherwise refused for the first field that changes |
| ConnectionLifetime.SpecNeverChanges | api/v1beta1/dbaasconnection_webhook.go:74-92 | no admitted sequence of updates changes a connection's spec |
| ConnectionLifetime.ResolvesThroughLife | controllers/dbaasconnection_controller.go:277-312 | at any time of an admitted life two errors cannot occur, resolution succeeds exactly when the ID is given or the instance offers one under the same inventory, and the result has an ID, the same inventory and resolves to itself |
| ConnectionLifetime.CreateChecksNeeded | api/v1beta1/dbaasconnection_webhook.go:61-72 | those two errors occur exactly for specs without an ID that the create checks refuse |
| PlatformInstall.NextStatus.SetStatusPlatform | controllers/dbaasplatform_controller.go:333-349 | the entry of the platform is overwritten in place or appended |
| PlatformInstall.NextStatus.FindStatusPlatform | controllers/dbaasplatform_controller.go:352-360 | the first entry of the name, none exactly when there is no entry |
| PlatformInstall.UpsertRecords | controllers/dbaasplatform_controller.go:333-349 | afterwards the platform has the new status and every other platform its old one |
| PlatformInstall.UpsertKeepsClean | controllers/dbaasplatform_controller.go:333-349 | names stay unique and messages empty |
| PlatformInstall.PlatformReconciler.Loop | controllers/dbaasplatform_controller.go:158-198 | for any iteration order the loop visits each platform at most once, all of them unless it leaves early, and ends like the recursive walk |
| PlatformInstall.PlatformReconciler.Reconcile | controllers/dbaasplatform_controller.go:107-207 | latch and stored status after a pass: an aborted one writes nothing, the latch is set before the write is tried, and a resource being deleted visits nothing |
| PlatformInstall.WalkRecords | controllers/dbaasplatform_controller.go:160-198 | how the loop ends, and that unless it aborts every visited platform with a reconciler is recorded with what its reconciler answered and all others keep their record |
| PlatformInstall.PassRecords | controllers/dbaasplatform_controller.go:158-206 | the same of the stored status after a pass, which an abort or a failed write leaves alone |
| PlatformInstall.PassConditions | controllers/dbaasplatform_controller.go:185-206 | the platform's condition with its reason, all other conditions and the latch after a pass |
| PlatformInstall.RunRecords | controllers/dbaasplatform_controller.go:158-206 | over whole runs, what is recorded for a platform is its last answer in a stored pass, or the initial record |
| PlatformInstall.SuccessWasAnswered | controllers/dbaasplatform_controller.go:180-182 | a stored success goes back to a stored pass in which the platform answered so, or to the initial status |
| PlatformInstall.StoredStaysSound | controllers/dbaasplatform_controller.go:148-207 | over whole runs from an empty status, with any orders, results and failed writes, stored names are unique, messages empty, and ready implies every configured platform recorded as success |
| PlatformInstall.RunKeepsSound | controllers/dbaasplatform_controller.go:148-207 | the same from any status of which it holds, as a new process finds it |
| PlatformInstall.ReadyAfterIff | controllers/dbaasplatform_controller.go:185-206 | exactly when the stored status is ready after a pass |
| PlatformInstall.ReadyRisesOnce | controllers/dbaasplatform_controller.go:199-206 | the stored condition turns True at most once in a process, and not at all once the latch is set |
| PlatformInstall.LatchedStaysUnready | controllers/dbaasplatform_controller.go:199-206 | a latched process with an unready status never stores ready again |
| PlatformInstall.CompletingWriteCanBeLost | controllers/dbaasplatform_controller.go:199-206 | the completing pass can lose its write and leave such a process |
| ConsolePlugin.AddPlugin | controllers/reconcilers/consoleplugin/plugin_installation_reconciler.go:349-357 | the name is appended exactly when it is not in the list |
| ConsolePlugin.RemovePlugin | controllers/reconcilers/consoleplugin/plugin_installation_reconciler.go:359-367 | the first occurrence is removed by shifting in the same array, and what the caller's old view shows then |
| ConsolePlugin.Console.Enable | controllers/reconcilers/consoleplugin/plugin_installation_reconciler.go:283-313 | the stored list after an install pass, and success exactly when the plugin was listed already and the deployment is available |
| ConsolePlugin.Console.Disable | controllers/reconcilers/consoleplugin/plugin_installation_reconciler.go:71-81 | the stored list after the clean-up's update, which any error leaves as it was |
| ConsolePlugin.AvailableIff | controllers/reconcilers/consoleplugin/plugin_installation_reconciler.go:302-311 | the first condition about the deployment decides |
| ConsolePlugin.InstallThenUninstall | controllers/reconcilers/consoleplugin/plugin_installation_reconciler.go:71-81 | an install pass and a clean-up pass, both stored, give back the list exactly when the name was not in it |
| ConsolePlugin.AddedKeeps | controllers/reconcilers/consoleplugin/plugin_installation_reconciler.go:349-357 | the name occurs, once where it did not before, and all other entries keep their order |
| ConsolePlugin.RemovedKeeps | controllers/reconcilers/consoleplugin/plugin_installation_reconciler.go:359-367 | one occurrence is gone and all other entries keep their order |
| ConsolePlugin.RemovedDistinct | controllers/reconcilers/consoleplugin/plugin_installation_reconciler.go:359-367 | a list without duplicates stays so and no longer holds the name |
| ConsolePlugin.RemoveUndoesAddIff | controllers/reconcilers/consoleplugin/plugin_installation_reconciler.go:349-367 | removing after installing gives back the original list exactly when the name was not in it |
| ConsolePlugin.PassesKeep | controllers/reconcilers/consoleplugin/plugin_installation_reconciler.go:71-81 | over any sequence of install and clean-up passes with any failures, other entries keep their order and the name is never multiplied |
| ConsolePlugin.InstallsAddOnce | controllers/reconcilers/consoleplugin/plugin_installation_reconciler.go:290-300 | any number of install passes adds the name once, at the end, and only if an update got through |

## Left out

- PolicyQuiescence.QuiescentMeansElected: does not say whom the message of an inactive policy names, because the code
  renews it only when that policy is reconciled again.
- GateRuns.EverythingChained: a pass reads its inventory as it is stored when the pass takes effect, because passes are
  single events there; GateRuns.EverythingJustified leaves the reads arbitrary.
- PolicyReconciler.ApiServer.CreateOrUpdateQuota: is one step; a conflict between its read and its write appears as a failed call.
- Slices.Append: a slice starts at the front of its array, because no modelled code slices off a front.
- Kubernetes client, caches and informers: reads are fresh and watch events arrive eventually in any order.
- Admission of policies by the quota (`count/dbaaspolicies`): users may create any number of policies, which covers more runs.
- Finalizers and deletion timestamps of policies: a deletion is one step.
- Timestamps, messages, log lines, error texts and metrics.
- Requeue results of the gate reconcilers, and the delay with which the default-policy creator retries.
- The content of the spec written into provider objects, including the second instance conversion inside the mutate function, whose error is only logged (`controllers/dbaasinstance_controller.go:112-119`).
- Object metadata other than name and labels, and nil as opposed to empty credential-field lists.
- A nil `CredentialsRef` in the inventory webhook, which the code dereferences without a check.
- Selector parsing beyond operators and their numbers of values: the syntax of keys and values is taken as given.
- The connection and instance statuses in the memory model, which copy fewer references in the same way.
- Reconcilers of OLM, observability, catalogs, quick starts, deployments and services: an arbitrary result or error for each platform.
- `checkCredsRefLabel`, the developer-topology deployment, v1alpha1 policy and connection conversions, provider watches, manager set-up and the temporary fixes.
