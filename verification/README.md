# CasperCloud control plane: a verified model

CasperCloud keeps the state of its virtual machines in several places at once: rows in Postgres, task messages in
RabbitMQ and its dead-letter queue, libvirt domains with their disks, and the NAT list of the host. API requests,
a worker, a state sync, a NAT reconcile and a stale-task sweeper change these copies beside one another. This project
models them as one state (`Control.World`), gives every request, handler and pass as a function on it, and proves what
all runs of these steps keep. The services themselves are written as classes whose methods follow the source statement
by statement; each is proved to do to the combined state exactly what its function says. `ControlPlane.Plane` wires them
together and records the step behind every call: its state is always the one a run from an initial state leads to, so
that the theorems about runs hold of it.

Layout:

- `Text`, `XmlEscape`, `DiskTargets`, `CloudInit`, `HostNames`: text printers and scanners and their round trips.
- `Addresses`, `Ipam`, `Allocator`: 32-bit host enumeration, the three address tables, and seeding and claiming in
  transactions that are open at the same time.
- `NatRules`, `NatText`, `Ingress`, `FipRows`: the NAT list as a list of rules, their text with a reader of it, the
  iptables commands on that text, and the floating IP rows.
- `Disks`: hypervisor domains and volume rows.
- `Messages`: the queues, the retry header, and how a delivery ends.
- `Control`, `System`: the combined state, all requests and handlers, the steps, and runs made of them.
- `Tracking`, `Invariants`, `Requests`: the invariant `Core` and its preservation by every step.
- `Acceptance`, `Outcomes`, `Destroy`: each request and each handler in plain terms, apart from the functions that define
  it: when it succeeds, why it fails otherwise, and everything it leaves.
- `NatJustified`, `NatExact`, `Associations`, `Forwarding`, `VolumeAgreement`, `CleanHost`, `Freeze`, `SyncPass`,
  `History`, `Retries`, `SnapshotRows`, `Ownership`, `Provenance`: the main theorems.
- `Scenes`, `LeftoverDomain`, `StrandedRules`: runs from an initial state in which something goes wrong.
- `Rows`, `Broker`, `Hypervisor`, `Plant`, `InstanceService`, `VolumeService`, `FloatingIpService`, `Worker`,
  `ControlPlane`: the classes.

## What runs are made of

- A request, a sync or reconcile pass and a sweep are one step each. A delivery is two steps: taking the message and
  marking its task running, and the rest of the handler with the acknowledgement. Other steps may come between the two.
- Hypervisor calls, publishes and iptables commands succeed or fail as the step's parameters say, call by call, lookups
  of domains and reads of their state included. Database writes and acknowledgements succeed. A theorem that needs more
  says so.
- New identifiers are new, and live instances have distinct domain names. The unique key on project and name
  (migrations/0001_init.sql:43) does not give the latter, because sanitising names is not injective
  (`HostNames.SanitizingIsNotInjective`) and domains are shared by all projects.
- One worker holds at most one delivery. Domains may be switched on and off by their guests at any time
  (`System.GuestPower`). A command on one NAT rule has one outcome within a handler run or pass. Whether libvirt accepts a
  definition under the name of a domain that is still there is an outcome of the define call.
- Addresses are plain 32-bit values; sweeping picks any set of running tasks, whatever the clock says.

## Results that are conditions

Several properties fail as first stated, and are given with their exact condition and a failing run:

- Volume rows and domain disks agree throughout a run exactly when no create replaces a domain while volumes are attached
  to its instance (`VolumeAgreement.AgreementIsExact`). `LeftoverDomain.RetriedCreateLosesDisk` is a run in which a failed
  start is not cleaned up, the domain is started and given a volume, and the retried create removes it. Where lookups
  answer and failed starts are cleaned up this cannot happen (`CleanHost.AnsweringHostStaysClean`).
- Deleting a domain takes any error of its lookup for absence. A destroy then succeeds, and its domain is gone exactly
  when the lookup found it or there was none (`Destroy.NothingIsLeft`); `StrandedRules.FailedLookupLeavesGuest` is a run
  that ends with a guest running and no row.
- Every NAT rule has a reason throughout a run exactly when no step takes the last reason of a rule that stays
  (`NatExact.JustificationIsExact`): a disassociation whose publish fails, and a rule delete that fails, can do so
  (`StrandedRules.LostPublishStrandsRule`, `StrandedRules.FailedDeleteStrandsRule`).
- A message is dead after exactly three failures that could be passed on; failures whose republish also fails are not
  counted, and there may be any number of them (`Retries.FailuresInAnyRun`, `Retries.UncountedFailures`).
- A sync that cannot read the state of a running domain takes it for stopped (`SyncPass.UnseenDomainsCountAsAbsent`).
- A host name of several lines is read back exactly when nothing but white space follows its first line
  (`CloudInit.HostnameSurvivesExactly`).

After a revert the guest can run under a stopped row; `Outcomes.SnapshotRevertOutcome` gives the exact condition under
which the next sync has nothing to correct, and the domain that a revert failing half way leaves.
`SyncPass.StaleUpdatesEndWaiting` says what happens when the sync's rows are out of date by the time its updates run: an
instance that began a snapshot in between loses its busy state exactly when an update names it.

## Model

| member | source | states |
|---|---|---|
| History.NoOrphansInAnyRun | internal/service/instance_service.go:401-705 | after every run an instance that is creating or snapshotting has an undelivered message of that kind (a snapshot one with prior state running or stopped), none is deleting, and with an empty queue all are running, stopped or in error |
| Requests.RunKeepsCore | internal/worker/worker.go:59-121 | every run of requests, handlers, passes and sweeps keeps the whole invariant: messages, tasks, addresses, floating IPs, volume rows and waiting states |
| Invariants.FinishTaskSettles | internal/worker/worker.go:123-215 | whatever its calls do, a handler closes its own task, leaves only its own instance changed and in a final state or gone, and keeps all tables sound |
| Invariants.EmptyQueueMeansSettled | internal/service/instance_service.go:401-705 | with nothing queued or held no instance is between states |
| Invariants.DeleteIsNeverBlocked | internal/service/instance_service.go:412-456 | after the teardown neither restricting foreign key can refuse the final delete |
| History.WorkerDrainsQueue | internal/worker/worker.go:59-121 | with working publishes the worker alone empties the queue within the attempts left, every message then being done or dead and every instance settled |
| Messages.DeliveryLowersAttempts | internal/worker/worker.go:74-121 | each delivery strictly lowers the sum of the attempts left over the queue |
| Messages.QueueDrains | internal/worker/worker.go:74-121 | a queue without new requests drains, and its messages end done or dead, none lost or invented |
| Messages.FinalizeEffect | internal/worker/worker.go:74-121 | a finished delivery leaves by exactly one of four doors, decided by result, publish and header count |
| Messages.FailureMoves | internal/worker/worker.go:89-121 | a dead message keeps its headers and gains the reason; a retried one goes to the end of the queue with the next count alone |
| Messages.RetryHeaderIsNext | internal/worker/worker.go:110-115 | a retry carries one header, the next count cut to 32 bits |
| Messages.HeaderIsRead | internal/queue/rabbitmq.go:124-148 | a count of any header width is read as its value, wrapped to 64 bits or cut to its integer part, and as 0 when absent or of another type |
| Retries.FailuresInAnyRun | internal/worker/worker.go:74-121 | in every run, whatever else happens, a message is dead exactly after three failures that were passed on, never has more, and while it is queued or held its header is their number |
| Retries.UncountedFailures | internal/worker/worker.go:89-116 | any number of failures whose publish fails as well leaves the message where it was, with the header it had |
| Retries.PublishedInAnyRun | internal/worker/worker.go:59-121 | from its publish on a message is in one place, done exactly when its task succeeded and dead only with a failed task; with the queue drained the status says which |
| Retries.AcceptedActionEnds | internal/service/instance_service.go:281-318 | an accepted action leads, in every later run that drains the queue, to a succeeded task and a done message or to a failed one and a message dead after three failures |
| Provenance.EveryMessageWasAskedFor | internal/service/instance_service.go:140-613 | in every run each message ever published is, field by field, the one some request of the run asked for, in a state that allowed it: its kind by the word of the action, its prior state as it then was, its addresses as they were then bound |
| Provenance.OnlyDestroyDeletes | internal/service/instance_service.go:281-318 | from any reachable state, an instance for which no destroy waits stays, whatever is requested, fails or is swept, as long as no action on it spells "destroy" |
| Provenance.NoDestroyNoLoss | internal/service/instance_service.go:401-462 | in a run from an initial state without such an action the row of an instance is never deleted |
| Provenance.PriorStateComesBack | internal/service/instance_service.go:567-705 | in every run the handler of a snapshot or revert leaves its instance in the state it was in when that was requested, whatever its calls do and whatever came in between |
| Provenance.SnapshotLeavesInstances | internal/service/instance_service.go:545-705 | with nothing else queued a snapshot or revert request, its delivery and its handler together leave the whole instance table as it was |
| Ownership.RowsStayInTheirProject | internal/repository/ipam.go:101-118 | after every run the network of an instance, the holder of a slot and the instance of a snapshot, volume or floating IP are there and of the same project as the row that names them |
| SnapshotRows.SnapshotsInAnyRun | internal/service/instance_service.go:545-660 | after every run a snapshot in creation has an undelivered message naming it, a surviving one is available exactly when the task of its message succeeded, one never published is in error, and with an empty queue each is available or in error |
| History.MessagesInAnyRun | internal/worker/worker.go:59-121 | in every run each published message is in exactly one of queue, flight, dead-letter queue and done, and done exactly when its task succeeded |
| History.SucceededStaysSucceeded | internal/repository/repository.go:337-351 | no run, sweeps included, takes success back from a task |
| Tracking.SweepTouchesOnlyHeldTask | internal/repository/repository.go:372-393 | the sweeper reaches at most the task in the worker's hands, and never one that succeeded |
| NatJustified.RulesAreAlwaysJustified | internal/service/floating_ip_service.go:42-176 | with working deletes and disassociation publishes every rule on the host is there once and belongs to an active row with that pair or to an undelivered or dead disassociation of it |
| NatJustified.LostDisassociationStrandsRules | internal/service/floating_ip_service.go:72-95 | a disassociation whose publish fails leaves rules without a reason exactly when there are any and no other disassociation of the pair is waiting |
| NatExact.JustificationIsExact | internal/service/floating_ip_service.go:42-176 | whatever fails, every rule has its reason throughout a run exactly when each step leaves one to every rule that stays |
| NatExact.DisassociateIsExact | internal/service/floating_ip_service.go:134-151 | a delivered disassociation with failing deletes keeps every rule justified exactly when a rule that stays has an active row or another disassociation of its pair waiting |
| NatExact.DestroyIsExact | internal/service/instance_service.go:427-449 | a destroy with failing deletes, however it ends, keeps every rule justified exactly when each rule that stays has a disassociation of its pair waiting |
| StrandedRules.LostPublishStrandsRule | internal/service/floating_ip_service.go:81-93 | a run from an initial state that loses a publish and leaves a rule nothing accounts for |
| StrandedRules.FailedDeleteStrandsRule | internal/network/ingress.go:164-166 | a run in which only rule deletes fail and a done disassociation leaves its rules |
| NatJustified.TearDownKeepsJustified | internal/service/instance_service.go:427-449 | destroying an instance removes rules and bindings together |
| History.RunBuriesNoRevocation | internal/service/floating_ip_service.go:134-151 | no disassociation ever ends in the dead-letter queue |
| History.HostAgreesWhenDrained | internal/service/floating_ip_service.go:154-176 | once the queue is empty every rule is one of an active row, and after a reconcile every active row of a running instance has both its rules |
| Associations.ActiveRowsAreServed | internal/service/floating_ip_service.go:42-131 | in every run whose rule checks and appends work, whatever deletes and publishes fail: an active row has both its rules and no removal of its pair waits, or its association waits in line behind every removal of its pair |
| Associations.DrainedHostIsExact | internal/service/floating_ip_service.go:42-151 | when rule deletes and disassociation publishes work too, a drained queue leaves on the host exactly the rules of the active rows, without any reconcile |
| Forwarding.TrafficFollowsBindings | internal/network/ingress.go:46-57 | then the first rule that takes packets for a public address of the pool, as its text reads, sends them to the private address of the instance bound to it, and no rule takes them if none is bound |
| History.ReconcileAfterAnyRun | internal/service/floating_ip_service.go:154-176 | reconciling after any run gives each row that needs them both rules exactly once, appends only such rules and disturbs none |
| History.ReconcileAddsExactly | internal/repository/floating_ips.go:202-224 | with working commands a reconcile adds exactly the rules of rows that are active and whose instance is running |
| History.RunKeepsSingles | internal/network/ingress.go:124-167 | no run ever puts a second copy of a floating IP rule on the host |
| Destroy.DestroySucceedsExactly | internal/service/instance_service.go:401-462 | a destroy reports success exactly when every call its deletion makes works; a lookup that fails spares it the calls on the domain |
| Destroy.NothingIsLeft | internal/service/instance_service.go:401-462 | after success no row of any table and no slot names the instance, its address is free, and its domain is gone exactly when the lookup found it or there was none |
| Destroy.FailedLookupOrphansDomain | internal/libvirt/hypervisor.go:240-263 | with a failing lookup a destroy succeeds over a domain that is still there and still runs |
| Destroy.FinalizeSucceedsExactly | internal/repository/state_sync.go:98-129 | the last transaction goes through exactly when task and instance are there and no volume names the instance |
| Destroy.FailedDestroyOutcome | internal/service/instance_service.go:418-453 | a destroy the hypervisor stops leaves the row in error with address and snapshots, without volumes, floating IPs and the rules its deletes reached, and the domain as far as its calls came |
| StrandedRules.FailedLookupLeavesGuest | internal/libvirt/hypervisor.go:240-255 | a run from an initial state in which only one lookup fails and which ends with a guest running and no row |
| Destroy.DestroyReleases | internal/service/volume_service.go:154-172 | its volumes are available, its floating IPs allocated and unbound, its task succeeded, and of its rules exactly those remain whose delete failed |
| Destroy.OthersAreUntouched | internal/repository/state_sync.go:98-129 | every other row, slot and domain, and the queues, are as before |
| Destroy.OtherRulesAreUntouched | internal/network/ingress.go:156-167 | rules of other instances and foreign rules keep all their copies |
| Destroy.HeldDestroyIsDestroyable | internal/service/instance_service.go:401-411 | what these results assume holds in every reachable state in which the worker holds a destroy message of a live instance |
| Outcomes.CreateOutcome | internal/service/instance_service.go:464-534 | a create succeeds exactly when all its calls work, those on an existing domain only if the lookup finds it; then the domain runs on its root disk alone, the row says running and the next sync agrees; otherwise the row is in error, and a cleaned-up failure leaves no new domain |
| Outcomes.FailedCreateVm | internal/libvirt/hypervisor.go:44-149 | what a failed create leaves under its name, call by call |
| Outcomes.StartOutcome | internal/service/instance_service.go:354-358 | a start succeeds exactly when the domain is there and the call works; domain and row then run, and otherwise the row is in error and no domain changed |
| Outcomes.StopOutcome | internal/service/instance_service.go:360-364 | a stop succeeds likewise and only asks the guest: the row is stopped, no domain changed, and both agree once the guest is down |
| Outcomes.RebootOutcome | internal/service/instance_service.go:366-370 | a reboot also needs the domain to run, and leaves it and the row running |
| Outcomes.GoneInstanceOutcome | internal/service/instance_service.go:372-400 | a task whose instance is gone fails and changes nothing else, except that the row of a snapshot to be made goes to error |
| Outcomes.SnapshotCreateOutcome | internal/service/instance_service.go:615-660 | on every way out the prior state is back, and the snapshot is available exactly on success, else in error |
| Outcomes.SnapshotRevertOutcome | internal/service/instance_service.go:663-705 | the prior state is back; exactly when a revert succeeds, whether the guest then runs, whether the next sync agrees, and which domain a failure after the revert itself leaves |
| Outcomes.DisassociateOutcome | internal/service/floating_ip_service.go:134-151 | it always succeeds, and of the pair's rules exactly those remain whose delete failed, all others untouched |
| Outcomes.AssociateOutcome | internal/service/floating_ip_service.go:98-131 | rules are added only for a row still active and bound to the instance of the message; success is tied to the commands that were needed, and nothing else in the list changes |
| Outcomes.ReceiveOutcome | internal/worker/worker.go:59-63 | an idle worker takes the oldest message and marks its task running if it can be handled |
| Outcomes.UnhandledOutcome | internal/worker/worker.go:123-215 | a message without a field its type needs or without its task row fails, one of unknown type succeeds, and neither changes anything |
| Outcomes.SweepOutcome | internal/repository/repository.go:372-393 | a sweep fails exactly the chosen running tasks and puts exactly the instances these name into error |
| Acceptance.ActionIsAccepted | internal/service/instance_service.go:250-318 | an action that spells one of the four words is accepted exactly when its instance is there in a state listed for the word, a destroy finds no volume, and the publish works; it queues the task kind of the word, and every refusal is told apart |
| Acceptance.OtherActionsAreRefused | internal/service/instance_service.go:250-263 | any other text is refused and changes nothing |
| Acceptance.CreateIsAccepted | internal/service/instance_service.go:140-182 | in a reachable state each reply of a create request is tied to the first of its conditions that fails: image, data, the project's own network, slots that can be made, a new name and identifier, a free slot, the publish |
| Acceptance.CreatedRow | internal/service/instance_service.go:184-208 | its row waits in the network asked for at an address no one had, its message is last in the queue, and a failed publish leaves the row in error |
| Acceptance.SnapshotIsAccepted | internal/service/instance_service.go:545-577 | replies of a snapshot request with the first condition that fails; the message carries the state the instance was in, the row whether it ran, and the instance waits |
| Acceptance.RevertIsAccepted | internal/service/instance_service.go:580-613 | the same for a revert, which needs a finished snapshot of that instance |
| Acceptance.AssociationIsAccepted | internal/repository/floating_ips.go:106-132 | a row is bound exactly when it is allocated, unbound and of the project, and the instance is of the project, running and has an address, which the row and the message then carry; a failed publish restores the row |
| Acceptance.DisassociationIsAccepted | internal/repository/floating_ips.go:135-175 | an active row of the project is cleared whatever comes of the publish, and the message names the pair cleared |
| Acceptance.AllocationIsAccepted | internal/repository/floating_ips.go:40-64 | succeeds as long as a row is unallocated, and takes the one with the least public address |
| Acceptance.NetworkIsAccepted | internal/repository/ipam.go:39-64 | a network is accepted exactly for prefixes of 8 to 30 bits and gets one free slot for each host, and no other slot changes |
| Acceptance.VolumeIsAccepted | internal/service/volume_service.go:45-61 | a volume needs a name new to its project, and is in error when its file cannot be made |
| Acceptance.VolumeDeletionIsAccepted | internal/repository/volumes.go:100-118 | only a volume of the project that is attached nowhere is deleted |
| Acceptance.AttachIsAccepted | internal/service/volume_service.go:91-124 | each reply of an attach with the first condition that fails; it puts the volume's file at the least free letter and says so in the row |
| Acceptance.DetachIsAccepted | internal/service/volume_service.go:127-151 | each reply of a detach likewise; it takes the file from that letter and frees the row |
| History.AddressesInAnyRun | internal/repository/instance_ipam.go:31-117 | in every run no two instances of a network share an address, and free plus claimed slots of a seeded network equal its usable hosts |
| History.TablesAgreeInAnyRun | migrations/0002_ipam.sql:21-42 | in every run slots, allocations and instance rows say the same of who owns an address |
| Ipam.CreateFailsExactly | internal/repository/instance_ipam.go:31-117 | a create commits exactly when the network can be seeded, name and identifier are new, and a slot is free; the unique keys on allocations never refuse it |
| Ipam.CreateAddsOneRow | internal/repository/instance_ipam.go:31-117 | a committed create adds one row with the least free address and changes no other |
| Ipam.ExhaustionIsReal | internal/repository/ipam.go:160-183 | no address available is reported only for a seeded network without a free slot |
| Ipam.ReleaseKeepsAgreement | internal/repository/state_sync.go:83-94 | deleting an instance frees its slot and allocation and keeps the tables in agreement |
| Allocator.NoDoubleAllocation | internal/repository/instance_ipam.go:31-117 | over any interleaving of open transactions, those that seed a network included, no slot is held twice and no instance holds two |
| Allocator.ClaimTakesLeast | internal/repository/ipam.go:160-183 | a claim takes the least address free and not locked, or inserted by itself, which nobody held |
| Allocator.ExhaustedExactly | internal/repository/ipam.go:160-183 | the error occurs exactly when every slot the transaction sees is claimed or locked by another open transaction |
| Allocator.RacesSeedOnce | internal/repository/instance_ipam.go:38-54 | however many creates race on seeding a network, its committed slots are none or one for each host |
| Allocator.AbortLeavesNoTrace | internal/repository/instance_ipam.go:31-36 | after an abort, whatever the others did meanwhile, the state is one that the steps of the others alone explain |
| Allocator.AloneIsSequential | internal/repository/instance_ipam.go:31-117 | a transaction with no other open does what the create transaction does to the slots, seeding included |
| Addresses.UsableIPv4Hosts | internal/repository/ipam.go:67-87 | for /8 to /30 exactly the addresses strictly between network and broadcast but the gateway, ascending, in 32-bit arithmetic, never empty and as many as counted; an error otherwise |
| Addresses.Uint32RoundTrip | internal/repository/ipam.go:89-98 | from 32 bits to four octets and back is the identity |
| Addresses.IPv4RoundTrip | internal/repository/ipam.go:89-98 | from four octets to 32 bits and back is the identity |
| Addresses.HostSetSize | internal/repository/ipam.go:67-87 | the hosts number 2^(32-bits)-2, less one if the gateway is among them, and at least one |
| Addresses.HostHasPrefix | internal/repository/ipam.go:67-87 | a host has the leading bits of its network, other bits neither all zero nor all one, and is not the gateway |
| History.PoolInEveryRun | internal/repository/floating_ips.go:40-248 | in every run the pool is the initial one, a row has no project exactly when unallocated, and is active exactly when bound, to a live instance of its project with that address |
| History.RunKeepsPool | migrations/0006_floating_ips.sql:3-12 | no row or public address appears or disappears, and a project once set never changes |
| FipRows.RollbackUndoesAssociate | internal/repository/floating_ips.go:226-236 | a rollback restores the rows as before the association |
| FipRows.AllocateFindsFree | internal/repository/floating_ips.go:39-64 | allocation is refused exactly when no row is unallocated |
| FipRows.ClearKeeps | internal/repository/floating_ips.go:238-248 | clearing an instance's rows leaves a table sound without it and no other pair inactive |
| VolumeAgreement.AttachmentsAreReal | internal/service/volume_service.go:90-172 | in every run that replaces no domain under attached volumes an in-use volume's file is at its target in its instance's domain, targets on an instance differ, and at most 25 volumes are attached |
| VolumeAgreement.AgreementIsExact | internal/service/volume_service.go:90-172 | and only in those: rows and disks agree at every point of a run exactly when it replaces no domain under attached volumes |
| VolumeAgreement.StepIsExact | internal/libvirt/hypervisor.go:44-171 | any single step keeps rows and disks in agreement exactly under that condition on its calls, the domains and the attached volumes |
| VolumeAgreement.ProvisioningKeepsAttachments | internal/libvirt/hypervisor.go:61-171 | the delivery of a create keeps the volume rows true exactly when it does not replace a domain that holds volumes of its instance |
| CleanHost.AnsweringHostStaysClean | internal/libvirt/hypervisor.go:140-171 | where lookups answer and failed starts are cleaned up, every domain is a live instance's, and rows and disks agree throughout |
| LeftoverDomain.RetriedCreateLosesDisk | internal/libvirt/hypervisor.go:140-145 | a run from an initial state in which one clean-up fails and a volume in use loses its disk |
| Disks.FailedAttachIsUndone | internal/service/volume_service.go:116-122 | a failed attach leaves rows and domains as before unless its compensation fails |
| Disks.AttachIsRecorded | internal/service/volume_service.go:91-124 | a successful attach takes the least free letter and is seen on both sides |
| Disks.DetachUndoesAttach | internal/service/volume_service.go:127-151 | a detach restores rows and domains as before the attach |
| Disks.AtMost25Volumes | internal/libvirt/virtio_target.go:25-30 | agreement leaves room for at most 25 volumes on an instance |
| Freeze.StepFreezes | internal/service/instance_service.go:265-352 | no request, sync, reconcile or guest event changes a snapshotting instance, its attachments or its snapshots, or starts a second operation |
| Freeze.RunFreezes | internal/service/volume_service.go:96-140 | nor does any number of them |
| Freeze.OtherHandlersFreeze | internal/worker/worker.go:123-215 | a handler of another instance's message does not |
| Freeze.SweeperEndsOnlyItsOwn | internal/repository/repository.go:372-393 | and the sweeper only through the instance's own task in the worker's hands |
| SyncPass.PassSyncsTable | internal/service/instance_service.go:321-352 | the collected updates, in whatever order the rows came, bring the whole table in line |
| SyncPass.SyncConverges | internal/service/instance_service.go:321-352 | afterwards an instance is running exactly when its domain runs; excluded ones, and those in error without a running domain, are unchanged |
| SyncPass.UnseenDomainsCountAsAbsent | internal/libvirt/list_domains.go:13-45 | a domain whose state cannot be read counts as absent, so row and host agree exactly unless such a domain runs |
| SyncPass.SecondPassIsIdle | internal/service/instance_service.go:321-352 | a second pass issues no update |
| SyncPass.StaleUpdatesEndWaiting | internal/repository/state_sync.go:62-66 | updates computed from old rows end a waiting state exactly when one names the instance |
| Rows.Repository.BatchUpdateInstanceStates | internal/repository/state_sync.go:51-80 | the batches of 128 apply each update once, in order, as a one-by-one loop would |
| Rows.Repository.ListInstancesForHypervisorSync | internal/repository/state_sync.go:26-46 | every instance not being deleted, once each |
| Rows.Repository.CreateInstanceWithIpam | internal/repository/instance_ipam.go:31-117 | the ordered statements do what the create transaction says, and nothing when any fails |
| Rows.Repository.SeedNetworkIpSlots | internal/repository/ipam.go:39-65 | one free slot per usable host, existing slots untouched |
| Rows.Repository.ClaimNextIpSlot | internal/repository/ipam.go:160-183 | the least free slot goes to the instance, or nothing changes |
| Rows.Repository.CreateProjectNetwork | internal/repository/repository.go:93-112 | a network comes with all its slots or not at all |
| Rows.Repository.FinalizeInstanceDestroy | internal/repository/state_sync.go:98-129 | all of the transaction or nothing |
| Rows.Repository.ReconcileStaleRunningTasks | internal/repository/repository.go:372-393 | the chosen running tasks fail and exactly the instances they name go to error |
| Rows.Repository.AllocateFloatingIpToProject | internal/repository/floating_ips.go:40-64 | the unallocated row with the least public address |
| Rows.Repository.TakeDisassociateFloatingIp | internal/repository/floating_ips.go:135-175 | clears an active row and returns the pair it had |
| Rows.Repository.BeginSnapshotCreate | internal/repository/snapshots.go:82-124 | which fault is reported, and row and busy state written together or not at all |
| Rows.Repository.DeleteVolume | internal/repository/volumes.go:100-118 | deletes only an unattached row and tells in-use from absent |
| Worker.Worker.ProcessDelivery | internal/worker/worker.go:59-63 | one turn of the loop is the two worker steps on the combined state |
| ControlPlane.Plane.StateIsSound | internal/worker/worker.go:59-63 | the wired services always are in the state of a recorded run from an initial one, and so satisfy the whole invariant |
| ControlPlane.Plane.Deliver | internal/worker/worker.go:59-63 | one turn of the worker extends the recorded run by the two worker steps |
| ControlPlane.Plane.NewInstance | internal/service/instance_service.go:140-209 | a create request with new identifiers and a new domain name extends the recorded run by its step |
| ControlPlane.Plane.InstanceAction | internal/service/instance_service.go:281-318 | and so does an action request |
| Worker.Worker.FinalizeDelivery | internal/worker/worker.go:74-121 | acknowledge, republish, bury or put back, as the delivery function says |
| Worker.Worker.HandleMessageBody | internal/worker/worker.go:123-215 | dispatch by type, with missing fields refused and unknown types acknowledged |
| InstanceService.Instances.CreateAsync | internal/service/instance_service.go:140-209 | the whole new state and reply of a create request |
| InstanceService.Instances.RequestInstanceAction | internal/service/instance_service.go:281-318 | the whole new state and reply of an action request |
| InstanceService.Instances.RequestSnapshotCreate | internal/service/instance_service.go:545-577 | rows, busy state and message, all taken back when the publish fails |
| InstanceService.Instances.RequestSnapshotRevert | internal/service/instance_service.go:580-612 | the same for a revert |
| InstanceService.Instances.HandleLifecycleTask | internal/service/instance_service.go:354-399 | start, stop and reboot handlers on the combined state |
| InstanceService.Instances.HandleDestroyTask | internal/service/instance_service.go:401-462 | the destroy handler, with its loops over volumes and bindings |
| InstanceService.Instances.HandleCreateTask | internal/service/instance_service.go:464-534 | the create handler |
| InstanceService.Instances.HandleSnapshotCreateTask | internal/service/instance_service.go:615-660 | the snapshot handler with all its failing ways out |
| InstanceService.Instances.HandleSnapshotRevertTask | internal/service/instance_service.go:663-705 | the revert handler with all its failing ways out |
| InstanceService.Instances.SyncHypervisorWithDb | internal/service/instance_service.go:321-352 | the loop and the batches sync the whole table |
| VolumeService.Volumes.AttachVolume | internal/service/volume_service.go:91-124 | attach, record, and compensate, on both sides |
| VolumeService.Volumes.DetachVolume | internal/service/volume_service.go:127-151 | detach on the host, then clear the row |
| VolumeService.Volumes.DetachAllFromInstanceForDestroy | internal/service/volume_service.go:154-172 | every attached row is cleared, and the disks of the calls that worked are gone |
| VolumeService.Volumes.CreateVolume | internal/service/volume_service.go:45-61 | a file that cannot be made leaves its row in error |
| FloatingIpService.FloatingIps.RequestAssociate | internal/service/floating_ip_service.go:42-69 | binding, task and message, with the binding rolled back when the publish fails |
| FloatingIpService.FloatingIps.RequestDisassociate | internal/service/floating_ip_service.go:72-95 | the row is cleared first and stays cleared |
| FloatingIpService.FloatingIps.HandleAssociateTask | internal/service/floating_ip_service.go:98-131 | rules are added only for a row still active and bound to that instance |
| FloatingIpService.FloatingIps.HandleDisassociateTask | internal/service/floating_ip_service.go:134-151 | rules of the message's pair are removed and the task succeeds |
| FloatingIpService.FloatingIps.ReconcileActiveFloatingIngress | internal/service/floating_ip_service.go:154-176 | the loop reconciles exactly the active rows of running instances |
| Hypervisor.LibvirtAdapter.CreateVm | internal/libvirt/hypervisor.go:44-149 | remove, define, start and clean up, call by call |
| Hypervisor.LibvirtAdapter.DeleteVm | internal/libvirt/hypervisor.go:232-263 | an absent domain counts as deleted; each failing call leaves what it leaves |
| Hypervisor.LibvirtAdapter.NextVirtioDiskTarget | internal/libvirt/volume_attach.go:28-48 | scanning what the hypervisor prints of a domain gives its least free letter, whatever stands between the targets |
| Hypervisor.LibvirtAdapter.DetachVolume | internal/libvirt/volume_attach.go:78-102 | removes that file at that target or nothing |
| Broker.Client.PublishTask | internal/queue/rabbitmq.go:69-85 | a published message is appended with no header |
| Plant.Deployment.EnqueueTask | internal/service/instance_service.go:302-316 | task row and message together, the row failed when the publish fails |
| Ingress.Host.AssociateIP | internal/network/ingress.go:124-153 | the commands on the host's text change the rule list as the association function says; on success the table reads both ways for the pair |
| Ingress.Host.DisassociateIP | internal/network/ingress.go:156-167 | and likewise for removal, failures dropped; of the rules deleted only texts of others can still read so |
| Ingress.Host.FloatingNatRulesPresent | internal/network/ingress.go:170-186 | tells both rules present, so that the table reads both ways for the pair, one missing, and a check that could not run |
| Ingress.ArgsWithCheckOp | internal/network/ingress.go:98-107 | the first append or delete word becomes a check and nothing else changes |
| NatText.PrintedInjective | internal/network/ingress.go:42-71 | different rules never print alike |
| NatText.HostReads | internal/network/ingress.go:29-40 | reading the four octets of a printed address, most significant first, gives the address |
| NatText.DnatReads | internal/network/ingress.go:46-57 | the text of the first rule of a pair is read as: in PREROUTING, packets for the public address get the private one as destination |
| NatText.SnatReads | internal/network/ingress.go:59-71 | the text of the second is read as: in POSTROUTING, packets from the private address to anywhere but the excluded network get the public one as source |
| NatText.TableSays | internal/network/ingress.go:170-186 | the table reads each way for a pair while its rules are there, and otherwise only rules of others can |
| NatRules.ReconcileGoesOn | internal/service/floating_ip_service.go:162-174 | a row whose own commands work gets its rules, whatever fails for other rows |
| NatRules.AssociateIsIdempotent | internal/network/ingress.go:124-153 | a second association of a pair changes nothing |
| NatRules.DisassociateUndoesAssociate | internal/network/ingress.go:124-167 | disassociating undoes associating exactly on lists that held neither rule |
| NatRules.ReconcileOnlyAppends | internal/service/floating_ip_service.go:162-174 | reconciling keeps the list as a prefix and appends only rules of listed rows |
| NatRules.ReconcileRestores | internal/service/floating_ip_service.go:162-174 | with working commands each listed row has each rule exactly once |
| DiskTargets.ScanFindsPrintedLetters | internal/libvirt/virtio_target.go:13-24 | scanning printed disks yields exactly their letters, whatever the paths contain |
| DiskTargets.ScanFindsTargets | internal/libvirt/virtio_target.go:9-24 | scanning any document yields exactly the letters of its virtio targets, whatever inert text stands between them |
| DiskTargets.PrintedDiskIsDocument | internal/libvirt/volume_attach.go:20-25 | a printed disk is one target between texts in which none can begin, whatever its path contains |
| DiskTargets.DiskReadBack | internal/libvirt/volume_attach.go:20-25 | path and target of a printed disk are read back, whatever they contain |
| DiskTargets.NextVirtioDataDiskTarget | internal/libvirt/virtio_target.go:13-31 | the least letter from b to z no target uses, and an error exactly when all 25 are used |
| XmlEscape.AttrEscapeIsCharWise | internal/libvirt/volume_attach.go:11-18 | the five passes equal one pass that maps each character to its entity |
| XmlEscape.TextEscapeIsCharWise | internal/libvirt/snapshots.go:50-56 | so do the four |
| XmlEscape.AttrEscapeRoundTrip | internal/libvirt/volume_attach.go:11-18 | decoding restores the input, no escaped character is left, and every ampersand starts an entity |
| XmlEscape.TextEscapeRoundTrip | internal/libvirt/snapshots.go:50-56 | the same for snapshot text |
| XmlEscape.AmpersandMustGoFirst | internal/libvirt/volume_attach.go:12 | an order of the passes is right exactly when the ampersand is replaced first |
| CloudInit.HostnameReadBack | internal/service/instance_service.go:707-715 | whatever the other fields contain, the host name read back is the trimmed first line of the one given |
| CloudInit.HostnameRoundTrip | internal/cloudinit/generator.go:36-49 | a host name of one line comes back trimmed |
| CloudInit.HostnameSurvivesExactly | internal/service/instance_service.go:707-715 | any host name comes back trimmed exactly when only white space follows its first line |
| CloudInit.HostnameWithNewlineIsCut | internal/service/instance_service.go:707-715 | an input whose second line is lost |
| CloudInit.HostnameFromUserData | internal/service/instance_service.go:707-715 | the loop returns the value of the first line with the key |
| CloudInit.UserDataRoundTrip | internal/cloudinit/generator.go:16-49 | user data is refused exactly without host name, user or key; otherwise, from fields of one line, all five fields are read back |
| Text.SpelledWord | internal/service/instance_service.go:250-263 | trimming and lowering give a word exactly when the text is the word in any case with white space around it |
| HostNames.SanitizeLibvirtName | internal/libvirt/hypervisor.go:266-284 | the loop and the trims compute the domain name |
| HostNames.SanitizedIsSafe | internal/libvirt/hypervisor.go:266-284 | a domain name is not empty, at most 200 long, and made of safe characters only |
| HostNames.SanitizedShows | internal/libvirt/hypervisor.go:266-284 | a domain name shows its name from the first to the last letter, digit or underscore, other characters as dashes, cut at 200, and is "instance" when there is none |
| HostNames.SanitizingIsNotInjective | internal/libvirt/hypervisor.go:266-284 | two instance names can share a domain name |

## Left out

- Handlers of HTTP requests, the router, tokens, passwords, validation, the command line and API documentation: no state of their own.
- Users, projects, memberships, images, list queries, the choice of a default network: kept only as project ownership, slot seeding and a flag saying whether the image is there.
- Metrics polling, the Prometheus collector and the cached statistics.
- Postgres, RabbitMQ, libvirt and iptables themselves: only their effect on rows, queues, domains, disks and rules.
- Messages that are not valid JSON and identifiers that do not parse, which are dropped or fail before any handler runs.
- Failed acknowledgements, a crash inside a handler, a panic, and several workers at once.
- Database writes that fail, such as a task row that cannot be inserted after its instance was; the one kept is the record of an attachment, whose failure has a compensation.
- The text forms of an address: a suffix such as `/32`, which one parser accepts and another does not, is not modelled.
- Wall-clock time and the texts of errors and logs.
- Hypervisor.LibvirtAdapter.CreateVm: does not model the root disk and the seed image on the file system, whose steps are one flag.
- Hypervisor.LibvirtAdapter.DetachVolume: does not model the live and the persistent configuration apart; one disk map stands for both, though without the live flag the source detaches from the persistent one alone.
- Hypervisor.LibvirtAdapter.GracefulShutdown: does not stop the domain, because the guest does so later, as a step of its own.
- Hypervisor.LibvirtAdapter.NextVirtioDiskTarget: assumes that libvirt prints the target of each virtio disk as the scanner expects it and that nothing else it prints reads like one.
- Freeze.StepFreezes: takes the sync as one step; what a sync with stale rows does is in SyncPass.StaleUpdatesEndWaiting.
- Hypervisor.LibvirtAdapter.RevertToInternalSnapshot: does not model that libvirt restores an older definition with its disks.
- VolumeAgreement.AttachmentsAreReal: holds of the runs that VolumeAgreement.AgreementIsExact shows to be the only ones.
- NatJustified.RulesAreAlwaysJustified: assumes working rule deletes and disassociation publishes; NatExact.JustificationIsExact says what holds without them.
- Allocator.NoDoubleAllocation: takes the inserts of one seeding as one step, which waits as a whole.
