/** Rows, messages and host objects of the control plane, as values. */
module Model {
  import opened Wrappers
  import opened Addresses

  /** UUIDs. */
  type Id = nat

  datatype InstanceState = Creating | Running | Stopped | Deleting | Errored | Snapshotting

  datatype Instance = Instance(
    project: Id, name: string, state: InstanceState, network: Option<Id>, ipv4: Option<Addr>)

  datatype TaskKind =
    | InstanceCreate | InstanceStart | InstanceStop | InstanceReboot | InstanceDestroy
    | SnapshotCreate | SnapshotRevert
    | FipAssociate | FipDisassociate
    | UnknownKind

  datatype TaskStatus = Pending | InProgress | Succeeded | Failed

  datatype Task = Task(kind: TaskKind, project: Id, instance: Option<Id>, status: TaskStatus)

  datatype SnapshotStatus = SnapCreating | SnapAvailable | SnapError

  datatype Snapshot = Snapshot(
    project: Id, instance: Id, name: string, status: SnapshotStatus, domainWasRunning: bool)

  datatype VolumeStatus = Available | InUse | VolumeError

  /** `target` is the letter of the virtio target device. */
  datatype Volume = Volume(
    project: Id, name: string, status: VolumeStatus, instance: Option<Id>, target: Option<char>)

  datatype FipStatus = Unallocated | Allocated | Active

  datatype FloatingIp = FloatingIp(
    project: Option<Id>, pub: Addr, instance: Option<Id>, priv: Option<Addr>, status: FipStatus)

  datatype Network = Network(project: Id, prefix: Prefix, gateway: Addr)

  datatype DiskFile = RootDisk(owner: Id) | VolumeFile(volume: Id)

  /** A hypervisor domain: whether the guest runs, and the file behind each virtio target letter. */
  datatype Domain = Domain(running: bool, disks: map<char, DiskFile>)

  type Domains = map<string, Domain>

  /** The body of a queued task, with the fields of each task type. */
  datatype TaskMessage = TaskMessage(
    task: Id, kind: TaskKind, project: Id, instance: Option<Id>,
    snapshot: Option<Id>, prior: Option<InstanceState>,
    fip: Option<Id>, pub: Option<Addr>, priv: Option<Addr>)

  /** Why a request is refused. */
  datatype Fault =
    | NotFound | BadRequest | UnsupportedNetwork | Duplicate | NoIpsAvailable
    | InvalidAction | InvalidTransition | HasAttachedVolumes
    | SnapshotConflict | SnapshotNameConflict | SnapshotNotReady
    | NoFloatingIpsAvailable | AssociationRefused
    | VolumeInUse | VolumeNotAvailable | NotAttached | BusySnapshotting | NotRunning
    | HypervisorFailed | StorageFailed | PublishFailed

  datatype Reply = Accepted | Refused(fault: Fault)
}
