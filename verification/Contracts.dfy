/** The platform's vocabulary: run and attempt statuses, their legal
    transitions, and the immutable task a run is created from. */
module Contracts {

  datatype Option<+T> = None | Some(value: T)

  datatype RunStatus =
    | Queued | Preparing | Running | RetryWait | CancelRequested
    | Succeeded | Failed | Cancelled | TimedOut | Lost

  datatype AttemptStatus = Pending | Running | Succeeded | Failed | Lost

  predicate Terminal(s: RunStatus) {
    s.Succeeded? || s.Failed? || s.Cancelled? || s.TimedOut? || s.Lost?
  }

  /** The statuses from which a worker may claim the stage. */
  predicate Unclaimed(s: RunStatus) {
    s.Queued? || s.RetryWait?
  }

  /** The run transition table, row by row. */
  function Targets(s: RunStatus): set<RunStatus> {
    match s
    case Queued => {RunStatus.Preparing, CancelRequested, Cancelled, RunStatus.Failed}
    case Preparing => {RunStatus.Running, CancelRequested, RunStatus.Failed, RunStatus.Lost}
    case Running =>
      {RetryWait, CancelRequested, RunStatus.Succeeded, RunStatus.Failed, TimedOut, RunStatus.Lost}
    case RetryWait => {Queued, CancelRequested, RunStatus.Failed, RunStatus.Lost}
    case CancelRequested => {Cancelled, RunStatus.Failed, RunStatus.Lost}
    case _ => {}
  }

  predicate RunTransitionAllowed(current: RunStatus, target: RunStatus) {
    !Terminal(current) && target in Targets(current)
  }

  predicate AttemptTransitionAllowed(current: AttemptStatus, target: AttemptStatus) {
    match current
    case Pending => target.Running? || target.Lost?
    case Running => target.Succeeded? || target.Failed? || target.Lost?
    case _ => false
  }

  /** Bytes and an idealised SHA-256: a free constructor, hence injective. */
  type Bytes = string
  datatype Digest = Sha256(bytes: Bytes)

  /** One line of an input manifest, and the digest of the whole list: again a free
      constructor, standing for SHA-256 of the canonical JSON text. */
  datatype ManifestEntry = ManifestEntry(destination: string, present: bool, size: nat, digest: Option<Digest>)
  datatype ManifestDigest = ManifestOf(entries: seq<ManifestEntry>)

  /** Where one staged input's bytes come from: exactly one of three places. */
  datatype Origin = HostPath(path: string) | ArtifactRef(artifactId: string) | UploadRef(inputId: string)

  datatype InputFile = InputFile(destination: string, origin: Origin, required: bool)

  /** The declared bounds on an attempt's process tree; `None` means not declared. */
  datatype ResourceRequest = ResourceRequest(
    cpuSeconds: Option<nat>, cpuCores: Option<nat>, memoryBytes: Option<nat>, processes: Option<nat>)
  {
    predicate Declared() {
      cpuSeconds.Some? || cpuCores.Some? || memoryBytes.Some? || processes.Some?
    }

    predicate Valid() {
      && (cpuSeconds.Some? ==> cpuSeconds.value > 0)
      && (cpuCores.Some? ==> cpuCores.value > 0)
      && (memoryBytes.Some? ==> memoryBytes.value > 0)
      && (processes.Some? ==> processes.value > 0)
    }
  }

  /** An immutable task.  `body` stands for the fields the kernel only compares
      (project, design, plugin, parameters, timeout, expected artifacts). */
  datatype TaskSpec = TaskSpec(
    taskId: string,
    body: string,
    labels: map<string, string>,
    stagedInputs: seq<InputFile>,
    inputManifest: Option<ManifestDigest>,
    resources: Option<ResourceRequest>,
    maxAttempts: nat)
  {
    predicate Valid() {
      && 0 < maxAttempts
      && (resources.Some? ==> resources.value.Valid())
      && (forall i, j :: 0 <= i < j < |stagedInputs| ==>
            stagedInputs[i].destination != stagedInputs[j].destination)
    }
  }
}
