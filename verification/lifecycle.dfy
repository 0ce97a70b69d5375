/** `main` (main.go:193-261) as a resource-lifecycle state machine.

    Every external call is an abstract action whose success is read from a
    `World`. Each acquisition pushes its release onto an explicit stack, the
    way Go's `defer` does; returning from `main` (or panicking) pops that
    stack, while `os.Exit` leaves it untouched. */
module Lifecycle {
  import opened Results
  import opened Config
  import opened Naming
  import opened Customize
  import opened Traces

  /** The fixed file names `main` works with. */
  const Qcow2ImagePath: string := "ubuntu.qcow2.img"
  const RawImagePath: string := "ubuntu.img"

  /** `os.Stat` on the qcow2 image: only a not-exist error triggers a download. */
  datatype StatResult = Present | NotExist | StatFailed

  /** `losetup --find --show --partscan`: failure, or the text it printed. */
  datatype AttachResult = AttachFailed | AttachPrinted(output: string)

  /** `os.MkdirTemp`: failure, or the directory it created. */
  datatype MkdirResult = MkdirFailed | MkdirCreated(path: string)

  /** Whether each release action reports an error. */
  datatype ReleaseResults = ReleaseResults(unmountOk: bool, removeOk: bool, detachOk: bool)

  /** Everything a run depends on that the program does not compute. */
  datatype World = World(
    configFlag: string,         // value of the -config flag
    configFile: ConfigSource,   // what opening and decoding that file gives
    imageStat: StatResult,
    downloadOk: bool,
    convertOk: bool,            // qemu-img convert
    attach: AttachResult,
    mkdir: MkdirResult,
    mountOk: bool,
    cloudInit: CloudInitEnv,
    releases: ReleaseResults)

  /** How `main` ends: by returning (status 0), through `os.Exit`, or by a
      runtime panic (status 2). */
  datatype Termination = Returned | Exited(code: int) | Panicked

  function ExitStatus(t: Termination): int
  {
    match t
    case Returned => 0
    case Exited(code) => code
    case Panicked => 2
  }

  /** Whether the release action for `r` reports success. */
  function ReleaseSucceeds(results: ReleaseResults, r: Resource): bool
  {
    match r
    case LoopDevice(_) => results.detachOk
    case MountDirectory(_) => results.removeOk
    case Mounted(_, _) => results.unmountOk
  }

  /** The trace so far and the stack of deferred releases. */
  datatype Frame = Frame(trace: seq<Event>, stack: seq<Resource>)

  /** The stack holds exactly what the trace acquired, in order, nothing
      twice and in dependency order; nothing has been released yet. */
  predicate Consistent(f: Frame)
  {
    && Acquired(f.trace) == f.stack
    && (forall i :: 0 <= i < |f.trace| ==> !f.trace[i].Release?)
    && Distinct(f.stack)
    && AcquisitionOrdered(f.stack)
  }

  /** Record external calls. */
  function Record(f: Frame, calls: seq<Event>): (g: Frame)
    requires Consistent(f)
    requires forall i :: 0 <= i < |calls| ==> calls[i].Call?
    ensures Consistent(g)
    ensures g.stack == f.stack && g.trace == f.trace + calls
  {
    AcquiredAppend(f.trace, calls);
    CallsOnly(calls);
    Frame(f.trace + calls, f.stack)
  }

  /** Record one external call. */
  function Invoke(f: Frame, step: Step): (g: Frame)
    requires Consistent(f)
    ensures Consistent(g)
    ensures g.stack == f.stack && g.trace == f.trace + [Call(step)]
  {
    Record(f, [Call(step)])
  }

  /** The call events of the given guest stages, in order. */
  function GuestCalls(stages: seq<Stage>): (t: seq<Event>)
    ensures |t| == |stages|
    ensures forall i :: 0 <= i < |stages| ==> t[i] == Call(Guest(stages[i]))
  {
    if stages == [] then [] else [Call(Guest(stages[0]))] + GuestCalls(stages[1..])
  }

  /** Acquire `r` and defer its release. */
  function Defer(f: Frame, r: Resource): (g: Frame)
    requires Consistent(f)
    requires r !in f.stack
    requires forall i :: 0 <= i < |f.stack| ==> !DependsOn(f.stack[i], r)
    ensures Consistent(g)
    ensures g.stack == f.stack + [r] && g.trace == f.trace + [Acquire(r)]
  {
    AcquiredAppend(f.trace, [Acquire(r)]);
    Frame(f.trace + [Acquire(r)], f.stack + [r])
  }

  /** A run whose configuration flag is set and whose file `ParseConfig`
      accepted. */
  predicate Accepted(w: World)
  {
    w.configFlag != "" && ParseConfig(w.configFile).Ok?
  }

  /** The configuration an accepted run works with. */
  function ConfigOf(w: World): Config
    requires Accepted(w)
  {
    ParseConfig(w.configFile).value
  }

  /** `losetup` succeeded and printed something to trim. */
  predicate Attached(w: World)
  {
    w.attach.AttachPrinted? && |w.attach.output| > 0
  }

  /** The loop device of an attached run. */
  function DeviceOf(w: World): string
    requires Attached(w)
  {
    LoopDeviceName(w.attach.output)
  }

  /** The guest stages `customizeMount` invokes for an accepted run mounted
      on `mountPath`. */
  function GuestStages(w: World, mountPath: string): seq<Stage>
    requires Accepted(w)
  {
    CustomizeMount(mountPath, ConfigOf(w).cloudInitConfigPath, ConfigOf(w).extraPackages, w.cloudInit).stages
  }

  // The frame after each statement of `main` that touches the outside.

  function ReadFrame(w: World): (f: Frame)
    ensures Consistent(f) && f.stack == []
  {
    Invoke(Frame([], []), ReadConfig(w.configFlag))
  }

  /** The download runs only when `os.Stat` reported that the file does not
      exist; any other outcome of `os.Stat` counts as present. */
  function FetchFrame(w: World): (f: Frame)
    requires Accepted(w)
    ensures Consistent(f) && f.stack == []
  {
    if w.imageStat.NotExist? then Invoke(ReadFrame(w), Download(ConfigOf(w).imageURL, Qcow2ImagePath))
    else ReadFrame(w)
  }

  function ConvertFrame(w: World): (f: Frame)
    requires Accepted(w)
    ensures Consistent(f) && f.stack == []
  {
    Invoke(FetchFrame(w), ConvertToRaw(Qcow2ImagePath, RawImagePath))
  }

  function AttachFrame(w: World): (f: Frame)
    requires Accepted(w)
    ensures Consistent(f) && f.stack == []
  {
    Invoke(ConvertFrame(w), AttachImage(RawImagePath))
  }

  /** The device is acquired, its detach deferred, then the directory made. */
  function MkdirFrame(w: World): (f: Frame)
    requires Accepted(w) && Attached(w)
    ensures Consistent(f) && f.stack == [LoopDevice(DeviceOf(w))]
  {
    Invoke(Defer(AttachFrame(w), LoopDevice(DeviceOf(w))), MakeMountDirectory)
  }

  /** The directory is acquired, its removal deferred, then the first
      partition mounted on it. */
  function MountFrame(w: World): (f: Frame)
    requires Accepted(w) && Attached(w) && w.mkdir.MkdirCreated?
    ensures Consistent(f) && f.stack == [LoopDevice(DeviceOf(w)), MountDirectory(w.mkdir.path)]
  {
    var path := w.mkdir.path;
    Invoke(Defer(MkdirFrame(w), MountDirectory(path)), MountPartition(PartitionName(DeviceOf(w)), path))
  }

  /** The mount is acquired, its unmount deferred, then the guest customised. */
  function CustomizeFrame(w: World): (f: Frame)
    requires Accepted(w) && Attached(w) && w.mkdir.MkdirCreated?
    ensures Consistent(f)
    ensures f.stack == [LoopDevice(DeviceOf(w)), MountDirectory(w.mkdir.path),
                        Mounted(PartitionName(DeviceOf(w)), w.mkdir.path)]
  {
    var path := w.mkdir.path;
    Record(Defer(MountFrame(w), Mounted(PartitionName(DeviceOf(w)), path)), GuestCalls(GuestStages(w, path)))
  }

  /** Where the forward part of `main` stopped. */
  datatype Body = Body(frame: Frame, end: Termination)

  /** The statements of `main` up to its last one, before deferred calls run. */
  function MainBody(w: World): (b: Body)
    ensures Consistent(b.frame)
    ensures b.end.Exited? ==> b.frame.stack == []
  {
    if w.configFlag == "" then Body(Frame([], []), Returned)  // usage printed, nothing done
    else if ParseConfig(w.configFile).Err? then Body(ReadFrame(w), Returned)
    else if w.imageStat.NotExist? && !w.downloadOk then Body(FetchFrame(w), Exited(1))
    else if !w.convertOk then Body(ConvertFrame(w), Exited(2))
    else if w.attach.AttachFailed? then Body(AttachFrame(w), Returned)
    else if |w.attach.output| == 0 then Body(AttachFrame(w), Panicked)  // trimming an empty output panics
    else if w.mkdir.MkdirFailed? then Body(MkdirFrame(w), Returned)
    else if !w.mountOk then Body(MountFrame(w), Returned)
    // a failed customisation is logged and main returns: the same ending
    else Body(CustomizeFrame(w), Returned)
  }

  /** The deferred calls, run from the top of the stack down. A failing
      release does not stop the ones below it. */
  function Unwind(stack: seq<Resource>, results: ReleaseResults): (t: seq<Event>)
    ensures Released(t) == Reverse(stack)
    ensures Acquired(t) == []
    ensures |t| == |stack|
    ensures forall i :: 0 <= i < |t| ==> t[i].Release?
  {
    if stack == [] then []
    else
      var top := stack[|stack| - 1];
      var rest := Unwind(stack[..|stack| - 1], results);
      AcquiredAppend([Release(top, ReleaseSucceeds(results, top))], rest);
      ReleasedAppend([Release(top, ReleaseSucceeds(results, top))], rest);
      [Release(top, ReleaseSucceeds(results, top))] + rest
  }

  /** The full trace of one run of `main`, and how it ended. */
  datatype RunResult = RunResult(trace: seq<Event>, end: Termination)

  /** The forward part of a run followed by its unwound stack releases what
      it acquired, once each, in reverse and in dependency order. */
  lemma UnwindAfter(f: Frame, results: ReleaseResults)
    requires Consistent(f)
    ensures var t := f.trace + Unwind(f.stack, results);
            && Acquired(t) == f.stack
            && Released(t) == Reverse(f.stack)
            && (forall x :: multiset(Released(t))[x] == if x in f.stack then 1 else 0)
            && ReleaseOrdered(Released(t))
            && (forall i, j :: 0 <= i < j < |t| && t[i].Release? ==> t[j].Release?)
  {
    var tail := Unwind(f.stack, results);
    var t := f.trace + tail;
    AcquiredAppend(f.trace, tail);
    ReleasedAppend(f.trace, tail);
    NoReleaseEvents(f.trace);
    assert Released(t) == Reverse(f.stack);
    ReverseMultiset(f.stack);
    DistinctOccursOnce(f.stack);
    ReverseOfOrderedAcquisition(f.stack);
    ReleasesLast(f.trace, tail);
  }

  /** Appending only release events to a trace without any keeps every
      release after every other event. */
  lemma ReleasesLast(forward: seq<Event>, tail: seq<Event>)
    requires forall i :: 0 <= i < |forward| ==> !forward[i].Release?
    requires forall i :: 0 <= i < |tail| ==> tail[i].Release?
    ensures var t := forward + tail;
            forall i, j :: 0 <= i < j < |t| && t[i].Release? ==> t[j].Release?
  {
    var t := forward + tail;
    forall i, j | 0 <= i < j < |t| && t[i].Release?
      ensures t[j].Release?
    {
      assert i >= |forward|;
      assert t[j] == tail[j - |forward|];
    }
  }

  /** `main`: run the body, then the deferred releases unless `os.Exit`
      ended the process. */
  function Run(w: World): RunResult
  {
    var b := MainBody(w);
    if b.end.Exited? then RunResult(b.frame.trace, b.end)
    else RunResult(b.frame.trace + Unwind(b.frame.stack, w.releases), b.end)
  }

  /** Whatever the world, a run releases what it acquired: nothing when
      `os.Exit` ended it (it is only reached before any acquisition), and
      otherwise each acquired resource exactly once, in reverse and in
      dependency order, after every other event. */
  lemma RunReleasesMirror(w: World)
    ensures Run(w).end.Exited? ==> Acquired(Run(w).trace) == [] && Released(Run(w).trace) == []
    ensures !Run(w).end.Exited? ==> Released(Run(w).trace) == Reverse(Acquired(Run(w).trace))
    ensures forall x :: multiset(Released(Run(w).trace))[x] == if x in Acquired(Run(w).trace) then 1 else 0
    ensures AcquisitionOrdered(Acquired(Run(w).trace))
    ensures ReleaseOrdered(Released(Run(w).trace))
    ensures forall i, j :: 0 <= i < j < |Run(w).trace| && Run(w).trace[i].Release? ==> Run(w).trace[j].Release?
  {
    var b := MainBody(w);
    if b.end.Exited? {
      NoReleaseEvents(b.frame.trace);
    } else {
      UnwindAfter(b.frame, w.releases);
    }
  }
}
