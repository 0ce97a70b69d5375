/** What each way through `main` acquires, calls and releases, stated
    against an independent classification of runs by where they stop. */
module LifecycleFacts {
  import opened Config
  import opened Naming
  import opened Customize
  import opened Traces
  import opened Lifecycle

  /** The statement at which a run of `main` stops going forward. */
  datatype StopPoint =
    | NoConfigFlag       // -config not given
    | ConfigRejected     // ParseConfig returned an error
    | DownloadFailed
    | ConversionFailed
    | AttachFailedStop   // losetup reported an error
    | AttachPanicked     // losetup printed nothing
    | MkdirFailedStop
    | MountFailed
    | CustomizeFailed
    | Completed

  /** Classify a world by the first check it fails. */
  function StopPointOf(w: World): StopPoint
  {
    if w.configFlag == "" then NoConfigFlag
    else if ParseConfig(w.configFile).Err? then ConfigRejected
    else if w.imageStat.NotExist? && !w.downloadOk then DownloadFailed
    else if !w.convertOk then ConversionFailed
    else if w.attach.AttachFailed? then AttachFailedStop
    else if |w.attach.output| == 0 then AttachPanicked
    else if w.mkdir.MkdirFailed? then MkdirFailedStop
    else if !w.mountOk then MountFailed
    else if !(w.cloudInit.createOk && w.cloudInit.openOk && w.cloudInit.closeOk) then CustomizeFailed
    else Completed
  }

  /** The stop points reached before the loop device is attached. */
  predicate BeforeAttach(s: StopPoint)
  {
    s in {NoConfigFlag, ConfigRejected, DownloadFailed, ConversionFailed, AttachFailedStop, AttachPanicked}
  }

  /** The stop points reached with the guest mounted. */
  predicate AfterMount(s: StopPoint)
  {
    s == CustomizeFailed || s == Completed
  }

  /** How a run stopping at `s` ends. */
  function EndOf(s: StopPoint): Termination
  {
    match s
    case DownloadFailed => Exited(1)
    case ConversionFailed => Exited(2)
    case AttachPanicked => Panicked
    case _ => Returned
  }

  // The forward events of `main`, one segment per stage it gets through.

  function ReadEvents(w: World): seq<Event>
  {
    [Call(ReadConfig(w.configFlag))]
  }

  /** The download call, present only when the image was reported not to
      exist. */
  function FetchEvents(w: World): seq<Event>
    requires Accepted(w)
  {
    if w.imageStat.NotExist? then [Call(Download(ConfigOf(w).imageURL, Qcow2ImagePath))] else []
  }

  function ConvertEvents(w: World): seq<Event>
    requires Accepted(w)
  {
    ReadEvents(w) + FetchEvents(w) + [Call(ConvertToRaw(Qcow2ImagePath, RawImagePath))]
  }

  function AttachEvents(w: World): seq<Event>
    requires Accepted(w)
  {
    ConvertEvents(w) + [Call(AttachImage(RawImagePath))]
  }

  function MkdirEvents(w: World): seq<Event>
    requires Accepted(w) && Attached(w)
  {
    AttachEvents(w) + [Acquire(LoopDevice(DeviceOf(w))), Call(MakeMountDirectory)]
  }

  function MountEvents(w: World): seq<Event>
    requires Accepted(w) && Attached(w) && w.mkdir.MkdirCreated?
  {
    MkdirEvents(w) + [Acquire(MountDirectory(w.mkdir.path)), Call(MountPartition(PartitionName(DeviceOf(w)), w.mkdir.path))]
  }

  function GuestEvents(w: World): seq<Event>
    requires Accepted(w) && Attached(w) && w.mkdir.MkdirCreated?
  {
    MountEvents(w) + [Acquire(Mounted(PartitionName(DeviceOf(w)), w.mkdir.path))] + GuestCalls(GuestStages(w, w.mkdir.path))
  }

  /** The events of the forward part of a run, read off its stop point. */
  function ForwardAt(w: World): seq<Event>
  {
    match StopPointOf(w)
    case NoConfigFlag => []
    case ConfigRejected => ReadEvents(w)
    case DownloadFailed => ReadEvents(w) + FetchEvents(w)
    case ConversionFailed => ConvertEvents(w)
    case AttachFailedStop => AttachEvents(w)
    case AttachPanicked => AttachEvents(w)
    case MkdirFailedStop => MkdirEvents(w)
    case MountFailed => MountEvents(w)
    case CustomizeFailed => GuestEvents(w)
    case Completed => GuestEvents(w)
  }

  /** The resources held when the forward part of a run stops, oldest first. */
  function HeldAt(w: World): seq<Resource>
  {
    match StopPointOf(w)
    case MkdirFailedStop => [LoopDevice(DeviceOf(w))]
    case MountFailed => [LoopDevice(DeviceOf(w)), MountDirectory(w.mkdir.path)]
    case CustomizeFailed => [LoopDevice(DeviceOf(w)), MountDirectory(w.mkdir.path), Mounted(PartitionName(DeviceOf(w)), w.mkdir.path)]
    case Completed => [LoopDevice(DeviceOf(w)), MountDirectory(w.mkdir.path), Mounted(PartitionName(DeviceOf(w)), w.mkdir.path)]
    case _ => []
  }

  /** A run stopping after the mount got through every earlier stage. */
  lemma AfterMountReached(w: World)
    requires AfterMount(StopPointOf(w))
    ensures Accepted(w) && Attached(w) && w.mkdir.MkdirCreated?
  {
  }

  // The trace of each stage frame of `main` is the matching segment list.

  lemma ConvertFrameTrace(w: World)
    requires Accepted(w)
    ensures ConvertFrame(w).trace == ConvertEvents(w)
  {
    assert FetchFrame(w).trace == ReadEvents(w) + FetchEvents(w);
  }

  lemma AttachFrameTrace(w: World)
    requires Accepted(w)
    ensures AttachFrame(w).trace == AttachEvents(w)
  {
    ConvertFrameTrace(w);
  }

  lemma MkdirFrameTrace(w: World)
    requires Accepted(w) && Attached(w)
    ensures MkdirFrame(w).trace == MkdirEvents(w)
  {
    AttachFrameTrace(w);
    var acquire := Acquire(LoopDevice(DeviceOf(w)));
    var call := Call(MakeMountDirectory);
    assert MkdirFrame(w).trace == AttachFrame(w).trace + [acquire] + [call];
    assert AttachEvents(w) + [acquire] + [call] == AttachEvents(w) + [acquire, call];
  }

  lemma MountFrameTrace(w: World)
    requires Accepted(w) && Attached(w) && w.mkdir.MkdirCreated?
    ensures MountFrame(w).trace == MountEvents(w)
  {
    MkdirFrameTrace(w);
    var acquire := Acquire(MountDirectory(w.mkdir.path));
    var call := Call(MountPartition(PartitionName(DeviceOf(w)), w.mkdir.path));
    assert MountFrame(w).trace == MkdirFrame(w).trace + [acquire] + [call];
    assert MkdirEvents(w) + [acquire] + [call] == MkdirEvents(w) + [acquire, call];
  }

  lemma CustomizeFrameTrace(w: World)
    requires Accepted(w) && Attached(w) && w.mkdir.MkdirCreated?
    ensures CustomizeFrame(w).trace == GuestEvents(w)
  {
    MountFrameTrace(w);
    var acquire := Acquire(Mounted(PartitionName(DeviceOf(w)), w.mkdir.path));
    assert CustomizeFrame(w).trace == MountFrame(w).trace + [acquire] + GuestCalls(GuestStages(w, w.mkdir.path));
  }

  /** The forward part of `main` stops in the frame its stop point
      describes, and ends the way that point says. */
  predicate BodyMatches(w: World)
  {
    MainBody(w) == Body(Frame(ForwardAt(w), HeldAt(w)), EndOf(StopPointOf(w)))
  }

  lemma BodyBeforeAccept(w: World)
    requires StopPointOf(w) == NoConfigFlag || StopPointOf(w) == ConfigRejected
    ensures BodyMatches(w)
  {
  }

  lemma BodyDownloadFailed(w: World)
    requires StopPointOf(w) == DownloadFailed
    ensures BodyMatches(w)
  {
    assert MainBody(w) == Body(FetchFrame(w), Exited(1));
    assert FetchFrame(w).trace == ReadEvents(w) + FetchEvents(w);
  }

  lemma BodyConversionFailed(w: World)
    requires StopPointOf(w) == ConversionFailed
    ensures BodyMatches(w)
  {
    assert MainBody(w) == Body(ConvertFrame(w), Exited(2));
    ConvertFrameTrace(w);
  }

  lemma BodyAttachFailed(w: World)
    requires StopPointOf(w) == AttachFailedStop
    ensures BodyMatches(w)
  {
    assert MainBody(w) == Body(AttachFrame(w), Returned);
    AttachFrameTrace(w);
  }

  lemma BodyAttachPanicked(w: World)
    requires StopPointOf(w) == AttachPanicked
    ensures BodyMatches(w)
  {
    assert MainBody(w) == Body(AttachFrame(w), Panicked);
    AttachFrameTrace(w);
  }

  lemma BodyMkdirFailed(w: World)
    requires StopPointOf(w) == MkdirFailedStop
    ensures BodyMatches(w)
  {
    assert MainBody(w) == Body(MkdirFrame(w), Returned);
    MkdirFrameTrace(w);
  }

  lemma BodyMountFailed(w: World)
    requires StopPointOf(w) == MountFailed
    ensures BodyMatches(w)
  {
    assert MainBody(w) == Body(MountFrame(w), Returned);
    MountFrameTrace(w);
  }

  lemma BodyAfterMount(w: World)
    requires AfterMount(StopPointOf(w))
    ensures BodyMatches(w)
  {
    assert MainBody(w) == Body(CustomizeFrame(w), Returned);
    CustomizeFrameTrace(w);
  }

  lemma BodyByStopPoint(w: World)
    ensures BodyMatches(w)
  {
    var s := StopPointOf(w);
    if s == NoConfigFlag || s == ConfigRejected {
      BodyBeforeAccept(w);
    } else if s == DownloadFailed {
      BodyDownloadFailed(w);
    } else if s == ConversionFailed {
      BodyConversionFailed(w);
    } else if s == AttachFailedStop {
      BodyAttachFailed(w);
    } else if s == AttachPanicked {
      BodyAttachPanicked(w);
    } else if s == MkdirFailedStop {
      BodyMkdirFailed(w);
    } else if s == MountFailed {
      BodyMountFailed(w);
    } else {
      BodyAfterMount(w);
    }
  }

  /** A run whose body stops as its stop point says is that forward trace
      followed, unless it exited, by unwinding what it holds there. */
  lemma RunFromBody(w: World)
    requires BodyMatches(w)
    ensures Run(w).end == EndOf(StopPointOf(w))
    ensures Run(w).trace == ForwardAt(w) + (if Run(w).end.Exited? then [] else Unwind(HeldAt(w), w.releases))
    ensures Acquired(ForwardAt(w)) == HeldAt(w)
    ensures Released(ForwardAt(w)) == []
  {
    assert Consistent(MainBody(w).frame);
    NoReleaseEvents(ForwardAt(w));
  }

  /** The forward part of a run releases nothing. */
  lemma ForwardHasNoReleases(w: World)
    ensures forall i :: 0 <= i < |ForwardAt(w)| ==> !ForwardAt(w)[i].Release?
  {
    BodyByStopPoint(w);
    assert Consistent(MainBody(w).frame);
  }

  /** Every run is the forward trace of its stop point followed, unless it
      ended through `os.Exit`, by the release of what it holds there, most
      recent first. */
  lemma RunByStopPoint(w: World)
    ensures Run(w).end == EndOf(StopPointOf(w))
    ensures Run(w).trace == ForwardAt(w) + (if Run(w).end.Exited? then [] else Unwind(HeldAt(w), w.releases))
    ensures Acquired(ForwardAt(w)) == HeldAt(w)
    ensures Released(ForwardAt(w)) == []
  {
    BodyByStopPoint(w);
    RunFromBody(w);
  }

  /** How a run ends depends only on where it stops. */
  lemma EndByStopPoint(w: World)
    ensures Run(w).end == EndOf(StopPointOf(w))
  {
    RunByStopPoint(w);
  }

  /** Exit status 1 means the download failed, 2 from `os.Exit` means the
      conversion failed; the only other non-zero status is the panic on an
      empty `losetup` output. Every other failure returns normally. */
  lemma ExitCodes(w: World)
    ensures Run(w).end == Exited(1) <==> StopPointOf(w) == DownloadFailed
    ensures Run(w).end == Exited(2) <==> StopPointOf(w) == ConversionFailed
    ensures Run(w).end == Panicked <==> StopPointOf(w) == AttachPanicked
    ensures Run(w).end.Exited? ==> Acquired(Run(w).trace) == []
    ensures ExitStatus(Run(w).end) != 0
            <==> StopPointOf(w) in {DownloadFailed, ConversionFailed, AttachPanicked}
  {
    RunByStopPoint(w);
  }

  /** What a run acquires is what its stop point holds, and unless it
      ended through `os.Exit` it releases that in reverse. */
  lemma HeldAndReleased(w: World)
    ensures Acquired(Run(w).trace) == HeldAt(w)
    ensures Released(Run(w).trace) == if Run(w).end.Exited? then [] else Reverse(HeldAt(w))
  {
    var forward, unwound := ForwardAt(w), Unwind(HeldAt(w), w.releases);
    RunByStopPoint(w);
    if Run(w).end.Exited? {
      assert Run(w).trace == forward;
    } else {
      assert Run(w).trace == forward + unwound;
      AcquiredAppend(forward, unwound);
      ReleasedAppend(forward, unwound);
    }
  }

  // Which calls each forward segment can contain.

  lemma AttachEventsEarly(w: World)
    requires Accepted(w)
    ensures forall e :: e in AttachEvents(w) ==>
              e.Call? && !e.step.MakeMountDirectory? && !e.step.MountPartition? && !e.step.Guest?
    ensures w.imageStat.NotExist? ==> Call(Download(ConfigOf(w).imageURL, Qcow2ImagePath)) in AttachEvents(w)
    ensures !w.imageStat.NotExist? ==> forall e :: e in AttachEvents(w) ==> !e.step.Download?
  {
  }

  /** Each later segment extends the one before it by acquisitions and
      the calls of its own stage. */
  lemma MkdirEventsExtend(w: World)
    requires Accepted(w) && Attached(w)
    ensures forall e :: e in AttachEvents(w) ==> e in MkdirEvents(w)
    ensures forall e :: e in MkdirEvents(w) ==> e in AttachEvents(w) || e.Acquire? || e == Call(MakeMountDirectory)
  {
  }

  lemma MountEventsExtend(w: World)
    requires Accepted(w) && Attached(w) && w.mkdir.MkdirCreated?
    ensures forall e :: e in MkdirEvents(w) ==> e in MountEvents(w)
    ensures forall e :: e in MountEvents(w) ==>
              e in MkdirEvents(w) || e.Acquire? || e == Call(MountPartition(PartitionName(DeviceOf(w)), w.mkdir.path))
  {
  }

  lemma GuestEventsExtend(w: World)
    requires Accepted(w) && Attached(w) && w.mkdir.MkdirCreated?
    ensures forall e :: e in MountEvents(w) ==> e in GuestEvents(w)
    ensures forall e :: e in GuestEvents(w) ==> e in MountEvents(w) || e.Acquire? || (e.Call? && e.step.Guest?)
  {
    var stages := GuestStages(w, w.mkdir.path);
    forall e | e in GuestCalls(stages)
      ensures e.Call? && e.step.Guest?
    {
      var i :| 0 <= i < |GuestCalls(stages)| && GuestCalls(stages)[i] == e;
    }
  }

  // Beyond the attach segment, each later segment adds no download and no
  // mount other than that of the device's first partition.

  lemma MkdirEventsLater(w: World)
    requires Accepted(w) && Attached(w)
    ensures forall e :: e in AttachEvents(w) ==> e in MkdirEvents(w)
    ensures forall e :: e in MkdirEvents(w) && e !in AttachEvents(w) ==>
              !(e.Call? && (e.step.Download? || e.step.MountPartition?))
  {
    MkdirEventsExtend(w);
  }

  lemma MountEventsLater(w: World)
    requires Accepted(w) && Attached(w) && w.mkdir.MkdirCreated?
    ensures forall e :: e in AttachEvents(w) ==> e in MountEvents(w)
    ensures forall e :: e in MountEvents(w) && e !in AttachEvents(w) ==>
              !(e.Call? && (e.step.Download? || e.step.MountPartition?))
              || e == Call(MountPartition(PartitionName(DeviceOf(w)), w.mkdir.path))
  {
    MkdirEventsLater(w);
    MountEventsExtend(w);
  }

  lemma GuestEventsLater(w: World)
    requires Accepted(w) && Attached(w) && w.mkdir.MkdirCreated?
    ensures forall e :: e in AttachEvents(w) ==> e in GuestEvents(w)
    ensures forall e :: e in GuestEvents(w) && e !in AttachEvents(w) ==>
              !(e.Call? && (e.step.Download? || e.step.MountPartition?))
              || e == Call(MountPartition(PartitionName(DeviceOf(w)), w.mkdir.path))
  {
    MountEventsLater(w);
    GuestEventsExtend(w);
  }

  /** The forward events of a run that got past attaching contain its attach
      segment, and beyond it no download and no mount other than that of
      the device's first partition on the temporary directory. */
  lemma AttachEventsForward(w: World)
    requires Accepted(w) && StopPointOf(w) !in {NoConfigFlag, ConfigRejected, DownloadFailed, ConversionFailed}
    ensures forall e :: e in AttachEvents(w) ==> e in ForwardAt(w)
    ensures forall e :: e in ForwardAt(w) && !(e in AttachEvents(w)) ==>
              !(e.Call? && (e.step.Download? || e.step.MountPartition?))
              || (Attached(w) && w.mkdir.MkdirCreated? && e == Call(MountPartition(PartitionName(DeviceOf(w)), w.mkdir.path)))
  {
    var s := StopPointOf(w);
    if s == AttachFailedStop || s == AttachPanicked {
      assert ForwardAt(w) == AttachEvents(w);
    } else if s == MkdirFailedStop {
      assert Attached(w) && ForwardAt(w) == MkdirEvents(w);
      MkdirEventsLater(w);
    } else if s == MountFailed {
      assert Attached(w) && w.mkdir.MkdirCreated? && ForwardAt(w) == MountEvents(w);
      MountEventsLater(w);
    } else {
      assert Attached(w) && w.mkdir.MkdirCreated? && ForwardAt(w) == GuestEvents(w);
      GuestEventsLater(w);
    }
  }

  lemma ForwardAttachFailed(w: World)
    requires StopPointOf(w) == AttachFailedStop
    ensures forall e :: e in ForwardAt(w) ==> e.Call? && !e.step.MakeMountDirectory? && !e.step.MountPartition? && !e.step.Guest?
  {
    AttachEventsEarly(w);
  }

  lemma ForwardDownload(w: World)
    requires Accepted(w)
    ensures w.imageStat.NotExist? ==> Call(Download(ConfigOf(w).imageURL, Qcow2ImagePath)) in ForwardAt(w)
    ensures !w.imageStat.NotExist? ==> forall e :: e in ForwardAt(w) && e.Call? ==> !e.step.Download?
  {
    AttachEventsEarly(w);
    var s := StopPointOf(w);
    if s == DownloadFailed || s == ConversionFailed {
    } else {
      AttachEventsForward(w);
    }
  }

  lemma ForwardNoDownload(w: World)
    requires !Accepted(w)
    ensures forall e :: e in ForwardAt(w) && e.Call? ==> !e.step.Download?
  {
  }

  lemma ForwardMount(w: World)
    ensures forall e :: e in ForwardAt(w) && e.Call? && e.step.MountPartition? ==>
              && Attached(w) && w.mkdir.MkdirCreated?
              && e.step == MountPartition(PartitionName(DeviceOf(w)), w.mkdir.path)
  {
    var s := StopPointOf(w);
    if s in {NoConfigFlag, ConfigRejected, DownloadFailed} {
    } else if s == ConversionFailed {
      AttachEventsEarly(w);
    } else {
      AttachEventsEarly(w);
      AttachEventsForward(w);
    }
  }

  /** Where the mount acquisition sits in the trace: after the reads,
      the optional download, the conversion and the attach, directory and
      mount steps. */
  function MountEventIndex(w: World): nat
  {
    if w.imageStat.NotExist? then 8 else 7
  }

  lemma MountEventsLength(w: World)
    requires Accepted(w) && Attached(w) && w.mkdir.MkdirCreated?
    ensures |MountEvents(w)| == MountEventIndex(w)
  {
    assert |ConvertEvents(w)| == |FetchEvents(w)| + 2;
  }

  /** Positions in a sequence built as `a + [x] + b`. */
  lemma ConcatAt<T>(a: seq<T>, x: T, b: seq<T>)
    ensures |a| + |b| < |a + [x] + b|
    ensures (a + [x] + b)[|a|] == x
    ensures (a + [x] + b)[|a| + 1..] == b
  {
  }

  /** With the guest mounted, the forward part ends with the mount
      acquisition followed by the calls of the guest stages, in order. */
  lemma ForwardGuest(w: World)
    requires AfterMount(StopPointOf(w)) && Attached(w) && w.mkdir.MkdirCreated?
    ensures MountEventIndex(w) + |GuestStages(w, w.mkdir.path)| < |ForwardAt(w)|
    ensures ForwardAt(w)[MountEventIndex(w)] == Acquire(Mounted(PartitionName(DeviceOf(w)), w.mkdir.path))
    ensures ForwardAt(w)[MountEventIndex(w) + 1..] == GuestCalls(GuestStages(w, w.mkdir.path))
  {
    var m := MountEvents(w);
    var x := Acquire(Mounted(PartitionName(DeviceOf(w)), w.mkdir.path));
    var calls := GuestCalls(GuestStages(w, w.mkdir.path));
    assert ForwardAt(w) == GuestEvents(w) == m + [x] + calls;
    MountEventsLength(w);
    ConcatAt(m, x, calls);
  }

  /** The calls of a run are those of its forward part: unwinding only
      releases. */
  lemma CallsAreForward(w: World)
    ensures forall e :: e in Run(w).trace && !e.Release? ==> e in ForwardAt(w)
  {
    RunByStopPoint(w);
  }

  /** Before the loop device is attached nothing has been acquired, so
      nothing is released, whichever way the run ends. */
  lemma EarlyStopAcquiresNothing(w: World)
    requires BeforeAttach(StopPointOf(w))
    ensures Acquired(Run(w).trace) == [] && Released(Run(w).trace) == []
  {
    HeldAndReleased(w);
  }

  /** A missing flag or a rejected configuration ends `main` normally,
      having done nothing beyond reading the configuration. */
  lemma ConfigFailureDoesNothing(w: World)
    requires StopPointOf(w) == NoConfigFlag || StopPointOf(w) == ConfigRejected
    ensures Run(w).end == Returned
    ensures Run(w).trace == (if w.configFlag == "" then [] else [Call(ReadConfig(w.configFlag))])
  {
    RunByStopPoint(w);
  }

  /** When attaching fails, neither a mount directory nor a mount is
      attempted, and nothing is released. */
  lemma AttachFailureStopsEarly(w: World)
    requires StopPointOf(w) == AttachFailedStop
    ensures Run(w).end == Returned
    ensures forall e :: e in Run(w).trace ==>
              e.Call? && !e.step.MakeMountDirectory? && !e.step.MountPartition? && !e.step.Guest?
    ensures Released(Run(w).trace) == []
  {
    RunByStopPoint(w);
    ForwardAttachFailed(w);
    EarlyStopAcquiresNothing(w);
  }

  /** A run that returns or panics releases, most recent first, what its
      stop point holds. */
  lemma ReleasedOnReturn(w: World)
    requires !EndOf(StopPointOf(w)).Exited?
    ensures Run(w).end == EndOf(StopPointOf(w))
    ensures Released(Run(w).trace) == Reverse(HeldAt(w))
  {
    EndByStopPoint(w);
    HeldAndReleased(w);
  }

  /** A failed `os.MkdirTemp` releases only the loop device. */
  lemma MkdirFailureDetachesOnly(w: World)
    requires StopPointOf(w) == MkdirFailedStop && Attached(w)
    ensures Run(w).end == Returned
    ensures Released(Run(w).trace) == [LoopDevice(DeviceOf(w))]
  {
    assert HeldAt(w) == [LoopDevice(DeviceOf(w))];
    ReleasedOnReturn(w);
    ReverseOne(LoopDevice(DeviceOf(w)));
  }

  /** A failed mount removes the directory, then detaches the device; there
      is nothing to unmount. */
  lemma MountFailureReleases(w: World)
    requires StopPointOf(w) == MountFailed && Attached(w) && w.mkdir.MkdirCreated?
    ensures Run(w).end == Returned
    ensures Released(Run(w).trace) == [MountDirectory(w.mkdir.path), LoopDevice(DeviceOf(w))]
  {
    var device, directory := LoopDevice(DeviceOf(w)), MountDirectory(w.mkdir.path);
    assert HeldAt(w) == [device, directory];
    ReleasedOnReturn(w);
    ReverseTwo(device, directory);
  }

  /** Once the guest is mounted, whether or not customisation succeeds,
      releases are attempted as unmount, remove the directory, detach: the
      reverse of acquisition. */
  lemma MountedRunReleases(w: World)
    requires AfterMount(StopPointOf(w)) && Attached(w) && w.mkdir.MkdirCreated?
    ensures Run(w).end == Returned
    ensures Released(Run(w).trace)
            == [Mounted(PartitionName(DeviceOf(w)), w.mkdir.path), MountDirectory(w.mkdir.path), LoopDevice(DeviceOf(w))]
  {
    var device, directory := LoopDevice(DeviceOf(w)), MountDirectory(w.mkdir.path);
    var mount := Mounted(PartitionName(DeviceOf(w)), w.mkdir.path);
    assert HeldAt(w) == [device, directory, mount];
    ReleasedOnReturn(w);
    ReverseThree(device, directory, mount);
  }

  /** The image is downloaded, from the configured URL, when it is reported
      not to exist. */
  lemma DownloadWhenAbsent(w: World)
    requires Accepted(w) && w.imageStat.NotExist?
    ensures Call(Download(ConfigOf(w).imageURL, Qcow2ImagePath)) in Run(w).trace
  {
    RunByStopPoint(w);
    ForwardDownload(w);
  }

  /** The image is not downloaded when `os.Stat` reports anything but
      not-exist, including an error of another kind. */
  lemma NoDownloadWhenNotAbsent(w: World)
    requires !w.imageStat.NotExist?
    ensures forall e :: e in Run(w).trace && e.Call? ==> !e.step.Download?
  {
    CallsAreForward(w);
    if Accepted(w) {
      ForwardDownload(w);
    } else {
      ForwardNoDownload(w);
    }
  }

  /** Every mount `main` attempts is of the first partition of the attached
      device onto the temporary directory. */
  lemma MountIsDeviceFirstPartition(w: World)
    ensures forall e :: e in Run(w).trace && e.Call? && e.step.MountPartition? ==>
              && Attached(w) && w.mkdir.MkdirCreated?
              && e.step == MountPartition(PartitionName(DeviceOf(w)), w.mkdir.path)
  {
    CallsAreForward(w);
    ForwardMount(w);
  }

  lemma HeldMount(w: World)
    ensures forall x :: x in HeldAt(w) && x.Mounted? ==>
              && Attached(w) && w.mkdir.MkdirCreated?
              && x == Mounted(PartitionName(DeviceOf(w)), w.mkdir.path)
  {
  }

  /** Every mount `main` holds is of the first partition of the attached
      device onto the temporary directory. */
  lemma HeldMountIsDeviceFirstPartition(w: World)
    ensures forall x :: x in Acquired(Run(w).trace) && x.Mounted? ==>
              && Attached(w) && w.mkdir.MkdirCreated?
              && x == Mounted(PartitionName(DeviceOf(w)), w.mkdir.path)
  {
    HeldAndReleased(w);
    HeldMount(w);
  }

  /** Errors of release actions are discarded: they change neither how
      `main` ends nor which releases run. */
  lemma ReleaseErrorsDiscarded(w: World, results: ReleaseResults)
    ensures Run(w.(releases := results)).end == Run(w).end
    ensures Released(Run(w.(releases := results)).trace) == Released(Run(w).trace)
  {
    var w' := w.(releases := results);
    assert StopPointOf(w') == StopPointOf(w);
    assert HeldAt(w') == HeldAt(w);
    EndByStopPoint(w);
    EndByStopPoint(w');
    HeldAndReleased(w);
    HeldAndReleased(w');
  }

  /** The forward part of a run is a prefix of its trace. */
  lemma ForwardIsPrefix(w: World)
    ensures |ForwardAt(w)| <= |Run(w).trace|
    ensures Run(w).trace[..|ForwardAt(w)|] == ForwardAt(w)
  {
    RunByStopPoint(w);
  }

  /** A suffix of a prefix `f` of `t`, found again in `t`. */
  lemma PrefixSlice<T>(t: seq<T>, f: seq<T>, k: nat, c: seq<T>)
    requires |f| <= |t| && t[..|f|] == f
    requires k < |f| && f[k + 1..] == c
    ensures k + |c| < |t|
    ensures t[k] == f[k]
    ensures t[k + 1..k + 1 + |c|] == c
  {
    assert |f| == k + 1 + |c|;
    assert t[k + 1..k + 1 + |c|] == t[..|f|][k + 1..];
  }

  /** With the guest mounted, the customisation stages run right after the
      mount is acquired and in `customizeMount`'s order. */
  lemma GuestStagesFollowMount(w: World)
    requires AfterMount(StopPointOf(w)) && Attached(w) && w.mkdir.MkdirCreated?
    ensures MountEventIndex(w) + |GuestStages(w, w.mkdir.path)| < |Run(w).trace|
    ensures Run(w).trace[MountEventIndex(w)] == Acquire(Mounted(PartitionName(DeviceOf(w)), w.mkdir.path))
    ensures Run(w).trace[MountEventIndex(w) + 1..MountEventIndex(w) + 1 + |GuestStages(w, w.mkdir.path)|]
            == GuestCalls(GuestStages(w, w.mkdir.path))
  {
    var t, f := Run(w).trace, ForwardAt(w);
    ForwardIsPrefix(w);
    ForwardGuest(w);
    PrefixSlice(t, f, MountEventIndex(w), GuestCalls(GuestStages(w, w.mkdir.path)));
  }

  /** Package installation is reached exactly when customisation gets past
      the cloud-init stage. */
  lemma InstallReachedUnlessCloudInitFails(w: World)
    requires AfterMount(StopPointOf(w))
    ensures StopPointOf(w) == CustomizeFailed <==> |GuestStages(w, w.mkdir.path)| == 1
  {
  }
}
