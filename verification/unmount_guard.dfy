/** What a failed unmount leads to (main.go:235-252). `main` discards the
    error of the deferred `unmountLoopDevice`, so the deferred `os.RemoveAll`
    and `losetup -d` that run after it act on a directory and a device the
    guest is still mounted on; removing the directory then deletes the
    guest's files. This module shows that, and defines the unwinding that
    leaves both in place instead. */
module UnmountGuard {
  import opened Config
  import opened Naming
  import opened Customize
  import opened Traces
  import opened Lifecycle
  import opened LifecycleFacts

  /** The three releases of a mounted run, written out. */
  lemma UnwindThree(a: Resource, b: Resource, c: Resource, results: ReleaseResults)
    ensures Unwind([a, b, c], results)
            == [Release(c, ReleaseSucceeds(results, c)), Release(b, ReleaseSucceeds(results, b)),
                Release(a, ReleaseSucceeds(results, a))]
  {
    assert [a, b, c][..2] == [a, b];
    assert [a, b][..1] == [a];
    assert Unwind([a], results) == [Release(a, ReleaseSucceeds(results, a))];
  }

  /** Unwinding a device, a directory and a mount on them after a forward
      trace that acquired the mount: if the unmount fails, the directory's
      removal is still attempted with the mount held. */
  lemma FailedUnmountTail(forward: seq<Event>, device: Resource, directory: Resource, mount: Resource, results: ReleaseResults)
    requires forall i :: 0 <= i < |forward| ==> !forward[i].Release?
    requires mount in Acquired(forward) && mount.Mounted? && directory.MountDirectory? && device.LoopDevice?
    requires DependsOn(mount, directory)
    requires !results.unmountOk
    ensures var t := forward + Unwind([device, directory, mount], results);
            && |t| >= 3
            && t[|t| - 3] == Release(mount, false)
            && t[|t| - 2] == Release(directory, results.removeOk)
            && t[|t| - 1] == Release(device, results.detachOk)
            && !ReleasesSafe(t, {})
  {
    var tail := [Release(mount, false), Release(directory, results.removeOk), Release(device, results.detachOk)];
    UnwindThree(device, directory, mount, results);
    HeldAfterNoRelease(forward, {});
    HeldAfterAppend(forward, tail, {});
    var held := HeldAfter(forward, {});
    assert mount in held;
    assert AfterEvent(held, tail[0]) == held;
    assert tail[1..][0] == Release(directory, results.removeOk);
  }

  /** A run that got past the mount unwinds the device, the directory and
      the mount after its forward trace, which acquired the mount. */
  lemma MountedRunTrace(w: World)
    requires AfterMount(StopPointOf(w)) && Attached(w) && w.mkdir.MkdirCreated?
    ensures var mount := Mounted(PartitionName(DeviceOf(w)), w.mkdir.path);
            && Run(w).trace
               == ForwardAt(w) + Unwind([LoopDevice(DeviceOf(w)), MountDirectory(w.mkdir.path), mount], w.releases)
            && mount in Acquired(ForwardAt(w))
  {
    assert HeldAt(w) == [LoopDevice(DeviceOf(w)), MountDirectory(w.mkdir.path), Mounted(PartitionName(DeviceOf(w)), w.mkdir.path)];
    assert !EndOf(StopPointOf(w)).Exited?;
    RunByStopPoint(w);
  }

  /** As written: when the unmount fails, the mount directory is removed and
      then the device detached anyway, while the guest is still mounted on
      both. */
  lemma RemoveAfterFailedUnmount(w: World)
    requires AfterMount(StopPointOf(w)) && Attached(w) && w.mkdir.MkdirCreated?
    requires !w.releases.unmountOk
    ensures var t := Run(w).trace;
            && |t| >= 3
            && t[|t| - 3] == Release(Mounted(PartitionName(DeviceOf(w)), w.mkdir.path), false)
            && t[|t| - 2] == Release(MountDirectory(w.mkdir.path), w.releases.removeOk)
            && t[|t| - 1] == Release(LoopDevice(DeviceOf(w)), w.releases.detachOk)
    ensures !ReleasesSafe(Run(w).trace, {})
  {
    var device, directory := LoopDevice(DeviceOf(w)), MountDirectory(w.mkdir.path);
    var mount := Mounted(PartitionName(DeviceOf(w)), w.mkdir.path);
    MountedRunTrace(w);
    ForwardHasNoReleases(w);
    assert DependsOn(mount, directory);
    FailedUnmountTail(ForwardAt(w), device, directory, mount, w.releases);
  }

  /** The unwinding `main` evidently intends: top of the stack first, as
      `Unwind` does, except that a resource is left in place while one that
      depends on it is still held, its own release having failed or been
      skipped. */
  function GuardedUnwind(stack: seq<Resource>, results: ReleaseResults, stuck: set<Resource>): seq<Event>
  {
    if stack == [] then []
    else
      var top := stack[|stack| - 1];
      var rest := stack[..|stack| - 1];
      if exists m :: m in stuck && DependsOn(m, top) then GuardedUnwind(rest, results, stuck + {top})
      else if ReleaseSucceeds(results, top) then [Release(top, true)] + GuardedUnwind(rest, results, stuck)
      else [Release(top, false)] + GuardedUnwind(rest, results, stuck + {top})
  }

  /** `main` with the guarded unwinding in place of the deferred calls. */
  function GuardedRun(w: World): RunResult
  {
    var b := MainBody(w);
    if b.end.Exited? then RunResult(b.frame.trace, b.end)
    else RunResult(b.frame.trace + GuardedUnwind(b.frame.stack, w.releases, {}), b.end)
  }

  /** No resource reaches the guarded unwinding's release while something
      held depends on it, provided everything held is still on the stack or
      already stuck. */
  lemma {:induction false} GuardedUnwindSafe(stack: seq<Resource>, results: ReleaseResults, stuck: set<Resource>, held: set<Resource>)
    requires AcquisitionOrdered(stack)
    requires forall m :: m in held ==> m in stack || m in stuck
    ensures ReleasesSafe(GuardedUnwind(stack, results, stuck), held)
  {
    if stack != [] {
      var top := stack[|stack| - 1];
      var rest := stack[..|stack| - 1];
      assert AcquisitionOrdered(rest);
      assert forall m :: m in stack ==> m in rest || m == top;
      if exists m :: m in stuck && DependsOn(m, top) {
        GuardedUnwindSafe(rest, results, stuck + {top}, held);
      } else {
        forall m | m in held
          ensures !DependsOn(m, top)
        {
          if m in rest {
            var i :| 0 <= i < |rest| && rest[i] == m;
            assert stack[i] == m;
          }
        }
        var ok := ReleaseSucceeds(results, top);
        var next := if ok then stuck else stuck + {top};
        var t := [Release(top, ok)] + GuardedUnwind(rest, results, next);
        GuardedUnwindSafe(rest, results, next, AfterEvent(held, Release(top, ok)));
        assert t[1..] == GuardedUnwind(rest, results, next);
      }
    }
  }

  /** Corrected: no directory is removed, and no device detached, while
      the guest is still mounted on it. */
  lemma GuardedRunSafe(w: World)
    ensures GuardedRun(w).end == Run(w).end
    ensures ReleasesSafe(GuardedRun(w).trace, {})
  {
    var f := MainBody(w).frame;
    assert Consistent(f);
    HeldAfterNoRelease(f.trace, {});
    if !MainBody(w).end.Exited? {
      var tail := GuardedUnwind(f.stack, w.releases, {});
      GuardedUnwindSafe(f.stack, w.releases, {}, HeldAfter(f.trace, {}));
      HeldAfterAppend(f.trace, tail, {});
    }
  }

  /** Without a failed unmount nothing is stuck that anything depends on,
      and the guarded unwinding is the one `main` performs. */
  lemma {:induction false} GuardedUnwindAgrees(stack: seq<Resource>, results: ReleaseResults, stuck: set<Resource>)
    requires results.unmountOk || forall r :: r in stack ==> !r.Mounted?
    requires forall m :: m in stuck ==> !m.Mounted?
    ensures GuardedUnwind(stack, results, stuck) == Unwind(stack, results)
  {
    if stack != [] {
      var top := stack[|stack| - 1];
      var rest := stack[..|stack| - 1];
      assert forall r :: r in rest ==> r in stack;
      if ReleaseSucceeds(results, top) {
        GuardedUnwindAgrees(rest, results, stuck);
      } else {
        GuardedUnwindAgrees(rest, results, stuck + {top});
      }
    }
  }

  /** The correction changes only runs that mounted the guest and whose
      unmount fails. */
  lemma GuardedRunAgrees(w: World)
    requires w.releases.unmountOk || !AfterMount(StopPointOf(w))
    ensures GuardedRun(w) == Run(w)
  {
    BodyByStopPoint(w);
    assert MainBody(w).frame.stack == HeldAt(w);
    GuardedUnwindAgrees(HeldAt(w), w.releases, {});
  }

  /** The guarded unwinding of a device, a directory and a mount on both
      stops after a failed unmount. */
  lemma GuardedAfterFailedUnmount(device: Resource, directory: Resource, mount: Resource, results: ReleaseResults)
    requires mount.Mounted? && DependsOn(mount, directory) && DependsOn(mount, device)
    requires !results.unmountOk
    ensures GuardedUnwind([device, directory, mount], results, {}) == [Release(mount, false)]
  {
    assert [device, directory, mount][..2] == [device, directory];
    assert [device, directory][..1] == [device];
    assert ({} + {mount}) == {mount};
    assert mount in {mount} && DependsOn(mount, directory);
    assert GuardedUnwind([device, directory], results, {mount}) == GuardedUnwind([device], results, {mount} + {directory});
    assert mount in {mount} + {directory} && DependsOn(mount, device);
    assert GuardedUnwind([device], results, {mount} + {directory}) == [];
  }

  /** Corrected: after a failed unmount the guarded run attempts no other
      release, leaving the directory and the device in place. */
  lemma GuardedStopsAfterFailedUnmount(w: World)
    requires AfterMount(StopPointOf(w)) && Attached(w) && w.mkdir.MkdirCreated?
    requires !w.releases.unmountOk
    ensures GuardedRun(w).trace == ForwardAt(w) + [Release(Mounted(PartitionName(DeviceOf(w)), w.mkdir.path), false)]
  {
    var device, directory := LoopDevice(DeviceOf(w)), MountDirectory(w.mkdir.path);
    var mount := Mounted(PartitionName(DeviceOf(w)), w.mkdir.path);
    assert HeldAt(w) == [device, directory, mount];
    BodyByStopPoint(w);
    GuardedAfterFailedUnmount(device, directory, mount, w.releases);
  }

  /** A way into the failed unmount: when the cloud-init source cannot be
      opened, customisation fails with the drop-in it created inside the
      mounted guest still open, and `main` goes on to unmount
      (`LifecycleFacts.MountedRunReleases`). */
  lemma DropInLeftOpenInsideMount(w: World)
    requires AfterMount(StopPointOf(w)) && w.mkdir.MkdirCreated?
    requires w.cloudInit.createOk && !w.cloudInit.openOk
    ensures StopPointOf(w) == CustomizeFailed
    ensures var path := w.mkdir.path;
            var handles := CustomizeMount(path, ConfigOf(w).cloudInitConfigPath, ConfigOf(w).extraPackages, w.cloudInit).handles;
            && handles == [Opened(Destination(CloudInitDestination(path)))]
            && !AllClosed(handles)
            && CloudInitDestination(path)[..|path|] == path
  {
  }
}
