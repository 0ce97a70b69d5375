# chosi `main.go`: resource lifecycle of an image customisation run

chosi downloads an Ubuntu cloud image, converts it from qcow2 to raw, and
attaches it to a loop device. It then mounts the first partition of that
device on a temporary directory and writes a cloud-init drop-in into the
mounted guest.

This project models `main` as a state machine over abstract host actions
and proves what it acquires, in which order it releases, and how it ends.
The outcome of every host action is an input field of a `World`:

- the `-config` flag;
- what opening and decoding the configuration file produced;
- `os.Stat` on the image (present, not-exist, or another error);
- the download;
- `qemu-img convert`;
- what `losetup` printed;
- `os.MkdirTemp`;
- `mount`;
- the four filesystem calls of `configureCloudInit`;
- the three release actions.

Modules:

- `Results`: `Option`, `Result` and `Status` wrappers.
- `Config`: the configuration record and `ParseConfig`'s validation.
- `Naming`: the loop-device name trimmed from `losetup`'s output, and its
  first-partition name `<device>p1`.
- `Customize`: `configureCloudInit` (with the file handles it opens and
  closes), `installExtraPackages` and `customizeMount`.
- `Traces`: resources, calls and the trace events of a run. It also holds
  the facts about LIFO stacks and dependency order.
- `Lifecycle`: `main` itself. Go's `defer` becomes an explicit stack of
  resources. Returning from `main` (or panicking) unwinds that stack, top
  first; `os.Exit` skips it.
- `LifecycleFacts`: an independent classification of runs by the point
  where they stop, and the per-case properties proved against `Run`.
- `UnmountGuard`: what the deferred calls do after a failed unmount, and a
  corrected unwinding, `GuardedRun`, that never removes the mount
  directory or detaches the device while the guest is still mounted on
  them (see "## Findings").

Exit behaviour follows the code:

- A failed download ends with `os.Exit(1)`.
- A failed conversion ends with `os.Exit(2)`.
- An empty `losetup` output makes the slice expression in
  `attachLoopDevice` panic, which is exit status 2 with no deferred call
  pending.
- Once `flag.Parse` has returned, every other failure makes `main` return,
  so the status is 0. With no `-config` flag, `main` prints the usage text.
  A rejected configuration, or a failed attach, mkdtemp, mount or
  customisation, is logged. `main` has no distinct status per
  failure.

`Run` unwinds the defer stack as `main.go` does: every deferred call runs
and its error is discarded. `Traces.ReleasesSafe` is the property that no
directory is removed, and no device detached, while a mount on it is
still held. `Run` breaks it when the unmount fails, and `GuardedRun` keeps
it.

## Model

| member | source | states |
|---|---|---|
| Config.ParseConfig | main.go:170-191 | the configuration is accepted iff it opened, decoded, and has a non-empty image URL and cloud-init path, and the accepted value is the decoded record; otherwise the error is open, decode, missing image URL (checked first) or missing cloud-init path |
| Config.ExtraPackagesNeverRequired | main.go:182-190 | the package list never decides acceptance, nor the error a rejected configuration reports |
| Naming.LoopDeviceName | main.go:69-71 | the device name is the output without its last character: one shorter, and the output is the name plus that character |
| Naming.LoopDeviceNameRoundTrip | main.go:60-71 | trimming `losetup`'s output of a device name and its terminating character gives the device name back |
| Naming.PartitionName | main.go:76 | the partition name starts with the device name and ends with "p1" |
| Naming.PartitionNameRoundTrip | main.go:76 | stripping "p1" inverts the partition naming in both directions |
| Naming.PartitionNameInjective | main.go:76 | distinct devices never give the same partition name |
| Customize.CloudInitDestination | main.go:118 | the drop-in path is the mount directory followed by /etc/cloud/cloud.cfg.d/chosi.cfg |
| Customize.ConfigureCloudInit | main.go:117-140 | success iff create, open and close all succeed; the reported error is the first failing one of those three; the destination is opened first; every opened handle is closed except when the source cannot be opened, which leaves the destination open |
| Customize.CopyErrorIgnored | main.go:131 | a failed copy changes neither the handles nor the returned error |
| Customize.InstallExtraPackages | main.go:142-144 | package installation reports no error, whatever the package list |
| Customize.CustomizeMount | main.go:146-158 | cloud-init is configured first; packages are installed iff that succeeded; a cloud-init error is returned wrapped; otherwise the result is the installer's |
| Customize.CustomizeFailsOnlyInCloudInit | main.go:146-158 | customisation succeeds iff the drop-in is created, the source opened and the drop-in closed, and both stages run exactly when it succeeds |
| Traces.ReverseOfOrderedAcquisition | main.go:235-252 | a stack filled in dependency order (device, directory, mount) unwinds without releasing anything before what depends on it |
| Lifecycle.Defer | main.go:235-252 | a deferred release pushes the resource on top of the stack and records its acquisition |
| Lifecycle.MainBody | main.go:193-261 | when the forward part stops, the defer stack holds exactly what was acquired, in order, once each, in dependency order, and an `os.Exit` happens only with an empty stack |
| Lifecycle.Unwind | main.go:235-252 | running the deferred calls releases the stack top first, one release per entry, even when a release fails |
| Lifecycle.UnwindAfter | main.go:235-252 | the forward trace followed by unwinding releases each acquired resource exactly once, in reverse and dependency order, after every other event |
| Lifecycle.RunReleasesMirror | main.go:193-261 | an exiting run acquires and releases nothing; otherwise releases are the reverse of acquisitions, each acquired resource is released exactly once, and releases come after all other events |
| LifecycleFacts.RunByStopPoint | main.go:193-261 | each run is the forward trace of the point where it stops, followed (unless it exited) by the release of what it holds there |
| LifecycleFacts.ExitCodes | main.go:198-259 | status 1 iff the download failed, `os.Exit(2)` iff conversion failed, a panic iff `losetup` printed nothing, and status 0 for every other way through |
| LifecycleFacts.HeldAndReleased | main.go:230-252 | what a run acquires is what its stop point holds, released in reverse unless it exited |
| LifecycleFacts.EarlyStopAcquiresNothing | main.go:193-234 | a run that stops before the loop device is attached acquires and releases nothing |
| LifecycleFacts.ConfigFailureDoesNothing | main.go:197-208 | a missing flag or rejected configuration returns after at most reading the configuration |
| LifecycleFacts.DownloadWhenAbsent | main.go:210-217 | with an accepted configuration and a not-exist stat result, the configured URL is downloaded to ubuntu.qcow2.img |
| LifecycleFacts.NoDownloadWhenNotAbsent | main.go:210-220 | no download happens when stat reports the file present or fails in another way |
| LifecycleFacts.AttachFailureStopsEarly | main.go:230-234 | a failed attach returns with neither a mount directory, a mount nor a guest stage attempted, and releases nothing |
| LifecycleFacts.MkdirFailureDetachesOnly | main.go:239-243 | a failed temporary directory returns and releases only the loop device |
| LifecycleFacts.MountFailureReleases | main.go:247-251 | a failed mount returns, removes the directory, then detaches the device |
| LifecycleFacts.MountedRunReleases | main.go:252-259 | once mounted, whether customisation fails or not, the run returns and unmounts, removes the directory, then detaches |
| LifecycleFacts.MountIsDeviceFirstPartition | main.go:247 | every mount attempted is of the attached device's first partition onto the temporary directory |
| LifecycleFacts.HeldMountIsDeviceFirstPartition | main.go:247-252 | every mount held is of the attached device's first partition onto the temporary directory |
| LifecycleFacts.ReleaseErrorsDiscarded | main.go:235-252 | errors of the deferred release calls change neither how `main` ends nor which releases run |
| LifecycleFacts.GuestStagesFollowMount | main.go:252-255 | the customisation stages occupy the events right after the mount's acquisition, in `customizeMount`'s order |
| LifecycleFacts.InstallReachedUnlessCloudInitFails | main.go:255-259 | with the guest mounted, package installation is reached iff the cloud-init stage does not fail |
| UnmountGuard.RemoveAfterFailedUnmount | main.go:244-252 | as written: when the unmount fails, the last three events are the failed unmount, then the directory's removal and the device's detach, and the run is not release-safe |
| UnmountGuard.DropInLeftOpenInsideMount | main.go:117-128 | when the drop-in is created but the cloud-init source cannot be opened, customisation fails with the drop-in, which lies inside the mount directory, still open |
| UnmountGuard.GuardedRunSafe | main.go:235-252 | corrected: the guarded run ends as `main` does, and never releases a directory or device while a mount on it is held |
| UnmountGuard.GuardedRunAgrees | main.go:235-252 | corrected: whenever the unmount succeeds or the run never mounts the guest, the guarded run is exactly `main`'s run |
| UnmountGuard.GuardedStopsAfterFailedUnmount | main.go:244-252 | corrected: after a failed unmount, the guarded run's last event is that unmount, so the directory and the device stay in place |

## Left out

- HTTP download, `qemu-img`, `losetup`, `mount`, `umount`, `os.RemoveAll`, `os.MkdirTemp` and `os.Stat` are host actions. Their outcomes are inputs of the `World` rather than computed.
- Opening a file and JSON decoding are library calls. `ParseConfig` receives their combined result (unopenable, malformed, or a decoded record).
- The partially filled record that `ParseConfig` returns alongside an error is not modelled: `main` discards it.
- `ParseConfig` opens the configuration file (main.go:171) and never closes it. The handle leaks until the process ends. It lies outside the mount directory, so it does not affect the unmount or the rest of the lifecycle, and the model does not track it.
- Command-line parsing beyond the value of `-config` is left out. So are `flag.Usage` output and all `slog` logging: they do not change control flow.
- `flag.Parse` runs with `flag.ExitOnError`. It ends the process itself with status 2 on an unknown or malformed flag and with status 0 on `-h` or `-help`, before any line of `main` after it runs. The model starts from the parsed value of `-config`.
- Go strings are byte strings. The model uses `seq<char>`, which makes no difference to trimming one terminator or appending "p1" on ASCII device names.
- Naming.LoopDeviceName: requires a non-empty output. The Go slice expression panics on an empty one, and `Lifecycle.MainBody` models that panic as the `Panicked` ending.
- Customize.CloudInitDestination: `path.Join` is modelled as concatenation, and its cleaning of `.`, `..` and doubled separators is left out. `os.MkdirTemp` joins `os.TempDir()` (the unmodified `$TMPDIR`) with the generated name without cleaning it. The model is exact when that path is clean, as it is with the default `/tmp`; otherwise `path.Join` gives a cleaned path to the same file.
- The name pattern `mount*` of the temporary directory is not modelled. The directory's path is an input.
- The closing of the HTTP response body and output file inside `downloadFile` is left out. It only affects whether the download succeeded.
- What `unmountLoopDevice` and `detachLoopDevice` would do to a busy mount or device is left to their outcome fields. `GuardedRun` only decides which of them is attempted.

## Findings

| source | as written | input that shows it | evidently intended | confidence | as-written member | corrected member |
|---|---|---|---|---|---|---|
| main.go:244-252 | the error of the deferred `unmountLoopDevice` is discarded, so the deferred `os.RemoveAll` of the mount directory and the detach of the loop device run while the guest is still mounted | a mounted run whose `umount` fails, e.g. one where the drop-in is created but `cloudinit_config_path` cannot be opened (main.go:125-128), which leaves the drop-in open inside the guest | leave the directory and the device in place while a mount on them is held | medium, not executed | UnmountGuard.RemoveAfterFailedUnmount | UnmountGuard.GuardedRunSafe |
