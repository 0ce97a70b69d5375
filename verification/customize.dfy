/** Mutation of the mounted guest: `configureCloudInit`,
    `installExtraPackages` and `customizeMount` (main.go:117-158). */
module Customize {
  import opened Results

  /** Where the cloud-init drop-in lands, relative to the guest root. */
  const CloudInitDropIn: string := "/etc/cloud/cloud.cfg.d/chosi.cfg"

  /** The destination of the drop-in under the mount directory. `path.Join`
      is modelled as concatenation. That is exact when the temporary
      directory's path is clean, as it is with the default `/tmp`; under a
      `TMPDIR` such as `./tmp` or `/var//tmp`, `path.Join` gives a cleaned
      path to the same file. */
  function CloudInitDestination(mountPath: string): (destination: string)
    ensures |destination| == |mountPath| + |CloudInitDropIn|
    ensures destination[..|mountPath|] == mountPath
    ensures destination[|mountPath|..] == CloudInitDropIn
  {
    mountPath + CloudInitDropIn
  }

  /** Whether each filesystem call `configureCloudInit` makes succeeds:
      creating the destination, opening the source, copying, closing the
      destination. */
  datatype CloudInitEnv = CloudInitEnv(createOk: bool, openOk: bool, copyOk: bool, closeOk: bool)

  /** The three failures `configureCloudInit` reports. */
  datatype CloudInitError = CreateFailed | OpenFailed | CloseFailed

  /** The two files `configureCloudInit` opens. */
  datatype Handle = Destination(path: string) | Source(path: string)

  datatype HandleEvent = Opened(handle: Handle) | Closed(handle: Handle)

  /** The handles opened and closed by one call, and its returned error. */
  datatype CloudInitRun = CloudInitRun(handles: seq<HandleEvent>, result: Status<CloudInitError>)

  /** Every handle opened in `events` is also closed there. */
  predicate AllClosed(events: seq<HandleEvent>)
  {
    forall i :: 0 <= i < |events| && events[i].Opened? ==> Closed(events[i].handle) in events
  }

  /** `configureCloudInit`: create the destination, open the source, copy
      (its error is dropped), close the destination and report that error;
      the source is closed by a deferred call once the source was opened. */
  function ConfigureCloudInit(mountPath: string, sourcePath: string, env: CloudInitEnv): (run: CloudInitRun)
    ensures run.result.NoError? <==> env.createOk && env.openOk && env.closeOk
    ensures !env.createOk ==> run.result == Error(CreateFailed)
    ensures env.createOk && !env.openOk ==> run.result == Error(OpenFailed)
    ensures env.createOk && env.openOk && !env.closeOk ==> run.result == Error(CloseFailed)
    // the destination is created before the source is opened
    ensures env.createOk ==> |run.handles| > 0 && run.handles[0] == Opened(Destination(CloudInitDestination(mountPath)))
    // only a failed open of the source leaves a handle open: the destination
    ensures AllClosed(run.handles) <==> !(env.createOk && !env.openOk)
  {
    var destination := Destination(CloudInitDestination(mountPath));
    var source := Source(sourcePath);
    if !env.createOk then
      CloudInitRun([], Error(CreateFailed))
    else if !env.openOk then
      var run := CloudInitRun([Opened(destination)], Error(OpenFailed));
      assert run.handles[0].Opened? && Closed(destination) !in run.handles;
      run
    else
      var handles := [Opened(destination), Opened(source), Closed(destination), Closed(source)];
      CloudInitRun(handles, if env.closeOk then NoError else Error(CloseFailed))
  }

  /** A failed copy never changes what `configureCloudInit` does or reports. */
  lemma CopyErrorIgnored(mountPath: string, sourcePath: string, env: CloudInitEnv, copyOk: bool)
    ensures ConfigureCloudInit(mountPath, sourcePath, env.(copyOk := copyOk))
            == ConfigureCloudInit(mountPath, sourcePath, env)
  {
  }

  /** The error type of `installExtraPackages`; this revision never produces it. */
  datatype PackageError = InstallFailed

  /** `installExtraPackages` is a stub in this revision: it returns nil for
      every mount path and package list. */
  function InstallExtraPackages(mountPath: string, packages: seq<string>): (r: Status<PackageError>)
    ensures r == NoError
  {
    NoError
  }

  /** The guest mutations `customizeMount` invokes. */
  datatype Stage =
    | ConfigureCloudInitStage(destination: string, source: string)
    | InstallExtraPackagesStage(mountPath: string, packages: seq<string>)

  datatype CustomizeError =
    | CloudInitFailed(cloudInit: CloudInitError)
    | PackagesFailed(packages: PackageError)

  /** The stages invoked, the handle events of the cloud-init stage, and the
      returned error. */
  datatype CustomizeRun = CustomizeRun(
    stages: seq<Stage>,
    handles: seq<HandleEvent>,
    result: Status<CustomizeError>)

  /** `customizeMount`: cloud-init first; package installation only when it
      succeeded, and then its error is the result. */
  function CustomizeMount(mountPath: string, sourcePath: string, packages: seq<string>, env: CloudInitEnv)
    : (run: CustomizeRun)
    ensures var configure := ConfigureCloudInitStage(CloudInitDestination(mountPath), sourcePath);
            var install := InstallExtraPackagesStage(mountPath, packages);
            && (run.stages == [configure] || run.stages == [configure, install])
            && (install in run.stages <==> ConfigureCloudInit(mountPath, sourcePath, env).result.NoError?)
    ensures ConfigureCloudInit(mountPath, sourcePath, env).result.Error? ==>
              run.result == Error(CloudInitFailed(ConfigureCloudInit(mountPath, sourcePath, env).result.error))
    ensures ConfigureCloudInit(mountPath, sourcePath, env).result.NoError? ==>
              (run.result.NoError? <==> InstallExtraPackages(mountPath, packages).NoError?)
    ensures run.handles == ConfigureCloudInit(mountPath, sourcePath, env).handles
  {
    var configure := ConfigureCloudInitStage(CloudInitDestination(mountPath), sourcePath);
    var cloudInit := ConfigureCloudInit(mountPath, sourcePath, env);
    match cloudInit.result
    case Error(e) => CustomizeRun([configure], cloudInit.handles, Error(CloudInitFailed(e)))
    case NoError =>
      var install := InstallExtraPackagesStage(mountPath, packages);
      match InstallExtraPackages(mountPath, packages)
      case Error(e) => CustomizeRun([configure, install], cloudInit.handles, Error(PackagesFailed(e)))
      case NoError => CustomizeRun([configure, install], cloudInit.handles, NoError)
  }

  /** With the stub installer, customisation fails exactly when writing the
      cloud-init drop-in fails, and package installation is invoked exactly
      when it does not. */
  lemma CustomizeFailsOnlyInCloudInit(mountPath: string, sourcePath: string, packages: seq<string>, env: CloudInitEnv)
    ensures CustomizeMount(mountPath, sourcePath, packages, env).result.NoError?
            <==> env.createOk && env.openOk && env.closeOk
    ensures |CustomizeMount(mountPath, sourcePath, packages, env).stages| == 2
            <==> CustomizeMount(mountPath, sourcePath, packages, env).result.NoError?
  {
  }
}
