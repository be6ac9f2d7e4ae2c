/**
 Wrapping a container's command with the initialization runner (prepareContainerInit in
 internal/controller/container_init.go), and the runner's own reading of its arguments.
 */
module ContainerInit {
  import opened ApiServer

  datatype Mode = Disabled | Injected | BakedIn | Unsupported

  datatype Config = Config(mode: Mode, defaultUser: string, runAsUser: string)

  datatype Mount = Mount(name: string, path: string, readOnly: bool)

  datatype Volume = SecretVolume(name: string, secret: string) | EmptyDir(name: string) | OtherVolume(name: string)

  datatype Container = Container(name: string, command: seq<string>, args: seq<string>, mounts: seq<Mount>, terminationPath: string, terminationPolicy: string)

  datatype Pod = Pod(volumes: seq<Volume>, initContainers: seq<Container>, containers: seq<Container>, annotations: map<string, string>)

  /** The user-data Secret to mount and the hash of its bytes; None when containerInitData fails. */
  datatype Data = Data(secret: string, hash: string)

  datatype Result<+T> = Ok(value: T) | Err

  const BIN_VOLUME := "kw-container-init-bin"
  const DATA_VOLUME := "kw-container-init-data"
  const INSTALLER := "container-init-install"
  const BIN_PATH := "/opt/container-init"
  const DATA_PATH := "/run/container-init"
  const RUNNER := "/opt/container-init/container-init"
  const DATA_FILE := "/run/container-init/user-data"
  const HASH := "kubeworkspaces.io/container-init-data-hash"

  predicate LowerOrUnderscore(c: char) {
    'a' <= c <= 'z' || c == '_'
  }

  /** `^[a-z_][a-z0-9_-]{0,31}$` */
  predicate AccountName(s: string) {
    && 1 <= |s| <= 32
    && LowerOrUnderscore(s[0])
    && forall i | 1 <= i < |s| :: LowerOrUnderscore(s[i]) || '0' <= s[i] <= '9' || s[i] == '-'
  }

  predicate ValidIdentity(cfg: Config) {
    && (cfg.defaultUser != "" || cfg.runAsUser != "" ==> cfg.mode.Injected?)
    && (cfg.defaultUser != "" ==> AccountName(cfg.defaultUser))
    && (cfg.runAsUser != "" ==> AccountName(cfg.runAsUser))
    && cfg.runAsUser != "root"
  }

  predicate ReservedPath(path: string) {
    path == BIN_PATH || path == DATA_PATH || BIN_PATH + "/" <= path || DATA_PATH + "/" <= path
  }

  /** Nothing the user declared collides with what the wrapper adds. */
  ghost predicate NoConflict(pod: Pod)
    requires pod.containers != []
  {
    && (forall v <- pod.volumes :: v.name != BIN_VOLUME && v.name != DATA_VOLUME)
    && (forall c <- pod.initContainers :: c.name != INSTALLER)
    && (forall m <- pod.containers[0].mounts :: !ReservedPath(m.path))
  }

  /** When the wrapper accepts a template. `image` is the operator's installer image, already trimmed. */
  ghost predicate Accepts(cfg: Config, vm: bool, image: string, pod: Pod) {
    && (cfg.mode.Injected? || cfg.mode.BakedIn?)
    && ValidIdentity(cfg) && !vm && pod.containers != []
    && (cfg.mode.Injected? ==> image != "" && pod.containers[0].command != [] && pod.containers[0].command[0] != "")
    && NoConflict(pod)
  }

  /** The runner's options, in order. */
  function Options(cfg: Config, termination: string): seq<(string, string)> {
    [("--user-data", DATA_FILE), ("--termination-message", termination)]
    + (if cfg.defaultUser != "" then [("--default-user", cfg.defaultUser)] else [])
    + (if cfg.runAsUser != "" then [("--run-as", cfg.runAsUser)] else [])
  }

  function Flatten(options: seq<(string, string)>): seq<string> {
    if options == [] then []
    else Flatten(options[..|options| - 1]) + [options[|options| - 1].0, options[|options| - 1].1]
  }

  lemma FlattenSnoc(options: seq<(string, string)>, option: (string, string))
    ensures Flatten(options + [option]) == Flatten(options) + [option.0, option.1]
  {
    assert (options + [option])[..|options|] == options;
  }

  method Conflicts(pod: Pod) returns (conflict: bool)
    requires pod.containers != []
    ensures conflict == !NoConflict(pod)
  {
    for i := 0 to |pod.volumes|
      invariant forall k :: 0 <= k < i ==> pod.volumes[k].name != BIN_VOLUME && pod.volumes[k].name != DATA_VOLUME
    {
      if pod.volumes[i].name == BIN_VOLUME || pod.volumes[i].name == DATA_VOLUME {
        assert pod.volumes[i] in pod.volumes;
        return true;
      }
    }
    for i := 0 to |pod.initContainers|
      invariant forall k :: 0 <= k < i ==> pod.initContainers[k].name != INSTALLER
    {
      if pod.initContainers[i].name == INSTALLER {
        assert pod.initContainers[i] in pod.initContainers;
        return true;
      }
    }
    var mounts := pod.containers[0].mounts;
    for i := 0 to |mounts|
      invariant forall k :: 0 <= k < i ==> !ReservedPath(mounts[k].path)
    {
      if ReservedPath(mounts[i].path) {
        assert mounts[i] in mounts;
        return true;
      }
    }
    return false;
  }

  /** What the wrapper makes of an accepted template; `installer` is the init container that copies the runner. */
  function Prepared(cfg: Config, data: Data, installer: Container, pod: Pod): Pod
    requires pod.containers != []
  {
    var main := pod.containers[0];
    var seeded := main.(mounts := main.mounts + [Mount(DATA_VOLUME, DATA_PATH, true)]);
    var volumes := pod.volumes + [SecretVolume(DATA_VOLUME, data.secret)];
    var annotations := pod.annotations[HASH := data.hash];
    if cfg.mode.BakedIn? then
      Pod(volumes, pod.initContainers, [seeded] + pod.containers[1..], annotations)
    else
      var termination := if main.terminationPath == "" then "/dev/termination-log" else main.terminationPath;
      var policy := if main.terminationPolicy == "" then "File" else main.terminationPolicy;
      var wrapped := Container(main.name, [RUNNER],
                               Flatten(Options(cfg, termination)) + ["--"] + main.command + main.args,
                               seeded.mounts + [Mount(BIN_VOLUME, BIN_PATH, true)], termination, policy);
      Pod(volumes + [EmptyDir(BIN_VOLUME)], pod.initContainers + [installer], [wrapped] + pod.containers[1..], annotations)
  }

  /** The argument list of the runner: its options, the separator, the application. */
  method WrapArgs(cfg: Config, termination: string, argv: seq<string>) returns (args: seq<string>)
    ensures args == Flatten(Options(cfg, termination)) + ["--"] + argv
  {
    args := ["--user-data", DATA_FILE, "--termination-message", termination];
    ghost var options := [("--user-data", DATA_FILE)];
    FlattenSnoc([], options[0]);
    FlattenSnoc(options, ("--termination-message", termination));
    options := options + [("--termination-message", termination)];
    assert args == Flatten(options);
    if cfg.defaultUser != "" {
      FlattenSnoc(options, ("--default-user", cfg.defaultUser));
      options := options + [("--default-user", cfg.defaultUser)];
      args := args + ["--default-user", cfg.defaultUser];
    }
    if cfg.runAsUser != "" {
      FlattenSnoc(options, ("--run-as", cfg.runAsUser));
      options := options + [("--run-as", cfg.runAsUser)];
      args := args + ["--run-as", cfg.runAsUser];
    }
    assert options == Options(cfg, termination);
    args := args + ["--"] + argv;
  }

  /** prepareContainerInit, step by step on the generated template. */
  method PrepareContainerInit(cfg: Config, vm: bool, image: string, data: Option<Data>, installer: Container, template: Pod) returns (r: Result<Pod>)
    ensures cfg.mode.Disabled? ==> r == Ok(template)
    ensures !cfg.mode.Disabled? ==>
              r == if Accepts(cfg, vm, image, template) && data.Some? then Ok(Prepared(cfg, data.value, installer, template)) else Err
  {
    if cfg.mode.Disabled? {
      return Ok(template);
    }
    if (cfg.mode.Unsupported? || !ValidIdentity(cfg)) || vm || template.containers == [] {
      return Err;
    }
    var main := template.containers[0];
    if cfg.mode.Injected? && (image == "" || main.command == [] || main.command[0] == "") {
      return Err;
    }
    var conflict := Conflicts(template);
    if conflict || data.None? {
      return Err;
    }
    var pod := template;
    pod := pod.(volumes := pod.volumes + [SecretVolume(DATA_VOLUME, data.value.secret)]);
    main := main.(mounts := main.mounts + [Mount(DATA_VOLUME, DATA_PATH, true)]);
    pod := pod.(annotations := pod.annotations[HASH := data.value.hash]);
    if cfg.mode.BakedIn? {
      return Ok(pod.(containers := [main] + pod.containers[1..]));
    }
    var argv := main.command + main.args;
    main := main.(command := [RUNNER]);
    if main.terminationPath == "" {
      main := main.(terminationPath := "/dev/termination-log");
    }
    if main.terminationPolicy == "" {
      main := main.(terminationPolicy := "File");
    }
    var args := WrapArgs(cfg, main.terminationPath, argv);
    main := main.(args := args);
    assert args == Flatten(Options(cfg, main.terminationPath)) + ["--"] + template.containers[0].command + template.containers[0].args;
    main := main.(mounts := main.mounts + [Mount(BIN_VOLUME, BIN_PATH, true)]);
    pod := pod.(volumes := pod.volumes + [EmptyDir(BIN_VOLUME)], initContainers := pod.initContainers + [installer]);
    return Ok(pod.(containers := [main] + pod.containers[1..]));
  }

  // ---------------------------------------------------------------- the runner's reading

  const FLAGS := {"--user-data", "--termination-message", "--default-user", "--run-as"}

  /** What the runner was told: its options in order and the application it must execute. */
  datatype Invocation = Invocation(options: seq<(string, string)>, argv: seq<string>)

  /** Flag/value pairs are consumed up to the separator; everything after it is the application. */
  function ReadArgs(args: seq<string>, read: seq<(string, string)>): Option<Invocation> {
    if args == [] then None
    else if args[0] == "--" then Some(Invocation(read, args[1..]))
    else if args[0] in FLAGS && |args| >= 2 then ReadArgs(args[2..], read + [(args[0], args[1])])
    else None
  }

  /** Whatever the application's arguments are, even "--" or the runner's own flags, they come back exactly. */
  lemma {:induction false} OptionsReadBack(options: seq<(string, string)>, read: seq<(string, string)>, argv: seq<string>)
    requires forall o <- options :: o.0 in FLAGS
    ensures ReadArgs(Flatten(options) + ["--"] + argv, read) == Some(Invocation(read + options, argv))
  {
    var args := Flatten(options) + ["--"] + argv;
    if options == [] {
      assert args[1..] == argv && read + options == read;
    } else {
      FlattenCons(options);
      assert args[2..] == Flatten(options[1..]) + ["--"] + argv;
      OptionsReadBack(options[1..], read + [options[0]], argv);
      assert read + [options[0]] + options[1..] == read + options;
      assert options[0] == (args[0], args[1]);
    }
  }

  lemma {:induction false} FlattenCons(options: seq<(string, string)>)
    requires options != []
    ensures Flatten(options) == [options[0].0, options[0].1] + Flatten(options[1..])
  {
    var n := |options| - 1;
    if n > 0 {
      FlattenCons(options[..n]);
      assert options[..n][1..] == options[1..][..n - 1];
      FlattenSnoc(options[1..][..n - 1], options[n]);
      assert options[1..] == options[1..][..n - 1] + [options[n]];
    }
  }

  /**
   Transparency of the wrapper, first half: in injected mode the runner recovers exactly the command followed by
   the arguments, with the options the configuration asks for; in baked-in mode the command line is not touched.
   */
  lemma CommandLineIsRecovered(cfg: Config, data: Data, installer: Container, pod: Pod)
    requires pod.containers != []
    ensures cfg.mode.Injected? ==>
              var main, before := Prepared(cfg, data, installer, pod).containers[0], pod.containers[0];
              && main.command == ["/opt/container-init/container-init"]
              && ReadArgs(main.args, []) == Some(Invocation(
                   [("--user-data", "/run/container-init/user-data"),
                    ("--termination-message", if before.terminationPath == "" then "/dev/termination-log" else before.terminationPath)]
                   + (if cfg.defaultUser == "" then [] else [("--default-user", cfg.defaultUser)])
                   + (if cfg.runAsUser == "" then [] else [("--run-as", cfg.runAsUser)]),
                   before.command + before.args))
    ensures cfg.mode.BakedIn? ==>
              var main, before := Prepared(cfg, data, installer, pod).containers[0], pod.containers[0];
              main.command == before.command && main.args == before.args
  {
    if cfg.mode.Injected? {
      var main, before := Prepared(cfg, data, installer, pod).containers[0], pod.containers[0];
      var options := Options(cfg, main.terminationPath);
      OptionsReadBack(options, [], before.command + before.args);
      assert main.args == Flatten(options) + ["--"] + (before.command + before.args);
      assert [] + options == options;
    }
  }

  /** Second half: everything else the user declared is still there, in place; only the data hash annotation is written. */
  lemma RestIsKept(cfg: Config, data: Data, installer: Container, pod: Pod)
    requires pod.containers != []
    ensures var out := Prepared(cfg, data, installer, pod);
            && pod.containers[0].mounts < out.containers[0].mounts && pod.volumes < out.volumes
            && pod.initContainers <= out.initContainers && out.containers[1..] == pod.containers[1..]
            && out.annotations == pod.annotations[HASH := data.hash]
  {
  }

  /** A prepared template is refused, so wrappers cannot pile up: every reconcile has to start from the Workspace. */
  lemma WrapperNeverStacks(cfg: Config, data: Data, installer: Container, pod: Pod, again: Config, image: string)
    requires pod.containers != []
    ensures !Accepts(again, false, image, Prepared(cfg, data, installer, pod))
  {
    var out := Prepared(cfg, data, installer, pod);
    assert out.volumes[|pod.volumes|] == SecretVolume(DATA_VOLUME, data.secret);
    assert out.volumes[|pod.volumes|] in out.volumes;
  }

  // ---------------------------------------------------------------- names and paths, spelt out

  /** A letter or underscore, then at most 31 letters, digits, underscores and hyphens. */
  ghost predicate IsAccount(s: string) {
    && 0 < |s| < 33
    && (s[0] == '_' || 'a' <= s[0] <= 'z')
    && forall i :: 0 < i < |s| ==> s[i] == '_' || s[i] == '-' || 'a' <= s[i] <= 'z' || '0' <= s[i] <= '9'
  }

  ghost predicate Under(path: string, dir: string) {
    path == dir || (|path| > |dir| && path[..|dir|] == dir && path[|dir|] == '/')
  }

  lemma UnderIsPrefix(path: string, dir: string)
    ensures Under(path, dir) <==> path == dir || dir + "/" <= path
  {
    if |path| > |dir| && path[..|dir|] == dir && path[|dir|] == '/' {
      assert path[..|dir| + 1] == dir + "/";
    }
    if dir + "/" <= path {
      assert path[..|dir| + 1] == dir + "/";
      assert path[..|dir|] == (dir + "/")[..|dir|] == dir;
      assert path[|dir|] == (dir + "/")[|dir|];
    }
  }

  /** When a template is accepted, in terms of the configuration and of the names and paths it uses. */
  lemma AcceptedExactly(cfg: Config, vm: bool, image: string, pod: Pod)
    ensures Accepts(cfg, vm, image, pod) <==>
            && (cfg.mode == Injected || cfg.mode == BakedIn) && !vm && |pod.containers| > 0
            && (cfg.mode == BakedIn ==> cfg.defaultUser == "" && cfg.runAsUser == "")
            && (cfg.defaultUser != "" ==> IsAccount(cfg.defaultUser))
            && (cfg.runAsUser != "" ==> IsAccount(cfg.runAsUser) && cfg.runAsUser != "root")
            && (cfg.mode == Injected ==> image != "" && |pod.containers[0].command| > 0 && pod.containers[0].command[0] != "")
            && (forall i :: 0 <= i < |pod.volumes| ==> pod.volumes[i].name != "kw-container-init-bin" && pod.volumes[i].name != "kw-container-init-data")
            && (forall i :: 0 <= i < |pod.initContainers| ==> pod.initContainers[i].name != "container-init-install")
            && (forall i :: 0 <= i < |pod.containers[0].mounts| ==>
                  !Under(pod.containers[0].mounts[i].path, "/opt/container-init") && !Under(pod.containers[0].mounts[i].path, "/run/container-init"))
  {
    forall path: string
      ensures ReservedPath(path) <==> Under(path, "/opt/container-init") || Under(path, "/run/container-init")
    {
      UnderIsPrefix(path, "/opt/container-init");
      UnderIsPrefix(path, "/run/container-init");
    }
    assert IsAccount(cfg.defaultUser) <==> AccountName(cfg.defaultUser);
    assert IsAccount(cfg.runAsUser) <==> AccountName(cfg.runAsUser);
    if pod.containers != [] {
      ConflictSpelt(pod);
    }
  }

  lemma ConflictSpelt(pod: Pod)
    requires pod.containers != []
    ensures NoConflict(pod) <==>
            && (forall i :: 0 <= i < |pod.volumes| ==> pod.volumes[i].name != BIN_VOLUME && pod.volumes[i].name != DATA_VOLUME)
            && (forall i :: 0 <= i < |pod.initContainers| ==> pod.initContainers[i].name != INSTALLER)
            && (forall i :: 0 <= i < |pod.containers[0].mounts| ==> !ReservedPath(pod.containers[0].mounts[i].path))
  {
    var mounts := pod.containers[0].mounts;
    if NoConflict(pod) {
      assert forall i :: 0 <= i < |pod.volumes| ==> pod.volumes[i] in pod.volumes;
      assert forall i :: 0 <= i < |pod.initContainers| ==> pod.initContainers[i] in pod.initContainers;
      assert forall i :: 0 <= i < |mounts| ==> mounts[i] in mounts;
    }
  }

  /** What is added, and that it fits together: every added mount has its volume, the data volume shows this Secret, and the hash is recorded. */
  lemma AddedParts(cfg: Config, data: Data, installer: Container, pod: Pod)
    requires pod.containers != [] && (cfg.mode.Injected? || cfg.mode.BakedIn?)
    ensures var out := Prepared(cfg, data, installer, pod);
            var before, main := pod.containers[0], out.containers[0];
            && main.name == before.name && out.containers[1..] == pod.containers[1..]
            && out.annotations == pod.annotations["kubeworkspaces.io/container-init-data-hash" := data.hash]
            && (cfg.mode.BakedIn? ==>
                  && out.volumes == pod.volumes + [SecretVolume("kw-container-init-data", data.secret)]
                  && main == before.(mounts := before.mounts + [Mount("kw-container-init-data", "/run/container-init", true)])
                  && out.initContainers == pod.initContainers)
            && (cfg.mode.Injected? ==>
                  && out.volumes == pod.volumes + [SecretVolume("kw-container-init-data", data.secret), EmptyDir("kw-container-init-bin")]
                  && main.mounts == before.mounts + [Mount("kw-container-init-data", "/run/container-init", true), Mount("kw-container-init-bin", "/opt/container-init", true)]
                  && main.terminationPath == (if before.terminationPath == "" then "/dev/termination-log" else before.terminationPath)
                  && main.terminationPolicy == (if before.terminationPolicy == "" then "File" else before.terminationPolicy)
                  && out.initContainers == pod.initContainers + [installer])
  {
  }
}
