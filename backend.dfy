/** The backend adapter: `create_container`, `delete_container` and
    `action_container` over the `lxc` command line. Running a command is not
    modelled; each method is handed the replies the backend gives, in order
    (the i-th command issued receives `replies[i]`), and returns the commands
    it issued together with its `(ok, msg)` result. */
module Backend {
  import opened Types
  import opened Text

  /** What `run_lxc_cmd` returns: exit status, standard output, standard error. */
  datatype Reply = Reply(rc: int, out: string, err: string)

  /** The `lxc` invocations the adapter issues. */
  datatype Cmd =
    | Launch(image: string, name: string, profiles: string)   // lxc launch <image> <name> -p <profiles>
    | SetConfig(name: string, key: string, value: int)        // lxc config set <name> <key> <value>
    | ForceStop(name: string)                                  // lxc stop <name> --force
    | Remove(name: string)                                     // lxc delete <name>
    | Lifecycle(action: string, name: string)                  // lxc <action> <name>

  /** The argument vector of a command, `lxc` being the configured LXC_PATH.
      Every vector starts with the binary and names the container; the value
      of a `config set` is the decimal text `int()` reads back as the integer,
      and `lxc info` has the same shape as the three state changes. */
  function Argv(lxc: string, c: Cmd): (r: seq<string>)
    ensures |r| >= 3 && r[0] == lxc && c.name in r
    ensures c.SetConfig? ==> |r| == 6 && r[4] == c.key && ParseInt(r[5]) == Some(c.value)
    ensures c.Lifecycle? && IsAction(c.action) ==> r == [lxc, c.action, c.name] && r[1] != "delete"
  {
    match c
    case Launch(image, name, profiles) => [lxc, "launch", image, name, "-p", profiles]
    case SetConfig(name, key, value) =>
      ParseIntToString(value);
      [lxc, "config", "set", name, key, IntToString(value)]
    case ForceStop(name) => [lxc, "stop", name, "--force"]
    case Remove(name) => [lxc, "delete", name]
    case Lifecycle(action, name) => [lxc, action, name]
  }

  const DefaultImage: string := "images:ubuntu/22.04"
  const DefaultProfiles: string := "default"
  const BytesPerMb: int := 1024 * 1024

  /** The four actions `action_container` accepts. */
  predicate IsAction(a: string)
    ensures IsAction(a) ==> a != "delete"
  {
    a == "start" || a == "stop" || a == "restart" || a == "info"
  }

  /** Python's `x or d` on a string: `x` unless it is empty. */
  function OrElse(x: string, d: string): (r: string)
    ensures r == x || r == d
    ensures x != "" ==> r == x
    ensures r == "" ==> d == ""
  {
    if x != "" then x else d
  }

  /** An optional argument defaulted with `or`: absent or empty means `d`. */
  function OptOrElse(x: Option<string>, d: string): (r: string)
    ensures x.Some? && x.value != "" ==> r == x.value
    ensures x.Some? && x.value == "" ==> r == d
    ensures x.None? ==> r == d
  {
    if x.Some? then OrElse(x.value, d) else d
  }

  /** The diagnostic of a failed command, `err or out`: the error stream
      unless it is empty, then the output stream. */
  function Diagnostic(r: Reply): (m: string)
    ensures r.err != "" ==> m == r.err
    ensures r.err == "" ==> m == r.out
  {
    OrElse(r.err, r.out)
  }

  /** `create_container`: launch, then best-effort memory and CPU limits. A
      failed launch ends the call with no limit command; after a successful
      launch the limit replies do not affect the result. */
  method CreateContainer(name: string, image: Option<string>, profiles: Option<string>,
                         ramMb: Option<int>, cpuCores: Option<int>, replies: seq<Reply>)
    returns (cmds: seq<Cmd>, ok: bool, msg: string)
    requires |replies| >= 3
    ensures |cmds| >= 1 && cmds[0] == Launch(OptOrElse(image, DefaultImage), name, OptOrElse(profiles, DefaultProfiles))
    ensures ok <==> replies[0].rc == 0
    ensures !ok ==> cmds == [cmds[0]] && msg == Diagnostic(replies[0])
    ensures ok ==> msg == OrElse(replies[0].out, "created")
    ensures ok ==> |cmds| == 1 + (if ramMb.Some? then 1 else 0) + (if cpuCores.Some? then 1 else 0)
    ensures ok && ramMb.Some? ==> cmds[1] == SetConfig(name, "limits.memory", ramMb.value * BytesPerMb)
    ensures ok && cpuCores.Some? ==> cmds[|cmds| - 1] == SetConfig(name, "limits.cpu", cpuCores.value)
  {
    var launch := Launch(OptOrElse(image, DefaultImage), name, OptOrElse(profiles, DefaultProfiles));
    cmds := [launch];
    var r := replies[0];
    if r.rc != 0 {
      return cmds, false, Diagnostic(r);
    }
    if ramMb.Some? {
      var memBytes := ramMb.value * 1024 * 1024;
      cmds := cmds + [SetConfig(name, "limits.memory", memBytes)];
    }
    if cpuCores.Some? {
      cmds := cmds + [SetConfig(name, "limits.cpu", cpuCores.value)];
    }
    ok, msg := true, OrElse(r.out, "created");
  }

  /** `delete_container`: a forced stop whose reply is ignored, then `delete`,
      whose reply alone decides the result. */
  method DeleteContainer(name: string, replies: seq<Reply>)
    returns (cmds: seq<Cmd>, ok: bool, msg: string)
    requires |replies| >= 2
    ensures cmds == [ForceStop(name), Remove(name)]
    ensures ok <==> replies[1].rc == 0
    ensures msg == if ok then "deleted" else Diagnostic(replies[1])
  {
    cmds := [ForceStop(name)];
    cmds := cmds + [Remove(name)];
    var r := replies[1];
    if r.rc != 0 {
      return cmds, false, Diagnostic(r);
    }
    ok, msg := true, "deleted";
  }

  /** `action_container`: an action outside start/stop/restart/info is refused
      with "invalid action" before any command; otherwise one command runs. */
  method ActionContainer(name: string, action: string, replies: seq<Reply>)
    returns (cmds: seq<Cmd>, ok: bool, msg: string)
    requires |replies| >= 1
    ensures !IsAction(action) ==> cmds == [] && !ok && msg == "invalid action"
    ensures IsAction(action) ==> cmds == [Lifecycle(action, name)]
    ensures IsAction(action) ==> (ok <==> replies[0].rc == 0)
    ensures IsAction(action) && ok ==> msg == OrElse(replies[0].out, "OK")
    ensures IsAction(action) && !ok ==> msg == Diagnostic(replies[0])
  {
    if !IsAction(action) {
      return [], false, "invalid action";
    }
    // "info" and the three state changes issue the same shape of command.
    cmds := [Lifecycle(action, name)];
    var r := replies[0];
    if r.rc != 0 {
      return cmds, false, Diagnostic(r);
    }
    ok, msg := true, OrElse(r.out, "OK");
  }
}
