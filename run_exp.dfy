/**
  The experiment launcher (run_exp.py): it expands the configuration
  argument, validates it against the four tier modes, and runs one YCSB
  process per configuration followed by a device trim.

  Running a shell command is abstracted: a Shell object records what the
  script prints and which commands it starts, with which output files, and
  an environment function gives the exit status of each command.
*/
module RunExp {
  import opened Wrappers
  import TierConfig

  /* ---------- the configuration argument ---------- */

  /** The configurations the script accepts, and the order "all" runs them in. */
  const VALID_CONFIGS: seq<string> := ["most", "tiering", "caching", "striping"]

  /** The workload names the argument parser accepts. */
  const WORKLOADS: seq<string> :=
    ["workloada", "workloadb", "workloadc", "workloadd", "workloade", "workloadf"]

  const ALL := "all"
  const SEPARATOR := ','

  /** str.split with an explicit separator: empty pieces are kept, and the empty string gives one empty piece. */
  function Split(s: string, sep: char): (parts: seq<string>)
    ensures |parts| >= 1
    ensures forall i :: 0 <= i < |parts| ==> sep !in parts[i]
    decreases |s|
  {
    if |s| == 0 then [""]
    else
      var rest := Split(s[1..], sep);
      if s[0] == sep then [""] + rest
      else [[s[0]] + rest[0]] + rest[1..]
  }

  /** str.join, the reference that Split undoes. */
  function Join(parts: seq<string>, sep: char): string
    requires |parts| >= 1
    decreases |parts|
  {
    if |parts| == 1 then parts[0] else parts[0] + [sep] + Join(parts[1..], sep)
  }

  lemma JoinConsChar(c: char, rest: seq<string>, sep: char)
    requires |rest| >= 1
    ensures Join([[c] + rest[0]] + rest[1..], sep) == [c] + Join(rest, sep)
  {
    var parts := [[c] + rest[0]] + rest[1..];
    if |rest| > 1 {
      assert parts[1..] == rest[1..];
    }
  }

  /** Joining the pieces with the separator gives back the argument. */
  lemma {:induction false} JoinSplit(s: string, sep: char)
    ensures Join(Split(s, sep), sep) == s
    decreases |s|
  {
    if |s| > 0 {
      var rest := Split(s[1..], sep);
      JoinSplit(s[1..], sep);
      if s[0] == sep {
        assert ([""] + rest)[1..] == rest;
      } else {
        JoinConsChar(s[0], rest, sep);
      }
      assert s == [s[0]] + s[1..];
    }
  }

  lemma {:induction false} SplitOfPiece(p: string, s: string, sep: char)
    requires sep !in p
    ensures Split(p + s, sep) == [p + Split(s, sep)[0]] + Split(s, sep)[1..]
    decreases |p|
  {
    if |p| > 0 {
      SplitOfPiece(p[1..], s, sep);
      assert (p + s)[1..] == p[1..] + s;
      assert [p[0]] + (p[1..] + Split(s, sep)[0]) == p + Split(s, sep)[0];
    } else {
      assert p + s == s;
      assert p + Split(s, sep)[0] == Split(s, sep)[0];
    }
  }

  /** Splitting pieces that do not contain the separator, once joined, gives back the pieces in order. */
  lemma {:induction false} SplitJoin(parts: seq<string>, sep: char)
    requires |parts| >= 1
    requires forall i :: 0 <= i < |parts| ==> sep !in parts[i]
    ensures Split(Join(parts, sep), sep) == parts
    decreases |parts|
  {
    if |parts| == 1 {
      SplitOfPiece(parts[0], "", sep);
      assert parts[0] + "" == parts[0];
    } else {
      var tail := Join(parts[1..], sep);
      SplitJoin(parts[1..], sep);
      assert Join(parts, sep) == parts[0] + ([sep] + tail);
      SplitOfPiece(parts[0], [sep] + tail, sep);
      assert ([sep] + tail)[1..] == tail;
      assert Split([sep] + tail, sep) == [""] + parts[1..];
      assert parts[0] + "" == parts[0];
      assert parts == [parts[0]] + parts[1..];
    }
  }

  /** The configurations the argument names: "all" stands for every mode, anything else is split on commas. */
  function ExpandConfigs(arg: string): (configs: seq<string>)
    ensures |configs| >= 1
    ensures arg == ALL ==> configs == VALID_CONFIGS
    ensures arg != ALL ==> Join(configs, SEPARATOR) == arg
    ensures arg != ALL ==> forall i :: 0 <= i < |configs| ==> SEPARATOR !in configs[i]
  {
    JoinSplit(arg, SEPARATOR);
    if arg == ALL then VALID_CONFIGS else Split(arg, SEPARATOR)
  }

  /** The first configuration that is not one of the four modes, if any. */
  function FirstInvalid(configs: seq<string>): (r: Option<string>)
    ensures r.None? <==> forall i :: 0 <= i < |configs| ==> configs[i] in VALID_CONFIGS
    ensures r.Some? ==> exists i :: 0 <= i < |configs| && configs[i] == r.value && r.value !in VALID_CONFIGS &&
                                    (forall j :: 0 <= j < i ==> configs[j] in VALID_CONFIGS)
  {
    if |configs| == 0 then None
    else if configs[0] !in VALID_CONFIGS then Some(configs[0])
    else
      var r := FirstInvalid(configs[1..]);
      assert forall j :: 1 <= j < |configs| ==> configs[j] == configs[1..][j - 1];
      r
  }

  function InvalidMessage(conf: string): string
  {
    "Invalid configuration: " + conf + ". Choose from 'caching', 'striping', 'most', 'tiering'."
  }

  /** The message names the rejected configuration: different configurations give different messages. */
  lemma InvalidMessageNamesConfig(a: string, b: string)
    ensures InvalidMessage(a) == InvalidMessage(b) ==> a == b
  {
    var head := "Invalid configuration: ";
    if InvalidMessage(a) == InvalidMessage(b) {
      assert |a| == |b|;
      assert a == InvalidMessage(a)[|head|..|head| + |a|];
      assert b == InvalidMessage(b)[|head|..|head| + |b|];
    }
  }

  /** The configurations the script accepts are exactly the modes the adapter's Init gives a flash hierarchy. */
  lemma ValidConfigsAreInitModes(c: string)
    ensures c in VALID_CONFIGS <==> c in TierConfig.HIERARCHY_KIND
  {
    var modes := TierConfig.HIERARCHY_KIND;
    assert modes.Keys == {TierConfig.STRIPING, TierConfig.TIERING, TierConfig.MOST, TierConfig.CACHING};
    assert VALID_CONFIGS == [TierConfig.MOST, TierConfig.TIERING, TierConfig.CACHING, TierConfig.STRIPING];
  }

  /* ---------- the command for one run ---------- */

  const BASE_COMMAND := "sudo -E ./build/ycsb -load -run -db cachelib -P"
  const TRIM_COMMAND := "./trim_device.sh"
  const DEV_NULL := "/dev/null"

  function WorkloadPath(workload: string): string { "workloads/" + workload + "_cachelib" }

  function ConfigPath(config: string): string { "cachelib/cachelib_" + config + ".properties" }

  function ResultPath(workload: string, config: string): string
  {
    "result/" + workload + "_" + config + "_nvme_sata.result"
  }

  function ErrorPath(workload: string, config: string): string
  {
    "result/" + workload + "_" + config + "_nvme_sata.error"
  }

  function WorkloadCommand(workload: string, config: string): string
  {
    BASE_COMMAND + " " + WorkloadPath(workload) + " -P " + ConfigPath(config) + " -s"
  }

  lemma InfixDistinct(a: string, x: string, y: string, b: string)
    requires x != y
    ensures a + x + b != a + y + b
  {
    if |x| == |y| {
      var k :| 0 <= k < |x| && x[k] != y[k];
      assert (a + x + b)[|a| + k] == x[k];
      assert (a + y + b)[|a| + k] == y[k];
    }
  }

  /** For one workload, different configurations write to different result files. */
  lemma ResultPathsDistinct(workload: string, c1: string, c2: string)
    requires c1 != c2
    ensures ResultPath(workload, c1) != ResultPath(workload, c2)
    ensures ErrorPath(workload, c1) != ErrorPath(workload, c2)
  {
    var head := "result/" + workload + "_";
    InfixDistinct(head, c1, c2, "_nvme_sata.result");
    InfixDistinct(head, c1, c2, "_nvme_sata.error");
  }

  /** The standard output and standard error of a run never share a file. */
  lemma ResultAndErrorDiffer(w1: string, c1: string, w2: string, c2: string)
    ensures ResultPath(w1, c1) != ErrorPath(w2, c2)
  {
    var r := ResultPath(w1, c1);
    var e := ErrorPath(w2, c2);
    assert r[|r| - 1] == 't';
    assert e[|e| - 1] == 'r';
  }

  /* ---------- running commands ---------- */

  /** What the script does that can be observed: a printed line, or a command started with its output files. */
  datatype Action = Log(line: string) | Exec(command: string, stdoutFile: string, stderrFile: string)

  /** run_command: announce the command, run it, and report a nonzero exit status. */
  function CommandTrace(command: string, stdoutFile: string, stderrFile: string, code: int): (t: seq<Action>)
    ensures |t| == 3 <==> code != 0
    ensures 2 <= |t| <= 3 && t[1] == Exec(command, stdoutFile, stderrFile)
    ensures forall i :: 0 <= i < |t| && i != 1 ==> t[i].Log?
  {
    [Log("Running command: " + command), Exec(command, stdoutFile, stderrFile)] +
      (if code != 0 then [Log("Error running command: " + command)] else [])
  }

  /** The commands started, in order. */
  function Commands(trace: seq<Action>): (cmds: seq<string>)
    ensures cmds == [] <==> forall i :: 0 <= i < |trace| ==> !trace[i].Exec?
  {
    if |trace| == 0 then []
    else (if trace[0].Exec? then [trace[0].command] else []) + Commands(trace[1..])
  }

  lemma {:induction false} CommandsAppend(a: seq<Action>, b: seq<Action>)
    ensures Commands(a + b) == Commands(a) + Commands(b)
    decreases |a|
  {
    if |a| > 0 {
      CommandsAppend(a[1..], b);
      assert (a + b)[1..] == a[1..] + b;
    } else {
      assert a + b == b;
    }
  }

  lemma CommandsOfCommandTrace(command: string, stdoutFile: string, stderrFile: string, code: int)
    ensures Commands(CommandTrace(command, stdoutFile, stderrFile, code)) == [command]
  {
    var t := CommandTrace(command, stdoutFile, stderrFile, code);
    var tail := t[2..];
    assert Commands(tail) == [] by {
      if code != 0 {
        assert tail[1..] == [];
      }
    }
    assert t[1..][1..] == tail;
    assert Commands(t[1..]) == [command] + Commands(tail);
  }

  /** The trace of one iteration of main: the workload run, then the trim. */
  function StepTrace(workload: string, config: string, exitCode: string -> int): seq<Action>
  {
    var command := WorkloadCommand(workload, config);
    CommandTrace(command, ResultPath(workload, config), ErrorPath(workload, config), exitCode(command)) +
      CommandTrace(TRIM_COMMAND, DEV_NULL, DEV_NULL, exitCode(TRIM_COMMAND))
  }

  /** main's trace: the configurations in list order, each followed by a trim. */
  function MainTrace(workload: string, configs: seq<string>, exitCode: string -> int): seq<Action>
    decreases |configs|
  {
    if |configs| == 0 then []
    else MainTrace(workload, configs[..|configs| - 1], exitCode) + StepTrace(workload, configs[|configs| - 1], exitCode)
  }

  /** The commands main is meant to start: a workload run and a trim per configuration. */
  function PlannedCommands(workload: string, configs: seq<string>): (cmds: seq<string>)
    ensures |cmds| == 2 * |configs|
    decreases |configs|
  {
    if |configs| == 0 then []
    else [WorkloadCommand(workload, configs[0]), TRIM_COMMAND] + PlannedCommands(workload, configs[1..])
  }

  lemma {:induction false} PlannedCommandsAppend(workload: string, configs: seq<string>, c: string)
    ensures PlannedCommands(workload, configs + [c]) ==
      PlannedCommands(workload, configs) + [WorkloadCommand(workload, c), TRIM_COMMAND]
    decreases |configs|
  {
    if |configs| > 0 {
      PlannedCommandsAppend(workload, configs[1..], c);
      assert (configs + [c])[1..] == configs[1..] + [c];
    } else {
      assert PlannedCommands(workload, [c][1..]) == [];
    }
  }

  /**
    main starts the planned commands whatever they return: a failing run is
    reported but neither stops nor reorders the sequence.
  */
  lemma {:induction false} MainRunsEveryConfig(workload: string, configs: seq<string>, exitCode: string -> int)
    ensures Commands(MainTrace(workload, configs, exitCode)) == PlannedCommands(workload, configs)
    decreases |configs|
  {
    if |configs| > 0 {
      var init := configs[..|configs| - 1];
      var last := configs[|configs| - 1];
      var command := WorkloadCommand(workload, last);
      MainRunsEveryConfig(workload, init, exitCode);
      CommandsAppend(MainTrace(workload, init, exitCode), StepTrace(workload, last, exitCode));
      CommandsAppend(
        CommandTrace(command, ResultPath(workload, last), ErrorPath(workload, last), exitCode(command)),
        CommandTrace(TRIM_COMMAND, DEV_NULL, DEV_NULL, exitCode(TRIM_COMMAND)));
      CommandsOfCommandTrace(command, ResultPath(workload, last), ErrorPath(workload, last), exitCode(command));
      CommandsOfCommandTrace(TRIM_COMMAND, DEV_NULL, DEV_NULL, exitCode(TRIM_COMMAND));
      PlannedCommandsAppend(workload, init, last);
      assert init + [last] == configs;
    }
  }

  /** The shell the script runs in: what it has printed and started so far, and the exit status each command gives. */
  class Shell {
    var trace: seq<Action>
    const exitCode: string -> int

    constructor(exitCode: string -> int)
      ensures trace == [] && this.exitCode == exitCode
    {
      trace := [];
      this.exitCode := exitCode;
    }

    /** run_command */
    method RunCommand(command: string, stdoutFile: string, stderrFile: string) returns (code: int)
      modifies this
      ensures code == exitCode(command)
      ensures trace == old(trace) + CommandTrace(command, stdoutFile, stderrFile, code)
    {
      trace := trace + [Log("Running command: " + command)];
      trace := trace + [Exec(command, stdoutFile, stderrFile)];
      code := exitCode(command);
      if code != 0 {
        trace := trace + [Log("Error running command: " + command)];
      }
    }
  }

  /** run_workload */
  method RunWorkload(shell: Shell, workload: string, config: string) returns (code: int)
    modifies shell
    ensures code == shell.exitCode(WorkloadCommand(workload, config))
    ensures shell.trace == old(shell.trace) +
      CommandTrace(WorkloadCommand(workload, config), ResultPath(workload, config), ErrorPath(workload, config), code)
  {
    var command := BASE_COMMAND + " " + WorkloadPath(workload) + " -P " + ConfigPath(config) + " -s";
    code := shell.RunCommand(command, ResultPath(workload, config), ErrorPath(workload, config));
  }

  /** trim_device: its exit status is reported but not returned. */
  method TrimDevice(shell: Shell)
    modifies shell
    ensures shell.trace == old(shell.trace) +
      CommandTrace(TRIM_COMMAND, DEV_NULL, DEV_NULL, shell.exitCode(TRIM_COMMAND))
  {
    var _ := shell.RunCommand(TRIM_COMMAND, DEV_NULL, DEV_NULL);
  }

  /** main: each configuration in turn, each followed by a trim. */
  method RunAll(shell: Shell, workload: string, configs: seq<string>)
    modifies shell
    ensures shell.trace == old(shell.trace) + MainTrace(workload, configs, shell.exitCode)
  {
    var i := 0;
    while i < |configs|
      invariant 0 <= i <= |configs|
      invariant shell.trace == old(shell.trace) + MainTrace(workload, configs[..i], shell.exitCode)
    {
      var _ := RunWorkload(shell, workload, configs[i]);
      TrimDevice(shell);
      assert configs[..i + 1][..i] == configs[..i];
      i := i + 1;
    }
    assert configs[..i] == configs;
  }

  /* ---------- the script ---------- */

  /** How the script ends: its exit status and what it did. */
  datatype Run = Run(status: int, actions: seq<Action>)

  /**
    The whole script: an unknown workload is refused by the argument parser
    (status 2); an invalid configuration is reported and stops the script
    (status 1) before anything runs; otherwise every configuration runs.
  */
  function ScriptSpec(workload: string, config: string, exitCode: string -> int): (r: Run)
    ensures r.status == 2 <==> workload !in WORKLOADS
    ensures r.status == 0 <==>
      (workload in WORKLOADS && forall i :: 0 <= i < |ExpandConfigs(config)| ==> ExpandConfigs(config)[i] in VALID_CONFIGS)
    ensures r.status in {0, 1, 2}
    ensures r.status == 1 ==>
      FirstInvalid(ExpandConfigs(config)).Some? &&
      r.actions == [Log(InvalidMessage(FirstInvalid(ExpandConfigs(config)).value))]
  {
    if workload !in WORKLOADS then Run(2, [])
    else
      var configs := ExpandConfigs(config);
      match FirstInvalid(configs)
      case Some(conf) => Run(1, [Log(InvalidMessage(conf))])
      case None => Run(0, MainTrace(workload, configs, exitCode))
  }

  /** The __main__ block: parse, expand, validate, then run. */
  method RunScript(shell: Shell, workload: string, config: string) returns (status: int)
    modifies shell
    ensures status == ScriptSpec(workload, config, shell.exitCode).status
    ensures shell.trace == old(shell.trace) + ScriptSpec(workload, config, shell.exitCode).actions
  {
    if workload !in WORKLOADS {
      return 2;
    }
    var configs := if config == ALL then VALID_CONFIGS else Split(config, SEPARATOR);
    var i := 0;
    while i < |configs|
      invariant 0 <= i <= |configs|
      invariant forall j :: 0 <= j < i ==> configs[j] in VALID_CONFIGS
      invariant shell.trace == old(shell.trace)
    {
      if configs[i] !in VALID_CONFIGS {
        shell.trace := shell.trace + [Log(InvalidMessage(configs[i]))];
        return 1;
      }
      i := i + 1;
    }
    RunAll(shell, workload, configs);
    return 0;
  }

  /* ---------- properties of the script ---------- */

  /** A rejected configuration argument starts no command at all. */
  lemma RejectedRunsNothing(workload: string, config: string, exitCode: string -> int)
    requires ScriptSpec(workload, config, exitCode).status != 0
    ensures Commands(ScriptSpec(workload, config, exitCode).actions) == []
  {
    var run := ScriptSpec(workload, config, exitCode);
    if run.status == 1 {
      assert run.actions[1..] == [];
    }
  }

  /** When the script runs anything, every configuration it runs is a mode the adapter knows, and all of them run. */
  lemma AcceptedConfigsAreInitModes(workload: string, config: string, exitCode: string -> int)
    requires ScriptSpec(workload, config, exitCode).status == 0
    ensures forall c :: c in ExpandConfigs(config) ==> c in TierConfig.HIERARCHY_KIND
    ensures Commands(ScriptSpec(workload, config, exitCode).actions) == PlannedCommands(workload, ExpandConfigs(config))
  {
    var configs := ExpandConfigs(config);
    forall c | c in configs
      ensures c in TierConfig.HIERARCHY_KIND
    {
      ValidConfigsAreInitModes(c);
    }
    MainRunsEveryConfig(workload, configs, exitCode);
  }

  /** "all" runs the four modes in the order most, tiering, caching, striping. */
  lemma AllRunsEveryMode(workload: string, exitCode: string -> int)
    requires workload in WORKLOADS
    ensures ScriptSpec(workload, ALL, exitCode).status == 0
    ensures Commands(ScriptSpec(workload, ALL, exitCode).actions) == PlannedCommands(workload, VALID_CONFIGS)
  {
    assert FirstInvalid(VALID_CONFIGS).None?;
    MainRunsEveryConfig(workload, VALID_CONFIGS, exitCode);
  }

  /** A list naming the same configuration twice runs it twice; the list is not de-duplicated. */
  lemma DuplicatesRunTwice(workload: string, c: string, exitCode: string -> int)
    requires workload in WORKLOADS && c in VALID_CONFIGS
    ensures var run := ScriptSpec(workload, c + [SEPARATOR] + c, exitCode);
      run.status == 0 && Commands(run.actions) == PlannedCommands(workload, [c, c])
  {
    SplitJoin([c, c], SEPARATOR);
    assert Join([c, c], SEPARATOR) == c + [SEPARATOR] + c;
    assert FirstInvalid([c, c]).None?;
    MainRunsEveryConfig(workload, [c, c], exitCode);
  }

  /** An empty piece, as a trailing comma leaves, is rejected like any other unknown name. */
  lemma TrailingCommaRejected(workload: string, c: string, exitCode: string -> int)
    requires workload in WORKLOADS && c in VALID_CONFIGS
    ensures ScriptSpec(workload, c + [SEPARATOR], exitCode) == Run(1, [Log(InvalidMessage(""))])
  {
    SplitJoin([c, ""], SEPARATOR);
    assert Join([c, ""], SEPARATOR) == c + [SEPARATOR];
    assert "" !in VALID_CONFIGS;
  }
}
