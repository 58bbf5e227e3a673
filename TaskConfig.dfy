/** config/task_config.go: the tasks a run performs, one per target host.

    A Task holds the resolved target, the remote command and the banner
    message; ParseCommand fills in the last two. A TaskConfig holds what
    the command line asked for and the list of tasks InitTasks builds
    from it, either from the targets given by name or from the hosts of
    the ssh client configuration that match the requested tags. */
module TaskConfig {
  import opened Base
  import opened Strs
  import opened ConfigHost
  import opened SshConfigFile

  /** The fields of a Task, as a value. */
  datatype TaskRecord = TaskRecord(
    index: int,
    target: Host,
    command: string,
    remoteListen: string,
    proxyServer: string,
    message: string,
    outputer: string,
    uploadSrc: string,
    uploadDest: string,
    downloadSrc: string,
    downloadDest: string)

  // ---------------------------------------------------------------------
  // ParseCommand (task_config.go:25-48)

  /** The comma-joined summaries of the target's jump hops. */
  function JumpText(target: Host): string {
    Join(Summaries(target.jumpList), ",")
  }

  /** The script to read: the given one, or for a module alone the file
      <modulesDir>/<module>.sh. */
  function ScriptPath(modulesDir: string, script: string, moduleName: string): string {
    if script == "" && moduleName != "" then JoinPath(modulesDir, moduleName + ".sh") else script
  }

  /** What ParseCommand leaves in Command and Message, and its error. */
  datatype Parsed = Parsed(command: string, message: string, err: Option<Error>)

  /** ParseCommand on a task whose jump text is `jump` and whose Command
      and Message were `command0` and `message0`. */
  function ParseCommandSpec(jump: string, command0: string, message0: string, env: Env, modulesDir: string,
                            command: string, script: string, moduleName: string): Parsed
  {
    var message := if jump != "" then "jump: " + jump else message0;
    if command != "" then Parsed(command, message + " command: " + command + " ", None)
    else
      var path := ScriptPath(modulesDir, script, moduleName);
      if path == "" then Parsed(command0, message, None)
      else match env.ReadFile(path)
        case Err(e) => Parsed(command0, message, Some(e))
        case Ok(content) => Parsed(content, message + " script: " + path + " ", None)
  }

  /** The message as it stands once the jump part is written. */
  function JumpMessage(jump: string, message0: string): string {
    if jump != "" then "jump: " + jump else message0
  }

  /** The message opens with `jump: <hops>` exactly when there are hops. */
  lemma MessageOpensWithJump(jump: string, command0: string, message0: string, env: Env, modulesDir: string,
                             command: string, script: string, moduleName: string)
    ensures var p := ParseCommandSpec(jump, command0, message0, env, modulesDir, command, script, moduleName);
            JumpMessage(jump, message0) <= p.message &&
            (jump != "" ==> "jump: " + jump <= p.message) &&
            (jump == "" ==> message0 <= p.message)
  {
    var p := ParseCommandSpec(jump, command0, message0, env, modulesDir, command, script, moduleName);
    var m := JumpMessage(jump, message0);
    if command != "" {
      assert p.message == m + (" command: " + command + " ");
    } else if ScriptPath(modulesDir, script, moduleName) != "" && env.ReadFile(ScriptPath(modulesDir, script, moduleName)).Ok? {
      assert p.message == m + (" script: " + ScriptPath(modulesDir, script, moduleName) + " ");
    }
  }

  /** A non-empty command wins over any script or module, and is never an
      error. */
  lemma CommandWins(jump: string, command0: string, message0: string, env: Env, modulesDir: string,
                    command: string, script: string, moduleName: string, script': string, moduleName': string)
    requires command != ""
    ensures var p := ParseCommandSpec(jump, command0, message0, env, modulesDir, command, script, moduleName);
            p == ParseCommandSpec(jump, command0, message0, env, modulesDir, command, script', moduleName') &&
            p.err.None? && p.command == command &&
            p.message == JumpMessage(jump, message0) + " command: " + command + " "
  {
  }

  /** A module on its own stands for the script <modulesDir>/<module>.sh. */
  lemma ModuleIsScript(jump: string, command0: string, message0: string, env: Env, modulesDir: string,
                       moduleName: string)
    requires moduleName != ""
    ensures ParseCommandSpec(jump, command0, message0, env, modulesDir, "", "", moduleName) ==
            ParseCommandSpec(jump, command0, message0, env, modulesDir, "", JoinPath(modulesDir, moduleName + ".sh"), "")
  {
  }

  /** With no command, a script is read eagerly: an unreadable one is an
      error that leaves Command as it was; a readable one becomes Command
      and is named in the message. */
  lemma ScriptIsRead(jump: string, command0: string, message0: string, env: Env, modulesDir: string,
                     script: string, moduleName: string)
    requires script != ""
    ensures var p := ParseCommandSpec(jump, command0, message0, env, modulesDir, "", script, moduleName);
            (p.err.Some? <==> script !in env.files) &&
            (p.err.Some? ==> p.err == Some(ReadFailed(script)) && p.command == command0 &&
                             p.message == JumpMessage(jump, message0)) &&
            (p.err.None? ==> p.command == env.files[script] &&
                             p.message == JumpMessage(jump, message0) + " script: " + script + " ")
  {
  }

  /** Without command, script or module nothing runs: Command keeps its
      value and the message holds only the jump part. */
  lemma NothingToRun(jump: string, command0: string, message0: string, env: Env, modulesDir: string)
    ensures ParseCommandSpec(jump, command0, message0, env, modulesDir, "", "", "") ==
            Parsed(command0, JumpMessage(jump, message0), None)
  {
  }

  class Task {
    var index: int
    var target: Host
    var command: string
    var remoteListen: string
    var proxyServer: string
    var message: string
    var outputer: string
    var uploadSrc: string
    var uploadDest: string
    var downloadSrc: string
    var downloadDest: string

    /** The `&Task{...}` literal of addTask and InitTasks: Command,
        Message and Outputer start empty. */
    constructor (index: int, target: Host, remoteListen: string, proxyServer: string,
                 uploadSrc: string, uploadDest: string, downloadSrc: string, downloadDest: string)
      ensures Record() == TaskRecord(index, target, "", remoteListen, proxyServer, "", "",
                                     uploadSrc, uploadDest, downloadSrc, downloadDest)
    {
      this.index, this.target, this.command := index, target, "";
      this.remoteListen, this.proxyServer, this.message, this.outputer := remoteListen, proxyServer, "", "";
      this.uploadSrc, this.uploadDest, this.downloadSrc, this.downloadDest := uploadSrc, uploadDest, downloadSrc, downloadDest;
    }

    function Record(): TaskRecord
      reads this
    {
      TaskRecord(index, target, command, remoteListen, proxyServer, message, outputer,
                 uploadSrc, uploadDest, downloadSrc, downloadDest)
    }

    /** ParseCommand; `modulesDir` is the global configuration's ModulesDir
        and `env` supplies os.ReadFile. Only Command and Message change. */
    method ParseCommand(env: Env, modulesDir: string, command: string, script: string, moduleName: string)
      returns (err: Option<Error>)
      modifies `command, `message
      ensures Parsed(this.command, message, err) ==
              ParseCommandSpec(JumpText(target), old(this.command), old(message), env, modulesDir, command, script, moduleName)
    {
      var jump := JumpString(target);
      if jump != "" {
        message := "jump: " + jump;
      }
      if command == "" {
        var path := script;
        if script == "" && moduleName != "" {
          path := JoinPath(modulesDir, moduleName + ".sh");
        }
        if path != "" {
          var content := env.ReadFile(path);
          if content.Err? {
            return Some(content.error);
          }
          this.command := content.value;
          message := message + " script: " + path + " ";
        }
      } else {
        this.command := command;
        message := message + " command: " + command + " ";
      }
      return None;
    }
  }

  /** The records of a list of tasks, in order. */
  function Records(ts: seq<Task>): (rs: seq<TaskRecord>)
    reads ts
    ensures |rs| == |ts|
  {
    if |ts| == 0 then [] else Records(ts[..|ts| - 1]) + [ts[|ts| - 1].Record()]
  }

  /** The record at a position is that task's record. */
  lemma {:induction false} RecordAt(ts: seq<Task>, k: nat)
    requires k < |ts|
    ensures Records(ts)[k] == ts[k].Record()
    decreases |ts|
  {
    if k < |ts| - 1 {
      assert ts[..|ts| - 1][k] == ts[k];
      RecordAt(ts[..|ts| - 1], k);
    }
  }

  /** Each task's Index is its position. */
  predicate Indexed(rs: seq<TaskRecord>) {
    forall i :: 0 <= i < |rs| ==> rs[i].index == i
  }

  // ---------------------------------------------------------------------
  // Building tasks (task_config.go:81-146)

  /** The command-line settings that every task is built from. */
  datatype Options = Options(
    username: string,
    port: Port,
    proxyJump: string,
    identityFiles: seq<string>,
    tags: seq<string>,
    remoteListen: string,
    proxyServer: string,
    command: string,
    script: string,
    moduleName: string,
    uploadSrc: string,
    uploadDest: string,
    downloadSrc: string,
    downloadDest: string)

  /** A task for `target` at position `index`, after ParseCommand. */
  function Prepared(o: Options, env: Env, modulesDir: string, index: int, target: Host): Result<TaskRecord> {
    var p := ParseCommandSpec(JumpText(target), "", "", env, modulesDir, o.command, o.script, o.moduleName);
    if p.err.Some? then Err(p.err.value)
    else Ok(TaskRecord(index, target, p.command, o.remoteListen, o.proxyServer, p.message, "",
                       o.uploadSrc, o.uploadDest, o.downloadSrc, o.downloadDest))
  }

  /** addTask: resolve the target, then prepare its task. */
  function AddSpec(o: Options, env: Env, modulesDir: string, fuel: nat, target: string, index: int): Result<TaskRecord> {
    var host :- ResolveHost(env, o.username, target, o.port, o.proxyJump, o.identityFiles, fuel);
    Prepared(o, env, modulesDir, index, host)
  }

  /** The targets' comma pieces, target after target. */
  function AllPieces(targets: seq<string>): seq<string> {
    if |targets| == 0 then [] else AllPieces(targets[..|targets| - 1]) + Split(targets[|targets| - 1], ',')
  }

  /** addTask as a step of the loop: the task for a piece at an index. */
  function AddStep(o: Options, env: Env, modulesDir: string, fuel: nat): (string, int) -> Result<TaskRecord> {
    (piece, index) => AddSpec(o, env, modulesDir, fuel, piece, index)
  }

  /** The task literal and ParseCommand as a step of the tags loop. */
  function PrepareStep(o: Options, env: Env, modulesDir: string): (Host, int) -> Result<TaskRecord> {
    (host, index) => Prepared(o, env, modulesDir, index, host)
  }

  /** The tasks a loop of `step` adds for `pieces` after `start` existing
      ones, and the error that stopped it. */
  function PiecesPlan<S, T>(step: (S, int) -> Result<T>, pieces: seq<S>, start: int)
    : (seq<T>, Option<Error>)
  {
    if |pieces| == 0 then ([], None)
    else
      var (built, err) := PiecesPlan(step, pieces[..|pieces| - 1], start);
      if err.Some? then (built, err)
      else match step(pieces[|pieces| - 1], start + |built|)
        case Err(e) => (built, Some(e))
        case Ok(t) => (built + [t], None)
  }

  /** The tasks built for the hosts that `keep` selects. */
  function TagPlan<T>(step: (Host, int) -> Result<T>, keep: Host -> bool, hosts: seq<Host>, start: int)
    : (seq<T>, Option<Error>)
  {
    if |hosts| == 0 then ([], None)
    else
      var (built, err) := TagPlan(step, keep, hosts[..|hosts| - 1], start);
      var host := hosts[|hosts| - 1];
      if err.Some? || !keep(host) then (built, err)
      else match step(host, start + |built|)
        case Err(e) => (built, Some(e))
        case Ok(t) => (built + [t], None)
  }

  /** The hosts `keep` selects, in order. */
  function Kept(keep: Host -> bool, hosts: seq<Host>): seq<Host> {
    if |hosts| == 0 then []
    else Kept(keep, hosts[..|hosts| - 1]) + (if keep(hosts[|hosts| - 1]) then [hosts[|hosts| - 1]] else [])
  }

  /** Host.MatchTags against the requested tags. */
  function Selected(matchTags: (Host, seq<string>) -> bool, tags: seq<string>): Host -> bool {
    host => matchTags(host, tags)
  }

  /** The first tag the tag pattern rejects. */
  function FirstInvalidTag(tags: seq<string>): Option<string> {
    if |tags| == 0 then None
    else if !TagPatternMatches(tags[0]) then Some(tags[0])
    else FirstInvalidTag(tags[1..])
  }

  /** InitTasks: the tasks it appends after `start` existing ones, and its
      error. `decode`, `fill` and `matchTags` stand for the ssh_config
      decoder, FillAttrsWithSSHConfig and Host.MatchTags. */
  function InitPlan(o: Options, targets: seq<string>, env: Env, modulesDir: string, fuel: nat,
                    decode: string -> Result<seq<Block>>, fill: Host -> Host,
                    matchTags: (Host, seq<string>) -> bool, start: int): (seq<TaskRecord>, Option<Error>)
  {
    if |o.tags| > 0 then
      match FirstInvalidTag(o.tags)
      case Some(tag) => ([], Some(InvalidTaskTag(tag)))
      case None =>
        var (hosts, err) := HostsFromConfigFile(env, decode, fill);
        if err.Some? then ([], err) else TagPlan(PrepareStep(o, env, modulesDir), Selected(matchTags, o.tags), hosts, start)
    else PiecesPlan(AddStep(o, env, modulesDir, fuel), AllPieces(targets), start)
  }

  class TaskConfig {
    var username: string
    var port: Port
    var proxyJump: string
    var identityFiles: seq<string>
    var tags: seq<string>
    var targets: seq<string>
    var remoteListen: string
    var proxyServer: string
    var command: string
    var script: string
    var moduleName: string
    var uploadSrc: string
    var uploadDest: string
    var downloadSrc: string
    var downloadDest: string
    var failedContinue: bool
    var parallel: int
    var tasks: seq<Task>

    /** NewTaskConfig (task_config.go:71-79). */
    constructor ()
      ensures Opts() == Options("", 0, "", [], [], "", "", "", "", "", "", "", "", "")
      ensures targets == [] && tasks == [] && !failedContinue && parallel == 1
    {
      username, port, proxyJump, identityFiles, tags, targets := "", 0, "", [], [], [];
      remoteListen, proxyServer, command, script, moduleName := "", "", "", "", "";
      uploadSrc, uploadDest, downloadSrc, downloadDest := "", "", "", "";
      failedContinue, parallel, tasks := false, 1, [];
    }

    function Opts(): Options
      reads `username, `port, `proxyJump, `identityFiles, `tags, `remoteListen, `proxyServer,
            `command, `script, `moduleName, `uploadSrc, `uploadDest, `downloadSrc, `downloadDest
    {
      Options(username, port, proxyJump, identityFiles, tags, remoteListen, proxyServer,
              command, script, moduleName, uploadSrc, uploadDest, downloadSrc, downloadDest)
    }

    /** addTask: on success one new task, at Index len(Tasks), is appended;
        on any error the list is left as it was. */
    method AddTask(env: Env, modulesDir: string, fuel: nat, target: string) returns (err: Option<Error>)
      modifies `tasks
      ensures var r := AddSpec(Opts(), env, modulesDir, fuel, target, |old(tasks)|);
              (r.Err? ==> err == Some(r.error) && tasks == old(tasks)) &&
              (r.Ok? ==> err.None? && |tasks| == |old(tasks)| + 1 && tasks[..|old(tasks)|] == old(tasks) &&
                         fresh(tasks[|old(tasks)|]) && Records(tasks) == old(Records(tasks)) + [r.value])
    {
      var task;
      task, err := MakeTask(AddStep(Opts(), env, modulesDir, fuel), Opts(), env, modulesDir, fuel, target, |tasks|);
      if err.None? {
        RecordsAppend(tasks, [task]);
        tasks := tasks + [task];
      }
    }

    /** InitTasks: the tasks of InitPlan are appended in order; on an error
        the tasks appended before it stay. */
    method InitTasks(env: Env, modulesDir: string, fuel: nat, decode: string -> Result<seq<Block>>,
                     fill: Host -> Host, matchTags: (Host, seq<string>) -> bool)
      returns (err: Option<Error>)
      modifies `tasks
      ensures var plan := InitPlan(Opts(), targets, env, modulesDir, fuel, decode, fill, matchTags, |old(tasks)|);
              Records(tasks) == old(Records(tasks)) + plan.0 && err == plan.1
    {
      var added;
      added, err := BuildTasks(Opts(), targets, env, modulesDir, fuel, decode, fill, matchTags, |tasks|);
      RecordsAppend(tasks, added);
      tasks := tasks + added;
    }
  }

  /** `step` is addTask for the settings `o`: resolution of the target,
      then the task literal and ParseCommand. */
  ghost predicate StepIsAddTask(step: (string, int) -> Result<TaskRecord>, o: Options, env: Env, modulesDir: string,
                                fuel: nat)
  {
    forall p: string, i: int {:trigger AddSpec(o, env, modulesDir, fuel, p, i)} ::
      step(p, i) == AddSpec(o, env, modulesDir, fuel, p, i)
  }

  /** `step` is the task literal and ParseCommand of the tags branch. */
  ghost predicate StepIsPrepare(step: (Host, int) -> Result<TaskRecord>, o: Options, env: Env, modulesDir: string) {
    forall h: Host, i: int {:trigger Prepared(o, env, modulesDir, i, h)} ::
      step(h, i) == Prepared(o, env, modulesDir, i, h)
  }

  /** The body of InitTasks: the tasks it builds after `start` existing
      ones, returned even when an error stops it. */
  method BuildTasks(o: Options, targets: seq<string>, env: Env, modulesDir: string, fuel: nat,
                    decode: string -> Result<seq<Block>>, fill: Host -> Host, matchTags: (Host, seq<string>) -> bool,
                    start: int)
    returns (added: seq<Task>, err: Option<Error>)
    ensures var plan := InitPlan(o, targets, env, modulesDir, fuel, decode, fill, matchTags, start);
            Records(added) == plan.0 && err == plan.1
  {
    if |o.tags| > 0 {
      err := CheckTaskTags(o.tags);
      if err.Some? {
        return [], err;
      }
      var hosts;
      hosts, err := GetHostsFromSshConfig(env, decode, fill);
      if err.Some? {
        return [], err;
      }
      added, err := AddTagTasks(PrepareStep(o, env, modulesDir), Selected(matchTags, o.tags), o, env, modulesDir, hosts, start);
    } else {
      added, err := AddTargetTasks(AddStep(o, env, modulesDir, fuel), o, targets, env, modulesDir, fuel, start);
    }
  }

  /** The tags branch's loop over the configured hosts: `keep` stands
      for Host.MatchTags with the requested tags, `step` for the task
      literal and ParseCommand. */
  method AddTagTasks(step: (Host, int) -> Result<TaskRecord>, keep: Host -> bool, o: Options, env: Env,
                     modulesDir: string, hosts: seq<Host>, start: int)
    returns (added: seq<Task>, err: Option<Error>)
    requires StepIsPrepare(step, o, env, modulesDir)
    ensures var plan := TagPlan(step, keep, hosts, start);
            Records(added) == plan.0 && err == plan.1
  {
    added := [];
    var i := 0;
    while i < |hosts|
      invariant 0 <= i <= |hosts|
      invariant TagPlan(step, keep, hosts[..i], start) == (Records(added), None)
    {
      TagPlanNext(step, keep, hosts, start, i, Records(added));
      var host := hosts[i];
      if keep(host) {
        ghost var before := Records(added);
        var task;
        task, err := PrepareTask(step, o, env, modulesDir, start + |added|, host);
        assert Records(added) == before;
        if err.Some? {
          TagPlanStops(step, keep, hosts, start, i + 1);
          return added, err;
        }
        RecordsAppend(added, [task]);
        added := added + [task];
      }
      i := i + 1;
    }
    assert hosts[..i] == hosts;
    return added, None;
  }

  /** The targets branch: the pieces of each target in turn. */
  method AddTargetTasks(step: (string, int) -> Result<TaskRecord>, o: Options, targets: seq<string>, env: Env,
                        modulesDir: string, fuel: nat, start: int)
    returns (added: seq<Task>, err: Option<Error>)
    requires StepIsAddTask(step, o, env, modulesDir, fuel)
    ensures var plan := PiecesPlan(step, AllPieces(targets), start);
            Records(added) == plan.0 && err == plan.1
  {
    added := [];
    var i := 0;
    while i < |targets|
      invariant 0 <= i <= |targets|
      invariant PiecesPlan(step, AllPieces(targets[..i]), start) == (Records(added), None)
    {
      ghost var before := Records(added);
      var more;
      more, err := AddPieceTasks(step, o, env, modulesDir, fuel, Split(targets[i], ','), start + |added|);
      assert Records(added) == before;
      TargetsStep(step, targets, i, start, before, Records(more), err);
      RecordsAppend(added, more);
      added := added + more;
      if err.Some? {
        TargetsStop(step, targets, i + 1, start);
        return added, err;
      }
      i := i + 1;
    }
    assert targets[..i] == targets;
    return added, None;
  }

  /** The inner loop over one target's comma pieces, through addTask. */
  method AddPieceTasks(step: (string, int) -> Result<TaskRecord>, o: Options, env: Env, modulesDir: string,
                       fuel: nat, pieces: seq<string>, start: int)
    returns (added: seq<Task>, err: Option<Error>)
    requires StepIsAddTask(step, o, env, modulesDir, fuel)
    ensures var plan := PiecesPlan(step, pieces, start);
            Records(added) == plan.0 && err == plan.1
  {
    added := [];
    var j := 0;
    while j < |pieces|
      invariant 0 <= j <= |pieces|
      invariant PiecesPlan(step, pieces[..j], start) == (Records(added), None)
    {
      PiecesPlanNext(step, pieces, start, j, Records(added));
      var task;
      task, err := MakeTask(step, o, env, modulesDir, fuel, pieces[j], start + |added|);
      if err.Some? {
        PiecesPlanStops(step, pieces, start, j + 1);
        return added, err;
      }
      RecordsAppend(added, [task]);
      added := added + [task];
      j := j + 1;
    }
    assert pieces[..j] == pieces;
    return added, None;
  }

  /** The tag check of InitTasks, which can never fail. */
  method CheckTaskTags(tags: seq<string>) returns (err: Option<Error>)
    ensures err == (match FirstInvalidTag(tags) case Some(tag) => Some(InvalidTaskTag(tag)) case None => None)
  {
    var i := 0;
    while i < |tags|
      invariant 0 <= i <= |tags|
      invariant FirstInvalidTag(tags) == FirstInvalidTag(tags[i..])
    {
      assert tags[i..][1..] == tags[i + 1..];
      if !TagPatternMatches(tags[i]) {
        return Some(InvalidTaskTag(tags[i]));
      }
      i := i + 1;
    }
    return None;
  }

  /** The task literal followed by ParseCommand; `step` stands for
      Prepared. */
  method PrepareTask(step: (Host, int) -> Result<TaskRecord>, o: Options, env: Env, modulesDir: string,
                     index: int, target: Host)
    returns (task: Task, err: Option<Error>)
    requires StepIsPrepare(step, o, env, modulesDir)
    ensures fresh(task)
    ensures var r := step(target, index);
            (r.Err? ==> err == Some(r.error)) && (r.Ok? ==> err.None? && task.Record() == r.value)
  {
    task := new Task(index, target, o.remoteListen, o.proxyServer, o.uploadSrc, o.uploadDest, o.downloadSrc, o.downloadDest);
    err := task.ParseCommand(env, modulesDir, o.command, o.script, o.moduleName);
    assert step(target, index) == Prepared(o, env, modulesDir, index, target);
  }

  /** The body of addTask up to the append: NewHost, then the task
      literal and ParseCommand; `step` stands for AddSpec. */
  method MakeTask(step: (string, int) -> Result<TaskRecord>, o: Options, env: Env, modulesDir: string, fuel: nat,
                  target: string, index: int)
    returns (task: Task?, err: Option<Error>)
    requires StepIsAddTask(step, o, env, modulesDir, fuel)
    ensures var r := step(target, index);
            (r.Err? ==> err == Some(r.error)) &&
            (r.Ok? ==> err.None? && task != null && fresh(task) && task.Record() == r.value)
  {
    assert step(target, index) == AddSpec(o, env, modulesDir, fuel, target, index);
    var host := NewHost(env, o.username, target, o.port, o.proxyJump, o.identityFiles, fuel);
    if host.Err? {
      return null, Some(host.error);
    }
    var t;
    t, err := PrepareTask(PrepareStep(o, env, modulesDir), o, env, modulesDir, index, host.value);
    task := t;
  }

  // ---------------------------------------------------------------------
  // What the plans guarantee

  /** One more piece after a prefix that built `built` without error. */
  lemma PiecesPlanNext<T>(step: (string, int) -> Result<T>, pieces: seq<string>, start: int, j: nat, built: seq<T>)
    requires j < |pieces| && PiecesPlan(step, pieces[..j], start) == (built, None)
    ensures PiecesPlan(step, pieces[..j + 1], start) ==
            match step(pieces[j], start + |built|)
            case Err(e) => (built, Some(e))
            case Ok(t) => (built + [t], None)
  {
    assert pieces[..j + 1][..j] == pieces[..j];
  }

  /** One more host after a prefix that built `built` without error. */
  lemma TagPlanNext<T>(step: (Host, int) -> Result<T>, keep: Host -> bool, hosts: seq<Host>, start: int, i: nat,
                       built: seq<T>)
    requires i < |hosts| && TagPlan(step, keep, hosts[..i], start) == (built, None)
    ensures TagPlan(step, keep, hosts[..i + 1], start) ==
            if !keep(hosts[i]) then (built, None)
            else match step(hosts[i], start + |built|)
              case Err(e) => (built, Some(e))
              case Ok(t) => (built + [t], None)
  {
    assert hosts[..i + 1][..i] == hosts[..i];
  }

  lemma {:induction false} PiecesPlanStops<T>(step: (string, int) -> Result<T>, pieces: seq<string>,
                                           start: int, k: nat)
    requires k <= |pieces| && PiecesPlan(step, pieces[..k], start).1.Some?
    ensures PiecesPlan(step, pieces, start) == PiecesPlan(step, pieces[..k], start)
    decreases |pieces| - k
  {
    if k < |pieces| {
      assert pieces[..k + 1][..k] == pieces[..k];
      PiecesPlanStops(step, pieces, start, k + 1);
    } else {
      assert pieces[..k] == pieces;
    }
  }

  lemma {:induction false} TagPlanStops<T>(step: (Host, int) -> Result<T>, keep: Host -> bool,
                                        hosts: seq<Host>, start: int, k: nat)
    requires k <= |hosts| && TagPlan(step, keep, hosts[..k], start).1.Some?
    ensures TagPlan(step, keep, hosts, start) == TagPlan(step, keep, hosts[..k], start)
    decreases |hosts| - k
  {
    if k < |hosts| {
      assert hosts[..k + 1][..k] == hosts[..k];
      TagPlanStops(step, keep, hosts, start, k + 1);
    } else {
      assert hosts[..k] == hosts;
    }
  }

  /** Running the loop over `a + b`, when `a` adds `built` without an
      error, is running it over `b` after those tasks. */
  lemma {:induction false} PiecesPlanAppend<T>(step: (string, int) -> Result<T>, a: seq<string>, b: seq<string>,
                                            start: int, built: seq<T>)
    requires PiecesPlan(step, a, start) == (built, None)
    ensures var pb := PiecesPlan(step, b, start + |built|);
            PiecesPlan(step, a + b, start) == (built + pb.0, pb.1)
    decreases |b|
  {
    if |b| == 0 {
      assert a + b == a;
      assert built + [] == built;
    } else {
      var b' := b[..|b| - 1];
      assert (a + b)[..|a + b| - 1] == a + b';
      assert (a + b)[|a + b| - 1] == b[|b| - 1];
      PiecesPlanAppend(step, a, b', start, built);
      var pb' := PiecesPlan(step, b', start + |built|);
      if pb'.1.None? {
        match step(b[|b| - 1], start + |built| + |pb'.0|)
        case Err(e) =>
        case Ok(t) => assert built + pb'.0 + [t] == built + (pb'.0 + [t]);
      }
    }
  }

  lemma {:induction false} AllPiecesPrefix(targets: seq<string>, i: nat)
    requires 0 < i <= |targets|
    ensures AllPieces(targets[..i]) == AllPieces(targets[..i - 1]) + Split(targets[i - 1], ',')
    ensures AllPieces(targets[..i]) <= AllPieces(targets)
    decreases |targets| - i
  {
    assert targets[..i][..i - 1] == targets[..i - 1];
    if i < |targets| {
      AllPiecesPrefix(targets, i + 1);
    } else {
      assert targets[..i] == targets;
    }
  }

  /** The records of two task lists joined are the records of each. */
  lemma {:induction false} RecordsAppend(a: seq<Task>, b: seq<Task>)
    ensures Records(a + b) == Records(a) + Records(b)
    decreases |b|
  {
    if |b| == 0 {
      assert a + b == a;
    } else {
      assert (a + b)[..|a + b| - 1] == a + b[..|b| - 1];
      RecordsAppend(a, b[..|b| - 1]);
    }
  }

  /** One more target runs the loop over its pieces after the earlier
      targets' tasks. */
  lemma TargetsStep<T>(step: (string, int) -> Result<T>, targets: seq<string>, i: nat, start: int,
                       built: seq<T>, more: seq<T>, err: Option<Error>)
    requires i < |targets|
    requires PiecesPlan(step, AllPieces(targets[..i]), start) == (built, None)
    requires PiecesPlan(step, Split(targets[i], ','), start + |built|) == (more, err)
    ensures PiecesPlan(step, AllPieces(targets[..i + 1]), start) == (built + more, err)
  {
    AllPiecesPrefix(targets, i + 1);
    PiecesPlanAppend(step, AllPieces(targets[..i]), Split(targets[i], ','), start, built);
  }

  /** An error in the first `i` targets is the error of all of them. */
  lemma TargetsStop<T>(step: (string, int) -> Result<T>, targets: seq<string>, i: nat, start: int)
    requires 0 < i <= |targets| && PiecesPlan(step, AllPieces(targets[..i]), start).1.Some?
    ensures PiecesPlan(step, AllPieces(targets), start) == PiecesPlan(step, AllPieces(targets[..i]), start)
  {
    AllPiecesPrefix(targets, i);
    var done := AllPieces(targets[..i]);
    assert AllPieces(targets)[..|done|] == done;
    PiecesPlanStops(step, AllPieces(targets), start, |done|);
  }

  /** The loop, whole: the tasks built are the results of the first
      pieces in order, each at its own index; it stops with an error
      exactly when some piece fails, and that is the first failing piece. */
  lemma {:induction false} PiecesPlanMeaning<S, T>(step: (S, int) -> Result<T>, pieces: seq<S>, start: int)
    ensures var (built, err) := PiecesPlan(step, pieces, start);
            |built| <= |pieces| &&
            (forall j :: 0 <= j < |built| ==> step(pieces[j], start + j) == Ok(built[j])) &&
            (err.None? ==> |built| == |pieces|) &&
            (err.Some? ==> |built| < |pieces| && step(pieces[|built|], start + |built|) == Err(err.value))
    decreases |pieces|
  {
    if |pieces| > 0 {
      var p := pieces[..|pieces| - 1];
      PiecesPlanMeaning(step, p, start);
      var (built, err) := PiecesPlan(step, p, start);
      assert forall j :: 0 <= j < |p| ==> pieces[j] == p[j];
      if err.None? {
        match step(pieces[|pieces| - 1], start + |built|)
        case Err(e) =>
        case Ok(t) =>
          assert forall j :: 0 <= j < |built| ==> (built + [t])[j] == built[j];
      }
    }
  }

  /** Targets without commas are their own pieces; every piece is free
      of commas. */
  lemma {:induction false} AllPiecesMeaning(targets: seq<string>)
    ensures (forall i :: 0 <= i < |targets| ==> ',' !in targets[i]) ==> AllPieces(targets) == targets
    ensures forall k :: 0 <= k < |AllPieces(targets)| ==> ',' !in AllPieces(targets)[k]
    decreases |targets|
  {
    if |targets| > 0 {
      var p := targets[..|targets| - 1];
      var t := targets[|targets| - 1];
      assert p + [t] == targets;
      AllPiecesMeaning(p);
      SplitPieces(t, ',');
      var all := AllPieces(targets);
      assert all == AllPieces(p) + Split(t, ',');
      forall k | 0 <= k < |all|
        ensures ',' !in all[k]
      {
        if k >= |AllPieces(p)| {
          assert all[k] == Split(t, ',')[k - |AllPieces(p)|];
        }
      }
      if forall i :: 0 <= i < |targets| ==> ',' !in targets[i] {
        assert forall i :: 0 <= i < |p| ==> p[i] == targets[i];
        SplitNoSep(t, ',');
      }
    }
  }

  /** No error means one task per piece. */
  lemma AllPiecesSucceed<S, T>(step: (S, int) -> Result<T>, pieces: seq<S>, start: int)
    ensures PiecesPlan(step, pieces, start).1.None? <==>
            (forall j :: 0 <= j < |pieces| ==> step(pieces[j], start + j).Ok?)
  {
    PiecesPlanMeaning(step, pieces, start);
  }

  /** The tags loop is the plain loop over the hosts that match. */
  lemma {:induction false} TagPlanIsKeptPlan<T>(step: (Host, int) -> Result<T>, keep: Host -> bool,
                                             hosts: seq<Host>, start: int)
    ensures TagPlan(step, keep, hosts, start) == PiecesPlan(step, Kept(keep, hosts), start)
    decreases |hosts|
  {
    if |hosts| > 0 {
      var h := hosts[|hosts| - 1];
      var prior := Kept(keep, hosts[..|hosts| - 1]);
      TagPlanIsKeptPlan(step, keep, hosts[..|hosts| - 1], start);
      if keep(h) {
        assert (prior + [h])[..|prior|] == prior;
      } else {
        assert prior + [] == prior;
      }
    }
  }

  /** The matching hosts are exactly those of `hosts` that `keep` selects. */
  lemma {:induction false} KeptMeaning(keep: Host -> bool, hosts: seq<Host>)
    ensures |Kept(keep, hosts)| <= |hosts|
    ensures forall h :: h in Kept(keep, hosts) <==> h in hosts && keep(h)
    decreases |hosts|
  {
    if |hosts| > 0 {
      var p := hosts[..|hosts| - 1];
      KeptMeaning(keep, p);
      assert hosts == p + [hosts[|hosts| - 1]];
    }
  }

  /** A prepared task keeps its index and target as given, takes the
      listen, proxy and transfer settings from the options, starts with no
      outputer, and fails exactly when ParseCommand does. */
  lemma PreparedFields(o: Options, env: Env, modulesDir: string, index: int, target: Host)
    ensures var p := ParseCommandSpec(JumpText(target), "", "", env, modulesDir, o.command, o.script, o.moduleName);
            var r := Prepared(o, env, modulesDir, index, target);
            (r.Err? <==> p.err.Some?) &&
            (r.Err? ==> r.error == p.err.value) &&
            (r.Ok? ==> r.value.index == index && r.value.target == target &&
                       r.value.command == p.command && r.value.message == p.message && r.value.outputer == "" &&
                       r.value.remoteListen == o.remoteListen && r.value.proxyServer == o.proxyServer &&
                       r.value.uploadSrc == o.uploadSrc && r.value.uploadDest == o.uploadDest &&
                       r.value.downloadSrc == o.downloadSrc && r.value.downloadDest == o.downloadDest)
  {
  }

  /** The empty piece of a doubled or trailing comma is never a task: it
      fails with a missing hostname. */
  lemma EmptyPieceFails(o: Options, env: Env, modulesDir: string, fuel: nat, index: int)
    ensures AddSpec(o, env, modulesDir, fuel, "", index) == Err(HostnameRequired)
  {
    EmptyHostnameRejected(env, o.username, o.port, o.proxyJump, o.identityFiles, fuel);
  }

  /** Targets with an empty piece make InitTasks fail, at that piece or
      before it. */
  lemma EmptyTargetPieceStops(o: Options, targets: seq<string>, env: Env, modulesDir: string, fuel: nat,
                              decode: string -> Result<seq<Block>>, fill: Host -> Host,
                              matchTags: (Host, seq<string>) -> bool, start: int, k: nat)
    requires |o.tags| == 0 && k < |AllPieces(targets)| && AllPieces(targets)[k] == ""
    ensures var plan := InitPlan(o, targets, env, modulesDir, fuel, decode, fill, matchTags, start);
            plan.1.Some? && |plan.0| <= k
  {
    PiecesPlanMeaning(AddStep(o, env, modulesDir, fuel), AllPieces(targets), start);
    EmptyPieceFails(o, env, modulesDir, fuel, start + k);
  }

  /** The tag check of InitTasks never reports a tag. */
  lemma {:induction false} NoInvalidTag(tags: seq<string>)
    ensures FirstInvalidTag(tags) == None
    decreases |tags|
  {
    if |tags| > 0 {
      CheckTagsNeverFails(tags[0]);
      NoInvalidTag(tags[1..]);
    }
  }

  /** A step whose tasks carry the index they are built at. */
  ghost predicate KeepsIndex<S(!new)>(step: (S, int) -> Result<TaskRecord>) {
    forall x: S, i: int :: step(x, i).Ok? ==> step(x, i).value.index == i
  }

  lemma AddStepKeepsIndex(o: Options, env: Env, modulesDir: string, fuel: nat)
    ensures KeepsIndex(AddStep(o, env, modulesDir, fuel))
  {
  }

  lemma PrepareStepKeepsIndex(o: Options, env: Env, modulesDir: string)
    ensures KeepsIndex(PrepareStep(o, env, modulesDir))
  {
  }

  /** The loop of such a step numbers its tasks from `start`. */
  lemma PlanIndexed<S(!new)>(step: (S, int) -> Result<TaskRecord>, items: seq<S>, rs: seq<TaskRecord>)
    requires KeepsIndex(step) && Indexed(rs)
    ensures Indexed(rs + PiecesPlan(step, items, |rs|).0)
  {
    var built := PiecesPlan(step, items, |rs|).0;
    PiecesPlanMeaning(step, items, |rs|);
    forall i | 0 <= i < |rs + built|
      ensures (rs + built)[i].index == i
    {
      if i >= |rs| {
        assert (rs + built)[i] == built[i - |rs|];
        assert step(items[i - |rs|], i) == Ok(built[i - |rs|]);
      }
    }
  }

  /** Every task InitTasks appends has its position as Index. */
  lemma InitPlanIndexed(o: Options, targets: seq<string>, env: Env, modulesDir: string, fuel: nat,
                        decode: string -> Result<seq<Block>>, fill: Host -> Host,
                        matchTags: (Host, seq<string>) -> bool, rs: seq<TaskRecord>)
    requires Indexed(rs)
    ensures Indexed(rs + InitPlan(o, targets, env, modulesDir, fuel, decode, fill, matchTags, |rs|).0)
  {
    if |o.tags| > 0 {
      NoInvalidTag(o.tags);
      var (hosts, err) := HostsFromConfigFile(env, decode, fill);
      if err.None? {
        TagPlanIsKeptPlan(PrepareStep(o, env, modulesDir), Selected(matchTags, o.tags), hosts, |rs|);
        PrepareStepKeepsIndex(o, env, modulesDir);
        PlanIndexed(PrepareStep(o, env, modulesDir), Kept(Selected(matchTags, o.tags), hosts), rs);
      } else {
        assert rs + [] == rs;
      }
    } else {
      AddStepKeepsIndex(o, env, modulesDir, fuel);
      PlanIndexed(AddStep(o, env, modulesDir, fuel), AllPieces(targets), rs);
    }
  }
}
