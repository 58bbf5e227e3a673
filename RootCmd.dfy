/** cmd/root.go: what the root command does with its positional
    arguments once the flags are parsed.

    --version short-circuits; otherwise the hosts come either from the
    --host flags or from the positional arguments, never both, the tasks
    are built and, when that succeeds, started. The flag wiring itself
    is not modelled: the flags arrive as the fields of the TaskConfig and
    as `showVersion`. */
module RootCmd {
  import opened Base
  import opened ConfigHost
  import opened SshConfigFile
  import opened TaskConfig
  import opened SshClient
  import opened SshStart

  /** What RunE leaves in Targets and in the task list, the events of the
      run and its error, from the targets `targets` and the tasks `rs`
      before it. */
  function RunSpec(showVersion: bool, targets: seq<string>, args: seq<string>, rs: seq<TaskRecord>, o: Options,
                   failedContinue: bool, env: Env, modulesDir: string, fuel: nat,
                   decode: string -> Result<seq<Block>>, fill: Host -> Host, matchTags: (Host, seq<string>) -> bool,
                   widthAt: nat -> Option<int>, remote: Remote)
    : (seq<string>, seq<TaskRecord>, seq<Event>, Option<Error>)
  {
    if showVersion then (targets, rs, [], None)
    else if |targets| > 0 && |args| > 0 then (targets, rs, [], Some(TargetsAndArgs))
    else if |targets| == 0 && |args| == 0 then (targets, rs, [], Some(TargetRequired))
    else
      var targets' := targets + args;
      var (rs', events, err) := Launch(targets', rs, o, failedContinue, env, modulesDir, fuel, decode, fill,
                                       matchTags, widthAt, remote);
      (targets', rs', events, err)
  }

  /** Building the tasks of `targets` after `rs` and, when that succeeds,
      starting the whole list. */
  function Launch(targets: seq<string>, rs: seq<TaskRecord>, o: Options, failedContinue: bool, env: Env,
                  modulesDir: string, fuel: nat, decode: string -> Result<seq<Block>>, fill: Host -> Host,
                  matchTags: (Host, seq<string>) -> bool, widthAt: nat -> Option<int>, remote: Remote)
    : (seq<TaskRecord>, seq<Event>, Option<Error>)
  {
    var plan := InitPlan(o, targets, env, modulesDir, fuel, decode, fill, matchTags, |rs|);
    var rs' := rs + plan.0;
    if plan.1.Some? then (rs', [], plan.1)
    else
      var (events, err) := StartSpec(rs', failedContinue, widthAt, remote);
      (rs', events, err)
  }

  /** RunE on the global task configuration `tc`. */
  method RunE(tc: TaskConfig, showVersion: bool, args: seq<string>, env: Env, modulesDir: string, fuel: nat,
              decode: string -> Result<seq<Block>>, fill: Host -> Host, matchTags: (Host, seq<string>) -> bool,
              widthAt: nat -> Option<int>, remote: Remote)
    returns (err: Option<Error>, events: seq<Event>)
    modifies tc`targets, tc`tasks
    ensures (tc.targets, Records(tc.tasks), events, err) ==
            RunSpec(showVersion, old(tc.targets), args, old(Records(tc.tasks)), tc.Opts(), tc.failedContinue,
                    env, modulesDir, fuel, decode, fill, matchTags, widthAt, remote)
  {
    if showVersion {
      return None, [];
    }
    if |tc.targets| > 0 {
      if |args| > 0 {
        return Some(TargetsAndArgs), [];
      }
    } else {
      if |args| == 0 {
        return Some(TargetRequired), [];
      }
      tc.targets := tc.targets + args;
    }
    assert tc.targets == old(tc.targets) + args;
    err, events := RunTasks(tc, env, modulesDir, fuel, decode, fill, matchTags, widthAt, remote);
  }

  /** The end of RunE: InitTasks and, when it succeeds, Start. */
  method RunTasks(tc: TaskConfig, env: Env, modulesDir: string, fuel: nat,
                  decode: string -> Result<seq<Block>>, fill: Host -> Host, matchTags: (Host, seq<string>) -> bool,
                  widthAt: nat -> Option<int>, remote: Remote)
    returns (err: Option<Error>, events: seq<Event>)
    modifies tc`tasks
    ensures (Records(tc.tasks), events, err) ==
            Launch(tc.targets, old(Records(tc.tasks)), tc.Opts(), tc.failedContinue, env, modulesDir, fuel,
                   decode, fill, matchTags, widthAt, remote)
  {
    err := tc.InitTasks(env, modulesDir, fuel, decode, fill, matchTags);
    if err.Some? {
      return err, [];
    }
    err, events := Start(tc, widthAt, remote);
  }

  /** The checks before any task is built: --version wins over
      everything and changes nothing; hosts given both ways, or not at
      all, are errors that change nothing; otherwise the positional
      arguments become the targets only when no --host was given. */
  lemma ArgumentRules(showVersion: bool, targets: seq<string>, args: seq<string>, rs: seq<TaskRecord>, o: Options,
                      failedContinue: bool, env: Env, modulesDir: string, fuel: nat,
                      decode: string -> Result<seq<Block>>, fill: Host -> Host, matchTags: (Host, seq<string>) -> bool,
                      widthAt: nat -> Option<int>, remote: Remote)
    ensures var (targets', rs', events, err) :=
              RunSpec(showVersion, targets, args, rs, o, failedContinue, env, modulesDir, fuel, decode, fill,
                      matchTags, widthAt, remote);
            (showVersion ==> targets' == targets && rs' == rs && events == [] && err.None?) &&
            (!showVersion && |targets| > 0 && |args| > 0 ==>
               targets' == targets && rs' == rs && events == [] && err == Some(TargetsAndArgs)) &&
            (!showVersion && |targets| == 0 && |args| == 0 ==>
               targets' == targets && rs' == rs && events == [] && err == Some(TargetRequired)) &&
            (!showVersion && (|targets| == 0) != (|args| == 0) ==>
               targets' == (if |targets| == 0 then args else targets) && rs <= rs')
  {
    if !showVersion && (|targets| == 0) != (|args| == 0) {
      if |targets| > 0 {
        assert targets + args == targets;
      }
    }
  }

  /** A task list that cannot be built is reported before anything runs. */
  lemma BuildErrorRunsNothing(showVersion: bool, targets: seq<string>, args: seq<string>, rs: seq<TaskRecord>,
                              o: Options, failedContinue: bool, env: Env, modulesDir: string, fuel: nat,
                              decode: string -> Result<seq<Block>>, fill: Host -> Host,
                              matchTags: (Host, seq<string>) -> bool, widthAt: nat -> Option<int>, remote: Remote)
    requires !showVersion && (|targets| == 0) != (|args| == 0)
    requires InitPlan(o, targets + args, env, modulesDir, fuel, decode, fill, matchTags, |rs|).1.Some?
    ensures var (_, _, events, err) :=
              RunSpec(showVersion, targets, args, rs, o, failedContinue, env, modulesDir, fuel, decode, fill,
                      matchTags, widthAt, remote);
            events == [] && err == InitPlan(o, targets + args, env, modulesDir, fuel, decode, fill, matchTags, |rs|).1
  {
  }

  /** A run without --force that ends without an error has run every
      task of the list, in order, and each of them succeeded; there was
      at least one, unless --version was given. */
  lemma SuccessRanEverything(showVersion: bool, targets: seq<string>, args: seq<string>, rs: seq<TaskRecord>,
                             o: Options, env: Env, modulesDir: string, fuel: nat,
                             decode: string -> Result<seq<Block>>, fill: Host -> Host,
                             matchTags: (Host, seq<string>) -> bool, widthAt: nat -> Option<int>, remote: Remote)
    requires !showVersion
    ensures var (_, rs', events, err) :=
              RunSpec(showVersion, targets, args, rs, o, false, env, modulesDir, fuel, decode, fill,
                      matchTags, widthAt, remote);
            err.None? ==>
              |rs'| > 0 && RanPositions(events) == Upto(|rs'|) &&
              forall j :: 0 <= j < |rs'| ==> TaskError(rs'[j], remote).None?
  {
    var (targets', rs', events, err) :=
      RunSpec(showVersion, targets, args, rs, o, false, env, modulesDir, fuel, decode, fill, matchTags, widthAt, remote);
    if err.None? {
      var plan := InitPlan(o, targets + args, env, modulesDir, fuel, decode, fill, matchTags, |rs|);
      assert (rs', events, err) == Launch(targets + args, rs, o, false, env, modulesDir, fuel, decode, fill,
                                          matchTags, widthAt, remote);
      assert rs' == rs + plan.0 && (events, err) == StartSpec(rs', false, widthAt, remote);
      AbortSuccessRanAll(rs', widthAt, remote);
    }
  }
}
