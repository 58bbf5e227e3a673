# dssh: target resolution and task sequencing

dssh is a command-line ssh tool. It takes host identifiers such as
`user@host:port`, tag selections or comma-separated host lists. It
resolves each one against the ssh client configuration and the
environment, builds one task per host, and runs the tasks in order over
ssh: a command, a script or module, a download, an upload or a shell.

This project models that core in Dafny and proves what it promises:

- `ConfigHost`: host resolution (`config/host.go`).
- `SshConfigFile`: conversion of ssh config blocks and tag extraction
  (`config/ssh_config.go`).
- `AppConfig`: the program's own alias table, its filter and the default jump
  hosts (`config/config.go`).
- `TaskConfig`: task building (`config/task_config.go`).
- `SshClient` and `SshStart`: orchestration (`ssh/start.go`). The ssh client
  these drive (`ssh/client.go`) is an oracle.
- `SshTask`: the older task (`ssh/task.go`).
- `RootCmd`: the root command's target and argument rules (`cmd/root.go`).
- `Logger`: the log level (`logger/logger.go`).
- `NetUtils` and `SshTools`: local address helpers (`utils/net.go`,
  `ssh/tools.go`).
- `Base` and `Strs`: the shared results and environment, and the Go string
  functions the code relies on.

How the environment is represented:

- **Environment.** The environment is a value `Env`. It holds:
  - the process environment (`os.Getenv`);
  - the files that exist (`os.Stat`);
  - the readable files and their contents (`ioutil.ReadFile`);
  - the ssh client configuration's `Get`/`GetAll` answers, as maps from
    (alias, key).
- **Remote side.** The remote side of a task is a value `Remote`, an oracle.
  It says what a connection, a command session, a download, an upload or a
  shell returns, given the hops already connected.
- **Run record.** A run is recorded as a list of events:
  - the banner lines;
  - the client calls of each task;
  - the `[ERROR]` reports of a run that continues past failures.
- **Imperative code.** Code that changes state step by step is written as
  Dafny methods. Examples are `NewHost`, the ssh config loops,
  `ConfigHostsFilter`, `ParseCommand`, `addTask`/`InitTasks`, `Start`, the hop
  loop and `RunE`. Objects the source updates in place are classes:
  `ConfigType`, `Task`, `TaskConfig`, `Client` and `LevelEnum`.
- **Specifications.** Each method is proved equal to a specification function
  of its inputs and old state. The lemmas state the source's promises about
  those functions.

Nested jumps are resolved. The code builds every jump host with an empty
`ProxyJump` (config/host.go:131-141); that call then reads the jump host's
own ssh config `ProxyJump`, so a chain of jumps is followed
(`ConfigHost.JumpHostKeepsOwnJump`, `ConfigHost.NestedJumpResolves`).

## Model

| member | source | states |
|---|---|---|
| ConfigHost.NewHost | config/host.go:26-150 | the resolved host or the error is exactly ResolveHost, the step-by-step precedence rules below |
| ConfigHost.EmptyHostnameRejected | config/host.go:36-38 | an empty identifier fails with the missing-hostname error whatever else is given |
| ConfigHost.SplitUserMeaning | config/host.go:40-52 | without '@' nothing changes; with '@' a given username is an error; otherwise the split succeeds exactly when there is one '@', giving the user and host on either side of it |
| ConfigHost.UserShorthand | config/host.go:40-52 | `u@rest` with a single '@' yields user u and host rest |
| ConfigHost.SplitPortMeaning | config/host.go:54-73 | without ':' nothing changes; with ':' a non-zero port is an error, more or fewer than two parts is an error, and a success means `h:text` with text parsing to a port of at least 1 |
| ConfigHost.PortShorthand | config/host.go:54-73 | `h:digits` with a single ':' yields host h and the parsed port |
| ConfigHost.PortOfResolvedHost | config/host.go:54-90 | a resolved host's port is always in 1..65535, and an explicit port wins |
| ConfigHost.PortFromSshConfig | config/host.go:75-90 | with no explicit or shorthand port, a bad ssh config `Port` fails with InvalidPortFormat for the alias, and a resolved host takes the configured port |
| ConfigHost.PortOfShorthand | config/host.go:54-76 | a `host:port` shorthand's port is the resolved host's port |
| ConfigHost.CompleteHost | config/host.go:75-146 | the completion after the shorthand splits equals the specification Complete on the configured user |
| ConfigHost.UserOfResolvedHost | config/host.go:92-101 | the user is never empty and is the first non-empty of the caller's, ssh config's User, $USER, "root" |
| ConfigHost.FilterExisting | config/host.go:103-124 | the existence filter loop returns ExistingFiles |
| ConfigHost.ExistingFilesMeaning | config/host.go:103-124 | the kept files are exactly the given ones that exist, and all of them when all exist |
| ConfigHost.ExistingFilesAppend | config/host.go:103-124 | the kept files keep the order of the given files: filtering a concatenation is the concatenation of the filtered parts |
| ConfigHost.NewIdentityFiles | config/host.go:103-124 | the identity-file loop returns ConfiguredIdentityFiles |
| ConfigHost.IdentityFilesOfResolvedHost | config/host.go:103-124 | never empty: the existing caller files, else the existing ssh config IdentityFile values, else exactly [$HOME/.ssh/id_rsa] |
| ConfigHost.NewJumpHosts | config/host.go:131-141 | the jump loop returns ResolveJumps of the pieces |
| ConfigHost.JumpTurn | config/host.go:132-140 | one turn of the jump loop skips an empty piece, adds a resolved jump host to the list, and ends the loop with the error of a piece that does not resolve or has no fuel left |
| ConfigHost.JumpsOfPieces | config/host.go:131-141 | one jump host per non-empty piece, in order, each resolved with no user, port or jump and the parent's identity files |
| ConfigHost.FailingJumpFails | config/host.go:131-141 | one failing piece fails the whole resolution |
| ConfigHost.JumpsOfResolvedHost | config/host.go:126-141 | a caller ProxyJump wins, without one the ssh config ProxyJump of the alias is used, and the jump list matches the non-empty pieces of the host's ProxyJump one for one |
| ConfigHost.JumpHostKeepsOwnJump | config/host.go:126-141 | a jump host, built with an empty ProxyJump, takes up its own ssh config ProxyJump |
| ConfigHost.NestedJumpResolves | config/host.go:126-141 | when a host's single jump resolves to a host with jumps of its own, the host resolves with that jump host as its only jump, nested jumps included |
| ConfigHost.RoundTrip | config/host.go:143-164 | `u@h:p` with no ssh config HostName for h, whatever its ProxyJump, resolves (when it resolves) to user u, host h, port p, and its Summary is `u@h:p` again; with no ProxyJump either it always resolves, with no jumps |
| ConfigHost.Summaries | config/host.go:159-164 | one Summary per host, in order |
| ConfigHost.JumpString | config/host.go:166-172 | the loop returns the hop summaries joined by "," |
| ConfigHost.CheckTagsNeverFails | config/host.go:174-181 | the unanchored tag pattern matches every string, so CheckTags never reports an error |
| SshConfigFile.HostFromSshConfig | config/ssh_config.go:15-53 | the conversion loop returns ConvertBlock of the block |
| SshConfigFile.LastOccurrenceWins | config/ssh_config.go:24-50 | for HostName, User, ProxyJump and Port the last node with the key gives the value |
| SshConfigFile.AbsentKey | config/ssh_config.go:24-50 | a key that occurs in no node leaves its field empty |
| SshConfigFile.IdentityFilesInOrder | config/ssh_config.go:46-47 | the IdentityFile values are exactly those of the nodes, accumulated in node order |
| SshConfigFile.NodeWithoutKey | config/ssh_config.go:24-50 | a node with another key changes no field's value |
| SshConfigFile.IgnoredNode | config/ssh_config.go:25-27 | empty nodes and unrecognised keys leave the conversion unchanged |
| SshConfigFile.NoPortError | config/ssh_config.go:35-43 | no error exactly when no Port node is a bad port |
| SshConfigFile.FirstBadPortReported | config/ssh_config.go:35-43 | the error is that of the first bad Port node |
| SshConfigFile.ConvertBlockOutcome | config/ssh_config.go:15-53 | conversion fails exactly when some Port value is not a number in 1..65535; on success the patterns are copied and the port is the last Port value |
| SshConfigFile.ClassRun | config/ssh_config.go:89 | the longest prefix made of the tag character class, with `A-z` also taking `[ \ ] ^ _` and the backquote |
| SshConfigFile.SubmatchAfter | config/ssh_config.go:89-91 | the submatch after the first `tags:` is the whole run of class characters following it |
| SshConfigFile.AppendTags | config/ssh_config.go:88-99 | the tag loop appends ExtractTags of the comment |
| SshConfigFile.ExtractedTagsWellFormed | config/ssh_config.go:88-99 | every extracted tag is non-empty, of class characters, and holds no comma |
| SshConfigFile.TagsRoundTrip | config/ssh_config.go:88-99 | a comment `...tags:a,b,c` followed by a non-class character yields exactly [a, b, c] |
| SshConfigFile.GetHostsFromSshConfig | config/ssh_config.go:55-106 | the listing loop returns HostsFromConfigFile |
| SshConfigFile.MissingConfigFile | config/ssh_config.go:58-61 | a missing ~/.ssh/config gives no hosts and no error |
| SshConfigFile.NoListingError | config/ssh_config.go:73-77 | the listing fails exactly when some block fails to convert |
| SshConfigFile.FirstFailureStops | config/ssh_config.go:73-77 | the first failing block's error is returned with the hosts listed before it |
| SshConfigFile.ListBlocksStops | config/ssh_config.go:73-77 | after an error no later block changes the outcome |
| SshConfigFile.ListedHostsHaveNames | config/ssh_config.go:79-86 | every listed host comes from a block that converts with a non-empty HostName |
| SshConfigFile.GetHostNames | config/ssh_config.go:108-122 | the plain patterns of the listed hosts, and nothing when the listing fails |
| SshConfigFile.AppendPlain | config/ssh_config.go:114-119 | the pattern loop appends PlainPatterns |
| SshConfigFile.PlainPatternsMeaning | config/ssh_config.go:114-119 | the kept patterns are exactly those without `*`, `!` or `?` |
| SshConfigFile.HostNamesMeaning | config/ssh_config.go:113-120 | a name is listed exactly when it is a wildcard-free pattern of some host |
| SshConfigFile.PlainPatternsAppend | config/ssh_config.go:114-119 | the kept patterns keep their order: filtering a concatenation is the concatenation of the filtered parts |
| SshConfigFile.HostNamesAppend | config/ssh_config.go:108-122 | the names keep the order of the hosts: the names of a concatenation are the names of the first part followed by those of the second |
| AppConfig.AuthSockChoice | config/config.go:37-44 | $SSH_AUTH_SOCK when set, else a path ending in .ssh/ssh_auth_sock; never empty |
| AppConfig.ConfigType.constructor | config/config.go:35 | Parallel 1 and OverlayTimeout -1, every other field empty |
| AppConfig.ConfigType.LoadConfig | config/config.go:18-77 | a decode error changes nothing; otherwise the settings are stored, and Parallel, the overlay fields and JumpHosts take the file's values where it has their keys (the decoder ignores the `yaml:"-"` tags) and keep their old values elsewhere; the agent socket is filled only when unset; a failing host entry stops before the jump hosts; else the table is parsed and the jump loop's hosts, chosen with the decoded overlay jump, are appended |
| AppConfig.LoadTables | config/config.go:55-75 | a failing table entry builds no jump host; otherwise the parsed table and the jump loop |
| AppConfig.ParseHosts | config/config.go:55-61 | no error exactly when every entry, named and formatted, parses; the error is that of some entry |
| AppConfig.SelectJump | config/config.go:63-66 | a non-empty overlay jump replaces the default jump |
| AppConfig.JumpPiecesCount | config/config.go:67-68 | "" and "none" give no pieces; otherwise one piece per comma-separated part, rejoining to the jump string |
| AppConfig.ParseJumps | config/config.go:67-75 | the jump loop returns JumpLoop of the pieces |
| AppConfig.JumpLoopOrder | config/config.go:67-75 | no error exactly when every piece parses, and then one jump host per piece in order |
| AppConfig.JumpLoopStops | config/config.go:67-75 | after an error no later piece is used |
| AppConfig.ConfigType.ConfigHostsFilter | config/config.go:79-127 | with a name, exactly that host when present, ignoring the other filters; otherwise the hosts kept by the user and tag filters in ascending name order; the only error is the tag pattern's |
| AppConfig.FilterHosts | config/config.go:79-127 | the same result on a given table |
| AppConfig.MapKeys | config/config.go:88-91 | every key of the table once |
| AppConfig.SortedKeys | config/config.go:92 | a sorted permutation of the keys is still every key once |
| AppConfig.HasTags | config/config.go:112-118 | the piece loop finds a hit exactly when some piece is "all" or a substring of the host's tags |
| AppConfig.TrailingCommaKeepsAll | config/config.go:112-118 | a tag list ending in a comma keeps every host |
| AppConfig.AllKeepsAll | config/config.go:112-118 | the piece "all" keeps every host |
| TaskConfig.Task.ParseCommand | config/task_config.go:25-48 | Command, Message and the error are those of ParseCommandSpec on the old fields |
| TaskConfig.MessageOpensWithJump | config/task_config.go:26-29 | the message begins with `jump: <hops>` exactly when there are hops |
| TaskConfig.CommandWins | config/task_config.go:43-46 | a non-empty command is taken whatever script or module is given, never fails, and appends ` command: <c> ` |
| TaskConfig.ModuleIsScript | config/task_config.go:31-33 | a module alone is the script <ModulesDir>/<module>.sh |
| TaskConfig.ScriptIsRead | config/task_config.go:34-41 | a script is read eagerly: unreadable is an error that leaves Command, readable becomes Command and appends ` script: <path> ` |
| TaskConfig.NothingToRun | config/task_config.go:25-48 | with no command, script or module, Command keeps its value and the message holds only the jump part |
| TaskConfig.TaskConfig.constructor | config/task_config.go:71-79 | no targets, no tasks, Parallel 1, FailedContinue false, every option empty |
| TaskConfig.TaskConfig.AddTask | config/task_config.go:81-102 | on success exactly one task is appended, with Index the old length; on any error the list is unchanged |
| TaskConfig.PreparedFields | config/task_config.go:87-99 | a prepared task fails exactly when ParseCommand fails, and copies the index, the target, the listen, proxy and transfer settings verbatim |
| TaskConfig.EmptyPieceFails | config/task_config.go:81-85 | an empty piece fails with the missing-hostname error |
| TaskConfig.TaskConfig.InitTasks | config/task_config.go:104-146 | the tasks appended and the error are those of InitPlan; tasks appended before an error stay |
| TaskConfig.BuildTasks | config/task_config.go:104-146 | the two branches of InitTasks compute InitPlan |
| TaskConfig.CheckTaskTags | config/task_config.go:105-110 | the error names the first tag the pattern rejects |
| TaskConfig.NoInvalidTag | config/task_config.go:105-110 | the pattern rejects no tag, so the check never fails |
| TaskConfig.AddTagTasks | config/task_config.go:117-135 | the tags loop computes TagPlan over the listed hosts |
| TaskConfig.PrepareTask | config/task_config.go:121-134 | a fresh task whose record is the step's result |
| TaskConfig.TagPlanIsKeptPlan | config/task_config.go:117-135 | the tags loop builds tasks for exactly the matching hosts, in configuration order |
| TaskConfig.KeptMeaning | config/task_config.go:117-120 | the matching hosts are exactly the listed hosts the tags select |
| TaskConfig.AddTargetTasks | config/task_config.go:137-143 | the targets loop computes the plan over every target's comma pieces |
| TaskConfig.AddPieceTasks | config/task_config.go:138-142 | the pieces loop computes PiecesPlan |
| TaskConfig.MakeTask | config/task_config.go:81-102 | a fresh task whose record is addTask's result |
| TaskConfig.AllPiecesMeaning | config/task_config.go:137-138 | the pieces hold no comma, and targets without commas are their own pieces |
| TaskConfig.PiecesPlanMeaning | config/task_config.go:137-143 | tasks are built piece by piece in order from the given index; the first failing piece stops the build with its error |
| TaskConfig.AllPiecesSucceed | config/task_config.go:137-143 | no error exactly when every piece succeeds |
| TaskConfig.EmptyTargetPieceStops | config/task_config.go:137-143 | a target with an empty piece (`a,,b`) makes InitTasks fail at or before it |
| TaskConfig.PiecesPlanStops | config/task_config.go:139-141 | after an error no later piece is used |
| TaskConfig.InitPlanIndexed | config/task_config.go:88 | every task's Index stays equal to its position |
| SshClient.ExecuteErrors | ssh/client.go:97-115 | Execute reports an error unless the command completed; a non-zero exit status is both the code and the error; otherwise the code is -1 |
| SshClient.Client.Connect | ssh/client.go:24-40 | the first host is dialled directly and later ones through the chain, which grows by the host exactly when the connection succeeds |
| SshClient.ConnectAll | ssh/start.go:16-20 | the hop loop on a fresh client computes ConnectHops |
| SshClient.ConnectHopsMeaning | ssh/start.go:16-20 | hops are connected in order, each through the ones before it; the first failure stops the loop |
| SshClient.ConnectHopsStops | ssh/start.go:16-20 | after a failed connection nothing else is attempted |
| SshClient.RunTaskMeaning | ssh/start.go:14-38 | the action runs only after the jump hops and the target all connected, as the last call |
| SshClient.DispatchOrder | ssh/start.go:22-37 | a command wins over a download, a download over an upload, an upload over the shell |
| SshClient.CommandStatusFails | ssh/start.go:22-25 | a command that exits with a non-zero status fails the task; the exit code is discarded |
| SshStart.TaskStart | ssh/start.go:14-38 | the calls and the error are those of RunTask on the task's action |
| SshStart.BannerPadding | ssh/start.go:46-55 | with a positive width the banner is padded by 1 to w dashes, to the smallest multiple of w greater than its byte length |
| SshStart.NoWidthNoBanner | ssh/start.go:46-47 | no banner exactly when the width is unavailable or not positive |
| SshStart.Start | ssh/start.go:40-66 | the events and the error are those of StartSpec on the tasks and the policy |
| SshStart.StartTasks | ssh/start.go:45-64 | the task loop computes StartLoop |
| SshStart.StartOne | ssh/start.go:46-57 | one task's banner and run are the runner's result for it |
| SshStart.StartLoopStops | ssh/start.go:62 | after an abort no later task changes the outcome |
| SshStart.NoTasksRunNothing | ssh/start.go:41-43 | no tasks: an error, and nothing runs |
| SshStart.TaskEventsRun | ssh/start.go:45-57 | each task reports one run, for its own position, reports no error event itself, and ends with its own error |
| SshStart.ContinueExtends | ssh/start.go:57-61 | one more task under FailedContinue extends the run positions by that task and the reported errors by its error, if any |
| SshStart.ContinueRunsAll | ssh/start.go:57-61 | with FailedContinue every task runs, in order, the loop ends without error, and the reported errors are exactly those of the failing tasks, in order |
| SshStart.RunnerReportsNothing | ssh/start.go:40-66 | running one task reports no error itself, and the failing tasks' errors are those of the tasks that fail, in order |
| SshStart.AbortStopsAtFirstFailure | ssh/start.go:57-63 | without FailedContinue the tasks run in order up to the first failure, whose error is returned |
| SshStart.StartContinues | ssh/start.go:40-66 | Start with FailedContinue on a non-empty list runs every task in order, returns no error, and reports exactly the errors of the failing tasks, in order |
| SshStart.StartAborts | ssh/start.go:40-66 | Start without FailedContinue runs the tasks in order; the error, if any, is that of the last task run, and all earlier ones succeeded |
| SshStart.AbortSuccessRanAll | ssh/start.go:40-66 | a run without FailedContinue that returns no error had at least one task, ran every task once in order, and each of them succeeded |
| SshTask.Task.constructor | ssh/task.go:12-22 | the older task record holds exactly the given fields, with no listen address or proxy |
| SshTask.Task.ParseCommand | ssh/task.go:24-47 | the same rules as the newer ParseCommand, with the global ModulesDir |
| SshTask.Task.Start | ssh/task.go:49-73 | the calls and the error are those of RunTask on its action |
| SshTask.ActionAgrees | ssh/task.go:57-72 | the older dispatch agrees with the newer one except that its shell takes no arguments |
| RootCmd.RunE | cmd/root.go:46-66 | the targets, tasks, events and error are those of RunSpec |
| RootCmd.RunTasks | cmd/root.go:62-65 | the tasks appended, the events and the error are those of Launch: the built tasks follow the old ones, and the list is started only when building succeeded |
| RootCmd.ArgumentRules | cmd/root.go:47-61 | --version wins and changes nothing; both --host and arguments, or neither, are errors that change nothing; otherwise arguments become the targets only without --host |
| RootCmd.BuildErrorRunsNothing | cmd/root.go:62-65 | an InitTasks error is returned before any task runs |
| RootCmd.SuccessRanEverything | cmd/root.go:46-66 | a run without --force that returns no error ran at least one task, every task in order, and each succeeded |
| Logger.LevelEnum.constructor | logger/logger.go:29 | the default level is error |
| Logger.LevelEnum.Set | logger/logger.go:31-49 | the six names are taken as is, anything else becomes error, and Set never fails |
| Logger.StringIsTheGlobal | logger/logger.go:51-53 | String reports the global LogLevel, not the receiver |
| Logger.Rank | logger/logger.go:59-69 | debug 0 < info 1 < warn 2 < error 3 < fatal 4 < panic 5; any other string 0 |
| Logger.RanksDistinct | logger/logger.go:59-69 | the six levels have distinct ranks, ordered as listed |
| Logger.EnabledFromSetting | logger/logger.go:59-69 | a level is enabled exactly when it comes at or after the setting |
| Logger.EnabledIsMonotone | logger/logger.go:68 | every level ranked above an enabled one is enabled |
| Logger.DefaultLevel | logger/logger.go:29 | at the default, debug, info and warn are dropped and error, fatal and panic are written |
| Logger.UnknownRanksAsDebug | logger/logger.go:59-69 | a string that is no level ranks with debug |
| NetUtils.GetSSHConnectIP | utils/net.go:9-16 | the third space-separated field of $SSH_CONNECTION exactly when there are four and it is non-empty, else "" |
| NetUtils.ConnectIPHasNoSpace | utils/net.go:9-16 | the address holds no space |
| NetUtils.ConnectIPOfFields | utils/net.go:9-16 | `client port server port` gives the server address |
| NetUtils.To4 | utils/net.go:26 | a 4-byte address, or the last 4 bytes of an IPv4-mapped 16-byte address; nothing else is IPv4 |
| NetUtils.GetLocalIPs | utils/net.go:18-32 | the address loop computes LocalIPsOf, nothing when enumeration fails |
| NetUtils.LocalIPsMeaning | utils/net.go:18-32 | exactly the non-loopback IPv4 addresses other than 169.254.1.1 are listed, never an empty string |
| NetUtils.LocalIPsAppend | utils/net.go:23-30 | the listing keeps the order of the addresses |
| NetUtils.GetLocalIP | utils/net.go:34-45 | never empty |
| NetUtils.LocalIPChoice | utils/net.go:34-45 | the ssh connect address, else the first listed address, else 0.0.0.0 |
| SshTools.GetSSHLocalHost | ssh/tools.go:10-17 | never empty |
| SshTools.LocalHostIsConnectIP | ssh/tools.go:10-17 | the same four-field rule as GetSSHConnectIP with 127.0.0.1 in place of "", and no space |
| SshTools.GetTerminalWidth | ssh/tools.go:19-25 | the reported width, or 80 when the size query fails |

## Left out

- The ssh transport is not modelled (`ssh/client.go`, `ssh/client_config.go`, `ssh/host.go`, `ssh/agent.go`). This covers dialing, tunnelling, PTY, prompts and the agent. Connect, Execute, Download, Upload and Shell are oracle answers in `Remote`. Only Execute's exit-code logic (client.go:97-115) is modelled.
- SFTP transfers, the SIGWINCH goroutine, the connection copy, the upgrade code, the file server and the password generator are not part of this model.
- Output is not modelled. Terminal output, the banner's and `[ERROR]`'s actual printing and `SetWindowTitle` are recorded as events or dropped. The log writers `Debugf` … `Fatal` and `LevelEnum.Type` are not modelled.
- The cobra flag wiring (`init`, `initConfig`, the sub-commands) is not modelled. The flags arrive as fields of `TaskConfig` and as `showVersion`. `printVersion` is not modelled.
- The following are parameters, not code:
  - `viper.Unmarshal` (`decoded`);
  - the ssh_config decoder (`decode`);
  - `FillAttrsWithSSHConfig` (`fill`), `Host.MatchTags` (`matchTags`), and `Host.Parse`/`TagsFormat`/`parse(true)` of the older alias host;
  - `homedir.Dir` (`homeDir`);
  - `term.GetSize` (`widthAt`, `size`);
  - `net.InterfaceAddrs` (`enumerated`).
- Regular expressions are modelled by their effective character class. Go's `regexp` engine is not modelled.
- ResolveHost: jump recursion is bounded by a `fuel` parameter. A jump piece that still needs resolving at fuel 0 fails with JumpDepthExceeded. The source recurses without bound and would not terminate on a cyclic ssh config.
- JoinPath: does not apply `filepath.Clean` (`.`/`..` and repeated `/` are not collapsed).
- Atoi: its two error kinds (syntax, range) are one error. The int64 range is kept, and `uint16` is the `Port` subset type.
- Missing ssh config lookups read as "" or []. The library's built-in defaults, such as Port 22, are taken to be entries of the table. This also makes the port-22 fallback of config/host.go:86-89 dead code under this model.
- `math.Mod` on float64 (ssh/start.go:50) is integer `%`. This is exact for message lengths and widths of these sizes. The banner length is the UTF-8 byte length, as Go's `len`.
- Go map iteration order is left open. This affects ParseHosts (which entry's error is reported) and MapKeys (the key order before sorting).
- AppConfig.LoadTables: does not pin the partial rewrite of the hosts table, when a later entry fails, to the entries visited before it. The error and the absence of jump hosts are stated.
- `ConfigType.Parallel` and `TaskConfig.Parallel` are stored but never read by the modelled code.
- AppConfig.ConfigType.LoadConfig: a decode error is taken to leave every field as it was. The decoder may already have set the fields it decoded before the one that failed.
- `GetHostNames` of config/host.go:183-197 is the same loop as config/ssh_config.go:108-122. It is modelled once, as SshConfigFile.GetHostNames.
- StartLoop, PiecesPlan and TagPlan take the per-item step as a function parameter. Named functions (`Runner`, `AddStep`, `PrepareStep`) supply the task functions, and lemmas tie those functions to their specifications.
- `EndPoint` and `Summary` (config/host.go:152-164) have no contract of their own. Their rendering is stated through ConfigHost.RoundTrip and the banner.
