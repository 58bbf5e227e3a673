/** Shared vocabulary of the model: optional values, results carrying the
    program's error kinds, and the process environment that the Go code
    reaches through os.Getenv, os.Stat, os.ReadFile and the ssh_config
    library. */
module Base {

  datatype Option<+T> = None | Some(value: T)

  /** The error values the program creates, one constructor per message. */
  datatype Error =
    | HostnameRequired                  // "hostname is required non-empty string!"
    | UsernameAlreadySet(hostname: string)
    | InvalidHostnameFormat(hostname: string)
    | PortAlreadySet(hostname: string)
    | InvalidPortFormat(text: string)
    | JumpDepthExceeded(jump: string)   // the fuel bound of the model ran out
    | AtoiFailed(text: string)          // an error from strconv.Atoi
    | InvalidPort(text: string)         // "invalid port: %s"
    | ReadFailed(path: string)          // os.ReadFile failed
    | External(message: string)         // an error handed back by a collaborator
    | InvalidTags                       // "Invalid tags!"
    | InvalidTaskTag(tag: string)       // "invalid tags: %s"
    | NoTasks                           // Start called with an empty task list
    | TargetsAndArgs                    // "host name and args can not be used together"
    | TargetRequired                    // "host name is required"
    | ExitStatus(code: int)             // the remote command exited non-zero

  datatype Result<+T> = Ok(value: T) | Err(error: Error) {
    predicate IsFailure() { Err? }
    function PropagateFailure<U>(): Result<U> requires Err? { Err(error) }
    function Extract(): T requires Ok? { value }
  }

  /** What the program observes of its surroundings. A path is "existing"
      when os.Stat succeeds on it; it is readable when `files` holds its
      content. `sshValue` and `sshValues` are the answers of the ssh_config
      library's Get and GetAll for an (alias, key) pair. */
  datatype Env = Env(
    vars: map<string, string>,
    existing: set<string>,
    files: map<string, string>,
    sshValue: map<(string, string), string>,
    sshValues: map<(string, string), seq<string>>)
  {
    /** os.Getenv: an unset variable reads as "". */
    function Getenv(name: string): string {
      if name in vars then vars[name] else ""
    }

    /** ssh_config.Get: a key with no value reads as "". */
    function SshGet(alias: string, key: string): string {
      if (alias, key) in sshValue then sshValue[(alias, key)] else ""
    }

    /** ssh_config.GetAll: a key with no value reads as no values. */
    function SshGetAll(alias: string, key: string): seq<string> {
      if (alias, key) in sshValues then sshValues[(alias, key)] else []
    }

    predicate Exists(path: string) {
      path in existing
    }

    function ReadFile(path: string): Result<string> {
      if path in files then Ok(files[path]) else Err(ReadFailed(path))
    }
  }
}
