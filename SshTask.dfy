/** ssh/task.go: the older Task, from before tasks moved into the
    configuration package.

    It parses its command with the same rules as the newer one, with the
    modules directory of the global configuration, and starts itself the
    same way, except that its record has no listen address or proxy, so
    its shell takes no arguments. */
module SshTask {
  import opened Base
  import opened Strs
  import opened ConfigHost
  import opened TaskConfig
  import opened SshClient
  import SshStart

  class Task {
    var index: int
    var target: Host
    var command: string
    var message: string
    var outputer: string
    var uploadSrc: string
    var uploadDest: string
    var downloadSrc: string
    var downloadDest: string

    constructor (index: int, target: Host, command: string, message: string, outputer: string,
                 uploadSrc: string, uploadDest: string, downloadSrc: string, downloadDest: string)
      ensures this.index == index && this.target == target && this.command == command
      ensures this.message == message && this.outputer == outputer
      ensures this.uploadSrc == uploadSrc && this.uploadDest == uploadDest
      ensures this.downloadSrc == downloadSrc && this.downloadDest == downloadDest
    {
      this.index, this.target, this.command, this.message, this.outputer := index, target, command, message, outputer;
      this.uploadSrc, this.uploadDest, this.downloadSrc, this.downloadDest := uploadSrc, uploadDest, downloadSrc, downloadDest;
    }

    /** ParseCommand; `modulesDir` is config.Config.ModulesDir and `env`
        supplies ioutil.ReadFile. Only Command and Message change. */
    method ParseCommand(env: Env, modulesDir: string, command: string, script: string, moduleName: string)
      returns (err: Option<Error>)
      modifies `command, `message
      ensures Parsed(this.command, message, err) ==
              ParseCommandSpec(JumpText(target), old(this.command), old(message), env, modulesDir, command, script, moduleName)
    {
      var jump := JumpString(target);
      if jump != "" {
        message := "jump: " + jump;
      }
      if command == "" {
        var path := script;
        if script == "" && moduleName != "" {
          path := JoinPath(modulesDir, moduleName + ".sh");
        }
        if path != "" {
          var content := env.ReadFile(path);
          if content.Err? {
            return Some(content.error);
          }
          this.command := content.value;
          message := message + " script: " + path + " ";
        }
      } else {
        this.command := command;
        message := message + " command: " + command + " ";
      }
      return None;
    }

    /** The action of this task: the shell takes no arguments. */
    function Action(): Call
      reads this
    {
      Dispatch(command, downloadSrc, downloadDest, uploadSrc, uploadDest, [])
    }

    /** Start: a new client connects the jump hops and the target, then
        performs the task's action. The calls it made come back with the
        error. */
    method Start(remote: Remote) returns (err: Option<Error>, calls: seq<Call>)
      ensures (calls, err) == RunTask(remote, target, Action())
    {
      var client := new Client();
      err := ConnectAll(client, remote, target.jumpList + [target]);
      if err.Some? {
        return err, client.log;
      }
      if command != "" {
        var exitCode;
        exitCode, err := client.Execute(remote, command);
        return err, client.log;
      }
      if downloadSrc != "" {
        err := client.Download(remote, downloadSrc, downloadDest);
        return err, client.log;
      }
      if uploadSrc != "" {
        err := client.Upload(remote, uploadSrc, uploadDest);
        return err, client.log;
      }
      err := client.Shell(remote, []);
      return err, client.log;
    }
  }

  /** The older task acts like the newer one on the same fields, except
      that its shell, when nothing else is given, has no arguments. */
  lemma ActionAgrees(t: TaskRecord)
    ensures var older := Dispatch(t.command, t.downloadSrc, t.downloadDest, t.uploadSrc, t.uploadDest, []);
            (t.command != "" || t.downloadSrc != "" || t.uploadSrc != "" ==> older == SshStart.TaskAction(t)) &&
            (t.command == "" && t.downloadSrc == "" && t.uploadSrc == "" ==>
               older == Call.Shell([]) && SshStart.TaskAction(t) == Call.Shell([t.remoteListen, t.proxyServer]))
  {
  }
}
