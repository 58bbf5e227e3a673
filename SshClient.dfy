/** The remote side of a task, as ssh/start.go and ssh/task.go drive it.

    The ssh client itself (dialing, sessions, sftp) is not modelled: what
    each remote operation answers is an oracle in `Remote`, given the hops
    connected so far. A Client keeps that chain of hops, standing for its
    sshClient, and the log of the operations it was asked to perform. */
module SshClient {
  import opened Base
  import opened ConfigHost

  /** An exit status that Wait reports as an error: a status of zero is a
      completed command, never an ssh.ExitError. */
  type FailingStatus = status: int | status != 0 witness 1

  /** How a command session ends: no session could be made, Start failed,
      Wait reported an ssh.ExitError with a status, Wait failed otherwise,
      or the command completed. */
  datatype SessionOutcome =
    | NoSession(error: Error)
    | StartFailed(error: Error)
    | Exited(status: FailingStatus)
    | WaitFailed(error: Error)
    | Completed

  /** Client.Execute (ssh/client.go:97-115): the exit code and the error. */
  function ExecuteResult(outcome: SessionOutcome): (r: (int, Option<Error>)) {
    match outcome
    case NoSession(e) => (-1, Some(e))
    case StartFailed(e) => (-1, Some(e))
    case Exited(status) => (status as int, Some(ExitStatus(status)))
    case WaitFailed(e) => (-1, Some(e))
    case Completed => (0, None)
  }

  /** Execute reports an error unless the command completed; an exit
      status is both the exit code and the error; the code is -1 whenever
      no status came back. */
  lemma ExecuteErrors(outcome: SessionOutcome)
    ensures var (code, err) := ExecuteResult(outcome);
            (err.None? <==> outcome.Completed?) &&
            (outcome.Completed? ==> code == 0) &&
            (outcome.Exited? ==> code == outcome.status && err == Some(ExitStatus(outcome.status))) &&
            (!outcome.Completed? && !outcome.Exited? ==> code == -1 && err == Some(outcome.error))
  {
  }

  /** The answers of the remote side, given the hops connected so far. */
  datatype Remote = Remote(
    connect: (seq<Host>, Host) -> Option<Error>,
    session: (seq<Host>, string) -> SessionOutcome,
    download: (seq<Host>, string, string) -> Option<Error>,
    upload: (seq<Host>, string, string) -> Option<Error>,
    shell: (seq<Host>, seq<string>) -> Option<Error>)

  /** An operation a client performs. */
  datatype Call =
    | Connect(host: Host)
    | Execute(command: string)
    | Download(src: string, dest: string)
    | Upload(src: string, dest: string)
    | Shell(args: seq<string>)

  class Client {
    /** The hops connected so far; the last one is where sshClient leads. */
    var chain: seq<Host>
    /** The operations asked of this client, in order. */
    var log: seq<Call>

    /** NewClient: no connection yet. */
    constructor ()
      ensures chain == [] && log == []
    {
      chain, log := [], [];
    }

    /** Connect: dial `host`, through the chain when there is one; only a
        successful dial extends the chain. */
    method Connect(remote: Remote, host: Host) returns (err: Option<Error>)
      modifies `chain, `log
      ensures log == old(log) + [Call.Connect(host)]
      ensures err == remote.connect(old(chain), host)
      ensures chain == if err.None? then old(chain) + [host] else old(chain)
    {
      log := log + [Call.Connect(host)];
      err := remote.connect(chain, host);
      if err.None? {
        chain := chain + [host];
      }
    }

    /** Execute: run `command` in a session at the end of the chain. */
    method Execute(remote: Remote, command: string) returns (exitCode: int, err: Option<Error>)
      modifies `log
      ensures log == old(log) + [Call.Execute(command)]
      ensures (exitCode, err) == ExecuteResult(remote.session(chain, command))
    {
      log := log + [Call.Execute(command)];
      var result := ExecuteResult(remote.session(chain, command));
      exitCode, err := result.0, result.1;
    }

    method Download(remote: Remote, src: string, dest: string) returns (err: Option<Error>)
      modifies `log
      ensures log == old(log) + [Call.Download(src, dest)]
      ensures err == remote.download(chain, src, dest)
    {
      log := log + [Call.Download(src, dest)];
      err := remote.download(chain, src, dest);
    }

    method Upload(remote: Remote, src: string, dest: string) returns (err: Option<Error>)
      modifies `log
      ensures log == old(log) + [Call.Upload(src, dest)]
      ensures err == remote.upload(chain, src, dest)
    {
      log := log + [Call.Upload(src, dest)];
      err := remote.upload(chain, src, dest);
    }

    /** Shell, with the arguments of the revision that calls it. */
    method Shell(remote: Remote, args: seq<string>) returns (err: Option<Error>)
      modifies `log
      ensures log == old(log) + [Call.Shell(args)]
      ensures err == remote.shell(chain, args)
    {
      log := log + [Call.Shell(args)];
      err := remote.shell(chain, args);
    }
  }

  // ---------------------------------------------------------------------
  // A task on the remote side (ssh/start.go:14-38, ssh/task.go:49-73)

  /** One Connect call per host. */
  function Connects(hops: seq<Host>): (calls: seq<Call>)
    ensures |calls| == |hops| && forall i :: 0 <= i < |hops| ==> calls[i] == Call.Connect(hops[i])
  {
    if |hops| == 0 then [] else Connects(hops[..|hops| - 1]) + [Call.Connect(hops[|hops| - 1])]
  }

  /** The hop loop: connect each host in turn, stopping at the first
      error. The chain reached, the calls made, and the error. */
  function ConnectHops(remote: Remote, hops: seq<Host>): (seq<Host>, seq<Call>, Option<Error>) {
    if |hops| == 0 then ([], [], None)
    else
      var (chain, calls, err) := ConnectHops(remote, hops[..|hops| - 1]);
      if err.Some? then (chain, calls, err)
      else
        var host := hops[|hops| - 1];
        var e := remote.connect(chain, host);
        (if e.None? then chain + [host] else chain, calls + [Call.Connect(host)], e)
  }

  /** The action of a task: the first of a command, a download and an
      upload that is given, or else a shell with `shellArgs`. */
  function Dispatch(command: string, downloadSrc: string, downloadDest: string, uploadSrc: string,
                    uploadDest: string, shellArgs: seq<string>): Call
  {
    if command != "" then Call.Execute(command)
    else if downloadSrc != "" then Call.Download(downloadSrc, downloadDest)
    else if uploadSrc != "" then Call.Upload(uploadSrc, uploadDest)
    else Call.Shell(shellArgs)
  }

  /** The error the task returns for its action; Execute's exit code is
      dropped. */
  function ActionError(remote: Remote, chain: seq<Host>, action: Call): Option<Error> {
    match action
    case Connect(host) => remote.connect(chain, host)
    case Execute(command) => ExecuteResult(remote.session(chain, command)).1
    case Download(src, dest) => remote.download(chain, src, dest)
    case Upload(src, dest) => remote.upload(chain, src, dest)
    case Shell(args) => remote.shell(chain, args)
  }

  /** A task on the remote side: the jump hops and then the target are
      connected, and only when all connect is the action performed. */
  function RunTask(remote: Remote, target: Host, action: Call): (seq<Call>, Option<Error>) {
    var (chain, calls, err) := ConnectHops(remote, target.jumpList + [target]);
    if err.Some? then (calls, err) else (calls + [action], ActionError(remote, chain, action))
  }

  /** The hop loop on a fresh client. */
  method ConnectAll(client: Client, remote: Remote, hops: seq<Host>) returns (err: Option<Error>)
    requires client.chain == [] && client.log == []
    modifies client`chain, client`log
    ensures (client.chain, client.log, err) == ConnectHops(remote, hops)
  {
    var i := 0;
    while i < |hops|
      invariant 0 <= i <= |hops|
      invariant ConnectHops(remote, hops[..i]) == (client.chain, client.log, None)
    {
      assert hops[..i + 1][..i] == hops[..i];
      err := client.Connect(remote, hops[i]);
      if err.Some? {
        ConnectHopsStops(remote, hops, i + 1);
        return err;
      }
      i := i + 1;
    }
    assert hops[..i] == hops;
    return None;
  }

  // ---------------------------------------------------------------------
  // What the hop loop and the dispatch guarantee

  lemma {:induction false} ConnectHopsStops(remote: Remote, hops: seq<Host>, k: nat)
    requires k <= |hops| && ConnectHops(remote, hops[..k]).2.Some?
    ensures ConnectHops(remote, hops) == ConnectHops(remote, hops[..k])
    decreases |hops| - k
  {
    if k < |hops| {
      assert hops[..k + 1][..k] == hops[..k];
      ConnectHopsStops(remote, hops, k + 1);
    } else {
      assert hops[..k] == hops;
    }
  }

  /** Hosts are connected in order, each through the ones before it. With
      no error every hop is connected; otherwise the chain stops before
      the first hop whose connect failed, and that was the last call. */
  lemma {:induction false} ConnectHopsMeaning(remote: Remote, hops: seq<Host>)
    ensures var (chain, calls, err) := ConnectHops(remote, hops);
            chain <= hops &&
            (forall j :: 0 <= j < |chain| ==> remote.connect(hops[..j], hops[j]).None?) &&
            (err.None? ==> chain == hops && calls == Connects(hops)) &&
            (err.Some? ==> |chain| < |hops| && calls == Connects(hops[..|chain| + 1]) &&
                           err == remote.connect(chain, hops[|chain|]))
    decreases |hops|
  {
    if |hops| > 0 {
      var p := hops[..|hops| - 1];
      ConnectHopsMeaning(remote, p);
      if ConnectHops(remote, p).2.None? {
        ConnectLastHop(remote, hops);
      } else {
        ConnectFailedEarlier(remote, hops);
      }
    }
  }

  /** The step of ConnectHopsMeaning when every earlier hop connected. */
  lemma ConnectLastHop(remote: Remote, hops: seq<Host>)
    requires |hops| > 0
    requires var p := hops[..|hops| - 1];
             ConnectHops(remote, p) == (p, Connects(p), None) &&
             forall j :: 0 <= j < |p| ==> remote.connect(p[..j], p[j]).None?
    ensures var (chain, calls, err) := ConnectHops(remote, hops);
            chain <= hops &&
            (forall j :: 0 <= j < |chain| ==> remote.connect(hops[..j], hops[j]).None?) &&
            (err.None? ==> chain == hops && calls == Connects(hops)) &&
            (err.Some? ==> |chain| < |hops| && calls == Connects(hops[..|chain| + 1]) &&
                           err == remote.connect(chain, hops[|chain|]))
  {
    var p := hops[..|hops| - 1];
    assert hops == p + [hops[|p|]];
    assert forall j :: 0 <= j < |p| ==> hops[..j] == p[..j] && hops[j] == p[j];
    assert hops[..|p| + 1] == hops;
  }

  /** The step of ConnectHopsMeaning when an earlier hop failed. */
  lemma ConnectFailedEarlier(remote: Remote, hops: seq<Host>)
    requires |hops| > 0
    requires var p := hops[..|hops| - 1];
             var (chain, calls, err) := ConnectHops(remote, p);
             err.Some? && chain <= p && |chain| < |p| &&
             (forall j :: 0 <= j < |chain| ==> remote.connect(p[..j], p[j]).None?) &&
             calls == Connects(p[..|chain| + 1]) && err == remote.connect(chain, p[|chain|])
    ensures var (chain, calls, err) := ConnectHops(remote, hops);
            chain <= hops &&
            (forall j :: 0 <= j < |chain| ==> remote.connect(hops[..j], hops[j]).None?) &&
            (err.None? ==> chain == hops && calls == Connects(hops)) &&
            (err.Some? ==> |chain| < |hops| && calls == Connects(hops[..|chain| + 1]) &&
                           err == remote.connect(chain, hops[|chain|]))
  {
    var p := hops[..|hops| - 1];
    var chain := ConnectHops(remote, p).0;
    assert ConnectHops(remote, hops) == ConnectHops(remote, p);
    assert forall j :: 0 <= j <= |p| ==> hops[..j] == p[..j];
    assert forall j :: 0 <= j < |p| ==> hops[j] == p[j];
  }

  /** The action runs only after every hop connected, as the last call;
      a failed connect ends the task with its error and no action. */
  lemma RunTaskMeaning(remote: Remote, target: Host, action: Call)
    ensures var hops := target.jumpList + [target];
            var (calls, err) := RunTask(remote, target, action);
            (ConnectHops(remote, hops).2.None? ==>
               calls == Connects(hops) + [action] && err == ActionError(remote, hops, action)) &&
            (ConnectHops(remote, hops).2.Some? ==>
               err == ConnectHops(remote, hops).2 && |calls| <= |hops| && calls == Connects(hops[..|calls|]))
  {
    ConnectHopsMeaning(remote, target.jumpList + [target]);
  }

  /** The dispatch order: a command wins over everything, a download over
      an upload and the shell, an upload over the shell. */
  lemma DispatchOrder(command: string, downloadSrc: string, downloadDest: string, uploadSrc: string,
                      uploadDest: string, shellArgs: seq<string>)
    ensures var a := Dispatch(command, downloadSrc, downloadDest, uploadSrc, uploadDest, shellArgs);
            (a.Execute? <==> command != "") &&
            (a.Download? <==> command == "" && downloadSrc != "") &&
            (a.Upload? <==> command == "" && downloadSrc == "" && uploadSrc != "") &&
            (a.Shell? <==> command == "" && downloadSrc == "" && uploadSrc == "") &&
            (a.Execute? ==> a.command == command) &&
            (a.Download? ==> a.src == downloadSrc && a.dest == downloadDest) &&
            (a.Upload? ==> a.src == uploadSrc && a.dest == uploadDest) &&
            (a.Shell? ==> a.args == shellArgs)
  {
  }

  /** A command that exits with a non-zero status fails the task;
      only a completed command succeeds. */
  lemma CommandStatusFails(remote: Remote, chain: seq<Host>, command: string)
    ensures var outcome := remote.session(chain, command);
            var err := ActionError(remote, chain, Call.Execute(command));
            (err.None? <==> outcome.Completed?) &&
            (outcome.Exited? ==> err == Some(ExitStatus(outcome.status)))
  {
    ExecuteErrors(remote.session(chain, command));
  }
}
