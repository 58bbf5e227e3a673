/** ssh/tools.go: the local host name a remote session is told about,
    and the terminal width with its fallback. The terminal size query is
    a parameter: the width it reports, or None when it fails. */
module SshTools {
  import opened Base
  import opened Strs
  import NetUtils

  /** The server address of $SSH_CONNECTION, by the four-field rule, or
      127.0.0.1. */
  function GetSSHLocalHost(env: Env): (host: string)
    ensures host != ""
  {
    var fields := Split(env.Getenv("SSH_CONNECTION"), ' ');
    if |fields| == 4 && |fields[2]| > 0 then fields[2] else "127.0.0.1"
  }

  /** The same rule as GetSSHConnectIP, with 127.0.0.1 in place of "";
      the result is a single field, so it holds no space. */
  lemma LocalHostIsConnectIP(env: Env)
    ensures var ip := NetUtils.GetSSHConnectIP(env);
            GetSSHLocalHost(env) == if ip != "" then ip else "127.0.0.1"
    ensures ' ' !in GetSSHLocalHost(env)
  {
    NetUtils.ConnectIPHasNoSpace(env);
  }

  /** GetTerminalWidth: the reported width, or 80 when the query fails. */
  function GetTerminalWidth(size: Option<int>): (width: int)
    ensures size.Some? ==> width == size.value
    ensures size.None? ==> width == 80
  {
    match size
    case None => 80
    case Some(w) => w
  }
}
