/** config/host.go: turning a host identifier into a resolved Host.

    NewHost resolves `user@host:port` shorthand, then fills port, user,
    identity files and the proxy jump from the caller, the ssh client
    configuration, the environment and built-in defaults, in that order, and
    resolves every piece of the proxy jump into a jump host of its own.
    ResolveHost is the same computation as a function; the lemmas below
    state what it guarantees. */
module ConfigHost {
  import opened Base
  import opened Strs

  /** Go's uint16. */
  type Port = p: int | 0 <= p < 65536

  datatype Host = Host(
    patterns: seq<string>,
    hostName: string,
    username: string,
    port: Port,
    proxyJump: string,
    tagList: seq<string>,
    jumpList: seq<Host>,
    identityFiles: seq<string>)

  /** strconv.Atoi followed by the check 0 < port < 65536. */
  function ParsePort(s: string): Option<Port> {
    match Atoi(s)
    case Some(v) => if 0 < v < 65536 then Some(v) else None
    case None => None
  }

  // ---------------------------------------------------------------------
  // The stages of NewHost, one function each

  /** `user@host` shorthand (host.go:40-52). */
  function SplitUser(username: string, hostname: string): Result<(string, string)> {
    if '@' !in hostname then Ok((username, hostname))
    else if username != "" then Err(UsernameAlreadySet(hostname))
    else
      var parts := Split(hostname, '@');
      if |parts| != 2 then Err(InvalidHostnameFormat(hostname)) else Ok((parts[0], parts[1]))
  }

  /** `host:port` shorthand (host.go:54-73). */
  function SplitPort(hostname: string, port: Port): Result<(string, Port)> {
    if ':' !in hostname then Ok((hostname, port))
    else if port != 0 then Err(PortAlreadySet(hostname))
    else
      var parts := Split(hostname, ':');
      if |parts| != 2 then Err(InvalidHostnameFormat(hostname))
      else match ParsePort(parts[1])
        case None => Err(InvalidPortFormat(parts[1]))
        case Some(p) => Ok((parts[0], p))
  }

  /** The port when none was given (host.go:75-90). The fallback to 22
      in host.go:87-89 comes after a check that already rejects 0, so it
      never applies and is not written here. */
  function ConfiguredPort(env: Env, alias: string, port: Port): Result<Port> {
    if port != 0 then Ok(port)
    else match ParsePort(env.SshGet(alias, "Port"))
      case None => Err(InvalidPortFormat(alias))
      case Some(p) => Ok(p)
  }

  /** The user when none was given (host.go:92-101). */
  function ConfiguredUser(env: Env, alias: string, username: string): string {
    if username != "" then username
    else
      var fromConfig := env.SshGet(alias, "User");
      var fromEnv := if fromConfig == "" then env.Getenv("USER") else fromConfig;
      if fromEnv == "" then "root" else fromEnv
  }

  /** The files of `files` that exist, in order. */
  function ExistingFiles(env: Env, files: seq<string>): seq<string> {
    if |files| == 0 then []
    else
      var init := ExistingFiles(env, files[..|files| - 1]);
      if env.Exists(files[|files| - 1]) then init + [files[|files| - 1]] else init
  }

  /** $HOME/.ssh/id_rsa */
  function DefaultIdentityFile(env: Env): string {
    JoinPath(JoinPath(env.Getenv("HOME"), ".ssh"), "id_rsa")
  }

  /** Identity files (host.go:103-124). */
  function ConfiguredIdentityFiles(env: Env, alias: string, files: seq<string>): seq<string> {
    var given := ExistingFiles(env, files);
    if |given| > 0 then given
    else
      var fromConfig := ExistingFiles(env, env.SshGetAll(alias, "IdentityFile"));
      if |fromConfig| > 0 then fromConfig else [DefaultIdentityFile(env)]
  }

  /** The proxy jump specification (host.go:126-129). */
  function ConfiguredProxyJump(env: Env, alias: string, proxyJump: string): string {
    if proxyJump == "" then env.SshGet(alias, "ProxyJump") else proxyJump
  }

  /** The address finally dialled (host.go:143-146). */
  function ConfiguredHostName(env: Env, alias: string): string {
    var raw := env.SshGet(alias, "HostName");
    if raw != "" then raw else alias
  }

  /** NewHost as a function. `fuel` bounds how deeply jump hosts may in turn
      name jump hosts; the Go code has no such bound. */
  function ResolveHost(env: Env, username: string, hostname: string, port: Port,
                       proxyJump: string, identityFiles: seq<string>, fuel: nat): Result<Host>
    decreases fuel, 2, 0
  {
    if hostname == "" then Err(HostnameRequired)
    else
      var userHost :- SplitUser(username, hostname);
      var hostPort :- SplitPort(userHost.1, port);
      var alias := hostPort.0;
      var finalPort :- ConfiguredPort(env, alias, hostPort.1);
      Complete(env, alias, ConfiguredUser(env, alias, userHost.0), finalPort, proxyJump, identityFiles, fuel)
  }

  /** The rest of NewHost once alias, user and port are known: identity
      files, the proxy jump and its hosts, and the dialled address. */
  function Complete(env: Env, alias: string, user: string, port: Port,
                    proxyJump: string, identityFiles: seq<string>, fuel: nat): Result<Host>
    decreases fuel, 1, 0
  {
    var ids := ConfiguredIdentityFiles(env, alias, identityFiles);
    var jump := ConfiguredProxyJump(env, alias, proxyJump);
    var jumps :- ResolveJumps(env, Split(jump, ','), ids, fuel);
    Ok(Host([], ConfiguredHostName(env, alias), user, port, jump, [], jumps, ids))
  }

  /** The jump loop (host.go:131-141): every non-empty piece is resolved as a
      host of its own with no user, no port and no jump, sharing the
      parent's identity files; the first failure ends the loop. */
  function ResolveJumps(env: Env, pieces: seq<string>, ids: seq<string>, fuel: nat): Result<seq<Host>>
    decreases fuel, 0, |pieces|
  {
    if |pieces| == 0 then Ok([])
    else if pieces[0] == "" then ResolveJumps(env, pieces[1..], ids, fuel)
    else if fuel == 0 then Err(JumpDepthExceeded(pieces[0]))
    else
      var first :- ResolveHost(env, "", pieces[0], 0, "", ids, fuel - 1);
      var rest :- ResolveJumps(env, pieces[1..], ids, fuel);
      Ok([first] + rest)
  }

  function Prepend(done: seq<Host>, rest: Result<seq<Host>>): Result<seq<Host>> {
    match rest
    case Ok(hosts) => Ok(done + hosts)
    case Err(e) => Err(e)
  }

  lemma PrependNothing(r: Result<seq<Host>>)
    ensures Prepend([], r) == r
  {
    if r.Ok? {
      assert [] + r.value == r.value;
    }
  }

  // ---------------------------------------------------------------------
  // NewHost itself, step by step as host.go writes it

  method NewHost(env: Env, username: string, hostname: string, port: Port, proxyJump: string,
                 identityFiles: seq<string>, fuel: nat) returns (r: Result<Host>)
    ensures r == ResolveHost(env, username, hostname, port, proxyJump, identityFiles, fuel)
    decreases fuel, 3
  {
    var name, user, hostPort := hostname, username, port;

    if name == "" {
      return Err(HostnameRequired);
    }

    if '@' in name {
      if user != "" {
        return Err(UsernameAlreadySet(name));
      }
      var parts := Split(name, '@');
      if |parts| != 2 {
        return Err(InvalidHostnameFormat(name));
      }
      user, name := parts[0], parts[1];
    }
    assert SplitUser(username, hostname) == Ok((user, name));
    ghost var h1 := name;

    if ':' in name {
      if hostPort != 0 {
        return Err(PortAlreadySet(name));
      }
      var parts := Split(name, ':');
      if |parts| != 2 {
        return Err(InvalidHostnameFormat(name));
      }
      var portInt := Atoi(parts[1]);
      if portInt.None? || portInt.value <= 0 || portInt.value >= 65536 {
        return Err(InvalidPortFormat(parts[1]));
      }
      hostPort, name := portInt.value, parts[0];
    }
    assert SplitPort(h1, port) == Ok((name, hostPort));

    if hostPort == 0 {
      var portInt := Atoi(env.SshGet(name, "Port"));
      if portInt.None? || portInt.value <= 0 || portInt.value >= 65536 {
        return Err(InvalidPortFormat(name));
      }
      hostPort := portInt.value;
      // host.go:87-89 then turns a zero port into 22; the range check above
      // has already ruled zero out, so that branch is never taken.
    }

    r := CompleteHost(env, name, user, hostPort, proxyJump, identityFiles, fuel);
  }

  /** The rest of NewHost (host.go:92-149). */
  method CompleteHost(env: Env, alias: string, username: string, port: Port, proxyJump: string,
                      identityFiles: seq<string>, fuel: nat) returns (r: Result<Host>)
    ensures r == Complete(env, alias, ConfiguredUser(env, alias, username), port, proxyJump, identityFiles, fuel)
    decreases fuel, 2
  {
    var user, jump := username, proxyJump;
    if user == "" {
      user := env.SshGet(alias, "User");
      if user == "" {
        user := env.Getenv("USER");
      }
      if user == "" {
        user := "root";
      }
    }

    var files := NewIdentityFiles(env, alias, identityFiles);

    if jump == "" {
      jump := env.SshGet(alias, "ProxyJump");
    }

    var jumps := NewJumpHosts(env, Split(jump, ','), files, fuel);
    if jumps.Err? {
      return Err(jumps.error);
    }

    var rawHostname := env.SshGet(alias, "HostName");
    var dialled := if rawHostname != "" then rawHostname else alias;
    return Ok(Host([], dialled, user, port, jump, [], jumps.value, files));
  }

  /** The files of `files` that exist, in order (host.go:104-120). */
  method FilterExisting(env: Env, files: seq<string>) returns (existing: seq<string>)
    ensures existing == ExistingFiles(env, files)
  {
    existing := [];
    var i := 0;
    while i < |files|
      invariant 0 <= i <= |files|
      invariant existing == ExistingFiles(env, files[..i])
    {
      assert files[..i + 1][..i] == files[..i];
      if env.Exists(files[i]) {
        existing := existing + [files[i]];
      }
      i := i + 1;
    }
    assert files[..i] == files;
  }

  /** The identity-file stage of NewHost (host.go:103-124). */
  method NewIdentityFiles(env: Env, alias: string, identityFiles: seq<string>) returns (files: seq<string>)
    ensures files == ConfiguredIdentityFiles(env, alias, identityFiles)
  {
    files := FilterExisting(env, identityFiles);
    if |files| == 0 {
      files := FilterExisting(env, env.SshGetAll(alias, "IdentityFile"));
      if |files| == 0 {
        files := [DefaultIdentityFile(env)];
      }
    }
  }

  // One turn of the jump loop, read against ResolveJumps: an empty piece
  // is skipped, a jump with no fuel left or that cannot be resolved ends the
  // resolution with its error, and a resolved jump joins the list.

  lemma JumpSkip(env: Env, pieces: seq<string>, ids: seq<string>, fuel: nat, k: nat, done: seq<Host>)
    requires k < |pieces| && pieces[k] == ""
    ensures Prepend(done, ResolveJumps(env, pieces[k..], ids, fuel))
            == Prepend(done, ResolveJumps(env, pieces[k + 1..], ids, fuel))
  {
    assert pieces[k..][1..] == pieces[k + 1..];
  }

  lemma JumpOutOfFuel(env: Env, pieces: seq<string>, ids: seq<string>, k: nat)
    requires k < |pieces| && pieces[k] != ""
    ensures ResolveJumps(env, pieces[k..], ids, 0) == Err(JumpDepthExceeded(pieces[k]))
  {
  }

  lemma JumpResolves(env: Env, pieces: seq<string>, ids: seq<string>, fuel: nat, k: nat, done: seq<Host>)
    requires k < |pieces| && pieces[k] != "" && fuel > 0
    ensures var jump := ResolveHost(env, "", pieces[k], 0, "", ids, fuel - 1);
            (jump.Err? ==> ResolveJumps(env, pieces[k..], ids, fuel) == Err(jump.error)) &&
            (jump.Ok? ==> Prepend(done, ResolveJumps(env, pieces[k..], ids, fuel))
                          == Prepend(done + [jump.value], ResolveJumps(env, pieces[k + 1..], ids, fuel)))
  {
    assert pieces[k..][1..] == pieces[k + 1..];
    var jump := ResolveHost(env, "", pieces[k], 0, "", ids, fuel - 1);
    var rest := ResolveJumps(env, pieces[k + 1..], ids, fuel);
    if jump.Ok? && rest.Ok? {
      assert done + ([jump.value] + rest.value) == (done + [jump.value]) + rest.value;
    }
  }

  /** The jump loop of NewHost (host.go:131-141). */
  method NewJumpHosts(env: Env, pieces: seq<string>, ids: seq<string>, fuel: nat)
    returns (r: Result<seq<Host>>)
    ensures r == ResolveJumps(env, pieces, ids, fuel)
    decreases fuel, 1
  {
    var jumpList: seq<Host> := [];
    var k := 0;
    assert pieces[k..] == pieces;
    PrependNothing(ResolveJumps(env, pieces, ids, fuel));
    while k < |pieces|
      invariant 0 <= k <= |pieces|
      invariant ResolveJumps(env, pieces, ids, fuel) == Prepend(jumpList, ResolveJumps(env, pieces[k..], ids, fuel))
    {
      var err;
      jumpList, err := JumpTurn(env, pieces, ids, fuel, k, jumpList);
      if err.Some? {
        return Err(err.value);
      }
      k := k + 1;
    }
    assert jumpList + [] == jumpList;
    return Ok(jumpList);
  }

  /** One turn of the jump loop on the piece at `k`, with `done` the jump
      hosts resolved before it: an empty piece is skipped, a resolved one
      joins the list, and a piece with no fuel left or that does not
      resolve ends the loop with its error. */
  method JumpTurn(env: Env, pieces: seq<string>, ids: seq<string>, fuel: nat, k: nat, done: seq<Host>)
    returns (done': seq<Host>, err: Option<Error>)
    requires k < |pieces|
    ensures err.Some? ==> Prepend(done, ResolveJumps(env, pieces[k..], ids, fuel)) == Err(err.value)
    ensures err.None? ==> Prepend(done, ResolveJumps(env, pieces[k..], ids, fuel))
                          == Prepend(done', ResolveJumps(env, pieces[k + 1..], ids, fuel))
    decreases fuel, 0
  {
    if pieces[k] == "" {
      JumpSkip(env, pieces, ids, fuel, k, done);
      return done, None;
    }
    if fuel == 0 {
      JumpOutOfFuel(env, pieces, ids, k);
      return done, Some(JumpDepthExceeded(pieces[k]));
    }
    var jumpHost := NewHost(env, "", pieces[k], 0, "", ids, fuel - 1);
    JumpResolves(env, pieces, ids, fuel, k, done);
    if jumpHost.Err? {
      return done, Some(jumpHost.error);
    }
    return done + [jumpHost.value], None;
  }

  // ---------------------------------------------------------------------
  // Rendering (host.go:152-172)

  function EndPoint(host: Host): string {
    if host.port == 0 then host.hostName else host.hostName + ":" + NatToString(host.port)
  }

  function Summary(host: Host): string {
    if host.username == "" then EndPoint(host) else host.username + "@" + EndPoint(host)
  }

  function Summaries(hosts: seq<Host>): (r: seq<string>)
    ensures |r| == |hosts| && forall i :: 0 <= i < |hosts| ==> r[i] == Summary(hosts[i])
  {
    if |hosts| == 0 then [] else Summaries(hosts[..|hosts| - 1]) + [Summary(hosts[|hosts| - 1])]
  }

  /** The jump hops' summaries joined with ",". */
  method JumpString(host: Host) returns (s: string)
    ensures s == Join(Summaries(host.jumpList), ",")
  {
    var hosts: seq<string> := [];
    var i := 0;
    while i < |host.jumpList|
      invariant 0 <= i <= |host.jumpList|
      invariant hosts == Summaries(host.jumpList[..i])
    {
      assert host.jumpList[..i + 1][..i] == host.jumpList[..i];
      hosts := hosts + [Summary(host.jumpList[i])];
      i := i + 1;
    }
    assert host.jumpList[..i] == host.jumpList;
    s := Join(hosts, ",");
  }

  // ---------------------------------------------------------------------
  // Tag validation (host.go:174-181)

  /** The character class `[0-9a-zA-z_\-,]`: the range A-z also takes in
      the six characters [ \ ] ^ _ ` between 'Z' and 'a'. */
  predicate TagChar(c: char) {
    ('0' <= c <= '9') || ('A' <= c <= 'z') || c == '-' || c == ','
  }

  predicate AllTagChars(s: string) {
    forall i :: 0 <= i < |s| ==> TagChar(s[i])
  }

  /** regexp.MatchString with the unanchored pattern `[0-9a-zA-z_\-,]*`:
      true when some substring, possibly empty, is made of class characters. */
  predicate TagPatternMatches(s: string) {
    exists i, j :: 0 <= i <= j <= |s| && AllTagChars(s[i..j])
  }

  function CheckTags(tags: string): Option<Error> {
    if TagPatternMatches(tags) then None else Some(InvalidTags)
  }

  // ---------------------------------------------------------------------
  // What resolution guarantees

  /** The unanchored pattern matches the empty substring of any string, so
      CheckTags never reports an error. */
  lemma CheckTagsNeverFails(tags: string)
    ensures TagPatternMatches(tags)
    ensures CheckTags(tags) == None
  {
    assert AllTagChars(tags[0..0]);
  }

  lemma EmptyHostnameRejected(env: Env, username: string, port: Port, proxyJump: string,
                              identityFiles: seq<string>, fuel: nat)
    ensures ResolveHost(env, username, "", port, proxyJump, identityFiles, fuel) == Err(HostnameRequired)
  {
  }

  /** `user@host`: without '@' nothing changes; with it, a given user is an
      error, and otherwise the identifier must be exactly `u@h` with neither
      half holding another '@', and then u is the user and h the host. */
  lemma {:induction false} SplitUserMeaning(username: string, hostname: string)
    ensures '@' !in hostname ==> SplitUser(username, hostname) == Ok((username, hostname))
    ensures '@' in hostname && username != "" ==>
              SplitUser(username, hostname) == Err(UsernameAlreadySet(hostname))
    ensures '@' in hostname && username == "" ==>
              (SplitUser(username, hostname).Ok? <==> CountChar(hostname, '@') == 1)
    ensures '@' in hostname && username == "" && CountChar(hostname, '@') != 1 ==>
              SplitUser(username, hostname) == Err(InvalidHostnameFormat(hostname))
    ensures SplitUser(username, hostname).Ok? && '@' in hostname ==>
              var (u, h) := SplitUser(username, hostname).value;
              hostname == u + "@" + h && '@' !in u && '@' !in h
  {
    SplitPieces(hostname, '@');
    JoinSplit(hostname, '@');
  }

  /** `host:port`: with ':' a given port is an error, the identifier must be
      exactly `h:p`, and p must be a number in 1..65535. */
  lemma {:induction false} SplitPortMeaning(hostname: string, port: Port)
    ensures ':' !in hostname ==> SplitPort(hostname, port) == Ok((hostname, port))
    ensures ':' in hostname && port != 0 ==> SplitPort(hostname, port) == Err(PortAlreadySet(hostname))
    ensures ':' in hostname && port == 0 && CountChar(hostname, ':') != 1 ==>
              SplitPort(hostname, port) == Err(InvalidHostnameFormat(hostname))
    ensures SplitPort(hostname, port).Ok? && ':' in hostname ==>
              var (h, p) := SplitPort(hostname, port).value;
              exists text :: hostname == h + ":" + text && ':' !in h && ':' !in text
                          && Atoi(text) == Some(p) && 0 < p
  {
    SplitPieces(hostname, ':');
    JoinSplit(hostname, ':');
    if SplitPort(hostname, port).Ok? && ':' in hostname {
      var parts := Split(hostname, ':');
      assert hostname == parts[0] + ":" + parts[1];
    }
  }

  /** The final port is always a usable one; an explicit or shorthand port
      wins over the ssh client configuration. */
  lemma PortOfResolvedHost(env: Env, username: string, hostname: string, port: Port,
                           proxyJump: string, identityFiles: seq<string>, fuel: nat)
    requires ResolveHost(env, username, hostname, port, proxyJump, identityFiles, fuel).Ok?
    ensures var host := ResolveHost(env, username, hostname, port, proxyJump, identityFiles, fuel).value;
            1 <= host.port <= 65535
    ensures port != 0 && ':' !in SplitUser(username, hostname).value.1 ==>
            ResolveHost(env, username, hostname, port, proxyJump, identityFiles, fuel).value.port == port
  {
  }

  /** Without a caller or shorthand port the port comes from ssh config's
      Port, and a Port that is not an integer in 1..65535 fails with the
      alias in the error. */
  lemma PortFromSshConfig(env: Env, username: string, hostname: string, proxyJump: string,
                          identityFiles: seq<string>, fuel: nat)
    requires hostname != "" && SplitUser(username, hostname).Ok?
    requires ':' !in SplitUser(username, hostname).value.1
    ensures var alias := SplitUser(username, hostname).value.1;
            var configured := ParsePort(env.SshGet(alias, "Port"));
            var r := ResolveHost(env, username, hostname, 0, proxyJump, identityFiles, fuel);
            (configured.None? ==> r == Err(InvalidPortFormat(alias))) &&
            (r.Ok? ==> configured.Some? && r.value.port == configured.value)
  {
    var alias := SplitUser(username, hostname).value.1;
    assert SplitPort(alias, 0) == Ok((alias, 0));
  }

  /** A shorthand `h:digits` port is the resolved port. */
  lemma PortOfShorthand(env: Env, username: string, hostname: string, h: string, digits: string, p: Port,
                        proxyJump: string, identityFiles: seq<string>, fuel: nat)
    requires hostname != "" && SplitUser(username, hostname).Ok?
    requires SplitUser(username, hostname).value.1 == h + ":" + digits
    requires ':' !in h && ':' !in digits && ParsePort(digits) == Some(p)
    ensures var r := ResolveHost(env, username, hostname, 0, proxyJump, identityFiles, fuel);
            r.Ok? ==> r.value.port == p
  {
    PortShorthand(h, digits, p);
  }

  /** The user is never empty, and comes from the first non-empty of: the
      caller or shorthand, ssh config's User, $USER, "root". */
  lemma UserOfResolvedHost(env: Env, alias: string, username: string)
    ensures ConfiguredUser(env, alias, username) != ""
    ensures username != "" ==> ConfiguredUser(env, alias, username) == username
    ensures username == "" && env.SshGet(alias, "User") != "" ==>
              ConfiguredUser(env, alias, username) == env.SshGet(alias, "User")
    ensures username == "" && env.SshGet(alias, "User") == "" && env.Getenv("USER") != "" ==>
              ConfiguredUser(env, alias, username) == env.Getenv("USER")
    ensures username == "" && env.SshGet(alias, "User") == "" && env.Getenv("USER") == "" ==>
              ConfiguredUser(env, alias, username) == "root"
  {
  }

  /** The existing files, in their order, and no others. */
  lemma {:induction false} ExistingFilesMeaning(env: Env, files: seq<string>)
    ensures forall f :: f in ExistingFiles(env, files) <==> f in files && env.Exists(f)
    ensures |ExistingFiles(env, files)| <= |files|
    ensures (forall f :: f in files ==> env.Exists(f)) ==> ExistingFiles(env, files) == files
  {
    if |files| > 0 {
      var init := files[..|files| - 1];
      ExistingFilesMeaning(env, init);
      assert files == init + [files[|files| - 1]];
    }
  }

  /** The existing files keep the order of the files. */
  lemma {:induction false} ExistingFilesAppend(env: Env, a: seq<string>, b: seq<string>)
    ensures ExistingFiles(env, a + b) == ExistingFiles(env, a) + ExistingFiles(env, b)
    decreases |b|
  {
    if |b| == 0 {
      assert a + b == a;
    } else {
      assert (a + b)[..|a + b| - 1] == a + b[..|b| - 1];
      ExistingFilesAppend(env, a, b[..|b| - 1]);
    }
  }

  /** Identity files are never empty: the caller's existing files, else the
      configured existing files, else exactly the default, unchecked. */
  lemma IdentityFilesOfResolvedHost(env: Env, alias: string, files: seq<string>)
    ensures |ConfiguredIdentityFiles(env, alias, files)| >= 1
    ensures ExistingFiles(env, files) != [] ==>
              ConfiguredIdentityFiles(env, alias, files) == ExistingFiles(env, files)
    ensures ExistingFiles(env, files) == [] && ExistingFiles(env, env.SshGetAll(alias, "IdentityFile")) != [] ==>
              ConfiguredIdentityFiles(env, alias, files) == ExistingFiles(env, env.SshGetAll(alias, "IdentityFile"))
    ensures ExistingFiles(env, files) == [] && ExistingFiles(env, env.SshGetAll(alias, "IdentityFile")) == [] ==>
              ConfiguredIdentityFiles(env, alias, files) == [DefaultIdentityFile(env)]
  {
  }

  /** The jump list holds one host per non-empty piece, in order, each
      resolved on its own with no user, port or jump of its own, sharing the
      parent's identity files; any failing piece fails the whole. */
  lemma {:induction false} JumpsOfPieces(env: Env, pieces: seq<string>, ids: seq<string>, fuel: nat)
    requires ResolveJumps(env, pieces, ids, fuel).Ok?
    ensures fuel > 0 || NonEmpty(pieces) == []
    ensures var jumps := ResolveJumps(env, pieces, ids, fuel).value;
            |jumps| == |NonEmpty(pieces)| &&
            forall i :: 0 <= i < |jumps| ==>
              ResolveHost(env, "", NonEmpty(pieces)[i], 0, "", ids, fuel - 1) == Ok(jumps[i])
    decreases |pieces|, 1
  {
    if |pieces| > 0 {
      if pieces[0] == "" {
        JumpsAfterEmpty(env, pieces, ids, fuel);
      } else {
        JumpsAfterFirst(env, pieces, ids, fuel);
      }
    }
  }

  /** JumpsOfPieces when the first piece is empty. */
  lemma {:induction false} JumpsAfterEmpty(env: Env, pieces: seq<string>, ids: seq<string>, fuel: nat)
    requires |pieces| > 0 && pieces[0] == "" && ResolveJumps(env, pieces, ids, fuel).Ok?
    ensures fuel > 0 || NonEmpty(pieces) == []
    ensures var jumps := ResolveJumps(env, pieces, ids, fuel).value;
            |jumps| == |NonEmpty(pieces)| &&
            forall i :: 0 <= i < |jumps| ==>
              ResolveHost(env, "", NonEmpty(pieces)[i], 0, "", ids, fuel - 1) == Ok(jumps[i])
    decreases |pieces|, 0
  {
    assert ResolveJumps(env, pieces[1..], ids, fuel) == ResolveJumps(env, pieces, ids, fuel);
    JumpsOfPieces(env, pieces[1..], ids, fuel);
    NonEmptyCons(pieces);
    assert NonEmpty(pieces) == NonEmpty(pieces[1..]);
  }

  /** JumpsOfPieces when the first piece names a jump host. */
  lemma {:induction false} JumpsAfterFirst(env: Env, pieces: seq<string>, ids: seq<string>, fuel: nat)
    requires |pieces| > 0 && pieces[0] != "" && ResolveJumps(env, pieces, ids, fuel).Ok?
    ensures fuel > 0 || NonEmpty(pieces) == []
    ensures var jumps := ResolveJumps(env, pieces, ids, fuel).value;
            |jumps| == |NonEmpty(pieces)| &&
            forall i :: 0 <= i < |jumps| ==>
              ResolveHost(env, "", NonEmpty(pieces)[i], 0, "", ids, fuel - 1) == Ok(jumps[i])
    decreases |pieces|, 0
  {
    var tail := ResolveJumps(env, pieces[1..], ids, fuel);
    var first := ResolveHost(env, "", pieces[0], 0, "", ids, fuel - 1);
    assert fuel > 0 && first.Ok? && tail.Ok?;
    var jumps := ResolveJumps(env, pieces, ids, fuel).value;
    assert jumps == [first.value] + tail.value;
    JumpsOfPieces(env, pieces[1..], ids, fuel);
    NonEmptyCons(pieces);
    var restNames := NonEmpty(pieces[1..]);
    var names := NonEmpty(pieces);
    assert names == [pieces[0]] + restNames;
    var resolve := (s: string) => ResolveHost(env, "", s, 0, "", ids, fuel - 1);
    PairedCons(resolve, pieces[0], first, restNames, Oks(tail.value));
    forall i | 0 <= i < |jumps|
      ensures ResolveHost(env, "", names[i], 0, "", ids, fuel - 1) == Ok(jumps[i])
    {
      assert resolve(names[i]) == ([first] + Oks(tail.value))[i];
    }
  }

  /** Each host as a successful result. */
  function Oks(hosts: seq<Host>): (r: seq<Result<Host>>)
    ensures |r| == |hosts| && forall i :: 0 <= i < |hosts| ==> r[i] == Ok(hosts[i])
  {
    if |hosts| == 0 then [] else Oks(hosts[..|hosts| - 1]) + [Ok(hosts[|hosts| - 1])]
  }

  /** A first name mapped to a first value, before names mapped one by one
      to values: the lists stay paired. */
  lemma PairedCons<A, B>(f: A -> B, name: A, value: B, names: seq<A>, values: seq<B>)
    requires f(name) == value && |names| == |values|
    requires forall i :: 0 <= i < |values| ==> f(names[i]) == values[i]
    ensures forall i :: 0 <= i < |values| + 1 ==> f(([name] + names)[i]) == ([value] + values)[i]
  {
    forall i | 0 <= i < |values| + 1
      ensures f(([name] + names)[i]) == ([value] + values)[i]
    {
      if i > 0 {
        assert ([name] + names)[i] == names[i - 1] && ([value] + values)[i] == values[i - 1];
      }
    }
  }

  /** NonEmpty read from the front. */
  lemma {:induction false} NonEmptyCons(parts: seq<string>)
    requires |parts| > 0
    ensures NonEmpty(parts) == (if parts[0] == "" then [] else [parts[0]]) + NonEmpty(parts[1..])
    decreases |parts|
  {
    if |parts| > 1 {
      var init := parts[..|parts| - 1];
      NonEmptyCons(init);
      assert init[1..] == parts[1..][..|parts[1..]| - 1];
      assert init[0] == parts[0];
    } else {
      assert parts[1..] == [];
      assert parts[..0] == [];
    }
  }

  /** A piece that fails makes the whole jump resolution fail. */
  lemma {:induction false} FailingJumpFails(env: Env, pieces: seq<string>, ids: seq<string>, fuel: nat, k: nat)
    requires k < |pieces| && pieces[k] != "" && fuel > 0
    requires ResolveHost(env, "", pieces[k], 0, "", ids, fuel - 1).Err?
    ensures ResolveJumps(env, pieces, ids, fuel).Err?
    decreases |pieces|
  {
    if k > 0 {
      FailingJumpFails(env, pieces[1..], ids, fuel, k - 1);
    }
  }

  /** A caller's jump wins over ssh config; without one the configured jump
      is used, and the jump list follows from its comma pieces. */
  lemma JumpsOfResolvedHost(env: Env, username: string, hostname: string, port: Port,
                            proxyJump: string, identityFiles: seq<string>, fuel: nat)
    requires ResolveHost(env, username, hostname, port, proxyJump, identityFiles, fuel).Ok?
    ensures var host := ResolveHost(env, username, hostname, port, proxyJump, identityFiles, fuel).value;
            var pieces := NonEmpty(Split(host.proxyJump, ','));
            (proxyJump != "" ==> host.proxyJump == proxyJump) &&
            (proxyJump == "" ==>
               host.proxyJump == env.SshGet(SplitPort(SplitUser(username, hostname).value.1, port).value.0, "ProxyJump")) &&
            |host.jumpList| == |pieces| && (|pieces| > 0 ==> fuel > 0) &&
            forall i :: 0 <= i < |pieces| ==>
              ResolveHost(env, "", pieces[i], 0, "", host.identityFiles, fuel - 1) == Ok(host.jumpList[i])
  {
    var host := ResolveHost(env, username, hostname, port, proxyJump, identityFiles, fuel).value;
    var userHost := SplitUser(username, hostname).value;
    var hostPort := SplitPort(userHost.1, port).value;
    var alias := hostPort.0;
    var user := ConfiguredUser(env, alias, userHost.0);
    var finalPort := ConfiguredPort(env, alias, hostPort.1).value;
    assert Ok(host) == Complete(env, alias, user, finalPort, proxyJump, identityFiles, fuel);
    var jump := ConfiguredProxyJump(env, alias, proxyJump);
    var ids := ConfiguredIdentityFiles(env, alias, identityFiles);
    assert host.proxyJump == jump && host.identityFiles == ids;
    assert host.jumpList == ResolveJumps(env, Split(jump, ','), ids, fuel).value;
    JumpsOfPieces(env, Split(jump, ','), ids, fuel);
  }

  /** Nested jumps are not refused: a jump host takes up the ProxyJump that
      ssh config gives for it, exactly as a top-level host does. */
  lemma JumpHostKeepsOwnJump(env: Env, alias: string, ids: seq<string>, fuel: nat)
    requires alias != "" && '@' !in alias && ':' !in alias
    requires ResolveHost(env, "", alias, 0, "", ids, fuel).Ok?
    ensures ResolveHost(env, "", alias, 0, "", ids, fuel).value.proxyJump == env.SshGet(alias, "ProxyJump")
  {
  }

  /** Nested jumps resolve: when the configured jump of a host is a single
      jump host that itself resolves with jumps of its own, the host
      resolves and its one jump host keeps that nested chain. */
  lemma NestedJumpResolves(env: Env, username: string, hostname: string, port: Port, proxyJump: string,
                           identityFiles: seq<string>, fuel: nat, alias: string, nested: Host)
    requires hostname != "" && SplitUser(username, hostname).Ok?
    requires SplitPort(SplitUser(username, hostname).value.1, port).Ok?
    requires alias == SplitPort(SplitUser(username, hostname).value.1, port).value.0
    requires ConfiguredPort(env, alias, SplitPort(SplitUser(username, hostname).value.1, port).value.1).Ok?
    requires var jump := ConfiguredProxyJump(env, alias, proxyJump);
             jump != "" && ',' !in jump && fuel > 0 &&
             ResolveHost(env, "", jump, 0, "", ConfiguredIdentityFiles(env, alias, identityFiles), fuel - 1) == Ok(nested)
    requires nested.jumpList != []
    ensures var r := ResolveHost(env, username, hostname, port, proxyJump, identityFiles, fuel);
            r.Ok? && r.value.jumpList == [nested] && r.value.jumpList[0].jumpList != []
  {
    var jump := ConfiguredProxyJump(env, alias, proxyJump);
    var ids := ConfiguredIdentityFiles(env, alias, identityFiles);
    SplitNoSep(jump, ',');
    assert [jump][1..] == [];
    assert ResolveJumps(env, [jump], ids, fuel) == Ok([nested] + []);
    assert [nested] + [] == [nested];
  }

  /** `u@rest` with a single '@' splits into u and rest. */
  lemma UserShorthand(u: string, rest: string)
    requires '@' !in u && '@' !in rest
    ensures SplitUser("", u + "@" + rest) == Ok((u, rest))
  {
    assert u + "@" + rest == u + ['@'] + rest;
    SplitAround(u, rest, '@');
    SplitNoSep(rest, '@');
  }

  /** `h:digits` with a single ':' splits into h and the parsed port. */
  lemma PortShorthand(h: string, digits: string, p: Port)
    requires ':' !in h && ':' !in digits && ParsePort(digits) == Some(p)
    ensures SplitPort(h + ":" + digits, 0) == Ok((h, p))
  {
    assert h + ":" + digits == h + [':'] + digits;
    SplitAround(h, digits, ':');
    SplitNoSep(digits, ':');
  }

  lemma DigitsHoldNoSeparator(digits: string)
    requires AllDigits(digits)
    ensures ':' !in digits && '@' !in digits && ',' !in digits
  {
    forall i | 0 <= i < |digits| ensures digits[i] != ':' && digits[i] != '@' && digits[i] != ',' {
      assert IsDigit(digits[i]);
    }
  }

  /** The rendered summary of a host reached as `u@h:p` is `u@h:p` again,
      when ssh config renames nothing and adds no jump. */
  lemma RoundTrip(env: Env, u: string, h: string, p: Port, identityFiles: seq<string>, fuel: nat)
    requires u != "" && h != "" && 0 < p
    requires '@' !in u && '@' !in h && ':' !in h
    requires env.SshGet(h, "HostName") == ""
    ensures var r := ResolveHost(env, "", u + "@" + h + ":" + NatToString(p), 0, "", identityFiles, fuel);
            r.Ok? ==> r.value.username == u && r.value.hostName == h && r.value.port == p &&
                      Summary(r.value) == u + "@" + h + ":" + NatToString(p)
    ensures var r := ResolveHost(env, "", u + "@" + h + ":" + NatToString(p), 0, "", identityFiles, fuel);
            env.SshGet(h, "ProxyJump") == "" ==> r.Ok? && r.value.jumpList == []
  {
    var digits := NatToString(p);
    DigitsHoldNoSeparator(digits);
    var rest := h + ":" + digits;
    assert '@' !in rest;
    UserShorthand(u, rest);
    AtoiOfNatToString(p);
    PortShorthand(h, digits, p);
    assert u + "@" + h + ":" + digits == u + "@" + rest;
    if env.SshGet(h, "ProxyJump") == "" {
      SplitNoSep("", ',');
      assert ResolveJumps(env, [""], ConfiguredIdentityFiles(env, h, identityFiles), fuel) == Ok([]);
    }
  }
}
