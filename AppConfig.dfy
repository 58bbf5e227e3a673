/** config/config.go: the program's own configuration file, with its table
    of named hosts ("aliases") and the default jump hosts.

    This file belongs to an older revision in which a host record has the
    fields Name, Addr, User and Tags. The YAML decoder, Host.TagsFormat,
    Host.Parse and Host.parse(true) are not part of this model; they are
    parameters of LoadConfig. */
module AppConfig {
  import opened Base
  import opened Strs
  import opened ConfigHost

  /** A host entry of the configuration's `hosts` table. */
  datatype AliasHost = AliasHost(name: string, addr: string, user: string, tags: string)

  /** The fields that the YAML file supplies. viper.Unmarshal matches keys
      to field names without regard to case or to the `yaml:"-"` tags, so
      the file may also set Parallel, the overlay fields and JumpHosts; each
      of those is None when the file lacks its key, which leaves the field
      as it was. */
  datatype FileSettings = FileSettings(
    modulesDir: string,
    sshAuthSock: string,
    defaultTimeout: int,
    defaultUser: string,
    defaultPort: Port,
    defaultJump: string,
    hosts: map<string, AliasHost>,
    parallel: Option<int>,
    overlayTimeout: Option<int>,
    overlayUser: Option<string>,
    overlayPort: Option<Port>,
    overlayJump: Option<string>,
    overlayHost: Option<string>,
    jumpHosts: Option<seq<AliasHost>>)

  /** A field after decoding: the file's value when it has the key. */
  function Given<T>(o: Option<T>, keep: T): (v: T)
    ensures o.Some? ==> v == o.value
    ensures o.None? ==> v == keep
  {
    if o.Some? then o.value else keep
  }

  // ---------------------------------------------------------------------
  // The agent socket (config.go:37-44)

  /** $SSH_AUTH_SOCK, else <home>/.ssh/ssh_auth_sock; a failing home
      directory lookup gives "" for `homeDir`. */
  function GetSshAuthSock(env: Env, homeDir: string): string {
    var sock := env.Getenv("SSH_AUTH_SOCK");
    if sock == "" then JoinPath(homeDir, ".ssh/ssh_auth_sock") else sock
  }

  lemma AuthSockChoice(env: Env, homeDir: string)
    ensures GetSshAuthSock(env, homeDir) != ""
    ensures env.Getenv("SSH_AUTH_SOCK") != "" ==> GetSshAuthSock(env, homeDir) == env.Getenv("SSH_AUTH_SOCK")
    ensures env.Getenv("SSH_AUTH_SOCK") == "" ==>
              exists dir :: GetSshAuthSock(env, homeDir) == dir + ".ssh/ssh_auth_sock"
  {
    if env.Getenv("SSH_AUTH_SOCK") == "" {
      var sock := GetSshAuthSock(env, homeDir);
      if homeDir == "" {
        assert sock == "" + ".ssh/ssh_auth_sock";
      } else if homeDir[|homeDir| - 1] == '/' {
        assert sock == homeDir + ".ssh/ssh_auth_sock";
      } else {
        assert sock == (homeDir + "/") + ".ssh/ssh_auth_sock";
      }
    }
  }

  // ---------------------------------------------------------------------
  // Default jump hosts (config.go:63-75)

  /** The overlay jump replaces the default jump when it is non-empty. */
  function SelectJump(defaultJump: string, overlayJump: string): (jump: string)
    ensures overlayJump != "" ==> jump == overlayJump
    ensures overlayJump == "" ==> jump == defaultJump
  {
    if overlayJump != "" then overlayJump else defaultJump
  }

  /** The host strings that become jump hosts: none for "" and "none",
      otherwise every comma piece, empty ones included. */
  function JumpPieces(jump: string): seq<string> {
    if jump != "" && jump != "none" then Split(jump, ',') else []
  }

  /** The jump loop: the hosts built so far and the error that stopped it. */
  function JumpLoop(pieces: seq<string>, parseJump: string -> Result<AliasHost>): (seq<AliasHost>, Option<Error>) {
    if |pieces| == 0 then ([], None)
    else
      var (hosts, err) := JumpLoop(pieces[..|pieces| - 1], parseJump);
      if err.Some? then (hosts, err)
      else match parseJump(pieces[|pieces| - 1])
        case Err(e) => (hosts, Some(e))
        case Ok(h) => (hosts + [h], None)
  }

  lemma JumpPiecesCount(jump: string)
    ensures jump == "" || jump == "none" ==> JumpPieces(jump) == []
    ensures jump != "" && jump != "none" ==>
              |JumpPieces(jump)| == CountChar(jump, ',') + 1 && Join(JumpPieces(jump), ",") == jump
  {
    SplitPieces(jump, ',');
    JoinSplit(jump, ',');
  }

  /** Without error, one jump host per piece, in order. */
  lemma {:induction false} JumpLoopOrder(pieces: seq<string>, parseJump: string -> Result<AliasHost>)
    ensures JumpLoop(pieces, parseJump).1.None? <==> forall i :: 0 <= i < |pieces| ==> parseJump(pieces[i]).Ok?
    ensures JumpLoop(pieces, parseJump).1.None? ==>
              var hosts := JumpLoop(pieces, parseJump).0;
              |hosts| == |pieces| && forall i :: 0 <= i < |pieces| ==> parseJump(pieces[i]) == Ok(hosts[i])
    decreases |pieces|
  {
    if |pieces| > 0 {
      var init := pieces[..|pieces| - 1];
      JumpLoopOrder(init, parseJump);
      if JumpLoop(init, parseJump).1.Some? {
        var i :| 0 <= i < |init| && parseJump(init[i]).Err?;
        assert pieces[i] == init[i];
      } else {
        assert forall i :: 0 <= i < |init| ==> pieces[i] == init[i];
      }
    }
  }

  // ---------------------------------------------------------------------
  // Alias filtering (config.go:79-127)

  /** Some comma piece of `tags` is "all" or occurs in the host's tags. */
  predicate TagsHit(hostTags: string, tags: string) {
    exists piece :: piece in Split(tags, ',') && (piece == "all" || Contains(hostTags, piece))
  }

  /** The user and tag filters. */
  predicate Keep(host: AliasHost, user: string, tags: string) {
    (user == "" || host.user == user) && (tags == "" || TagsHit(host.tags, tags))
  }

  /** An empty piece is a substring of everything, so a tag list ending in
      ',' keeps every host. */
  lemma TrailingCommaKeepsAll(hostTags: string, tags: string)
    requires |tags| > 0 && tags[|tags| - 1] == ','
    ensures TagsHit(hostTags, tags)
  {
    SplitEndsEmpty(tags, ',');
    ContainsEmpty(hostTags);
  }

  /** `all` among the pieces keeps every host. */
  lemma AllKeepsAll(hostTags: string, tags: string)
    requires "all" in Split(tags, ',')
    ensures TagsHit(hostTags, tags)
  {
  }

  /** A string ending in the separator splits into pieces ending in "". */
  lemma {:induction false} SplitEndsEmpty(s: string, sep: char)
    requires |s| > 0 && s[|s| - 1] == sep
    ensures Split(s, sep)[|Split(s, sep)| - 1] == ""
    decreases |s|
  {
    var rest := Split(s[1..], sep);
    if |s| == 1 {
      assert s[1..] == "";
    } else {
      assert s[1..][|s[1..]| - 1] == sep;
      SplitEndsEmpty(s[1..], sep);
      SplitPieces(s[1..], sep);
      CountAtLeastOne(s[1..], sep);
    }
  }

  lemma {:induction false} CountAtLeastOne(s: string, c: char)
    requires |s| > 0 && s[|s| - 1] == c
    ensures CountChar(s, c) >= 1
    decreases |s|
  {
    if |s| > 1 {
      assert s[1..][|s[1..]| - 1] == c;
      CountAtLeastOne(s[1..], c);
    }
  }

  /** The piece loop of the tag filter, stopping at the first hit. */
  method HasTags(hostTags: string, tags: string) returns (hasTags: bool)
    ensures hasTags == TagsHit(hostTags, tags)
  {
    hasTags := false;
    var pieces := Split(tags, ',');
    var i := 0;
    while i < |pieces|
      invariant 0 <= i <= |pieces|
      invariant forall j :: 0 <= j < i ==> !(pieces[j] == "all" || Contains(hostTags, pieces[j]))
    {
      if pieces[i] == "all" || Contains(hostTags, pieces[i]) {
        assert pieces[i] in pieces;
        return true;
      }
      i := i + 1;
    }
    assert forall piece :: piece in pieces ==> exists j :: 0 <= j < |pieces| && pieces[j] == piece;
  }

  // ---------------------------------------------------------------------
  // The hosts table (config.go:55-61)

  /** Every entry, named after its key and formatted, parses. */
  predicate AllParse(hosts: map<string, AliasHost>, tagsFormat: AliasHost -> AliasHost,
                     parse: AliasHost -> Result<AliasHost>) {
    forall k :: k in hosts ==> parse(tagsFormat(hosts[k].(name := k))).Ok?
  }

  function Parsed(hosts: map<string, AliasHost>, tagsFormat: AliasHost -> AliasHost,
                  parse: AliasHost -> Result<AliasHost>): map<string, AliasHost>
    requires AllParse(hosts, tagsFormat, parse)
  {
    map k | k in hosts :: parse(tagsFormat(hosts[k].(name := k))).value
  }

  /** The loop over the hosts table, in an order the model leaves open as
      Go's map iteration does; it stops at the first entry that does not
      parse, with the entries visited so far already replaced. */
  method ParseHosts(hosts: map<string, AliasHost>, tagsFormat: AliasHost -> AliasHost,
                    parse: AliasHost -> Result<AliasHost>)
    returns (result: map<string, AliasHost>, err: Option<Error>)
    ensures err.None? <==> AllParse(hosts, tagsFormat, parse)
    ensures err.None? ==> result == Parsed(hosts, tagsFormat, parse)
    ensures err.Some? ==> exists k :: k in hosts && parse(tagsFormat(hosts[k].(name := k))) == Err(err.value)
  {
    result := hosts;
    var rest := hosts.Keys;
    while rest != {}
      invariant rest <= hosts.Keys
      invariant result.Keys == hosts.Keys
      invariant forall k :: k in hosts && k !in rest ==> parse(tagsFormat(hosts[k].(name := k))) == Ok(result[k])
      invariant forall k :: k in rest ==> result[k] == hosts[k]
      decreases |rest|
    {
      var name :| name in rest;
      var host := result[name].(name := name);
      host := tagsFormat(host);
      var parsed := parse(host);
      if parsed.Err? {
        return result, Some(parsed.error);
      }
      result := result[name := parsed.value];
      rest := rest - {name};
    }
    return result, None;
  }

  /** The jump loop of LoadConfig. */
  method ParseJumps(pieces: seq<string>, parseJump: string -> Result<AliasHost>)
    returns (built: seq<AliasHost>, err: Option<Error>)
    ensures (built, err) == JumpLoop(pieces, parseJump)
  {
    built := [];
    var i := 0;
    while i < |pieces|
      invariant 0 <= i <= |pieces|
      invariant JumpLoop(pieces[..i], parseJump) == (built, None)
    {
      assert pieces[..i + 1][..i] == pieces[..i];
      var host := parseJump(pieces[i]);
      if host.Err? {
        JumpLoopStops(pieces, parseJump, i + 1);
        return built, Some(host.error);
      }
      built := built + [host.value];
      i := i + 1;
    }
    assert pieces[..i] == pieces;
    return built, None;
  }

  // ---------------------------------------------------------------------
  // The configuration object

  class ConfigType {
    var modulesDir: string
    var sshAuthSock: string
    var defaultTimeout: int
    var defaultUser: string
    var defaultPort: Port
    var defaultJump: string
    var hosts: map<string, AliasHost>
    var parallel: int
    var overlayTimeout: int
    var overlayUser: string
    var overlayPort: Port
    var overlayJump: string
    var overlayHost: string
    var jumpHosts: seq<AliasHost>

    /** `&ConfigType{Parallel: 1, OverlayTimeout: -1}` (config.go:35). */
    constructor ()
      ensures parallel == 1 && overlayTimeout == -1
      ensures modulesDir == "" && sshAuthSock == "" && defaultTimeout == 0 && defaultUser == ""
      ensures defaultPort == 0 && defaultJump == "" && hosts == map[]
      ensures overlayUser == "" && overlayPort == 0 && overlayJump == "" && overlayHost == ""
      ensures jumpHosts == []
    {
      modulesDir, sshAuthSock, defaultTimeout, defaultUser := "", "", 0, "";
      defaultPort, defaultJump, hosts := 0, "", map[];
      parallel, overlayTimeout := 1, -1;
      overlayUser, overlayPort, overlayJump, overlayHost := "", 0, "", "";
      jumpHosts := [];
    }

    /** LoadConfig (config.go:46-77). `decoded` is what viper.Unmarshal
        makes of the file. Parallel, the overlay fields and JumpHosts take
        the file's values when it has their keys; the jump choice reads the
        overlay jump after decoding. */
    method LoadConfig(env: Env, homeDir: string, decoded: Result<FileSettings>,
                      tagsFormat: AliasHost -> AliasHost, parse: AliasHost -> Result<AliasHost>,
                      parseJump: string -> Result<AliasHost>)
      returns (err: Option<Error>)
      modifies `modulesDir, `sshAuthSock, `defaultTimeout, `defaultUser, `defaultPort, `defaultJump, `hosts, `jumpHosts
      modifies `parallel, `overlayTimeout, `overlayUser, `overlayPort, `overlayJump, `overlayHost
      ensures decoded.Err? ==> err == Some(decoded.error) && unchanged(this)
      ensures decoded.Ok? ==>
                var s := decoded.value;
                modulesDir == s.modulesDir && defaultTimeout == s.defaultTimeout &&
                defaultUser == s.defaultUser && defaultPort == s.defaultPort && defaultJump == s.defaultJump &&
                sshAuthSock == (if s.sshAuthSock == "" then GetSshAuthSock(env, homeDir) else s.sshAuthSock)
      ensures decoded.Ok? ==>
                OverlayDecoded(decoded.value, old(parallel), old(overlayTimeout), old(overlayUser),
                               old(overlayPort), old(overlayJump), old(overlayHost))
      ensures decoded.Ok? && !AllParse(decoded.value.hosts, tagsFormat, parse) ==>
                jumpHosts == Given(decoded.value.jumpHosts, old(jumpHosts)) && err.Some? &&
                exists k :: k in decoded.value.hosts && parse(tagsFormat(decoded.value.hosts[k].(name := k))) == Err(err.value)
      ensures decoded.Ok? && AllParse(decoded.value.hosts, tagsFormat, parse) ==>
                var loop := JumpLoop(JumpPieces(SelectJump(decoded.value.defaultJump, overlayJump)), parseJump);
                hosts == Parsed(decoded.value.hosts, tagsFormat, parse) &&
                jumpHosts == Given(decoded.value.jumpHosts, old(jumpHosts)) + loop.0 && err == loop.1
    {
      if decoded.Err? {
        return Some(decoded.error);
      }
      var s := decoded.value;
      var sock := s.sshAuthSock;
      if sock == "" {
        sock := GetSshAuthSock(env, homeDir);
      }
      var parsed, built;
      parsed, built, err := LoadTables(s.hosts, SelectJump(s.defaultJump, Given(s.overlayJump, overlayJump)),
                                       tagsFormat, parse, parseJump);
      Store(s, sock, parsed, built);
    }

    /** The field assignments of LoadConfig: the decoded settings with the
        agent socket and hosts table replaced, the jump hosts appended, and
        Parallel and the overlay fields decoded. */
    method Store(s: FileSettings, sock: string, parsed: map<string, AliasHost>, built: seq<AliasHost>)
      modifies `modulesDir, `sshAuthSock, `defaultTimeout, `defaultUser, `defaultPort, `defaultJump, `hosts, `jumpHosts
      modifies `parallel, `overlayTimeout, `overlayUser, `overlayPort, `overlayJump, `overlayHost
      ensures modulesDir == s.modulesDir && sshAuthSock == sock && defaultTimeout == s.defaultTimeout
      ensures defaultUser == s.defaultUser && defaultPort == s.defaultPort && defaultJump == s.defaultJump
      ensures hosts == parsed && jumpHosts == Given(s.jumpHosts, old(jumpHosts)) + built
      ensures OverlayDecoded(s, old(parallel), old(overlayTimeout), old(overlayUser),
                             old(overlayPort), old(overlayJump), old(overlayHost))
    {
      StoreSettings(s, sock, parsed, built);
      StoreOverlay(s);
    }

    /** The fields under YAML tags, the agent socket and the jump hosts. */
    method StoreSettings(s: FileSettings, sock: string, parsed: map<string, AliasHost>, built: seq<AliasHost>)
      modifies `modulesDir, `sshAuthSock, `defaultTimeout, `defaultUser, `defaultPort, `defaultJump, `hosts, `jumpHosts
      ensures modulesDir == s.modulesDir && sshAuthSock == sock && defaultTimeout == s.defaultTimeout
      ensures defaultUser == s.defaultUser && defaultPort == s.defaultPort && defaultJump == s.defaultJump
      ensures hosts == parsed && jumpHosts == Given(s.jumpHosts, old(jumpHosts)) + built
    {
      modulesDir, sshAuthSock, defaultTimeout, defaultUser := s.modulesDir, sock, s.defaultTimeout, s.defaultUser;
      defaultPort, defaultJump, hosts := s.defaultPort, s.defaultJump, parsed;
      jumpHosts := Given(s.jumpHosts, jumpHosts) + built;
    }

    /** Parallel and the overlay fields after decoding `s` over the values
        they had before. */
    ghost predicate OverlayDecoded(s: FileSettings, p: int, t: int, u: string, port: Port, j: string, h: string)
      reads `parallel, `overlayTimeout, `overlayUser, `overlayPort, `overlayJump, `overlayHost
    {
      parallel == Given(s.parallel, p) && overlayTimeout == Given(s.overlayTimeout, t) &&
      overlayUser == Given(s.overlayUser, u) && overlayPort == Given(s.overlayPort, port) &&
      overlayJump == Given(s.overlayJump, j) && overlayHost == Given(s.overlayHost, h)
    }

    /** The fields outside the YAML tags that the file may still set. */
    method StoreOverlay(s: FileSettings)
      modifies `parallel, `overlayTimeout, `overlayUser, `overlayPort, `overlayJump, `overlayHost
      ensures OverlayDecoded(s, old(parallel), old(overlayTimeout), old(overlayUser),
                             old(overlayPort), old(overlayJump), old(overlayHost))
    {
      parallel, overlayTimeout := Given(s.parallel, parallel), Given(s.overlayTimeout, overlayTimeout);
      overlayUser, overlayPort := Given(s.overlayUser, overlayUser), Given(s.overlayPort, overlayPort);
      overlayJump, overlayHost := Given(s.overlayJump, overlayJump), Given(s.overlayHost, overlayHost);
    }

    /** ConfigHostsFilter (config.go:79-127) over the hosts table. */
    method ConfigHostsFilter(name: string, user: string, tags: string)
      returns (result: seq<AliasHost>, err: Option<Error>, ghost names: seq<string>)
      ensures name != "" ==> err.None? && result == (if name in hosts then [hosts[name]] else [])
      ensures err.Some? ==> name == "" && tags != "" && !TagPatternMatches(tags) && err == Some(InvalidTags)
      ensures name == "" && err.None? ==>
                Sorted(names) && Distinct(names) &&
                (forall n :: n in names <==> n in hosts && Keep(hosts[n], user, tags)) &&
                |result| == |names| && forall i :: 0 <= i < |names| ==> names[i] in hosts && result[i] == hosts[names[i]]
    {
      result, err, names := FilterHosts(hosts, name, user, tags);
    }
  }

  /** The two loops of LoadConfig (config.go:55-75) on the decoded table and
      the chosen jump string. After a table entry fails no jump host is
      built; the table entries visited before it have already been replaced
      in the source, which the model does not pin down. */
  method LoadTables(table: map<string, AliasHost>, jump: string,
                    tagsFormat: AliasHost -> AliasHost, parse: AliasHost -> Result<AliasHost>,
                    parseJump: string -> Result<AliasHost>)
    returns (parsed: map<string, AliasHost>, built: seq<AliasHost>, err: Option<Error>)
    ensures !AllParse(table, tagsFormat, parse) ==>
              built == [] && err.Some? &&
              exists k :: k in table && parse(tagsFormat(table[k].(name := k))) == Err(err.value)
    ensures AllParse(table, tagsFormat, parse) ==>
              parsed == Parsed(table, tagsFormat, parse) && (built, err) == JumpLoop(JumpPieces(jump), parseJump)
  {
    var hostErr;
    parsed, hostErr := ParseHosts(table, tagsFormat, parse);
    built := [];
    if hostErr.Some? {
      return parsed, built, hostErr;
    }
    if jump != "" && jump != "none" {
      built, err := ParseJumps(Split(jump, ','), parseJump);
    } else {
      err := None;
    }
  }

  /** The body of ConfigHostsFilter on a given table. */
  method FilterHosts(table: map<string, AliasHost>, name: string, user: string, tags: string)
    returns (result: seq<AliasHost>, err: Option<Error>, ghost names: seq<string>)
    ensures name != "" ==> err.None? && result == (if name in table then [table[name]] else [])
    ensures err.Some? ==> name == "" && tags != "" && !TagPatternMatches(tags) && err == Some(InvalidTags)
    ensures name == "" && err.None? ==>
              Sorted(names) && Distinct(names) &&
              (forall n :: n in names <==> n in table && Keep(table[n], user, tags)) &&
              |result| == |names| && forall i :: 0 <= i < |names| ==> names[i] in table && result[i] == table[names[i]]
  {
    names := [];
    if name != "" {
      if name in table {
        result := [table[name]];
      } else {
        result := [];
      }
      return result, None, names;
    }

    var hostNames := MapKeys(table);
    var sorted := SortStrings(hostNames);
    SortedKeys(table, hostNames, sorted);

    result := [];
    var i := 0;
    while i < |sorted|
      invariant 0 <= i <= |sorted|
      invariant forall j :: 0 <= j < |names| ==> names[j] in sorted[..i]
      invariant forall n :: n in sorted[..i] && n in table && Keep(table[n], user, tags) ==> n in names
      invariant forall n :: n in names ==> n in table && Keep(table[n], user, tags)
      invariant Sorted(names) && Distinct(names)
      invariant |result| == |names| && forall j :: 0 <= j < |names| ==> result[j] == table[names[j]]
    {
      var n := sorted[i];
      var host := table[n];
      var keep := user == "" || host.user == user;
      if keep && tags != "" {
        if !TagPatternMatches(tags) {
          return result, Some(InvalidTags), names;
        }
        keep := HasTags(host.tags, tags);
      }
      if keep {
        AppendSorted(names, sorted, i);
        names := names + [n];
        result := result + [host];
      }
      PrefixStep(sorted, i);
      i := i + 1;
    }
    assert sorted[..i] == sorted;
    return result, None, names;
  }

  /** One more element of a prefix. */
  lemma PrefixStep(s: seq<string>, i: nat)
    requires i < |s|
    ensures s[..i + 1] == s[..i] + [s[i]]
  {
  }

  /** The keys of a map, each once, in an order the model leaves open. */
  method MapKeys(m: map<string, AliasHost>) returns (keys: seq<string>)
    ensures Distinct(keys) && forall k :: k in keys <==> k in m
  {
    keys := [];
    var rest := m.Keys;
    while rest != {}
      invariant rest <= m.Keys
      invariant forall k :: k in keys <==> k in m && k !in rest
      invariant Distinct(keys)
      decreases |rest|
    {
      var k :| k in rest;
      keys := keys + [k];
      rest := rest - {k};
    }
  }

  lemma SortedKeys(m: map<string, AliasHost>, keys: seq<string>, sorted: seq<string>)
    requires Distinct(keys) && forall k :: k in keys <==> k in m
    requires multiset(sorted) == multiset(keys)
    ensures Distinct(sorted) && forall k :: k in sorted <==> k in m
  {
    DistinctByMultiset(keys, sorted);
    forall k ensures k in sorted <==> k in m {
      assert k in sorted <==> k in multiset(sorted);
      assert k in keys <==> k in multiset(keys);
    }
  }

  /** After an error the jump loop stays stopped. */
  lemma {:induction false} JumpLoopStops(pieces: seq<string>, parseJump: string -> Result<AliasHost>, k: nat)
    requires k <= |pieces| && JumpLoop(pieces[..k], parseJump).1.Some?
    ensures JumpLoop(pieces, parseJump) == JumpLoop(pieces[..k], parseJump)
    decreases |pieces| - k
  {
    if k < |pieces| {
      assert pieces[..k + 1][..k] == pieces[..k];
      JumpLoopStops(pieces, parseJump, k + 1);
    } else {
      assert pieces[..k] == pieces;
    }
  }

  /** Appending the next name of a sorted, duplicate-free list keeps the
      kept names sorted and duplicate-free. */
  lemma AppendSorted(names: seq<string>, sorted: seq<string>, i: nat)
    requires i < |sorted| && Sorted(sorted) && Distinct(sorted)
    requires Sorted(names) && Distinct(names)
    requires forall j :: 0 <= j < |names| ==> names[j] in sorted[..i]
    ensures Sorted(names + [sorted[i]]) && Distinct(names + [sorted[i]])
  {
    var s := names + [sorted[i]];
    forall j | 0 <= j < |names| ensures Less(names[j], sorted[i]) {
      var prefix := sorted[..i];
      assert names[j] in prefix;
      var k :| 0 <= k < |prefix| && prefix[k] == names[j];
      assert sorted[k] == names[j];
      StrictlyAscending(sorted, k, i);
    }
    forall a, b | 0 <= a < b < |s| ensures !Less(s[b], s[a]) && s[a] != s[b] {
      if b == |names| {
        LessIrreflexive(s[a]);
        LessAsymmetric(s[a], s[b]);
      }
    }
  }
}
