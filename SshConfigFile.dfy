/** config/ssh_config.go: reading the user's ssh client configuration into
    Host records.

    A decoded configuration is a list of Host blocks; each block has its
    patterns, its nodes (empty lines, `Key Value` pairs, and others such as
    Include lines) and the comment at the end of its `Host` line. The
    decoder itself (ssh_config.DecodeBytes) and the pattern-based filling of
    attributes (Host.FillAttrsWithSSHConfig) are parameters of the model. */
module SshConfigFile {
  import opened Base
  import opened Strs
  import opened ConfigHost

  datatype Node = EmptyNode | KV(key: string, value: string) | OtherNode

  datatype Block = Block(patterns: seq<string>, nodes: seq<Node>, eolComment: string)

  // ---------------------------------------------------------------------
  // One block to one Host (ssh_config.go:15-53)

  predicate HasKey(n: Node, key: string) {
    n.KV? && n.key == key
  }

  /** The value of the last `key` node. */
  function LastKV(nodes: seq<Node>, key: string): Option<string> {
    if |nodes| == 0 then None
    else if HasKey(nodes[|nodes| - 1], key) then Some(nodes[|nodes| - 1].value)
    else LastKV(nodes[..|nodes| - 1], key)
  }

  function ValueOf(nodes: seq<Node>, key: string): string {
    match LastKV(nodes, key)
    case Some(v) => v
    case None => ""
  }

  /** The values of all `key` nodes, in order. */
  function AllValues(nodes: seq<Node>, key: string): seq<string> {
    if |nodes| == 0 then []
    else
      var init := AllValues(nodes[..|nodes| - 1], key);
      if HasKey(nodes[|nodes| - 1], key) then init + [nodes[|nodes| - 1].value] else init
  }

  /** What is wrong with a Port value: not a decimal integer, or out of
      1..65535. */
  function PortError(v: string): Option<Error> {
    match Atoi(v)
    case None => Some(AtoiFailed(v))
    case Some(n) => if n <= 0 || n >= 65536 then Some(InvalidPort(v)) else None
  }

  predicate BadPort(n: Node) {
    HasKey(n, "Port") && PortError(n.value).Some?
  }

  /** The complaint about the first bad Port node. */
  function FirstPortError(nodes: seq<Node>): Option<Error> {
    if |nodes| == 0 then None
    else
      var init := FirstPortError(nodes[..|nodes| - 1]);
      if init.Some? then init
      else if BadPort(nodes[|nodes| - 1]) then PortError(nodes[|nodes| - 1].value)
      else None
  }

  /** The port of the last Port node; 0 when there is none. */
  function PortValue(nodes: seq<Node>): Port {
    match LastKV(nodes, "Port")
    case None => 0
    case Some(v) =>
      match ParsePort(v)
      case Some(p) => p
      case None => 0
  }

  /** hostFromSSHConfig as a function. */
  function ConvertBlock(b: Block): Result<Host> {
    match FirstPortError(b.nodes)
    case Some(e) => Err(e)
    case None =>
      Ok(Host(b.patterns, ValueOf(b.nodes, "HostName"), ValueOf(b.nodes, "User"),
              PortValue(b.nodes), ValueOf(b.nodes, "ProxyJump"), [], [],
              AllValues(b.nodes, "IdentityFile")))
  }

  /** The Host a block describes when its nodes are all acceptable. */
  function HostOfNodes(patterns: seq<string>, nodes: seq<Node>): Host {
    Host(patterns, ValueOf(nodes, "HostName"), ValueOf(nodes, "User"), PortValue(nodes),
         ValueOf(nodes, "ProxyJump"), [], [], AllValues(nodes, "IdentityFile"))
  }

  /** The Host after one more node: a known key sets its field, an
      IdentityFile is added, and any other node changes nothing. */
  function Absorb(h: Host, n: Node): Host {
    match n
    case KV(key, value) =>
      if key == "HostName" then h.(hostName := value)
      else if key == "User" then h.(username := value)
      else if key == "Port" then h.(port := match ParsePort(value) case Some(p) => p case None => 0)
      else if key == "ProxyJump" then h.(proxyJump := value)
      else if key == "IdentityFile" then h.(identityFiles := h.identityFiles + [value])
      else h
    case _ => h
  }

  lemma HostOfNodesNext(patterns: seq<string>, nodes: seq<Node>, j: nat)
    requires j < |nodes|
    ensures HostOfNodes(patterns, nodes[..j + 1]) == Absorb(HostOfNodes(patterns, nodes[..j]), nodes[j])
  {
    assert nodes[..j + 1][..j] == nodes[..j];
  }

  lemma {:induction false} FirstPortErrorStays(nodes: seq<Node>, k: nat)
    requires k <= |nodes| && FirstPortError(nodes[..k]).Some?
    ensures FirstPortError(nodes) == FirstPortError(nodes[..k])
    decreases |nodes| - k
  {
    if k < |nodes| {
      assert nodes[..k + 1][..k] == nodes[..k];
      FirstPortErrorStays(nodes, k + 1);
    } else {
      assert nodes[..k] == nodes;
    }
  }

  method HostFromSshConfig(b: Block) returns (r: Result<Host>)
    ensures r == ConvertBlock(b)
  {
    var patterns: seq<string> := [];
    var i := 0;
    while i < |b.patterns|
      invariant 0 <= i <= |b.patterns|
      invariant patterns == b.patterns[..i]
    {
      patterns := patterns + [b.patterns[i]];
      i := i + 1;
    }
    assert b.patterns[..i] == b.patterns;

    var host := HostOfNodes(patterns, []);
    var j := 0;
    while j < |b.nodes|
      invariant 0 <= j <= |b.nodes|
      invariant FirstPortError(b.nodes[..j]).None?
      invariant host == HostOfNodes(patterns, b.nodes[..j])
    {
      var prefix := b.nodes[..j + 1];
      assert prefix[..j] == b.nodes[..j];
      HostOfNodesNext(patterns, b.nodes, j);
      match b.nodes[j] {
      case EmptyNode =>
      case OtherNode =>
      case KV(key, value) =>
        if key == "HostName" {
          host := host.(hostName := value);
        } else if key == "User" {
          host := host.(username := value);
        } else if key == "Port" {
          var port := Atoi(value);
          if port.None? {
            FirstPortErrorStays(b.nodes, j + 1);
            return Err(AtoiFailed(value));
          }
          if port.value <= 0 || port.value >= 65536 {
            FirstPortErrorStays(b.nodes, j + 1);
            return Err(InvalidPort(value));
          }
          host := host.(port := port.value);
        } else if key == "ProxyJump" {
          host := host.(proxyJump := value);
        } else if key == "IdentityFile" {
          host := host.(identityFiles := host.identityFiles + [value]);
        }
      }
      j := j + 1;
    }
    assert b.nodes[..j] == b.nodes;
    return Ok(host);
  }

  // What the conversion means

  lemma {:induction false} LastKVAppend(a: seq<Node>, c: seq<Node>, key: string)
    ensures LastKV(a + c, key) == if LastKV(c, key).Some? then LastKV(c, key) else LastKV(a, key)
    decreases |c|
  {
    if |c| == 0 {
      assert a + c == a;
    } else {
      var init := c[..|c| - 1];
      assert (a + c)[..|a + c| - 1] == a + init;
      LastKVAppend(a, init, key);
    }
  }

  lemma {:induction false} AllValuesAppend(a: seq<Node>, c: seq<Node>, key: string)
    ensures AllValues(a + c, key) == AllValues(a, key) + AllValues(c, key)
    decreases |c|
  {
    if |c| == 0 {
      assert a + c == a;
    } else {
      var init := c[..|c| - 1];
      assert (a + c)[..|a + c| - 1] == a + init;
      AllValuesAppend(a, init, key);
    }
  }

  lemma {:induction false} FirstPortErrorAppend(a: seq<Node>, c: seq<Node>)
    ensures FirstPortError(a + c) == if FirstPortError(a).Some? then FirstPortError(a) else FirstPortError(c)
    decreases |c|
  {
    if |c| == 0 {
      assert a + c == a;
    } else {
      var init := c[..|c| - 1];
      assert (a + c)[..|a + c| - 1] == a + init;
      FirstPortErrorAppend(a, init);
    }
  }

  /** The last HostName, User, ProxyJump or Port node wins. */
  lemma {:induction false} LastOccurrenceWins(nodes: seq<Node>, key: string, i: nat)
    requires i < |nodes| && HasKey(nodes[i], key)
    requires forall j :: i < j < |nodes| ==> !HasKey(nodes[j], key)
    ensures LastKV(nodes, key) == Some(nodes[i].value)
    ensures ValueOf(nodes, key) == nodes[i].value
    decreases |nodes|
  {
    if i < |nodes| - 1 {
      var init := nodes[..|nodes| - 1];
      LastOccurrenceWins(init, key, i);
    }
  }

  /** Without a `key` node the value is "" and there are no values. */
  lemma {:induction false} AbsentKey(nodes: seq<Node>, key: string)
    requires forall j :: 0 <= j < |nodes| ==> !HasKey(nodes[j], key)
    ensures LastKV(nodes, key) == None && ValueOf(nodes, key) == ""
    ensures AllValues(nodes, key) == []
    decreases |nodes|
  {
    if |nodes| > 0 {
      AbsentKey(nodes[..|nodes| - 1], key);
    }
  }

  /** IdentityFile values accumulate in their order. */
  lemma {:induction false} IdentityFilesInOrder(nodes: seq<Node>, key: string)
    ensures forall v :: v in AllValues(nodes, key) <==> exists j :: 0 <= j < |nodes| && nodes[j] == KV(key, v)
    ensures |AllValues(nodes, key)| <= |nodes|
    decreases |nodes|
  {
    if |nodes| > 0 {
      var init := nodes[..|nodes| - 1];
      IdentityFilesInOrder(init, key);
      forall v ensures v in AllValues(nodes, key) <==> exists j :: 0 <= j < |nodes| && nodes[j] == KV(key, v) {
        if v in AllValues(nodes, key) && v !in AllValues(init, key) {
          assert nodes[|nodes| - 1] == KV(key, v);
        }
        if exists j :: 0 <= j < |nodes| && nodes[j] == KV(key, v) {
          var j :| 0 <= j < |nodes| && nodes[j] == KV(key, v);
          if j < |nodes| - 1 {
            assert init[j] == KV(key, v);
          }
        }
      }
    }
  }

  /** No complaint exactly when no Port node is bad. */
  lemma {:induction false} NoPortError(nodes: seq<Node>)
    ensures FirstPortError(nodes).None? <==> forall j :: 0 <= j < |nodes| ==> !BadPort(nodes[j])
    decreases |nodes|
  {
    if |nodes| > 0 {
      var init := nodes[..|nodes| - 1];
      NoPortError(init);
      if FirstPortError(init).None? {
        assert forall j :: 0 <= j < |init| ==> !BadPort(nodes[j]) by {
          forall j | 0 <= j < |init| ensures !BadPort(nodes[j]) { assert nodes[j] == init[j]; }
        }
      } else {
        var j :| 0 <= j < |init| && BadPort(init[j]);
        assert nodes[j] == init[j];
      }
    }
  }

  /** A Port value that is not an integer in 1..65535 fails the whole
      conversion with the complaint about the first such node. */
  lemma {:induction false} FirstBadPortReported(nodes: seq<Node>, i: nat)
    requires i < |nodes| && BadPort(nodes[i])
    requires forall j :: 0 <= j < i ==> !BadPort(nodes[j])
    ensures FirstPortError(nodes) == PortError(nodes[i].value)
    ensures PortError(nodes[i].value).Some?
    decreases |nodes|
  {
    var init := nodes[..|nodes| - 1];
    if i < |nodes| - 1 {
      assert init[i] == nodes[i];
      assert forall j :: 0 <= j < i ==> !BadPort(init[j]) by {
        forall j | 0 <= j < i ensures !BadPort(init[j]) { assert init[j] == nodes[j]; }
      }
      FirstBadPortReported(init, i);
    } else {
      assert forall j :: 0 <= j < |init| ==> !BadPort(init[j]) by {
        forall j | 0 <= j < |init| ensures !BadPort(init[j]) { assert init[j] == nodes[j]; }
      }
      NoPortError(init);
    }
  }

  lemma ConvertBlockOutcome(b: Block)
    ensures ConvertBlock(b).Err? <==> exists j :: 0 <= j < |b.nodes| && BadPort(b.nodes[j])
    ensures ConvertBlock(b).Ok? ==> ConvertBlock(b).value.patterns == b.patterns
    ensures ConvertBlock(b).Ok? ==> 0 <= ConvertBlock(b).value.port < 65536
    ensures ConvertBlock(b).Ok? && LastKV(b.nodes, "Port").Some? ==>
              Atoi(LastKV(b.nodes, "Port").value) == Some(ConvertBlock(b).value.port)
  {
    NoPortError(b.nodes);
    if ConvertBlock(b).Ok? && LastKV(b.nodes, "Port").Some? {
      LastPortIsGood(b.nodes);
    }
  }

  lemma {:induction false} LastPortIsGood(nodes: seq<Node>)
    requires FirstPortError(nodes).None? && LastKV(nodes, "Port").Some?
    ensures ParsePort(LastKV(nodes, "Port").value).Some?
    decreases |nodes|
  {
    var init := nodes[..|nodes| - 1];
    if !HasKey(nodes[|nodes| - 1], "Port") {
      LastPortIsGood(init);
    }
  }

  predicate Recognised(key: string) {
    key == "HostName" || key == "User" || key == "Port" || key == "ProxyJump" || key == "IdentityFile"
  }

  /** A node without `key` changes nothing about `key`, wherever it stands. */
  lemma NodeWithoutKey(a: seq<Node>, n: Node, c: seq<Node>, key: string)
    requires !HasKey(n, key)
    ensures LastKV(a + [n] + c, key) == LastKV(a + c, key)
    ensures AllValues(a + [n] + c, key) == AllValues(a + c, key)
  {
    assert [n][..0] == [];
    LastKVAppend(a + [n], c, key);
    LastKVAppend(a, [n], key);
    LastKVAppend(a, c, key);
    AllValuesAppend(a + [n], c, key);
    AllValuesAppend(a, [n], key);
    AllValuesAppend(a, c, key);
  }

  /** Empty nodes, other nodes and unrecognised keys change nothing,
      wherever they stand. */
  lemma IgnoredNode(patterns: seq<string>, a: seq<Node>, n: Node, c: seq<Node>, comment: string)
    requires !n.KV? || !Recognised(n.key)
    ensures ConvertBlock(Block(patterns, a + [n] + c, comment)) == ConvertBlock(Block(patterns, a + c, comment))
  {
    NodeWithoutKey(a, n, c, "HostName");
    NodeWithoutKey(a, n, c, "User");
    NodeWithoutKey(a, n, c, "Port");
    NodeWithoutKey(a, n, c, "ProxyJump");
    NodeWithoutKey(a, n, c, "IdentityFile");
    assert [n][..0] == [];
    FirstPortErrorAppend(a + [n], c);
    FirstPortErrorAppend(a, [n]);
    FirstPortErrorAppend(a, c);
  }

  // ---------------------------------------------------------------------
  // Tags in the end-of-line comment (ssh_config.go:87-99)

  /** The longest prefix made of `[0-9a-zA-z_\-,]` characters. */
  function ClassRun(s: string): (r: string)
    ensures r <= s && AllTagChars(r)
    ensures |r| == |s| || !TagChar(s[|r|])
  {
    if |s| == 0 || !TagChar(s[0]) then "" else [s[0]] + ClassRun(s[1..])
  }

  /** The submatch of `tags:([0-9a-zA-z_\-,]*)`: the leftmost `tags:`
      followed by the greedy run of class characters. */
  function TagsSubmatch(comment: string): Option<string> {
    match FindSub(comment, "tags:")
    case None => None
    case Some(i) => Some(ClassRun(comment[i + 5..]))
  }

  function ExtractTags(comment: string): seq<string> {
    if comment == "" then []
    else match TagsSubmatch(comment)
      case None => []
      case Some(run) => NonEmpty(Split(run, ','))
  }

  /** The tag loop: the non-empty comma pieces of the match, appended. */
  method AppendTags(tagList: seq<string>, comment: string) returns (r: seq<string>)
    ensures r == tagList + ExtractTags(comment)
  {
    r := tagList;
    if comment != "" {
      var found := TagsSubmatch(comment);
      if found.Some? {
        var pieces := Split(found.value, ',');
        var i := 0;
        while i < |pieces|
          invariant 0 <= i <= |pieces|
          invariant r == tagList + NonEmpty(pieces[..i])
        {
          assert pieces[..i + 1][..i] == pieces[..i];
          if pieces[i] != "" {
            r := r + [pieces[i]];
          }
          i := i + 1;
        }
        assert pieces[..i] == pieces;
      }
    }
  }

  /** Every tag is a non-empty run of class characters without ','. */
  lemma ExtractedTagsWellFormed(comment: string)
    ensures forall t :: t in ExtractTags(comment) ==> t != "" && AllTagChars(t) && ',' !in t
  {
    if comment != "" && TagsSubmatch(comment).Some? {
      var run := TagsSubmatch(comment).value;
      SplitPieces(run, ',');
      forall t | t in ExtractTags(comment) ensures t != "" && AllTagChars(t) && ',' !in t {
        assert t in Split(run, ',');
        PieceOfRun(run, ',', t);
      }
    }
  }

  /** A piece of a split lies inside the split string. */
  lemma {:induction false} PieceOfRun(s: string, sep: char, t: string)
    requires AllTagChars(s) && t in Split(s, sep)
    ensures AllTagChars(t)
    decreases |s|
  {
    if |s| > 0 {
      var rest := Split(s[1..], sep);
      assert AllTagChars(s[1..]) by {
        forall i | 0 <= i < |s[1..]| ensures TagChar(s[1..][i]) { assert s[1..][i] == s[i + 1]; }
      }
      if s[0] == sep {
        if t != "" {
          PieceOfRun(s[1..], sep, t);
        }
      } else if t == [s[0]] + rest[0] {
        PieceOfRun(s[1..], sep, rest[0]);
      } else {
        assert t in rest[1..];
        PieceOfRun(s[1..], sep, t);
      }
    }
  }

  /** The leftmost `tags:` is the one written after `pre`. */
  lemma TagsFoundAfter(pre: string, rest: string)
    requires !Contains(pre + "tags", "tags:")
    ensures FindSub(pre + "tags:" + rest, "tags:") == Some(|pre|)
  {
    var comment := pre + "tags:" + rest;
    assert "tags:" <= comment[|pre|..];
    forall j | 0 <= j < |pre| ensures !("tags:" <= comment[j..]) {
      assert comment[j..][..5] == (pre + "tags")[j..][..5];
      assert !("tags:" <= (pre + "tags")[j..]);
    }
    var found := FindSub(comment, "tags:");
    assert found.Some?;
    assert comment[found.value..][..5] == comment[found.value..found.value + 5];
  }

  /** The submatch is the class run written after `tags:`. */
  lemma SubmatchAfter(pre: string, body: string, post: string)
    requires AllTagChars(body)
    requires !Contains(pre + "tags", "tags:")
    requires post == "" || !TagChar(post[0])
    ensures TagsSubmatch(pre + "tags:" + body + post) == Some(body)
  {
    var comment := pre + "tags:" + body + post;
    assert comment == pre + "tags:" + (body + post);
    TagsFoundAfter(pre, body + post);
    assert comment[|pre| + 5..] == body + post;
    RunStopsAtPost(body, post);
  }

  /** Writing `tags:t1,t2,...` into the comment, after text holding no
      other `tags:` and before a character outside the class, gives back
      exactly those tags. */
  lemma TagsRoundTrip(pre: string, tags: seq<string>, post: string)
    requires |tags| >= 1
    requires forall i :: 0 <= i < |tags| ==> tags[i] != "" && AllTagChars(tags[i]) && ',' !in tags[i]
    requires !Contains(pre + "tags", "tags:")
    requires post == "" || !TagChar(post[0])
    ensures ExtractTags(pre + "tags:" + Join(tags, ",") + post) == tags
  {
    var body := Join(tags, ",");
    JoinIsRun(tags);
    SubmatchAfter(pre, body, post);
    SplitJoin(tags, ',');
    NonEmptyKeepsFull(tags);
    var comment := pre + "tags:" + body + post;
    assert |comment| >= 5;
  }

  lemma {:induction false} JoinIsRun(tags: seq<string>)
    requires forall i :: 0 <= i < |tags| ==> AllTagChars(tags[i])
    ensures AllTagChars(Join(tags, ","))
    decreases |tags|
  {
    if |tags| > 1 {
      JoinIsRun(tags[1..]);
    }
  }

  lemma {:induction false} RunStopsAtPost(body: string, post: string)
    requires AllTagChars(body)
    requires post == "" || !TagChar(post[0])
    ensures ClassRun(body + post) == body
    decreases |body|
  {
    if |body| == 0 {
      assert body + post == post;
    } else {
      assert (body + post)[1..] == body[1..] + post;
      assert AllTagChars(body[1..]) by {
        forall i | 0 <= i < |body[1..]| ensures TagChar(body[1..][i]) { assert body[1..][i] == body[i + 1]; }
      }
      RunStopsAtPost(body[1..], post);
    }
  }

  lemma {:induction false} NonEmptyKeepsFull(parts: seq<string>)
    requires forall i :: 0 <= i < |parts| ==> parts[i] != ""
    ensures NonEmpty(parts) == parts
    decreases |parts|
  {
    if |parts| > 0 {
      NonEmptyKeepsFull(parts[..|parts| - 1]);
    }
  }

  // ---------------------------------------------------------------------
  // The whole configuration (ssh_config.go:55-106)

  function ConfigPath(env: Env): string {
    JoinPath(JoinPath(env.Getenv("HOME"), ".ssh"), "config")
  }

  /** A converted block as it enters the list. */
  function Listed(b: Block, host: Host, fill: Host -> Host): Host {
    var filled := fill(host);
    if b.eolComment != "" then filled.(tagList := filled.tagList + ExtractTags(b.eolComment)) else filled
  }

  /** The loop over the blocks: the hosts listed so far and the error that
      stopped it, if any. */
  function ListBlocks(blocks: seq<Block>, fill: Host -> Host): (seq<Host>, Option<Error>) {
    if |blocks| == 0 then ([], None)
    else
      var (hosts, err) := ListBlocks(blocks[..|blocks| - 1], fill);
      var b := blocks[|blocks| - 1];
      if err.Some? then (hosts, err)
      else match ConvertBlock(b)
        case Err(e) => (hosts, Some(e))
        case Ok(host) => if host.hostName == "" then (hosts, None) else (hosts + [Listed(b, host, fill)], None)
  }

  /** GetHostsFromSSHConfig as a function; `decode` is ssh_config.DecodeBytes. */
  function HostsFromConfigFile(env: Env, decode: string -> Result<seq<Block>>, fill: Host -> Host)
    : (seq<Host>, Option<Error>)
  {
    var path := ConfigPath(env);
    if !env.Exists(path) then ([], None)
    else match env.ReadFile(path)
      case Err(e) => ([], Some(e))
      case Ok(content) =>
        match decode(content)
        case Err(e) => ([], Some(e))
        case Ok(blocks) => ListBlocks(blocks, fill)
  }

  lemma ListBlocksStep(blocks: seq<Block>, fill: Host -> Host, i: nat)
    requires i < |blocks|
    ensures blocks[..i + 1][..i] == blocks[..i]
    ensures ListBlocks(blocks[..i + 1], fill) ==
            var (hosts, err) := ListBlocks(blocks[..i], fill);
            if err.Some? then (hosts, err)
            else match ConvertBlock(blocks[i])
              case Err(e) => (hosts, Some(e))
              case Ok(host) => if host.hostName == "" then (hosts, None) else (hosts + [Listed(blocks[i], host, fill)], None)
  {
    assert blocks[..i + 1][..i] == blocks[..i];
  }

  lemma {:induction false} ListBlocksStops(blocks: seq<Block>, fill: Host -> Host, k: nat)
    requires k <= |blocks| && ListBlocks(blocks[..k], fill).1.Some?
    ensures ListBlocks(blocks, fill) == ListBlocks(blocks[..k], fill)
    decreases |blocks| - k
  {
    if k < |blocks| {
      ListBlocksStep(blocks, fill, k);
      ListBlocksStops(blocks, fill, k + 1);
    } else {
      assert blocks[..k] == blocks;
    }
  }

  method GetHostsFromSshConfig(env: Env, decode: string -> Result<seq<Block>>, fill: Host -> Host)
    returns (hosts: seq<Host>, err: Option<Error>)
    ensures (hosts, err) == HostsFromConfigFile(env, decode, fill)
  {
    hosts := [];
    var configPath := JoinPath(JoinPath(env.Getenv("HOME"), ".ssh"), "config");
    if !env.Exists(configPath) {
      return hosts, None;
    }
    var configBytes := env.ReadFile(configPath);
    if configBytes.Err? {
      return hosts, Some(configBytes.error);
    }
    var sshConfig := decode(configBytes.value);
    if sshConfig.Err? {
      return hosts, Some(sshConfig.error);
    }
    var blocks := sshConfig.value;
    var i := 0;
    while i < |blocks|
      invariant 0 <= i <= |blocks|
      invariant ListBlocks(blocks[..i], fill) == (hosts, None)
    {
      ListBlocksStep(blocks, fill, i);
      var host := HostFromSshConfig(blocks[i]);
      if host.Err? {
        ListBlocksStops(blocks, fill, i + 1);
        return hosts, Some(host.error);
      }
      if host.value.hostName != "" {
        var filled := fill(host.value);
        var tags := AppendTags(filled.tagList, blocks[i].eolComment);
        assert filled.tagList + [] == filled.tagList;
        hosts := hosts + [filled.(tagList := tags)];
      }
      i := i + 1;
    }
    assert blocks[..i] == blocks;
    return hosts, None;
  }

  /** Pattern-only blocks are never listed: every listed host comes from a
      block that converts to a Host with a HostName. */
  lemma {:induction false} ListedHostsHaveNames(blocks: seq<Block>, fill: Host -> Host)
    ensures forall h :: h in ListBlocks(blocks, fill).0 ==>
              exists b :: b in blocks && ConvertBlock(b).Ok? && ConvertBlock(b).value.hostName != "" &&
                          h == Listed(b, ConvertBlock(b).value, fill)
    decreases |blocks|
  {
    if |blocks| > 0 {
      var init := blocks[..|blocks| - 1];
      ListedHostsHaveNames(init, fill);
      forall h | h in ListBlocks(blocks, fill).0
        ensures exists b :: b in blocks && ConvertBlock(b).Ok? && ConvertBlock(b).value.hostName != "" &&
                            h == Listed(b, ConvertBlock(b).value, fill)
      {
        if h in ListBlocks(init, fill).0 {
          var b :| b in init && ConvertBlock(b).Ok? && ConvertBlock(b).value.hostName != "" &&
                   h == Listed(b, ConvertBlock(b).value, fill);
          assert b in blocks;
        } else {
          assert blocks[|blocks| - 1] in blocks;
        }
      }
    }
  }

  /** The last block adds an error exactly when none was there and it
      fails to convert. */
  lemma ListBlocksError(blocks: seq<Block>, fill: Host -> Host)
    requires |blocks| > 0
    ensures ListBlocks(blocks, fill).1.None? <==>
            ListBlocks(blocks[..|blocks| - 1], fill).1.None? && ConvertBlock(blocks[|blocks| - 1]).Ok?
  {
  }

  /** The listing ends without error exactly when every block converts. */
  lemma {:induction false} NoListingError(blocks: seq<Block>, fill: Host -> Host)
    ensures ListBlocks(blocks, fill).1.None? <==> forall j :: 0 <= j < |blocks| ==> ConvertBlock(blocks[j]).Ok?
    decreases |blocks|
  {
    if |blocks| > 0 {
      var init := blocks[..|blocks| - 1];
      NoListingError(init, fill);
      ListBlocksError(blocks, fill);
      if ListBlocks(init, fill).1.None? {
        assert forall j :: 0 <= j < |init| ==> ConvertBlock(blocks[j]).Ok? by {
          forall j | 0 <= j < |init| ensures ConvertBlock(blocks[j]).Ok? { assert blocks[j] == init[j]; }
        }
      } else {
        var j :| 0 <= j < |init| && ConvertBlock(init[j]).Err?;
        assert blocks[j] == init[j];
      }
    }
  }

  /** The first block that fails to convert stops the listing: the hosts
      before it are kept and its error is reported. */
  lemma {:induction false} FirstFailureStops(blocks: seq<Block>, fill: Host -> Host, i: nat)
    requires i < |blocks| && ConvertBlock(blocks[i]).Err?
    requires forall j :: 0 <= j < i ==> ConvertBlock(blocks[j]).Ok?
    ensures ListBlocks(blocks, fill) == (ListBlocks(blocks[..i], fill).0, Some(ConvertBlock(blocks[i]).error))
  {
    NoListingError(blocks[..i], fill);
    ListBlocksStep(blocks, fill, i);
    ListBlocksStops(blocks, fill, i + 1);
  }

  /** A missing configuration file is no error and yields no hosts. */
  lemma MissingConfigFile(env: Env, decode: string -> Result<seq<Block>>, fill: Host -> Host)
    requires !env.Exists(ConfigPath(env))
    ensures HostsFromConfigFile(env, decode, fill) == ([], None)
  {
  }

  // ---------------------------------------------------------------------
  // Host names for completion (ssh_config.go:108-122)

  function Wildcards(): set<char> { {'*', '!', '?'} }

  /** The patterns that hold none of `*`, `!`, `?`, in order. */
  function PlainPatterns(patterns: seq<string>): seq<string> {
    if |patterns| == 0 then []
    else
      var init := PlainPatterns(patterns[..|patterns| - 1]);
      var p := patterns[|patterns| - 1];
      if ContainsAny(p, Wildcards()) then init else init + [p]
  }

  function HostNames(hosts: seq<Host>): seq<string> {
    if |hosts| == 0 then [] else HostNames(hosts[..|hosts| - 1]) + PlainPatterns(hosts[|hosts| - 1].patterns)
  }

  method GetHostNames(env: Env, decode: string -> Result<seq<Block>>, fill: Host -> Host)
    returns (names: seq<string>)
    ensures names == var (hosts, err) := HostsFromConfigFile(env, decode, fill);
                     if err.Some? then [] else HostNames(hosts)
  {
    var hosts, err := GetHostsFromSshConfig(env, decode, fill);
    if err.Some? {
      return [];
    }
    names := [];
    var i := 0;
    while i < |hosts|
      invariant 0 <= i <= |hosts|
      invariant names == HostNames(hosts[..i])
    {
      assert hosts[..i + 1][..i] == hosts[..i];
      names := AppendPlain(names, hosts[i].patterns);
      i := i + 1;
    }
    assert hosts[..i] == hosts;
  }

  /** The inner loop over one host's patterns. */
  method AppendPlain(names: seq<string>, patterns: seq<string>) returns (r: seq<string>)
    ensures r == names + PlainPatterns(patterns)
  {
    r := names;
    var j := 0;
    while j < |patterns|
      invariant 0 <= j <= |patterns|
      invariant r == names + PlainPatterns(patterns[..j])
    {
      assert patterns[..j + 1][..j] == patterns[..j];
      if !ContainsAny(patterns[j], Wildcards()) {
        r := r + [patterns[j]];
      }
      j := j + 1;
    }
    assert patterns[..j] == patterns;
  }

  /** A name is offered exactly when it is a pattern of some listed host
      and holds none of `*`, `!`, `?`. */
  lemma {:induction false} PlainPatternsMeaning(patterns: seq<string>)
    ensures forall n :: n in PlainPatterns(patterns) <==> n in patterns && !ContainsAny(n, Wildcards())
    decreases |patterns|
  {
    if |patterns| > 0 {
      var init := patterns[..|patterns| - 1];
      PlainPatternsMeaning(init);
      assert patterns == init + [patterns[|patterns| - 1]];
    }
  }

  /** The plain patterns keep the order of the patterns. */
  lemma {:induction false} PlainPatternsAppend(a: seq<string>, b: seq<string>)
    ensures PlainPatterns(a + b) == PlainPatterns(a) + PlainPatterns(b)
    decreases |b|
  {
    if |b| == 0 {
      assert a + b == a;
    } else {
      assert (a + b)[..|a + b| - 1] == a + b[..|b| - 1];
      PlainPatternsAppend(a, b[..|b| - 1]);
    }
  }

  /** The names keep the order of the hosts. */
  lemma {:induction false} HostNamesAppend(a: seq<Host>, b: seq<Host>)
    ensures HostNames(a + b) == HostNames(a) + HostNames(b)
    decreases |b|
  {
    if |b| == 0 {
      assert a + b == a;
    } else {
      assert (a + b)[..|a + b| - 1] == a + b[..|b| - 1];
      HostNamesAppend(a, b[..|b| - 1]);
    }
  }

  lemma {:induction false} HostNamesMeaning(hosts: seq<Host>)
    ensures forall n :: n in HostNames(hosts) <==>
              exists i :: 0 <= i < |hosts| && n in hosts[i].patterns && !ContainsAny(n, Wildcards())
    decreases |hosts|
  {
    if |hosts| > 0 {
      var init := hosts[..|hosts| - 1];
      var last := hosts[|hosts| - 1];
      HostNamesMeaning(init);
      PlainPatternsMeaning(last.patterns);
      forall n ensures n in HostNames(hosts) <==>
                       exists i :: 0 <= i < |hosts| && n in hosts[i].patterns && !ContainsAny(n, Wildcards())
      {
        if exists i :: 0 <= i < |hosts| && n in hosts[i].patterns && !ContainsAny(n, Wildcards()) {
          var i :| 0 <= i < |hosts| && n in hosts[i].patterns && !ContainsAny(n, Wildcards());
          if i < |hosts| - 1 {
            assert init[i] == hosts[i];
          }
        }
        if n in HostNames(init) {
          var i :| 0 <= i < |init| && n in init[i].patterns && !ContainsAny(n, Wildcards());
          assert hosts[i] == init[i];
        }
      }
    }
  }
}
