/** utils/net.go: the address a dssh process reports as its own.

    The address of an ssh login comes from $SSH_CONNECTION ("client port
    server port"); otherwise the first IPv4 address of the interfaces is
    used. The interface enumeration (net.InterfaceAddrs) is a parameter:
    the addresses it lists, or None when it fails. */
module NetUtils {
  import opened Base
  import opened Strs

  // ---------------------------------------------------------------------
  // GetSSHConnectIP (net.go:9-16)

  /** The server address of $SSH_CONNECTION: its third space-separated
      field, when there are exactly four and the third is not empty. */
  function GetSSHConnectIP(env: Env): (ip: string)
    ensures var fields := Split(env.Getenv("SSH_CONNECTION"), ' ');
            (ip != "" <==> |fields| == 4 && fields[2] != "") &&
            (ip != "" ==> ip == fields[2])
  {
    var fields := Split(env.Getenv("SSH_CONNECTION"), ' ');
    if |fields| == 4 && |fields[2]| > 0 then fields[2] else ""
  }

  /** The address is a single field: it holds no space. */
  lemma ConnectIPHasNoSpace(env: Env)
    ensures ' ' !in GetSSHConnectIP(env)
  {
    SplitPieces(env.Getenv("SSH_CONNECTION"), ' ');
  }

  /** Four fields whose third is an address give that address back. */
  lemma ConnectIPOfFields(env: Env, client: string, clientPort: string, server: string, serverPort: string)
    requires ' ' !in client && ' ' !in clientPort && ' ' !in server && ' ' !in serverPort && server != ""
    requires env.Getenv("SSH_CONNECTION") == client + " " + clientPort + " " + server + " " + serverPort
    ensures GetSSHConnectIP(env) == server
  {
    var t3 := server + " " + serverPort;
    var t2 := clientPort + " " + t3;
    var t1 := client + " " + t2;
    assert env.Getenv("SSH_CONNECTION") == t1;
    SplitNoSep(serverPort, ' ');
    SplitAround(server, serverPort, ' ');
    assert Split(t3, ' ') == [server, serverPort];
    SplitAround(clientPort, t3, ' ');
    assert Split(t2, ' ') == [clientPort, server, serverPort];
    SplitAround(client, t2, ' ');
    assert Split(t1, ' ') == [client, clientPort, server, serverPort];
  }

  // ---------------------------------------------------------------------
  // GetLocalIPs (net.go:18-32)

  newtype byte = x: int | 0 <= x < 256

  /** An interface address: a *net.IPNet with its IP bytes, or any other
      kind of net.Addr. */
  datatype Addr = IPNet(ip: seq<byte>) | OtherAddr

  /** IP.To4: a 4-byte IP, or the last four bytes of an IPv4-mapped
      16-byte IP; None for anything else. */
  function To4(ip: seq<byte>): (v4: Option<seq<byte>>)
    ensures v4.Some? ==> |ip| >= 4 && |v4.value| == 4 && v4.value == ip[|ip| - 4..]
    ensures v4.Some? <==> |ip| == 4 || (|ip| == 16 && (forall i :: 0 <= i < 10 ==> ip[i] == 0) &&
                                        ip[10] == 0xff && ip[11] == 0xff)
  {
    if |ip| == 4 then Some(ip)
    else if |ip| == 16 && (forall i :: 0 <= i < 10 ==> ip[i] == 0) && ip[10] == 0xff && ip[11] == 0xff then
      Some(ip[12..])
    else None
  }

  /** ::1 */
  const IPv6Loopback: seq<byte> := [0, 0, 0, 0, 0, 0, 0, 0, 0, 0, 0, 0, 0, 0, 0, 1]

  /** IP.IsLoopback: 127.x.x.x, or ::1. */
  predicate IsLoopback(ip: seq<byte>) {
    match To4(ip)
    case Some(v4) => v4[0] == 127
    case None => ip == IPv6Loopback
  }

  /** IP.String of an IPv4 address: dotted decimal. */
  function Dotted(v4: seq<byte>): (s: string)
    requires |v4| == 4
    ensures s != ""
  {
    NatToString(v4[0] as nat) + "." + NatToString(v4[1] as nat) + "." +
    NatToString(v4[2] as nat) + "." + NatToString(v4[3] as nat)
  }

  /** The addresses GetLocalIPs keeps: IPv4, not loopback, and not
      169.254.1.1. */
  predicate Kept(a: Addr) {
    a.IPNet? && !IsLoopback(a.ip) && To4(a.ip).Some? && Dotted(To4(a.ip).value) != "169.254.1.1"
  }

  /** How a kept address is listed. */
  function Shown(a: Addr): string
    requires Kept(a)
  {
    Dotted(To4(a.ip).value)
  }

  /** The listing of `addrs`, in their order. */
  function LocalIPs(addrs: seq<Addr>): seq<string> {
    if |addrs| == 0 then []
    else
      var a := addrs[|addrs| - 1];
      LocalIPs(addrs[..|addrs| - 1]) + (if Kept(a) then [Shown(a)] else [])
  }

  /** GetLocalIPs with the enumeration's outcome: nothing when it fails. */
  function LocalIPsOf(enumerated: Option<seq<Addr>>): seq<string> {
    match enumerated
    case None => []
    case Some(addrs) => LocalIPs(addrs)
  }

  method GetLocalIPs(enumerated: Option<seq<Addr>>) returns (ips: seq<string>)
    ensures ips == LocalIPsOf(enumerated)
  {
    ips := [];
    if enumerated.None? {
      return ips;
    }
    var addrs := enumerated.value;
    var i := 0;
    while i < |addrs|
      invariant 0 <= i <= |addrs|
      invariant ips == LocalIPs(addrs[..i])
    {
      assert addrs[..i + 1][..i] == addrs[..i];
      var address := addrs[i];
      if address.IPNet? && !IsLoopback(address.ip) {
        var v4 := To4(address.ip);
        if v4.Some? && Dotted(v4.value) != "169.254.1.1" {
          ips := ips + [Dotted(v4.value)];
        }
      }
      i := i + 1;
    }
    assert addrs[..i] == addrs;
  }

  /** The listing keeps the order of the addresses. */
  lemma {:induction false} LocalIPsAppend(a: seq<Addr>, b: seq<Addr>)
    ensures LocalIPs(a + b) == LocalIPs(a) + LocalIPs(b)
    decreases |b|
  {
    if |b| == 0 {
      assert a + b == a;
    } else {
      assert (a + b)[..|a + b| - 1] == a + b[..|b| - 1];
      LocalIPsAppend(a, b[..|b| - 1]);
    }
  }

  /** Every kept address is listed, and only those: no loopback, no
      169.254.1.1, nothing that is not IPv4, and never an empty string. */
  lemma {:induction false} LocalIPsMeaning(addrs: seq<Addr>)
    ensures |LocalIPs(addrs)| <= |addrs|
    ensures forall i :: 0 <= i < |addrs| && Kept(addrs[i]) ==> Shown(addrs[i]) in LocalIPs(addrs)
    ensures forall s :: s in LocalIPs(addrs) ==>
              exists i :: 0 <= i < |addrs| && Kept(addrs[i]) && s == Shown(addrs[i])
    ensures forall s :: s in LocalIPs(addrs) ==> s != "" && s != "169.254.1.1"
    decreases |addrs|
  {
    if |addrs| > 0 {
      var p := addrs[..|addrs| - 1];
      LocalIPsMeaning(p);
      assert forall i :: 0 <= i < |p| ==> p[i] == addrs[i];
    }
  }

  // ---------------------------------------------------------------------
  // GetLocalIP (net.go:34-45)

  /** The ssh login address, else the first listed address, else
      0.0.0.0; never empty. */
  function GetLocalIP(env: Env, enumerated: Option<seq<Addr>>): (ip: string)
    ensures ip != ""
  {
    var ip := GetSSHConnectIP(env);
    if ip != "" then ip
    else
      var ips := LocalIPsOf(enumerated);
      if |ips| > 0 then (LocalIPsNonEmpty(enumerated); assert ips[0] in ips; ips[0]) else "0.0.0.0"
  }

  lemma LocalIPsNonEmpty(enumerated: Option<seq<Addr>>)
    ensures forall s :: s in LocalIPsOf(enumerated) ==> s != ""
  {
    if enumerated.Some? {
      LocalIPsMeaning(enumerated.value);
    }
  }

  /** Which address GetLocalIP picks. */
  lemma LocalIPChoice(env: Env, enumerated: Option<seq<Addr>>)
    ensures var ip := GetLocalIP(env, enumerated);
            var ips := LocalIPsOf(enumerated);
            (GetSSHConnectIP(env) != "" ==> ip == GetSSHConnectIP(env)) &&
            (GetSSHConnectIP(env) == "" && |ips| > 0 ==> ip == ips[0] && ip in ips) &&
            (GetSSHConnectIP(env) == "" && |ips| == 0 ==> ip == "0.0.0.0") &&
            (enumerated.None? && GetSSHConnectIP(env) == "" ==> ip == "0.0.0.0")
  {
  }
}
