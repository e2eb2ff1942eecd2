/** Where the files of a multi-node testnet lie, and which numbers and addresses its nodes get. */
module TestnetLayout {
  import opened Wrappers
  import opened Paths
  import opened Text

  /** The arguments that decide the layout; `out` is the absolute output directory. */
  datatype Args = Args(
    chainID: string,
    out: Path,
    prefix: string,
    ip: string,
    ids: seq<string>,
    ports: map<int, string>)

  function NodeName(a: Args, i: int): string
  {
    a.prefix + Itoa(i)
  }

  function NodeDir(a: Args, i: int): Path
  {
    a.out + [NodeName(a, i)]
  }

  function GentxDir(a: Args, i: int): Path
  {
    NodeDir(a, i) + ["config", "gentx"]
  }

  function GentxName(id: string): string
  {
    "gentx-" + id + ".json"
  }

  /** The place of node j's transaction in node i's directory. */
  function GentxPath(a: Args, i: int, j: int): Path
    requires 0 <= j < |a.ids|
  {
    GentxDir(a, i) + [GentxName(a.ids[j])]
  }

  function GenesisPath(a: Args, i: int): Path
  {
    NodeDir(a, i) + ["config", "genesis.json"]
  }

  function ConfigPath(a: Args, i: int): Path
  {
    NodeDir(a, i) + ["config", "config.toml"]
  }

  function AppConfigPath(a: Args, i: int): Path
  {
    NodeDir(a, i) + ["config", "app.toml"]
  }

  /** Node IDs differ, and names contain no separator. */
  ghost predicate Usable(a: Args)
  {
    && Clean(a.out)
    && '/' !in a.prefix
    && (forall i :: 0 <= i < |a.ids| ==> '/' !in a.ids[i])
    && (forall i, j :: 0 <= i < j < |a.ids| ==> a.ids[i] != a.ids[j])
  }

  /** Directory names are injective in the node number. */
  lemma NodeNamesDiffer(a: Args, i: int, j: int)
    requires NodeName(a, i) == NodeName(a, j)
    ensures i == j
  {
    assert NodeName(a, i)[|a.prefix|..] == Itoa(i);
    assert NodeName(a, j)[|a.prefix|..] == Itoa(j);
    ItoaRoundTrip(i);
    ItoaRoundTrip(j);
  }

  lemma NodeNameClean(a: Args, i: int)
    requires Usable(a)
    ensures CleanComponent(NodeName(a, i))
  {
    ItoaRoundTrip(i);
    var s, d := NodeName(a, i), Itoa(i);
    assert s[|s| - 1] == d[|d| - 1];
    forall k | 0 <= k < |s| ensures s[k] != '/' {
      if k < |a.prefix| { assert s[k] == a.prefix[k]; } else { assert s[k] == d[k - |a.prefix|]; }
    }
  }

  /** Every component below the output directory belongs to exactly one node. */
  lemma NodeOf(a: Args, i: int, rest: seq<string>)
    ensures |NodeDir(a, i) + rest| == |a.out| + 1 + |rest|
    ensures (NodeDir(a, i) + rest)[|a.out|] == NodeName(a, i)
    ensures (NodeDir(a, i) + rest)[|a.out| + 1..] == rest
  {
  }

  /** Two delivered files coincide only for the same node and the same transaction. */
  lemma GentxPathsDiffer(a: Args, i: int, j: int, k: int, l: int)
    requires Usable(a) && 0 <= j < |a.ids| && 0 <= l < |a.ids|
    requires GentxPath(a, i, j) == GentxPath(a, k, l)
    ensures i == k && j == l
  {
    var p, q := GentxPath(a, i, j), GentxPath(a, k, l);
    var x, y := ["config", "gentx", GentxName(a.ids[j])], ["config", "gentx", GentxName(a.ids[l])];
    assert p == NodeDir(a, i) + x && q == NodeDir(a, k) + y;
    NodeOf(a, i, x);
    NodeOf(a, k, y);
    NodeNamesDiffer(a, i, k);
    assert x[2] == y[2];
    var g, h := GentxName(a.ids[j]), GentxName(a.ids[l]);
    assert g[6..|g| - 5] == a.ids[j] && h[6..|h| - 5] == a.ids[l];
  }

  lemma GentxNamesDiffer(a: Args, j: int, l: int)
    requires Usable(a) && 0 <= j < |a.ids| && 0 <= l < |a.ids| && GentxName(a.ids[j]) == GentxName(a.ids[l])
    ensures j == l
  {
    var g, h := GentxName(a.ids[j]), GentxName(a.ids[l]);
    assert g[6..|g| - 5] == a.ids[j] && h[6..|h| - 5] == a.ids[l];
  }

  lemma GentxNameClean(a: Args, j: int)
    requires Usable(a) && 0 <= j < |a.ids|
    ensures CleanComponent(GentxName(a.ids[j])) && !HasPrefix(GentxName(a.ids[j]), "..")
  {
    var g := GentxName(a.ids[j]);
    assert g[0] == 'g';
  }

  /** The skip test of the delivery loop holds exactly for a node's own transaction. */
  lemma SkipsExactlyOwn(a: Args, cwd: Path, i: int, j: int)
    requires Usable(a) && Clean(cwd) && 0 <= j < |a.ids|
    ensures IsSubDir(cwd, RawPath(true, GentxPath(a, j, j)), RawPath(true, GentxDir(a, i))) <==> i == j
  {
    var src, dir := GentxPath(a, j, j), GentxDir(a, i);
    NodeNameClean(a, i);
    NodeNameClean(a, j);
    GentxNameClean(a, j);
    IsSubDirOfClean(cwd, src, dir);
    assert src == NodeDir(a, j) + ["config", "gentx", GentxName(a.ids[j])];
    NodeOf(a, j, ["config", "gentx", GentxName(a.ids[j])]);
    NodeOf(a, i, ["config", "gentx"]);
    if i == j {
      assert src == dir + [GentxName(a.ids[j])];
    } else {
      if NodeName(a, i) == NodeName(a, j) { NodeNamesDiffer(a, i, j); }
      assert dir[|a.out|] != src[|a.out|];
    }
  }

  // ---- Peers ----

  const P2P_BASE := 26656
  const RPC_BASE := 26657
  const PROXY_BASE := 26658
  const GRPC_BASE := 9090
  const API_BASE := 1317
  const PROMETHEUS_BASE := 26660

  function P2PPort(i: int): int { P2P_BASE - 3 * i }
  function RPCPort(i: int): int { RPC_BASE - 3 * i }
  function ProxyPort(i: int): int { PROXY_BASE - 3 * i }
  function GRPCPort(i: int): int { GRPC_BASE - 2 * i }
  function APIPort(i: int): int { API_BASE - i }
  function PrometheusPort(i: int): int { PROMETHEUS_BASE + i }

  function Memo(a: Args, i: int): string
    requires 0 <= i < |a.ids|
  {
    a.ids[i] + "@" + a.ip + ":" + Itoa(P2PPort(i))
  }

  ghost function Memos(a: Args, n: nat): seq<string>
    requires n <= |a.ids|
  {
    seq(n, i requires 0 <= i < n => Memo(a, i))
  }

  datatype Peer = Peer(id: string, host: string, port: int)

  function IndexOf(s: string, c: char): (i: nat)
    ensures i <= |s|
  {
    if s == "" || s[0] == c then 0 else 1 + IndexOf(s[1..], c)
  }

  function LastIndexOf(s: string, c: char): (i: int)
    ensures -1 <= i < |s|
    decreases |s|
  {
    if s == "" then -1
    else if s[|s| - 1] == c then |s| - 1
    else LastIndexOf(s[..|s| - 1], c)
  }

  /** Reads id@host:port, the host ending at the last colon. */
  function ParsePeer(s: string): Option<Peer>
  {
    var at := IndexOf(s, '@');
    if at == |s| then None
    else
      var address := s[at + 1..];
      var colon := LastIndexOf(address, ':');
      if colon < 0 then None
      else
        match Atoi(address[colon + 1..])
        case None => None
        case Some(port) => Some(Peer(s[..at], address[..colon], port))
  }

  lemma {:induction false} IndexOfAfter(head: string, c: char, tail: string)
    requires c !in head
    ensures IndexOf(head + [c] + tail, c) == |head|
  {
    if head != "" {
      IndexOfAfter(head[1..], c, tail);
      assert (head + [c] + tail)[1..] == head[1..] + [c] + tail;
    }
  }

  lemma {:induction false} LastIndexOfBefore(head: string, c: char, tail: string)
    requires c !in tail
    ensures LastIndexOf(head + [c] + tail, c) == |head|
    decreases |tail|
  {
    var s := head + [c] + tail;
    if tail != "" {
      LastIndexOfBefore(head, c, tail[..|tail| - 1]);
      assert s[..|s| - 1] == head + [c] + tail[..|tail| - 1];
    }
  }

  lemma NoSeparatorInPort(port: int)
    ensures ',' !in Itoa(port) && ':' !in Itoa(port)
    ensures Atoi(Itoa(port)) == Some(port)
  {
    ItoaRoundTrip(port);
  }

  lemma ParseMemo(id: string, host: string, port: string)
    requires '@' !in id && ':' !in port
    ensures ParsePeer(id + ['@'] + (host + [':'] + port)) ==
            match Atoi(port)
            case None => None
            case Some(n) => Some(Peer(id, host, n))
  {
    var address := host + [':'] + port;
    var s := id + ['@'] + address;
    IndexOfAfter(id, '@', address);
    LastIndexOfBefore(host, ':', port);
    assert s[..|id|] == id && s[|id| + 1..] == address;
    assert address[..|host|] == host && address[|host| + 1..] == port;
  }

  /** A memo reads back as the node's ID, the given host and the port the node will listen on. */
  lemma MemoRoundTrip(a: Args, i: int)
    requires 0 <= i < |a.ids| && '@' !in a.ids[i]
    ensures ParsePeer(Memo(a, i)) == Some(Peer(a.ids[i], a.ip, P2PPort(i)))
  {
    var port := Itoa(P2PPort(i));
    NoSeparatorInPort(P2PPort(i));
    ParseMemo(a.ids[i], a.ip, port);
    MemoParts(a.ids[i], a.ip, port);
  }

  lemma MemoParts(id: string, host: string, port: string)
    ensures id + "@" + host + ":" + port == id + ['@'] + (host + [':'] + port)
  {
    var head := id + "@";
    assert head + host + ":" + port == head + (host + [':'] + port);
  }

  /** Splitting the joined memos at commas gives one entry per node, each of which reads back. */
  lemma PeersRoundTrip(a: Args, n: nat)
    requires 0 < n <= |a.ids| && ',' !in a.ip
    requires forall i :: 0 <= i < n ==> ',' !in a.ids[i] && '@' !in a.ids[i]
    ensures var entries := Split(Join(Memos(a, n), ','), ',');
      && |entries| == n
      && forall i :: 0 <= i < n ==> ParsePeer(entries[i]) == Some(Peer(a.ids[i], a.ip, P2PPort(i)))
  {
    forall i | 0 <= i < n ensures ',' !in Memos(a, n)[i] {
      NoSeparatorInPort(P2PPort(i));
    }
    SplitJoin(Memos(a, n), ',');
    forall i | 0 <= i < n ensures ParsePeer(Memos(a, n)[i]) == Some(Peer(a.ids[i], a.ip, P2PPort(i))) {
      MemoRoundTrip(a, i);
    }
  }

  // ---- Ports ----

  /** The six ports of node i. */
  function PortsOf(i: int): seq<int>
  {
    [P2PPort(i), RPCPort(i), ProxyPort(i), GRPCPort(i), APIPort(i), PrometheusPort(i)]
  }

  /** No two of the first three ports of any nodes ever clash, however many nodes there are. */
  lemma ConsensusPortsDiffer(i: nat, j: nat, k: nat, l: nat)
    requires k < 3 && l < 3 && PortsOf(i)[k] == PortsOf(j)[l]
    ensures i == j && k == l
  {
  }

  ghost predicate AllPortsUsable(n: nat)
  {
    && (forall i, k :: 0 <= i < n && 0 <= k < 6 ==> 1 <= PortsOf(i)[k] <= 65535)
    && (forall i, j, k, l :: 0 <= i < n && 0 <= j < n && 0 <= k < 6 && 0 <= l < 6 && PortsOf(i)[k] == PortsOf(j)[l] ==>
      i == j && k == l)
  }

  /** All ports of n nodes are valid and pairwise different exactly up to 1317 nodes, where the API port runs out. */
  lemma PortsUsableExactly(n: nat)
    ensures AllPortsUsable(n) <==> n <= 1317
  {
    if n > 1317 {
      assert PortsOf(1317)[4] == 0;
    }
  }

  /** The port list used when none is given: one entry for each validator. */
  method DefaultPorts(n: int) returns (ports: map<int, string>)
    ensures forall i :: i in ports <==> 0 <= i < n
    ensures forall i :: 0 <= i < n ==> ports[i] == Itoa(26657 - 3 * i)
  {
    ports := map[];
    var top, i := 0, 0;
    while i < n
      invariant i == top && 0 <= i && (i <= n || i == 0)
      invariant forall j :: j in ports <==> 0 <= j < i
      invariant forall j :: 0 <= j < i ==> ports[j] == Itoa(26657 - 3 * j)
    {
      ports := ports[top := Itoa(26657 - 3 * i)];
      top := top + 1;
      i := i + 1;
    }
  }
}
