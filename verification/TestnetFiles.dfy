/**
 The files of a multi-node testnet: written node by node, distributed all to all, and collected
 into one genesis for every node.
 */
module TestnetFiles {
  import opened Wrappers
  import opened Paths
  import opened Text
  import opened TestnetLayout
  import GenesisSupply

  /** The node configuration that the loops update in place and write out for each node. */
  datatype NodeConfig = NodeConfig(
    rootDir: Path, moniker: string, rpcListen: string, p2pListen: string, persistentPeers: string,
    allowDuplicateIP: bool, proxyApp: string, prometheusListen: string, prometheus: bool)

  datatype Data =
    | Empty
    | Gentx(tx: string)
    | AppConfig(grpc: string, api: string)
    | Config(config: NodeConfig)
    | InitialGenesis(chainID: string, supply: seq<GenesisSupply.Coin>, balances: seq<GenesisSupply.Balance>)
    | FinalGenesis(finalChainID: string, appState: string, time: int)

  type Files = map<Path, Data>

  /** Genesis app state from a genesis document and the files of a gentx directory by name; None when it is rejected. */
  type AppStateGen = (Data, map<string, Data>) -> Option<string>

  /** The files directly inside a directory, by name. */
  function FilesIn(files: Files, dir: Path): map<string, Data>
  {
    var names := set p | p in files && |p| == |dir| + 1 && dir <= p :: p[|dir|];
    map name | name in names && dir + [name] in files :: files[dir + [name]]
  }

  lemma FilesInAt(files: Files, dir: Path, name: string)
    ensures name in FilesIn(files, dir) <==> dir + [name] in files
    ensures name in FilesIn(files, dir) ==> FilesIn(files, dir)[name] == files[dir + [name]]
  {
    var p := dir + [name];
    assert |p| == |dir| + 1 && dir <= p && p[|dir|] == name;
  }

  /** Directories with the same files list the same. */
  lemma FilesInSame(f: Files, g: Files, dir: Path, other: Path)
    requires forall name ::
      (dir + [name] in f <==> other + [name] in g) && (dir + [name] in f ==> f[dir + [name]] == g[other + [name]])
    ensures FilesIn(f, dir) == FilesIn(g, other)
  {
    forall name ensures (name in FilesIn(f, dir) <==> name in FilesIn(g, other)) &&
                        (name in FilesIn(f, dir) ==> FilesIn(f, dir)[name] == FilesIn(g, other)[name])
    {
      FilesInAt(f, dir, name);
      FilesInAt(g, other, name);
    }
  }

  // ---- Writing node by node ----

  function NodeAppConfig(a: Args, i: int): Data
  {
    AppConfig(a.ip + ":" + Itoa(GRPCPort(i)), "tcp://localhost:" + Itoa(APIPort(i)))
  }

  /** The files after the first i nodes were written. */
  function NodesWritten(files: Files, a: Args, txs: seq<string>, i: nat): Files
    requires |txs| == |a.ids| && i <= |txs|
  {
    if i == 0 then files
    else
      var before := NodesWritten(files, a, txs, i - 1);
      before[GentxPath(a, i - 1, i - 1) := Gentx(txs[i - 1])][AppConfigPath(a, i - 1) := NodeAppConfig(a, i - 1)]
  }

  /** The initial genesis saved for the first i nodes. */
  function GenesisSaved(files: Files, a: Args, doc: Data, i: nat): Files
  {
    if i == 0 then files else GenesisSaved(files, a, doc, i - 1)[GenesisPath(a, i - 1) := doc]
  }

  // ---- Delivery ----

  /** Node k has received transaction l when i rows and the first j of row i are done; its own it has from the start. */
  predicate Received(k: int, l: int, i: int, j: int)
  {
    k == l || k < i || (k == i && l < j)
  }

  /** The transactions of all nodes: received ones are in place with their contents, and nothing else has changed. */
  ghost predicate DeliveredTo(files: Files, start: Files, a: Args, txs: seq<string>, i: int, j: int)
    requires |txs| == |a.ids|
  {
    && (forall k, l {:trigger GentxPath(a, k, l)} :: 0 <= k < |txs| && 0 <= l < |txs| && Received(k, l, i, j) ==>
          GentxPath(a, k, l) in files && files[GentxPath(a, k, l)] == Gentx(txs[l]))
    && (forall p {:trigger p in files} {:trigger p in start} :: !DeliveryTarget(a, p) ==>
          (p in files <==> p in start) && (p in files ==> files[p] == start[p]))
    && (forall k, l {:trigger GentxPath(a, k, l)} :: 0 <= k < |txs| && 0 <= l < |txs| && !Received(k, l, i, j) ==>
          var p := GentxPath(a, k, l); (p in files <==> p in start) && (p in files ==> files[p] == start[p]))
  }

  ghost predicate DeliveryTarget(a: Args, p: Path)
  {
    exists k, l {:trigger GentxPath(a, k, l)} :: 0 <= k < |a.ids| && 0 <= l < |a.ids| && p == GentxPath(a, k, l)
  }

  /** Node i holds its own transaction. */
  ghost predicate OwnGentx(files: Files, a: Args, txs: seq<string>, i: int)
    requires |txs| == |a.ids| && 0 <= i < |txs|
  {
    GentxPath(a, i, i) in files && files[GentxPath(a, i, i)] == Gentx(txs[i])
  }

  ghost predicate OwnGentxs(files: Files, a: Args, txs: seq<string>)
    requires |txs| == |a.ids|
  {
    forall i {:trigger OwnGentx(files, a, txs, i)} :: 0 <= i < |txs| ==> OwnGentx(files, a, txs, i)
  }

  lemma DeliveryOpens(files: Files, a: Args, txs: seq<string>)
    requires |txs| == |a.ids| && OwnGentxs(files, a, txs)
    ensures DeliveredTo(files, files, a, txs, 0, 0)
  {
    forall k, l {:trigger GentxPath(a, k, l)} | 0 <= k < |txs| && 0 <= l < |txs| && Received(k, l, 0, 0)
      ensures GentxPath(a, k, l) in files && files[GentxPath(a, k, l)] == Gentx(txs[l])
    {
      assert OwnGentx(files, a, txs, l);
    }
  }

  /** The transaction files as they are collected by the per-node loop. */
  ghost function OwnPaths(a: Args, n: nat): seq<Path>
    requires n <= |a.ids|
  {
    if n == 0 then [] else OwnPaths(a, n - 1) + [GentxPath(a, n - 1, n - 1)]
  }

  lemma {:induction false} OwnPathsAt(a: Args, n: nat, i: nat)
    requires i < n <= |a.ids|
    ensures |OwnPaths(a, n)| == n && OwnPaths(a, n)[i] == GentxPath(a, i, i)
    decreases n
  {
    if i < n - 1 { OwnPathsAt(a, n - 1, i); } else if n > 1 { OwnPathsAt(a, n - 1, 0); }
  }

  ghost predicate DirsReady(dirs: set<Path>, a: Args, n: int)
  {
    forall i {:trigger GentxDir(a, i)} :: 0 <= i < n ==> GentxDir(a, i) in dirs
  }

  lemma DirsGrow(dirs: set<Path>, more: set<Path>, a: Args, n: nat)
    requires DirsReady(dirs, a, n) && dirs <= more && GentxDir(a, n) in more
    ensures DirsReady(more, a, n + 1)
  {
  }

  /** The genesis balances of the accounts. */
  function AccountBalances(addresses: seq<string>): seq<GenesisSupply.Balance>
    decreases |addresses|
  {
    if addresses == [] then []
    else
      AccountBalances(addresses[..|addresses| - 1]) +
      [GenesisSupply.Balance(addresses[|addresses| - 1], GenesisSupply.AccountCoins())]
  }

  lemma BalancesNext(addresses: seq<string>, i: nat)
    requires i < |addresses|
    ensures AccountBalances(addresses[..i + 1]) ==
            AccountBalances(addresses[..i]) + [GenesisSupply.Balance(addresses[i], GenesisSupply.AccountCoins())]
  {
    assert addresses[..i + 1][..i] == addresses[..i];
  }

  /** The lists that the per-node loop grows. */
  ghost predicate ListsKept(a: Args, addresses: seq<string>, i: nat, gentxFiles: seq<Path>,
      balances: seq<GenesisSupply.Balance>)
  {
    i <= |a.ids| && i <= |addresses| && gentxFiles == OwnPaths(a, i) && balances == AccountBalances(addresses[..i])
  }

  lemma ListsNext(a: Args, addresses: seq<string>, i: nat, gentxFiles: seq<Path>, balances: seq<GenesisSupply.Balance>)
    requires ListsKept(a, addresses, i, gentxFiles, balances) && i < |a.ids| && i < |addresses|
    ensures ListsKept(a, addresses, i + 1, gentxFiles + [GentxPath(a, i, i)],
                      balances + [GenesisSupply.Balance(addresses[i], GenesisSupply.AccountCoins())])
  {
    BalancesNext(addresses, i);
  }

  lemma {:induction false} BalancesAreCanonical(addresses: seq<string>)
    ensures |AccountBalances(addresses)| == |addresses|
    ensures forall i :: 0 <= i < |addresses| ==> AccountBalances(addresses)[i].coins == GenesisSupply.AccountCoins()
    ensures forall i :: 0 <= i < |addresses| ==> GenesisSupply.Canonical(AccountBalances(addresses)[i].coins)
    decreases |addresses|
  {
    GenesisSupply.AccountCoinsSorted();
    if addresses != [] { BalancesAreCanonical(addresses[..|addresses| - 1]); }
  }

  /** Delivering to node i its own transaction, or copying another node's, completes column j of row i. */
  lemma DeliveryStep(before: Files, after: Files, start: Files, a: Args, txs: seq<string>, i: int, j: int)
    requires Usable(a) && |txs| == |a.ids| && 0 <= i < |txs| && 0 <= j < |txs|
    requires DeliveredTo(before, start, a, txs, i, j)
    requires after == if i == j then before else before[GentxPath(a, i, j) := Gentx(txs[j])]
    ensures DeliveredTo(after, start, a, txs, i, j + 1)
  {
    forall k, l | 0 <= k < |txs| && 0 <= l < |txs| && GentxPath(a, k, l) == GentxPath(a, i, j)
      ensures k == i && l == j
    {
      GentxPathsDiffer(a, k, l, i, j);
    }
    assert DeliveryTarget(a, GentxPath(a, i, j));
  }

  lemma RowDone(files: Files, start: Files, a: Args, txs: seq<string>, i: int)
    requires |txs| == |a.ids| && DeliveredTo(files, start, a, txs, i, |txs|)
    ensures DeliveredTo(files, start, a, txs, i + 1, 0)
  {
    forall k, l | 0 <= k < |txs| && 0 <= l < |txs| ensures Received(k, l, i, |txs|) <==> Received(k, l, i + 1, 0) {}
  }

  // ---- Collection ----

  /** Every field of the shared configuration is set anew for each node. */
  function NodeConfigOf(a: Args, peers: string, i: int): NodeConfig
  {
    NodeConfig(NodeDir(a, i), NodeName(a, i), "tcp://127.0.0.1:" + (if i in a.ports then a.ports[i] else ""),
               "tcp://0.0.0.0:" + Itoa(P2PPort(i)), peers, true, "tcp://127.0.0.1:" + Itoa(ProxyPort(i)),
               ":" + Itoa(PrometheusPort(i)), true)
  }

  /** The app state that node i generates from its own files. */
  function StateOf(files: Files, a: Args, gen: AppStateGen, i: int): Option<string>
  {
    if GenesisPath(a, i) !in files then None else gen(files[GenesisPath(a, i)], FilesIn(files, GentxDir(a, i)))
  }

  /** One node collected: its configuration and its final genesis. */
  function CollectOne(files: Files, a: Args, peers: string, appState: string, time: int, i: nat): Files
  {
    files[ConfigPath(a, i) := Config(NodeConfigOf(a, peers, i))]
         [GenesisPath(a, i) := FinalGenesis(a.chainID, appState, time)]
  }

  /** The files after the first i nodes were collected with one app state for all. */
  function Collected(files: Files, a: Args, peers: string, appState: string, time: int, i: nat): Files
  {
    if i == 0 then files
    else CollectOne(Collected(files, a, peers, appState, time, i - 1), a, peers, appState, time, i - 1)
  }

  /** Every node's own files generate an app state. */
  ghost predicate AllGenerate(files: Files, a: Args, gen: AppStateGen)
  {
    forall i {:trigger StateOf(files, a, gen, i)} :: 0 <= i < |a.ids| ==> StateOf(files, a, gen, i).Some?
  }

  /** `states` are the app states that the first nodes generate. */
  ghost predicate StatesAre(states: seq<string>, files: Files, a: Args, gen: AppStateGen)
  {
    forall i {:trigger states[i]} :: 0 <= i < |states| ==> Some(states[i]) == StateOf(files, a, gen, i)
  }

  lemma AllGenerated(states: seq<string>, files: Files, a: Args, gen: AppStateGen)
    requires |states| == |a.ids| && StatesAre(states, files, a, gen)
    ensures AllGenerate(files, a, gen)
  {
    forall i {:trigger StateOf(files, a, gen, i)} | 0 <= i < |a.ids| ensures StateOf(files, a, gen, i).Some? {
      assert Some(states[i]) == StateOf(files, a, gen, i);
    }
  }

  lemma PathLengths(a: Args, i: int)
    ensures |ConfigPath(a, i)| == |GenesisPath(a, i)| == |AppConfigPath(a, i)| == |a.out| + 3
    ensures |GentxDir(a, i)| == |a.out| + 3
  {
  }

  lemma CollectOneElsewhere(files: Files, a: Args, peers: string, appState: string, time: int, i: nat, p: Path)
    requires p != ConfigPath(a, i) && p != GenesisPath(a, i)
    ensures var c := CollectOne(files, a, peers, appState, time, i);
      (p in c <==> p in files) && (p in files ==> c[p] == files[p])
  {
  }

  lemma CollectOneAt(files: Files, a: Args, peers: string, appState: string, time: int, i: nat)
    ensures var c := CollectOne(files, a, peers, appState, time, i);
      && GenesisPath(a, i) in c && c[GenesisPath(a, i)] == FinalGenesis(a.chainID, appState, time)
      && ConfigPath(a, i) in c && c[ConfigPath(a, i)] == Config(NodeConfigOf(a, peers, i))
  {
    ConfigPathsDiffer(a, i, i);
  }

  lemma ConfigPathsDiffer(a: Args, i: int, k: int)
    ensures ConfigPath(a, i) != GenesisPath(a, k)
    ensures GenesisPath(a, i) == GenesisPath(a, k) ==> i == k
    ensures ConfigPath(a, i) == ConfigPath(a, k) ==> i == k
    ensures |ConfigPath(a, i)| == |GenesisPath(a, i)| == |a.out| + 3
  {
    NodeOf(a, i, ["config", "config.toml"]);
    NodeOf(a, i, ["config", "genesis.json"]);
    NodeOf(a, k, ["config", "config.toml"]);
    NodeOf(a, k, ["config", "genesis.json"]);
    assert ["config", "config.toml"][1] != ["config", "genesis.json"][1];
    if GenesisPath(a, i) == GenesisPath(a, k) || ConfigPath(a, i) == ConfigPath(a, k) { NodeNamesDiffer(a, i, k); }
  }

  lemma OtherNodesDiffer(a: Args, i: int, k: int)
    requires i != k
    ensures GenesisPath(a, k) != ConfigPath(a, i) && GenesisPath(a, k) != GenesisPath(a, i)
    ensures ConfigPath(a, k) != ConfigPath(a, i) && ConfigPath(a, k) != GenesisPath(a, i)
  {
    ConfigPathsDiffer(a, i, k);
    ConfigPathsDiffer(a, k, i);
  }

  /** Collecting the first i nodes touches neither the genesis of a later node nor any gentx directory. */
  lemma {:induction false} CollectedElsewhere(files: Files, a: Args, peers: string, appState: string, time: int, i: nat,
      p: Path)
    requires |p| == |a.out| + 3 ==> forall k :: 0 <= k < i ==> p != ConfigPath(a, k) && p != GenesisPath(a, k)
    ensures var c := Collected(files, a, peers, appState, time, i);
      (p in c <==> p in files) && (p in files ==> c[p] == files[p])
    decreases i
  {
    if i > 0 {
      CollectedElsewhere(files, a, peers, appState, time, i - 1, p);
      PathLengths(a, i - 1);
      CollectOneElsewhere(Collected(files, a, peers, appState, time, i - 1), a, peers, appState, time, i - 1, p);
    }
  }

  /** So the app state of a node that is still to be collected is what it was at the start. */
  lemma CollectedKeepsState(files: Files, a: Args, gen: AppStateGen, peers: string, appState: string, time: int, i: nat)
    ensures StateOf(Collected(files, a, peers, appState, time, i), a, gen, i) == StateOf(files, a, gen, i)
  {
    var c := Collected(files, a, peers, appState, time, i);
    forall k | 0 <= k < i ensures GenesisPath(a, i) != ConfigPath(a, k) && GenesisPath(a, i) != GenesisPath(a, k) {
      ConfigPathsDiffer(a, k, i);
    }
    CollectedElsewhere(files, a, peers, appState, time, i, GenesisPath(a, i));
    forall name ensures (GentxDir(a, i) + [name] in c <==> GentxDir(a, i) + [name] in files) &&
                        (GentxDir(a, i) + [name] in c ==> c[GentxDir(a, i) + [name]] == files[GentxDir(a, i) + [name]])
    {
      CollectedElsewhere(files, a, peers, appState, time, i, GentxDir(a, i) + [name]);
    }
    FilesInSame(c, files, GentxDir(a, i), GentxDir(a, i));
  }

  lemma CollectOneKeeps(files: Files, a: Args, peers: string, appState: string, time: int, k: nat, i: nat)
    requires k != i
    ensures var c := CollectOne(files, a, peers, appState, time, k);
      SameFile(c, GenesisPath(a, i), files, GenesisPath(a, i)) && SameFile(c, ConfigPath(a, i), files, ConfigPath(a, i))
  {
    OtherNodesDiffer(a, k, i);
    CollectOneElsewhere(files, a, peers, appState, time, k, GenesisPath(a, i));
    CollectOneElsewhere(files, a, peers, appState, time, k, ConfigPath(a, i));
  }

  /** What is found at a collected node: the common genesis and its own configuration. */
  lemma {:induction false} CollectedAt(files: Files, a: Args, peers: string, appState: string, time: int, n: nat,
      i: nat)
    requires i < n
    ensures var c := Collected(files, a, peers, appState, time, n);
      && GenesisPath(a, i) in c && c[GenesisPath(a, i)] == FinalGenesis(a.chainID, appState, time)
      && ConfigPath(a, i) in c && c[ConfigPath(a, i)] == Config(NodeConfigOf(a, peers, i))
    decreases n
  {
    var before := Collected(files, a, peers, appState, time, n - 1);
    if i < n - 1 {
      CollectedAt(files, a, peers, appState, time, n - 1, i);
      CollectOneKeeps(before, a, peers, appState, time, n - 1, i);
    } else {
      CollectOneAt(before, a, peers, appState, time, i);
    }
  }

  // ---- Agreement ----

  /** All transactions under their file names. */
  function AllGentxs(a: Args, txs: seq<string>, n: nat): map<string, Data>
    requires |txs| == |a.ids| && n <= |txs|
  {
    if n == 0 then map[] else AllGentxs(a, txs, n - 1)[GentxName(a.ids[n - 1]) := Gentx(txs[n - 1])]
  }

  lemma {:induction false} AllGentxsNames(a: Args, txs: seq<string>, n: nat, name: string)
    requires |txs| == |a.ids| && n <= |txs| && name in AllGentxs(a, txs, n)
    ensures exists j :: 0 <= j < n && name == GentxName(a.ids[j])
    decreases n
  {
    if name != GentxName(a.ids[n - 1]) { AllGentxsNames(a, txs, n - 1, name); }
  }

  lemma {:induction false} AllGentxsAt(a: Args, txs: seq<string>, n: nat, j: nat)
    requires Usable(a) && |txs| == |a.ids| && j < n <= |txs|
    ensures GentxName(a.ids[j]) in AllGentxs(a, txs, n) && AllGentxs(a, txs, n)[GentxName(a.ids[j])] == Gentx(txs[j])
    decreases n
  {
    if j < n - 1 {
      AllGentxsAt(a, txs, n - 1, j);
      if GentxName(a.ids[j]) == GentxName(a.ids[n - 1]) { GentxNamesDiffer(a, j, n - 1); }
    }
  }

  /** There are as many of them as nodes. */
  lemma {:induction false} AllGentxsSize(a: Args, txs: seq<string>, n: nat)
    requires Usable(a) && |txs| == |a.ids| && n <= |txs|
    ensures |AllGentxs(a, txs, n)| == n
    decreases n
  {
    if n > 0 {
      AllGentxsSize(a, txs, n - 1);
      NameIsNew(a, txs, n - 1);
      assert AllGentxs(a, txs, n).Keys == AllGentxs(a, txs, n - 1).Keys + {GentxName(a.ids[n - 1])};
    }
  }

  lemma NameIsNew(a: Args, txs: seq<string>, n: nat)
    requires Usable(a) && |txs| == |a.ids| && n < |txs|
    ensures GentxName(a.ids[n]) !in AllGentxs(a, txs, n)
  {
    if GentxName(a.ids[n]) in AllGentxs(a, txs, n) {
      AllGentxsNames(a, txs, n, GentxName(a.ids[n]));
      var j :| 0 <= j < n && GentxName(a.ids[n]) == GentxName(a.ids[j]);
      GentxNamesDiffer(a, j, n);
    }
  }

  ghost predicate IsGentxName(a: Args, name: string)
  {
    exists j :: 0 <= j < |a.ids| && name == GentxName(a.ids[j])
  }

  /** Node i's gentx directory holds no file under a name that delivery would not write. */
  ghost predicate NoStale(files: Files, a: Args, i: int)
  {
    forall name {:trigger GentxDir(a, i) + [name]} :: GentxDir(a, i) + [name] in files ==> IsGentxName(a, name)
  }

  /** What node i's gentx directory holds after delivery: what lay there before, and every transaction over it. */
  function GentxListing(start: Files, a: Args, txs: seq<string>, i: int): map<string, Data>
    requires |txs| == |a.ids|
  {
    FilesIn(start, GentxDir(a, i)) + AllGentxs(a, txs, |txs|)
  }

  ghost predicate FreshGentxDirs(files: Files, a: Args)
  {
    forall i {:trigger NoStale(files, a, i)} :: 0 <= i < |a.ids| ==> NoStale(files, a, i)
  }

  /**
   After delivery a gentx directory holds exactly the n transactions, with their contents, if and only
   if it held no stale file before: nothing ever empties it.
   */
  lemma DeliveredExactly(files: Files, start: Files, a: Args, txs: seq<string>, i: int)
    requires Usable(a) && |txs| == |a.ids| && 0 <= i < |txs|
    requires DeliveredTo(files, start, a, txs, |txs|, 0)
    ensures NoStale(start, a, i) <==> FilesIn(files, GentxDir(a, i)) == AllGentxs(a, txs, |txs|)
    ensures |AllGentxs(a, txs, |txs|)| == |txs|
  {
    AllGentxsSize(a, txs, |txs|);
    DeliveredListing(files, start, a, txs, i);
    FreshListing(start, a, txs, i);
  }

  lemma DeliveredName(files: Files, start: Files, a: Args, txs: seq<string>, i: int, name: string)
    requires Usable(a) && |txs| == |a.ids| && 0 <= i < |txs|
    requires DeliveredTo(files, start, a, txs, |txs|, 0) && name in AllGentxs(a, txs, |txs|)
    ensures var p := GentxDir(a, i) + [name];
      p in files && files[p] == AllGentxs(a, txs, |txs|)[name]
  {
    AllGentxsNames(a, txs, |txs|, name);
    var j :| 0 <= j < |txs| && name == GentxName(a.ids[j]);
    assert GentxPath(a, i, j) == GentxDir(a, i) + [name] && Received(i, j, |txs|, 0);
    AllGentxsAt(a, txs, |txs|, j);
  }

  /** What is not among the transactions is not delivered. */
  lemma ForeignName(a: Args, txs: seq<string>, i: int, name: string)
    requires Usable(a) && |txs| == |a.ids| && name !in AllGentxs(a, txs, |txs|)
    ensures !DeliveryTarget(a, GentxDir(a, i) + [name])
  {
    var p := GentxDir(a, i) + [name];
    forall k, l | 0 <= k < |a.ids| && 0 <= l < |a.ids| ensures p != GentxPath(a, k, l) {
      AllGentxsAt(a, txs, |txs|, l);
      assert p[|p| - 1] == name;
      assert GentxPath(a, k, l)[|GentxPath(a, k, l)| - 1] == GentxName(a.ids[l]);
    }
  }

  lemma IsGentxNameExactly(a: Args, txs: seq<string>, name: string)
    requires Usable(a) && |txs| == |a.ids|
    ensures IsGentxName(a, name) <==> name in AllGentxs(a, txs, |txs|)
  {
    if IsGentxName(a, name) {
      var j :| 0 <= j < |a.ids| && name == GentxName(a.ids[j]);
      AllGentxsAt(a, txs, |txs|, j);
    }
    if name in AllGentxs(a, txs, |txs|) { AllGentxsNames(a, txs, |txs|, name); }
  }

  /** From any start: a gentx directory ends with what lay there before, and every transaction over it. */
  lemma DeliveredListing(files: Files, start: Files, a: Args, txs: seq<string>, i: int)
    requires Usable(a) && |txs| == |a.ids| && 0 <= i < |txs|
    requires DeliveredTo(files, start, a, txs, |txs|, 0)
    ensures FilesIn(files, GentxDir(a, i)) == GentxListing(start, a, txs, i)
  {
    var now, was := FilesIn(files, GentxDir(a, i)), GentxListing(start, a, txs, i);
    forall name {:trigger SameEntry(now, was, name)}
      ensures SameEntry(now, was, name)
    {
      DeliveredEntry(files, start, a, txs, i, name);
    }
    SameEntries(now, was);
  }

  lemma DeliveredEntry(files: Files, start: Files, a: Args, txs: seq<string>, i: int, name: string)
    requires Usable(a) && |txs| == |a.ids| && 0 <= i < |txs|
    requires DeliveredTo(files, start, a, txs, |txs|, 0)
    ensures SameEntry(FilesIn(files, GentxDir(a, i)), GentxListing(start, a, txs, i), name)
  {
    FilesInAt(files, GentxDir(a, i), name);
    FilesInAt(start, GentxDir(a, i), name);
    if name in AllGentxs(a, txs, |txs|) {
      DeliveredName(files, start, a, txs, i, name);
    } else {
      ForeignName(a, txs, i, name);
    }
  }

  /** Only a directory without stale files lists exactly the transactions. */
  lemma FreshListing(start: Files, a: Args, txs: seq<string>, i: int)
    requires Usable(a) && |txs| == |a.ids|
    ensures NoStale(start, a, i) <==> GentxListing(start, a, txs, i) == AllGentxs(a, txs, |txs|)
  {
    var dir, all := GentxDir(a, i), AllGentxs(a, txs, |txs|);
    MergedAdds(FilesIn(start, dir), all);
    forall name
      ensures (dir + [name] in start <==> name in FilesIn(start, dir)) && (IsGentxName(a, name) <==> name in all)
    {
      FilesInAt(start, dir, name);
      IsGentxNameExactly(a, txs, name);
    }
    if NoStale(start, a, i) {
      forall name | name in FilesIn(start, dir) ensures name in all { assert dir + [name] in start; }
    }
  }

  lemma MergedAdds(x: map<string, Data>, over: map<string, Data>)
    ensures x + over == over <==> x.Keys <= over.Keys
  {
    forall name | name in x && name !in over ensures x + over != over { assert name in x + over; }
  }

  ghost predicate SameFile(files: Files, p: Path, others: Files, q: Path)
  {
    (p in files <==> q in others) && (p in files ==> files[p] == others[q])
  }

  /** Nodes i and 0 hold the same files under names that delivery does not write. */
  ghost predicate SameStale(files: Files, a: Args, i: int)
  {
    forall name {:trigger IsGentxName(a, name)} :: !IsGentxName(a, name) ==>
      SameFile(files, GentxDir(a, i) + [name], files, GentxDir(a, 0) + [name])
  }

  ghost predicate SameEntry(x: map<string, Data>, y: map<string, Data>, name: string)
  {
    (name in x <==> name in y) && (name in x ==> x[name] == y[name])
  }

  lemma SameEntries(x: map<string, Data>, y: map<string, Data>)
    requires forall name {:trigger SameEntry(x, y, name)} :: SameEntry(x, y, name)
    ensures x == y
  {
    forall name
      ensures (name in x <==> name in y) && (name in x ==> x[name] == y[name])
    {
      assert SameEntry(x, y, name);
    }
  }

  /** Two listings agree on a name if it is a transaction's, or else if the files were the same before. */
  lemma EntryAt(start: Files, other: Files, a: Args, txs: seq<string>, i: int, k: int, name: string)
    requires Usable(a) && |txs| == |a.ids|
    ensures SameEntry(GentxListing(start, a, txs, i), GentxListing(other, a, txs, k), name) <==>
            IsGentxName(a, name) || SameFile(start, GentxDir(a, i) + [name], other, GentxDir(a, k) + [name])
  {
    EntryOfFile(start, GentxDir(a, i), other, GentxDir(a, k), name);
    MergedEntry(FilesIn(start, GentxDir(a, i)), FilesIn(other, GentxDir(a, k)), AllGentxs(a, txs, |txs|), name);
    IsGentxNameExactly(a, txs, name);
  }

  lemma EntryOfFile(files: Files, dir: Path, others: Files, other: Path, name: string)
    ensures SameEntry(FilesIn(files, dir), FilesIn(others, other), name) <==>
      SameFile(files, dir + [name], others, other + [name])
  {
    FilesInAt(files, dir, name);
    FilesInAt(others, other, name);
  }

  lemma MergedEntry(x: map<string, Data>, y: map<string, Data>, over: map<string, Data>, name: string)
    ensures SameEntry(x + over, y + over, name) <==> name in over || SameEntry(x, y, name)
  {
  }

  lemma SameListings(start: Files, a: Args, txs: seq<string>, i: int)
    requires Usable(a) && |txs| == |a.ids|
    ensures SameStale(start, a, i) <==> GentxListing(start, a, txs, i) == GentxListing(start, a, txs, 0)
  {
    var here, first := GentxListing(start, a, txs, i), GentxListing(start, a, txs, 0);
    if SameStale(start, a, i) {
      forall name {:trigger SameEntry(here, first, name)}
        ensures SameEntry(here, first, name)
      {
        EntryAt(start, start, a, txs, i, 0, name);
      }
      SameEntries(here, first);
    }
    if here == first {
      forall name {:trigger IsGentxName(a, name)} | !IsGentxName(a, name)
        ensures SameFile(start, GentxDir(a, i) + [name], start, GentxDir(a, 0) + [name])
      {
        EntryAt(start, start, a, txs, i, 0, name);
      }
    }
  }

  /**
   Genesis agreement: whatever app state is generated from genesis and transactions, node i generates
   the state that node 0 does, if and only if both held the same stale files when delivery began.
   */
  lemma StatesAgree(files: Files, start: Files, a: Args, txs: seq<string>, doc: Data, i: int)
    requires Usable(a) && |txs| == |a.ids| && 0 <= i < |txs|
    requires DeliveredTo(files, start, a, txs, |txs|, 0) && GenesisEverywhere(files, a, doc)
    ensures (forall gen: AppStateGen :: StateOf(files, a, gen, i) == StateOf(files, a, gen, 0)) <==>
      SameStale(start, a, i)
  {
    SameListings(start, a, txs, i);
    forall gen: AppStateGen ensures StateOf(files, a, gen, i) == gen(doc, GentxListing(start, a, txs, i)) {
      DeliveredState(files, start, a, txs, gen, doc, i);
    }
    forall gen: AppStateGen ensures StateOf(files, a, gen, 0) == gen(doc, GentxListing(start, a, txs, 0)) {
      DeliveredState(files, start, a, txs, gen, doc, 0);
    }
    if GentxListing(start, a, txs, i) != GentxListing(start, a, txs, 0) {
      var gen := Telling(GentxListing(start, a, txs, 0));
      assert StateOf(files, a, gen, i) != StateOf(files, a, gen, 0);
    }
  }

  /** The app state of a node once everything is delivered. */
  lemma DeliveredState(files: Files, start: Files, a: Args, txs: seq<string>, gen: AppStateGen, doc: Data, i: int)
    requires Usable(a) && |txs| == |a.ids| && 0 <= i < |txs|
    requires DeliveredTo(files, start, a, txs, |txs|, 0) && GenesisEverywhere(files, a, doc)
    ensures StateOf(files, a, gen, i) == gen(doc, GentxListing(start, a, txs, i))
  {
    DeliveredListing(files, start, a, txs, i);
    assert GenesisPath(a, i) in files;
  }

  /** A generator that accepts every listing and tells one of them from all others. */
  function Telling(listing: map<string, Data>): AppStateGen
  {
    (doc, found) => Some(if found == listing then "this" else "other")
  }

  /** In every run that succeeds node i generates node 0's state, if and only if both held the same stale files. */
  lemma SuccessfulRunsAgree(start: Files, a: Args, txs: seq<string>, doc: Data, i: int)
    requires Usable(a) && |txs| == |a.ids| && 0 <= i < |txs|
    ensures (forall gen: AppStateGen :: ListingsGenerate(start, a, txs, gen, doc) ==>
              gen(doc, GentxListing(start, a, txs, i)) == gen(doc, GentxListing(start, a, txs, 0))) <==>
            SameStale(start, a, i)
  {
    SameListings(start, a, txs, i);
    if !SameStale(start, a, i) {
      var gen := Telling(GentxListing(start, a, txs, 0));
      assert ListingsGenerate(start, a, txs, gen, doc);
      assert gen(doc, GentxListing(start, a, txs, i)) != gen(doc, GentxListing(start, a, txs, 0));
    }
  }

  /** The run succeeds, but node i is left with a genesis whose app state its own files do not generate. */
  ghost predicate Overridden(start: Files, a: Args, txs: seq<string>, gen: AppStateGen, doc: Data, i: int)
    requires |txs| == |a.ids|
  {
    var own, first := gen(doc, GentxListing(start, a, txs, i)), gen(doc, GentxListing(start, a, txs, 0));
    && ListingsGenerate(start, a, txs, gen, doc)
    && own.Some? && first.Some? && own != first
    && forall files: Files, peers, time: int {:trigger AllComplete(files, start, a, txs, peers, first.value, time)} ::
         AllComplete(files, start, a, txs, peers, first.value, time) ==>
           && FilesIn(files, GentxDir(a, i)) == GentxListing(start, a, txs, i)
           && GenesisPath(a, i) in files && files[GenesisPath(a, i)] == FinalGenesis(a.chainID, first.value, time)
  }

  /** That can happen to node i exactly when its stale files are not those of node 0. */
  lemma OverriddenExactly(start: Files, a: Args, txs: seq<string>, doc: Data, i: int)
    requires Usable(a) && |txs| == |a.ids| && 0 <= i < |txs|
    ensures (exists gen: AppStateGen :: Overridden(start, a, txs, gen, doc, i)) <==> !SameStale(start, a, i)
  {
    SameListings(start, a, txs, i);
    if !SameStale(start, a, i) {
      OverriddenByTelling(start, a, txs, doc, i);
    }
  }

  lemma OverriddenByTelling(start: Files, a: Args, txs: seq<string>, doc: Data, i: int)
    requires Usable(a) && |txs| == |a.ids| && 0 <= i < |txs|
    requires GentxListing(start, a, txs, i) != GentxListing(start, a, txs, 0)
    ensures Overridden(start, a, txs, Telling(GentxListing(start, a, txs, 0)), doc, i)
  {
    var gen := Telling(GentxListing(start, a, txs, 0));
    var first := gen(doc, GentxListing(start, a, txs, 0)).value;
    forall files: Files, peers, time: int {:trigger AllComplete(files, start, a, txs, peers, first, time)}
      | AllComplete(files, start, a, txs, peers, first, time)
      ensures FilesIn(files, GentxDir(a, i)) == GentxListing(start, a, txs, i)
      ensures GenesisPath(a, i) in files && files[GenesisPath(a, i)] == FinalGenesis(a.chainID, first, time)
    {
      assert NodeComplete(files, start, a, txs, peers, first, time, i);
    }
  }

  // ---- Generators that reject stale transactions ----

  predicate IsJson(name: string)
  {
    |name| >= 5 && name[|name| - 5..] == ".json"
  }

  function JsonOf(listing: map<string, Data>): map<string, Data>
  {
    map name | name in listing && IsJson(name) :: listing[name]
  }

  /** A generator that reads JSON files alone and accepts none but those of `known`. */
  ghost predicate Strict(gen: AppStateGen, doc: Data, known: set<string>)
  {
    forall listing: map<string, Data> {:trigger StrictOn(gen, doc, known, listing)} ::
      StrictOn(gen, doc, known, listing)
  }

  ghost predicate StrictOn(gen: AppStateGen, doc: Data, known: set<string>, listing: map<string, Data>)
  {
    && gen(doc, listing) == gen(doc, JsonOf(listing))
    && (gen(doc, listing).Some? ==> JsonOf(listing).Keys <= known)
  }

  /** Node i held no JSON file under a name that delivery does not write. */
  ghost predicate NoStaleJson(files: Files, a: Args, i: int)
  {
    forall name {:trigger GentxDir(a, i) + [name]} ::
      IsJson(name) && GentxDir(a, i) + [name] in files ==> IsGentxName(a, name)
  }

  ghost predicate NoStaleJsons(files: Files, a: Args)
  {
    forall i {:trigger NoStaleJson(files, a, i)} :: 0 <= i < |a.ids| ==> NoStaleJson(files, a, i)
  }

  /**
   With such a generator the command does notice: it succeeds exactly when no node held a stale
   transaction and the transactions of this run are accepted, and then all states are the same.
   */
  lemma StrictRunsAgree(start: Files, a: Args, txs: seq<string>, gen: AppStateGen, doc: Data)
    requires Usable(a) && |txs| == |a.ids| && Strict(gen, doc, AllGentxs(a, txs, |txs|).Keys)
    ensures ListingsGenerate(start, a, txs, gen, doc) <==>
      |txs| == 0 || (NoStaleJsons(start, a) && gen(doc, AllGentxs(a, txs, |txs|)).Some?)
    ensures ListingsGenerate(start, a, txs, gen, doc) ==> StatesOfTxs(start, a, txs, gen, doc)
  {
    if ListingsGenerate(start, a, txs, gen, doc) {
      StrictAccepts(start, a, txs, gen, doc);
    } else if NoStaleJsons(start, a) && gen(doc, AllGentxs(a, txs, |txs|)).Some? {
      StrictSucceeds(start, a, txs, gen, doc);
    }
  }

  /** Every node's state is that of the transactions alone. */
  ghost predicate StatesOfTxs(start: Files, a: Args, txs: seq<string>, gen: AppStateGen, doc: Data)
    requires |txs| == |a.ids|
  {
    forall i {:trigger GentxListing(start, a, txs, i)} :: 0 <= i < |txs| ==>
      gen(doc, GentxListing(start, a, txs, i)) == gen(doc, AllGentxs(a, txs, |txs|))
  }

  lemma StrictAccepts(start: Files, a: Args, txs: seq<string>, gen: AppStateGen, doc: Data)
    requires Usable(a) && |txs| == |a.ids| && Strict(gen, doc, AllGentxs(a, txs, |txs|).Keys)
    requires ListingsGenerate(start, a, txs, gen, doc)
    ensures NoStaleJsons(start, a) && StatesOfTxs(start, a, txs, gen, doc)
    ensures |txs| > 0 ==> gen(doc, AllGentxs(a, txs, |txs|)).Some?
  {
    forall i {:trigger NoStaleJson(start, a, i)} {:trigger GentxListing(start, a, txs, i)} | 0 <= i < |txs|
      ensures NoStaleJson(start, a, i)
      ensures gen(doc, GentxListing(start, a, txs, i)) == gen(doc, AllGentxs(a, txs, |txs|))
    {
      assert gen(doc, GentxListing(start, a, txs, i)).Some?;
      StrictRead(start, a, txs, gen, doc, i);
    }
    if |txs| > 0 { assert gen(doc, GentxListing(start, a, txs, 0)).Some?; }
  }

  lemma StrictSucceeds(start: Files, a: Args, txs: seq<string>, gen: AppStateGen, doc: Data)
    requires Usable(a) && |txs| == |a.ids| && Strict(gen, doc, AllGentxs(a, txs, |txs|).Keys)
    requires NoStaleJsons(start, a) && gen(doc, AllGentxs(a, txs, |txs|)).Some?
    ensures ListingsGenerate(start, a, txs, gen, doc)
  {
    forall i {:trigger GentxListing(start, a, txs, i)} | 0 <= i < |txs|
      ensures gen(doc, GentxListing(start, a, txs, i)).Some?
    {
      assert NoStaleJson(start, a, i);
      StrictRead(start, a, txs, gen, doc, i);
    }
  }

  /** One node's state: accepted only without stale JSON files, and then that of the transactions alone. */
  lemma StrictRead(start: Files, a: Args, txs: seq<string>, gen: AppStateGen, doc: Data, i: int)
    requires Usable(a) && |txs| == |a.ids| && 0 <= i < |txs| && Strict(gen, doc, AllGentxs(a, txs, |txs|).Keys)
    ensures gen(doc, GentxListing(start, a, txs, i)).Some? ==> NoStaleJson(start, a, i)
    ensures NoStaleJson(start, a, i) ==>
      gen(doc, GentxListing(start, a, txs, i)) == gen(doc, AllGentxs(a, txs, |txs|))
  {
    var listing, all := GentxListing(start, a, txs, i), AllGentxs(a, txs, |txs|);
    assert StrictOn(gen, doc, all.Keys, listing) && StrictOn(gen, doc, all.Keys, all);
    if JsonOf(listing).Keys <= all.Keys { KnownAreFresh(start, a, txs, i); }
    if NoStaleJson(start, a, i) {
      FreshAreKnown(start, a, txs, i);
      JsonMerged(FilesIn(start, GentxDir(a, i)), all);
    }
  }

  lemma JsonMerged(x: map<string, Data>, over: map<string, Data>)
    requires JsonOf(x).Keys <= over.Keys
    ensures JsonOf(x + over) == JsonOf(over)
  {
    forall name | name in x && IsJson(name) ensures name in over { assert name in JsonOf(x); }
  }

  lemma KnownAreFresh(start: Files, a: Args, txs: seq<string>, i: int)
    requires Usable(a) && |txs| == |a.ids| && 0 <= i < |txs|
    requires JsonOf(GentxListing(start, a, txs, i)).Keys <= AllGentxs(a, txs, |txs|).Keys
    ensures NoStaleJson(start, a, i)
  {
    forall name {:trigger GentxDir(a, i) + [name]} | IsJson(name) && GentxDir(a, i) + [name] in start
      ensures IsGentxName(a, name)
    {
      FilesInAt(start, GentxDir(a, i), name);
      assert name in JsonOf(GentxListing(start, a, txs, i));
      IsGentxNameExactly(a, txs, name);
    }
  }

  lemma FreshAreKnown(start: Files, a: Args, txs: seq<string>, i: int)
    requires Usable(a) && |txs| == |a.ids| && 0 <= i < |txs| && NoStaleJson(start, a, i)
    ensures JsonOf(FilesIn(start, GentxDir(a, i))).Keys <= AllGentxs(a, txs, |txs|).Keys
  {
    forall name | name in JsonOf(FilesIn(start, GentxDir(a, i))) ensures name in AllGentxs(a, txs, |txs|) {
      FilesInAt(start, GentxDir(a, i), name);
      assert IsGentxName(a, name);
      IsGentxNameExactly(a, txs, name);
    }
  }

  /**
   One stale file at the second node can be enough: a run then succeeds and writes the first node's state
   for the second, which generated another.
   */
  lemma StaleFileSplitsStates(a: Args, txs: seq<string>, doc: Data)
    requires Usable(a) && |txs| == |a.ids| >= 2 && "old" !in a.ids
    ensures var start: Files := map[GentxDir(a, 1) + [GentxName("old")] := Gentx("old")];
      && !SameStale(start, a, 1)
      && exists gen: AppStateGen :: Overridden(start, a, txs, gen, doc, 1)
  {
    var name := GentxName("old");
    var start: Files := map[GentxDir(a, 1) + [name] := Gentx("old")];
    forall j | 0 <= j < |a.ids| ensures GentxName(a.ids[j]) != name {
      assert name[6..|name| - 5] == "old";
      assert GentxName(a.ids[j])[6..|GentxName(a.ids[j])| - 5] == a.ids[j];
    }
    assert !IsGentxName(a, name);
    DirsDiffer(a, 1, 0, name);
    OverriddenExactly(start, a, txs, doc, 1);
  }

  lemma DirsDiffer(a: Args, i: int, k: int, name: string)
    requires i != k
    ensures GentxDir(a, i) + [name] != GentxDir(a, k) + [name]
  {
    var rest := ["config", "gentx", name];
    assert GentxDir(a, i) + [name] == NodeDir(a, i) + rest && GentxDir(a, k) + [name] == NodeDir(a, k) + rest;
    NodeOf(a, i, rest);
    NodeOf(a, k, rest);
    if NodeName(a, i) == NodeName(a, k) { NodeNamesDiffer(a, i, k); }
  }

  class FileSystem {
    var files: Files
    var dirs: set<Path>

    constructor (files: Files, dirs: set<Path>)
      ensures this.files == files && this.dirs == dirs
    {
      this.files, this.dirs := files, dirs;
    }

    method MkdirAll(p: Path)
      modifies this`dirs
      ensures dirs == old(dirs) + set k | 0 <= k <= |p| :: p[..k]
    {
      dirs := dirs + set k | 0 <= k <= |p| :: p[..k];
    }

    method WriteFile(p: Path, contents: Data)
      modifies this`files
      ensures files == old(files)[p := contents]
    {
      files := files[p := contents];
    }

    /** os.Create truncates an existing file. */
    method Create(p: Path) returns (ok: bool)
      modifies this`files
      ensures ok <==> |p| > 0 && p[..|p| - 1] in dirs
      ensures files == if ok then old(files)[p := Empty] else old(files)
    {
      if |p| == 0 || p[..|p| - 1] !in dirs {
        return false;
      }
      files := files[p := Empty];
      return true;
    }

    /**
     copyFile: open, create, copy. The source is read only after the destination was truncated, so a
     file copied onto itself loses its contents.
     */
    method CopyFile(src: Path, dstDir: Path) returns (ok: bool)
      requires |src| > 0
      modifies this`files
      ensures ok <==> src in old(files) && dstDir in dirs
      ensures var dst := dstDir + [src[|src| - 1]];
        files == if !ok then old(files) else old(files)[dst := if src == dst then Empty else old(files)[src]]
    {
      var dst := dstDir + [src[|src| - 1]];
      assert dst[..|dst| - 1] == dstDir;
      if src !in files {
        return false;
      }
      ok := Create(dst);
      if !ok {
        return;
      }
      files := files[dst := files[src]];
    }
  }

  class Testnet {
    const fs: FileSystem
    const cwd: Path
    var nodeConfig: NodeConfig

    constructor (fs: FileSystem, cwd: Path, config: NodeConfig)
      ensures this.fs == fs && this.cwd == cwd && nodeConfig == config
    {
      this.fs, this.cwd, this.nodeConfig := fs, cwd, config;
    }

    /** The per-node loop: directories, peers, transaction file, account and application configuration. */
    method WriteNodes(a: Args, txs: seq<string>, addresses: seq<string>)
      returns (peers: string, gentxFiles: seq<Path>, balances: seq<GenesisSupply.Balance>)
      requires |txs| == |a.ids| == |addresses|
      modifies fs, this`nodeConfig
      ensures fs.files == NodesWritten(old(fs.files), a, txs, |txs|)
      ensures DirsReady(fs.dirs, a, |txs|)
      ensures peers == Join(Memos(a, |txs|), ',')
      ensures gentxFiles == OwnPaths(a, |txs|)
      ensures balances == AccountBalances(addresses)
    {
      peers, gentxFiles, balances := "", [], [];
      ghost var start := fs.files;
      for i := 0 to |txs|
        invariant DirsReady(fs.dirs, a, i)
        invariant fs.files == NodesWritten(start, a, txs, i)
        invariant peers == Join(Memos(a, i), ',')
        invariant ListsKept(a, addresses, i, gentxFiles, balances)
      {
        peers := AddPeer(a, i, peers);
        ListsNext(a, addresses, i, gentxFiles, balances);
        balances := AddBalance(addresses[i], balances);
        gentxFiles := gentxFiles + [GentxPath(a, i, i)];
        ghost var ready := fs.dirs;
        WriteNode(a, txs[i], i);
        DirsGrow(ready, fs.dirs, a, i);
      }
      assert addresses[..|addresses|] == addresses;
    }

    method AddPeer(a: Args, i: nat, peers: string) returns (more: string)
      requires i < |a.ids| && peers == Join(Memos(a, i), ',')
      ensures more == Join(Memos(a, i + 1), ',')
    {
      var memo := Memo(a, i);
      PeersNext(a, i);
      if peers == "" {
        more := memo;
      } else {
        more := peers + "," + memo;
      }
    }

    method AddBalance(address: string, balances: seq<GenesisSupply.Balance>) returns (more: seq<GenesisSupply.Balance>)
      ensures more == balances + [GenesisSupply.Balance(address, GenesisSupply.AccountCoins())]
    {
      var coins := [GenesisSupply.Coin(GenesisSupply.TESTTOKEN, GenesisSupply.ACCOUNT_TOKENS),
                    GenesisSupply.Coin(GenesisSupply.UJAY, GenesisSupply.ACCOUNT_STAKE)];
      more := balances + [GenesisSupply.Balance(address, GenesisSupply.SortCoins(coins))];
    }

    /** The directories and files of one node. */
    method WriteNode(a: Args, tx: string, i: nat)
      requires i < |a.ids|
      modifies fs, this`nodeConfig
      ensures fs.files == old(fs.files)[GentxPath(a, i, i) := Gentx(tx)][AppConfigPath(a, i) := NodeAppConfig(a, i)]
      ensures fs.dirs >= old(fs.dirs) && GentxDir(a, i) in fs.dirs
    {
      nodeConfig := nodeConfig.(rootDir := NodeDir(a, i), moniker := NodeName(a, i),
                                rpcListen := "tcp://0.0.0.0:" + (if i in a.ports then a.ports[i] else ""));
      fs.MkdirAll(NodeDir(a, i) + ["config"]);
      var dir := GentxDir(a, i);
      fs.MkdirAll(dir);
      assert dir[..|dir|] == dir;
      fs.WriteFile(GentxPath(a, i, i), Gentx(tx));
      fs.WriteFile(AppConfigPath(a, i), NodeAppConfig(a, i));
    }

    /** initGenFiles: the supply of the sanitised balances, and the same document saved for every node. */
    method InitGenFiles(a: Args, balances: seq<GenesisSupply.Balance>, sanitized: seq<GenesisSupply.Balance>)
        returns (doc: Data)
      requires multiset(sanitized) == multiset(balances)
      requires forall i :: 0 <= i < |balances| ==> GenesisSupply.Canonical(balances[i].coins)
      modifies fs`files
      ensures doc == InitialGenesis(a.chainID, GenesisSupply.Supply(balances), sanitized)
      ensures fs.files == GenesisSaved(old(fs.files), a, doc, |a.ids|)
    {
      var supply := GenesisSupply.AccumulateSupply(sanitized);
      GenesisSupply.SupplyIgnoresOrder(balances, sanitized);
      doc := InitialGenesis(a.chainID, supply, sanitized);
      for i := 0 to |a.ids|
        invariant fs.files == GenesisSaved(old(fs.files), a, doc, i)
      {
        fs.WriteFile(GenesisPath(a, i), doc);
      }
    }

    /**
     The nested delivery loop. It always completes, never copies a file onto itself, and leaves every
     node with every transaction.
     */
    method Deliver(a: Args, txs: seq<string>, gentxFiles: seq<Path>) returns (ok: bool)
      requires Usable(a) && Clean(cwd) && |txs| == |a.ids|
      requires gentxFiles == OwnPaths(a, |txs|) && DirsReady(fs.dirs, a, |txs|) && OwnGentxs(fs.files, a, txs)
      modifies fs`files
      ensures ok
      ensures DeliveredTo(fs.files, old(fs.files), a, txs, |txs|, 0)
    {
      ghost var start := fs.files;
      DeliveryOpens(start, a, txs);
      for i := 0 to |txs|
        invariant DeliveredTo(fs.files, start, a, txs, i, 0)
      {
        for j := 0 to |txs|
          invariant DeliveredTo(fs.files, start, a, txs, i, j)
        {
          OwnPathsAt(a, |txs|, j);
          ok := DeliverOne(a, txs, gentxFiles[j], i, j, start);
          if !ok {
            return;
          }
        }
        RowDone(fs.files, start, a, txs, i);
      }
      return true;
    }

    /** One turn of the inner loop. */
    method DeliverOne(a: Args, txs: seq<string>, file: Path, i: int, j: int, ghost start: Files) returns (ok: bool)
      requires Usable(a) && Clean(cwd) && |txs| == |a.ids| && 0 <= i < |txs| && 0 <= j < |txs|
      requires file == GentxPath(a, j, j) && DirsReady(fs.dirs, a, |txs|)
      requires DeliveredTo(fs.files, start, a, txs, i, j)
      modifies fs`files
      ensures ok && DeliveredTo(fs.files, start, a, txs, i, j + 1)
    {
      var dir := GentxDir(a, i);
      SkipsExactlyOwn(a, cwd, i, j);
      if IsSubDir(cwd, RawPath(true, file), RawPath(true, dir)) {
        DeliveryStep(fs.files, fs.files, start, a, txs, i, j);
        return true;
      }
      ghost var before := fs.files;
      assert Received(j, j, i, j) && GentxPath(a, j, j) in fs.files;
      assert file[|file| - 1] == GentxName(a.ids[j]);
      if file == GentxPath(a, i, j) { GentxPathsDiffer(a, j, j, i, j); }
      ok := fs.CopyFile(file, dir);
      DeliveryStep(before, fs.files, start, a, txs, i, j);
    }

    /**
     collectGenFiles: each node's app state is generated from its own genesis and gentx directory, but
     the first one is written for all. `states` are the app states as generated; the loop stops at the
     first node that generates none, and what it wrote before stays.
     */
    method CollectGenFiles(a: Args, gen: AppStateGen, peers: string, time: int)
        returns (ok: bool, ghost states: seq<string>)
      modifies fs`files, this`nodeConfig
      ensures ok <==> AllGenerate(old(fs.files), a, gen)
      ensures |states| <= |a.ids| && (ok <==> |states| == |a.ids|) && StatesAre(states, old(fs.files), a, gen)
      ensures !ok ==> StateOf(old(fs.files), a, gen, |states|).None?
      ensures fs.files == Collected(old(fs.files), a, peers, FirstOf(states), time, |states|)
    {
      ghost var start := fs.files;
      states := [];
      var appState: Option<string> := None;
      for i := 0 to |a.ids|
        invariant |states| == i && CollectedTo(fs.files, start, a, gen, peers, time, states, appState)
      {
        ghost var before, kept, state := fs.files, appState, "";
        CollectedKeepsState(start, a, gen, peers, FirstOf(states), time, i);
        ok, appState, state := CollectNode(a, gen, peers, time, i, appState);
        if !ok {
          return;
        }
        CollectedNext(start, before, fs.files, a, gen, peers, time, states, state, kept, appState);
        states := states + [state];
      }
      AllGenerated(states, start, a, gen);
      ok := true;
    }

    /** One turn of the loop; the first app state generated is kept. */
    method CollectNode(a: Args, gen: AppStateGen, peers: string, time: int, i: nat, kept: Option<string>)
      returns (ok: bool, appState: Option<string>, ghost state: string)
      modifies fs`files, this`nodeConfig
      ensures ok <==> StateOf(old(fs.files), a, gen, i).Some?
      ensures ok ==> StateOf(old(fs.files), a, gen, i) == Some(state)
      ensures ok ==> appState == if kept.Some? then kept else Some(state)
      ensures fs.files == if ok then CollectOne(old(fs.files), a, peers, appState.value, time, i) else old(fs.files)
    {
      appState, state := kept, "";
      nodeConfig := nodeConfig.(moniker := NodeName(a, i));
      nodeConfig := nodeConfig.(rootDir := NodeDir(a, i));
      if GenesisPath(a, i) !in fs.files {
        return false, appState, state;
      }
      var nodeAppState := gen(fs.files[GenesisPath(a, i)], FilesIn(fs.files, GentxDir(a, i)));
      if nodeAppState.None? {
        return false, appState, state;
      }
      Configure(a, peers, i);
      fs.WriteFile(ConfigPath(a, i), Config(nodeConfig));
      if appState == None {
        appState := nodeAppState;
      }
      fs.WriteFile(GenesisPath(a, i), FinalGenesis(a.chainID, appState.value, time));
      return true, appState, nodeAppState.value;
    }

    /** The assignments to the shared configuration for node i. */
    method Configure(a: Args, peers: string, i: nat)
      requires nodeConfig.moniker == NodeName(a, i) && nodeConfig.rootDir == NodeDir(a, i)
      modifies this`nodeConfig
      ensures nodeConfig == NodeConfigOf(a, peers, i)
    {
      nodeConfig := nodeConfig.(persistentPeers := peers, allowDuplicateIP := true);
      nodeConfig := nodeConfig.(p2pListen := "tcp://0.0.0.0:" + Itoa(26656 - 3 * i));
      nodeConfig := nodeConfig.(rpcListen := "tcp://127.0.0.1:" + (if i in a.ports then a.ports[i] else ""));
      nodeConfig := nodeConfig.(proxyApp := "tcp://127.0.0.1:" + Itoa(26658 - 3 * i));
      nodeConfig := nodeConfig.(prometheusListen := ":" + Itoa(26660 + i), prometheus := true);
    }

    /** The part of initTestnetFiles before collection: write, save and deliver. */
    method BuildNodes(a: Args, txs: seq<string>, addresses: seq<string>, sanitized: seq<GenesisSupply.Balance>)
      returns (ok: bool, peers: string, doc: Data, ghost saved: Files)
      requires Usable(a) && Clean(cwd) && |txs| == |a.ids| == |addresses|
      requires multiset(sanitized) == multiset(AccountBalances(addresses))
      modifies fs, this`nodeConfig
      ensures ok && peers == Join(Memos(a, |txs|), ',')
      ensures doc == InitialGenesis(a.chainID, GenesisSupply.Supply(AccountBalances(addresses)), sanitized)
      ensures saved == GenesisSaved(NodesWritten(old(fs.files), a, txs, |txs|), a, doc, |a.ids|)
      ensures DeliveredTo(fs.files, saved, a, txs, |txs|, 0)
    {
      ghost var start := fs.files;
      var gentxFiles, balances;
      peers, gentxFiles, balances := WriteNodes(a, txs, addresses);
      BalancesAreCanonical(addresses);
      doc := InitGenFiles(a, balances, sanitized);
      saved := fs.files;
      SavedGentxs(start, a, txs, doc);
      ok := Deliver(a, txs, gentxFiles);
    }

    /**
     initTestnetFiles, from any start. It succeeds exactly when each node's own listing generates an app
     state; then all nodes have the genesis of node 0's, all transactions, and their own ports.
     */
    method InitTestnetFiles(a: Args, txs: seq<string>, addresses: seq<string>, sanitized: seq<GenesisSupply.Balance>,
        gen: AppStateGen, time: int)
      returns (ok: bool, peers: string, doc: Data)
      requires Usable(a) && Clean(cwd) && |txs| == |a.ids| == |addresses|
      requires multiset(sanitized) == multiset(AccountBalances(addresses))
      modifies fs, this`nodeConfig
      ensures peers == Join(Memos(a, |txs|), ',')
      ensures doc == InitialGenesis(a.chainID, GenesisSupply.Supply(AccountBalances(addresses)), sanitized)
      ensures ok <==> ListingsGenerate(old(fs.files), a, txs, gen, doc)
      ensures ok && |txs| > 0 ==>
        AllComplete(fs.files, old(fs.files), a, txs, peers, gen(doc, GentxListing(old(fs.files), a, txs, 0)).value,
          time)
      ensures FreshGentxDirs(old(fs.files), a) ==>
        && (ok <==> |txs| == 0 || gen(doc, AllGentxs(a, txs, |txs|)).Some?)
        && forall i :: 0 <= i < |txs| ==> GentxListing(old(fs.files), a, txs, i) == AllGentxs(a, txs, |txs|)
      ensures ok ==> NodesServe(fs.files, a, txs)
      ensures ok && PeersReadable(a) ==> PeersReach(fs.files, a)
    {
      ghost var start := fs.files;
      ghost var saved, states;
      ok, peers, doc, saved := BuildNodes(a, txs, addresses, sanitized);
      if !ok {
        return;
      }
      ghost var delivered := fs.files;
      ok, states := CollectGenFiles(a, gen, peers, time);
      Finished(start, delivered, a, txs, gen, doc, states, ok, peers, time);
      if ok && |txs| > 0 {
        var appState := gen(doc, GentxListing(start, a, txs, 0)).value;
        AppsCollected(start, delivered, a, txs, doc, peers, FirstOf(states), time);
        AllServe(fs.files, start, a, txs, peers, appState, time);
        AllReach(fs.files, start, a, txs, peers, appState, time);
      }
      if FreshGentxDirs(start, a) {
        FreshGenerates(start, a, txs, gen, doc);
      }
    }
  }

  /** The loop's files and kept app state once it has collected a node for each of the generated states. */
  ghost predicate CollectedTo(files: Files, start: Files, a: Args, gen: AppStateGen, peers: string, time: int,
      states: seq<string>, kept: Option<string>)
  {
    && StatesAre(states, start, a, gen)
    && kept == (if states == [] then None else Some(states[0]))
    && files == Collected(start, a, peers, FirstOf(states), time, |states|)
  }

  /** One more node collected. */
  lemma CollectedNext(start: Files, before: Files, after: Files, a: Args, gen: AppStateGen, peers: string, time: int,
                      states: seq<string>, state: string, kept: Option<string>, appState: Option<string>)
    requires CollectedTo(before, start, a, gen, peers, time, states, kept) &&
      Some(state) == StateOf(start, a, gen, |states|)
    requires appState == if kept.Some? then kept else Some(state)
    requires after == CollectOne(before, a, peers, appState.value, time, |states|)
    ensures CollectedTo(after, start, a, gen, peers, time, states + [state], appState)
  {
    var n, more := |states|, states + [state];
    forall i {:trigger more[i]} | 0 <= i < n + 1 ensures Some(more[i]) == StateOf(start, a, gen, i) {
      if i < n { assert Some(states[i]) == StateOf(start, a, gen, i); }
    }
    assert n > 0 ==> FirstOf(more) == FirstOf(states);
  }

  function FirstOf(states: seq<string>): string
  {
    if states == [] then "" else states[0]
  }

  lemma PeersNext(a: Args, i: nat)
    requires i < |a.ids|
    ensures Join(Memos(a, i + 1), ',') == if i == 0 then Memo(a, i) else Join(Memos(a, i), ',') + "," + Memo(a, i)
    ensures Join(Memos(a, i), ',') == "" <==> i == 0
    decreases i
  {
    assert Memos(a, i + 1) == Memos(a, i) + [Memo(a, i)];
    if i > 0 {
      JoinSnoc(Memos(a, i), Memo(a, i), ',');
      PeersNext(a, i - 1);
    }
  }

  /** A finished node. */
  ghost predicate NodeComplete(files: Files, start: Files, a: Args, txs: seq<string>, peers: string, appState: string,
      time: int, i: int)
    requires |txs| == |a.ids|
  {
    && FilesIn(files, GentxDir(a, i)) == GentxListing(start, a, txs, i)
    && GenesisPath(a, i) in files && files[GenesisPath(a, i)] == FinalGenesis(a.chainID, appState, time)
    && ConfigPath(a, i) in files && files[ConfigPath(a, i)] == Config(NodeConfigOf(a, peers, i))
  }

  ghost predicate AllComplete(files: Files, start: Files, a: Args, txs: seq<string>, peers: string, appState: string,
      time: int)
    requires |txs| == |a.ids|
  {
    forall i {:trigger NodeComplete(files, start, a, txs, peers, appState, time, i)} :: 0 <= i < |txs| ==>
      NodeComplete(files, start, a, txs, peers, appState, time, i)
  }

  /** Every node's listing, with the common genesis, generates an app state. */
  ghost predicate ListingsGenerate(start: Files, a: Args, txs: seq<string>, gen: AppStateGen, doc: Data)
    requires |txs| == |a.ids|
  {
    forall i {:trigger GentxListing(start, a, txs, i)} :: 0 <= i < |txs| ==>
      gen(doc, GentxListing(start, a, txs, i)).Some?
  }

  lemma FreshGenerates(start: Files, a: Args, txs: seq<string>, gen: AppStateGen, doc: Data)
    requires Usable(a) && |txs| == |a.ids| && FreshGentxDirs(start, a)
    ensures ListingsGenerate(start, a, txs, gen, doc) <==> |txs| == 0 || gen(doc, AllGentxs(a, txs, |txs|)).Some?
    ensures forall i :: 0 <= i < |txs| ==> GentxListing(start, a, txs, i) == AllGentxs(a, txs, |txs|)
  {
    forall i | 0 <= i < |txs| ensures GentxListing(start, a, txs, i) == AllGentxs(a, txs, |txs|) {
      assert NoStale(start, a, i);
      FreshListing(start, a, txs, i);
    }
    if |txs| > 0 { assert GentxListing(start, a, txs, 0) == AllGentxs(a, txs, |txs|); }
  }

  // ---- The whole construction ----

  lemma {:induction false} WrittenAt(files: Files, a: Args, txs: seq<string>, n: nat, j: nat)
    requires Usable(a) && |txs| == |a.ids| && j < n <= |txs|
    ensures GentxPath(a, j, j) in NodesWritten(files, a, txs, n) &&
      NodesWritten(files, a, txs, n)[GentxPath(a, j, j)] == Gentx(txs[j])
    decreases n
  {
    assert |AppConfigPath(a, n - 1)| == |a.out| + 3 && |GentxPath(a, j, j)| == |a.out| + 4;
    if j < n - 1 {
      WrittenAt(files, a, txs, n - 1, j);
      if GentxPath(a, j, j) == GentxPath(a, n - 1, n - 1) { GentxPathsDiffer(a, j, j, n - 1, n - 1); }
    }
  }

  lemma {:induction false} WrittenElsewhere(files: Files, a: Args, txs: seq<string>, n: nat, p: Path)
    requires |txs| == |a.ids| && n <= |txs| && |p| == |a.out| + 4
    requires forall j :: 0 <= j < n ==> p != GentxPath(a, j, j)
    ensures var w := NodesWritten(files, a, txs, n); (p in w <==> p in files) && (p in files ==> w[p] == files[p])
    decreases n
  {
    if n > 0 {
      WrittenElsewhere(files, a, txs, n - 1, p);
      assert |AppConfigPath(a, n - 1)| == |a.out| + 3;
    }
  }

  lemma {:induction false} SavedAt(files: Files, a: Args, doc: Data, n: nat, i: nat)
    requires i < n
    ensures GenesisPath(a, i) in GenesisSaved(files, a, doc, n) &&
      GenesisSaved(files, a, doc, n)[GenesisPath(a, i)] == doc
    decreases n
  {
    if i < n - 1 { SavedAt(files, a, doc, n - 1, i); }
  }

  lemma {:induction false} SavedElsewhere(files: Files, a: Args, doc: Data, n: nat, p: Path)
    requires |p| != |a.out| + 3
    ensures var g := GenesisSaved(files, a, doc, n); (p in g <==> p in files) && (p in files ==> g[p] == files[p])
    decreases n
  {
    if n > 0 {
      SavedElsewhere(files, a, doc, n - 1, p);
      assert |GenesisPath(a, n - 1)| == |a.out| + 3;
    }
  }

  function SavedFiles(start: Files, a: Args, txs: seq<string>, doc: Data): Files
    requires |txs| == |a.ids|
  {
    GenesisSaved(NodesWritten(start, a, txs, |txs|), a, doc, |a.ids|)
  }

  /** What delivery starts from: each transaction in its own node's directory, */
  lemma SavedGentxs(start: Files, a: Args, txs: seq<string>, doc: Data)
    requires Usable(a) && |txs| == |a.ids|
    ensures OwnGentxs(SavedFiles(start, a, txs, doc), a, txs)
  {
    forall i {:trigger OwnGentx(SavedFiles(start, a, txs, doc), a, txs, i)} | 0 <= i < |txs|
      ensures OwnGentx(SavedFiles(start, a, txs, doc), a, txs, i)
    {
      WrittenAt(start, a, txs, |txs|, i);
      SavedElsewhere(NodesWritten(start, a, txs, |txs|), a, doc, |a.ids|, GentxPath(a, i, i));
    }
  }

  ghost predicate GenesisEverywhere(files: Files, a: Args, doc: Data)
  {
    forall i {:trigger GenesisPath(a, i)} :: 0 <= i < |a.ids| ==>
      GenesisPath(a, i) in files && files[GenesisPath(a, i)] == doc
  }

  /** the same genesis at every node, */
  lemma SavedGenesis(start: Files, a: Args, txs: seq<string>, doc: Data)
    requires Usable(a) && |txs| == |a.ids|
    ensures GenesisEverywhere(SavedFiles(start, a, txs, doc), a, doc)
  {
    var n, saved := |txs|, SavedFiles(start, a, txs, doc);
    forall i {:trigger GenesisPath(a, i)} | 0 <= i < n
      ensures GenesisPath(a, i) in saved && saved[GenesisPath(a, i)] == doc
    {
      SavedAt(NodesWritten(start, a, txs, n), a, doc, n, i);
    }
  }

  /** and no file in a gentx directory that will not be written over or was not there before. */
  lemma SavedListing(start: Files, a: Args, txs: seq<string>, doc: Data, i: int)
    requires Usable(a) && |txs| == |a.ids| && 0 <= i < |txs|
    ensures GentxListing(SavedFiles(start, a, txs, doc), a, txs, i) == GentxListing(start, a, txs, i)
  {
    var saved := SavedFiles(start, a, txs, doc);
    var now, was := GentxListing(saved, a, txs, i), GentxListing(start, a, txs, i);
    forall name {:trigger SameEntry(now, was, name)} ensures SameEntry(now, was, name) {
      if !IsGentxName(a, name) { StaleUndisturbed(start, a, txs, doc, i, name); }
      EntryAt(saved, start, a, txs, i, i, name);
    }
    SameEntries(now, was);
  }

  lemma StaleUndisturbed(start: Files, a: Args, txs: seq<string>, doc: Data, i: int, name: string)
    requires Usable(a) && |txs| == |a.ids| && 0 <= i < |txs| && !IsGentxName(a, name)
    ensures SameFile(SavedFiles(start, a, txs, doc), GentxDir(a, i) + [name], start, GentxDir(a, i) + [name])
  {
    var p := GentxDir(a, i) + [name];
    SavedElsewhere(NodesWritten(start, a, txs, |txs|), a, doc, |txs|, p);
    forall j | 0 <= j < |txs| ensures p != GentxPath(a, j, j) {
      assert p[|p| - 1] == name && GentxPath(a, j, j)[|GentxPath(a, j, j)| - 1] == GentxName(a.ids[j]);
    }
    WrittenElsewhere(start, a, txs, |txs|, p);
  }

  /** Delivery does not touch the genesis files. */
  lemma GenesisUndisturbed(saved: Files, delivered: Files, a: Args, txs: seq<string>, doc: Data)
    requires |txs| == |a.ids| && DeliveredTo(delivered, saved, a, txs, |txs|, 0) && GenesisEverywhere(saved, a, doc)
    ensures GenesisEverywhere(delivered, a, doc)
  {
    forall i {:trigger GenesisPath(a, i)} | 0 <= i < |txs|
      ensures GenesisPath(a, i) in delivered && delivered[GenesisPath(a, i)] == doc
    {
      PathLengths(a, i);
      NotATarget(a, GenesisPath(a, i));
    }
  }

  lemma NotATarget(a: Args, p: Path)
    requires |p| == |a.out| + 3
    ensures !DeliveryTarget(a, p)
  {
    forall k, l | 0 <= k < |a.ids| && 0 <= l < |a.ids| ensures p != GentxPath(a, k, l) {
      assert |GentxPath(a, k, l)| == |a.out| + 4;
    }
  }

  /** A node after collection. */
  lemma NodeCompletes(start: Files, saved: Files, delivered: Files, a: Args, txs: seq<string>, peers: string,
      appState: string, time: int, i: int)
    requires Usable(a) && |txs| == |a.ids| && 0 <= i < |txs|
    requires DeliveredTo(delivered, saved, a, txs, |txs|, 0) &&
      GentxListing(saved, a, txs, i) == GentxListing(start, a, txs, i)
    ensures NodeComplete(Collected(delivered, a, peers, appState, time, |txs|), start, a, txs, peers, appState, time, i)
  {
    var c := Collected(delivered, a, peers, appState, time, |txs|);
    DeliveredListing(delivered, saved, a, txs, i);
    CollectedAt(delivered, a, peers, appState, time, |txs|, i);
    var dir := GentxDir(a, i);
    forall name
      ensures (dir + [name] in c <==> dir + [name] in delivered) &&
        (dir + [name] in c ==> c[dir + [name]] == delivered[dir + [name]])
    {
      CollectedElsewhere(delivered, a, peers, appState, time, |txs|, dir + [name]);
    }
    FilesInSame(c, delivered, dir, dir);
  }

  lemma AllNodesComplete(start: Files, delivered: Files, a: Args, txs: seq<string>, doc: Data, peers: string,
      appState: string, time: int)
    requires Usable(a) && |txs| == |a.ids|
    requires DeliveredTo(delivered, SavedFiles(start, a, txs, doc), a, txs, |txs|, 0)
    ensures AllComplete(Collected(delivered, a, peers, appState, time, |txs|), start, a, txs, peers, appState, time)
  {
    var c := Collected(delivered, a, peers, appState, time, |txs|);
    forall i {:trigger NodeComplete(c, start, a, txs, peers, appState, time, i)} | 0 <= i < |txs|
      ensures NodeComplete(c, start, a, txs, peers, appState, time, i)
    {
      SavedListing(start, a, txs, doc, i);
      NodeCompletes(start, SavedFiles(start, a, txs, doc), delivered, a, txs, peers, appState, time, i);
    }
  }

  /** Collection from delivered files generates from the listings. */
  lemma CollectionOutcome(start: Files, delivered: Files, a: Args, txs: seq<string>, gen: AppStateGen, doc: Data)
    requires Usable(a) && |txs| == |a.ids|
    requires DeliveredTo(delivered, SavedFiles(start, a, txs, doc), a, txs, |txs|, 0)
    ensures forall i {:trigger StateOf(delivered, a, gen, i)} :: 0 <= i < |txs| ==>
      StateOf(delivered, a, gen, i) == gen(doc, GentxListing(start, a, txs, i))
    ensures AllGenerate(delivered, a, gen) <==> ListingsGenerate(start, a, txs, gen, doc)
  {
    var saved := SavedFiles(start, a, txs, doc);
    SavedGenesis(start, a, txs, doc);
    GenesisUndisturbed(saved, delivered, a, txs, doc);
    forall i {:trigger StateOf(delivered, a, gen, i)} | 0 <= i < |txs|
      ensures StateOf(delivered, a, gen, i) == gen(doc, GentxListing(start, a, txs, i))
    {
      SavedListing(start, a, txs, doc, i);
      DeliveredState(delivered, saved, a, txs, gen, doc, i);
    }
    if ListingsGenerate(start, a, txs, gen, doc) {
      forall i {:trigger StateOf(delivered, a, gen, i)} | 0 <= i < |txs| ensures StateOf(delivered, a, gen, i).Some? {
        assert gen(doc, GentxListing(start, a, txs, i)).Some?;
      }
    }
    if AllGenerate(delivered, a, gen) {
      forall i {:trigger GentxListing(start, a, txs, i)} | 0 <= i < |txs|
        ensures gen(doc, GentxListing(start, a, txs, i)).Some?
      {
        assert StateOf(delivered, a, gen, i).Some?;
      }
    }
  }

  lemma Finished(start: Files, delivered: Files, a: Args, txs: seq<string>, gen: AppStateGen, doc: Data,
      states: seq<string>, ok: bool, peers: string, time: int)
    requires Usable(a) && |txs| == |a.ids|
    requires DeliveredTo(delivered, SavedFiles(start, a, txs, doc), a, txs, |txs|, 0)
    requires ok <==> AllGenerate(delivered, a, gen)
    requires ok ==> |states| == |txs| && StatesAre(states, delivered, a, gen)
    ensures ok <==> ListingsGenerate(start, a, txs, gen, doc)
    ensures ok && |txs| > 0 ==>
      AllComplete(Collected(delivered, a, peers, FirstOf(states), time, |txs|), start, a, txs, peers,
        gen(doc, GentxListing(start, a, txs, 0)).value, time)
  {
    CollectionOutcome(start, delivered, a, txs, gen, doc);
    if ok && |txs| > 0 {
      assert Some(states[0]) == StateOf(delivered, a, gen, 0) == gen(doc, GentxListing(start, a, txs, 0));
      AllNodesComplete(start, delivered, a, txs, doc, peers, FirstOf(states), time);
    }
  }

  // ---- A running testnet ----

  function FileOf(a: Args, i: int, rest: seq<string>): Path
  {
    a.out + [a.prefix + Itoa(i)] + rest
  }

  /** The configuration of node i as it is found in its file. */
  ghost predicate ConfigFound(files: Files, a: Args, i: int, c: NodeConfig)
  {
    var p := FileOf(a, i, ["config", "config.toml"]);
    p in files && files[p] == Config(c)
  }

  /** Node i's own names and addresses. */
  ghost predicate Listens(a: Args, i: int, c: NodeConfig)
  {
    && c.moniker == a.prefix + Itoa(i)
    && c.rootDir == a.out + [a.prefix + Itoa(i)]
    && c.rpcListen == "tcp://127.0.0.1:" + (if i in a.ports then a.ports[i] else "")
    && c.p2pListen == "tcp://0.0.0.0:" + Itoa(26656 - 3 * i)
    && c.proxyApp == "tcp://127.0.0.1:" + Itoa(26658 - 3 * i)
    && c.prometheusListen == ":" + Itoa(26660 + i)
    && c.prometheus && c.allowDuplicateIP
  }

  ghost predicate AppServes(files: Files, a: Args, i: int)
  {
    var p := FileOf(a, i, ["config", "app.toml"]);
    p in files && files[p] == AppConfig(a.ip + ":" + Itoa(9090 - 2 * i), "tcp://localhost:" + Itoa(1317 - i))
  }

  ghost predicate HasTx(files: Files, a: Args, txs: seq<string>, i: int, j: int)
    requires |txs| == |a.ids| && 0 <= j < |txs|
  {
    var p := FileOf(a, i, ["config", "gentx", "gentx-" + a.ids[j] + ".json"]);
    p in files && files[p] == Gentx(txs[j])
  }

  /** Node i can be started: its configuration, its application configuration and all transactions are there. */
  ghost predicate NodeServes(files: Files, a: Args, txs: seq<string>, i: int)
    requires |txs| == |a.ids|
  {
    && (exists c {:trigger ConfigFound(files, a, i, c)} :: ConfigFound(files, a, i, c) && Listens(a, i, c))
    && AppServes(files, a, i)
    && forall j {:trigger HasTx(files, a, txs, i, j)} :: 0 <= j < |txs| ==> HasTx(files, a, txs, i, j)
  }

  ghost predicate NodesServe(files: Files, a: Args, txs: seq<string>)
    requires |txs| == |a.ids|
  {
    forall i {:trigger NodeServes(files, a, txs, i)} :: 0 <= i < |txs| ==> NodeServes(files, a, txs, i)
  }

  /** The host and the node IDs contain none of the characters that peer addresses are read by. */
  ghost predicate PeersReadable(a: Args)
  {
    ',' !in a.ip && forall i :: 0 <= i < |a.ids| ==> ',' !in a.ids[i] && '@' !in a.ids[i]
  }

  /** The i-th peer that node j is told of, as it is read, is node i at the port where node i listens. */
  ghost predicate Reaches(a: Args, i: int, own: NodeConfig, others: NodeConfig)
    requires 0 <= i < |a.ids|
  {
    var entries := Split(others.persistentPeers, ',');
    && |entries| == |a.ids|
    && match ParsePeer(entries[i])
       case None => false
       case Some(peer) =>
         peer.id == a.ids[i] && peer.host == a.ip && own.p2pListen == "tcp://0.0.0.0:" + Itoa(peer.port)
  }

  /** Every node is told of every node. */
  ghost predicate PeersReach(files: Files, a: Args)
  {
    forall i, j, own, others {:trigger ConfigFound(files, a, i, own), ConfigFound(files, a, j, others)} ::
      0 <= i < |a.ids| && 0 <= j < |a.ids| && ConfigFound(files, a, i, own) && ConfigFound(files, a, j, others) ==>
        Reaches(a, i, own, others)
  }

  lemma FilesAre(a: Args, i: int)
    ensures FileOf(a, i, ["config", "config.toml"]) == ConfigPath(a, i)
    ensures FileOf(a, i, ["config", "app.toml"]) == AppConfigPath(a, i)
    ensures forall j :: 0 <= j < |a.ids| ==>
      FileOf(a, i, ["config", "gentx", "gentx-" + a.ids[j] + ".json"]) == GentxPath(a, i, j)
  {
    forall j | 0 <= j < |a.ids|
      ensures FileOf(a, i, ["config", "gentx", "gentx-" + a.ids[j] + ".json"]) == GentxPath(a, i, j)
    {
      assert GentxPath(a, i, j) == NodeDir(a, i) + ["config", "gentx"] + [GentxName(a.ids[j])];
    }
  }

  /** The application configurations that the per-node loop wrote are still there at the end. */
  ghost predicate AppsWritten(files: Files, a: Args, n: int)
  {
    forall i {:trigger AppConfigPath(a, i)} :: 0 <= i < n ==>
      AppConfigPath(a, i) in files && files[AppConfigPath(a, i)] == NodeAppConfig(a, i)
  }

  lemma AppPathsDiffer(a: Args, i: int, k: int)
    ensures AppConfigPath(a, i) != ConfigPath(a, k) && AppConfigPath(a, i) != GenesisPath(a, k)
    ensures AppConfigPath(a, i) == AppConfigPath(a, k) ==> i == k
    ensures |AppConfigPath(a, i)| == |a.out| + 3
  {
    NodeOf(a, i, ["config", "app.toml"]);
    NodeOf(a, k, ["config", "app.toml"]);
    NodeOf(a, k, ["config", "config.toml"]);
    NodeOf(a, k, ["config", "genesis.json"]);
    assert ["config", "app.toml"][1] != ["config", "config.toml"][1];
    assert ["config", "app.toml"][1] != ["config", "genesis.json"][1];
    if AppConfigPath(a, i) == AppConfigPath(a, k) { NodeNamesDiffer(a, i, k); }
  }

  lemma {:induction false} AppsWrittenAt(files: Files, a: Args, txs: seq<string>, n: nat)
    requires |txs| == |a.ids| && n <= |txs|
    ensures AppsWritten(NodesWritten(files, a, txs, n), a, n)
    decreases n
  {
    if n > 0 {
      AppsWrittenAt(files, a, txs, n - 1);
      forall i {:trigger AppConfigPath(a, i)} | 0 <= i < n
        ensures AppConfigPath(a, i) in NodesWritten(files, a, txs, n)
        ensures NodesWritten(files, a, txs, n)[AppConfigPath(a, i)] == NodeAppConfig(a, i)
      {
        AppPathsDiffer(a, i, n - 1);
        assert |GentxPath(a, n - 1, n - 1)| == |a.out| + 4;
      }
    }
  }

  lemma {:induction false} AppSaved(files: Files, a: Args, doc: Data, n: nat, i: int)
    ensures SameFile(GenesisSaved(files, a, doc, n), AppConfigPath(a, i), files, AppConfigPath(a, i))
    decreases n
  {
    if n > 0 {
      AppSaved(files, a, doc, n - 1, i);
      AppPathsDiffer(a, i, n - 1);
    }
  }

  lemma AppsCollected(start: Files, delivered: Files, a: Args, txs: seq<string>, doc: Data, peers: string,
      appState: string, time: int)
    requires |txs| == |a.ids| && DeliveredTo(delivered, SavedFiles(start, a, txs, doc), a, txs, |txs|, 0)
    ensures AppsWritten(Collected(delivered, a, peers, appState, time, |txs|), a, |txs|)
  {
    AppsWrittenAt(start, a, txs, |txs|);
    forall i {:trigger AppConfigPath(a, i)} | 0 <= i < |txs|
      ensures AppConfigPath(a, i) in Collected(delivered, a, peers, appState, time, |txs|)
      ensures Collected(delivered, a, peers, appState, time, |txs|)[AppConfigPath(a, i)] == NodeAppConfig(a, i)
    {
      AppSaved(NodesWritten(start, a, txs, |txs|), a, doc, |txs|, i);
      AppPathsDiffer(a, i, i);
      NotATarget(a, AppConfigPath(a, i));
      forall k | 0 <= k < |txs|
        ensures AppConfigPath(a, i) != ConfigPath(a, k) && AppConfigPath(a, i) != GenesisPath(a, k)
      {
        AppPathsDiffer(a, i, k);
      }
      CollectedElsewhere(delivered, a, peers, appState, time, |txs|, AppConfigPath(a, i));
    }
  }

  lemma TxFound(files: Files, start: Files, a: Args, txs: seq<string>, i: int, j: int)
    requires Usable(a) && |txs| == |a.ids| && 0 <= i < |txs| && 0 <= j < |txs|
    requires FilesIn(files, GentxDir(a, i)) == GentxListing(start, a, txs, i)
    ensures HasTx(files, a, txs, i, j)
  {
    FilesAre(a, i);
    AllGentxsAt(a, txs, |txs|, j);
    FilesInAt(files, GentxDir(a, i), GentxName(a.ids[j]));
  }

  lemma AllServe(files: Files, start: Files, a: Args, txs: seq<string>, peers: string, appState: string, time: int)
    requires Usable(a) && |txs| == |a.ids| && AppsWritten(files, a, |txs|)
    requires AllComplete(files, start, a, txs, peers, appState, time)
    ensures NodesServe(files, a, txs)
  {
    forall i {:trigger NodeServes(files, a, txs, i)} | 0 <= i < |txs| ensures NodeServes(files, a, txs, i) {
      assert NodeComplete(files, start, a, txs, peers, appState, time, i);
      NodeFound(files, a, peers, i);
      forall j {:trigger HasTx(files, a, txs, i, j)} | 0 <= j < |txs| ensures HasTx(files, a, txs, i, j) {
        TxFound(files, start, a, txs, i, j);
      }
    }
  }

  lemma NodeFound(files: Files, a: Args, peers: string, i: int)
    requires 0 <= i < |a.ids| && AppsWritten(files, a, |a.ids|)
    requires ConfigPath(a, i) in files && files[ConfigPath(a, i)] == Config(NodeConfigOf(a, peers, i))
    ensures AppServes(files, a, i)
    ensures exists c {:trigger ConfigFound(files, a, i, c)} :: ConfigFound(files, a, i, c) && Listens(a, i, c)
  {
    FilesAre(a, i);
    assert ConfigFound(files, a, i, NodeConfigOf(a, peers, i)) && Listens(a, i, NodeConfigOf(a, peers, i));
  }

  lemma AllReach(files: Files, start: Files, a: Args, txs: seq<string>, peers: string, appState: string, time: int)
    requires Usable(a) && |txs| == |a.ids| && |txs| > 0 && peers == Join(Memos(a, |txs|), ',')
    requires AllComplete(files, start, a, txs, peers, appState, time)
    ensures PeersReadable(a) ==> PeersReach(files, a)
  {
    if PeersReadable(a) {
      PeersRoundTrip(a, |txs|);
      forall i, j, own, others {:trigger ConfigFound(files, a, i, own), ConfigFound(files, a, j, others)}
        | 0 <= i < |a.ids| && 0 <= j < |a.ids| && ConfigFound(files, a, i, own) && ConfigFound(files, a, j, others)
        ensures Reaches(a, i, own, others)
      {
        assert NodeComplete(files, start, a, txs, peers, appState, time, i);
        assert NodeComplete(files, start, a, txs, peers, appState, time, j);
        FilesAre(a, i);
        FilesAre(a, j);
      }
    }
  }

  /** The genesis balances are the accounts' in order, each with the same two amounts. */
  lemma {:induction false} BalanceAt(addresses: seq<string>, i: nat)
    requires i < |addresses|
    ensures |AccountBalances(addresses)| == |addresses|
    ensures AccountBalances(addresses)[i] ==
      GenesisSupply.Balance(addresses[i], [GenesisSupply.Coin(GenesisSupply.TESTTOKEN, 1_000_000_000),
                                           GenesisSupply.Coin(GenesisSupply.UJAY, 500_000_000)])
    decreases |addresses|
  {
    GenesisSupply.AccountCoinsSorted();
    BalancesAreCanonical(addresses);
    var n := |addresses| - 1;
    BalancesAreCanonical(addresses[..n]);
    if i < n { BalanceAt(addresses[..n], i); }
  }
}
