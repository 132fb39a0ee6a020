/**
 * `NDBContextManager`: the per-test fixture object. Construction picks the
 * database and the NDB source from the pytest parameter and the environment,
 * reserves three IPv4 blocks and one IPv6 block, and (as root) creates a
 * dummy interface. Tests register interfaces, namespaces, rules and networks
 * for cleanup and draw addresses from the reserved blocks; `teardown` removes
 * what was registered and gives back the IPv4 blocks and the registered
 * networks, but not the IPv6 block (`Cleanup.TeardownAsWrittenLeaksIp6Net`).
 *
 * Generated names, uuids, interface indices and the blocks the allocator
 * returns are parameters, so each call is a function of what it is given.
 */
module Context {
  import opened Common
  import Dicts
  import opened Matrix
  import opened Cleanup

  /** `logging.DEBUG` */
  const DEBUG: int := 10

  /** First IPv6 offset handed out: `itertools.count(1024)`. */
  const Ip6Start: nat := 1024

  /** `(path, level)`, the NDB `log` argument. */
  datatype LogSpec = LogSpec(path: string, level: int)

  /** One entry of the NDB `sources` argument. */
  datatype Source = Source(target: string, kind: string, netns: Option<string>)

  /** The `Interface` and `Network` named tuples. */
  datatype Interface = Interface(index: int, ifname: string)
  datatype Network = Network(family: int, network: string, netmask: nat)

  /**
   * `request.param`: absent, a `ContextParams`, a two-element tuple or list
   * `(target, table)`, or any other value, taken as the target.
   */
  datatype RequestParam =
    | NoParam
    | MatrixParam(params: ContextParams)
    | PairParam(target: string, table: Option<string>)
    | ScalarParam(target: string)

  /** The keyword arguments the caller passed through to NDB that the fixture looks at. */
  datatype Kwargs = Kwargs(log: Option<LogSpec>, rtnlDebug: Option<bool>, sources: Option<seq<Source>>)

  /** The keyword arguments NDB is created with. */
  datatype NdbConfig = NdbConfig(log: LogSpec, rtnlDebug: bool, dbProvider: string, dbSpec: DbSpec, sources: Option<seq<Source>>)

  /** The process environment: tmpdir fixture, pid as text, login name, PYROUTE2_TEST_DBNAME. */
  datatype Env = Env(tmpdir: string, pid: string, user: string, testDbName: Option<string>)

  /** Values the constructor draws from uuid4, uifname, NDB and the allocator. */
  datatype InitOracle = InitOracle(
    uid: string, nsName: string, ifName: string, ifIndex: int,
    net0: Block, net1: Block, net2: Block, ip6net: Block)

  // ---------------------------------------------------------------------
  // Log files

  function LogBase(tmpdir: string, pid: string): string {
    tmpdir + "/ndb-" + pid
  }

  function LogPath(logBase: string, uid: string): string {
    logBase + "-" + uid + ".log"
  }

  /** Two contexts with the same base but different uids never share a log file. */
  lemma LogPathInjective(logBase: string, u1: string, u2: string)
    requires LogPath(logBase, u1) == LogPath(logBase, u2)
    ensures u1 == u2
  {
    var p := LogPath(logBase, u1);
    var k := |logBase| + 1;
    assert |u1| == |u2|;
    assert p[k..k + |u1|] == u1;
    assert p[k..k + |u2|] == u2;
  }

  /** `new_log`: `uid or str(uuid4())`, so an empty uid falls back to the generated one. */
  function NewLogPath(logBase: string, uid: Option<string>, generated: string): (p: string)
    ensures uid.Some? && uid.value != "" ==> p == LogPath(logBase, uid.value)
    ensures uid.None? || uid.value == "" ==> p == LogPath(logBase, generated)
  {
    match uid
    case Some(u) => if u != "" then LogPath(logBase, u) else LogPath(logBase, generated)
    case None => LogPath(logBase, generated)
  }

  // ---------------------------------------------------------------------
  // The NDB configuration

  /** What the request parameter selects: target, table, kind, provider and spec. */
  datatype Selection = Selection(target: string, table: Option<string>, kind: Option<string>, dbProvider: string, dbSpec: DbSpec)

  function Select(request: RequestParam): (sel: Selection)
    ensures !request.MatrixParam? ==> sel.dbProvider == "sqlite3" && sel.dbSpec == DbPath(":memory:") && sel.kind == None
    ensures request.NoParam? ==> sel.target == "local" && sel.table == None
    ensures request.PairParam? ==> sel.target == request.target && sel.table == request.table
    ensures request.ScalarParam? ==> sel.target == request.target && sel.table == None
    ensures request.MatrixParam? ==> sel == Selection(request.params.target, request.params.table,
                                                       request.params.kind, request.params.dbProvider, request.params.dbSpec)
  {
    match request
    case NoParam => Selection("local", None, None, "sqlite3", DbPath(":memory:"))
    case MatrixParam(p) => Selection(p.target, p.table, p.kind, p.dbProvider, p.dbSpec)
    case PairParam(t, tb) => Selection(t, tb, None, "sqlite3", DbPath(":memory:"))
    case ScalarParam(t) => Selection(t, None, None, "sqlite3", DbPath(":memory:"))
  }

  /** PYROUTE2_TEST_DBNAME is set to a non-empty string. */
  predicate UsesTestDb(env: Env) {
    env.testDbName.Some? && env.testDbName.value != ""
  }

  /** The NDB arguments, field by field. */
  function ConfigFor(request: RequestParam, env: Env, kw: Kwargs, uid: string, nsName: string): (c: NdbConfig)
    ensures Select(request).target == "local" ==> c.sources == Some([Source("localhost", "local", None)])
    ensures Select(request).target == "netns" ==> c.sources == Some([Source("localhost", "netns", Some(nsName))])
    ensures Select(request).target != "local" && Select(request).target != "netns" ==> c.sources == kw.sources
  {
    var sel := Select(request);
    NdbConfig(
      if kw.log.Some? then kw.log.value else LogSpec(LogPath(LogBase(env.tmpdir, env.pid), uid), DEBUG),
      if kw.rtnlDebug.Some? then kw.rtnlDebug.value else true,
      if UsesTestDb(env) then "psycopg2" else sel.dbProvider,
      if UsesTestDb(env) then DbConn(map["dbname" := Text(env.testDbName.value)]) else sel.dbSpec,
      if sel.target == "local" then Some([Source("localhost", "local", None)])
      else if sel.target == "netns" then Some([Source("localhost", "netns", Some(nsName))])
      else kw.sources)
  }

  /**
   * PYROUTE2_TEST_DBNAME beats whatever database the parameter chose; without
   * it the parameter's database is used, and sqlite3 in memory by default.
   */
  lemma ConfigDatabase(request: RequestParam, env: Env, kw: Kwargs, uid: string, nsName: string)
    ensures UsesTestDb(env) ==>
      && ConfigFor(request, env, kw, uid, nsName).dbProvider == "psycopg2"
      && ConfigFor(request, env, kw, uid, nsName).dbSpec == DbConn(map["dbname" := Text(env.testDbName.value)])
    ensures !UsesTestDb(env) && request.MatrixParam? ==>
      && ConfigFor(request, env, kw, uid, nsName).dbProvider == request.params.dbProvider
      && ConfigFor(request, env, kw, uid, nsName).dbSpec == request.params.dbSpec
    ensures !UsesTestDb(env) && !request.MatrixParam? ==>
      && ConfigFor(request, env, kw, uid, nsName).dbProvider == "sqlite3"
      && ConfigFor(request, env, kw, uid, nsName).dbSpec == DbPath(":memory:")
  {
  }

  /**
   * The caller's log and rtnl_debug are kept; otherwise the context's own log
   * file at DEBUG level and rtnl_debug on.
   */
  lemma ConfigLogging(request: RequestParam, env: Env, kw: Kwargs, uid: string, nsName: string)
    ensures kw.log.Some? ==> ConfigFor(request, env, kw, uid, nsName).log == kw.log.value
    ensures kw.log.None? ==> ConfigFor(request, env, kw, uid, nsName).log == LogSpec(LogPath(LogBase(env.tmpdir, env.pid), uid), DEBUG)
    ensures ConfigFor(request, env, kw, uid, nsName).rtnlDebug == (kw.rtnlDebug.None? || kw.rtnlDebug.value)
  {
  }

  /**
   * The constructor's handling of its keyword arguments, step by step: the
   * defaults, the request parameter, the source for the target (naming
   * the namespace a netns target runs in) and the PYROUTE2_TEST_DBNAME override.
   */
  method Configure(request: RequestParam, env: Env, kw: Kwargs, uid: string, nsName: string)
    returns (sel: Selection, ns: Option<string>, config: NdbConfig)
    ensures sel == Select(request)
    ensures ns == (if sel.target == "netns" then Some(nsName) else None)
    ensures config == ConfigFor(request, env, kw, uid, nsName)
  {
    var log := if kw.log.Some? then kw.log.value else LogSpec(LogPath(LogBase(env.tmpdir, env.pid), uid), DEBUG);
    var rtnlDebug := if kw.rtnlDebug.Some? then kw.rtnlDebug.value else true;

    var target := "local";
    var table: Option<string> := None;
    var kind: Option<string> := None;
    var provider := "sqlite3";
    var spec := DbPath(":memory:");
    match request {
      case NoParam =>
      case MatrixParam(p) =>
        target, table, kind, provider, spec := p.target, p.table, p.kind, p.dbProvider, p.dbSpec;
      case PairParam(t, tb) =>
        target, table := t, tb;
      case ScalarParam(t) =>
        target := t;
    }
    sel := Selection(target, table, kind, provider, spec);

    ns := None;
    var sources := kw.sources;
    if target == "local" {
      sources := Some([Source("localhost", "local", None)]);
    } else if target == "netns" {
      ns := Some(nsName);
      sources := Some([Source("localhost", "netns", ns)]);
    }

    if env.testDbName.Some? && |env.testDbName.value| > 0 {
      provider := "psycopg2";
      spec := DbConn(map["dbname" := Text(env.testDbName.value)]);
    }
    config := NdbConfig(log, rtnlDebug, provider, spec, sources);
  }

  // ---------------------------------------------------------------------
  // The IPv4 address pools

  ghost predicate Distinct(nets: seq<Block>) {
    forall i, j :: 0 <= i < j < |nets| ==> nets[i] != nets[j]
  }

  /** Every remaining range is an initial part of its block's addresses: `pop` takes from the end. */
  ghost predicate PoolsValid(nets: seq<Block>, ranges: seq<seq<Address>>) {
    |ranges| == |nets|
    && forall r :: 0 <= r < |nets| ==> |ranges[r]| <= nets[r].size && ranges[r] == Addresses(nets[r])[..|ranges[r]|]
  }

  /** Fresh blocks: every address of each block is still available. */
  lemma InitialPools(nets: seq<Block>)
    ensures PoolsValid(nets, seq(|nets|, r requires 0 <= r < |nets| => Addresses(nets[r])))
  {
    var ranges := seq(|nets|, r requires 0 <= r < |nets| => Addresses(nets[r]));
    forall r | 0 <= r < |nets| ensures ranges[r] == Addresses(nets[r])[..|ranges[r]|] {
      assert Addresses(nets[r])[..nets[r].size] == Addresses(nets[r]);
    }
  }

  /** The constructor's three blocks, each with all its addresses available. */
  lemma InitialPoolsOfThree(n0: Block, n1: Block, n2: Block)
    requires n0 != n1 && n0 != n2 && n1 != n2
    ensures Distinct([n0, n1, n2])
    ensures PoolsValid([n0, n1, n2], [Addresses(n0), Addresses(n1), Addresses(n2)])
  {
    InitialPools([n0, n1, n2]);
    assert [Addresses(n0), Addresses(n1), Addresses(n2)] == seq(3, r requires 0 <= r < 3 => Addresses([n0, n1, n2][r]));
  }

  /** `ipranges[r].pop()`: the address taken and the ranges left, or IndexError. */
  function Take(ranges: seq<seq<Address>>, r: int): (res: Result<(Address, seq<seq<Address>>), Exc>)
    ensures res.Failure? <==> PyIndex(r, |ranges|).None? || ranges[PyIndex(r, |ranges|).value] == []
    ensures res.Failure? ==> res.error == IndexError
  {
    match PyIndex(r, |ranges|)
    case None => Failure(IndexError)
    case Some(k) =>
      var range := ranges[k];
      if range == [] then Failure(IndexError)
      else Success((range[|range| - 1], ranges[k := range[..|range| - 1]]))
  }

  /**
   * Taking from valid pools yields the last remaining address of the chosen
   * block, which is then in no range any more, so it cannot be handed out
   * again; every other remaining address stays where it was.
   */
  lemma TakeFromPools(nets: seq<Block>, ranges: seq<seq<Address>>, r: int)
    requires PoolsValid(nets, ranges) && Distinct(nets)
    requires Take(ranges, r).Success?
    ensures PoolsValid(nets, Take(ranges, r).value.1)
    ensures var k := PyIndex(r, |ranges|).value;
      Take(ranges, r).value.0 == Address(nets[k], |ranges[k]| - 1)
      && |Take(ranges, r).value.1[k]| == |ranges[k]| - 1
    ensures forall j :: 0 <= j < |ranges| ==> Take(ranges, r).value.0 !in Take(ranges, r).value.1[j]
    ensures forall j :: 0 <= j < |ranges| && j != PyIndex(r, |ranges|).value ==> Take(ranges, r).value.1[j] == ranges[j]
  {
    var k := PyIndex(r, |ranges|).value;
    var (a, rest) := Take(ranges, r).value;
    var n := |ranges[k]| - 1;
    assert a == ranges[k][n] == Addresses(nets[k])[n];
    assert rest[k] == Addresses(nets[k])[..n];
    forall j, i | 0 <= j < |ranges| && 0 <= i < |rest[j]| ensures rest[j][i] != a {
      assert rest[j][i] == Addresses(nets[j])[i];
      if j != k {
        assert nets[j] != nets[k];
      }
    }
  }

  /** `ip6net[next(ip6counter)]`: the address at that offset, or IndexError past the end of the block. */
  function Ip6At(net: Block, offset: nat): (res: Result<Address, Exc>)
    ensures res.Success? <==> offset < net.size
    ensures res.Success? ==> res.value == Address(net, offset) && res.value in Addresses(net)
    ensures res.Failure? ==> res.error == IndexError
  {
    if offset < net.size then Success(Address(net, offset)) else Failure(IndexError)
  }

  /** `sys.version_info >= (3, 7)` */
  predicate AtLeast37(pyVersion: (nat, nat)) {
    pyVersion.0 > 3 || (pyVersion.0 == 3 && pyVersion.1 >= 7)
  }

  /** The namespace registry right after construction: the netns target's namespace, if any. */
  function InitialNamespaces(ns: Option<string>): (d: Dicts.Dict<string, ()>)
    ensures Dicts.Valid(d)
    ensures d.keys == (if ns.Some? then [ns.value] else [])
    ensures ns.Some? ==> ns.value in d.entries
  {
    if ns.Some? then Dicts.Put(Dicts.Empty(), ns.value, ()) else Dicts.Empty()
  }

  /** The interface registry right after construction: as root, the default dummy interface. */
  function InitialInterfaces(root: bool, ifName: string): (d: Dicts.Dict<string, Option<string>>)
    ensures Dicts.Valid(d)
    ensures d.keys == (if root then [ifName] else [])
    ensures root ==> d.entries[ifName] == None
  {
    if root then Dicts.Put(Dicts.Empty(), ifName, None) else Dicts.Empty()
  }

  // ---------------------------------------------------------------------
  // The fixture object

  class ContextManager {
    const uid: string
    const logBase: string
    const logSpec: LogSpec
    const netns: Option<string>
    const table: Option<string>
    const kind: Option<string>
    const dbProvider: string
    /** The arguments the NDB under test was created with. */
    const config: NdbConfig
    const ipnets: seq<Block>
    const ip6net: Block
    const defaultInterface: Interface

    /** Cleanup registries: interface name to its namespace, namespaces, rules, networks by family. */
    var interfaces: Dicts.Dict<string, Option<string>>
    var namespaces: Dicts.Dict<string, ()>
    var rules: seq<(Option<string>, RuleSpec)>
    var allocatedNetworks: map<int, seq<Block>>

    /** Address pools: what is left of each IPv4 block, the next IPv6 offset. */
    var ipranges: seq<seq<Address>>
    var ip6counter: nat

    /** Addresses already handed out. */
    ghost var issued: set<Address>
    ghost var issued6: set<Address>

    ghost predicate Valid()
      reads this
    {
      && Dicts.Valid(interfaces)
      && Dicts.Valid(namespaces)
      && |ipnets| == 3 && Distinct(ipnets) && PoolsValid(ipnets, ipranges)
      && (forall a, j :: a in issued && 0 <= j < |ipranges| ==> a !in ipranges[j])
      && ip6counter >= Ip6Start
      && (forall a :: a in issued6 ==> a.block == ip6net && a.offset < ip6counter)
      && allocatedNetworks.Keys == {AF_INET, AF_INET6}
      && (netns.Some? ==> netns.value in namespaces.entries)
    }

    constructor (request: RequestParam, env: Env, kw: Kwargs, o: InitOracle)
      requires o.net0 != o.net1 && o.net0 != o.net2 && o.net1 != o.net2
      ensures Valid()
      ensures uid == o.uid && logBase == LogBase(env.tmpdir, env.pid)
      ensures logSpec == LogSpec(LogPath(logBase, uid), DEBUG)
      ensures config == ConfigFor(request, env, kw, o.uid, o.nsName)
      ensures dbProvider == config.dbProvider
      ensures table == Select(request).table && kind == Select(request).kind
      ensures Select(request).target == "netns" ==> netns == Some(o.nsName) && namespaces.keys == [o.nsName]
      ensures Select(request).target != "netns" ==> netns == None && namespaces.keys == []
      ensures ipnets == [o.net0, o.net1, o.net2] && ipranges == [Addresses(o.net0), Addresses(o.net1), Addresses(o.net2)]
      ensures ip6net == o.ip6net && ip6counter == Ip6Start
      ensures allocatedNetworks == map[AF_INET := [], AF_INET6 := []] && rules == []
      ensures env.user == "root" ==>
        interfaces.keys == [o.ifName] && interfaces.entries[o.ifName] == None && defaultInterface == Interface(o.ifIndex, o.ifName)
      ensures env.user != "root" ==> interfaces.keys == [] && defaultInterface == Interface(1, "lo")
      ensures issued == {} && issued6 == {}
    {
      uid := o.uid;
      logBase := LogBase(env.tmpdir, env.pid);
      logSpec := LogSpec(LogPath(LogBase(env.tmpdir, env.pid), o.uid), DEBUG);
      var sel, ns, cfg := Configure(request, env, kw, o.uid, o.nsName);
      netns, table, kind := ns, sel.table, sel.kind;
      dbProvider := cfg.dbProvider;
      config := cfg;

      ipnets := [o.net0, o.net1, o.net2];
      ipranges := [Addresses(o.net0), Addresses(o.net1), Addresses(o.net2)];
      InitialPoolsOfThree(o.net0, o.net1, o.net2);
      ip6net := o.ip6net;
      ip6counter := Ip6Start;
      allocatedNetworks := map[AF_INET := [], AF_INET6 := []];
      rules := [];
      namespaces := InitialNamespaces(ns);

      interfaces := InitialInterfaces(env.user == "root", o.ifName);
      if env.user == "root" {
        defaultInterface := Interface(o.ifIndex, o.ifName);
      } else {
        defaultInterface := Interface(1, "lo");
      }
      issued, issued6 := {}, {};
    }

    /** `register(ifname, netns)`: a missing name is replaced by a generated one. */
    method Register(ifname: Option<string>, ns: Option<string>, generated: string) returns (name: string)
      requires Valid()
      modifies this`interfaces
      ensures Valid()
      ensures name == (if ifname.Some? then ifname.value else generated)
      ensures interfaces == Dicts.Put(old(interfaces), name, ns)
    {
      name := if ifname.Some? then ifname.value else generated;
      interfaces := Dicts.Put(interfaces, name, ns);
    }

    /** `register_netns(netns)`: a missing name is replaced by a generated one. */
    method RegisterNetns(ns: Option<string>, generated: string) returns (name: string)
      requires Valid()
      modifies this`namespaces
      ensures Valid()
      ensures name == (if ns.Some? then ns.value else generated)
      ensures namespaces == Dicts.Put(old(namespaces), name, ())
    {
      name := if ns.Some? then ns.value else generated;
      namespaces := Dicts.Put(namespaces, name, ());
    }

    /** `register_rule(spec, netns)` */
    method RegisterRule(spec: RuleSpec, ns: Option<string>) returns (r: RuleSpec)
      requires Valid()
      modifies this`rules
      ensures Valid()
      ensures r == spec
      ensures rules == old(rules) + [(ns, spec)]
    {
      rules := rules + [(ns, spec)];
      r := spec;
    }

    /** What teardown must give back, whatever the Python version. */
    function Outstanding(): multiset<(Block, int)>
      reads this
      requires Valid()
    {
      Obligations(Pending(false))
    }

    /**
     * `register_network(family, network)`: a missing network is allocated for
     * the family (`allocation` is what `allocate_network` returns or raises,
     * and an exception it raises leaves the method); a family other than
     * AF_INET and AF_INET6 raises KeyError after the allocation.
     */
    method RegisterNetwork(family: int, network: Option<Block>, allocation: Result<Block, Exc>)
      returns (res: Result<Network, Exc>)
      requires Valid()
      modifies this`allocatedNetworks
      ensures Valid()
      ensures network.None? && allocation.Failure? ==>
        res == Failure(allocation.error) && allocatedNetworks == old(allocatedNetworks)
      ensures network.Some? || allocation.Success? ==>
        var net := if network.Some? then network.value else allocation.value;
        if family == AF_INET || family == AF_INET6 then
          && res == Success(Network(family, net.network, net.prefixlen))
          && allocatedNetworks == old(allocatedNetworks)[family := old(allocatedNetworks)[family] + [net]]
          && Outstanding() == old(Outstanding()) + multiset{(net, family)}
        else
          res == Failure(KeyError) && allocatedNetworks == old(allocatedNetworks)
    {
      var net: Block;
      if network.Some? {
        net := network.value;
      } else if allocation.Failure? {
        return Failure(allocation.error);
      } else {
        net := allocation.value;
      }
      if family !in allocatedNetworks {
        return Failure(KeyError);
      }
      ghost var before := Pending(false);
      allocatedNetworks := allocatedNetworks[family := allocatedNetworks[family] + [net]];
      ObligationsGrow(before, net);
      if family == AF_INET {
        assert Pending(false) == before.(v4nets := before.v4nets + [net]);
      } else {
        assert Pending(false) == before.(v6nets := before.v6nets + [net]);
      }
      return Success(Network(family, net.network, net.prefixlen));
    }

    /** `get_ipaddr(r)`: pops the last remaining address of range r. */
    method GetIpAddr(r: int) returns (res: Result<Address, Exc>)
      requires Valid()
      modifies this`ipranges, this`issued
      ensures Valid()
      ensures Take(old(ipranges), r).Failure? ==>
        res == Failure(IndexError) && ipranges == old(ipranges) && issued == old(issued)
      ensures Take(old(ipranges), r).Success? ==>
        && res == Success(Take(old(ipranges), r).value.0)
        && ipranges == Take(old(ipranges), r).value.1
      ensures res.Success? ==> res.value !in old(issued) && issued == old(issued) + {res.value}
    {
      var k := PyIndex(r, |ipranges|);
      if k.None? || |ipranges[k.value]| == 0 {
        return Failure(IndexError);
      }
      var range := ipranges[k.value];
      var a := range[|range| - 1];
      TakeFromPools(ipnets, ipranges, r);
      assert a in ipranges[k.value];
      ipranges := ipranges[k.value := range[..|range| - 1]];
      issued := issued + {a};
      return Success(a);
    }

    /** `get_ip6addr(r)`: r is ignored; the counter advances even when the index is past the block. */
    method GetIp6Addr(r: int) returns (res: Result<Address, Exc>)
      requires Valid()
      modifies this`ip6counter, this`issued6
      ensures Valid()
      ensures ip6counter == old(ip6counter) + 1
      ensures res == Ip6At(ip6net, old(ip6counter))
      ensures res.Success? ==> res.value !in old(issued6) && issued6 == old(issued6) + {res.value}
      ensures res.Failure? ==> issued6 == old(issued6)
    {
      var offset := ip6counter;
      ip6counter := ip6counter + 1;
      if offset < ip6net.size {
        issued6 := issued6 + {Address(ip6net, offset)};
        return Success(Address(ip6net, offset));
      }
      return Failure(IndexError);
    }

    /** The `new_log` property: uid is always absent, so the generated one names the file. */
    function NewLog(generated: string): (p: string)
      ensures p == NewLogPath(logBase, None, generated)
    {
      LogPath(logBase, generated)
    }

    /** The `new_ifname` property. */
    method NewIfname(generated: string) returns (name: string)
      requires Valid()
      modifies this`interfaces
      ensures Valid()
      ensures name == generated && interfaces == Dicts.Put(old(interfaces), generated, None)
    {
      name := Register(None, None, generated);
    }

    /** The `new_nsname` property. */
    method NewNsname(generated: string) returns (name: string)
      requires Valid()
      modifies this`namespaces
      ensures Valid()
      ensures name == generated && namespaces == Dicts.Put(old(namespaces), generated, ())
    {
      name := RegisterNetns(None, generated);
    }

    /** The `new_ipaddr` property. */
    method NewIpaddr() returns (res: Result<Address, Exc>)
      requires Valid()
      modifies this`ipranges, this`issued
      ensures Valid()
      ensures Take(old(ipranges), 0).Failure? ==> res == Failure(IndexError) && ipranges == old(ipranges)
      ensures Take(old(ipranges), 0).Success? ==>
        res == Success(Take(old(ipranges), 0).value.0) && ipranges == Take(old(ipranges), 0).value.1
      ensures res.Success? ==> res.value !in old(issued) && issued == old(issued) + {res.value}
      ensures res.Failure? ==> issued == old(issued)
    {
      res := GetIpAddr(0);
    }

    /** The `new_ip6addr` property. */
    method NewIp6addr() returns (res: Result<Address, Exc>)
      requires Valid()
      modifies this`ip6counter, this`issued6
      ensures Valid()
      ensures ip6counter == old(ip6counter) + 1 && res == Ip6At(ip6net, old(ip6counter))
      ensures res.Success? ==> res.value !in old(issued6) && issued6 == old(issued6) + {res.value}
      ensures res.Failure? ==> issued6 == old(issued6)
    {
      res := GetIp6Addr(0);
    }

    /**
     * The `new_ip4net` property: raises only what `allocate_network` raises,
     * never KeyError, since AF_INET is a known family.
     */
    method NewIp4net(allocation: Result<Block, Exc>) returns (res: Result<Network, Exc>)
      requires Valid()
      modifies this`allocatedNetworks
      ensures Valid()
      ensures allocation.Failure? ==> res == Failure(allocation.error) && allocatedNetworks == old(allocatedNetworks)
      ensures allocation.Success? ==>
        && res == Success(Network(AF_INET, allocation.value.network, allocation.value.prefixlen))
        && allocatedNetworks == old(allocatedNetworks)[AF_INET := old(allocatedNetworks)[AF_INET] + [allocation.value]]
        && Outstanding() == old(Outstanding()) + multiset{(allocation.value, AF_INET)}
    {
      res := RegisterNetwork(AF_INET, None, allocation);
    }

    /**
     * The `new_ip6net` property: raises only what `allocate_network` raises,
     * never KeyError, since AF_INET6 is a known family.
     */
    method NewIp6net(allocation: Result<Block, Exc>) returns (res: Result<Network, Exc>)
      requires Valid()
      modifies this`allocatedNetworks
      ensures Valid()
      ensures allocation.Failure? ==> res == Failure(allocation.error) && allocatedNetworks == old(allocatedNetworks)
      ensures allocation.Success? ==>
        && res == Success(Network(AF_INET6, allocation.value.network, allocation.value.prefixlen))
        && allocatedNetworks == old(allocatedNetworks)[AF_INET6 := old(allocatedNetworks)[AF_INET6] + [allocation.value]]
        && Outstanding() == old(Outstanding()) + multiset{(allocation.value, AF_INET6)}
    {
      res := RegisterNetwork(AF_INET6, None, allocation);
    }

    /** Whether teardown backs the database up first. */
    predicate WantsBackup(pyVersion: (nat, nat)): (b: bool)
      ensures b ==> dbProvider == "sqlite3" && pyVersion.0 >= 3
      ensures dbProvider == "sqlite3" && pyVersion.0 >= 4 ==> b
      ensures pyVersion.0 == 3 ==> (b <==> dbProvider == "sqlite3" && pyVersion.1 >= 7)
    {
      dbProvider == "sqlite3" && AtLeast37(pyVersion)
    }

    /** The registries and pools as teardown reads them; dict iteration order is insertion order. */
    function Pending(backup: bool): (s: Snapshot)
      reads this
      requires Valid()
      ensures s.interfaces == Dicts.Items(interfaces) && s.namespaces == namespaces.keys && s.rules == rules
      ensures s.v4nets == allocatedNetworks[AF_INET] && s.v6nets == allocatedNetworks[AF_INET6]
    {
      Snapshot(backup, uid, Dicts.Items(interfaces), namespaces.keys, rules, ipnets, ip6net,
               allocatedNetworks[AF_INET], allocatedNetworks[AF_INET6])
    }

    /**
     * `teardown()` as written: changes no field; what it does is the returned
     * trace, which gives back the IPv4 blocks and the registered networks but
     * not the IPv6 block.
     */
    method Teardown(pyVersion: (nat, nat), o: Outcomes) returns (run: Run)
      requires Valid() && Matches(Pending(WantsBackup(pyVersion)), o)
      ensures run == TeardownRunAsWritten(Pending(WantsBackup(pyVersion)), o)
    {
      run := RunTeardownAsWritten(Pending(WantsBackup(pyVersion)), o);
    }

    /** `teardown()` with its release step corrected to free the IPv6 block too. */
    method TeardownCorrected(pyVersion: (nat, nat), o: Outcomes) returns (run: Run)
      requires Valid() && Matches(Pending(WantsBackup(pyVersion)), o)
      ensures run == TeardownRun(Pending(WantsBackup(pyVersion)), o)
    {
      run := RunTeardown(Pending(WantsBackup(pyVersion)), o);
    }
  }
}
