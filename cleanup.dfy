/**
 * What `NDBContextManager.teardown` does, as a trace of the calls it makes to
 * its collaborators and the exception it ends with, if any. The collaborators'
 * answers (does opening a handle fail, what does the lookup return, does the
 * delete raise) are inputs, one per registry entry.
 *
 * Teardown runs in this order: an sqlite3 backup on Python 3.7 and later,
 * closing the NDB, the cloned IPRoute and the WireGuard handle, then the
 * interface loop, the namespace loop, the rule loop and finally the release of
 * every network block. An exception that a loop does not swallow leaves
 * teardown at once: no later entry and no later loop is attempted.
 */
module Cleanup {
  import opened Common

  /** A routing-rule spec, passed to `rule('del', **spec)`. */
  type RuleSpec = map<string, string>

  datatype Event =
    | Backup(path: string)
    | CloseNdb
    | CloseIpr
    | CloseWireGuard
    | OpenHandle(netns: Option<string>)
    | CloseHandle(netns: Option<string>)
    | LinkLookup(netns: Option<string>, ifname: string)
    | LinkDelete(netns: Option<string>, index: int)
    | RemoveNetns(name: string)
    | RuleDelete(netns: Option<string>, spec: RuleSpec)
    | FreeNetwork(block: Block, family: int)

  /** The calls made, and the exception teardown raises (None: it returned). */
  datatype Run = Run(trace: seq<Event>, error: Option<Exc>)

  /**
   * What happens to one interface: creating the `NetNS`/`IPRoute` handle
   * raises, or `link_lookup` raises, or the lookup returns indices and the
   * delete of the first one raises or not.
   */
  datatype IfaceStep = OpenFails(error: Exc) | LookupFails(error: Exc) | LookedUp(indices: seq<int>, deleteError: Option<Exc>)

  /** What happens to one rule: creating the handle raises, or `rule('del')` raises or not. */
  datatype RuleStep = RuleOpenFails(error: Exc) | RuleDeleted(deleteError: Option<Exc>)

  /** The collaborators' answers for one teardown, aligned with the registries. */
  datatype Outcomes = Outcomes(ifaces: seq<IfaceStep>, netns: seq<Option<Exc>>, rules: seq<RuleStep>)

  /** The registries and pools teardown reads. */
  datatype Snapshot = Snapshot(
    backup: bool,
    uid: string,
    interfaces: seq<(string, Option<string>)>,
    namespaces: seq<string>,
    rules: seq<(Option<string>, RuleSpec)>,
    ipnets: seq<Block>,
    ip6net: Block,
    v4nets: seq<Block>,
    v6nets: seq<Block>)

  predicate Matches(s: Snapshot, o: Outcomes) {
    |o.ifaces| == |s.interfaces| && |o.netns| == |s.namespaces| && |o.rules| == |s.rules|
  }

  // ---------------------------------------------------------------------
  // One entry of each loop

  /** The exception an interface step raises inside the `try`, before classification. */
  function IfaceRaised(step: IfaceStep): Option<Exc> {
    match step
    case OpenFails(e) => Some(e)
    case LookupFails(e) => Some(e)
    case LookedUp(ix, d) => if ix == [] then None else d
  }

  /** Counts the handles a trace opens or closes. */
  function Count(t: seq<Event>, p: Event -> bool): nat
    decreases |t|
  {
    if t == [] then 0 else Count(t[..|t| - 1], p) + (if p(t[|t| - 1]) then 1 else 0)
  }

  function Opens(t: seq<Event>): nat {
    Count(t, (e: Event) => e.OpenHandle?)
  }

  function Closes(t: seq<Event>): nat {
    Count(t, (e: Event) => e.CloseHandle?)
  }

  /**
   * One interface: open a handle for its namespace, look the name up, delete
   * the first index found; ENODEV is swallowed; the handle, once opened, is
   * closed whatever happens.
   */
  function IfaceRun(entry: (string, Option<string>), step: IfaceStep): (r: Run)
    ensures r.error.Some? <==> IfaceRaised(step).Some? && IfaceRaised(step).value != NetlinkError(ENODEV)
    ensures r.error.Some? ==> r.error == IfaceRaised(step)
    ensures step.LookedUp? && step.indices == [] ==> r.error.None? && forall ev :: ev in r.trace ==> !ev.LinkDelete?
    ensures step.LookedUp? && step.indices != [] ==> LinkDelete(entry.1, step.indices[0]) in r.trace
    ensures step.OpenFails? <==> r.trace == []
    ensures !step.OpenFails? ==> r.trace[0] == OpenHandle(entry.1) && r.trace[|r.trace| - 1] == CloseHandle(entry.1)
    ensures forall ev :: ev in r.trace ==> ev.OpenHandle? || ev.CloseHandle? || ev.LinkLookup? || ev.LinkDelete?
  {
    var (ifname, ns) := entry;
    var raised := IfaceRaised(step);
    var error := if raised.Some? && raised.value != NetlinkError(ENODEV) then raised else None;
    match step
    case OpenFails(_) => Run([], error)
    case LookupFails(_) => Run([OpenHandle(ns), LinkLookup(ns, ifname), CloseHandle(ns)], error)
    case LookedUp(ix, _) =>
      if ix == [] then Run([OpenHandle(ns), LinkLookup(ns, ifname), CloseHandle(ns)], error)
      else Run([OpenHandle(ns), LinkLookup(ns, ifname), LinkDelete(ns, ix[0]), CloseHandle(ns)], error)
  }

  /** One namespace: remove it; FileNotFoundError is swallowed. */
  function NetnsRun(name: string, raised: Option<Exc>): (r: Run)
    ensures r.trace == [RemoveNetns(name)]
    ensures r.error.Some? <==> raised.Some? && raised.value != FileNotFoundError
    ensures r.error.Some? ==> r.error == raised
  {
    Run([RemoveNetns(name)], if raised.Some? && raised.value != FileNotFoundError then raised else None)
  }

  /** The exception a rule step raises inside the `try`, before classification. */
  function RuleRaised(step: RuleStep): Option<Exc> {
    match step
    case RuleOpenFails(e) => Some(e)
    case RuleDeleted(d) => d
  }

  /** One rule: open a handle for its namespace, delete the rule; ENOENT is swallowed; the handle is closed. */
  function RuleRun(entry: (Option<string>, RuleSpec), step: RuleStep): (r: Run)
    ensures r.error.Some? <==> RuleRaised(step).Some? && RuleRaised(step).value != NetlinkError(ENOENT)
    ensures r.error.Some? ==> r.error == RuleRaised(step)
    ensures step.RuleDeleted? ==> RuleDelete(entry.0, entry.1) in r.trace
    ensures step.RuleOpenFails? <==> r.trace == []
    ensures !step.RuleOpenFails? ==> r.trace[0] == OpenHandle(entry.0) && r.trace[|r.trace| - 1] == CloseHandle(entry.0)
    ensures forall ev :: ev in r.trace ==> ev.OpenHandle? || ev.CloseHandle? || ev.RuleDelete?
  {
    var (ns, spec) := entry;
    var raised := RuleRaised(step);
    var error := if raised.Some? && raised.value != NetlinkError(ENOENT) then raised else None;
    match step
    case RuleOpenFails(_) => Run([], error)
    case RuleDeleted(_) => Run([OpenHandle(ns), RuleDelete(ns, spec), CloseHandle(ns)], error)
  }

  lemma {:induction false} NoHandles(t: seq<Event>)
    requires forall ev :: ev in t ==> !ev.OpenHandle? && !ev.CloseHandle?
    ensures Opens(t) == 0 && Closes(t) == 0
    decreases |t|
  {
    if t != [] {
      NoHandles(t[..|t| - 1]);
    }
  }

  lemma {:induction false} CountAppend(a: seq<Event>, b: seq<Event>, p: Event -> bool)
    ensures Count(a + b, p) == Count(a, p) + Count(b, p)
    decreases |b|
  {
    if b == [] {
      assert a + b == a;
    } else {
      var n := |b| - 1;
      CountAppend(a, b[..n], p);
      assert (a + b)[..|a + b| - 1] == a + b[..n];
    }
  }

  /** A trace that opens one handle first, closes one last and touches no handle between. */
  lemma Framed(t: seq<Event>)
    requires |t| >= 2 && t[0].OpenHandle? && t[|t| - 1].CloseHandle?
    requires forall i :: 0 < i < |t| - 1 ==> !t[i].OpenHandle? && !t[i].CloseHandle?
    ensures Opens(t) == 1 && Closes(t) == 1
  {
    var n := |t| - 1;
    var mid := t[1..n];
    assert t == [t[0]] + mid + [t[n]];
    NoHandles(mid);
    var opens, closes := (e: Event) => e.OpenHandle?, (e: Event) => e.CloseHandle?;
    CountAppend([t[0]] + mid, [t[n]], opens);
    CountAppend([t[0]] + mid, [t[n]], closes);
    CountAppend([t[0]], mid, opens);
    CountAppend([t[0]], mid, closes);
    assert [t[0]][..0] == [] && [t[n]][..0] == [];
  }

  /** An interface entry closes the handle it opens, and opens none if opening fails. */
  lemma IfaceRunBalanced(entry: (string, Option<string>), step: IfaceStep)
    ensures Opens(IfaceRun(entry, step).trace) == Closes(IfaceRun(entry, step).trace) == (if step.OpenFails? then 0 else 1)
  {
    if !step.OpenFails? {
      Framed(IfaceRun(entry, step).trace);
    }
  }

  /** A rule entry closes the handle it opens, and opens none if opening fails. */
  lemma RuleRunBalanced(entry: (Option<string>, RuleSpec), step: RuleStep)
    ensures Opens(RuleRun(entry, step).trace) == Closes(RuleRun(entry, step).trace) == (if step.RuleOpenFails? then 0 else 1)
  {
    if !step.RuleOpenFails? {
      Framed(RuleRun(entry, step).trace);
    }
  }

  // ---------------------------------------------------------------------
  // A loop over a registry that stops at the first exception

  function Phase<X, S>(xs: seq<X>, ss: seq<S>, step: (X, S) -> Run): Run
    requires |xs| == |ss|
    decreases |xs|
  {
    if xs == [] then Run([], None)
    else
      var prev := Phase(xs[..|xs| - 1], ss[..|ss| - 1], step);
      if prev.error.Some? then prev
      else
        var last := step(xs[|xs| - 1], ss[|ss| - 1]);
        Run(prev.trace + last.trace, last.error)
  }

  /** One more entry after a clean prefix appends its own calls and result. */
  lemma PhaseSnoc<X, S>(xs: seq<X>, ss: seq<S>, x: X, s: S, step: (X, S) -> Run)
    requires |xs| == |ss|
    requires Phase(xs, ss, step).error.None?
    ensures Phase(xs + [x], ss + [s], step) == Run(Phase(xs, ss, step).trace + step(x, s).trace, step(x, s).error)
  {
    assert (xs + [x])[..|xs|] == xs;
    assert (ss + [s])[..|ss|] == ss;
  }

  /**
   * One pass of a loop past a clean prefix: the entry extends the prefix by
   * its own calls and result, and if it raises, that is how the whole loop ends.
   */
  lemma PhaseAdvance<X, S>(xs: seq<X>, ss: seq<S>, step: (X, S) -> Run, i: nat)
    requires |xs| == |ss| && i < |xs|
    requires Phase(xs[..i], ss[..i], step).error.None?
    ensures Phase(xs[..i + 1], ss[..i + 1], step)
         == Run(Phase(xs[..i], ss[..i], step).trace + step(xs[i], ss[i]).trace, step(xs[i], ss[i]).error)
    ensures step(xs[i], ss[i]).error.Some? ==>
      Phase(xs, ss, step) == Run(Phase(xs[..i], ss[..i], step).trace + step(xs[i], ss[i]).trace, step(xs[i], ss[i]).error)
  {
    if step(xs[i], ss[i]).error.Some? {
      PhaseStopsAt(xs, ss, step, i);
    }
    assert xs[..i + 1] == xs[..i] + [xs[i]];
    assert ss[..i + 1] == ss[..i] + [ss[i]];
    PhaseSnoc(xs[..i], ss[..i], xs[i], ss[i], step);
  }

  /** The loop finishes cleanly exactly when no entry raises an unswallowed exception. */
  lemma {:induction false} PhaseCleanIff<X, S>(xs: seq<X>, ss: seq<S>, step: (X, S) -> Run)
    requires |xs| == |ss|
    ensures Phase(xs, ss, step).error.None? <==> forall i :: 0 <= i < |xs| ==> step(xs[i], ss[i]).error.None?
    decreases |xs|
  {
    if xs != [] {
      var n := |xs| - 1;
      PhaseCleanIff(xs[..n], ss[..n], step);
      assert forall i :: 0 <= i < n ==> xs[..n][i] == xs[i] && ss[..n][i] == ss[i];
    }
  }

  /**
   * Once an entry raises, the loop ends there: its trace is the clean prefix
   * and that entry's own calls, and its exception is that entry's.
   */
  lemma {:induction false} PhaseStopsAt<X, S>(xs: seq<X>, ss: seq<S>, step: (X, S) -> Run, k: nat)
    requires |xs| == |ss| && k < |xs|
    requires Phase(xs[..k], ss[..k], step).error.None?
    requires step(xs[k], ss[k]).error.Some?
    ensures Phase(xs, ss, step) ==
      Run(Phase(xs[..k], ss[..k], step).trace + step(xs[k], ss[k]).trace, step(xs[k], ss[k]).error)
    decreases |xs|
  {
    var n := |xs| - 1;
    if k == n {
      PhaseSnoc(xs[..k], ss[..k], xs[k], ss[k], step);
      assert xs[..k] + [xs[k]] == xs;
      assert ss[..k] + [ss[k]] == ss;
    } else {
      assert xs[..n][..k] == xs[..k] && ss[..n][..k] == ss[..k];
      PhaseStopsAt(xs[..n], ss[..n], step, k);
    }
  }

  /** The raised exception comes from the first entry that raised one. */
  lemma {:induction false} PhaseFirstError<X, S>(xs: seq<X>, ss: seq<S>, step: (X, S) -> Run)
    requires |xs| == |ss|
    requires Phase(xs, ss, step).error.Some?
    ensures exists k :: (0 <= k < |xs|
      && Phase(xs[..k], ss[..k], step).error.None?
      && step(xs[k], ss[k]).error == Phase(xs, ss, step).error
      && Phase(xs, ss, step).trace == Phase(xs[..k], ss[..k], step).trace + step(xs[k], ss[k]).trace)
    decreases |xs|
  {
    var n := |xs| - 1;
    var prev := Phase(xs[..n], ss[..n], step);
    if prev.error.Some? {
      PhaseFirstError(xs[..n], ss[..n], step);
      var k :| 0 <= k < n
        && Phase(xs[..n][..k], ss[..n][..k], step).error.None?
        && step(xs[..n][k], ss[..n][k]).error == prev.error
        && prev.trace == Phase(xs[..n][..k], ss[..n][..k], step).trace + step(xs[..n][k], ss[..n][k]).trace;
      assert xs[..n][..k] == xs[..k] && ss[..n][..k] == ss[..k];
    } else {
      assert step(xs[n], ss[n]).error == Phase(xs, ss, step).error;
    }
  }

  /** Every call in a loop's trace is a call of one of its entries. */
  lemma {:induction false} PhaseTraceOrigin<X, S>(xs: seq<X>, ss: seq<S>, step: (X, S) -> Run, ev: Event)
    requires |xs| == |ss|
    requires ev in Phase(xs, ss, step).trace
    ensures exists i :: 0 <= i < |xs| && ev in step(xs[i], ss[i]).trace
    decreases |xs|
  {
    var n := |xs| - 1;
    var prev := Phase(xs[..n], ss[..n], step);
    if ev in prev.trace {
      PhaseTraceOrigin(xs[..n], ss[..n], step, ev);
      var i :| 0 <= i < n && ev in step(xs[..n][i], ss[..n][i]).trace;
      assert xs[..n][i] == xs[i] && ss[..n][i] == ss[i];
    } else {
      assert ev in step(xs[n], ss[n]).trace;
    }
  }

  /** A loop that finishes cleanly made every call of every entry. */
  lemma {:induction false} PhaseCleanCovers<X, S>(xs: seq<X>, ss: seq<S>, step: (X, S) -> Run, i: nat, ev: Event)
    requires |xs| == |ss| && i < |xs|
    requires Phase(xs, ss, step).error.None?
    requires ev in step(xs[i], ss[i]).trace
    ensures ev in Phase(xs, ss, step).trace
    decreases |xs|
  {
    var n := |xs| - 1;
    if i < n {
      assert xs[..n][i] == xs[i] && ss[..n][i] == ss[i];
      PhaseCleanCovers(xs[..n], ss[..n], step, i, ev);
    }
  }

  /** When every entry closes each handle it opens, so does the loop. */
  lemma {:induction false} PhaseBalanced<X, S>(xs: seq<X>, ss: seq<S>, step: (X, S) -> Run)
    requires |xs| == |ss|
    requires forall i :: 0 <= i < |xs| ==> Opens(step(xs[i], ss[i]).trace) == Closes(step(xs[i], ss[i]).trace)
    ensures Opens(Phase(xs, ss, step).trace) == Closes(Phase(xs, ss, step).trace)
    decreases |xs|
  {
    if xs != [] {
      var n := |xs| - 1;
      assert forall i :: 0 <= i < n ==> xs[..n][i] == xs[i] && ss[..n][i] == ss[i];
      PhaseBalanced(xs[..n], ss[..n], step);
      var prev := Phase(xs[..n], ss[..n], step);
      if prev.error.None? {
        var last := step(xs[n], ss[n]);
        CountAppend(prev.trace, last.trace, (e: Event) => e.OpenHandle?);
        CountAppend(prev.trace, last.trace, (e: Event) => e.CloseHandle?);
      }
    }
  }

  // ---------------------------------------------------------------------
  // Releasing the network blocks

  /** `free_network(net, family)` for each block, in order. */
  function Frees(bs: seq<Block>, family: int): (t: seq<Event>)
    ensures |t| == |bs|
    ensures forall i :: 0 <= i < |bs| ==> t[i] == FreeNetwork(bs[i], family)
  {
    seq(|bs|, i requires 0 <= i < |bs| => FreeNetwork(bs[i], family))
  }

  /**
   * The release step as the source has it: the three pre-allocated IPv4
   * blocks, then the registered IPv4 blocks, then the registered IPv6 blocks.
   * The pre-allocated IPv6 block is not released.
   */
  function FreePhaseAsWritten(s: Snapshot): (t: seq<Event>)
    ensures |t| == |s.ipnets| + |s.v4nets| + |s.v6nets|
  {
    Frees(s.ipnets, AF_INET) + Frees(s.v4nets, AF_INET) + Frees(s.v6nets, AF_INET6)
  }

  /** The release step with the pre-allocated IPv6 block released too. */
  function FreePhase(s: Snapshot): (t: seq<Event>)
    ensures |t| == |s.ipnets| + 1 + |s.v4nets| + |s.v6nets|
  {
    Frees(s.ipnets, AF_INET) + [FreeNetwork(s.ip6net, AF_INET6)] + Frees(s.v4nets, AF_INET) + Frees(s.v6nets, AF_INET6)
  }

  /** The (block, family) pairs a trace hands back to the allocator, in order. */
  function Freed(t: seq<Event>): seq<(Block, int)>
    decreases |t|
  {
    if t == [] then []
    else
      var last := t[|t| - 1];
      Freed(t[..|t| - 1]) + (if last.FreeNetwork? then [(last.block, last.family)] else [])
  }

  function Tagged(bs: seq<Block>, family: int): seq<(Block, int)> {
    seq(|bs|, i requires 0 <= i < |bs| => (bs[i], family))
  }

  /** Every block the context holds and must give back: the four pre-allocated ones and the registered ones. */
  function Obligations(s: Snapshot): multiset<(Block, int)> {
    multiset(Tagged(s.ipnets, AF_INET)) + multiset{(s.ip6net, AF_INET6)}
      + multiset(Tagged(s.v4nets, AF_INET)) + multiset(Tagged(s.v6nets, AF_INET6))
  }

  lemma {:induction false} FreedAppend(a: seq<Event>, b: seq<Event>)
    ensures Freed(a + b) == Freed(a) + Freed(b)
    decreases |b|
  {
    if b == [] {
      assert a + b == a;
    } else {
      var n := |b| - 1;
      FreedAppend(a, b[..n]);
      assert (a + b)[..|a + b| - 1] == a + b[..n];
    }
  }

  lemma {:induction false} FreedFrees(bs: seq<Block>, family: int)
    ensures Freed(Frees(bs, family)) == Tagged(bs, family)
    decreases |bs|
  {
    if bs != [] {
      var n := |bs| - 1;
      FreedFrees(bs[..n], family);
      assert Frees(bs, family)[..n] == Frees(bs[..n], family);
      assert Tagged(bs, family) == Tagged(bs[..n], family) + [(bs[n], family)];
    }
  }

  lemma {:induction false} FreedNone(t: seq<Event>)
    requires forall ev :: ev in t ==> !ev.FreeNetwork?
    ensures Freed(t) == []
    decreases |t|
  {
    if t != [] {
      FreedNone(t[..|t| - 1]);
    }
  }

  lemma FreesOnlyFrees(bs: seq<Block>, family: int)
    ensures forall ev :: ev in Frees(bs, family) ==> ev.FreeNetwork?
  {
    forall ev | ev in Frees(bs, family) ensures ev.FreeNetwork? {
      var i :| 0 <= i < |bs| && Frees(bs, family)[i] == ev;
    }
  }

  /** The release step makes no call but `free_network`. */
  lemma FreePhaseOnlyFrees(s: Snapshot)
    ensures forall ev :: ev in FreePhase(s) ==> ev.FreeNetwork?
  {
    FreesOnlyFrees(s.ipnets, AF_INET);
    FreesOnlyFrees(s.v4nets, AF_INET);
    FreesOnlyFrees(s.v6nets, AF_INET6);
  }

  /** The same for the release step as written. */
  lemma FreePhaseAsWrittenOnlyFrees(s: Snapshot)
    ensures forall ev :: ev in FreePhaseAsWritten(s) ==> ev.FreeNetwork?
  {
    FreesOnlyFrees(s.ipnets, AF_INET);
    FreesOnlyFrees(s.v4nets, AF_INET);
    FreesOnlyFrees(s.v6nets, AF_INET6);
  }

  /** The corrected release step gives back every obligation exactly once. */
  lemma FreePhaseReleasesAll(s: Snapshot)
    ensures multiset(Freed(FreePhase(s))) == Obligations(s)
  {
    var a, b, c := Frees(s.ipnets, AF_INET), Frees(s.v4nets, AF_INET), Frees(s.v6nets, AF_INET6);
    FreedAppend(a + [FreeNetwork(s.ip6net, AF_INET6)] + b, c);
    FreedAppend(a + [FreeNetwork(s.ip6net, AF_INET6)], b);
    FreedAppend(a, [FreeNetwork(s.ip6net, AF_INET6)]);
    assert Freed([FreeNetwork(s.ip6net, AF_INET6)]) == [(s.ip6net, AF_INET6)] by {
      assert [FreeNetwork(s.ip6net, AF_INET6)][..0] == [];
    }
    FreedFrees(s.ipnets, AF_INET);
    FreedFrees(s.v4nets, AF_INET);
    FreedFrees(s.v6nets, AF_INET6);
  }

  /** The release step as written misses exactly one obligation: the pre-allocated IPv6 block. */
  lemma FreePhaseAsWrittenLeaksIp6Net(s: Snapshot)
    ensures multiset(Freed(FreePhaseAsWritten(s))) + multiset{(s.ip6net, AF_INET6)} == Obligations(s)
    ensures multiset(Freed(FreePhaseAsWritten(s)))[(s.ip6net, AF_INET6)] < Obligations(s)[(s.ip6net, AF_INET6)]
  {
    var a, b, c := Frees(s.ipnets, AF_INET), Frees(s.v4nets, AF_INET), Frees(s.v6nets, AF_INET6);
    FreedAppend(a + b, c);
    FreedAppend(a, b);
    FreedFrees(s.ipnets, AF_INET);
    FreedFrees(s.v4nets, AF_INET);
    FreedFrees(s.v6nets, AF_INET6);
  }

  lemma TaggedSnoc(bs: seq<Block>, b: Block, family: int)
    ensures multiset(Tagged(bs + [b], family)) == multiset(Tagged(bs, family)) + multiset{(b, family)}
  {
    assert Tagged(bs + [b], family) == Tagged(bs, family) + [(b, family)];
  }

  /** Registering one more block adds exactly that block, with its family, to what teardown must give back. */
  lemma ObligationsGrow(s: Snapshot, b: Block)
    ensures Obligations(s.(v4nets := s.v4nets + [b])) == Obligations(s) + multiset{(b, AF_INET)}
    ensures Obligations(s.(v6nets := s.v6nets + [b])) == Obligations(s) + multiset{(b, AF_INET6)}
  {
    TaggedSnoc(s.v4nets, b, AF_INET);
    TaggedSnoc(s.v6nets, b, AF_INET6);
  }

  // ---------------------------------------------------------------------
  // The whole teardown

  function Prelude(s: Snapshot): seq<Event> {
    (if s.backup then [Backup(s.uid + "-post.db")] else []) + [CloseNdb, CloseIpr, CloseWireGuard]
  }

  /**
   * Everything teardown does before it releases blocks: the prelude and the
   * three removal loops, each started only when the one before finished.
   */
  function Removal(s: Snapshot, o: Outcomes): Run
    requires Matches(s, o)
  {
    var pre := Prelude(s);
    var ifs := Phase(s.interfaces, o.ifaces, IfaceRun);
    if ifs.error.Some? then Run(pre + ifs.trace, ifs.error)
    else
      var nss := Phase(s.namespaces, o.netns, NetnsRun);
      if nss.error.Some? then Run(pre + ifs.trace + nss.trace, nss.error)
      else
        var rls := Phase(s.rules, o.rules, RuleRun);
        if rls.error.Some? then Run(pre + ifs.trace + nss.trace + rls.trace, rls.error)
        else Run(pre + ifs.trace + nss.trace + rls.trace, None)
  }

  /** `teardown()` as the source has it: the release step leaves the IPv6 block out. */
  function TeardownRunAsWritten(s: Snapshot, o: Outcomes): Run
    requires Matches(s, o)
  {
    var r := Removal(s, o);
    if r.error.Some? then r else Run(r.trace + FreePhaseAsWritten(s), None)
  }

  /** `teardown()` with the release step corrected to give the IPv6 block back too. */
  function TeardownRun(s: Snapshot, o: Outcomes): Run
    requires Matches(s, o)
  {
    var r := Removal(s, o);
    if r.error.Some? then r else Run(r.trace + FreePhase(s), None)
  }

  /**
   * Teardown returns normally exactly when no interface raises anything but
   * ENODEV, no namespace removal raises anything but FileNotFoundError and no
   * rule deletion raises anything but ENOENT.
   */
  lemma TeardownCleanIff(s: Snapshot, o: Outcomes)
    requires Matches(s, o)
    ensures TeardownRun(s, o).error.None? <==>
      && (forall i :: 0 <= i < |s.interfaces| ==>
            IfaceRaised(o.ifaces[i]).None? || IfaceRaised(o.ifaces[i]) == Some(NetlinkError(ENODEV)))
      && (forall i :: 0 <= i < |s.namespaces| ==> o.netns[i].None? || o.netns[i] == Some(FileNotFoundError))
      && (forall i :: 0 <= i < |s.rules| ==>
            RuleRaised(o.rules[i]).None? || RuleRaised(o.rules[i]) == Some(NetlinkError(ENOENT)))
  {
    PhaseCleanIff(s.interfaces, o.ifaces, IfaceRun);
    PhaseCleanIff(s.namespaces, o.netns, NetnsRun);
    PhaseCleanIff(s.rules, o.rules, RuleRun);
  }

  lemma BalancedAppend(a: seq<Event>, b: seq<Event>)
    requires Opens(a) == Closes(a) && Opens(b) == Closes(b)
    ensures Opens(a + b) == Closes(a + b)
  {
    CountAppend(a, b, (e: Event) => e.OpenHandle?);
    CountAppend(a, b, (e: Event) => e.CloseHandle?);
  }

  /** Each loop closes every handle it opens, whether it finishes or stops early. */
  lemma LoopsBalanced(s: Snapshot, o: Outcomes)
    requires Matches(s, o)
    ensures Opens(Phase(s.interfaces, o.ifaces, IfaceRun).trace) == Closes(Phase(s.interfaces, o.ifaces, IfaceRun).trace)
    ensures Opens(Phase(s.namespaces, o.netns, NetnsRun).trace) == Closes(Phase(s.namespaces, o.netns, NetnsRun).trace)
    ensures Opens(Phase(s.rules, o.rules, RuleRun).trace) == Closes(Phase(s.rules, o.rules, RuleRun).trace)
  {
    forall i | 0 <= i < |s.interfaces|
      ensures Opens(IfaceRun(s.interfaces[i], o.ifaces[i]).trace) == Closes(IfaceRun(s.interfaces[i], o.ifaces[i]).trace)
    {
      IfaceRunBalanced(s.interfaces[i], o.ifaces[i]);
    }
    PhaseBalanced(s.interfaces, o.ifaces, IfaceRun);
    forall i | 0 <= i < |s.namespaces|
      ensures Opens(NetnsRun(s.namespaces[i], o.netns[i]).trace) == Closes(NetnsRun(s.namespaces[i], o.netns[i]).trace)
    {
      NoHandles(NetnsRun(s.namespaces[i], o.netns[i]).trace);
    }
    PhaseBalanced(s.namespaces, o.netns, NetnsRun);
    forall i | 0 <= i < |s.rules|
      ensures Opens(RuleRun(s.rules[i], o.rules[i]).trace) == Closes(RuleRun(s.rules[i], o.rules[i]).trace)
    {
      RuleRunBalanced(s.rules[i], o.rules[i]);
    }
    PhaseBalanced(s.rules, o.rules, RuleRun);
  }

  /** The prelude and the removal loops close every per-entry handle they open, on every path. */
  lemma RemovalBalanced(s: Snapshot, o: Outcomes)
    requires Matches(s, o)
    ensures Opens(Removal(s, o).trace) == Closes(Removal(s, o).trace)
  {
    var pre := Prelude(s);
    var ifs := Phase(s.interfaces, o.ifaces, IfaceRun);
    var nss := Phase(s.namespaces, o.netns, NetnsRun);
    var rls := Phase(s.rules, o.rules, RuleRun);
    LoopsBalanced(s, o);
    NoHandles(pre);
    BalancedAppend(pre, ifs.trace);
    if ifs.error.None? {
      BalancedAppend(pre + ifs.trace, nss.trace);
      if nss.error.None? {
        BalancedAppend(pre + ifs.trace + nss.trace, rls.trace);
      }
    }
  }

  /** Every handle teardown opens for an interface or a rule, it closes, on every path. */
  lemma TeardownHandlesBalanced(s: Snapshot, o: Outcomes)
    requires Matches(s, o)
    ensures Opens(TeardownRun(s, o).trace) == Closes(TeardownRun(s, o).trace)
    ensures Opens(TeardownRunAsWritten(s, o).trace) == Closes(TeardownRunAsWritten(s, o).trace)
  {
    var r := Removal(s, o);
    RemovalBalanced(s, o);
    if r.error.None? {
      FreePhaseOnlyFrees(s);
      NoHandles(FreePhase(s));
      BalancedAppend(r.trace, FreePhase(s));
      FreePhaseAsWrittenOnlyFrees(s);
      NoHandles(FreePhaseAsWritten(s));
      BalancedAppend(r.trace, FreePhaseAsWritten(s));
    }
  }

  /**
   * An interface whose deletion raises anything but ENODEV ends teardown:
   * no namespace is removed, no rule deleted and no block released.
   */
  lemma TeardownAbortsOnInterfaceError(s: Snapshot, o: Outcomes)
    requires Matches(s, o)
    requires Phase(s.interfaces, o.ifaces, IfaceRun).error.Some?
    ensures TeardownRun(s, o).error == Phase(s.interfaces, o.ifaces, IfaceRun).error
    ensures forall ev :: ev in TeardownRun(s, o).trace ==> !ev.RemoveNetns? && !ev.RuleDelete? && !ev.FreeNetwork?
  {
    var ifs := Phase(s.interfaces, o.ifaces, IfaceRun);
    forall ev | ev in ifs.trace
      ensures !ev.RemoveNetns? && !ev.RuleDelete? && !ev.FreeNetwork?
    {
      PhaseTraceOrigin(s.interfaces, o.ifaces, IfaceRun, ev);
    }
  }

  /**
   * A teardown that returns ran every loop to the end, then its release step;
   * the one as written and the corrected one return together.
   */
  lemma CleanTeardownTrace(s: Snapshot, o: Outcomes)
    requires Matches(s, o)
    requires TeardownRunAsWritten(s, o).error.None?
    ensures TeardownRun(s, o).error.None?
    ensures Phase(s.interfaces, o.ifaces, IfaceRun).error.None?
    ensures Phase(s.namespaces, o.netns, NetnsRun).error.None?
    ensures Phase(s.rules, o.rules, RuleRun).error.None?
    ensures TeardownRunAsWritten(s, o).trace == Prelude(s) + Phase(s.interfaces, o.ifaces, IfaceRun).trace
      + Phase(s.namespaces, o.netns, NetnsRun).trace + Phase(s.rules, o.rules, RuleRun).trace + FreePhaseAsWritten(s)
    ensures TeardownRun(s, o).trace == Prelude(s) + Phase(s.interfaces, o.ifaces, IfaceRun).trace
      + Phase(s.namespaces, o.netns, NetnsRun).trace + Phase(s.rules, o.rules, RuleRun).trace + FreePhase(s)
  {
  }

  /**
   * A teardown that returns, as written or corrected, looks up every
   * registered interface whose handle could be opened.
   */
  lemma TeardownLooksUpInterfaces(s: Snapshot, o: Outcomes, i: nat)
    requires Matches(s, o) && i < |s.interfaces|
    requires TeardownRunAsWritten(s, o).error.None?
    requires !o.ifaces[i].OpenFails?
    ensures LinkLookup(s.interfaces[i].1, s.interfaces[i].0) in TeardownRunAsWritten(s, o).trace
    ensures LinkLookup(s.interfaces[i].1, s.interfaces[i].0) in TeardownRun(s, o).trace
  {
    var ev := LinkLookup(s.interfaces[i].1, s.interfaces[i].0);
    assert ev == IfaceRun(s.interfaces[i], o.ifaces[i]).trace[1];
    CleanTeardownTrace(s, o);
    PhaseCleanCovers(s.interfaces, o.ifaces, IfaceRun, i, ev);
  }

  /**
   * A teardown that returns, as written or corrected, deletes by its first
   * index every registered interface the lookup found.
   */
  lemma TeardownDeletesInterfaces(s: Snapshot, o: Outcomes, i: nat)
    requires Matches(s, o) && i < |s.interfaces|
    requires TeardownRunAsWritten(s, o).error.None?
    requires o.ifaces[i].LookedUp? && o.ifaces[i].indices != []
    ensures LinkDelete(s.interfaces[i].1, o.ifaces[i].indices[0]) in TeardownRunAsWritten(s, o).trace
    ensures LinkDelete(s.interfaces[i].1, o.ifaces[i].indices[0]) in TeardownRun(s, o).trace
  {
    var ev := LinkDelete(s.interfaces[i].1, o.ifaces[i].indices[0]);
    assert ev == IfaceRun(s.interfaces[i], o.ifaces[i]).trace[2];
    CleanTeardownTrace(s, o);
    PhaseCleanCovers(s.interfaces, o.ifaces, IfaceRun, i, ev);
  }

  /** A teardown that returns, as written or corrected, removes every registered namespace. */
  lemma TeardownRemovesNamespaces(s: Snapshot, o: Outcomes, i: nat)
    requires Matches(s, o) && i < |s.namespaces|
    requires TeardownRunAsWritten(s, o).error.None?
    ensures RemoveNetns(s.namespaces[i]) in TeardownRunAsWritten(s, o).trace
    ensures RemoveNetns(s.namespaces[i]) in TeardownRun(s, o).trace
  {
    CleanTeardownTrace(s, o);
    PhaseCleanCovers(s.namespaces, o.netns, NetnsRun, i, RemoveNetns(s.namespaces[i]));
  }

  /**
   * A teardown that returns, as written or corrected, deletes every
   * registered rule whose handle could be opened.
   */
  lemma TeardownDeletesRules(s: Snapshot, o: Outcomes, i: nat)
    requires Matches(s, o) && i < |s.rules|
    requires TeardownRunAsWritten(s, o).error.None?
    requires !o.rules[i].RuleOpenFails?
    ensures RuleDelete(s.rules[i].0, s.rules[i].1) in TeardownRunAsWritten(s, o).trace
    ensures RuleDelete(s.rules[i].0, s.rules[i].1) in TeardownRun(s, o).trace
  {
    var ev := RuleDelete(s.rules[i].0, s.rules[i].1);
    assert ev == RuleRun(s.rules[i], o.rules[i]).trace[1];
    CleanTeardownTrace(s, o);
    PhaseCleanCovers(s.rules, o.rules, RuleRun, i, ev);
  }

  /** The loops release no block; only the release step does. */
  lemma LoopsFreeNothing(s: Snapshot, o: Outcomes)
    requires Matches(s, o)
    ensures Freed(Phase(s.interfaces, o.ifaces, IfaceRun).trace) == []
    ensures Freed(Phase(s.namespaces, o.netns, NetnsRun).trace) == []
    ensures Freed(Phase(s.rules, o.rules, RuleRun).trace) == []
  {
    var ifs := Phase(s.interfaces, o.ifaces, IfaceRun);
    forall ev | ev in ifs.trace ensures !ev.FreeNetwork? {
      PhaseTraceOrigin(s.interfaces, o.ifaces, IfaceRun, ev);
    }
    FreedNone(ifs.trace);
    var nss := Phase(s.namespaces, o.netns, NetnsRun);
    forall ev | ev in nss.trace ensures !ev.FreeNetwork? {
      PhaseTraceOrigin(s.namespaces, o.netns, NetnsRun, ev);
    }
    FreedNone(nss.trace);
    var rls := Phase(s.rules, o.rules, RuleRun);
    forall ev | ev in rls.trace ensures !ev.FreeNetwork? {
      PhaseTraceOrigin(s.rules, o.rules, RuleRun, ev);
    }
    FreedNone(rls.trace);
  }

  lemma FreedNothingAppend(a: seq<Event>, b: seq<Event>)
    requires Freed(a) == [] && Freed(b) == []
    ensures Freed(a + b) == []
  {
    FreedAppend(a, b);
  }

  /** Before the release step teardown gives no block back, whichever way it ends. */
  lemma RemovalFreesNothing(s: Snapshot, o: Outcomes)
    requires Matches(s, o)
    ensures Freed(Removal(s, o).trace) == []
  {
    var pre := Prelude(s);
    var ifs := Phase(s.interfaces, o.ifaces, IfaceRun).trace;
    var nss := Phase(s.namespaces, o.netns, NetnsRun).trace;
    var rls := Phase(s.rules, o.rules, RuleRun).trace;
    LoopsFreeNothing(s, o);
    FreedNone(pre);
    FreedNothingAppend(pre, ifs);
    FreedNothingAppend(pre + ifs, nss);
    FreedNothingAppend(pre + ifs + nss, rls);
    if Phase(s.interfaces, o.ifaces, IfaceRun).error.Some? {
      assert Removal(s, o).trace == pre + ifs;
    } else if Phase(s.namespaces, o.netns, NetnsRun).error.Some? {
      assert Removal(s, o).trace == pre + ifs + nss;
    } else {
      assert Removal(s, o).trace == pre + ifs + nss + rls;
    }
  }

  /** A clean corrected teardown gives every block the context holds back to the allocator, each exactly once. */
  lemma TeardownReleasesAll(s: Snapshot, o: Outcomes)
    requires Matches(s, o)
    requires TeardownRun(s, o).error.None?
    ensures multiset(Freed(TeardownRun(s, o).trace)) == Obligations(s)
  {
    var r := Removal(s, o);
    RemovalFreesNothing(s, o);
    FreedAppend(r.trace, FreePhase(s));
    FreePhaseReleasesAll(s);
  }

  /**
   * A clean teardown as written gives back every block the context holds
   * except the IPv6 block reserved at construction, which stays allocated.
   */
  lemma TeardownAsWrittenLeaksIp6Net(s: Snapshot, o: Outcomes)
    requires Matches(s, o)
    requires TeardownRunAsWritten(s, o).error.None?
    ensures multiset(Freed(TeardownRunAsWritten(s, o).trace)) + multiset{(s.ip6net, AF_INET6)} == Obligations(s)
    ensures FreeNetwork(s.ip6net, AF_INET6) in TeardownRun(s, o).trace
  {
    var r := Removal(s, o);
    RemovalFreesNothing(s, o);
    FreedAppend(r.trace, FreePhaseAsWritten(s));
    FreePhaseAsWrittenLeaksIp6Net(s);
    assert FreePhase(s)[|s.ipnets|] == FreeNetwork(s.ip6net, AF_INET6);
    assert TeardownRun(s, o).trace[|r.trace| + |s.ipnets|] == FreeNetwork(s.ip6net, AF_INET6);
  }

  /** Both teardowns raise the same exception, and the same way they stop early. */
  lemma TeardownsAgreeOnErrors(s: Snapshot, o: Outcomes)
    requires Matches(s, o)
    ensures TeardownRunAsWritten(s, o).error == TeardownRun(s, o).error
    ensures TeardownRun(s, o).error.Some? ==> TeardownRunAsWritten(s, o) == TeardownRun(s, o)
  {
  }

  // ---------------------------------------------------------------------
  // The loops of `teardown`, one method each

  /** One pass of the interface loop's `try`/`except`/`finally`. */
  method RemoveInterface(item: (string, Option<string>), step: IfaceStep) returns (r: Run)
    ensures r == IfaceRun(item, step)
  {
    var (ifname, nsname) := item;
    var calls: seq<Event> := [];
    var raised: Option<Exc> := None;
    if step.OpenFails? {
      raised := Some(step.error);
    } else {
      calls := [OpenHandle(nsname), LinkLookup(nsname, ifname)];
      if step.LookupFails? {
        raised := Some(step.error);
      } else if |step.indices| > 0 {
        calls := calls + [LinkDelete(nsname, step.indices[0])];
        raised := step.deleteError;
      }
      calls := calls + [CloseHandle(nsname)];
    }
    if raised.Some? && raised.value.NetlinkError? && raised.value.code == ENODEV {
      raised := None;
    }
    return Run(calls, raised);
  }

  /** The interface loop: ENODEV is ignored, any other exception leaves the loop after the handle is closed. */
  method RemoveInterfaces(items: seq<(string, Option<string>)>, outcomes: seq<IfaceStep>) returns (run: Run)
    requires |items| == |outcomes|
    ensures run == Phase(items, outcomes, IfaceRun)
  {
    var trace: seq<Event> := [];
    var i := 0;
    while i < |items|
      invariant 0 <= i <= |items|
      invariant Phase(items[..i], outcomes[..i], IfaceRun) == Run(trace, None)
    {
      var r := RemoveInterface(items[i], outcomes[i]);
      PhaseAdvance(items, outcomes, IfaceRun, i);
      if r.error.Some? {
        return Run(trace + r.trace, r.error);
      }
      trace := trace + r.trace;
      i := i + 1;
    }
    assert items[..i] == items && outcomes[..i] == outcomes;
    return Run(trace, None);
  }

  /** The namespace loop: FileNotFoundError is ignored, any other exception leaves the loop. */
  method RemoveNamespaces(names: seq<string>, outcomes: seq<Option<Exc>>) returns (run: Run)
    requires |names| == |outcomes|
    ensures run == Phase(names, outcomes, NetnsRun)
  {
    var trace: seq<Event> := [];
    var i := 0;
    while i < |names|
      invariant 0 <= i <= |names|
      invariant Phase(names[..i], outcomes[..i], NetnsRun) == Run(trace, None)
    {
      var raised := outcomes[i];
      PhaseAdvance(names, outcomes, NetnsRun, i);
      if raised.Some? && raised.value != FileNotFoundError {
        return Run(trace + [RemoveNetns(names[i])], raised);
      }
      trace := trace + [RemoveNetns(names[i])];
      i := i + 1;
    }
    assert names[..i] == names && outcomes[..i] == outcomes;
    return Run(trace, None);
  }

  /** One pass of the rule loop's `try`/`except`/`finally`. */
  method RemoveRule(item: (Option<string>, RuleSpec), step: RuleStep) returns (r: Run)
    ensures r == RuleRun(item, step)
  {
    var (nsname, spec) := item;
    var calls: seq<Event> := [];
    var raised: Option<Exc>;
    if step.RuleOpenFails? {
      raised := Some(step.error);
    } else {
      calls := [OpenHandle(nsname), RuleDelete(nsname, spec), CloseHandle(nsname)];
      raised := step.deleteError;
    }
    if raised.Some? && raised.value.NetlinkError? && raised.value.code == ENOENT {
      raised := None;
    }
    return Run(calls, raised);
  }

  /** The rule loop: ENOENT is ignored, any other exception leaves the loop after the handle is closed. */
  method RemoveRules(rules: seq<(Option<string>, RuleSpec)>, outcomes: seq<RuleStep>) returns (run: Run)
    requires |rules| == |outcomes|
    ensures run == Phase(rules, outcomes, RuleRun)
  {
    var trace: seq<Event> := [];
    var i := 0;
    while i < |rules|
      invariant 0 <= i <= |rules|
      invariant Phase(rules[..i], outcomes[..i], RuleRun) == Run(trace, None)
    {
      var r := RemoveRule(rules[i], outcomes[i]);
      PhaseAdvance(rules, outcomes, RuleRun, i);
      if r.error.Some? {
        return Run(trace + r.trace, r.error);
      }
      trace := trace + r.trace;
      i := i + 1;
    }
    assert rules[..i] == rules && outcomes[..i] == outcomes;
    return Run(trace, None);
  }

  /** `for net in nets: free_network(net, family)` */
  method FreeAll(nets: seq<Block>, family: int) returns (trace: seq<Event>)
    ensures trace == Frees(nets, family)
  {
    trace := [];
    for i := 0 to |nets|
      invariant trace == Frees(nets[..i], family)
    {
      trace := trace + [FreeNetwork(nets[i], family)];
    }
    assert nets[..|nets|] == nets;
  }

  /** The release step as the source has it: the IPv6 block reserved at construction is not freed. */
  method ReleaseNetworksAsWritten(s: Snapshot) returns (trace: seq<Event>)
    ensures trace == FreePhaseAsWritten(s)
  {
    trace := FreeAll(s.ipnets, AF_INET);
    var v4 := FreeAll(s.v4nets, AF_INET);
    var v6 := FreeAll(s.v6nets, AF_INET6);
    trace := trace + v4 + v6;
  }

  /** The release step, with the pre-allocated IPv6 block released as well. */
  method ReleaseNetworks(s: Snapshot) returns (trace: seq<Event>)
    ensures trace == FreePhase(s)
  {
    trace := FreeAll(s.ipnets, AF_INET);
    trace := trace + [FreeNetwork(s.ip6net, AF_INET6)];
    var v4 := FreeAll(s.v4nets, AF_INET);
    var v6 := FreeAll(s.v6nets, AF_INET6);
    trace := trace + v4 + v6;
  }

  /** The backup of an sqlite3 database, then closing the NDB, the IPRoute clone and the WireGuard handle. */
  method CloseAll(s: Snapshot) returns (trace: seq<Event>)
    ensures trace == Prelude(s)
  {
    trace := [];
    if s.backup {
      trace := trace + [Backup(s.uid + "-post.db")];
    }
    trace := trace + [CloseNdb, CloseIpr, CloseWireGuard];
  }

  /** The closes and the three removal loops; the first unswallowed exception ends them. */
  method RemoveAll(s: Snapshot, o: Outcomes) returns (run: Run)
    requires Matches(s, o)
    ensures run == Removal(s, o)
  {
    var trace := CloseAll(s);
    var ifs := RemoveInterfaces(s.interfaces, o.ifaces);
    trace := trace + ifs.trace;
    if ifs.error.Some? {
      return Run(trace, ifs.error);
    }
    var nss := RemoveNamespaces(s.namespaces, o.netns);
    trace := trace + nss.trace;
    if nss.error.Some? {
      return Run(trace, nss.error);
    }
    var rls := RemoveRules(s.rules, o.rules);
    trace := trace + rls.trace;
    return Run(trace, rls.error);
  }

  /** The whole of `teardown` as the source has it. */
  method RunTeardownAsWritten(s: Snapshot, o: Outcomes) returns (run: Run)
    requires Matches(s, o)
    ensures run == TeardownRunAsWritten(s, o)
  {
    run := RemoveAll(s, o);
    if run.error.None? {
      var frees := ReleaseNetworksAsWritten(s);
      run := Run(run.trace + frees, None);
    }
  }

  /** The whole of `teardown`, with the IPv6 block released as well. */
  method RunTeardown(s: Snapshot, o: Outcomes) returns (run: Run)
    requires Matches(s, o)
    ensures run == TeardownRun(s, o)
  {
    run := RemoveAll(s, o);
    if run.error.None? {
      var frees := ReleaseNetworks(s);
      run := Run(run.trace + frees, None);
    }
  }
}
