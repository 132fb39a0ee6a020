# pyroute2 test fixture context manager, in Dafny

This project models the test-fixture core of pyroute2's Linux test suite, `tests/test_linux/pr2test/context_manager.py`, and proves properties of it. It covers:

- **Skip guards.** `skip_if_not_implemented` and `skip_if_not_supported` turn some exceptions raised by a test body into a pytest skip (module `Guards`).
- **The parameter matrix.** `make_test_matrix` builds the list of pytest parameters from databases, targets, tables and kinds. It honours the `SKIPDB` list and the `PGUSER`/`PGPORT`/`PGHOST` variables (module `Matrix`).
- **The fixture object.** `NDBContextManager` is modelled as `class ContextManager` (module `Context`):
  - its constructor chooses the NDB arguments, reserves three IPv4 blocks and one IPv6 block, and names a default interface;
  - it keeps cleanup registries for interfaces, namespaces, rules and networks;
  - it hands out IPv4 addresses from its blocks (last one first) and IPv6 addresses from a counter starting at 1024;
  - its `teardown` removes what was registered and gives back the three IPv4 blocks and the registered networks, but not the IPv6 block it reserved (see Findings).
- **Teardown.** `teardown` is specified as a trace of the calls it makes and the exception it ends with (module `Cleanup`). The specification has these parts:
  - the per-entry behaviour of each of its three loops;
  - a generic "stop at the first unswallowed exception" loop combinator, `Phase`;
  - the release step, as written (`FreePhaseAsWritten`) and corrected (`FreePhase`);
  - the whole run, as written (`TeardownRunAsWritten`) and corrected (`TeardownRun`).

  The loops themselves are imperative methods proved equal to that specification.

Python behaviour the model writes out:

- A dict iterates in insertion order, and re-assigning a key keeps its position (`Dicts.Dict`).
- `x or default` treats an empty list like `None`.
- `str.split` always yields at least one piece. Unpacking it into two names raises `ValueError` otherwise.
- A negative list index counts from the end (`Common.PyIndex`).
- `NotImplementedError` is a `RuntimeError`, so `skip_if_not_supported` skips with its argument. `pytest.skip` takes at most one positional reason, so two or more arguments make it raise TypeError instead.
- A pytest skip is not an `Exception`, so an outer guard lets an inner skip through.

Collaborators are parameters:

- uuids, generated interface names and interface indices;
- the block `allocate_network` returns, or the exception it raises, for `register_network` (the blocks reserved at construction are parameters too);
- what `NetNS`/`IPRoute`, `link_lookup`, `link('del')`, `netns.remove` and `rule('del')` do at teardown: `Cleanup.Outcomes`, one answer per registry entry.

How `teardown` orders its work:

- **An unexpected exception ends all of teardown.** It leaves `teardown()`, so no later loop runs and no block is released (`Cleanup.TeardownAbortsOnInterfaceError`).
- **The owned handles are closed first.** The NDB, the cloned IPRoute and the WireGuard handle are closed before any removal (`Cleanup.Prelude`).

## Model

| member | source | states |
|---|---|---|
| Common.Addresses | tests/test_linux/pr2test/context_manager.py:188 | iterating a block yields exactly its `size` addresses, offset i at position i |
| Common.PyIndex | tests/test_linux/pr2test/context_manager.py:254 | a list index is valid iff `-n <= r < n`; a negative one counts from the end |
| Dicts.Put | tests/test_linux/pr2test/context_manager.py:215 | `d[k] = v` keeps the dict well formed, binds k to v, leaves other keys alone, keeps an existing key's position and appends a new key |
| Dicts.Items | tests/test_linux/pr2test/context_manager.py:322 | `items()` yields every key in insertion order with its value |
| Dicts.PutTwice | tests/test_linux/pr2test/context_manager.py:215 | registering a name twice leaves one entry holding the later value |
| Dicts.SizeIsLength | tests/test_linux/pr2test/context_manager.py:135-136 | a registry has as many entries as iteration positions |
| Guards.SkipIfNotImplemented | tests/test_linux/pr2test/context_manager.py:24-32 | a return passes through; AttributeError and NotImplementedError, and only those, become a skip with reason "feature not implemented"; anything else is re-raised unchanged |
| Guards.SkipIfNotSupported | tests/test_linux/pr2test/context_manager.py:35-47 | a return passes through; NetlinkError EOPNOTSUPP/ENOENT is a skip "feature not supported by platform"; a RuntimeError, NotImplementedError included, with at most one arg is a skip with that arg; one with two or more args makes `pytest.skip(*e.args)` raise TypeError; everything else is re-raised |
| Guards.Enclose | tests/test_linux/pr2test/context_manager.py:24-47 | an inner skip passes through an outer guard; a return or exception reaches the outer guard |
| Guards.NotSupportedReraisesOtherCodes | tests/test_linux/pr2test/context_manager.py:40-43 | any netlink code other than EOPNOTSUPP and ENOENT fails the test with the same error |
| Guards.StackingOrderKeepsSkipDecision | tests/test_linux/pr2test/context_manager.py:24-47 | both stacking orders skip the same bodies exactly unless the body raised a NotImplementedError with two or more args, which only the order with `skip_if_not_implemented` innermost skips; both pass returns through |
| Guards.StackingOrderChangesReason | tests/test_linux/pr2test/context_manager.py:29-45 | for a NotImplementedError the skip reason depends on which guard is innermost |
| Matrix.Split | tests/test_linux/pr2test/context_manager.py:58 | `split` yields at least one piece and no piece holds the separator |
| Matrix.JoinSplit | tests/test_linux/pr2test/context_manager.py:58 | joining the pieces of a split gives back the string |
| Matrix.SplitJoin | tests/test_linux/pr2test/context_manager.py:58 | splitting a join of separator-free pieces gives back the pieces |
| Matrix.SplitFree | tests/test_linux/pr2test/context_manager.py:58 | a string without the separator is its own single piece |
| Matrix.NonEmpty | tests/test_linux/pr2test/context_manager.py:56 | the filtered SKIPDB list holds exactly the non-empty pieces and is no longer than the split |
| Matrix.SkipList | tests/test_linux/pr2test/context_manager.py:56 | the skip list holds exactly the non-empty colon-separated pieces of SKIPDB, none containing a colon |
| Matrix.IsSkipped | tests/test_linux/pr2test/context_manager.py:59 | a provider is skipped iff some skip entry is a prefix of it; an empty skip list skips nothing |
| Matrix.ConnSpecDefaults | tests/test_linux/pr2test/context_manager.py:61-75 | the connection mapping holds only dbname, user, host and port; dbname always; user iff PGUSER is set; host and port iff PGHOST or PGPORT is set, the set ones with their values, a missing host as localhost and a missing port as 5432 |
| Matrix.ConnSpec | tests/test_linux/pr2test/context_manager.py:61-75 | the connection mapping for a non-sqlite3 database; its keys and values are stated by `ConnSpecDefaults` |
| Matrix.BuildConnSpec | tests/test_linux/pr2test/context_manager.py:61-75 | the step-by-step construction equals the connection mapping specified by `ConnSpec` |
| Matrix.EntryOf | tests/test_linux/pr2test/context_manager.py:58-75 | sqlite3 keeps its path as spec; any other provider gets the connection mapping `ConnSpec` builds from the part after the slash and the environment |
| Matrix.KeptEntries | tests/test_linux/pr2test/context_manager.py:57-75 | the kept databases, no more than were given; a failure is always ValueError |
| Matrix.KeptEntriesFailure | tests/test_linux/pr2test/context_manager.py:57-60 | the database list is rejected iff some entry does not split into exactly two parts, and then with ValueError |
| Matrix.KeptEntriesCount | tests/test_linux/pr2test/context_manager.py:57-60 | as many databases survive as `CountKept` counts: those whose provider starts with no SKIPDB prefix |
| Matrix.CountKept | tests/test_linux/pr2test/context_manager.py:57-60 | the number of databases the outer loop keeps: one for each whose provider starts with no SKIPDB prefix; `KeptEntriesCount` and `DbBlocksSize` use it |
| Matrix.KeptEntriesMembership | tests/test_linux/pr2test/context_manager.py:57-75 | a database entry is kept iff it is listed and not skipped |
| Matrix.ParamId | tests/test_linux/pr2test/context_manager.py:80-84 | the id starts `db=<db> target=<target>`, continues with ` table=<table>` when a table is given, ends with ` kind=<kind>` when a kind is given, and is just the head when neither is |
| Matrix.ParamIdLength | tests/test_linux/pr2test/context_manager.py:80-84 | the id is exactly as long as its head, table part and kind part together, so with the prefix and suffix above nothing else is in it |
| Matrix.KindRow | tests/test_linux/pr2test/context_manager.py:79-91 | one parameter per kind, in order |
| Matrix.MakeParam | tests/test_linux/pr2test/context_manager.py:85-90 | one `pytest.param`: the `ContextParams` of the provider, the connection spec, the target, the table and the kind, with the id `ParamId` gives |
| Matrix.TableBlock | tests/test_linux/pr2test/context_manager.py:78-91 | the table loop for one database and target: a `KindRow` per table, in order; stated by `TableBlockSize` and `TableBlockMembership` |
| Matrix.TargetBlock | tests/test_linux/pr2test/context_manager.py:77-91 | the target loop for one database: a `TableBlock` per target, in order; stated by `TargetBlockSize` and `TargetBlockMembership` |
| Matrix.DbBlocks | tests/test_linux/pr2test/context_manager.py:57-91 | the database loop over the kept databases: a `TargetBlock` per database, in order; stated by `DbBlocksSize` and `DbBlocksMembership` |
| Matrix.TableBlockSize | tests/test_linux/pr2test/context_manager.py:78-91 | tables times kinds parameters per target |
| Matrix.TargetBlockSize | tests/test_linux/pr2test/context_manager.py:77-91 | targets times tables times kinds parameters per database |
| Matrix.DbBlocksSize | tests/test_linux/pr2test/context_manager.py:57-91 | the product size over all kept databases |
| Matrix.KindRowMembership | tests/test_linux/pr2test/context_manager.py:79-91 | a parameter is in a row iff it is made from one of the kinds |
| Matrix.TableBlockMembership | tests/test_linux/pr2test/context_manager.py:78-91 | a parameter is in a table block iff it comes from one table and one kind |
| Matrix.TargetBlockMembership | tests/test_linux/pr2test/context_manager.py:77-91 | a parameter is in a target block iff it comes from one target, table and kind |
| Matrix.DbBlocksMembership | tests/test_linux/pr2test/context_manager.py:57-91 | a parameter is produced iff it comes from one kept database, target, table and kind |
| Matrix.ProductFailure | tests/test_linux/pr2test/context_manager.py:57-58 | the matrix fails iff some database string is malformed, with ValueError |
| Matrix.Product | tests/test_linux/pr2test/context_manager.py:55-92 | the parameters for defaulted lists: the kept databases' product with every target, table and kind, or the ValueError of a malformed database; stated by `ProductFailure`, `ProductSize`, `ProductSound` and `ProductComplete` |
| Matrix.ProductSize | tests/test_linux/pr2test/context_manager.py:55-92 | the matrix has kept databases times targets times tables times kinds entries |
| Matrix.ProductSound | tests/test_linux/pr2test/context_manager.py:55-92 | every parameter comes from a kept database and one listed target, table and kind |
| Matrix.ProductComplete | tests/test_linux/pr2test/context_manager.py:55-92 | every combination of a kept database with a listed target, table and kind is produced |
| Matrix.AppendKinds | tests/test_linux/pr2test/context_manager.py:79-91 | the innermost loop appends one kind row |
| Matrix.AppendTables | tests/test_linux/pr2test/context_manager.py:78-91 | the table loop appends one table block |
| Matrix.AppendTargets | tests/test_linux/pr2test/context_manager.py:77-91 | the target loop appends one target block |
| Matrix.CollectParams | tests/test_linux/pr2test/context_manager.py:55-92 | the database loop yields the specified product, or ValueError at the first malformed database |
| Matrix.OrDefault | tests/test_linux/pr2test/context_manager.py:51-54 | `xs or default`: a non-empty list is used as given, an empty or missing one is replaced by the default |
| Matrix.TestMatrix | tests/test_linux/pr2test/context_manager.py:50-92 | the result of `make_test_matrix` fails iff some database string (after defaulting) does not unpack into two parts, and then with ValueError |
| Matrix.MakeTestMatrix | tests/test_linux/pr2test/context_manager.py:50-92 | `make_test_matrix` with its defaults equals `TestMatrix`, and on success its length is the product size |
| Cleanup.IfaceRun | tests/test_linux/pr2test/context_manager.py:322-350 | an interface entry raises iff something but NetlinkError ENODEV was raised; an empty lookup deletes nothing; otherwise the first index is deleted; an opened handle is the first call and its close the last |
| Cleanup.NetnsRun | tests/test_linux/pr2test/context_manager.py:351-355 | a namespace entry calls remove once and raises iff something but FileNotFoundError was raised |
| Cleanup.RuleRun | tests/test_linux/pr2test/context_manager.py:356-369 | a rule entry deletes the rule through a handle for its namespace and raises iff something but NetlinkError ENOENT was raised |
| Cleanup.IfaceRunBalanced | tests/test_linux/pr2test/context_manager.py:348-350 | an interface entry closes the one handle it opens, and opens none when opening fails |
| Cleanup.RuleRunBalanced | tests/test_linux/pr2test/context_manager.py:367-369 | a rule entry closes the one handle it opens, and opens none when opening fails |
| Cleanup.PhaseCleanIff | tests/test_linux/pr2test/context_manager.py:322-369 | a teardown loop finishes iff no entry raises |
| Cleanup.Phase | tests/test_linux/pr2test/context_manager.py:322-369 | one teardown loop: each entry's calls in registry order, and an unswallowed exception leaves the loop; stated by `PhaseCleanIff`, `PhaseStopsAt`, `PhaseFirstError`, `PhaseTraceOrigin`, `PhaseCleanCovers` and `PhaseBalanced` |
| Cleanup.PhaseStopsAt | tests/test_linux/pr2test/context_manager.py:343-347 | after an entry raises, no later entry is attempted and the loop ends with that exception |
| Cleanup.PhaseFirstError | tests/test_linux/pr2test/context_manager.py:343-347 | a loop's exception is that of its first raising entry, after a clean prefix |
| Cleanup.PhaseTraceOrigin | tests/test_linux/pr2test/context_manager.py:322-369 | every call a loop makes is a call of one of its entries |
| Cleanup.PhaseCleanCovers | tests/test_linux/pr2test/context_manager.py:322-369 | a loop that finishes made every call of every entry |
| Cleanup.PhaseBalanced | tests/test_linux/pr2test/context_manager.py:348-350 | when each entry closes what it opens, so does the loop |
| Cleanup.Frees | tests/test_linux/pr2test/context_manager.py:370-374 | one `free_network(net, family)` per block, in order |
| Cleanup.FreePhaseAsWritten | tests/test_linux/pr2test/context_manager.py:370-374 | the release loops as written: one `free_network` per pre-allocated IPv4 block and per registered network, and no more |
| Cleanup.FreePhase | tests/test_linux/pr2test/context_manager.py:370-374 | the corrected release step: one `free_network` per pre-allocated IPv4 block, one for the IPv6 block and one per registered network; with `FreePhaseReleasesAll`, each block exactly once with its family |
| Cleanup.FreesOnlyFrees | tests/test_linux/pr2test/context_manager.py:370-374 | the release loops call nothing but `free_network` |
| Cleanup.FreePhaseAsWrittenOnlyFrees | tests/test_linux/pr2test/context_manager.py:370-374 | the release loops as written call nothing but `free_network` |
| Cleanup.FreePhaseReleasesAll | tests/test_linux/pr2test/context_manager.py:187-191 | the corrected release step gives back the three IPv4 blocks, the IPv6 block and every registered network, each once, with its family |
| Cleanup.FreePhaseAsWrittenLeaksIp6Net | tests/test_linux/pr2test/context_manager.py:370-374 | the release step as written gives back everything except the IPv6 block allocated at construction |
| Cleanup.ObligationsGrow | tests/test_linux/pr2test/context_manager.py:246 | registering a network adds exactly that block, with its family, to what teardown must give back |
| Cleanup.Prelude | tests/test_linux/pr2test/context_manager.py:317-321 | what teardown does first: the sqlite3 backup to `<uid>-post.db` when wanted, then closing the NDB, the IPRoute clone and WireGuard; its properties are stated by `CloseAll` and `TeardownHandlesBalanced` |
| Cleanup.Removal | tests/test_linux/pr2test/context_manager.py:317-369 | the prelude and the three removal loops, each loop started only when the one before finished; its properties are stated by `RemovalFreesNothing`, `RemovalBalanced` and `RemoveAll` |
| Cleanup.TeardownRunAsWritten | tests/test_linux/pr2test/context_manager.py:311-374 | the whole teardown as written: `Removal`, then on a clean run the release loops of lines 370-374; its properties are stated by `TeardownAsWrittenLeaksIp6Net`, `TeardownsAgreeOnErrors`, `TeardownHandlesBalanced`, `TeardownLooksUpInterfaces`, `TeardownDeletesInterfaces`, `TeardownRemovesNamespaces` and `TeardownDeletesRules` |
| Cleanup.TeardownRun | tests/test_linux/pr2test/context_manager.py:311-374 | the whole teardown with the IPv6 block freed as well; its properties are stated by `TeardownCleanIff`, `TeardownHandlesBalanced`, `TeardownAbortsOnInterfaceError` and `TeardownReleasesAll` |
| Cleanup.TeardownCleanIff | tests/test_linux/pr2test/context_manager.py:311-374 | teardown returns iff every interface raises at most ENODEV, every namespace at most FileNotFoundError and every rule at most ENOENT |
| Cleanup.LoopsBalanced | tests/test_linux/pr2test/context_manager.py:348-369 | each teardown loop closes every handle it opens, even when it stops early |
| Cleanup.TeardownHandlesBalanced | tests/test_linux/pr2test/context_manager.py:322-369 | on every path, teardown as written and corrected closes every per-entry handle it opens |
| Cleanup.TeardownAbortsOnInterfaceError | tests/test_linux/pr2test/context_manager.py:343-347 | an unexpected interface error ends teardown: no namespace removal, rule deletion or block release follows |
| Cleanup.TeardownLooksUpInterfaces | tests/test_linux/pr2test/context_manager.py:322-333 | a teardown that returns, as written and corrected, looks up every registered interface whose handle could be opened, through a handle for its namespace |
| Cleanup.TeardownDeletesInterfaces | tests/test_linux/pr2test/context_manager.py:332-342 | a teardown that returns, as written and corrected, deletes every registered interface its lookup found, by the first index returned, through a handle for its namespace |
| Cleanup.TeardownRemovesNamespaces | tests/test_linux/pr2test/context_manager.py:351-355 | a teardown that returns, as written and corrected, removes every registered namespace |
| Cleanup.TeardownDeletesRules | tests/test_linux/pr2test/context_manager.py:356-369 | a teardown that returns, as written and corrected, deletes every registered rule whose handle could be opened, through a handle for its namespace |
| Cleanup.LoopsFreeNothing | tests/test_linux/pr2test/context_manager.py:322-369 | the removal loops release no block |
| Cleanup.TeardownReleasesAll | tests/test_linux/pr2test/context_manager.py:311-374 | a clean corrected teardown (with the IPv6 block freed) gives every held block back exactly once |
| Cleanup.RemovalFreesNothing | tests/test_linux/pr2test/context_manager.py:317-369 | the closes and the removal loops release no block, however they end |
| Cleanup.RemovalBalanced | tests/test_linux/pr2test/context_manager.py:317-369 | the closes and the removal loops close every per-entry handle they open, however they end |
| Cleanup.TeardownAsWrittenLeaksIp6Net | tests/test_linux/pr2test/context_manager.py:311-374 | a clean teardown as written gives back every held block except the IPv6 block allocated at line 189, which the corrected teardown does free |
| Cleanup.TeardownsAgreeOnErrors | tests/test_linux/pr2test/context_manager.py:311-374 | the teardown as written and the corrected one end with the same exception and, when one is raised, make the same calls |
| Cleanup.RemoveInterface | tests/test_linux/pr2test/context_manager.py:323-350 | one interface `try`/`except`/`finally` equals `IfaceRun` |
| Cleanup.RemoveInterfaces | tests/test_linux/pr2test/context_manager.py:322-350 | the interface loop equals `Phase` over `IfaceRun` |
| Cleanup.RemoveNamespaces | tests/test_linux/pr2test/context_manager.py:351-355 | the namespace loop equals `Phase` over `NetnsRun` |
| Cleanup.RemoveRule | tests/test_linux/pr2test/context_manager.py:357-369 | one rule `try`/`except`/`finally` equals `RuleRun` |
| Cleanup.RemoveRules | tests/test_linux/pr2test/context_manager.py:356-369 | the rule loop equals `Phase` over `RuleRun` |
| Cleanup.FreeAll | tests/test_linux/pr2test/context_manager.py:370-371 | a release loop frees each block of a list in order |
| Cleanup.ReleaseNetworks | tests/test_linux/pr2test/context_manager.py:370-374 | the corrected release loops, with the IPv6 block freed after the three IPv4 blocks, equal `FreePhase` |
| Cleanup.ReleaseNetworksAsWritten | tests/test_linux/pr2test/context_manager.py:370-374 | the release loops as written equal `FreePhaseAsWritten` |
| Cleanup.CloseAll | tests/test_linux/pr2test/context_manager.py:317-321 | the sqlite3 backup to `<uid>-post.db`, then closing NDB, IPRoute and WireGuard |
| Cleanup.RemoveAll | tests/test_linux/pr2test/context_manager.py:317-369 | the closes and the three removal loops, stopping at the first unswallowed exception, equal `Removal` |
| Cleanup.RunTeardownAsWritten | tests/test_linux/pr2test/context_manager.py:311-374 | teardown as written equals `TeardownRunAsWritten` |
| Cleanup.RunTeardown | tests/test_linux/pr2test/context_manager.py:311-374 | teardown with the corrected release step equals `TeardownRun` |
| Context.LogPathInjective | tests/test_linux/pr2test/context_manager.py:111-112 | different uids under one base give different log files |
| Context.NewLogPath | tests/test_linux/pr2test/context_manager.py:262-265 | `new_log` uses the given uid unless it is missing or empty, then the generated one |
| Context.Select | tests/test_linux/pr2test/context_manager.py:143-158 | a `ContextParams` supplies target, table, kind and database; a pair supplies target and table; any other value is the target with no table; without a parameter the target is local; the database defaults to sqlite3 in memory |
| Context.ConfigFor | tests/test_linux/pr2test/context_manager.py:160-172 | the NDB `sources`: localhost/local for a local target, localhost/netns in the generated namespace for a netns target, the caller's own otherwise |
| Context.Configure | tests/test_linux/pr2test/context_manager.py:138-177 | the constructor's keyword handling equals `ConfigFor`, and a netns target names the namespace |
| Context.ConfigDatabase | tests/test_linux/pr2test/context_manager.py:146-177 | a non-empty PYROUTE2_TEST_DBNAME forces psycopg2 with that database name over any parameter; otherwise the parameter's database or sqlite3 in memory |
| Context.ConfigLogging | tests/test_linux/pr2test/context_manager.py:138-141 | the caller's log and rtnl_debug win; otherwise the context's log at DEBUG and rtnl_debug on |
| Context.InitialPools | tests/test_linux/pr2test/context_manager.py:187-188 | at construction every address of each IPv4 block is available |
| Context.InitialNamespaces | tests/test_linux/pr2test/context_manager.py:158-163 | the namespace registry after construction holds exactly the netns target's generated namespace, or nothing for other targets |
| Context.InitialInterfaces | tests/test_linux/pr2test/context_manager.py:196-202 | the interface registry after construction holds exactly the default dummy interface, in the main namespace, when running as root, and nothing otherwise |
| Context.Take | tests/test_linux/pr2test/context_manager.py:254 | `ipranges[r].pop()` raises IndexError iff r is out of range or that range is used up |
| Context.TakeFromPools | tests/test_linux/pr2test/context_manager.py:250-254 | the address taken is the last remaining one of the chosen block, is in no range afterwards, and the other ranges are untouched |
| Context.Ip6At | tests/test_linux/pr2test/context_manager.py:260 | indexing the IPv6 block yields the address at that offset, or IndexError past its end |
| Context.ContextManager.constructor | tests/test_linux/pr2test/context_manager.py:129-204 | NDB arguments per `ConfigFor`; a netns target registers its namespace; three full IPv4 pools, the IPv6 counter at 1024, empty registries; as root the generated interface is registered and is the default interface, else `lo` with index 1 |
| Context.ContextManager.Register | tests/test_linux/pr2test/context_manager.py:206-216 | records the interface, named by the caller or generated, with its namespace |
| Context.ContextManager.RegisterNetns | tests/test_linux/pr2test/context_manager.py:218-228 | records the namespace, named by the caller or generated |
| Context.ContextManager.RegisterRule | tests/test_linux/pr2test/context_manager.py:230-235 | appends `(netns, spec)` and returns the spec |
| Context.ContextManager.RegisterNetwork | tests/test_linux/pr2test/context_manager.py:237-248 | records the given or allocated block under its family and describes it; an exception from `allocate_network` leaves the method with nothing recorded; an unknown family raises KeyError; a recorded block becomes a teardown obligation |
| Context.ContextManager.GetIpAddr | tests/test_linux/pr2test/context_manager.py:250-254 | returns the popped address, never one handed out before, or IndexError |
| Context.ContextManager.GetIp6Addr | tests/test_linux/pr2test/context_manager.py:256-260 | returns the address at the next counter value, never one handed out before, or IndexError; the counter advances either way |
| Context.ContextManager.NewLog | tests/test_linux/pr2test/context_manager.py:262-265 | the property always names the log file by a generated uid |
| Context.ContextManager.NewIfname | tests/test_linux/pr2test/context_manager.py:267-273 | registers a generated interface in the root namespace and returns its name |
| Context.ContextManager.NewIpaddr | tests/test_linux/pr2test/context_manager.py:275-280 | takes from the first IPv4 range, and the address taken joins the issued ones, so it is never handed out again |
| Context.ContextManager.NewIp6addr | tests/test_linux/pr2test/context_manager.py:282-287 | takes the next IPv6 address, and the address taken joins the issued ones, so it is never handed out again |
| Context.ContextManager.NewIp4net | tests/test_linux/pr2test/context_manager.py:289-294 | registers a newly allocated IPv4 block under AF_INET and describes it; raises what `allocate_network` raises, with nothing recorded, and never KeyError |
| Context.ContextManager.NewIp6net | tests/test_linux/pr2test/context_manager.py:296-301 | registers a newly allocated IPv6 block under AF_INET6 and describes it; raises what `allocate_network` raises, with nothing recorded, and never KeyError |
| Context.ContextManager.NewNsname | tests/test_linux/pr2test/context_manager.py:303-309 | registers a generated namespace and returns its name |
| Context.ContextManager.Pending | tests/test_linux/pr2test/context_manager.py:322-374 | teardown reads the interfaces and namespaces in insertion order, the rules in order, and the networks by family |
| Context.ContextManager.Outstanding | tests/test_linux/pr2test/context_manager.py:187-191 | the blocks the context holds and teardown must give back: the three IPv4 blocks and the registered networks with AF_INET, the IPv6 block and the registered IPv6 networks with AF_INET6; `RegisterNetwork` grows it by the block it records |
| Context.ContextManager.WantsBackup | tests/test_linux/pr2test/context_manager.py:317 | teardown backs the database up exactly when it is sqlite3 and Python is 3.7 or later |
| Context.ContextManager.Teardown | tests/test_linux/pr2test/context_manager.py:311-374 | `teardown()` as written equals `TeardownRunAsWritten` on the context's registries, so it leaves the IPv6 block allocated |
| Context.ContextManager.TeardownCorrected | tests/test_linux/pr2test/context_manager.py:311-374 | `teardown()` with the release step corrected to free the IPv6 block equals `TeardownRun` on the context's registries |

## Left out

- The collaborators are not modelled: NDB, IPRoute and its clone, NetNS, WireGuard, `netns.remove`, the `utils` allocator, `uifname`, `uuid4`, `getpass`, `os.environ`, `os.getpid` and `sys.version_info`. Their results are parameters. Teardown's answers from `NetNS`/`IPRoute`, `link_lookup`, `link('del')`, `netns.remove` and `rule('del')` are `Cleanup.Outcomes`.
- A failure of `ndb.backup`, `ndb.close`, `self.ipr.close` or `self.wg.close` (lines 317-321), of a per-entry `ipr.close()` (lines 350 and 369) or of `free_network` (lines 371 and 374) is not modelled: `Cleanup.Outcomes` cannot express one. Lines 319-321 have no `try`/`finally`, so if `ndb.close()` raised, the IPRoute clone and WireGuard would stay open and nothing would be removed.
- The `utils` module is not part of this model. `allocate_network()` and `free_network(net)` without a family are taken to mean AF_INET.
- Context.ContextManager.constructor: requires the three IPv4 blocks to be pairwise different. This is an assumption about the allocator, which does not hand out a block it still holds.
- Context.ContextManager.constructor: a failure of NDB creation, of the IPRoute clone, of WireGuard, of `allocate_network` (lines 187 and 189) or of creating the root dummy interface is not modelled.
- Context.ContextManager.constructor: only the `log`, `rtnl_debug` and `sources` keyword arguments are followed. Others pass through to NDB untouched. `db_provider` and `db_spec` are always overwritten.
- Context.Select: a tuple or list parameter with other than two elements raises ValueError when unpacked. `RequestParam` only has pairs.
- Context.Select: the target is taken to be text.
- Context.ContextManager.GetIpAddr: returns the address value, not its `str()` text. No address text rendering is modelled, nor `network.format()`.
- Context.ContextManager.GetIp6Addr: the same, for IPv6 addresses.
- Context.ContextManager.GetIpAddr: a non-integer index (TypeError) is not modelled.
- Context.ContextManager.NewLog: Python passes no argument to a property, so its `uid` parameter is always absent. `Context.NewLogPath` models the method with a uid.
- `SpecContextManager.db_spec` is never read, and `SpecContextManager.teardown` does nothing. Only the uid and the log base and path are modelled.
- Guards.SkipIfNotImplemented: `functools.wraps` metadata is not modelled.
- Guards.SkipIfNotSupported: the same. A skip is an `Outcome` value, not a raised `Skipped` exception.
- Guards.SkipIfNotSupported: exception arguments are taken to be text. A single non-text argument, such as `RuntimeError(errno)`, would make `pytest.skip` raise TypeError, which the model cannot express.
- Matrix.MakeTestMatrix: `pytest.param` is the `Param` value of its values and id.
- Matrix.MakeTestMatrix: an unset environment variable reads as the empty string, which Python treats the same as an empty value.
- Teardown runs single-threaded. No concurrency with other contexts sharing the allocator is modelled.
- `sys.version_info` is compared on its first two fields only.
- Context.ContextManager.TeardownCorrected: the corrected teardown; it also frees the IPv6 block (see Findings). `Context.ContextManager.Teardown` is the code as written.
- Cleanup.RunTeardown: the corrected teardown; it frees the IPv6 block that lines 370-374 never free. `Cleanup.RunTeardownAsWritten` is the code as written.
- Cleanup.ReleaseNetworks: the corrected release loops; they free the IPv6 block, which lines 370-374 do not. `Cleanup.ReleaseNetworksAsWritten` is the code as written.
- Cleanup.TeardownReleasesAll: holds of the corrected teardown only. Of the code as written, `Cleanup.TeardownAsWrittenLeaksIp6Net` holds instead: every block but the IPv6 one is given back.

## Findings

| source | as written | input that shows it | evidently intended | confidence | as-written member | corrected member |
|---|---|---|---|---|---|---|
| tests/test_linux/pr2test/context_manager.py:370-374 | teardown frees the three IPv4 blocks and the registered networks, but not `ip6net`, which the constructor allocated with `allocate_network(AF_INET6)` at line 189 | any context whose teardown finishes: the IPv6 block is still held by the allocator afterwards | every block reserved at construction is released, the IPv6 block with AF_INET6 | not executed | Cleanup.FreePhaseAsWritten, Cleanup.FreePhaseAsWrittenLeaksIp6Net, Cleanup.RunTeardownAsWritten, Cleanup.TeardownAsWrittenLeaksIp6Net, Context.ContextManager.Teardown | Cleanup.FreePhase, Cleanup.FreePhaseReleasesAll, Cleanup.RunTeardown, Cleanup.TeardownReleasesAll, Context.ContextManager.TeardownCorrected |
