# Accounts and the audit gate: a verified model

This project models three parts of the gateway's back end and build tooling, and proves what they promise.

**Account queries** (`Tables`, `Queries`, `BatchedLoading`, `GroupOrder`, `LoadingLaws`, `NestedWindows`, `Stitching`,
`AccountQueries`, `QueryScripts`, `EdgeAccess`).
An `AccountQuery` fetches accounts and then runs one batched query per requested edge, stitching the rows back through
hash maps. `Queries` states a query as a value and gives two meanings to it: `Load`, the batched form, and `Lookup`,
what one account would find on its own. `Stitching` and `AccountQueries` are the imperative program: objects with edges
that are filled in place, maps that are built in loops and read in arbitrary order, builder calls that update a query
and its nested queries. `AccountQuery.SqlAll` is proved to produce `Load` in the heap, and `LoadRefinesLookup` proves
that `Load` is `Lookup` at every depth; `QueryScripts` says what chains of builder calls amount to and select.
`GroupOrder`, `LoadingLaws` and `NestedWindows` hold the consequences, and `EdgeAccess` what the edge accessors report
afterwards.

**Account creation and update** (`BulkCreate`, `BulkLaws`, `AccountCreation`, `AccountRows`, `EdgeUpdate`).
`BulkCreate` is the chain of mutators behind a bulk creation, each wrapped in hooks and calling the next, with one batch
insert at the innermost point. `BulkLaws` proves the order and nesting of everything it does, and exactly which hooks
keep it all-or-nothing. `AccountCreation` is the preparation of one creation (defaults, then checks), `AccountRows` the
specification that is stored and the scanning of a row back into an account, `EdgeUpdate` the translation of edge
changes into lists of edges to clear and to add.

**The audit gate** (`AuditParser`, `AuditGate`, `AuditLaws`, `AuditReports`, `AuditInputs`).
`AuditParser` is the line by line reader of the exception list, `AuditGate` the extraction of findings from a decoded
report and the decision loops, `AuditLaws` the exact meaning of a pass and how the verdict depends on the date, the
exceptions and the order of the findings, `AuditReports` which reports crash the gate or stay silent, and `AuditInputs`
what the gate reads from reports and exceptions field by field, and when it blocks or passes in these terms.

Main results that are not what a reader might expect:

- The groups of an account come in the order of the whole batch, not of the account's own join rows. The two are the
  same exactly if the batch names the account's groups in the order in which its own rows do (`GroupsInRowOrderIff`,
  `BatchKeepsGroupOrderIff`; `BatchChangesGroupOrder` is a database where they differ).
- A limit or offset on a nested query applies to the neighbours of all nodes together. For children, usage logs,
  join-table rows, proxy and parent it is harmless exactly if it cuts nothing off the batch (the theorems of
  `NestedWindows`; with `LimitTakesAnothersChild`, a limit of 1 leaves one of two accounts without its only child). What
  all nodes get together is what was fetched (`ChildrenArePartitioned` and its companions). For groups it is harmless exactly if every row cut off repeats a link that stays
  and the rows that stay keep the order of each account's groups, as they do without an offset (`GroupsWindowExact`).
- A query keeps the predicates of its earlier runs. On the same snapshot this changes nothing (`RerunIsStable`); on a
  changed one, accounts that are new get no usage logs, no join-table rows and no children, and a proxy or a parent only
  if an account of the earlier run had the same key (`RerunKeepsOldOwners`).
- The comment on `Clone` (`backend/ent/account_query.go:386-387`) says that all associated steps are copied; the code
  drops the modifiers, so a clone is the same query exactly if no query in the tree takes locks (`CloneIsSameQuery`).
- A bulk creation is all-or-nothing for every hook list whose hooks are honest, and every dishonest hook breaks some
  bulk (`HonestIsAllOrNothing`, `DishonestBreaksSomeBulk`).
- The core of a bulk mutator checks its builder's own mutation before it takes over the one that the hooks hand on
  (`backend/ent/account_create.go:2111-2116`). What is inserted passes its checks exactly if every mutation does that
  reached a core in place of the builder's own (`InsertedPassIff`, `BulkInsertsCompleteIff`); an incomplete account that a hook hands
  on is inserted unchecked (`HandingOnEscapesSomeCheck`, `HandedOnAccountIsNotChecked`). These results, and the others
  about bulks, are for hooks that call their next mutator at most once.
- Clearing a to-many edge does not withdraw ids added before (`ManyCallsTakeEffectIff`). On to-one edges, clearing the
  edge keeps an id that was set, and the two resets each leave one of the two cleared marks behind although their
  comments speak of all changes (`LastOneCallWinsIff`).
- The gate allows for numeric sources as advisory ids (comment at `tools/check_pnpm_audit_exceptions.py:128`), but such
  a source crashes it when it is also the title of last resort (`VulnerabilityCrashesIff`, `NumericSource`).
- A high or critical vulnerability is passed over exactly if no element of its `via` has an advisory id, and none has a
  title that crashes the gate (`VulnerabilityIsSilentIff`, `SilentReportPasses`).
- The order of the findings decides the verdict exactly if everything else is in order, some finding disagrees with the
  severity that its exception states, and for every key some finding does not (`OrderDecidesIff`; `OrderMatters` is a
  pair of findings, and `VerdictIgnoresOrder` the case of findings that agree among themselves).

Assumptions about what lies outside the source: tables are finite sequences of rows with unique primary keys (the
join table may hold any rows), predicates are functions of a row, `ORDER BY` is a stable sort, a query without one
returns rows in table order, a limit or offset of 0 in a query specification is unset, and rows carry distinct ids, so
that `DISTINCT` changes nothing. Update specifications are read as: clear first, then add; a clear that names no
targets clears the whole edge. A database driver puts a cell into a destination of its type and refuses any other.

## Model

| member | source | states |
|---|---|---|
| Tables.BatchedSelect | backend/ent/account_query.go:765-767 | Asking for the rows of many owners at once and keeping one owner's gives the rows of a query for that owner alone, in the same order, under any predicates and ordering without a window |
| Tables.FilterSort | backend/ent/account_query.go:894-900 | A stable multi-key sort commutes with every filter |
| Tables.RowsSound | backend/ent/account_query.go:881-893 | A selection returns only rows of the table that satisfy all predicates, and all of them when there is no window |
| Tables.RowsMean | backend/ent/account_query.go:884-900 | Without limit and offset a selection returns the rows that satisfy it, sorted by its order terms, ties in table order; of these, limit and offset take row offset + k as the k-th, as many as the limit allows |
| Tables.FirstDifferenceDecides | backend/ent/account_query.go:894-900 | The first order term on which two rows differ decides, smaller values first |
| Tables.SortKeepsTies | backend/ent/account_query.go:894-900 | Rows that no order term tells apart keep the order of the table |
| Queries.DistinctKeysSound | backend/ent/account_query.go:688-703 | The keys to ask for are duplicate-free and exactly the non-nil foreign keys of the nodes |
| BatchedLoading.JoinRowsMember | backend/ent/account_query.go:627-670 | A joined row is in the batch iff its account was asked for, its group satisfies the query, and the join table links the two |
| BatchedLoading.NeighboursOfRows | backend/ent/account_query.go:661-676 | The neighbours are the groups of the rows, one per group id |
| BatchedLoading.GroupsRefineJoin | backend/ent/account_query.go:627-687 | For any join table, duplicates included, an account gets exactly the groups linked to it, each once and in the order the groups query asks for |
| BatchedLoading.GroupsArriveSorted | backend/ent/account_query.go:627-687 | Whatever else is in the batch, an account's groups are sorted by the order terms of the groups query |
| BatchedLoading.JoinRowsMean | backend/ent/account_query.go:627-670 | The joined rows are sorted by the order terms on the group, and limit and offset take their page of the rows of all accounts together |
| GroupOrder.SameGroupListIff | backend/ent/account_query.go:650-685 | Two lists of join rows give an account the same list of groups iff they link it to the same groups and name these in the same order |
| GroupOrder.GroupsInRowOrderIff | backend/ent/account_query.go:650-685 | An account's groups come in the order of its own rows iff, whenever its rows name g before h, the whole batch names g before h |
| GroupOrder.BatchKeepsGroupOrderIff | backend/ent/account_query.go:627-687 | For any database and batch, loading an account in the batch gives its groups in the order of loading it alone iff the batch keeps that order |
| GroupOrder.BatchChangesGroupOrder | backend/ent/account_query.go:650-685 | A database of two accounts, two groups and three join rows where the two orders differ |
| BatchedLoading.ProxyRefinesLookup | backend/ent/account_query.go:688-718 | The last write of the batch to an account's proxy is the proxy that a lookup by its key finds first |
| BatchedLoading.ParentRefinesLookup | backend/ent/account_query.go:720-750 | The parent left in an account is the one a lookup by its key finds, with its own edges agreeing with its own lookup |
| BatchedLoading.ChildrenRefineLookup | backend/ent/account_query.go:752-783 | The children are, in order, the rows that point at the account, each agreeing with its own lookup |
| BatchedLoading.OwnedRefinesLookup | backend/ent/account_query.go:785-844 | Usage logs and account-group rows left in an account are those a lookup for it alone returns, in the same order |
| BatchedLoading.ProjectionKeepsKeys | backend/ent/account_query.go:866-880 | Every projection has the id first and once, keeps all selected fields, and keeps each foreign key a requested loader reads |
| BatchedLoading.ColumnsMean | backend/ent/account_query.go:866-880 | Without selected fields all columns are asked for, otherwise exactly the id, the fields, and the keys of the requested loaders |
| BatchedLoading.ScannedFields | backend/ent/account_query.go:866-880 | A scanned account holds exactly the columns asked for, as they are in its row |
| BatchedLoading.LoadedPage | backend/ent/account_query.go:884-893 | A run returns one node per account of its page: node k is account offset + k of the selected and sorted ones, scanned |
| BatchedLoading.LoadRefinesLookup | backend/ent/account_query.go:550-625 | Batched loading is the naive per-node lookup, at every depth of nesting, for any database with unique keys and nested queries without a window; group lists are the same, each in the order asked for, up to ties |
| BatchedLoading.LoadIsLookup | backend/ent/account_query.go:550-625 | If the order terms of every groups query in the tree leave no ties, the loaded nodes are equal to the looked-up ones, group order included |
| BatchedLoading.SelectedIDsDistinct | backend/ent/account_query.go:562-583 | The nodes of a run have pairwise distinct ids, whatever the projection |
| BatchedLoading.ParentsWereAsked | backend/ent/account_query.go:736-748 | Every fetched parent carries an id that was asked for, so the unexpected-key error cannot occur |
| BatchedLoading.ChildrenWereAsked | backend/ent/account_query.go:762-781 | Every fetched child has a foreign key, under any projection, and it was asked for: neither error can occur |
| LoadingLaws.RerunIsStable | backend/ent/account_query.go:720-844 | A second run on the same snapshot returns the same nodes and edges at every depth, although each run appends predicates and columns to the nested queries |
| LoadingLaws.GroupsQueryKeepsTheJoin | backend/ent/account_query.go:627-648 | After a run that returned accounts, the groups query carries one more join, with their ids in order |
| LoadingLaws.RerunKeepsOldOwners | backend/ent/account_query.go:688-844 | After the data changed, a rerun without a groups edge gives an account its usage logs, join-table rows and children iff the earlier run returned the account (or returned none), and its proxy and parent iff the earlier run asked for its key (or for none); parents and children are compared by their rows |
| LoadingLaws.ParentsAndChildrenAreInverse | backend/ent/account_query.go:720-783 | Over one snapshot, b is among a's loaded children iff a is b's loaded parent |
| LoadingLaws.ChildrenArePartitioned | backend/ent/account_query.go:752-783 | The children of all nodes together are the fetched neighbours, as a multiset; a nested limit bounds their total |
| LoadingLaws.UsageLogsArePartitioned | backend/ent/account_query.go:785-813 | The same for usage logs |
| LoadingLaws.AccountGroupsArePartitioned | backend/ent/account_query.go:815-844 | The same for join-table rows |
| NestedWindows.NestedWindowExact | backend/ent/account_query.go:752-783 | A window on the children query leaves every node's children complete iff it cuts nothing off the whole batch |
| NestedWindows.LimitTakesAnothersChild | backend/ent/account_query.go:752-783 | A database of two accounts with one child each, where a limit of 1 on the children query leaves the second account without its child |
| NestedWindows.UsageLogsWindowExact | backend/ent/account_query.go:785-813 | The same for usage logs |
| NestedWindows.AccountGroupsWindowExact | backend/ent/account_query.go:815-844 | The same for join-table rows |
| NestedWindows.ProxyWindowExact | backend/ent/account_query.go:688-718 | A window on the proxy query leaves every node its proxy iff it cuts nothing off the batch of all keys |
| NestedWindows.ParentWindowExact | backend/ent/account_query.go:720-750 | The same for the parent, with the parent's own edges |
| NestedWindows.GroupsWindowExact | backend/ent/account_query.go:627-687 | A window on the groups query leaves every node its groups in order iff every row cut off repeats a link that stays and the rest names each account's groups in the same order; without an offset the order always stays |
| LoadingLaws.ProjectionKeepsEdges | backend/ent/account_query.go:866-880 | Any field selection changes the scanned fields only; all edges at all depths are the same |
| Stitching.CollectNeighbours | backend/ent/account_query.go:650-671 | The scan loop fills the map from group id to the linked nodes and keeps the neighbours unique, in order of arrival |
| Stitching.AppendGroup | backend/ent/account_query.go:682-684 | Whatever the order of iterating over the map, each linked account gets the group appended once and no other changes |
| Stitching.AssignGroups | backend/ent/account_query.go:677-685 | Every account ends with the neighbours linked to it, in neighbour order |
| Stitching.BucketBy | backend/ent/account_query.go:688-703 | The id list is the distinct keys in order; each bucket is exactly the nodes with that key, repeats and nil keys included |
| Stitching.AssignProxies | backend/ent/account_query.go:709-717 | Fails iff some neighbour has an id without a bucket; otherwise every node ends with the last neighbour matching its key |
| Stitching.AssignParents | backend/ent/account_query.go:741-749 | The same for parents, with nodes sharing one parent object |
| Stitching.IndexByID | backend/ent/account_query.go:753-761 | The id index maps exactly the ids of the nodes, each to its node |
| Stitching.AssignChildren | backend/ent/account_query.go:772-782 | Fails iff a neighbour has no key or an unknown one; otherwise each node's children are the in-order filter of the neighbours |
| Stitching.AssignUsageLogs | backend/ent/account_query.go:804-812 | The same for usage logs |
| Stitching.AssignAccountGroups | backend/ent/account_query.go:834-843 | The same for join-table rows |
| AccountQueries.LoadGroups | backend/ent/account_query.go:627-687 | The many-to-many loader leaves in every node the groups of its joined rows, and its join on the query |
| AccountQueries.LoadProxy | backend/ent/account_query.go:688-718 | The proxy loader never fails, leaves every node the proxy with its key, and issues no query when every key is nil |
| AccountQueries.LoadUsageLogs | backend/ent/account_query.go:785-813 | The loader never fails and leaves every node its own usage logs |
| AccountQueries.LoadAccountGroups | backend/ent/account_query.go:815-844 | The loader never fails and leaves every node its own join-table rows |
| AccountQueries.LoadParent | backend/ent/account_query.go:720-750 | The recursive loader never fails, leaves every node its loaded parent, and its predicate on the nested query |
| AccountQueries.LoadChildren | backend/ent/account_query.go:752-783 | The recursive loader never fails, leaves every node its loaded children, and its column and predicate on the nested query |
| AccountQueries.AccountQuery.SqlAll | backend/ent/account_query.go:550-625 | Running a query of any depth terminates, returns fresh nodes whose edges are the loaded values (for which accounts, `LoadedPage` says), and leaves on the query tree exactly what the loaders append |
| AccountQueries.AccountQuery.Apply | backend/ent/account_query.go:44-72 | Any sequence of builder calls builds the query that `BuildMeans` describes, and every nested query it installs is a new object |
| AccountQueries.AccountQuery.First | backend/ent/account_query.go:208-217 | Returns a node iff the query without its own limit selects any, and then the first one after its offset; the limit of 1 stays on the query |
| AccountQueries.AccountQuery.Only | backend/ent/account_query.go:254-267 | Distinguishes no, one and several accounts exactly, ignoring the query's own limit |
| AccountQueries.NewQuery | backend/ent/account_query.go:434-452 | A nested query is fresh and configured by its options only |
| QueryScripts.BuildMeans | backend/ent/account_query.go:44-72 | Of any builder calls: predicates, order terms, fields and locks add up in order; limit, offset, uniqueness and each edge are as the last call that sets them says, or as before; nested queries likewise, from their own options |
| QueryScripts.ScriptSelects | backend/ent/account_query.go:44-72 | A new query configured by any calls selects exactly the accounts that satisfy every predicate given, each once, in the order of the order terms given |
| QueryScripts.Search | backend/ent/account_query.go:307-314 | From the calls to the accounts: configuring a new query and running it returns the page that the last limit and offset take of those accounts |
| AccountQueries.Clone | backend/ent/account_query.go:388-408 | A clone shares no object with its original at any depth and is the original without its locks |
| AccountQueries.UseCloneAndOriginal | backend/ent/account_query.go:388-408 | Whatever builder calls and runs are made on a clone and its original, in any interleaving, each query is left as by its own calls and runs alone |
| AccountQueries.CloneIsSameQuery | backend/ent/account_query.go:388-408 | The clone denotes the same query iff no query in the tree takes locks |
| AccountQueries.CloneLosesOnlyLocks | backend/ent/account_query.go:388-408 | A clone has no locks and is its original in everything else, at every depth |
| AccountQueries.LocksDoNotMatter | backend/ent/account_query.go:388-408 | Queries that differ in locks only, such as a clone and its original, load the same nodes from any database |
| EdgeAccess.ListAccessors | backend/ent/account.go:111-165 | After a run, a list edge is reported as not loaded iff it was not requested, and otherwise holds the loaded value |
| EdgeAccess.ParentAccessor | backend/ent/account.go:131-138 | The parent is not loaded iff not requested, not found iff requested and the key is nil or matches no row of the nested query |
| EdgeAccess.ProxyAccessor | backend/ent/account.go:120-127 | The same for the proxy |
| BulkCreate.Mutate | backend/ent/account_create.go:2107-2147 | The chained mutators, whose hooks may hand on another mutation, do on shared arrays, builders and mutation objects what the specified chain says: outcome, marks, ids, recorded specs; a mutation that was replaced is not marked |
| BulkCreate.Save | backend/ent/account_create.go:2095-2152 | The outcome is the specified one; exactly the mutations that finished builders hold are newly marked and point at returned nodes, which carry the inserted fields and the reported ids |
| BulkCreate.BatchCreate | backend/ent/account_create.go:2120-2127 | The insert gets all recorded specs in builder order; a constraint violation is returned as a constraint error and another failure as the database's; reported ids are put on the specs |
| BulkCreate.MarksInTrace | backend/ent/account_create.go:2134-2142 | The marked builders of a run are those with a mark in its trace |
| BulkLaws.SaveNests | backend/ent/account_create.go:2104-2147 | For hooks that call next at most once: every event happens inside exactly the hooks before it, hook 0 of builder 0 outermost, and hooks close like brackets |
| BulkLaws.SaveWritesOnce | backend/ent/account_create.go:2107-2133 | For hooks that call next at most once: a bulk inserts iff the hooks of every builder all call next and the builder's own mutation then passes the check; it inserts once, without a rejection, the mutation that reached each core |
| BulkLaws.InsertedPassIff | backend/ent/account_create.go:2111-2133 | For the same hooks: all inserted specs pass their check iff every mutation that reached a core in place of the builder's own does |
| BulkLaws.KeptMutationsPass | backend/ent/account_create.go:2107-2133 | If no hook hands on another mutation, every inserted spec has passed its check |
| BulkLaws.HandingOnEscapesSomeCheck | backend/ent/account_create.go:2111-2116 | For every hook that hands on another mutation on some input, a bulk of one builder inserts a spec that fails its check |
| BulkLaws.HonestIsAllOrNothing | backend/ent/account_create.go:2095-2152 | With honest hooks, which call next at most once, success means that all rows exist and all mutations are marked, failure that none are |
| BulkLaws.DishonestBreaksSomeBulk | backend/ent/account_create.go:2143-2145 | Every hook that is not honest breaks the all-or-nothing guarantee of some bulk of one builder |
| BulkLaws.SaveTrace | backend/ent/account_create.go:2095-2152 | With hooks that pass everything on: the exact sequence of entries, recordings, rejection or single insert, marks and exits, and the exact error |
| BulkLaws.SaveErrors | backend/ent/account_create.go:2111-2131 | With such hooks: there is no error iff no check fails and the insert succeeds; a constraint error iff the first failing check returns it, or none fails and the insert violates a constraint; likewise for other database errors |
| BulkLaws.HooksEditInOrder | backend/ent/account_create.go:2104-2147 | The spec of a builder is its mutation with the defaults, edited by its hooks one after the other, hook 0 first |
| BulkLaws.MarkedLastToFirst | backend/ent/account_create.go:2134-2142 | Mutations are marked from the last builder to the first, all on success and none on failure |
| AccountCreation.AccountCreate.FillDefaults | backend/ent/account_create.go:520-576 | The defaults are filled in order up to the first uninitialized one |
| AccountCreation.FillMeans | backend/ent/account_create.go:520-576 | Set fields are never touched, only unset ones get their default, and filling fails iff an unset field has no default |
| AccountCreation.DefaultsByColumn | backend/ent/account_create.go:520-576 | Four unset columns get what their own configured function returns, seven their own configured constant, the others nothing |
| AccountCreation.DefaultsFailIff | backend/ent/account_create.go:520-576 | The defaults fail iff a function for an unset column is not initialized |
| AccountCreation.DefaultsFailOnTheFirst | backend/ent/account_create.go:520-576 | They fail on the first such column |
| AccountCreation.DefaultsAreStable | backend/ent/account_create.go:520-576 | Filling in twice, even with other defaults the second time, is filling in once |
| AccountCreation.AccountCreate.RunChecks | backend/ent/account_create.go:579-652 | The checks run in order up to the first that fails |
| AccountCreation.NoFailureIff | backend/ent/account_create.go:579-652 | There is no error iff no single check fails, and the error is that of the first check that fails |
| AccountCreation.FirstUnsound | backend/ent/account_create.go:579-652 | The error is that of the first of fifteen columns, in a fixed order, that is missing though required or invalid, says which of the two, and names the column's field |
| AccountCreation.ChecksPassIffComplete | backend/ent/account_create.go:579-652 | The checks accept exactly the accounts with all required fields and only valid set values |
| AccountCreation.CheckedFields | backend/ent/account_create.go:579-652 | Which fourteen fields are required and which six have a validator |
| AccountCreation.IgnoredDefaultsErrorIsCaught | backend/ent/account_create.go:2106-2114 | A defaults error that a bulk drops always makes the check fail afterwards |
| AccountCreation.DefaultsThenChecks | backend/ent/account_create.go:520-652 | After the defaults the checks pass iff the caller set name, platform and type, and every set value is valid |
| AccountCreation.BulkInsertsCompleteIff | backend/ent/account_create.go:2095-2152 | For hooks that call next at most once: a bulk inserts all of its accounts or none, and those inserted are all complete iff every account that reached a core in place of the builder's own is |
| AccountCreation.BulkInsertsCompleteAccounts | backend/ent/account_create.go:2095-2152 | For hooks that call next at most once, with the mutation they were given: a bulk of accounts inserts all of its accounts, each complete, or nothing |
| AccountCreation.HandedOnAccountIsNotChecked | backend/ent/account_create.go:2111-2116 | A bulk of one complete account whose hook hands on another account inserts that one, whatever it lacks |
| AccountRows.BuildSpec | backend/ent/account_create.go:682-857 | The built account and spec hold exactly the set fields, in order, and one edge spec per edge with ids |
| AccountRows.AllOthersAreFields | backend/ent/account_create.go:682-800 | Every column but the id and the two keys of to-one edges can be set as a field |
| AccountRows.ZeroMeans | backend/ent/account.go:19-90 | Fields that are never nil start as the zero value of their type |
| AccountRows.StoredCells | backend/ent/account_create.go:682-857 | The stored row holds every set field in its own column, the keys of the to-one edges in theirs, and null elsewhere |
| AccountRows.ScanValues | backend/ent/account.go:168-189 | One destination per column, of the type the column is read with |
| AccountRows.AccountNode.AssignValues | backend/ent/account.go:193-417 | Columns are assigned in order up to the first error; too few values are refused before any assignment |
| AccountRows.NeverUnexpected | backend/ent/account.go:168-417 | For any columns, known or not, and any row, no unexpected-type error can occur |
| AccountRows.FirstErrorStops | backend/ent/account.go:193-417 | Assigning a row fails iff a column has a destination of another type or a document that does not decode; the error is that of the first such column, the columns before it stay assigned |
| AccountRows.RoundTrip | backend/ent/account.go:168-417 | Storing a creation and reading any columns, in any order, repeated or unknown to the table, gives no error and rebuilds the created account as far as the columns go; all columns rebuild it entirely, nil fields staying nil, and unknown columns are kept beside it |
| EdgeUpdate.ManyEdge.Add | backend/ent/mutation.go:3879-3886 | Adding ids in a loop adds exactly these |
| EdgeUpdate.ManyEdge.Remove | backend/ent/mutation.go:3899-3907 | Removing ids withdraws pending additions and records the removal |
| EdgeUpdate.ManyEdge.Perform | backend/ent/mutation.go:3879-3930 | Any sequence of calls leaves the state that the calls give one by one |
| EdgeUpdate.OneEdge.Perform | backend/ent/mutation.go:2790-2836 | Any sequence of calls on a to-one edge of the mutation links what the last call asks, for every row, unless that call is one of the three overridden ones |
| EdgeUpdate.ManyCallsAccumulate | backend/ent/mutation.go:3879-3930 | For any calls, the result is what the calls say one by one plus the ids added before a clear and not touched since |
| EdgeUpdate.ManyCallsTakeEffectIff | backend/ent/mutation.go:3879-3930 | The result is what the calls say one by one iff there are no such ids |
| EdgeUpdate.ClearKeepsWhatWasAdded | backend/ent/mutation.go:3889-3891 | Adding an id and clearing the edge afterwards leaves the id linked |
| EdgeUpdate.LastOneCallWinsIff | backend/ent/mutation.go:3933-3974 | A to-one edge ends as the last call asks iff the last call is not one of three named clears and resets over leftover state |
| EdgeUpdate.ClearEdgeKeepsTheID | backend/ent/mutation.go:3933-3936 | Setting an id and clearing the edge keeps the id; clearing the id does not |
| EdgeUpdate.UpdateSpec.Emit | backend/ent/account_update.go:949-1153 | The emitted specs name, edge by edge and in order, exactly the ids to clear and to add, each once, in any order within a spec |
| EdgeUpdate.EdgesAreKept | backend/ent/account_update.go:949-1153 | Every emitted spec has the relation and the direction of its edge: groups many-to-many, proxy and parent many-to-one, the parent inverse, children and usage logs one-to-many |
| EdgeUpdate.SpecsInOrder | backend/ent/account_update.go:949-1153 | At most one spec per edge to clear and one to add, in the order groups, proxy, parent, children, usage logs |
| EdgeUpdate.SpecsMeanTheChanges | backend/ent/account_update.go:949-1153 | Interpreting the specs gives (nothing if cleared, else old minus removed) plus added for to-many edges, and new, none or old for to-one edges |
| EdgeUpdate.NothingClearedByAccident | backend/ent/account_update.go:949-1130 | On every edge, a clear spec is emitted iff the mutation cleared the edge or removed ids from it, and one without targets iff it cleared the edge |
| EdgeUpdate.NoClearSpecsIff | backend/ent/account_update.go:949-1130 | An update emits no clear spec at all iff its mutation neither clears nor removes anything on any edge |
| EdgeUpdate.UpdateFollowsTheCalls | backend/ent/account_update.go:949-1153 | From the calls on the mutation to the links after the update, on all five edges: a to-many edge ends as the calls say one by one, plus the stale ids; a to-one edge as the last call asks, or, if that call is one of the three overridden ones, with the id it does not drop or with none |
| EdgeUpdate.OrderOfIDsIsIrrelevant | backend/ent/account_update.go:2119-2323 | Any two saves of the same mutation, by either builder, emit the same specs up to the order of ids and mean the same |
| AuditParser.StripSplits | tools/check_pnpm_audit_exceptions.py:15-20 | Stripping cuts off exactly blank padding |
| AuditParser.SpacesAre | tools/check_pnpm_audit_exceptions.py:29 | Stripping removes the 29 white space characters of Unicode |
| AuditParser.UnquoteIff | tools/check_pnpm_audit_exceptions.py:15-20 | A value loses its first and last character iff they are one and the same kind of quote, and nothing else |
| AuditParser.SplitMeans | tools/check_pnpm_audit_exceptions.py:12-20 | A line is split at its first colon into a stripped key and a stripped value, which then loses its quotes |
| AuditParser.PairIff | tools/check_pnpm_audit_exceptions.py:28-47 | Which lines begin an entry and which continue one, and the pair that they give |
| AuditParser.IgnoredIff | tools/check_pnpm_audit_exceptions.py:28-47 | Exactly which lines are skipped: empty ones, comments, the two headers, and a line without a colon that begins no entry |
| AuditParser.SkippedLinesDoNotMatter | tools/check_pnpm_audit_exceptions.py:28-33 | A blank line, a comment or a header can be put anywhere in the file without changing what is read |
| AuditParser.DashHasContent | tools/check_pnpm_audit_exceptions.py:35-42 | After a dash and a space there is always content, so the guard for an empty rest never fails |
| AuditParser.ParseExceptions | tools/check_pnpm_audit_exceptions.py:23-48 | The loop returns the entries that the lines form block by block, or crashes as `ReaderCrashesIff` says |
| AuditParser.ReaderCrashesIff | tools/check_pnpm_audit_exceptions.py:12-42 | The reader crashes iff some line has no colon and its content starts with a dash and a space |
| AuditParser.OneEntryPerStart | tools/check_pnpm_audit_exceptions.py:35-38 | There are as many entries as dash lines |
| AuditParser.LastLineWins | tools/check_pnpm_audit_exceptions.py:35-47 | A key line lands in the entry of the latest dash line, and the last line for a key gives its value |
| AuditParser.KeysComeFromLines | tools/check_pnpm_audit_exceptions.py:35-47 | Every key of an entry comes from a line that belongs to the entry |
| AuditParser.RoundTrip | tools/check_pnpm_audit_exceptions.py:12-48 | Any list of non-empty entries, written line by line with any indentation, each value quoted or plain (a plain one trimmed and not in quotes), is read back as exactly that list |
| AuditParser.TextReads | tools/check_pnpm_audit_exceptions.py:27-28 | A text reads as its lines, with any of the three line ends, and with or without one at the very end |
| AuditParser.TextRoundTrip | tools/check_pnpm_audit_exceptions.py:23-48 | The round trip for the file as text, with any line ends, if no indentation, key or value contains one |
| AuditGate.IterVulnerability | tools/check_pnpm_audit_exceptions.py:81-111 | One finding per advisory id in `via`, or a crash when the titles cannot be joined |
| AuditGate.IterVulns | tools/check_pnpm_audit_exceptions.py:64-111 | The findings of both tables in order, or a crash |
| AuditGate.IndexExceptions | tools/check_pnpm_audit_exceptions.py:156-188 | The index and the errors that the exceptions give in order, the first of two with the same key staying |
| AuditGate.ScanFindings | tools/check_pnpm_audit_exceptions.py:190-219 | Findings are looked up once per key; missing and expired keys and errors are collected in order |
| AuditGate.Gate | tools/check_pnpm_audit_exceptions.py:142-243 | The verdict lists all errors, then the missing, then the expired keys; it passes iff there are none |
| AuditLaws.IndexHolds | tools/check_pnpm_audit_exceptions.py:156-188 | A key is indexed iff some well-formed exception has it, with the data of such an exception |
| AuditLaws.IndexMeans | tools/check_pnpm_audit_exceptions.py:156-188 | There is no error iff every exception is well-formed and no two share a key |
| AuditLaws.IndexKeepsFirst | tools/check_pnpm_audit_exceptions.py:177-188 | Of several exceptions with one key the first stays indexed |
| AuditLaws.IndexErrors | tools/check_pnpm_audit_exceptions.py:156-183 | The errors of the exceptions, exception by exception: why it is refused, or that an earlier one has its key |
| AuditLaws.ScanFindsKeys | tools/check_pnpm_audit_exceptions.py:190-219 | The missing keys are those needed and not indexed, the expired ones those needed with an expired exception |
| AuditLaws.ScanReports | tools/check_pnpm_audit_exceptions.py:190-219 | Nothing is reported iff every relevant finding has an advisory id and no first finding for a key disagrees on severity |
| AuditLaws.ScanLists | tools/check_pnpm_audit_exceptions.py:190-219 | Errors, missing and expired keys are listed finding by finding, each key once, with the first finding that needs it |
| AuditLaws.VerdictLists | tools/check_pnpm_audit_exceptions.py:221-243 | The verdict lists the errors, then every missing key, then every expired one, in the order of the scan |
| AuditLaws.PassesIffAcceptable | tools/check_pnpm_audit_exceptions.py:156-243 | Soundness and completeness: the loops pass iff exceptions and findings satisfy the declarative condition |
| AuditLaws.ExitCodeIsZeroIff | tools/check_pnpm_audit_exceptions.py:142-243 | The exit code is 0 iff extraction does not crash and the condition holds |
| AuditReports.RunGate | tools/check_pnpm_audit_exceptions.py:142-243 | The exit code is 0 iff no line of the exception file is malformed, extraction does not crash and the condition holds |
| AuditLaws.PassesEarlier | tools/check_pnpm_audit_exceptions.py:214-217 | What passes on a date passes on every earlier date |
| AuditLaws.UnusedExceptionIff | tools/check_pnpm_audit_exceptions.py:156-219 | With an exception no finding uses, the gate passes iff it passes without it and the exception is well-formed with a key of its own |
| AuditLaws.FreshExceptionIsHarmless | tools/check_pnpm_audit_exceptions.py:156-219 | Adding a well-formed exception with a fresh key anywhere keeps a passing gate passing |
| AuditLaws.KeysIgnoreOrder | tools/check_pnpm_audit_exceptions.py:190-219 | The sets of missing and expired keys do not depend on the order or repetition of findings |
| AuditLaws.VerdictIgnoresOrder | tools/check_pnpm_audit_exceptions.py:190-219 | If findings with the same key agree on the severity, neither does the verdict |
| AuditLaws.OrderDecidesIff | tools/check_pnpm_audit_exceptions.py:190-219 | Some order of the findings passes and another fails iff everything else is in order, some finding disagrees with the severity its exception states, and for every key some finding does not |
| AuditLaws.OrderMatters | tools/check_pnpm_audit_exceptions.py:203-213 | Two findings with one key, of which one agrees with the stated severity, pass in one order and fail in the other |
| AuditReports.VulnerabilityCrashesIff | tools/check_pnpm_audit_exceptions.py:81-109 | Extraction crashes on a vulnerability iff it is no object or a `via` object has a truthy title that is not a string |
| AuditReports.NumericSource | tools/check_pnpm_audit_exceptions.py:89-109 | A numeric source alone crashes extraction; beside a title it is yielded as the advisory id |
| AuditReports.VulnerabilityIsSilentIff | tools/check_pnpm_audit_exceptions.py:81-111 | A vulnerability yields no finding and no crash iff it is an object and no element of its `via` has an advisory id or a title that is not a string |
| AuditReports.SilentReportPasses | tools/check_pnpm_audit_exceptions.py:142-243 | A report of one critical vulnerability with an empty `via` exits with 0 without any exception |
| AuditReports.AdvisoryCrashesIff | tools/check_pnpm_audit_exceptions.py:51-72 | Extraction crashes on an advisory iff it is no object, or it has neither GitHub id nor URL and a `cves` that is neither empty nor a list nor a string |
| AuditReports.FindingsCrashIff | tools/check_pnpm_audit_exceptions.py:64-111 | Extraction as a whole crashes iff the report is no object or some member of its two tables is such an advisory or vulnerability |
| AuditReports.GateCrashesIff | tools/check_pnpm_audit_exceptions.py:142-243 | The gate crashes iff extraction does, or a member that yields findings has a severity that is neither empty nor a string |
| AuditInputs.FalsyAre | tools/check_pnpm_audit_exceptions.py:81-111 | The six empty values, which `or` passes over |
| AuditInputs.GetMeans | tools/check_pnpm_audit_exceptions.py:51-61 | A field of an object is the value of the first member with its key, or null |
| AuditInputs.AdvisoryMeans | tools/check_pnpm_audit_exceptions.py:66-78 | An advisory makes one finding: its name is `module_name` or else `name`, its identifier the first non-empty of GitHub id, URL, first CVE, printed id, title, advisory, overview |
| AuditInputs.VulnerabilityMeans | tools/check_pnpm_audit_exceptions.py:80-111 | A vulnerability makes one finding, under its own name, for every element of `via` that offers an id, in order; an object offers the first non-empty of GitHub id, URL, source, title, name |
| AuditInputs.TitleMeans | tools/check_pnpm_audit_exceptions.py:97-108 | The title of an object in `via` is the first non-empty of title, URL, advisory, source |
| AuditInputs.FindingsAreReported | tools/check_pnpm_audit_exceptions.py:64-111 | The findings looked at are exactly those that the members of the two tables make |
| AuditInputs.FindingsInOrder | tools/check_pnpm_audit_exceptions.py:64-111 | They come advisory by advisory and then vulnerability by vulnerability |
| AuditInputs.FindingMeans | tools/check_pnpm_audit_exceptions.py:114-131 | Which findings need an exception, how a severity is normalized, and the key: package as it is, advisory in lower case, both stripped |
| AuditInputs.ExceptionMeans | tools/check_pnpm_audit_exceptions.py:156-188 | An exception with all five fields, a date and a key that is not blank grants its key up to its date; nothing else does |
| AuditInputs.RefusalMeans | tools/check_pnpm_audit_exceptions.py:157-177 | Why an exception is refused: a field is missing, else its date is none, else its key is blank |
| AuditInputs.UnexcusedFindingBlocks | tools/check_pnpm_audit_exceptions.py:190-243 | A report with a named high or critical finding exits with 1 unless an exception for its key has not expired |
| AuditInputs.WithoutExceptionsItBlocks | tools/check_pnpm_audit_exceptions.py:190-243 | Without exceptions every such finding makes the gate exit with 1 |
| AuditInputs.ExcusedReportPasses | tools/check_pnpm_audit_exceptions.py:142-243 | A readable report exits with 0 if the exceptions are well kept and every such finding has an advisory and an unexpired exception that states no other severity |

## Left out

- SQL text, `sqlQuery`, `sqlScan`, `sqlCount`, `GroupBy`, `Aggregate`, path traversal and the `Query...` methods: library code that is not part of the source; tables are sequences with predicates.
- Database failures while loading, interceptors, privacy rules, the soft-delete filter, contexts and logging: a load always reaches its table.
- Column-name validation and hand-written column lists: columns are an enumeration, with one case for names outside the table.
- Negative limits and offsets: limits and offsets are natural numbers.
- Stitching.CollectNeighbours: nodes have distinct ids, as a selection on a table with a unique key returns them; the case of repeated nodes in many-to-many loading is not stated.
- AccountQueries.AccountQuery.SqlAll: the groups query must not carry a join from an earlier run; a second run would join the table twice, and what that returns depends on library code.
- AccountQueries.Clone: the nested queries for groups, proxies, usage logs and join-table rows are values held by the query, without edges of their own, so their independence after cloning needs no proof and says nothing about slices they might share.
- BatchedLoading.LoadRefinesLookup: ties between groups may be broken in another order than a lookup would; `LoadIsLookup` states equality without ties.
- AccountQueries.AccountQuery.Apply: the options of a nested query are scripts of builder calls, not arbitrary functions.
- BulkCreate.Mutate: closures are represented by the builder and the hook they belong to; a hook calls its next mutator at most once (one that calls it again can insert twice, or after a rejection), another mutation that it hands on is a new object of the same type, and a builder occurs once in a bulk.
- BulkCreate.Save: conflict clauses are part of the insert, which is a parameter of the model.
- AccountRows.RoundTrip: documents are encoded and decoded by an abstract pair of functions that lose nothing; a nil map set explicitly, which is stored as JSON null, is not distinguished from an unset field; a repeated JSON column is decoded anew rather than merged.
- AccountRows.AccountNode.AssignValues: integers are unbounded; `int(value.Int64)` truncates on 32-bit platforms.
- EdgeUpdate.UpdateSpec.Emit: the join-row defaults attached to group edges, the field specs of an update, and the rule that a child owned by another account is refused are not modelled.
- AuditParser.ParseExceptions: `strip` removes the white space characters of Unicode by their code points; decoding the file as UTF-8 is not modelled.
- AuditGate.IterVulns: a decoded object has every key once; the order in which the decoder drops repeated keys is not modelled.
- AuditGate.Gate: lower case, printed forms of values and ISO dates are parameters; message wording is reduced to the kind of error and its key.
- Setters, upserts, `String`, `Unwrap` and the panicking variants: one-liners with nothing to prove.
- The sibling entities (account groups, announcements, API keys, identities) follow the same template and would repeat members.
- The front-end build configuration and the prose on billing and scheduling: no implementing logic in the source that was modelled.
