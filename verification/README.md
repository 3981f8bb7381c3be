# sub2api: eager loading, bulk creation and the audit gate

A Dafny model of three algorithms of sub2api and proofs about them.

**Eager loading** (`backend/ent/account_query.go`, `backend/ent/accountgroup_query.go`). A query returns accounts and,
for every requested edge, runs one more query for the whole batch and joins the rows in memory. The database is a
sequence of rows per table; a query filters, sorts stably and applies offset and limit (`Selections`). A batched load is
described twice as values: as the batches compute it (`EagerSpec`) and as one lookup per node and edge would
(`EagerNaive`). `EagerRefinement` and `EagerFailures` prove that the two agree, in result and in failure, for every
query tree whose edge queries are unlimited. `EagerAttach` and `EagerLoad` are the loaders as the program has them: loops
that index mutable nodes by id or foreign key, hand found rows to them and recurse, proved against the values. `Nodes` says
when an object graph shows a tree of values. `EagerLaws`, `EagerRoutes` and `EagerAccessors` draw consequences;
`EagerLimits` and `EagerWindows` say what a limit or offset on an edge query does, `EagerReruns` what running a builder
twice does. `Queries` has the query builders as mutable objects, and `Clone`; `QueryCopies` what becomes of a builder
and its copy. `SelectionMeaning` and `EagerMeaning` describe the result without the functions that compute it: which
stored rows were due, in which order, and which of their columns are shown.

**Bulk creation** (`backend/ent/account_create.go`, `backend/ent/account.go`). `AccountCreate` has the defaults and the
checks on a mutation, `AccountSpec` the row description and the round trip through `AccountScan`, the reading side.
`BulkCreate` runs the chain of mutators with its hooks, the single insert and the completion on the way back;
`BulkTrace` states the shape of the events of a run, `SavedAccounts` that a query finds what was saved.
`AccountMeaning`, `AccountRules` and `AccountEdges` say field by field, rule by rule and edge by edge what is read,
filled in, checked and written.

**The audit gate** (`tools/check_pnpm_audit_exceptions.py`). `AuditText` has the line parser, `AuditRoundTrip` its
canonical form, `AuditGate` the findings of a report, `AuditVerdict` the index, the scan and the verdict.
`AuditStability` and `AuditChanges` say what added, repeated and reordered findings and records do to it.
`AuditLayout` has exception files as people write them, `AuditMeaning` what texts, dates, identifiers and exceptions
amount to.

Where something one might expect does not hold, the model keeps the code's behaviour and says exactly when it does hold:

- A limit or offset on an edge query cuts the whole batch, so accounts can be starved (`EagerLimits.EdgeLimitStarves`).
  Every node still gets what it would get alone exactly if nothing is cut, or nothing is left, or what is cut belongs
  with what is kept (`EagerLimits.WindowExact`; edge by edge `EagerLimits.UsageLogsWindowExact`,
  `EagerLimits.ChildrenWindowExact`, `EagerWindows.GroupsWindowExact`, `EagerWindows.JoinsWindowExact`,
  `EagerWindows.TargetWindowExact`, `EagerWindows.LeafTargetWindowExact`).
- A load leaves its batch predicate in the edge builder, so a second load can miss rows (`EagerReruns.SecondLoadLoses`).
  It returns what a fresh builder would exactly if it asks for no row the first one's keys miss
  (`EagerReruns.SecondRunExactly`; edge by edge `EagerReruns.SecondLogsExactly`, `EagerReruns.SecondChildrenExactly`,
  `EagerReruns.SecondJoinsExactly`, `EagerReruns.SecondTargetExactly`, `EagerReruns.SecondLeafTargetExactly`). Over an
  unchanged database a whole tree of builders can always be loaded again (`EagerReruns.LoadAgain`).
- The many-to-many edge and the way through the join rows can lead to different groups (`EagerRoutes.RoutesDiffer`).
  They lead to the same exactly if no predicate of the join query hides one (`EagerRoutes.RoutesAgree`).
- `Clone` is documented to duplicate all steps of a builder, but drops the locking modifiers, also of nested builders
  (`QueryCopies.CopyLosesLock`). The copy stands for the same query exactly if no builder of the tree has one
  (`QueryCopies.CopyCompleteExactly`, `QueryCopies.JoinCopyCompleteExactly`).
- The gate breaks off without a verdict exactly if an item of the exception file has no colon, the titles of a
  vulnerability cannot be joined because one is a number, or a severity that is looked at is a nonzero number
  (`AuditVerdict.BreaksOffExactly`, on an input `AuditVerdict.NumericSourceBreaks`).
- An added advisory can make a failing gate pass (`AuditChanges.AddedInFrontCanHelp`). Advisories can be added at a
  place so that it passes exactly if everything but the findings is in order, the findings before that place are
  acceptable, and each one after it has a key that came before or a fitting exception
  (`AuditChanges.AddedAdvisoriesExactly`, on findings `AuditStability.AddingHelpsExactly`). So no addition helps at the
  end (`AuditStability.MoreAtTheEndNeverHelps`, `AuditChanges.AddedVulnerabilitiesNeverHelp`), nor anywhere if severity
  is a matter of the key (`AuditStability.MoreNeverHelps`, `AuditChanges.MoreRecordsNeverHelp`).
- The order of the findings can decide the verdict. A scan is clean in every order exactly if each finding would be
  alone (`AuditStability.EveryOrderExactly`), and in some order exactly if of every key one would be
  (`AuditStability.SomeOrderExactly`).
- The error of `defaults` is ignored by the bulk save; it is not lost, because the check fails whenever `defaults` did
  (`AccountCreate.DefaultsErrorResurfaces`).

Conventions: `X.Y` is member `Y` of module `X`. A ghost parameter `rows` is the list of values a list of nodes was
scanned from, `S` a set of objects an object graph lies in. A zero limit or offset means none, as in the code.

## Model

| member | source | states |
|---|---|---|
| EagerRefinement.LoadIsNaive | backend/ent/account_query.go:550-844 | for every query tree with unlimited edges, one query per edge and a join in memory return the same nodes, edges and orders, at every depth, as one lookup per node and edge |
| EagerRefinement.LoadJoinsIsNaive | backend/ent/accountgroup_query.go:334-436 | the same for queries over join rows, the other half of the recursion |
| EagerRefinement.AccountTargetIsNaive | backend/ent/account_query.go:720-751 | the account a key leads to in the batch is what asking for that key alone returns |
| EagerRefinement.ChildrenAreNaive | backend/ent/account_query.go:752-784 | the children picked out of the batch for an id are the answer to the query for that id alone |
| EagerRefinement.AccountGroupsAreNaive | backend/ent/account_query.go:815-844 | the same for join rows and their own edges |
| EagerMeaning.LoadedRight | backend/ent/account_query.go:550-844 | for every query tree with unlimited edges: the loaded accounts are the stored rows that meet the caller's predicates, sorted by the caller's order options with ties in table order, cut by the caller's limit and offset; each shows the selected columns, and at every requested edge, at every depth, the rows that were due there in the same sense |
| EagerMeaning.LoadedJoinsRight | backend/ent/accountgroup_query.go:334-436 | the same for join rows |
| EagerMeaning.NaiveTreeRight | backend/ent/account_query.go:550-844 | the same for one account looked up alone, with any limits on its edges |
| EagerMeaning.LogsRight | backend/ent/account_query.go:785-814 | the usage logs of an account are the stored logs with its id that meet the edge query, in the order the caller gave, each with its id, its owner and the selected attributes |
| EagerMeaning.GroupsRight | backend/ent/account_query.go:627-687 | its groups are the stored groups with a join row of the account that meet the edge query, in its order |
| EagerMeaning.ChildrenFound | backend/ent/account_query.go:752-784 | its children are the stored accounts with its id as parent, in the order the caller gave, with everything below them |
| EagerMeaning.JoinsFound | backend/ent/account_query.go:815-844 | its join rows likewise |
| EagerMeaning.TargetFound | backend/ent/account_query.go:720-751 | a key leads to the stored account with that id, if one meets the edge query |
| EagerMeaning.LeafTargetFound | backend/ent/account_query.go:688-719 | the same for proxies and joined groups |
| EagerMeaning.ColumnsExactly | backend/ent/account_query.go:866-880 | a column is read if and only if there is no projection, or it is the id, or the caller selected it, or it is a foreign key that an edge needs |
| EagerMeaning.ScanJoinReads | backend/ent/accountgroup_query.go:447-470 | a join row shows exactly the columns selected or needed, and zero elsewhere |
| EagerMeaning.ScanLeafReads | backend/ent/account_query.go:866-880 | a group, a proxy or a usage log shows its id and of the rest exactly what was selected |
| EagerFailures.SameFailure | backend/ent/account_query.go:524-625 | the batched load fails exactly if some naive lookup would: an invalid projection matters only where a query is run for an existing node and a set key |
| EagerFailures.SameJoinsFailure | backend/ent/accountgroup_query.go:308-377 | the same for join rows |
| EagerFailures.Rejection | backend/ent/account_query.go:535-539 | a projection is rejected exactly if it has an unknown column, and for the first one |
| EagerFailures.UnknownColumnFails | backend/ent/account_query.go:524-625 | an unknown column in the projection of the query, or of an edge that is loaded for some account, is reported |
| EagerFailures.KnownNeverFails | backend/ent/account_query.go:524-625 | a tree of builders that names no unknown column never fails, whatever is stored |
| EagerGroups.StreamShareIsNaive | backend/ent/account_query.go:627-687 | the groups an account receives from the joined row stream of a batch are those of the query for its groups alone, each once, in the query's order |
| EagerGroups.SortJoinPairs | backend/ent/account_query.go:639-647 | sorting the join by a group order is joining the sorted groups: rows of one group stay together |
| EagerLoad.SqlAll | backend/ent/account_query.go:550-625 | the returned objects show the batched load of the query, or the call reports the field at which the load fails first; nothing else is reported |
| EagerLoad.SqlAllJoins | backend/ent/accountgroup_query.go:334-377 | the same for join rows |
| EagerLoad.PrepareQuery | backend/ent/account_query.go:535-539 | the loop reports the first invalid field, and nothing if there is none |
| EagerLoad.All | backend/ent/account_query.go:307-314 | an invalid projection is rejected before anything runs, otherwise the nodes are loaded |
| EagerLoad.LoadEdges | backend/ent/account_query.go:586-624 | all requested edges show their share of the batch; the first failure in the order groups, proxy, parent, children, usage logs, join rows ends the load, with the field that was rejected there |
| EagerLoad.LoadGroups | backend/ent/account_query.go:627-687 | every account shows the groups of the row stream joined to its id; the only error is a rejected projection, so the unexpected-node branch is dead |
| EagerLoad.LoadProxy | backend/ent/account_query.go:688-719 | every account shows the proxy its key leads to, or none; without keys no query is run; the unexpected-key branch is dead |
| EagerLoad.LoadParent | backend/ent/account_query.go:720-751 | the same for the parent account, with the parent's own edges |
| EagerLoad.LoadChildren | backend/ent/account_query.go:752-784 | every account shows its share of the children found; the nil-key and unexpected-key branches are dead because the foreign key is always selected |
| EagerLoad.LoadUsageLogs | backend/ent/account_query.go:785-814 | the same for usage logs |
| EagerLoad.LoadAccountGroupsEdge | backend/ent/account_query.go:815-844 | the same for join rows with their own edges |
| EagerLoad.LoadOwner | backend/ent/accountgroup_query.go:379-407 | every join row shows the account it names |
| EagerLoad.LoadJoinedGroup | backend/ent/accountgroup_query.go:408-436 | every join row shows the group it names |
| EagerLoad.QueryColumns | backend/ent/account_query.go:866-880 | the loop computes the projection: id first, the caller's columns, the foreign keys needed |
| EagerLoad.ScanNode | backend/ent/account_query.go:563-571 | making holders, filling and assigning them yields the entity of the row, without an error and without edges |
| EagerLoad.ChildrenHaveKeys | backend/ent/account_query.go:762-775 | every child found carries a foreign key that was asked for |
| EagerLoad.TargetsHaveIDs | backend/ent/account_query.go:735-746 | every account found for a list of keys has one of the keys as id |
| EagerLoad.ScannedDistinct | backend/ent/account_query.go:575-584 | the nodes of one query have distinct ids, whatever is selected |
| EagerNaive.IdFirstOnce | backend/ent/account_query.go:866-873 | the id is the first selected column, and is selected once, with an explicit projection or without |
| EagerNaive.ColumnsHaveKeys | backend/ent/account_query.go:866-880 | the keys the joins read are among the selected columns |
| EagerNaive.LeafPicked | backend/ent/account_query.go:785-814 | rows picked from a batch by key are the answer to the query for the key |
| EagerNaive.PresentKeysComplete | backend/ent/account_query.go:689-700 | the ids asked for are exactly the foreign keys that are set |
| EagerAttach.IndexByForeignKey | backend/ent/account_query.go:689-700 | the loop yields the distinct keys in order and, for each, the nodes with that key in order; nodes without a key are skipped |
| EagerAttach.IndexById | backend/ent/account_query.go:753-761 | the loop yields the ids and, for each, the last node that has it |
| EagerAttach.AttachChildren | backend/ent/account_query.go:772-783 | for arbitrary rows: every row before the first stray one goes to the last node with its key, in order, and the stray row ends the load with the error of its kind |
| EagerAttach.AttachUsageLogs | backend/ent/account_query.go:805-813 | the same for usage logs, which have no nil-key error |
| EagerAttach.AttachAccountGroups | backend/ent/account_query.go:835-843 | the same for join rows |
| EagerAttach.AttachProxies | backend/ent/account_query.go:709-717 | for arbitrary rows: each node with the row's key points to it, later rows win, nodes without a target stay as they were |
| EagerAttach.AttachParents | backend/ent/account_query.go:741-749 | the same for parents |
| EagerAttach.AttachOwners | backend/ent/accountgroup_query.go:397-405 | the same for accounts of join rows |
| EagerAttach.AttachJoinedGroups | backend/ent/accountgroup_query.go:426-434 | the same for groups of join rows |
| EagerAttach.CollectGroups | backend/ent/account_query.go:653-671 | scanning any stream makes a node of each group at its first row and collects exactly the accounts joined to it |
| EagerAttach.GiveGroup | backend/ent/account_query.go:682-684 | a group goes once to each of its accounts, whatever order the set yields them in |
| EagerAttach.AttachGroups | backend/ent/account_query.go:677-685 | every account receives its groups in the order they were found; an unexpected group ends the load |
| EagerLaws.GroupsByFirstAppearance | backend/ent/account_query.go:661-670 | the groups of a stream are its distinct ids in order of first appearance |
| EagerLaws.RepeatedRow | backend/ent/account_query.go:661-670 | repeating a row anywhere later in the stream changes no account's groups |
| EagerLaws.OwnsIffLast | backend/ent/account_query.go:755-761 | a node owns its id exactly if no later node has it |
| EagerLaws.PickKeepsOrder | backend/ent/account_query.go:772-783 | what one node receives are exactly the rows of its key, in their order |
| EagerLaws.NothingLostOrDoubled | backend/ent/account_query.go:772-783 | if every key is known, what the nodes receive together is a permutation of the rows, even if nodes share ids |
| EagerLaws.ChildrenConserved | backend/ent/account_query.go:752-784 | on the objects: the attached children are a permutation of those found, and a node whose id repeats later stays empty |
| EagerLaws.PresentKeysDistinct | backend/ent/account_query.go:689-700 | the ids asked for are without duplicates |
| EagerLaws.BucketsPartition | backend/ent/account_query.go:689-700 | the index splits exactly the nodes that have a key among the ids |
| EagerLimits.WindowExact | backend/ent/account_query.go:888-893 | for any edge query with any limit and offset over a table with a primary key: every asked key gets the rows it would get alone if and only if the window returns nothing, or everything, or all rows up to its end have one key and no other key has more rows than the offset skips |
| EagerLimits.UsageLogsWindowExact | backend/ent/account_query.go:785-814 | the same for what the accounts receive over the usage log edge |
| EagerLimits.ChildrenWindowExact | backend/ent/account_query.go:752-784 | the same for children with their own edges |
| EagerLimits.EdgeLimitStarves | backend/ent/account_query.go:785-814 | an input on which a limit of one leaves an account without its log |
| EagerWindows.GroupsWindowExact | backend/ent/account_query.go:627-687 | the same for the many-to-many edge, where the limit cuts the joined rows: every account gets the groups it would get alone if and only if the window over the joined rows is harmless |
| EagerWindows.ShareOfGrouped | backend/ent/account_query.go:653-685 | from a stream that comes group by group without repetition, an account receives the groups of its own rows, in their order |
| EagerWindows.JoinsWindowExact | backend/ent/account_query.go:815-844 | the same for join rows with their own edges; where the group id is not read, join rows of one account cannot be told apart and a harmless window is sufficient only |
| EagerWindows.JoinsCoincide | backend/ent/account_query.go:815-844 | a database on which it is not necessary: without the group id a window that is not harmless gives every account what it would get alone |
| EagerWindows.TargetWindowExact | backend/ent/account_query.go:720-751 | the same for the account a key leads to, with its own edges: the parent, and the owner of a join row |
| EagerWindows.LeafTargetWindowExact | backend/ent/account_query.go:688-719 | the same for proxies, and for the groups of join rows |
| EagerReruns.SecondRunExactly | backend/ent/account_query.go:702-703 | a builder that keeps the predicate of a first batch returns, over any table, what the untouched builder would, if and only if every row the second batch asks for was among the first one's keys |
| EagerReruns.SecondLogsExactly | backend/ent/account_query.go:785-814 | a usage log builder loaded a second time, over any database, gives every account its logs if and only if each account was in the first batch or has none |
| EagerReruns.SecondChildrenExactly | backend/ent/account_query.go:762-767 | the same for children |
| EagerReruns.SecondJoinsExactly | backend/ent/account_query.go:815-834 | the same for join rows |
| EagerReruns.SecondTargetExactly | backend/ent/account_query.go:734-735 | the same for parents and owners, by key |
| EagerReruns.SecondLeafTargetExactly | backend/ent/account_query.go:702-703 | the same for proxies and joined groups |
| EagerReruns.SecondLoadLoses | backend/ent/account_query.go:785-814 | a database on which a second load misses a log |
| EagerReruns.LoadAgain | backend/ent/account_query.go:586-624 | a tree of builders that keeps, at every depth, what its first load left in it returns over the same database the same nodes and edges again, with all limits |
| EagerReruns.FailureAgain | backend/ent/account_query.go:586-624 | and fails at the same field or not at all |
| EagerRoutes.RoutesAgree | backend/ent/account_query.go:627-687 | on every loaded account and for any predicates: the groups of the many-to-many edge are the groups reached through the join rows if and only if the join query hides no row that is the only way to one; equally often if pairs are unique |
| EagerRoutes.NaiveRoutesAgree | backend/ent/accountgroup_query.go:408-436 | the same for one account looked up alone |
| EagerRoutes.SameMembersExactly | backend/ent/accountgroup_query.go:408-436 | on the rows: the join rows never lead to a group the direct edge lacks, and lead to all of them exactly if none is hidden |
| EagerRoutes.PlainJoinsHideNothing | backend/ent/accountgroup_query.go:408-436 | a join query without predicates hides nothing |
| EagerRoutes.RoutesDiffer | backend/ent/account_query.go:627-687 | a database and a query on which the many-to-many edge has a group the join rows do not lead to |
| EagerRoutes.LoadsAccount | backend/ent/account_query.go:550-585 | every stored account is loaded by that query, so the difference is met |
| EagerAccessors.ToManyAccessors | backend/ent/account.go:109-165 | after a load each to-many accessor answers the naive list exactly if the edge was requested, else not-loaded |
| EagerAccessors.ToOneAccessors | backend/ent/account.go:118-138 | proxy and parent: not-loaded iff not requested, not-found iff requested without a target, else the target |
| EagerAccessors.JoinAccessors | backend/ent/accountgroup.go:45-65 | the same for the edges of a join row |
| EagerAccessors.NoTarget | backend/ent/account_query.go:702-717 | there is no target exactly if the key is unset or no row with that id meets the edge query |
| EagerAccessors.NoAccountTarget | backend/ent/account_query.go:734-749 | the same for accounts |
| Queries.AccountQuery.Clone | backend/ent/account_query.go:388-408 | the copy shares no object with the original at any depth and stands for the same query less its locks |
| Queries.AccountGroupQuery.Clone | backend/ent/accountgroup_query.go:220-236 | the same across the mutual recursion |
| QueryCopies.CopyCompleteExactly | backend/ent/account_query.go:388-408 | the copy stands for the same query if and only if no builder of the tree, at any depth and of either kind, has a locking clause |
| QueryCopies.JoinCopyCompleteExactly | backend/ent/accountgroup_query.go:220-236 | the same for queries over join rows |
| QueryCopies.CopyLosesLock | backend/ent/account_query.go:388-408 | builders with a lock on a nested edge query, and a copy that stands for another query |
| QueryCopies.CopyOfCopy | backend/ent/account_query.go:388-408 | a copy is lock-free, and copying it again loses nothing more |
| QueryCopies.ApplyAll | backend/ent/account_query.go:44-72 | any list of steps, With steps with builders of their own at any depth included, leaves the builder standing for the steps applied in order |
| QueryCopies.SeparateWays | backend/ent/account_query.go:388-408 | however any steps on a builder and on its copy alternate, each ends up as if the other had not been touched |
| Queries.AccountQuery.Where | backend/ent/account_query.go:44-47 | adds the predicate to this builder and writes to no other object |
| Queries.AccountQuery.Order | backend/ent/account_query.go:69-72 | appends the order option, and writes to no other object |
| Queries.AccountQuery.Limit | backend/ent/account_query.go:50-53 | sets the limit in the builder's own context |
| Queries.AccountQuery.WithParent | backend/ent/account_query.go:434-441 | the edge query becomes part of the tree; the rest of the query is unchanged |
| Queries.AccountGroupQuery.WithAccount | backend/ent/accountgroup_query.go:240-247 | the same for the account of a join row |
| Selections.SortFilter | backend/ent/account_query.go:881-900 | stable sorting commutes with filtering |
| Selections.RunNarrows | backend/ent/account_query.go:881-900 | narrowing an unlimited batched query to one key gives the query for the key |
| Selections.RunUnique | backend/ent/account_query.go:881-900 | a query over a table with a primary key returns distinct keys |
| Selections.StableSortPermutes | backend/ent/account_query.go:894-900 | sorting loses and invents nothing |
| SelectionMeaning.RunAnswers | backend/ent/account_query.go:881-900 | a query returns the page that limit and offset cut out of exactly the rows that meet all predicates, sorted by the order options one after the other, ties by position |
| SelectionMeaning.AnswerUnique | backend/ent/account_query.go:881-900 | that description admits one list of rows only |
| SelectionMeaning.LessIsLexicographic | backend/ent/account_query.go:894-900 | of several order options the first in which two rows differ decides |
| Nodes.Account.ScanValues | backend/ent/account.go:168-189 | one empty holder per column, of the kind of the column |
| Nodes.Account.AssignValues | backend/ent/account.go:193-417 | the loop assigns column by column, stops at the first error with the columns before it assigned, and rejects too few values |
| AccountScan.OnlyJsonCanFail | backend/ent/account.go:193-417 | for every column list, unknown and repeated columns included, assignment reports an error exactly if a JSON column does not decode, and never a type mismatch |
| AccountScan.ColumnOrderIrrelevant | backend/ent/account.go:193-417 | the entity depends on which columns were read, not on their order or repetition |
| AccountScan.AssignColumnLens | backend/ent/account.go:198-415 | assigning a column changes that column and no other |
| AccountScan.ScanAllColumns | backend/ent/account.go:168-417 | reading all columns of a row reproduces it |
| AccountScan.ScanRowCell | backend/ent/account.go:168-417 | a column that was read shows the stored value, the others the zero value |
| AccountMeaning.ScanRowReads | backend/ent/account.go:168-417 | reading a list of columns fills the field of each column with the stored value and leaves every other field zero, all fields named |
| AccountMeaning.ZeroValues | backend/ent/account.go:168-417 | the zero value of every field |
| AccountMeaning.AssignExactly | backend/ent/account.go:193-417 | a holder of the wrong kind is an error that names the column, NULL changes nothing but the id, and a column of another name is kept beside the entity |
| AccountMeaning.AssignObject | backend/ent/account.go:193-417 | a JSON object joins the members already there and wins over them, null makes the document nil |
| AccountCreate.Defaults | backend/ent/account_create.go:527-585 | fills in what is unset, in order, up to the first nil default function, whose error it returns |
| AccountCreate.DefaultedSetting | backend/ent/account_create.go:527-585 | defaults changes nothing that was set, and on success every defaulted column holds its default |
| AccountCreate.DefaultsStopped | backend/ent/account_create.go:527-553 | an error names a column that is still unset |
| AccountCreate.DefaultsIdempotent | backend/ent/account_create.go:2105-2105 | running defaults again on a shared mutation, at a later clock reading, changes nothing |
| AccountCreate.Check | backend/ent/account_create.go:588-662 | returns the first unmet requirement |
| AccountCreate.ChecksPass | backend/ent/account_create.go:588-662 | the check passes exactly if every requirement is met, and otherwise complains about one that is not |
| AccountCreate.DefaultsErrorResurfaces | backend/ent/account_create.go:2105-2113 | for every draft and every choice of nil default functions, if defaults fails then the check fails |
| AccountCreate.ChecksAfterDefaults | backend/ent/account_create.go:527-662 | if defaults succeeds, the check passes exactly if name, platform and type are there and accepted and the texts are accepted; no other complaint is possible |
| AccountRules.DefaultsExactly | backend/ent/account_create.go:527-585 | if defaults succeeds, each of the eleven settings is as it was or has its own default |
| AccountRules.DefaultsLeaveTheRest | backend/ent/account_create.go:527-585 | settings without a default and the edges stay as they were, whether it succeeds or not |
| AccountRules.DefaultsErrorExactly | backend/ent/account_create.go:527-553 | it fails at the first default function that is needed and nil, in the order created, updated, credentials, extra |
| AccountRules.CheckExactly | backend/ent/account_create.go:588-662 | the complaint is the first of fifteen, each said of its own setting: missing, or refused by its own validator |
| AccountRules.QuotaDimensionExactly | backend/ent/account/account.go:242-249 | the quota dimension is global or spark |
| AccountSpec.Describe | backend/ent/account_create.go:682-891 | the node and the spec hold exactly what was set, in order, with one edge spec per edge that has ids |
| AccountSpec.NodeCell | backend/ent/account_create.go:682-801 | the node shows every setting, and the zero value elsewhere |
| AccountSpec.ForeignKeys | backend/ent/account_create.go:824-857 | the foreign keys read off the edge specs are the proxy and the parent that were set |
| AccountSpec.WriteReadRoundTrip | backend/ent/account_create.go:682-891 | the row described by the spec, read through holders and assignment, is the entity createSpec returned, but for the id |
| AccountMeaning.CreatedFields | backend/ent/account_create.go:682-801 | the node createSpec returns has every setting in its own field and zero where nothing was set, all fields named |
| AccountMeaning.SpecFieldsExactly | backend/ent/account_create.go:682-801 | the fields of the spec are exactly the columns and values the draft holds, but for the keys |
| AccountEdges.JoinsWritten | backend/ent/account_create.go:804-823 | the edge specs insert join rows for exactly the groups that were added, in order, with the default priority and time |
| AccountEdges.RowsClaimed | backend/ent/account_create.go:858-890 | they claim exactly the children and the usage logs that were added |
| AccountEdges.KeysWritten | backend/ent/account_create.go:824-857 | they write the proxy and the parent under the names of their columns |
| AccountEdges.OneSpecEach | backend/ent/account_create.go:804-891 | there is one spec for every edge with ids and none for the others |
| BulkCreate.AccountCreateBulk.Save | backend/ent/account_create.go:2095-2152 | all or nothing: the outcome, the inserts, the events, the described rows, the ids and the completion marks of a save, for every number of builders and hooks |
| BulkCreate.BulkRun.Mutate | backend/ent/account_create.go:2106-2143 | a mutator with its hooks checks, describes, calls on and completes; on any error nothing is completed |
| BulkCreate.BulkRun.FillRow | backend/ent/account_create.go:2116-2116 | writes the node and the spec of this builder and no other |
| BulkCreate.BulkRun.Finish | backend/ent/account_create.go:2132-2138 | after the insert the mutation points to its node, the node has the reported id, the mutation is done |
| BulkCreate.BulkRun.BatchCreate | backend/ent/account_create.go:2120-2127 | one insert with all specs, ids on success, wrapped errors otherwise |
| BulkCreate.BulkRun.Prepare | backend/ent/account_create.go:2102-2145 | every builder gets its defaults and its mutator, also if builders share a mutation |
| BulkCreate.BulkRun.WrapHooks | backend/ent/account_create.go:2140-2143 | the downward loop puts hook 0 outermost |
| BulkTrace.WellNested | backend/ent/account_create.go:2102-2150 | hooks are left in exactly the reverse of the order they were entered in |
| BulkTrace.OpeningEnters | backend/ent/account_create.go:2102-2150 | before the innermost point exactly those hooks are entered, and none is left |
| BulkTrace.EnteredInOrder | backend/ent/account_create.go:2140-2143 | builder by builder and hook by hook, for all builders up to the first invalid one |
| BulkTrace.OpeningFills | backend/ent/account_create.go:2111-2118 | rows are described in builder order, up to the first invalid builder |
| BulkTrace.OpeningEnds | backend/ent/account_create.go:2111-2128 | the innermost point is the insert or the rejection of the first invalid builder |
| BulkTrace.InsertOnce | backend/ent/account_create.go:2117-2128 | one insert if every check passes, none otherwise |
| BulkTrace.AllPassExactly | backend/ent/account_create.go:2105-2113 | whether every check passes can be told from the drafts before the save |
| BulkTrace.OutcomeExactly | backend/ent/account_create.go:2106-2128 | a save ends with the complaint about the first builder that has one, else with the error of the driver, constraint violations told apart, else without an error |
| SavedAccounts.SavedThenLoaded | backend/ent/account_create.go:2095-2152 | after a successful save, with the described rows stored under new ids, a query for the ids of the returned nodes returns what these nodes show, in order |
| SavedAccounts.SavedEdges | backend/ent/account_create.go:2095-2152 | the specs of a save put every new account into exactly its groups, with its keys, children and usage logs |
| AuditText.ParseExceptions | tools/check_pnpm_audit_exceptions.py:23-48 | the loop with its current dictionary computes the line-by-line parse, and breaks off where that does |
| AuditText.ParseFailsExactly | tools/check_pnpm_audit_exceptions.py:23-48 | the file breaks the parser if and only if one of its lines starts an item and has no colon after the dash, wherever it stands |
| AuditText.Stripped | tools/check_pnpm_audit_exceptions.py:12-29 | stripping cuts spaces off both ends and nothing else, and leaves none there |
| AuditRoundTrip.RenderThenParse | tools/check_pnpm_audit_exceptions.py:12-48 | parsing the canonical file of a list of exceptions returns the list, for values with colons, hashes, quotes or outer spaces |
| AuditRoundTrip.FieldSplits | tools/check_pnpm_audit_exceptions.py:12-20 | a quoted field is split into its key and its value, whatever the value |
| AuditRoundTrip.LinesBreak | tools/check_pnpm_audit_exceptions.py:27-29 | a line feed and a carriage return each end a line |
| AuditLayout.WrittenThenParsed | tools/check_pnpm_audit_exceptions.py:12-48 | a file of plain, single- and double-quoted values, with any indentation, blank lines, comments, headers and stray text, is read as exactly the exceptions that were written |
| AuditLayout.UnquoteExactly | tools/check_pnpm_audit_exceptions.py:12-20 | a pair of equal quotes around a value is removed, a lone quote is nothing, and every other value stays as it stands |
| AuditGate.FirstTruthy | tools/check_pnpm_audit_exceptions.py:51-61 | the chosen identifier is the first candidate that is not empty, and is empty only if all are |
| AuditMeaning.AdvisoryIDExactly | tools/check_pnpm_audit_exceptions.py:51-61 | the identifier of an advisory is its GHSA id, or else its url, its first CVE, its number, its title, its advisory text or its overview, each only if those before are empty |
| AuditMeaning.AdvisoryFindingExactly | tools/check_pnpm_audit_exceptions.py:68-79 | the name, severity and title of the finding of an advisory, by the same rule |
| AuditMeaning.EntryExactly | tools/check_pnpm_audit_exceptions.py:87-102 | the id and the title an entry of a vulnerability is listed with |
| AuditMeaning.OtherItemsExactly | tools/check_pnpm_audit_exceptions.py:103-105 | a text among the items is listed as id and as title, other items not at all |
| AuditMeaning.ViaExactly | tools/check_pnpm_audit_exceptions.py:85-108 | the ids and titles are those of the items, or the one text that stands instead of them |
| AuditMeaning.TitlesExactly | tools/check_pnpm_audit_exceptions.py:109-109 | titles are joined with a semicolon and a space |
| AuditMeaning.NormalisedExactly | tools/check_pnpm_audit_exceptions.py:114-131 | severities and advisory ids are compared without outer spaces and in lower case, package names in their own case, numbers written out |
| AuditMeaning.LowerExactly | tools/check_pnpm_audit_exceptions.py:114-131 | lower case, letter by letter |
| AuditMeaning.SpacesExactly | tools/check_pnpm_audit_exceptions.py:114-131 | the characters that stripping removes, one by one |
| AuditMeaning.DecimalExactly | tools/check_pnpm_audit_exceptions.py:126-131 | numbers are written in digits that stand for them, without a leading zero |
| AuditGate.IterVulns | tools/check_pnpm_audit_exceptions.py:64-111 | the loops yield the findings of both report shapes up to the first vulnerability whose titles cannot be joined |
| AuditGate.TitleFailsExactly | tools/check_pnpm_audit_exceptions.py:97-109 | joining the titles fails if and only if for some entry the first of title, url, advisory and source that is not empty is a number |
| AuditGate.FindingsBreakOffExactly | tools/check_pnpm_audit_exceptions.py:81-111 | the findings break off if and only if the report has a vulnerability with such an entry |
| AuditGate.FindingsExactly | tools/check_pnpm_audit_exceptions.py:64-111 | when they do not break off, the findings are exactly those of the advisories and, for every vulnerability, one for each id of its entries |
| AuditGate.FindingsInOrder | tools/check_pnpm_audit_exceptions.py:81-111 | the findings of the vulnerabilities are one for each id of each vulnerability, in the order of the report: none left out, repeated or moved |
| AuditGate.FormatThenParse | tools/check_pnpm_audit_exceptions.py:134-139 | every real date is read back from its text |
| AuditMeaning.DateExactly | tools/check_pnpm_audit_exceptions.py:134-139 | a date is read from exactly the texts YYYY-MM-DD of a real date, as the numbers its digits stand for |
| AuditMeaning.RealDateExactly | tools/check_pnpm_audit_exceptions.py:134-139 | which dates are real: the lengths of the months and the leap years |
| AuditMeaning.LastDay | tools/check_pnpm_audit_exceptions.py:218-222 | an exception counts up to and including the day it expires |
| AuditVerdict.IndexExceptions | tools/check_pnpm_audit_exceptions.py:153-186 | the loop builds the index and the reports of its four error branches in order |
| AuditVerdict.IndexHolds | tools/check_pnpm_audit_exceptions.py:153-186 | the index holds the first usable exception of every key, and nothing else |
| AuditVerdict.IndexCleanExactly | tools/check_pnpm_audit_exceptions.py:153-186 | nothing is reported exactly if every exception is complete, has a real date and a key, and no key repeats |
| AuditMeaning.UsableExactly | tools/check_pnpm_audit_exceptions.py:153-177 | an exception needs package, advisory, severity, mitigation and date, a real date, and a package and an advisory that are not blank |
| AuditMeaning.IndexedExactly | tools/check_pnpm_audit_exceptions.py:153-186 | what one exception does to the index: its key, severity and date, or the report of the first thing that is wrong with it |
| AuditMeaning.IndexedInOrder | tools/check_pnpm_audit_exceptions.py:153-186 | exceptions are indexed in the order of the file |
| AuditVerdict.ScanFindings | tools/check_pnpm_audit_exceptions.py:188-222 | the deduplicating loop computes what it saw, and its three lists of reports |
| AuditVerdict.ScanCleanExactly | tools/check_pnpm_audit_exceptions.py:188-222 | nothing is reported exactly if every relevant finding has an advisory id and the first of every key is covered by an unexpired exception of its severity or of none |
| AuditMeaning.RelevantExactly | tools/check_pnpm_audit_exceptions.py:194-197 | the gate looks at high and critical findings that have a name, whatever the case and the spaces around |
| AuditMeaning.SameKeyExactly | tools/check_pnpm_audit_exceptions.py:198-204 | a finding and an exception are about the same thing if package and advisory agree, the advisory in any case |
| AuditMeaning.MissingExactly | tools/check_pnpm_audit_exceptions.py:209-212 | the missing exceptions are reported for exactly the first findings of keys without one, with the name, severity, id and title of the finding |
| AuditMeaning.ExpiredExactly | tools/check_pnpm_audit_exceptions.py:218-222 | and the expired ones likewise, with their date |
| AuditVerdict.Gate | tools/check_pnpm_audit_exceptions.py:142-243 | the verdict with its reports in order |
| AuditVerdict.ScanFailsExactly | tools/check_pnpm_audit_exceptions.py:191-222 | the scan breaks off if and only if a severity is a nonzero number |
| AuditVerdict.BreaksOffExactly | tools/check_pnpm_audit_exceptions.py:142-243 | the gate breaks off without a verdict if and only if an item of the file has no colon, a vulnerability has titles that cannot be joined, or an advisory or a vulnerability with an id has a nonzero number as severity |
| AuditVerdict.NumericSourceBreaks | tools/check_pnpm_audit_exceptions.py:97-109 | a report on which the gate breaks off, whatever the exception file says |
| AuditVerdict.PassesExactly | tools/check_pnpm_audit_exceptions.py:142-243 | the gate passes if and only if every item of the file has a colon, every exception is usable with a key of its own, every title can be joined, no severity is a nonzero number, and every relevant finding is acceptable |
| AuditMeaning.OneAdvisoryExactly | tools/check_pnpm_audit_exceptions.py:142-243 | a report of one high or critical advisory passes if and only if some exception is for its package and for its GHSA id, or for its url if it has none, of its severity or of none, and not expired, whatever else the advisory contains |
| AuditMeaning.FailsExactly | tools/check_pnpm_audit_exceptions.py:224-243 | a run that neither passes nor breaks off fails with all its reports |
| AuditMeaning.ReportsExactly | tools/check_pnpm_audit_exceptions.py:224-243 | the reports in order, with a header before each list that is not empty |
| AuditStability.AddingHelpsExactly | tools/check_pnpm_audit_exceptions.py:191-222 | findings can be put in between two parts so that the scan is clean, if and only if the first part is clean and every finding of the second has a readable severity and, if relevant, a key that came in the first part or that has an unexpired exception of severity high, critical or none |
| AuditStability.MoreAtTheEndNeverHelps | tools/check_pnpm_audit_exceptions.py:191-222 | findings added at the end never turn a failing scan into a clean one |
| AuditStability.MoreNeverHelps | tools/check_pnpm_audit_exceptions.py:191-222 | findings added anywhere never do, if severity is a matter of the key |
| AuditStability.RepeatedFinding | tools/check_pnpm_audit_exceptions.py:204-207 | a finding whose key was seen before changes nothing, wherever it is repeated |
| AuditStability.OnlyTheSetMatters | tools/check_pnpm_audit_exceptions.py:191-222 | if severity is a matter of the key, lists with the same findings have the same verdict, whatever their order and repetition |
| AuditStability.EveryOrderExactly | tools/check_pnpm_audit_exceptions.py:191-222 | a list of findings is clean in every order if and only if each of them would be alone |
| AuditStability.SomeOrderExactly | tools/check_pnpm_audit_exceptions.py:191-222 | it is clean in some order if and only if every relevant finding has an id and of every key some finding would be clean alone |
| AuditChanges.AddedAdvisoriesExactly | tools/check_pnpm_audit_exceptions.py:142-243 | advisories can be put in at a place of the report so that the gate passes, if and only if file, exceptions and report are in order, the findings before that place are acceptable and those after it mendable |
| AuditChanges.AddedInFrontCanHelp | tools/check_pnpm_audit_exceptions.py:142-243 | an exception file and a report that fail the gate, and an advisory that, put in front, makes it pass |
| AuditChanges.AddedVulnerabilitiesNeverHelp | tools/check_pnpm_audit_exceptions.py:142-243 | vulnerabilities added at the end never make the gate pass |
| AuditChanges.MoreRecordsNeverHelp | tools/check_pnpm_audit_exceptions.py:142-243 | further records never do, wherever they stand, if severity is a matter of the key |
| AuditChanges.SameRecordsSameVerdict | tools/check_pnpm_audit_exceptions.py:142-243 | if severity is a matter of the key, reports with the same records in any order and repetition pass, fail and break off together |
| AuditChanges.RepeatedAdvisories | tools/check_pnpm_audit_exceptions.py:142-243 | repeating advisories further back keeps the kind of verdict, whatever their severities |

## Left out

- EagerRefinement.LoadIsNaive: excludes edge queries with a limit or offset, which the code applies to the whole batch; the root query may have both.
- SQL text, drivers, transactions and `sqlgraph`: a query is its rows, an insert its specs and an answer. Driver errors of queries are not modelled.
- Interceptors, `withHooks`, and hooks that do anything but pass through. The reassignment of `builder.mutation` in the mutators is a no-op under such hooks and is not modelled.
- Edges of groups, proxies and usage logs: the three are one kind of row, with one kind of query.
- What a locking clause and its options do to the rows a query returns: a lock is a value a builder carries. Statements about results are for queries as the database answers them without waiting or skipping.
- In `EagerLoad` a query is a value; what a load leaves in the builders is the subject of `EagerReruns`. There the many-to-many edge, whose join would be added twice, is left out, and for a changed database the statements are for one edge at a time with the builders below it as they were written.
- A limit or offset on edges below a limited edge.
- EagerReruns.LoadAgain: excludes trees that ask for the many-to-many edge, because the second join is a matter of the SQL text.
- EagerWindows.JoinsWindowExact: is an equivalence only where the group id is read, because join rows read without it can coincide (`EagerWindows.JoinsCoincide`).
- EagerLoad.ScanNode: stored documents always decode; the error of one that does not is stated for arbitrary holders by `Nodes.Account.AssignValues` and `AccountScan.OnlyJsonCanFail`.
- `Unique`, `path` and intermediate SQL of a query.
- Aggregation, `GroupBy`, `IDs`, `Count`, `First` and `Only`: thin layers over the same query.
- Backing arrays of Go slices: appending to a slice of a builder never shows in another one in the model.
- `AccountMutation` beyond the values that were set; setters, upsert, update and delete builders.
- The effect of the insert on other tables (join rows, children, usage logs) beyond the edge specs that request it.
- JSON documents are maps of strings; instants are abstract; integers are unbounded, where Go has 64 bits.
- The clock is read once per builder in a save; uninitialised validators, which panic in Go, are not modelled.
- The copies of these templates for API keys, announcements and identities.
- Members of an audit report that are neither texts, whole numbers nor absent; entries of `advisories` or `vulnerabilities` that are not objects.
- Lower case of characters outside ASCII; date forms other than YYYY-MM-DD that newer Python versions accept; the order in which missing fields are listed, which Python leaves open.
- Argument parsing, file and console access of the gate: the lines, the parsed report and the date are inputs.
