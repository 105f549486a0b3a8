# A verified model of pundat

pundat archives the messages of a publish/subscribe bus: it files inherited metadata under URI
prefixes, buffers and stores time series, and answers queries under the permissions of whoever asks.
This project models the parts of it that are hardest to get right and proves what they promise; where
the code does not keep a promise, it gives the input and the exact condition under which it does.

## What is modelled

**The query language** (`ParseTables`, `Grammar`, `Automaton`, `AutomatonChecks`, `Parsing`,
`Driver`, `Actions`, `QueryTokens`, `Filters`, `Queries`). The generated parser is modelled with its own packed
tables. `Driver` is the loop with its stack, its look-ahead and its error abort; `Parsing` is the same
as steps on configurations that carry derivation trees. The automaton listing of the generator serves
as the specification of the tables: `Automaton` states what must hold between the two,
`AutomatonChecks` evaluates it, and everything else is reasoning. The result is that the driver is an
exact decision procedure for the grammar, on all token sequences. On top of it, where-clauses are
compiled to filter documents and shown to keep their meaning, queries are read back from their printed
form, and what any accepted query leaves in the query record is told from its tokens.

**The metadata view** (`Bytes`, `PrefixDb`, `MetadataView`, `MetadataStore`, `ViewRaces`,
`ViewApart`). Stored documents are an incrementally maintained view of the prefix database. `PrefixDb`
says what a lookup is, `MetadataView` what inserts, initialisations, refreshes, failures and restarts do
to the view, with each of them one step; `MetadataStore` has the mutable objects and their loops, tied to
those steps. `ViewRaces` takes the operations apart into the steps that can interleave and settles which
orders keep the view right; `ViewApart` says which runs do in any order.

**Permissions** (`Ranges`, `RangeMerges`, `RangesIntended`, `RangeObjects`, `GrantChains`, `Permissions`,
`Selection`). Chains of grants are searched for, intersected and merged into sets of time ranges, and
data is cut down to them. `Ranges` follows the code as it is written, `RangeMerges` says what lists of
windows make of it, `RangesIntended` follows the documentation, and the theorems say exactly when the two
agree, in terms of the windows. `RangeObjects` has the shared objects that are
overwritten in place.

**Concurrent protocols** (`StreamBuffer`, `QueryProtocol`) as steps that interleave, and **time
arithmetic** (`TimeUnits`) with 64-bit wrap-around.

## Where the code and its documentation part

The model follows the code. These are the places where that matters:

- `NOT` wraps the values of a compiled term in `$ne`, which negates an equality and nothing else
  (`Filters.NotExact`). A key that begins with `$` is read as an operator (`Filters.PlainExact`).
- A record whose URI holds `/!meta` twice, or at its start, is found under a prefix other than the one
  that is looked up and marked (`MetadataView.InsertExact`).
- A refresh deletes name, unit and uri from what it sets, but not uuid (`MetadataView.MergeKeepsUuid`).
- Dirty marks are made before the commit, dependencies registered after the reads, and new documents
  stored without a mark; each of the three leaves a document stale in some run (`ViewRaces`), though in none
  where inserts stay apart from lookups (`ViewApart`).
- `IsDisjoint` is one-sided, so `Merge` widens the first member that the range is not before, over the
  gap between them if there is one (`RangeMerges.MergeExact`) and even over other members
  (`RangeMerges.MembersOverlap`, `RangeMerges.ApartExact`), and `GetOverlap` keeps at most one range, which is the request itself.
  Empty intersections are merged like others (`Permissions.EmptyWidens`), nil ones stop the program.
- The request object goes through `GetOverlap` for one stream after the other, so a later stream sees
  what the earlier ones have left of it (`Selection.SecondStarved`, `Selection.SelectionExact`).
- The search for the lower bound in masking tests the wrong way round and always yields the first record
  (`Selection.LowerBoundIsZero`).
- Reader and committer of a stream work on copies and write them back, so that overlapping sections
  lose or repeat readings (`StreamBuffer.CopiesExact`); one shared list would not.
- A restart forgets filter and dirty set, and a batch that fails forgets the marks it has taken
  (`MetadataView.RestartExact`, `MetadataView.PartlyExact`).
- The overflow test of a conversion compares the wrapped product with the time
  (`TimeUnits.MissedExact`, `TimeUnits.RefusedExact`).

## Model

| member | source | states |
|---|---|---|
| Parsing.ParseExact | querylang/query.go:553-726 | For every token sequence and every tree: the driver accepts the sequence with that tree if and only if the grammar derives the sequence by that tree. This is soundness (return code 0 means the input derives from `query`) and completeness in one. |
| Parsing.Unambiguous | querylang/query.y:59-390 | No token sequence has two derivation trees: the grammar is unambiguous, proved from the tables of its own parser. |
| Parsing.DriverHalts | querylang/query.go:580-717 | On every token sequence the driver stops after at most 15 turns for each token and one more, empty reductions included. |
| Parsing.StepProgress | querylang/query.go:595-726 | Every turn keeps the stack linked (each state is reached from the one below by the symbol its tree derives), keeps the text that stacked trees and unread tokens spell, and lowers the measure behind the bound. |
| Parsing.StepAccepts | querylang/query.go:626-645 | When the driver accepts, the one stacked tree derives the whole input as a query. |
| Parsing.RunSound | querylang/query.go:553-726 | From any configuration that a run can be in, an accepted tree derives the text of the configuration. |
| Parsing.Complete | querylang/query.go:595-726 | From any state with the dot of a production behind some symbols, reading trees that fit the rest of the production runs the driver to the point where the production is recognised, whatever comes next in its follow set. |
| Parsing.ParseComplete | querylang/query.go:595-726 | Every tree of the grammar is found by the driver. |
| Parsing.BackTrack | querylang/query.go:692-717 | In a state where a production has its dot behind d symbols, the top d stack entries derive just those symbols and the state below has a goto on the left-hand side. |
| Parsing.ReduceFits | querylang/query.go:692-717 | Where a default action reduces, the right-hand side is on the stack and the goto is defined, so that the slice of the value stack is in range. |
| Parsing.ReduceLinks | querylang/query.go:712-726 | The goto after a reduction leaves a linked stack again. |
| Parsing.ShiftLinks | querylang/query.go:601-617 | A valid shift in the packed tables leads to a state whose accessing symbol is the token and that follows the state it came from; the end marker is never shifted. |
| AutomatonChecks.CellChecked | querylang/query.go:278-356 | Every cell of the packed action table that holds a shift leads to a state that may stand on each of the states whose rows share the cell. |
| AutomatonChecks.DefaultChecked | querylang/query.go:357-374 | The default action of each of the 149 states is a reduction whose dot stands at its end, the error action, or an entry of the exception table; only state 1 accepts. |
| AutomatonChecks.BeginsChecked | querylang/y.output:1-1220 | In every state with a goto on the left-hand side of a production, the production can begin: its first symbol moves to the right state, or it is empty and reduced on its follow set. |
| Driver.Parser.Parse | querylang/query.go:553-1133 | The driver as a loop over its own stack: it returns 0 exactly when `Parsing.Parse` accepts, leaves in the query the effect of the accepted tree, with the type, the distinct flag, the tags and the keys that the tokens say, and otherwise returns 1 with a syntax error. |
| Driver.Parser.Turn | querylang/query.go:595-690 | One pass from the label `sqnewstate`: it is one step of the configuration, an accept, or the abort. |
| Driver.Parser.Shift | querylang/query.go:606-617 | A shift of the mutable stack is the shift of the configuration, and the value stack keeps what the trees say. |
| Driver.Parser.Reduce | querylang/query.go:692-726 | A reduction of the mutable stack, with its action and its goto, is the reduction of the configuration. |
| Driver.Parser.Exception | querylang/query.go:619-641 | The two walks through the exception table find the action for the state and the token. |
| Driver.Parser.Abort | querylang/query.go:648-690 | The search for a state that can shift the error token pops the whole stack: no state can. |
| Driver.Parser.ReadToken | querylang/query.go:514-546 | The look-ahead is fetched once and translated to the internal token. |
| Driver.Negate | querylang/query.y:378-385 | The loop over the entries of a filter wraps each value in `$ne`. |
| Actions.ActionCarries | querylang/query.y:90-390 | If the values on the stack carry the strings, lists and filters of their trees, then so does the value that the action of a production computes. |
| Actions.ActionWrites | querylang/query.y:59-135 | What an action writes into the query is what the node of its tree is specified to write. |
| QueryTokens.AcceptedTokens | querylang/query.y:59-135 | For every accepted input, from its tokens alone: the type is 2 if the first token is DELETE, otherwise 3 if the second begins a data clause, and 1 if not; distinct holds if and only if the second token is DISTINCT; the tags are the words of the list behind SELECT, none for data queries and deletions; the keys are the texts of all words but those that name units of time. |
| QueryTokens.TreeKeys | querylang/query.y:361-367 | Which words are keys, along any derivation tree: the actions record what a scan of its tokens from left to right finds. |
| Filters.CompileMeaning | querylang/query.y:310-390 | A where-clause whose NOT stands before a negatable term compiles to a filter that passes exactly the records on which the clause is true, records without the key included. |
| Filters.NotExact | querylang/query.y:378-385 | NOT over a term means negation on every record if and only if the term is an equality, or a pattern that matches nothing or everything. |
| Filters.TermMeaning | querylang/query.y:317-354 | Every term whose key does not begin with `$` compiles to a filter with the same meaning on every record. |
| Filters.WrittenMeaning | querylang/query.y:317-367 | What the filter of a term passes, by the word and the quoted value in the query: every slash of the key is a dot and one trailing comma is gone, the quotes around the value are gone, and the field of the record is compared with that. |
| Filters.WrittenMembers | querylang/query.y:342-349 | The same for lists of values. |
| Filters.WrittenFilter | querylang/query.y:317-345 | The documents that terms become, key, operator and value. |
| Filters.TrimExact | querylang/query.y:356-359 | Trimming takes away the quotes at both ends of a text, and nothing else. |
| Filters.CleanExact | querylang/util.go:7-12 | Cleaning a word gives the key it names, position by position: a slash becomes a dot, all else is kept, one trailing comma goes. |
| Filters.NotMeaning | querylang/query.y:378-385 | What the filter of NOT over any term passes: the negation for an equality, otherwise all records or none. |
| Filters.NotHasFails | querylang/query.y:338-341 | NOT before `has` passes a record that has the key. |
| Filters.PlainExact | querylang/query.y:317-354 | A term means on every record, in every store, what its compiled filter passes if and only if its key does not begin with `$`. |
| Filters.OperatorTermFails | querylang/query.y:317-354 | The direction that fails, for every term whose key begins with `$`: in some store the filter passes no record, also one on which the term is true. |
| Filters.OperatorKeyFails | querylang/query.y:322-325 | The input: `$or` with an equality passes no record, in any store. |
| Queries.RoundTrip | querylang/query.y:59-390 | For every query without a data clause: running the parser on its printed tokens yields exactly its tree, and the query record it asks for. |
| Queries.PrintInjective | querylang/query.y:310-390 | Two where-clauses with the same text are the same clause. |
| Queries.AcceptedMeaning | querylang/query.go:1012-1131 | For every accepted input with a where-clause, data queries included: the filter left in the query is the compilation of the clause that was read, and means it wherever compilation preserves meaning. |
| Bytes.RangeExact | scraper/util.go:28-43 | For all byte strings: s lies in the half-open range built for p, in lexicographic order, if and only if s starts with p. |
| Bytes.BytesPrefix | scraper/util.go:32-42 | The loop over trailing 0xff bytes computes that range. |
| Bytes.MetaPrefix | scraper/util.go:28-43 | The scan range of a prefix is that of the prefix followed by `/!meta`. |
| PrefixDb.LongestPrefixWins | scraper/prefixdb.go:150-194 | `Lookup(uri)[k]` is the value at the longest slash-boundary prefix of the URI that carries k, and k is absent exactly when no such prefix carries it. |
| PrefixDb.PrefixesAre | scraper/prefixdb.go:152-179 | The prefixes visited are exactly the URI cut at each slash, and the URI. |
| PrefixDb.PrefixCarries | scraper/prefixdb.go:132-148 | A prefix carries a key exactly when the store holds a record with that key in its metadata. |
| PrefixDb.FiledBelow | scraper/util.go:19-26 | A record whose URI holds `/!meta` at most once, and not at the start, lies in the metadata of its stripped URI and of no other prefix. |
| PrefixDb.NotFiledBelow | scraper/util.go:19-26 | Any other record lies in the metadata of a prefix shorter than its stripped URI. |
| PrefixDb.PutExact | scraper/prefixdb.go:93-96 | A put keeps the key order, replaces the entry of its URI and changes no other. |
| PrefixDb.PutUnseen | scraper/prefixdb.go:93-106 | A put leaves every lookup alone that does not pass through the prefix of the record. |
| PrefixDb.PutKeepsKeys | scraper/prefixdb.go:84-110 | An insert may add keys to a lookup or change their values; it never removes one. |
| PrefixDb.PutOther | scraper/prefixdb.go:84-110 | A put changes what lookups say about the key of its record, and about no other. |
| PrefixDb.KeyExact | scraper/util.go:11-17 | The key of a URI is what comes after its last slash, unless that slash is its first byte. |
| MetadataView.InsertExact | scraper/prefixdb.go:78-111 | An insert keeps every stored document up to date or marked, in every state, if and only if the URI of the record holds `/!meta` at most once, and not at the start, or its key is one that documents do not inherit. |
| MetadataView.InsertKeepsView | scraper/prefixdb.go:97-106 | The direction that holds: usage filter and dependency scan over-approximate the documents that a filed record affects, and a record with a reserved key affects none. |
| MetadataView.InitializeKeepsView | archiver/metadata_store.go:188-208 | A new stream enters with an up-to-date document, and the others stay as they are. |
| MetadataView.MergeRecomputes | archiver/metadata_store.go:66-69 | Since lookups only gain keys, setting the keys of a fresh lookup makes the document agree with it on every inherited key; name, unit, uri and original uri stay. |
| MetadataView.MergeKeepsUuid | archiver/metadata_store.go:66-69 | The uuid of a document survives a merge exactly when the metadata does not carry a different value under that key, which the refresh does not delete. |
| MetadataView.RefreshRecomputes | archiver/metadata_store.go:50-79 | After a refresh nothing is dirty, every document agrees with a fresh lookup, and no reserved key has changed but the uuid, which changes exactly when the metadata of a dirty URI carries another one. |
| MetadataView.RefreshKeepsUuids | archiver/metadata_store.go:50-79 | In a store without a record of the key uuid a refresh changes no uuid either. |
| MetadataView.PartlyExact | archiver/metadata_store.go:69-78 | A refresh whose batch fails part of the way keeps the view exactly when it wrote every document that lacked something its lookup has: the marks are gone already. |
| MetadataView.RestartExact | scraper/prefixdb.go:50-59 | A restart empties the filter and the dirty set over stores that stay: it keeps the view exactly when there are no documents yet. |
| MetadataView.RunKeepsView | scraper/prefixdb.go:78-224 | In every state of every run of inserts, initialisations, refreshes, failed refreshes and restarts, each initialised stream is up to date or marked, as long as no step before was one that loses marks: an inheritable record that is not filed, a batch that failed before a stale document, a restart with documents. |
| MetadataView.RunIdentifies | archiver/metadata_store.go:188-208 | In every state of every run, whatever steps have lost marks: the streams with a document are those initialised so far, and name, unit, uri and original uri of each are those of its last initialisation. |
| MetadataView.StepKeepsView | scraper/prefixdb.go:78-224 | The step: a harmless one keeps the view, and one that is not an insert keeps it only if it is harmless. |
| MetadataStore.PrefixDB.Lookup | scraper/prefixdb.go:151-207 | The loop over `start` and `index` returns the specified document, puts every prefix into the filter and registers the URI. |
| MetadataStore.PrefixDB.GetPrefix | scraper/prefixdb.go:132-148 | The iterator over the range yields the records of the metadata below the prefix, in key order. |
| MetadataStore.PrefixDB.GetDependencies | scraper/prefixdb.go:211-224 | The scan yields exactly the registered URIs that start with the prefix. |
| MetadataStore.PrefixDB.InsertRecords | scraper/prefixdb.go:78-111 | All records or none are written, depending on the writes and the commit; the marks of the records that were put stay even when the transaction is discarded. |
| MetadataStore.PutAllExact | scraper/prefixdb.go:84-96 | After the writes of a transaction the store holds the last record written under each URI, and the others as they were. |
| MetadataStore.MarkedExact | scraper/prefixdb.go:97-106 | The marks are the registered URIs below the prefix of a record whose prefix is in the filter, and no others. |
| MetadataStore.PrefixDB.GetUpdatedDocuments | scraper/prefixdb.go:114-130 | The dirty set is emptied and each of its members looked up once. |
| MetadataStore.TransactionKeepsView | scraper/prefixdb.go:78-111 | A transaction keeps the view whether it commits or is discarded. |
| MetadataStore.BatchMerges | archiver/metadata_store.go:69-78 | Running the batch, with at most one update for each URI, merges each document with the lookup of its own URI and no other. |
| MetadataStore.MongoStore.InitializeURI | archiver/metadata_store.go:188-208 | It is the initialisation step of the view, documents keep naming their URI, and the new document has the given name, unit, rewritten uri, original uri and uuid. |
| MetadataStore.MongoStore.Refresh | archiver/metadata_store.go:50-79 | One turn of the ticker loop, URIs without a stream skipped, whose batch runs to some point: it is the refresh step of the view when the whole batch runs, and the partial one otherwise. |
| ViewRaces.SafeExact | scraper/prefixdb.go:97-110 | With the steps taken apart, whenever nothing is in flight every document is up to date or marked, if and only if inserts commit before they test and mark, lookups register before they read, and initialisation ends with a mark. |
| ViewRaces.SafeOrder | scraper/prefixdb.go:78-224 | Those three orders are enough, for every interleaving of any number of inserts, initialisations and refreshes. |
| ViewApart.ApartSafe | scraper/prefixdb.go:78-224 | For any order of the steps, the one of the program included: a run in which no insert is in flight beside an initialisation, a refresh or a pending registration leaves every document up to date or marked. |
| ViewApart.RunFits | scraper/prefixdb.go:78-224 | The invariant of such runs, in each of their states: what lookups have read is fresh, and what an insert writes is marked or still to be tested. |
| ViewRaces.ReachableOk | scraper/prefixdb.go:78-224 | The invariant behind it: what was read at a prefix is fresh, or an insert is still to mark it, or it is marked or being read again. |
| ViewRaces.InsertKeeps | scraper/prefixdb.go:84-110 | In the safe order an insert accounts for whatever it changes, at every prefix that anyone has read. |
| ViewRaces.CommitHazard | scraper/prefixdb.go:97-110 | Testing and marking before the commit, as the program does, leaves a document stale and unmarked in some run, whatever the other two orders. |
| ViewRaces.RegisterHazard | scraper/prefixdb.go:195-204 | So does registering the URI some time after the reads. |
| ViewRaces.InitHazard | archiver/metadata_store.go:188-208 | So does storing a new document without marking it: a refresh in between uses up the mark. |
| ViewRaces.FreshIsLookup | scraper/prefixdb.go:151-194 | A snapshot that is fresh at every prefix makes the document that a lookup returns now. |
| Ranges.OneSided | dots/range.go:33-37 | The disjointness test agrees with disjointness exactly when the second range does not end before the first begins. |
| Ranges.MergeCovers | dots/range.go:81-90 | Merge drops no instant; what it adds besides the two arguments is exactly what the join of the range with the first member it is not before covers. |
| Ranges.ExtraIs | dots/range.go:42-49 | That is the gap between the two, or for an empty range what it reaches beyond the member. |
| Ranges.MergeApart | dots/range.go:77-90 | One merge, whatever the members: they stay apart exactly when the widened member meets no other. |
| RangeMerges.NeverLoses | dots/range.go:81-90 | In any order of merges no instant of any window is lost. |
| RangeMerges.MergeExact | dots/master.go:77-88 | The merged set covers exactly the instants of the windows if and only if the windows, as they are listed, join across no instant that none of them covers. The condition speaks of the windows alone, empty ones included. |
| RangeMerges.CoverExact | dots/master.go:77-88 | Instant by instant: it is covered exactly when a window covers it or the windows join across it. |
| RangeMerges.JoinsNonEmpty | dots/master.go:77-88 | Windows that are not empty join across an uncovered instant exactly when one window ends before it, a later one begins behind it, and every earlier window behind it begins after that later one ends. |
| RangeMerges.FalseJoinsFollow | dots/master.go:77-88 | The condition is a finite check, empty windows or not: it is enough to look where windows begin and where they have just ended. |
| RangeMerges.CrossExact | dots/range.go:81-90 | Behind both: a member of the set reaches over a cut between two instants that no window crosses exactly when the windows join there. |
| RangeMerges.LatestFirstExact | dots/master.go:77-88 | Windows that come latest first are merged exactly. |
| RangeMerges.OrderMatters | dots/range.go:81-90 | Of any two windows with a gap between them, one order is exact and the other covers the gap. |
| RangeMerges.MembersOverlap | dots/range.go:77-90 | The input for which merging leaves members that overlap: three windows, of which the last widens the first member over the second. |
| RangeMerges.ApartExact | dots/range.go:77-90 | For any windows in any order: no instant is covered by two members of the merged set if and only if no window bridges earlier ones, that is, takes in an instant behind which nothing before it goes on, and reaches a window that keeps the cut there open. For windows that are not empty this is the same as members being pairwise apart. |
| RangeMerges.BridgesFollow | dots/range.go:77-90 | That condition too is a finite check: the ends of the earlier windows are enough. |
| RangeMerges.MergeDoubles | dots/range.go:81-90 | The step: merging into members in descending order covers an instant twice exactly when the range takes in the end of a member and reaches on to one before it in the list. |
| Ranges.OverlapSound | dots/range.go:102-111 | GetOverlap never covers an instant outside the request or outside the set. |
| Ranges.OverlapExact | dots/range.go:102-111 | For members that are apart and not empty it covers exactly the overlap if and only if there is none or only one member begins before the request ends. |
| Ranges.OverlapSurvives | dots/range.go:102-111 | For any members, overlapping and empty ones included, it covers exactly the overlap if and only if every such instant survives: each member that begins by it reaches it, and each behind it comes after the request ends or has been cut down. |
| Ranges.SurvivesExact | dots/range.go:102-111 | An instant of the request is left in it by the loop exactly when it survives the members. |
| RangesIntended.JoinedExact | dots/README.md:15-18 | As documented: in any order the union of the windows covers exactly their instants, with members apart. |
| RangesIntended.OverlapsExact | dots/README.md:37-40 | As documented: the overlap covers exactly the instants in the request and the set, with members apart. |
| RangesIntended.IntendedIsReached | dots/master.go:77-88 | The set that the program builds covers the documented one, and equals it exactly when the windows make no false join. |
| RangeObjects.TimeRange.MergeFrom | dots/range.go:42-49 | The receiver becomes the hull of both. |
| RangeObjects.TimeRange.Intersect | dots/range.go:51-62 | The receiver is cut down, or left as it is when the test says disjoint. |
| RangeObjects.TimeRange.Contains | dots/range.go:69-71 | It is membership, except that an empty range contains its two ends. |
| RangeObjects.DisjointRanges.Merge | dots/range.go:81-90 | The first member that the range is not before is widened in place, or the object itself is appended; no other object changes. |
| RangeObjects.DisjointRanges.GetOverlap | dots/range.go:102-111 | The caller's own object is cut down and is the only range of the result; the set it is called on, and so the cache, is unchanged. |
| Permissions.WindowExact | dots/range.go:113-142 | An instant is in the window of a chain exactly when every grant of the chain covers it. |
| Permissions.IntersectAccessTimes | dots/range.go:114-142 | The loop computes that window in a new object, or nil for a chain without grants. |
| Permissions.IntersectArchivalTimes | dots/range.go:145-178 | The same for the times in archive URIs; nil when one does not parse. |
| Permissions.ArchivalExact | dots/util.go:13-44 | An instant is in the window of an archival chain exactly when the two time fields of every grant admit it: not before a start, not after an end, an open start being 0 and an open end the largest 64-bit integer. |
| Permissions.ParsedFails | dots/range.go:145-178 | One grant whose time fields do not parse leaves its whole chain without a range. |
| Permissions.ParsedExact | dots/range.go:145-178 | A chain has no range exactly when it has no grants, the first is off the archive namespace, or the time fields of one are garbled; the first grant gives the namespace for all. |
| Permissions.MergeWindow | dots/master.go:77-88 | Merging a nil range into an empty set makes it the only member; any other meeting with nil stops the program. |
| Permissions.StopsExact | dots/master.go:77-88 | Some chain without a range, be it empty, off the archive namespace or garbled, stops the program unless it is the only chain; then nil is the only member. |
| Permissions.DotMaster.GetValidRanges | dots/master.go:64-92 | The result is the merge of all windows of access and archival chains, or the cached object itself; a failed lookup of chains ends it with an error and what was merged so far; it is cached unless it failed or the program stopped. |
| Permissions.PermittedExact | dots/master.go:64-92 | When every chain has a range, the set permits every instant that all grants of some chain cover, and nothing else if and only if the windows of the chains make no false join. Its members have no instant in common if and only if no window bridges earlier ones. Both conditions speak of the windows alone. |
| Permissions.EmptyWidens | dots/README.md:104-106 | An empty intersection is not ignored: it widens the member it is merged into. |
| GrantChains.SearchExact | dots/master.go:155-201 | The search returns only chains of grants that are valid, on the archive namespace and cover the URI, from the first key to the wanted one that do not reach it early, and all of them when no lookup fails. |
| GrantChains.SearchSucceeds | dots/master.go:155-201 | The search succeeds if and only if the registry has every key that it comes to by accepted grants. |
| GrantChains.SearchOnce | dots/master.go:155-201 | When the registry lists no grant twice, no chain is returned twice. |
| GrantChains.FindDOTChains | dots/master.go:158-201 | The recursive method with its loops computes that search, also when a lookup fails half way. |
| Selection.SelectDataRange | archiver/api.go:25-66 | Every stream is read in the overlap of its set with the request as the streams before have left it; a positive limit keeps the first records, any other drops none; the sets keep their members. |
| Selection.LimitExact | archiver/api.go:57-60 | With a positive limit the answer of a stream is the beginning of its unlimited answer, as long as the limit or as that answer; any other limit drops nothing. |
| Selection.SelectionOrder | archiver/api.go:49-62 | A stream returns records of its own in their own order, and all copies of each. |
| Selection.SelectionSound | archiver/api.go:40-63 | Every returned record is one of its stream, in the requested window and in the permitted set. |
| Selection.TruncateOnce | archiver/api.go:50-62 | Applying the limit after each range gives the same as concatenating all ranges and applying it once. |
| Selection.ReadOnce | archiver/api.go:49-56 | However often the request is in the overlap, a stream is read in one window at most, so no record comes twice for its sake. |
| Selection.RequestKept | archiver/api.go:36-49 | A set leaves the shared request as it is exactly when every member that begins by its end includes it. |
| Selection.RequestKeptAll | archiver/api.go:36-49 | The request reaches a stream as it was asked exactly when every member of every earlier set that begins by its end includes it. |
| Selection.SelectionExact | archiver/api.go:36-63 | For any sets: a stream returns exactly its records in window and set, for all data, if and only if every such instant survives the members of all sets up to its own. |
| Selection.SelectionApart | archiver/api.go:36-63 | For a set with members apart and not empty: if and only if set and window have nothing in common, or one member alone begins by the end of the window and the earlier streams have left its part of the window in the request. |
| Selection.SelectionComplete | archiver/api.go:40-63 | In particular a stream that finds the request as it was asked, with an exact overlap, returns just the records in window and set. |
| Selection.SecondStarved | archiver/api.go:36-49 | Two streams with different ranges: after the first, the second gets none of its own. |
| Selection.SearchTurns | archiver/api.go:216-227 | Binary search over any predicate ends where it turns from false to true, or at an end. |
| Selection.LowerBoundIsZero | archiver/api.go:214-222 | On sorted records the search for the lower bound always ends at one end, so that the slice begins at the first record. |
| Selection.Slice | archiver/api.go:214-228 | The slice of a range is all records up to its end. |
| Selection.Mask | archiver/api.go:191-233 | The loop over the ranges concatenates those slices. |
| Selection.MaskExact | archiver/api.go:191-233 | For ranges that are apart and not empty, masking gives exactly the records in some range, each once, if and only if no record lies before the start of any range. |
| Selection.MaskExactAny | archiver/api.go:191-233 | For any ranges, overlapping and empty ones included: if and only if every record is reached by one range at most, and by none that begins behind it. |
| Selection.SearchesFindWindow | archiver/api.go:214-228 | With the lower bound that the comment asks for, the slice is exactly the records in the range. |
| Selection.WindowsExact | archiver/api.go:191-233 | Concatenating those gives exactly the permitted records, each once. |
| StreamBuffer.SharedConserves | archiver/stream.go:79-104 | With one shared list, of which a trim drops the committed beginning, every interleaving conserves the accepted readings of every URI, in order: the stored ones and then the buffered ones. Appends between snapshot and trim are included. |
| StreamBuffer.CopiesExact | archiver/stream.go:79-104 | In any run of the program, with copies written back, the readings of a URI are conserved throughout if and only if every write-back of its list finds the list as its copy was taken. |
| StreamBuffer.StepExact | archiver/stream.go:79-104 | One step of the program conserves the readings exactly when its write-back is current. |
| StreamBuffer.AcceptedIs | archiver/stream.go:45-95 | In every run, with copies or one list, the accepted readings of a URI are those that the events append to it, in order, those of dropped sections left out. |
| StreamBuffer.CommittersAre | archiver/stream.go:45-78 | A URI has a committer exactly when its initialisation succeeded. |
| StreamBuffer.ApartConserves | archiver/stream.go:79-104 | A run of the program in which the sections of reader and committer on a URI do not overlap conserves its readings throughout. |
| StreamBuffer.ConservesExact | archiver/stream.go:79-104 | Every run conserves every URI when sections exclude each other and when the list is shared; as the program is written, not every run does. |
| StreamBuffer.RunConserves | archiver/stream.go:79-104 | With sections that exclude each other, every interleaving that this leaves conserves every URI. |
| StreamBuffer.OthersUntouched | archiver/stream.go:79-104 | No step touches the buffer, the database or the committer of another URI. |
| StreamBuffer.WriteBackIsLost | archiver/stream.go:96-102 | From every settled state with a non-empty buffer: a reading written back during a commit is lost. |
| StreamBuffer.WriteBackRepeats | archiver/stream.go:251-253 | From every such state: a copy written back after a commit brings the whole snapshot back. |
| QueryProtocol.AnswersExact | client/client.go:83-185 | Every call of Query gets the answer to its own query, in every run, if and only if no nonce is drawn twice. |
| QueryProtocol.OwnNonceRight | client/client.go:83-185 | Run by run, whatever nonces are drawn: a call under whose nonce nothing but its own query is asked returns the answer to its query. |
| QueryProtocol.MisledExact | client/client.go:131-185 | From any state of any run, with nothing more asked, a waiting call may come to return the answer to another query if and only if another query has been asked under its nonce. |
| QueryProtocol.OneMessageEach | client/client.go:83-102 | In every run no call is given more than one message, the dispatcher finds the channel of a waiting nonce empty and so never blocks nor drops, and a call that takes its message returns. |
| QueryProtocol.ReplyRoundTrip | client/client.go:187-257 | Taking a reply apart gives back the whole answer under its nonce, and nothing under any other. |
| QueryProtocol.ReplyNonce | client/client.go:259-284 | A reply has a nonce, the same on all its payloads. |
| QueryProtocol.AssembleReply | archiver/archiver.go:184-220 | The assembly of a reply, step by step: one payload for each non-empty kind of result, an empty metadata payload if there is none. |
| QueryProtocol.Collision | client/client.go:131-144 | Two clients that draw the same nonce: one is handed the answer meant for the other. |
| TimeUnits.FinerExact | common/util.go:70-80 | To a finer unit the conversion returns the true value exactly when that is not negative and fits 64 bits. |
| TimeUnits.CoarserExact | common/util.go:80-86 | To a coarser unit it rounds down, and fails exactly for negative times. |
| TimeUnits.OverflowExact | common/util.go:70-80 | A conversion to a finer unit returns no wrong value if and only if the product fits 64 bits or wraps to less than the time. |
| TimeUnits.MissedExact | common/util.go:70-80 | It returns a wrong value without an error if and only if some multiple of 2^64 takes the product into the range from the time to the largest 64-bit integer. |
| TimeUnits.OverflowMissed | common/util.go:75-79 | An input: a wrapped value is returned without an error. |
| TimeUnits.NormalisedExact | common/util.go:19-28 | Guessing the unit and converting to nanoseconds is exact for just the times that are not negative. |
| TimeUnits.GuessExact | common/util.go:12-28 | The unit of a time by its size, with the bounds of 1 January 2150, and the nanoseconds it stands for in each band. |
| TimeUnits.RefusedExact | archiver/api.go:153-166 | A negative time is refused if and only if its nanoseconds fit 64 bits or wrap to less than the time. |
| TimeUnits.NegativeSlips | archiver/api.go:153-166 | An input: a negative time that is not refused. |
| TimeUnits.PrepareWindow | archiver/api.go:153-171 | The window has both ends normalised and in order, or is refused. |
| TimeUnits.WindowExact | archiver/api.go:153-171 | For times that are not negative the window is the two instants, each in the unit of its band. |
| TimeUnits.InstantExact | common/util.go:151-177 | A time in seconds, and any other that is not negative, becomes exactly the instant it names. |
| TimeUnits.InstantNumbers | common/util.go:151-177 | In numbers: times in seconds, milliseconds, microseconds and nanoseconds are multiplied by 1,000,000,000, 1,000,000, 1,000 and 1. |
| TimeUnits.TimeRoundTrip | common/util.go:89-177 | A time is read exactly when it is in seconds or not negative; giving it back in its unit is then the identity exactly when its nanoseconds fit 64 bits or it is in seconds. |

## Left out

- Lexing: the parser starts from a sequence of tokens; that the lexer delivers the tokens in the text is not part of this model. A token code is positive, and zero only at the end.
- Driver.Parser.Parse: the data part of the query and the errors of the time, limit and number actions, as the lines on Actions say.
- Actions.ActionCarries: nothing is said of the values of data, time, limit and unit symbols.
- Actions.ActionWrites: the data part of the query is not written.
- Queries.RoundTrip: data queries have no printed form.
- Actions.ActionValue: the values of the data, time, limit and unit actions are not computed; data queries are parsed to their trees, and their where-clauses are compiled, but times and limits stay in the tree. The errors that these actions can report are not raised.
- Error recovery of the driver beyond its first stage: no state shifts the error token, so the stages behind it are never entered, and the model does not have them.
- Filters.Filter: `$neq`, which the compiler emits and the document store does not know, is read as "not equal". Keys with dots are looked up flat, and a filter is a list of fields rather than a map. Regular expressions and scripts are arbitrary predicates.
- The Bloom filter is a set that may hold more than was added to it; leveldb is a list of records in key order; the mongo collections are maps, and the uuid, uri and document caches are not modelled.
- MetadataView.RunKeepsView: for inserts of records that are not filed there is no condition state by state; MetadataView.InsertExact has the one for all states. Each operation is one step there; ViewRaces has the interleavings. A stream is identified with its URI in ViewRaces, and a document with what was read at each prefix.
- MetadataStore.PrefixDB.GetUpdatedDocuments: the dirty URIs are taken in any order; the program takes them in ascending order, which makes no difference to the result.
- Records are inserted with the key that their URI names.
- Registry lookups, chain building for access grants, signatures and URI matching: grants arrive with what they are found to be. Splitting archive URIs into parts is not modelled, nor the index failures of URIs with too few parts.
- GrantChains.FindDOTChains: the accepted grants that the search follows do not form a cycle; on a cycle the program does not return.
- Permissions.DotMaster.GetValidRanges: whether the lookups of chains fail, and whether a cache entry has expired, are arguments.
- Selection.SelectDataRange: reading a range from the database returns the records of the stream in it, in time order; errors end the program's loop and are not modelled. Units of the answer are not converted. Window and statistical queries are not modelled.
- Selection.Mask: the records come sorted; the library sort before it is not modelled.
- StreamBuffer: a message is one optional reading; extracting values and times from messages is not modelled. Slices share their backing array, but only the reader appends to them, so copies are modelled as values.
- QueryProtocol: messages decode as they were encoded; undecodable messages are skipped by the program before they matter here. Query evaluation is an arbitrary answer.
- TimeUnits: relative times and their sums, date formats, and the JSON forms of units.
- Subscriptions, view and request bookkeeping, the databases behind the time series store, command line, configuration and logging: thin or outside the repository.
