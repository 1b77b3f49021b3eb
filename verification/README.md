# Verification of the tracks engines

`tracks` is a Go web framework. Around its HTTP plumbing it has small stateful
engines whose guarantees are about whole runs. This project models those engines
in Dafny 4.11 and proves what they promise. `dafny verify dfyconfig.toml` checks
everything.

| engine | files | main result |
|---|---|---|
| feature flags | `LruCache`, `FlagKeys`, `FlagRegistry`, `Overrides`, `FlagEvaluator`, `FlagService` | requests run side by side in steps, with overrides and registrations in between: in every run what each hit serves is the precedence rule over a table state superseded at most one time to live ago, plus the longest any request took from reading the table to storing, and exactly when it is the rule over the current registry; the cache is a true least-recently-used cache |
| rate limiter | `RateLimit` | at most `Requests` allowed calls in every window of every run, and an exact `retryAfter` |
| job queue | `JobQueue` | over every interleaving each job is in one place, handled until it succeeds or its retries are used, never early, and never before a retry's delay is over; moves are bounded; and the exact states in which the queue can get no further, with the least number of jobs that can lead there |
| translator | `Translator` | exactly which trees, loaded for the first time or again, make the flattened index and the nested tree answer alike for every map iteration order |
| transactions | `Transactions` | exactly when nested calls can be erased; every Begin gets one Commit or Rollback, as its callback ended; all writes of a transaction if it succeeds, or none |
| queries | `QueryMeaning`, `QueryBuilder` | placeholders meet their arguments although slices are appended to in place; the domain test confines the query that is built, whatever the other tests say, exactly when no condition's text has an OR outside parentheses |
| repository | `Repository` | calls in one domain neither change nor see the rows of another, and exactly which calls lose a row to another; atomic updates add up in any order |
| tagged cache | `TagCache` | exactly what a tag invalidation removes, and what a lookup may return |
| sessions | `Sessions` | one save before any output; both stores answer alike, and exactly which requests make them differ; a flash message lives for one more request |
| connection maps | `ConnectionMaps` | double-checked locking hands every caller of a domain the same handle; a handle is replaced exactly by CreateTenant |
| pages | `Pagination` | the listed pages make up the whole result; exactly when the int arithmetic lists them |

## How the model reads the source

Objects whose methods change their fields are classes with those fields; each
method is proved against a function of its old state, or against the ghost
history of the object, and the lemmas speak about those. The job queue and the
connection maps are systems of interleaving steps, and flag requests are served
step by step with anything in between. Maps are iterated in any
order (`:|` picks the next key). Time is an integer argument that never goes
back. A SQL table is a sequence or a map of rows. A call is one step there, except
where a row below says what happens between its statements.
Where nothing is said, a failure of the database itself is not modelled.

Conditions the code needs, stated as such in the contracts:

- Rate limiter: with `Requests` below one, `Allow` indexes an empty slice; the
  model answers `Panicked` exactly then.
- Flag cache: `cap` is not negative; the time to live is not negative (60 s in the source).
- Cache keys: for the same principals only to share a key, identifiers are
  non-empty and role names are non-empty and contain no comma; `KeysCollideIff`
  says for all principals which share one.
- A global override has no principal id, as the field's comment says;
  `GlobalWithIdIsAmbiguous` shows what happens with one.
- Translator: the two lookups agree exactly for the trees of `FlatAgreesIff`:
  walking along the name of each leaf must find that leaf's text. Trees with
  dot-free keys and no object under the empty key at the top do; so do the
  shipped language files, whose dotted keys repeat nested texts
  (`TwiceKeptAgreesIff`). A key that is only dotted is found by its flat name
  alone (`DottedKeysDiffer`).
- Queries: conditions are joined as raw text without parentheses, and the domain
  test confines a query exactly when none has an OR outside parentheses and
  quotes (`BuiltQueryIsConfinedIff`). That is for every outcome of the tests: a
  condition such as `1 = 0 OR a = ?` is confined in fact, by what its tests mean.
  Conditions are elementary tests joined by AND and OR; a test may hold anything
  in parentheses or quotes.
- Scoped models list their domain column among their fields, and no model lists
  its id. AtomicUpdate accepts the domain column then, and adding to it takes
  the row out of the domain (`AddingToTheDomainLosesTheRow`).
- Fields tagged unique are named as their columns, as the code assumes.
- Sessions: the stores agree exactly as long as no flash message follows an
  output and the data end as they were at the first output (`StoresAgreeIff`),
  and `Invalidate` is not called.
- Pages: the listed pages are right exactly if `total + size - 1` fits an int
  (`ListedPagesAreRightIff`); the offset may overflow (`OverflowedOffset`).
- A transaction's context is used by its callback only while it runs.

Where the code differs from what one might expect, the code is followed:
`InvalidateTag` also removes an item that was set again without the tag;
`COUNT(*)` goes through the builder's LIMIT and OFFSET; an update of a model
without a domain moves its row out of the context's domain, and so does an
atomic update of the domain column; a Create that names another domain writes its
row and succeeds with an empty result; one whose After hook fails reports an error
although the row is written; two creates that overlap can break uniqueness; the
arguments of a built query can be overwritten by the next one; an inner
transaction on the outer context is not undone with the outer one; a full channel
can block every worker for good; cached flags can be older than the time to live,
and flags registered while a request is under way can be missing from what is
cached for it; a walk that ends at an object gives the object printed.

## Model

| member | source | states |
|---|---|---|
| Text.SplitOfJoin | i18n/i18n.go:90 | splitting a joined list of separator-free parts gives the list back |
| Text.JoinOfSplit | i18n/i18n.go:90 | joining a split string gives the string back, and its parts contain no separator |
| Text.SplitOfJoinIsPieces | modules/featureflags/cache.go:94 | splitting a joined list gives the pieces of its parts, whatever they contain |
| LruCache.UsedSinceIsLaterUse | modules/featureflags/cache.go:67-71 | a key counts as used since another exactly when its own latest use is later |
| LruCache.FreshStaysCached | modules/featureflags/cache.go:34-65 | in every run a key set within the time to live is cached with what was last set, unless at least cap other keys were used since its own last use |
| LruCache.ExactlyTheRecentKeys | modules/featureflags/cache.go:50-65 | in a run without expiries the cache holds exactly the keys with fewer than cap other keys used since |
| LruCache.FrontIsLeastRecent | modules/featureflags/cache.go:59-64 | the key evicted is the least recently used one, and all other cached keys were used since |
| LruCache.RemoveFirstKeepsOrder | modules/featureflags/cache.go:73-80 | splicing out a key keeps the others, without duplicates and in order of last use |
| LruCache.HitKeepsInv | modules/featureflags/cache.go:37-41 | a hit keeps order and map in step and every missing key accounted for |
| LruCache.ExpireKeepsInv | modules/featureflags/cache.go:43-45 | forgetting an expired key keeps the invariant |
| LruCache.SetKeeps | modules/featureflags/cache.go:50-65 | storing, with at most one eviction, keeps the invariant |
| LruCache.Lru.Get | modules/featureflags/cache.go:34-48 | a hit exactly for a cached key within its time to live, answering what was last set; the key moves to the end, or is forgotten if too old |
| LruCache.Lru.Put | modules/featureflags/cache.go:50-65 | the stored key is last in the order; the front key goes when the cache is over its cap |
| LruCache.Lru.EvictOldest | modules/featureflags/cache.go:59-64 | the eviction loop drops the front key of an overfull cache and nothing else |
| LruCache.Lru.Touch | modules/featureflags/cache.go:67-71 | the key is spliced out and appended |
| LruCache.Lru.RemoveFromOrder | modules/featureflags/cache.go:73-80 | the scan removes the first occurrence |
| FlagKeys.SortedListingIsUnique | modules/featureflags/cache.go:92-93 | a multiset of role names has one sorted listing, so the order of roles does not matter |
| FlagKeys.KeysCollideIff | modules/featureflags/cache.go:84-95 | for all principals, keys are equal exactly when versions are, ids are up to absent or empty, and the sorted roles have the same pieces between commas |
| FlagKeys.KeysAgreeIff | modules/featureflags/cache.go:84-95 | two requests with well-formed names have equal keys exactly when version, user, tenant and the multiset of roles agree |
| FlagKeys.IllFormedNamesCollide | modules/featureflags/cache.go:84-95 | three pairs of different principals that do share a key: a comma in a role, an empty role, an empty id |
| FlagRegistry.PanicsExactlyOnBadKeys | modules/featureflags/registry.go:78-87 | registration panics exactly in development and exactly for an empty, repeated or already registered key |
| FlagRegistry.LastRegistrationWins | modules/featureflags/registry.go:77-93 | the last flag given for a key is the one registered, other keys keep theirs |
| FlagRegistry.PanicKeepsFlagsBefore | modules/featureflags/registry.go:78-93 | a registration that panics has registered exactly the flags before the offending one |
| FlagRegistry.Registry.RegisterFlags | modules/featureflags/registry.go:33-53 | within a run a version never names two different registries, and later versions have all flags of earlier ones |
| FlagRegistry.Registry.ListKeys | modules/featureflags/registry.go:56-64 | every registered key once, in any order |
| FlagRegistry.Registry.GetDefault | modules/featureflags/registry.go:67-75 | the registered default and true for a registered key, false and false for any other |
| Overrides.ViewIsView | modules/featureflags/repo.go:114-132 | with distinct slots the table is a map from slots to values |
| Overrides.OverrideTable.SetOverride | modules/featureflags/repo.go:114-132 | update-else-insert sets the slot, keeps all others, and keeps slots distinct, whatever the kind and id |
| Overrides.OverrideTable.UpdateRow | modules/featureflags/repo.go:116-126 | the UPDATE sets the slot if it is there and counts the rows |
| Overrides.OverrideTable.InsertRow | modules/featureflags/repo.go:128-131 | the INSERT adds the slot, and fails exactly if it is taken |
| Overrides.SetRace | modules/featureflags/repo.go:114-132 | of two calls for a new slot that both update before either inserts, the second fails and the first value stays |
| Overrides.OverrideTable.DeleteOverride | modules/featureflags/repo.go:134-139 | the slot is gone, all others are kept |
| Overrides.OverrideTable.ListOverrides | modules/featureflags/repo.go:61-112 | exactly the rows of the given keys that apply to the request |
| FlagEvaluator.SamePrincipalsSameFlags | modules/featureflags/middleware.go:122-137 | the rule does not depend on the order of roles |
| FlagEvaluator.PrecedenceIs | modules/featureflags/middleware.go:115-151 | kind by kind: an override for the user decides; without one some true role makes the flag true and false ones alone false; then the tenant, the global override, the registered default |
| FlagEvaluator.DefaultIsUsed | modules/featureflags/middleware.go:147-148 | a registered flag that no override applies to has its registered default |
| FlagEvaluator.DecideIsPrecedence | modules/featureflags/middleware.go:92-151 | whatever order the rows come in and whatever the default, the value of each flag is user, else any role true, else tenant, else global, else default, read off the table |
| FlagEvaluator.GlobalWithIdIsAmbiguous | modules/featureflags/middleware.go:103-106 | a global override stored with an id makes the value depend on the order of the rows |
| FlagEvaluator.ComputeEffective | modules/featureflags/middleware.go:92-151 | the indexing loops decide every key as the list of overrides says |
| FlagEvaluator.DecideKey | modules/featureflags/middleware.go:116-148 | the loop body decides a key by the index as the list of overrides says |
| FlagEvaluator.IndexByKind | modules/featureflags/middleware.go:103-114 | each index holds the last override of its kind per key, the role index all values |
| FlagEvaluator.AnyTrue | modules/featureflags/middleware.go:122-130 | true exactly if some role value is true |
| FlagService.FollowsRuleIff | modules/featureflags/middleware.go:115-151 | computed flags are what the rule says over a registry exactly when the keys are its keys and every default that no override hides is the registered one |
| FlagService.ServedFollowsRuleIff | modules/featureflags/middleware.go:54-72 | the same for what a request is served, whatever was registered since its keys were listed and its defaults looked up |
| FlagService.HitFollowsRuleIff | modules/featureflags/middleware.go:54-56 | a hit under the current version is what the rule says over the registry exactly when no new flag was registered between the listing of the keys and the making of the key by the request that stored it |
| FlagService.QuietRegistryFollowsRule | modules/featureflags/middleware.go:54-72 | if nothing was registered from listing the keys to the last default, the flags follow the rule over that registry |
| FlagService.HitsAreRecent | modules/featureflags/middleware.go:57-72 | if every request that stored did so at most a given time after it read the table, every hit served a table state superseded at most that time and the time to live before |
| FlagService.Service.EveryHitIsRecent | modules/featureflags/middleware.go:54-82 | the same for every hit of every run of the service |
| FlagService.EntryAnswers | modules/featureflags/middleware.go:57-64 | a cache entry under the key of a request was computed for the same principals |
| FlagService.StillComesFrom | modules/featureflags/repo.go:114-139 | how cached flags were computed stays true when the table or the registry changes |
| FlagService.FlightStillOk | modules/featureflags/middleware.go:54-72 | a request under way keeps its footing when the table or the registry changes |
| FlagService.OneMoreDecided | modules/featureflags/middleware.go:116-148 | deciding one more key with the default of that moment keeps what is decided so far in line with the rule |
| FlagService.Service.Arrive | modules/featureflags/middleware.go:54 | a request lists the keys of the registry as it is |
| FlagService.Service.MakeKey | modules/featureflags/middleware.go:56 | it makes its key with the version of that moment |
| FlagService.Service.Lookup | modules/featureflags/middleware.go:57-65 | it is served a live entry, whose table state was superseded at most the time to live ago and the time its own storing request took, and which follows the rule exactly under the condition above; otherwise it goes on |
| FlagService.Service.ReadOverrides | modules/featureflags/middleware.go:67 | it reads the overrides that apply to it from the table of that moment |
| FlagService.Service.DecideNext | modules/featureflags/middleware.go:116-148 | it decides its next key with the default of that moment |
| FlagService.Service.Store | modules/featureflags/middleware.go:72 | it stores and is served what it decided, and how that was computed is noted with the entry |
| FlagService.Service.Serve | modules/featureflags/middleware.go:54-82 | with nothing in between, a request that misses is served the rule over the registry and the table as they are, so the registered default for every flag no override applies to, and one that hits a table state of bounded age |
| FlagService.Service.SetOverride | modules/featureflags/repo.go:114-132 | a change of the table at any point of any requests keeps the invariant of the service |
| FlagService.Service.DeleteOverride | modules/featureflags/repo.go:134-139 | the same for a removal |
| FlagService.Service.RegisterFlags | modules/featureflags/registry.go:33-53 | the same for a registration |
| FlagService.StaleRun | modules/featureflags/middleware.go:67-72 | a run that reaches the bound: its one hit serves a table state superseded the time to live and the whole gap before |
| FlagService.IncompleteRun | modules/featureflags/middleware.go:54-72 | a run in which a flag registered between listing and key making is missing from what others are served |
| RateLimit.EveryWindowIsBounded | ratelimit.go:34-60 | in every run every half-open window holds at most Requests allowed calls of a key |
| RateLimit.AllowedUnlessFull | ratelimit.go:50-55 | and a call is denied only if the window that ends with it already holds Requests allowed calls of its key |
| RateLimit.TimesAreTheAllowedCalls | ratelimit.go:50-57 | the times that count for a key are those of its allowed calls, each as often as it was called |
| RateLimit.RetryAfterIsExact | ratelimit.go:57-59 | after a denial the delay lies in (0, Window]; whatever is called meanwhile, the key is denied before it has passed and allowed from then on |
| RateLimit.OnlyOwnAllowedCallsMatter | ratelimit.go:50-57 | denied calls and calls for other keys never change a key's later answers |
| RateLimit.RoomReturns | ratelimit.go:58 | room returns exactly when the oldest kept hit leaves the window |
| RateLimit.AfterAfter | ratelimit.go:41-48 | pruning again for a later window loses nothing that window needs |
| RateLimit.RateLimiter.Allow | ratelimit.go:34-60 | the pruned list decides as the whole history would; remaining and retryAfter follow; it panics exactly for a limit below one |
| JobQueue.StepMovesOneJob | jobs.go:50-97 | every step moves one job from one place to another, adds one, or moves none |
| JobQueue.StepKeepsInv | jobs.go:50-97 | every step keeps the invariant of the queue |
| JobQueue.EveryRunIsSafe | jobs.go:50-97 | over every interleaving each job is in exactly one place, is handled at most once more than its retries, and never before its time |
| JobQueue.GivenUpOnlyWhenSpent | jobs.go:84-94 | over every interleaving a job that is finished without success was handled once and once more for each permitted retry |
| JobQueue.SucceededIsOver | jobs.go:84-94 | after a call of Handle that succeeds there is none for the job in any further run |
| JobQueue.RetryWaits | jobs.go:87-92 | after a failure with retries left no call for the job begins before the delay is over, in any further run |
| JobQueue.FirstInFirstOut | jobs.go:50-97 | the channel hands out jobs in the order in which they were sent |
| JobQueue.NoSendBlocks | jobs.go:40-44 | with at most 1000 unfinished jobs no producer, worker or timer send can block |
| JobQueue.AdvancesUnlessJammed | jobs.go:67-97 | while jobs are unfinished and the queue runs, something can move exactly unless the channel is full and every worker waits to resend |
| JobQueue.RestMeansFinished | jobs.go:67-97 | with fewer unfinished jobs than 1000 and one per worker the queue comes to rest only when all are finished |
| JobQueue.StepUsesWork | jobs.go:67-97 | moving a job lowers the measure of retries and stage left |
| JobQueue.RunsAreBounded | jobs.go:67-97 | in every run jobs move at most five times each, and six more for each permitted retry |
| JobQueue.QueueCanJam | jobs.go:87-93 | for any number of workers a run with exactly 1000 unfinished jobs and one per worker leaves the channel full and every worker waiting to resend |
| Translator.NamesIffSplitPath | i18n/i18n.go:67-121 | in a well-formed tree a dotted key names a leaf exactly when its split path ends at one with the same text |
| Translator.WalkOfOneKey | i18n/i18n.go:89-121 | what a path finds, key by key: nothing under a missing or null key, the text of a value if the path ends there, an object printed or entered |
| Translator.FlatAgreesIff | i18n/i18n.go:52-121 | for any tree and any older flat map, the two lookups agree for every key and every order in which the maps can be ranged over exactly when the name of each leaf leads to its own text and each old entry is filed anew or right already |
| Translator.FiledLast | i18n/i18n.go:68-85 | for any leaf there is an order that files it last under its name |
| Translator.FiledAllIsFlattened | i18n/i18n.go:67-86 | in any order every leaf name is filed with the text of a leaf of that name, and nothing else changes |
| Translator.WellFormedAgrees | i18n/i18n.go:67-121 | trees with dot-free keys and no object under the empty key agree |
| Translator.TwiceKeptAgreesIff | translations/en.json:2-20 | a text kept both under a dotted key and nested agrees exactly if it is the same twice |
| Translator.DottedKeysDiffer | i18n/i18n.go:67-121 | a key that is only dotted, or an object under the empty key, is found by its flat name alone |
| Translator.NamesOfOneKey | i18n/i18n.go:68-85 | the names filed for a key are its own if it is a leaf and those below it if it is an object |
| Translator.OneKeyMore | i18n/i18n.go:68-85 | filing one more key, in any order, extends what is filed so far |
| Translator.FreshFlatMirrors | i18n/i18n.go:55-59 | flattening a well-formed tree into an empty map gives exactly its leaves under their dotted names |
| Translator.ReloadAgreesIff | i18n/i18n.go:52-59 | after loading a language again with a well-formed tree the lookups agree exactly when every name the flat map held is a leaf again, or prints as the old text |
| Translator.Translator.FlattenTranslations | i18n/i18n.go:67-86 | the flat map becomes what filing in some order gives, for any tree and whatever order the maps yield |
| Translator.Translator.LoadLanguage | i18n/i18n.go:52-59 | tree stored and flattened over the older entries; under the exact condition the lookups agree |
| Translator.Translator.LoadTranslations | i18n/i18n.go:30-63 | files are loaded in turn up to the first bad one; distinct languages that meet the condition leave the lookups in agreement |
| Translator.Translator.GetNestedValue | i18n/i18n.go:89-121 | the walk ends at the non-null value the split path ends at, an object being printed |
| Translator.Translator.Translate | i18n/i18n.go:124-161 | the text of the nested walk in the language, else that of the default language, else the key itself, whenever the lookups of the loaded languages agree; a flat entry counts first in any case |
| Transactions.ErasingInnerCalls | database/transaction.go:35-50 | replacing inner calls by plain ones keeps the effects and the outcome exactly when none of those reached finds a context without a transaction |
| Transactions.OwnContextBeginsNoOther | database/transaction.go:35-39 | a callback that uses only the context it was given begins no other transaction |
| Transactions.OneBeginOneEnd | database/transaction.go:49-77 | the requests made of the driver start with one Begin and, if it is granted, end with one Commit or Rollback of that transaction, a granted Commit exactly on success; every transaction begun in between ends exactly once too |
| Transactions.RunKeeps | database/transaction.go:35-77 | whatever a callback does, no request goes to a transaction before its Begin or after its end, and the open ones stay open |
| Transactions.EndingFollowsCallback | database/transaction.go:49-77 | after success of the callback the last request is a Commit and the call succeeds exactly if it is granted; after an error or a panic it is a Rollback and the call ends with that error or panic |
| Transactions.ConcludedRows | database/transaction.go:60-77 | the end of a transaction stores all writes granted on it if the callback succeeded and the commit is granted, none otherwise |
| Transactions.NoDatabaseNoCall | database/transaction.go:29-53 | without a database, with a foreign one, or if Begin is refused, the callback is not run |
| Transactions.RunInParts | database/transaction.go:67-70 | of two parts of a callback the second runs exactly if the first succeeds, from where that left off |
| Transactions.StatementsUseTheirContext | database/transaction.go:55-67 | a statement asks the database of the context it is given, however far out, and fails or panics as that does |
| Transactions.CallersGoOnIff | database/transaction.go:37-70 | a caller goes on after an inner call exactly if that succeeds, or fails and is swallowed, or panics and is recovered from |
| Transactions.PlainWriteIsStored | database/transaction.go:55-67 | a write on the plain database is stored at once if granted |
| Transactions.AllOrNothing | database/transaction.go:65-77 | all writes granted on the transaction are stored if the callback succeeds and the commit is granted, none otherwise; what went past it or through another one stays either way |
| Transactions.OwnContextAllOrNothing | database/transaction.go:29-78 | for a callback that uses only its own context the table is the old one, with all its writes if it succeeds and the commit is granted |
| Transactions.SwallowedFailureKeepsWrites | database/transaction.go:37-39 | writes of an inner call whose error is swallowed stay |
| Transactions.OuterContextEscapes | database/transaction.go:42-50 | an inner call given the outer context commits although the outer call fails |
| Transactions.RunCallback | database/transaction.go:55-70 | the requests and the outcome of a callback are the specified ones, and the table follows them |
| Transactions.WithTransaction | database/transaction.go:29-78 | reuse with a transaction in the context, otherwise begin, run, and commit or roll back; the requests, outcome and table are the specified ones |
| QueryMeaning.BesideIsTheJoinedText | database/query.go:146-148 | joining two texts with AND is the text of a condition in which AND binds the neighbouring terms |
| QueryMeaning.BesideHasBothArgs | database/query.go:85-89 | and its arguments are those of both, in order |
| QueryMeaning.GlueAppend | database/query.go:146-152 | joining two lists puts one separator between them; one part is joined as it is |
| QueryMeaning.ChainIsTheWhereClause | database/query.go:146-148 | the emitted WHERE text is the text of the chained condition |
| QueryMeaning.ChainWithoutOr | database/query.go:85-89 | without OR a row passes the chain exactly when it passes every condition |
| QueryMeaning.ScopedIffNoOr | database/query.go:131-148 | the appended domain test confines the chain to the domain, whatever the outcome of the other tests, exactly when no condition contains an OR |
| QueryMeaning.ConfinedIff | database/query.go:131-148 | any condition is confined by a test exactly when the test is in each of its disjuncts |
| QueryMeaning.OrsAreDisjuncts | database/query.go:146-148 | the text of a condition has an OR outside parentheses and quotes for each disjunct but one, so every reading of a text has as many |
| QueryMeaning.OrIsSeen | database/query.go:146-148 | two tests joined by OR cannot be read as one |
| QueryMeaning.CountAgainstExecute | database/query.go:215-242 | Count fails exactly for LIMIT 0 or a positive OFFSET, ignores any other limit, and equals the length of Execute exactly when the limit cuts nothing off |
| QueryBuilder.BuiltQueryIsConfinedIff | database/query.go:113-163 | the WHERE clause and arguments Build emits are those of the chain with the domain test; whatever the outcome of the other tests, only rows of the domain pass exactly when no Where text has an OR outside parentheses and quotes |
| QueryBuilder.Append | database/query.go:86-87 | append adds items, in place if there is room for all, leaving the items of every header on the same array alone and changing only the cells it fills |
| QueryBuilder.BindAppend | database/query.go:113-163 | binding a concatenation binds each part to its own arguments |
| QueryBuilder.FirstArgumentFirst | database/query.go:113-163 | the first argument goes in at the first question mark, the others behind it |
| QueryBuilder.MarksAreCounted | database/query.go:113-163 | the placeholders of a text are its question marks |
| QueryBuilder.PartsInOrder | database/query.go:146-160 | WHERE, ORDER BY, LIMIT and OFFSET, when present, each go behind the parts before them, in this order |
| QueryBuilder.WhatIsSelected | database/query.go:114-126 | without these the query selects all columns, the given ones behind the id, or a count alone |
| QueryBuilder.DecimalReadsBack | database/query.go:154-160 | a printed limit or offset is digits without a leading zero, behind a minus sign if negative, and reads back as the number |
| QueryBuilder.GluedClausesBind | database/query.go:146-148 | the joined conditions bind to the collected arguments clause by clause |
| QueryBuilder.PlaceholdersMatchArguments | database/query.go:113-163 | the whole text has as many placeholders as arguments and binds each condition to its own |
| QueryBuilder.ScopedIsBalanced | database/query.go:139-141 | the domain test comes with one placeholder and one argument |
| QueryBuilder.Builder.Where | database/query.go:85-89 | the builder holds one more condition and its arguments |
| QueryBuilder.Builder.Build | database/query.go:113-163 | the text and the argument slice of the chain with the domain test, shared with the builder or not; the builder still describes the same query although its arrays may be written |
| QueryBuilder.BuildTwice | database/query.go:126-143 | of two queries built from one builder, the arguments of the first are still its own exactly unless both have domains, different ones, and the array had room |
| QueryBuilder.Builder.BuildCount | database/query.go:219-225 | the count query of the same chain, built on a copy that shares the arrays |
| Repository.EarlyFailuresLeaveNoTrace | database/repository.go:147-358 | dropping every call that fails before its statement from a run changes neither the table nor the other answers |
| Repository.WritesAreReadBack | database/repository.go:118-358 | what reading by id finds after a create, update or delete and any run of calls that do not name the id; a row in another domain is not found |
| Repository.OneMoreCriterion | database/repository.go:103-106 | criteria are joined by AND: one more keeps, of the rows found without it, exactly those with that value in that column |
| Repository.NoCriteria | database/repository.go:109-116 | without criteria all rows of the domain are found, without a scope all rows |
| Repository.ScopeIsACriterion | database/query.go:131-144 | a scope finds the same as one more criterion on the domain column |
| Repository.FoundByItsFields | database/repository.go:98-107 | a row in scope is found exactly by criteria its own values meet |
| Repository.OthersAreUntouched | database/repository.go:42-82 | no call changes a row of another domain, and exactly which creates, updates and atomic updates put a row into another domain |
| Repository.AddingToTheDomainLosesTheRow | database/repository.go:42-64 | an atomic update that names the domain column succeeds and takes the own row out of the domain |
| Repository.OwnRowsDecide | database/query.go:131-144 | answers and effects in a domain do not depend on the rows of others, if none holds a created id |
| Repository.DomainsAreIsolated | database/repository.go:160-166 | the same for any sequence of finds, counts, creates, updates, deletes and atomic updates |
| Repository.StepKeepsUniqueIff | database/repository.go:168-190 | creates and deletes keep unique fields unique in the domain; an update does exactly when the row it leaves clashes with no other |
| Repository.CreatesKeepUnique | database/repository.go:168-190 | over any run of calls without updates the fields stay unique |
| Repository.InterleavedCreatesIff | database/repository.go:168-223 | when two creates check before either inserts, the fields are unique afterwards exactly if the rows share no value |
| Repository.AddsAllIffEarlierCancel | database/repository.go:51-61 | one call adds all its deltas to a field exactly when those before the last one cancel out |
| Repository.AddsAllIffNamedOnce | database/repository.go:51-61 | the fields of a call receive all deltas, whatever they are, exactly when each is named once |
| Repository.AtomicUpdatesAddUp | database/repository.go:32-82 | after any run on number columns each is its first value plus everything added; invalid calls add nothing |
| Repository.AtomicUpdatesCommute | database/repository.go:32-82 | any permutation of atomic updates on number columns gives the same table |
| Repository.DomainUpdateDoesNotCommute | database/repository.go:56-75 | with the domain column among them the order matters |
| Repository.Store.FindBy | database/repository.go:98-107 | exactly the rows in the context's domain, if filtering applies, of which every criterion's column has that value; for every order of the criteria |
| Repository.Store.Exists | database/repository.go:134-144 | true exactly if there is such a row |
| Repository.Store.Create | database/repository.go:147-256 | a rejecting hook, a shared unique value or a taken id changes nothing and says so; otherwise the model the hook left, with the context's domain if it had none, is stored under the id; it succeeds with an empty result exactly when that row is out of scope |
| Repository.Store.Update | database/repository.go:259-315 | a rejecting hook changes nothing; otherwise the row under the id, if in the context's domain, becomes the model the hook left |
| Repository.Store.Delete | database/repository.go:318-358 | a rejecting hook changes nothing; otherwise the row under the id goes if it is in the context's domain |
| Repository.Store.AtomicUpdate | database/repository.go:32-82 | an unknown field is refused and changes nothing; otherwise one scoped increment of all named fields |
| TagCache.TaggedIff | cache.go:73-75 | a tag knows a key exactly if the key was set with it at some point after the tag was last cleared |
| TagCache.LiveIff | cache.go:38-104 | a key has an entry exactly if some Set stored it and nothing since then set, deleted or swept it |
| TagCache.VisibleIff | cache.go:38-52 | what a lookup may return: a stored item that has no expiry or is not past it |
| TagCache.CarriersAreTagged | cache.go:67-75 | an item that carries a tag is known to the tag |
| TagCache.InvalidateTagIsExact | cache.go:84-97 | no item carrying the tag survives, and the items removed are exactly those set with it since it was last invalidated |
| TagCache.SweptWithoutCarrying | cache.go:84-97 | an item set again without the tag is removed all the same |
| TagCache.MemoryCache.Get | cache.go:38-52 | the value set last, unless removed or expired |
| TagCache.MemoryCache.PutWithTags | cache.go:58-76 | items and tag index follow the history of operations |
| TagCache.MemoryCache.Delete | cache.go:78-82 | the item goes, its tags still know the key |
| TagCache.MemoryCache.InvalidateTag | cache.go:84-97 | the delete loop removes the keys the tag knows and clears the tag |
| TagCache.MemoryCache.InvalidateAll | cache.go:99-104 | both maps are emptied |
| Sessions.FlashesSeen | session/inmemory/data.go:62-86 | before the first output a handler sees the last request's messages and its own, afterwards its own |
| Sessions.FlashLivesOneMoreRequest | session/inmemory/data.go:62-86 | in any run of requests a message is shown in its own request and up to the save of the next, never later |
| Sessions.MessagesAreShown | session/inmemory/data.go:71-76 | so FlashMessages answers: the last request's messages and the request's own up to the save, its own from then on |
| Sessions.GetAnswersLastChange | session/inmemory/data.go:40-54 | Get answers what was put last under its key, and nothing after Forget |
| Sessions.GetAnswersWhatWasKept | session/inmemory/data.go:30-38 | a key the request has not changed is answered as the session held it before |
| Sessions.SavedBeforeOutput | session/sessions.go:132-144 | the session is saved as it is right before the first output, or at the end |
| Sessions.ValuesSurvive | session/db/store.go:77-122 | a value put before the first output and not changed again is in the row, and the next request gets it |
| Sessions.VisitorIsNoted | session/sessions.go:185-186 | address and user agent are in the row of every request whose handler leaves them alone |
| Sessions.StoresAgreeIff | session/sessions.go:132-167 | a request leaves the same session in memory as in the database exactly when no flash message follows its first output and its data end as they were there |
| Sessions.QuietIsHarmless | session/sessions.go:132-144 | a handler that changes nothing after its first output is such a request |
| Sessions.Session.SaveSession | session/inmemory/data.go:79-86 | new messages become the old ones; only the database store writes a row |
| Sessions.Copy | session/db/store.go:85-92 | the copy loops copy the whole map |
| Sessions.DbStore.Load | session/db/store.go:43-75 | a stored session comes back as it was saved |
| Sessions.DbStore.Create | session/db/store.go:125-157 | a new empty session with a row of its own |
| Sessions.DbStore.Update | session/db/store.go:77-122 | the row gets the data and the new messages, and the messages move on |
| Sessions.MemStore.Load | session/inmemory/store.go:24-30 | the stored object itself |
| Sessions.MemStore.Create | session/inmemory/store.go:32-45 | a new empty session under its id |
| Sessions.ResponseWriter.SaveOnce | session/sessions.go:146-167 | saves and remembers it |
| Sessions.ResponseWriter.Write | session/sessions.go:132-144 | the first output is preceded by the save, later ones are not |
| Sessions.QuietAfterOutput | session/sessions.go:132-144 | in a handler that changes nothing after its first output, what follows a save changes nothing |
| Sessions.Handle | session/sessions.go:185-201 | one save, before any output; the session and its row end as the specification says |
| Sessions.ServeFromDb | session/sessions.go:169-236 | a request served from the database store answers and stores what the specification says |
| Sessions.ServeFromMemory | session/sessions.go:169-236 | a request served from the in-memory store answers and stores what the specification says |
| Sessions.ServeFromBoth | session/sessions.go:169-236 | from stores with the same sessions a request is answered alike, and they stay the same exactly if it is harmless |
| Sessions.ServeBoth | session/sessions.go:169-236 | over any run of harmless requests both stores answer alike and hold the same sessions |
| Sessions.PutAfterOutput | session/sessions.go:139-144 | a value put after the output is in the in-memory store and not in the database |
| Sessions.LateChangeIsTold | session/sessions.go:139-144 | and the next request gets different answers from the two |
| ConnectionMaps.SharedFileIff | domain_db.go:95-99 | two domains share a file exactly when they differ only in characters other than letters and digits |
| ConnectionMaps.FileIsNamedAfterDomain | domain_db.go:63-99 | the file lies in the data directory: letters and digits of the domain as they are, every other character an underscore |
| ConnectionMaps.StoredIsReturned | domain_db.go:47-53 | an undisturbed caller of a stored key gets its handle |
| ConnectionMaps.OpenedIsStored | domain_db.go:55-93 | an undisturbed caller of a missing key takes the lock, looks again and opens; if that succeeds it gets the new handle, which is stored, and the lock is free |
| ConnectionMaps.FailedIsNotStored | modules/multitenancy/db.go:106-138 | if the opening fails or the tenant is unknown, the caller fails, nothing is stored, and the lock is free |
| ConnectionMaps.OnlyOpeningFails | domain_db.go:67-90 | in every interleaving a domain's caller fails only if an opening does |
| ConnectionMaps.StepKeepsInv | domain_db.go:47-93 | every step keeps the lock exclusive and every handle on its key's path |
| ConnectionMaps.HandlesBelong | modules/multitenancy/db.go:92-177 | over all interleavings, with tenants being created, stored and returned handles are on their key's path |
| ConnectionMaps.OneHandlePerKey | domain_db.go:47-93 | unless CreateTenant stores the key, the first handle stays and every successful caller gets it |
| ConnectionMaps.StepReplacesIff | modules/multitenancy/db.go:171-174 | of all steps, exactly the publication by CreateTenant replaces a stored handle |
| ConnectionMaps.KeptUnlessPublished | modules/multitenancy/db.go:92-177 | over every run from the start, a stored handle is kept exactly if CreateTenant does not publish its key later |
| ConnectionMaps.DomainCallersAgree | domain_db.go:47-93 | all successful callers of a domain get the one stored handle |
| ConnectionMaps.CreateTenantCanReplace | modules/multitenancy/db.go:171-174 | CreateTenant can replace a handle that a caller already holds |
| Pagination.ParsePagination | controller.go:49-90 | positive page and size, defaults for bad values, and an offset that is right exactly when it fits an int |
| Pagination.ToPage | controller.go:101-115 | page numbers from one to the int quotient, a panic exactly for a zero size or a negative quotient, and the item bounds as int sums |
| Pagination.ListedPagesAreRightIff | controller.go:102 | that quotient is the page count exactly when the sum fits an int; otherwise exactly when it panics and when it lists no page |
| Pagination.PageCountBounds | controller.go:102 | the page count is the least number of pages that hold all rows |
| Pagination.PagesAreTheWhole | controller.go:101-115 | the pages fetched one after another are the whole result; all but the last are full, none is empty |
| Pagination.ItemBoundsAreRight | controller.go:112-113 | first and last item are the positions of a page's rows; past the end the bounds cross |
| Pagination.OverflowedOffset | controller.go:87 | an overflowing offset shows the first page's rows for a page past the end |

## Left out

- HTTP, cookies, headers, templates, logging, tracing, migrations, configuration and the command line: input and output around the engines.
- SQL text run by SQLite: the query builder's text is proved to bind its arguments, and rows are selected by the meaning of the conditions; JSON columns are assumed to read back as written.
- FlagService.Service.SetOverride: its two statements are one step of the service; `SetRace` says what happens between them, and an override that is refused changes nothing.
- SQL comments, and OR inside CASE: conditions with these are not read.
- UpsertFlags: it copies the registry into a table that nothing here reads.
- uint64 wrap-around of the registry version, and int64 wrap-around of times: numbers are unbounded.
- Reading the clock and taking the cache's lock are one step, so times reach the cache in order.
- An override table changed by hand to hold rows SetOverride cannot write, such as an empty principal id.
- Database errors in ListOverrides: the code ignores them and caches defaults.
- A panic inside a job's Handle, a second Start, and jobs left when the queue is stopped: Stop is the steps Cancel and Exit only.
- The text of `fmt.Sprintf("%v")` for values that are not strings: each carries its printed form.
- Running out of memory: a list of page numbers of any int length can be made.
- TranslateWithParams: formatting of an already translated text.
- Locks between two open transactions, what an open transaction reads, and drivers that end one by themselves: the driver grants or refuses each request.
- `QueryBuilder.First`: it sets a limit on the builder it is called on.
- Hooks that call the repository, and auto-increment: the id of a created row is an argument; hooks return the model they leave.
- Floating-point and NULL columns, and deltas that are not integers; what adding to a text gives is a parameter.
- Criteria on a column the table does not have: an SQL error, here met by no row.
- CacheMiddleware: it never serves from the cache.
- `Invalidate` on sessions, and random session ids: a fresh id is an argument.
- The lookup of an unknown tenant: the code dereferences a missing row; here the call fails.
- Closing of handles and connection pools.
