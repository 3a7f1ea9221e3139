# Verification of the account store and the audit gate

A Dafny model of four pieces of the repository, with proofs of what they promise:

1. **The audit exception gate** (`tools/check_pnpm_audit_exceptions.py`): the line parser of the
   exceptions file, the generator of findings, and the decision, from the text of the file to the
   exit code. Modules `Text`, `AuditParser`, `AuditReport`, `AuditFindings`, `AuditGate`, `AuditVerdict`,
   `AuditProblems`.
2. **Writing and reading accounts** (`backend/ent/account.go`, `backend/ent/account_create.go`,
   `backend/ent/mutation.go`): setting fields, defaults, checks, the row and the entity that one loop
   builds side by side, scanning, decoding, what is left in the other tables, and the conflict options
   of an upsert. Modules `Tables`, `Account`, `AccountCreate`, `AccountMutation`, `AccountStore`,
   `Upsert`, `AccountUpsert`.
3. **The bulk create chain** (`backend/ent/account_create.go`,
   `backend/ent/authfederatedidentity_create.go`): mutators that call each other from inside their
   closures, with arbitrary user hooks around each. Modules `BulkCreate` (the protocol as a function
   of the hooks and the database), `BulkSafety`, `BulkCompletion` and `BulkOutcome` (what every run
   keeps and what it returns), `BulkSave` (the heap program with its shared slices and pointed-at ids,
   proved to be that function), `AccountBulk` (the whole save of accounts).
4. **Batched eager loading and the query builder** (`backend/ent/account_query.go`,
   `backend/ent/accountgroup_query.go`): one query per edge, scattered back onto the parent objects
   through maps, and `Clone`. Modules `Relational` (filter, stable sort, paging), `EdgeQuery`,
   `EagerLoad`, `GroupLoad`, `AccountQuery` (the loops over heap objects), `EagerLaws`, `GroupLaws`,
   `PageLaws`, `QueryLaws`, `EdgeLaws`, `RunAgain` (what they mean), `QueryClone`, `QueryCalls`.

Code that updates things step by step is modelled by methods with loops over arrays, objects and
fields, each proved against a specification function. The laws are lemmas about those functions; each function
has at least one that says what it computes in other terms: rows of tables, positions in lists, lines of
text.
`dafny verify dfyconfig.toml` checks the whole project.

## Assumptions

- SQL is filter, stable sort, offset and limit, projection and join over sequences of rows. A limit of
  0 is no limit, since the query spec holds a plain number (`backend/ent/account_query.go:735-737`).
  `AddColumnOnce` and `AppendFieldOnce` add a name unless it is there (and the latter does nothing
  while no field is selected); in the update set of an upsert the last entry for a column wins;
  `ResolveWithNewValues` and `ResolveWithIgnore` range over the columns of the INSERT; the context's
  own `Clone` copies its field list.
- The database may refuse any query of an eager load. Which columns an edge query may select is a
  parameter. Within a selector a join puts its account id in front of the columns selected so far.
- `BatchCreate` may refuse or accept a batch and may give any of its specs an id; its answer depends
  on how many batches came before.
- An accepted INSERT adds a join row for each target of a many-to-many edge, sets the foreign key of the
  targets of a one-to-many edge, and keeps that of a many-to-one edge in the new row; ids are taken from
  a set in any order.
- A hook is a script: it may edit its mutation, call the next mutator any number of times, look at
  every outcome, and then fail, succeed or report. It keeps the mutation object it was given.
- Date parsing and the schema's validators are parameters. Instants, JSON documents, predicates,
  orderings and modifiers are opaque values.

## Findings

- **A batched many-to-many load need not keep an account's own order.** Neighbours are appended in
  the order their group first occurs in the row stream of the whole batch
  (`backend/ent/account_query.go:576-600`). Every account always gets the right groups, once each. It
  gets them in the order it would get alone, whatever the join table and the batch, exactly when the
  group query orders any two groups it lets through (`GroupLaws.OrderedBatchesExactly`); for given
  rows, exactly when no other account's rows reorder its groups (`GroupLaws.BatchedGroups`).
  `GroupLaws.BatchReorders` is a case of three rows.
- **A limit or an offset on an edge query is shared by the batch.** Every account gets what it gets
  alone exactly when the limit keeps all rows of the batch, or the rows are of one account
  (`PageLaws.LimitIsFairExactly`, `PageLaws.GroupLimitIsFairExactly`); for an offset see
  `PageLaws.OffsetIsFairExactly` and `PageLaws.GroupOffsetIsFairExactly`, and for the parents of a
  many-to-one load `PageLaws.ParentPageIsFairExactly`. `PageLaws.LimitIsShared` is a case.
- **Clone drops modifiers** (`backend/ent/account_query.go:342-360`): a query that takes a lock loses
  it in its clone. The clone is exact if and only if no query of the tree has modifiers.
- **A hook can make the bulk `Save` return nil too early.** Among honest hooks, one hook never does so,
  whatever the builders, checks and database, exactly when it returns nil only after the last mutator
  it called returned nil (`BulkCompletion.HonestExactly`). A hook that succeeds without calling on is
  a case: nothing is inserted, or the first mutation is done and the second is not
  (`BulkCompletion.SkippingHookReportsSuccess`, `BulkCompletion.SkippingHookBreaksSuffix`).
- **The gate can depend on the order of findings**: exactly when all else is in order (exceptions
  complete, distinct and unexpired, every alarming finding identified and covered), each key has a
  finding whose severity its exception accepts, and some finding has one it does not
  (`AuditVerdict.OrderFreeExactly`; `AuditVerdict.TornExample` is a case).
- **A number where a title is looked for ends the script with a traceback**, whatever the severity:
  joining the titles of a vulnerability accepts text only, while the code elsewhere expects `source`
  to be a number at times (`tools/check_pnpm_audit_exceptions.py:97-109`). The generator raises exactly
  when some object in `via` has a nonzero number as the first usable of title, url, advisory and source
  (`AuditReport.GeneratorRaisesExactly`; `AuditVerdict.NumericSourceRaises` is a case).
- **A vulnerability without usable identifiers is silent**: it leaves no trace exactly when it has none
  and no such title (`AuditVerdict.UnidentifiedVulnerabilityIsSilent`), while an advisory without one
  never passes the gate (`AuditVerdict.UnidentifiedAdvisoryFails`).
- **A dash alone on its line opens no item.** The item mark is a dash and a space, and the line has been
  stripped before it is looked for (`tools/check_pnpm_audit_exceptions.py:29-34`), so the pairs after such
  a line go to the record before it, or nowhere (`AuditParser.DashAloneIsNoise`). An item line whose rest
  has no colon ends the script (`AuditParser.ParseFailsExactly`).
- **Comment and code differ** on `UpdateNewValues`: the comment calls it equivalent to
  `ResolveWithNewValues` alone, while the code also keeps `created_at`
  (`backend/ent/account_create.go:1251-1267`). The model follows the code. For a column the two agree
  exactly unless the column is protected and some builder has set it
  (`Upsert.DocumentedEquivalenceExactly`).
- **Of two accounts with one id**, only the later gets the edges keyed by it. An account gets the edges
  it gets alone exactly when it is the last with its id or the database has none for it
  (`QueryLaws.DuplicateLosesExactly`; `QueryLaws.DuplicateLoses` is a case).
- **Running a query again differs from running it afresh.** Its edge queries keep the conditions of
  earlier runs (`backend/ent/account_query.go:619`, `backend/ent/account_query.go:648-650`), failed ones
  included, as far as these got: after any earlier runs, usage logs, memberships and proxies come as from
  a fresh query exactly when every key with rows was asked for each time (`RunAgain.LaterLogsExactly`,
  `RunAgain.LaterMembershipsExactly`, `RunAgain.LaterProxiesExactly`). A group query gets one more join
  each time (`backend/ent/account_query.go:553-561`), and then the type assertion on the second column
  (`backend/ent/account_query.go:578`) panics exactly when some group belongs to an account of every
  run (`RunAgain.LaterRunPanicsExactly`); a run that does not panic attaches no group at all
  (`RunAgain.LaterGroupsExactly`).

## Model

| member | source | states |
|---|---|---|
| `AuditParser.ParseExceptions` | tools/check_pnpm_audit_exceptions.py:23-48 | the loop with its carried record computes the specified parse of every file, and fails exactly where the specification does |
| `AuditParser.NoiseIsIrrelevant` | tools/check_pnpm_audit_exceptions.py:28-45 | files that differ only in blank, comment, `version:` and `exceptions:` lines and lines with neither an item mark nor a colon, wherever they stand, parse alike |
| `AuditParser.InsertNoise` | tools/check_pnpm_audit_exceptions.py:30-33 | inserting such lines anywhere changes nothing |
| `AuditParser.ParseComposes` | tools/check_pnpm_audit_exceptions.py:34-47 | parsing two files joined together, where the second starts with an item, gives the first's records followed by the second's, errors included |
| `AuditParser.PrintedEntry` | tools/check_pnpm_audit_exceptions.py:12-45 | a printed continuation line reads back as its pair exactly when its key is not taken for a comment, an item or a header |
| `AuditParser.RoundTrip` | tools/check_pnpm_audit_exceptions.py:12-48 | printing any non-empty records, indented or not, each value on one line in double quotes, in single quotes or bare, and parsing the text gives the same dictionaries back |
| `AuditParser.RecordExactly` | tools/check_pnpm_audit_exceptions.py:34-47 | in a dictionary read back a key has the value of its last pair, and there are no other keys |
| `AuditParser.UnquoteExactly` | tools/check_pnpm_audit_exceptions.py:15-20 | quotes come off exactly when both ends carry the same one, single or double |
| `AuditParser.PairExactly` | tools/check_pnpm_audit_exceptions.py:12-45 | any other line is split at its first colon; key and value lose their padding, and then the value its quotes; it goes to the current record, or to a new one after an item mark |
| `AuditParser.ParseFailsExactly` | tools/check_pnpm_audit_exceptions.py:34-42 | parsing fails if and only if some item line has no colon in its rest, and then at the first |
| `AuditParser.NothingWithoutItems` | tools/check_pnpm_audit_exceptions.py:34-45 | without an item mark there are no records |
| `AuditParser.DashAloneIsNoise` | tools/check_pnpm_audit_exceptions.py:29-34 | a dash alone on its line opens no item |
| `Text.LineEnds` | tools/check_pnpm_audit_exceptions.py:27-29 | lines end at LF, at CR LF, at a CR that no LF follows, or with the file |
| `Text.StripExactly` | tools/check_pnpm_audit_exceptions.py:15 | stripping takes off the white space at both ends, all of it and nothing else |
| `AuditReport.PickIsFirst` | tools/check_pnpm_audit_exceptions.py:51-61 | an advisory's identifier is the first usable candidate in the stated order, or the last if none is usable |
| `AuditReport.ViaIsFirst` | tools/check_pnpm_audit_exceptions.py:90-96 | the identifier of an object in `via` is the first usable of github_advisory_id, url, source, title and name |
| `AuditReport.KeysIgnorePadding` | tools/check_pnpm_audit_exceptions.py:114-131 | padding of package names, and padding and letter case of identifiers and severities, do not matter |
| `AuditReport.KeysAgreeExactly` | tools/check_pnpm_audit_exceptions.py:114-131 | two package names agree if and only if they are the same but for padding, letter case included; two identifiers or severities if and only if they are the same but for padding and letter case |
| `AuditReport.DigitsExactly` | tools/check_pnpm_audit_exceptions.py:126-131 | a numeric identifier is looked up by its decimal digits, without leading zeros |
| `AuditReport.IterVulns` | tools/check_pnpm_audit_exceptions.py:64-111 | the generator raises at the first vulnerability whose titles cannot be joined, and otherwise yields the findings of both sections in order: one for each advisory, and one for each usable identifier of a vulnerability |
| `AuditReport.GeneratorRaisesExactly` | tools/check_pnpm_audit_exceptions.py:97-109 | it raises if and only if some object in `via` has a nonzero number as the first usable of title, url, advisory and source, and then at the first such vulnerability |
| `AuditReport.NothingUsable` | tools/check_pnpm_audit_exceptions.py:110-111 | a vulnerability yields nothing if and only if none of its identifiers is truthy |
| `AuditReport.UsableMember` | tools/check_pnpm_audit_exceptions.py:86-111 | a vulnerability's findings are exactly those with its name and severity and one of its truthy identifiers |
| `AuditFindings.FindingsExactly` | tools/check_pnpm_audit_exceptions.py:51-111 | a finding is yielded if and only if an advisory gives it (module name or else name, its severity, its first usable identifier) or a vulnerability does (its name, its severity, and a usable identifier of one of its items) |
| `AuditFindings.SectionsInOrder` | tools/check_pnpm_audit_exceptions.py:66-111 | the findings of the advisories come before those of the vulnerabilities |
| `AuditFindings.ItemsInOrder` | tools/check_pnpm_audit_exceptions.py:86-111 | the findings of a vulnerability come in the order of its items |
| `AuditGate.BuildIndex` | tools/check_pnpm_audit_exceptions.py:156-185 | the index holds the first usable exception under each key, and every broken or duplicate exception is reported |
| `AuditGate.CheckAlerts` | tools/check_pnpm_audit_exceptions.py:191-219 | with the set of seen keys, only the first finding of each key is judged: mismatched, missing or expired |
| `AuditGate.Decide` | tools/check_pnpm_audit_exceptions.py:142-243 | an exception of the generator ends the decision; otherwise the exit code is 1 exactly when a problem is reported, and which problems are, in order |
| `AuditVerdict.GateIsExact` | tools/check_pnpm_audit_exceptions.py:156-243 | no problem is reported if and only if all exceptions are complete, dated, non-blank and pairwise distinct by key; every named high or critical finding has an id and an unexpired exception; and the first finding of each key has its exception's severity unless that is blank |
| `AuditProblems.KeysMatchExactly` | tools/check_pnpm_audit_exceptions.py:160-167 | an exception is for a finding if and only if the package is the same but for padding and the identifier the same but for padding and letter case |
| `AuditProblems.ProblemsExactly` | tools/check_pnpm_audit_exceptions.py:156-219 | each kind of problem is reported if and only if some exception or finding has it: fields missing, no date, a blank key, a repeated key, no identifier, and a severity that differs between the first finding and the first usable exception of a key |
| `AuditProblems.ListsExactly` | tools/check_pnpm_audit_exceptions.py:191-237 | the two lists at the end name, once each, the keys without a usable exception and the keys whose exception has run out; an empty list is not reported |
| `AuditVerdict.RunGate` | tools/check_pnpm_audit_exceptions.py:142-243 | from the text of the exceptions file: a malformed file raises, then a title that cannot be joined raises, and otherwise the exit code is 0 if and only if the policy holds |
| `AuditVerdict.NumericSourceRaises` | tools/check_pnpm_audit_exceptions.py:97-109 | a report with one low vulnerability known only by a numeric source raises |
| `AuditVerdict.DeduplicationIsSafe` | tools/check_pnpm_audit_exceptions.py:191-219 | permuting or repeating findings does not change the verdict when no key occurs with both severities |
| `AuditVerdict.OrderFreeExactly` | tools/check_pnpm_audit_exceptions.py:191-219 | the verdict is the same for every order of the findings, and for every repetition, exactly when they are not torn: all else in order, each key with a finding that suits its exception, and some finding that does not |
| `AuditVerdict.TornExample` | tools/check_pnpm_audit_exceptions.py:191-219 | one record and two findings for which the gate passes in one order and fails in the other |
| `AuditVerdict.UnidentifiedVulnerabilityIsSilent` | tools/check_pnpm_audit_exceptions.py:82-111 | in every report, a vulnerability changes nothing if and only if it has no usable identifier and no title that raises, whatever its severity |
| `AuditVerdict.UnidentifiedAdvisoryFails` | tools/check_pnpm_audit_exceptions.py:197-202 | with a named high or critical advisory whose identifier is blank the gate never passes |
| `Account.ScanValues` | backend/ent/account.go:138-159 | one slot for each column, of that column's kind |
| `Account.ScanRow` | backend/ent/account.go:138-159 | the slots once the driver has filled them from a row |
| `Account.Account.AssignValues` | backend/ent/account.go:163-367 | the in-place loop leaves the fields and the error of the specified left-to-right assignment, with what was assigned before an error kept |
| `Account.AssignKeeps` | backend/ent/account.go:163-367 | assigning one column changes no other field |
| `Account.ScanAssignAgree` | backend/ent/account.go:138-367 | for every column list, in any order, with repeats and unknown names, slots of the scanned kinds never cause a type or length error; only a bad JSON document is refused |
| `Account.AssignFromRow` | backend/ent/account.go:163-367 | each decoded field depends on its own column alone; NULL leaves it as it was, except that the id becomes 0; decoding fails exactly when a selected document is bad |
| `Account.StopsAtRefusal` | backend/ent/account.go:163-367 | assigning stops at the first slot that is refused and keeps what was assigned before it |
| `Account.TooFewValues` | backend/ent/account.go:164-166 | a length mismatch is reported if and only if there are fewer values than columns, and then nothing is assigned |
| `Account.ReadKeys` | backend/ent/account.go:168-173 | the id and the proxy's id of a decoded account are those of the row's own two columns |
| `Account.ColumnOrderIsIrrelevant` | backend/ent/account.go:163-367 | two column lists over one row that name the same columns decode to the same entity |
| `Account.DistinctColumnsFormRow` | backend/ent/account.go:163-367 | any values for distinct columns are those of a row, so every permutation is covered |
| `AccountCreate.CreateSpec` | backend/ent/account_create.go:594-762 | the row holds exactly the fields the mutation has, the entity the same values, the edges go out in order with the join rows' default fields, and the proxy key is set on the entity though it is written as an edge |
| `AccountMutation.SetThenGet` | backend/ent/mutation.go:4094-4294 | setting a field by name gives it the value and leaves every other field alone |
| `AccountMutation.SetterExactly` | backend/ent/mutation.go:4094-4294 | a setter accepts exactly the values of its column's type; the id and unknown names have none |
| `AccountMutation.SetThenRead` | backend/ent/mutation.go:4094-4294 | a field that is set, created, stored and read back has the value, and every other field what it had before or the zero value |
| `AccountStore.EdgesStored` | backend/ent/account_create.go:708-760 | storing the spec adds one join row for each group with the default priority and the time, points the named usage logs at the account, and changes nothing else in the other tables |
| `AccountStore.MembershipsExactly` | backend/ent/account_create.go:708-726 | the memberships of a new account are exactly one for each group of its mutation |
| `AccountStore.LogsExactly` | backend/ent/account_create.go:744-760 | the usage logs of a new account are exactly those its mutation named |
| `AccountStore.CreatedThenLoaded` | backend/ent/account_create.go:594-762 | loading a created account gives its fields, exactly its groups and usage logs that the user's queries let through, and its proxy |
| `AccountStore.CreatedMemberships` | backend/ent/account_create.go:708-726 | and exactly the memberships just made, as far as the user's query lets them through |
| `AccountCreate.CheckMeaning` | backend/ent/account_create.go:508-574 | check passes exactly when every required column is written and every validator accepts |
| `AccountCreate.CheckReportsFirst` | backend/ent/account_create.go:508-574 | check reports what is wrong with the first column that is missing or refused |
| `AccountCreate.DefaultsKeep` | backend/ent/account_create.go:451-506 | defaults keep every field the caller set |
| `AccountCreate.DefaultsFill` | backend/ent/account_create.go:451-506 | of the unset required columns, defaults fill exactly those other than name, platform and type |
| `AccountCreate.DefaultValues` | backend/ent/account_create.go:451-506 | which provider or which value fills each column |
| `AccountCreate.DefaultsFailExactly` | backend/ent/account_create.go:451-506 | defaults fail if and only if a provider that is needed is missing, for the first such column, and leave the edges alone |
| `AccountCreate.DefaultsFillNoOther` | backend/ent/account_create.go:451-506 | defaults leave every column that is not required as it was |
| `AccountCreate.DefaultsTwice` | backend/ent/account_create.go:451-506 | running defaults again, with any providers, changes nothing |
| `AccountCreate.DefaultsThenCheck` | backend/ent/account_create.go:451-574 | once defaults have run, only name, platform and type are left for the caller to supply |
| `AccountCreate.FailedDefaultsFailCheck` | backend/ent/account_create.go:451-506 | the bulk save ignores the error of defaults, and loses nothing: check then fails |
| `AccountCreate.CreateThenRead` | backend/ent/account_create.go:594-762 | the row stored from the spec's fields and edges decodes to the entity that createSpec returned, foreign key included, whatever defaults the table has |
| `AccountCreate.CreateStoreRead` | backend/ent/account_create.go:594-762 | creating the spec, storing it under an id and reading the row into a new account gives the created entity with that id |
| `AccountCreate.ReadsBackExactly` | backend/ent/account_create.go:508-762 | the round trip holds for every table and id if and only if every required column is written |
| `Upsert.Resolve` | backend/ent/account_create.go:1259-1294 | the loops over options, builders and columns give each column its last write |
| `Upsert.WrittenExactly` | backend/ent/account_create.go:780-800 | whatever the options, a column gets what the last option that says anything of it says |
| `Upsert.RowExactly` | backend/ent/account_create.go:1259-1294 | what the conflicting row then holds; it is unchanged if some option says to do nothing |
| `Upsert.Builder.UpdateNewValues` | backend/ent/account_create.go:1979-1992 | appends the new-values option and the late closure that shields the protected columns, and keeps every list of typed calls typed |
| `Upsert.ProtectedKept` | backend/ent/authfederatedidentity_create.go:418-428 | after any typed calls in any order a protected column (id or created_at) keeps its value on conflict |
| `Upsert.ProposedExactly` | backend/ent/account_create.go:780-800 | for raw options and any column, the proposed value wins exactly when some option offers it and none after that one writes anything else |
| `Upsert.DocumentedEquivalenceExactly` | backend/ent/account_create.go:1251-1267 | the equivalence the comment claims holds for a column exactly unless it is protected and some builder has set it |
| `Upsert.DocumentedEquivalenceFails` | backend/ent/account_create.go:1251-1267 | where it fails, the comment's reading writes the proposed value and the code keeps the existing one |
| `AccountUpsert.CreationTimeKept` | backend/ent/account_create.go:1979-1992 | on any number of accounts, each with its own default providers, with any typed options evaluated after defaults, created_at is never overwritten even if no caller set it |
| `AccountUpsert.InsertColumnsExactly` | backend/ent/account_create.go:594-762 | the columns counted as set are those of the spec's row and the foreign key of its edges |
| `AccountUpsert.EarlyEvaluationLoses` | backend/ent/account_create.go:451-460 | evaluated on the columns set before defaults, the option would keep created_at exactly when some caller had set it, and overwrite it otherwise |
| `BulkSave.Bulk.Closure` | backend/ent/account_create.go:1860-1893 | the closure of builder i, over shared slices and a pointer to the node's id, does what the protocol says and touches nothing of earlier builders |
| `BulkSave.Bulk.Mutate` | backend/ent/account_create.go:1871-1897 | mutator i with its hooks wrapped around it, run on the heap, is the protocol's step |
| `BulkSave.SaveAll` | backend/ent/account_create.go:1849-1905 | the error stored in the builder is returned first; otherwise a whole save, defaults first, ends in the protocol's final state with its error; without edits every batch has for each builder a spec of its fields with their defaults, and on success every node has them; with pass-through hooks one batch is sent and its answer returned if all builders pass their checks, and else none and the first that fails is named |
| `AccountBulk.SaveAccounts` | backend/ent/account_create.go:451-574 | with pass-through hooks and a database that accepts the batch, saving accounts succeeds if and only if every builder has a name, a platform and a type, its providers, and only values the validators accept; one batch is sent or none; every account sent and created has its defaults |
| `BulkSafety.BatchesAreComplete` | backend/ent/account_create.go:1861-1877 | whatever the hooks do, a batch that reaches the database has a spec for every builder, built after its check passed |
| `BulkSafety.InvalidBuilderStopsAll` | backend/ent/account_create.go:1865-1867 | one builder that fails its check keeps every batch away, when no hook edits mutations |
| `BulkSafety.BatchesAreFew` | backend/ent/account_create.go:1871-1897 | at most as many batches as the product of how often each hook can call on, so at most one when each calls on at most once |
| `BulkSafety.CallsNest` | backend/ent/account_create.go:1871-1897 | for all hooks the trace is properly bracketed, hooks inside builders, builder i around builder i+1, batches only innermost |
| `BulkSafety.PassThroughTrace` | backend/ent/account_create.go:1871-1897 | with pass-through hooks and valid builders the trace is exactly: all hooks entered in order, one batch, all left in reverse |
| `BulkOutcome.SaveOutcome` | backend/ent/account_create.go:1871-1897 | with pass-through hooks the batch is sent exactly when every builder passes, and its answer is returned, a refusal of a constraint as a constraint error; otherwise the first builder that fails is named |
| `BulkOutcome.FailingHookStopsAll` | backend/ent/account_create.go:1894-1896 | a hook that fails before calling on is what the save returns, with nothing sent |
| `BulkOutcome.SaveMirrors` | backend/ent/account_create.go:1875-1876 | without edits all that is built has the fields its builder started with |
| `BulkCompletion.DoneIsSuffix` | backend/ent/account_create.go:1882-1893 | for hooks that never hide an error or skip, the done mutations form a suffix, there are none unless a batch was accepted, and when Save returns nil all are done and each node has its spec's id |
| `BulkCompletion.HonestExactly` | backend/ent/account_create.go:1882-1904 | a hook never lets Save return nil before everything is done, for all builders, checks, databases and honest other hooks, exactly when it returns nil only after the last mutator it called returned nil; one builder with this one hook already tells |
| `BulkCompletion.FaithfulIsHonest` | backend/ent/account_create.go:1894-1896 | hooks that either fail or call next once and pass its error on are honest |
| `BulkCompletion.CallerIdsSurvive` | backend/ent/authfederatedidentity_create.go:235-238 | on success a node has its caller's id when that is not zero and the database's otherwise |
| `BulkCompletion.DatabaseIds` | backend/ent/account_create.go:1887-1891 | without caller-supplied ids each node gets the database's id, in builder order |
| `BulkCompletion.SkippingHookReportsSuccess` | backend/ent/account_create.go:1899-1904 | a hook that succeeds without calling on makes Save return nil with nothing sent |
| `BulkCompletion.SkippingHookBreaksSuffix` | backend/ent/account_create.go:1882-1893 | the same hook on the second builder leaves the first done and the second not |
| `EdgeQuery.QuerySpecColumns` | backend/ent/account_query.go:716-727 | the appending loop builds the specified column list |
| `EdgeQuery.ColumnsSuffice` | backend/ent/accountgroup_query.go:448-470 | the id, where there is one, comes first and only once, and the rest are exactly the selected fields and the needed keys |
| `EagerLoad.PrepareQuery` | backend/ent/account_query.go:465-469 | reports the first selected field that is not a column |
| `EagerLoad.LoadUsageLogs` | backend/ent/account_query.go:635-664 | fails only on an invalid field or a refused query, never with an unexpected key; the last account with an id gets exactly its rows in order, any other none; the edge query keeps the added condition |
| `EagerLoad.LoadAccountGroups` | backend/ent/account_query.go:665-694 | the same for a neighbour with a composite key and no id column |
| `EagerLoad.LoadProxy` | backend/ent/account_query.go:603-634 | fails only on an invalid field or a refused query; each account gets the last returned proxy with its key; without keys no query is made and the query is left alone |
| `EagerLoad.LoadAccount` | backend/ent/accountgroup_query.go:379-407 | the same for a required foreign key |
| `EagerLoad.KeysCorrect` | backend/ent/account_query.go:604-619 | the ids sent are exactly the keys that are set, each once |
| `GroupLoad.CollectRows` | backend/ent/account_query.go:565-587 | the wrapped callbacks, which take the second column for the group's id, keep the first row of each group and record exactly the accounts that own a row of it |
| `GroupLoad.AppendToAll` | backend/ent/account_query.go:596-599 | every recorded account gets the neighbour once, in whatever order the set is visited |
| `GroupLoad.LoadGroups` | backend/ent/account_query.go:542-602 | adds one join for the accounts' ids; fails only on an invalid field, a refused query, or, if the query was loaded before and rows come, a panic; otherwise each account gets the specified groups |
| `EagerLaws.ChildrenAreTheJoin` | backend/ent/account_query.go:635-694 | without paging, each account in a batch gets the rows the user's own query has for its id, in its order, projected |
| `EagerLaws.ChildrenProjected` | backend/ent/account_query.go:645-647 | selecting fields projects the neighbours and changes nothing else, paged or not |
| `PageLaws.LimitIsFairExactly` | backend/ent/account_query.go:645-654 | with a limit, every account gets what it gets alone exactly when the limit is 0, which is none, or keeps all rows of the batch, or the rows are of one account |
| `PageLaws.OffsetIsFairExactly` | backend/ent/account_query.go:645-654 | with an offset, every account gets the rows it gets alone exactly when the page is empty, or the rows up to its end are of one account and no other account has more rows than the offset |
| `PageLaws.RowsFairIsEnough` | backend/ent/account_query.go:645-654 | the same rows are the same children, whatever fields are selected |
| `PageLaws.ProjectedOffsetIsFairExactly` | backend/ent/account_query.go:645-654 | the same condition is exact for the children themselves where no two projected rows coincide |
| `PageLaws.LimitIsShared` | backend/ent/account_query.go:648-651 | two accounts with one row each share a limit of 1: the second gets nothing in the batch and its row alone |
| `PageLaws.ParentPageIsFairExactly` | backend/ent/account_query.go:616-623 | with a page on the proxies, every key leads where it leads alone exactly when the page takes nothing of what the batch finds, or all of it |
| `PageLaws.GroupLimitIsFairExactly` | backend/ent/account_query.go:553-591 | with a limit on the group query, where no pair is returned twice, every account gets the groups it gets alone exactly when the limit is 0, which is none, or keeps all rows, or the rows are of one account; and gets them in that order exactly when, besides, no other account's rows reorder them |
| `PageLaws.GroupOffsetIsFairExactly` | backend/ent/account_query.go:553-591 | the same groups for an offset exactly under the condition of `PageLaws.OffsetIsFairExactly` on the joined rows, and then always in the same order |
| `EagerLaws.ParentIsTheReferencedRow` | backend/ent/account_query.go:603-634 | without paging, a key in a batch leads to the row it leads to alone |
| `EagerLaws.ParentProjected` | backend/ent/account_query.go:603-634 | selecting fields projects the proxy and changes nothing else, paged or not |
| `GroupLaws.GroupsAreOwned` | backend/ent/account_query.go:566-601 | an account gets exactly the groups it owns a row of, each once, each as its first row, in the order of those first rows |
| `GroupLaws.LoadIsTheJoin` | backend/ent/account_query.go:542-602 | a group is attached if and only if the join table links it to the account and the user's query lets it through |
| `GroupLaws.BatchedGroups` | backend/ent/account_query.go:542-602 | the same groups as alone, and in the same order exactly when no other account's rows reorder them |
| `GroupLaws.OrderedBatchesExactly` | backend/ent/account_query.go:553-600 | a group query gives every account of every batch, for every join table, the sequence it would get alone exactly when it orders any two groups it lets through |
| `GroupLaws.BatchReorders` | backend/ent/account_query.go:566-601 | three join rows for which the batch changes an account's order |
| `GroupLaws.GroupsProjected` | backend/ent/account_query.go:566-601 | selecting fields projects the groups and changes nothing else |
| `EdgeLaws.ChildrenExactly` | backend/ent/account_query.go:635-694 | an account of a batch gets each row that names it and satisfies the user's query, as often as the table has it, in the query's order, with exactly the selected columns and the key |
| `EdgeLaws.TiesAsStored` | backend/ent/account_query.go:645-654 | rows that the order does not tell apart come as they stand in the table |
| `EdgeLaws.UnorderedAsStored` | backend/ent/account_query.go:645-654 | without an order all rows come as they stand in the table |
| `EdgeLaws.ParentExactly` | backend/ent/account_query.go:603-634 | where ids are unique a key leads to the row with that id if and only if the user's query lets it through, with exactly the selected columns |
| `EdgeLaws.GroupExactly` | backend/ent/account_query.go:542-602 | where ids are unique an account of a batch gets exactly the groups linked to it that the user's query lets through, with exactly the selected columns |
| `EdgeLaws.LoadedChildren` | backend/ent/account_query.go:480-540 | the usage logs and memberships of a loaded account, said of the tables |
| `EdgeLaws.LoadedGroupsAre` | backend/ent/account_query.go:480-540 | the groups of a loaded account, said of the tables |
| `EdgeLaws.LoadedProxyIs` | backend/ent/account_query.go:480-540 | the proxy of a loaded account, said of the table |
| `AccountQuery.AccountQuery.QueryNodes` | backend/ent/account_query.go:491-512 | one fresh account for each row, in order, decoded, without edges; or the first row error and no accounts |
| `AccountQuery.AccountQuery.SqlAll` | backend/ent/account_query.go:480-540 | with any of the four edges, on the first run or a later one: one account for each row in order, its own fields, the edges asked for and no others; it fails exactly with the first failing query or undecodable row in the order of execution, and then returns no accounts; and what each edge query denotes afterwards |
| `QueryLaws.BatchedEqualsAlone` | backend/ent/account_query.go:480-540 | an account loaded in a batch has the fields, proxy, logs and memberships it has when loaded alone, and the same groups; these in the same order exactly when no other account's rows reorder them, and so always when the group query orders the groups it lets through |
| `QueryLaws.EarlierDuplicateGetsNothing` | backend/ent/account_query.go:542-552 | an account whose id occurs again later gets no edges keyed by it |
| `QueryLaws.DuplicateLosesExactly` | backend/ent/account_query.go:542-552 | an account gets the edges keyed by its id that it gets alone if and only if it is the last with its id, or no visible group is linked to it and no row of the user's own two child queries has its id |
| `QueryLaws.DuplicateLoses` | backend/ent/account_query.go:635-664 | two accounts with one id and one usage log: the first gets none in the batch and the log alone |
| `QueryLaws.QueryColumns` | backend/ent/account_query.go:716-727 | a query reads exactly the selected columns, the id, and the foreign key when the proxy is loaded, and every column if none is selected; the id comes first and once |
| `QueryLaws.FieldsExactly` | backend/ent/account_query.go:480-540 | a loaded account has what its row holds in those columns, and the zero value in every other |
| `QueryLaws.QueryFailsExactly` | backend/ent/account_query.go:465-469 | an edge query fails on the first selected field that is no column, and otherwise if and only if the database refuses it |
| `QueryLaws.RowErrorExactly` | backend/ent/account_query.go:491-512 | the row error is that of the first row that cannot be decoded |
| `QueryLaws.FailsWithFirst` | backend/ent/account_query.go:480-540 | a run fails with the first failure in the order of execution: accounts, rows, groups, proxies, usage logs, memberships |
| `QueryLaws.ProjectionKeepsEdges` | backend/ent/account_query.go:716-727 | whatever an account query selects, its accounts get the edges of the unprojected query |
| `QueryLaws.ProxyAccessor` | backend/ent/account.go:110-117 | after a load with the proxy, the accessor finds the proxy exactly when the key is set and names a returned row, and otherwise says not found, never not loaded |
| `QueryLaws.SharedKeysShareProxy` | backend/ent/account_query.go:624-632 | accounts with one key get the same proxy |
| `QueryLaws.KeysAskedOnce` | backend/ent/account_query.go:604-619 | every key that some account has is asked for, once |
| `QueryLaws.EdgeAccessors` | backend/ent/account.go:101-135 | an accessor gives what was loaded if and only if its edge was requested, and otherwise says which edge was not loaded |
| `RunAgain.LaterLogsExactly` | backend/ent/account_query.go:645-654 | after any list of earlier runs, failed ones included, all usage logs are those of a fresh query if and only if every id with rows was asked for by each run that got as far as the usage logs |
| `RunAgain.LaterMembershipsExactly` | backend/ent/account_query.go:675-684 | the same of the memberships |
| `RunAgain.LaterProxiesExactly` | backend/ent/account_query.go:616-623 | the same of the proxies, where runs that had none to ask for do not matter |
| `RunAgain.LaterGroupsExactly` | backend/ent/account_query.go:553-584 | once some run got as far as the groups, a run that does not fail gives all accounts the groups of a fresh query if and only if no group the query lets through is linked to any of them |
| `RunAgain.LaterRunPanicsExactly` | backend/ent/account_query.go:553-584 | after any earlier runs, loading the groups panics if and only if one of them got that far and some group the query lets through belongs to an account of each that did and to one of this run |
| `RunAgain.JoinedBeforeExactly` | backend/ent/account_query.go:553-561 | after earlier joins a group is left if and only if each of them links it to one of its accounts |
| `RunAgain.GroupsAgainPanicExactly` | backend/ent/account_query.go:553-584 | loading a group query again panics if and only if some group it lets through belongs to an account of every earlier run and to one of this run |
| `QueryClone.Append` | backend/ent/account_query.go:42-45 | appending writes in place when the backing array has room and copies when it has not, with the same items either way |
| `QueryClone.Query.Clone` | backend/ent/account_query.go:342-360 | the clone shares no object with the original at any level and holds everything but the modifiers |
| `QueryClone.Query.Lock` | backend/ent/account_query.go:789-810 | adds a modifier and, on Postgres, turns unique off |
| `QueryClone.Build` | backend/ent/account_query.go:364-405 | any list of builder calls, nested edge options included, has its specified effect and changes no object that existed except the query's own |
| `QueryCalls.SettingsAccumulate` | backend/ent/account_query.go:42-69 | after any calls the conditions, orderings and locks are those there were, followed by all the calls gave, in order |
| `QueryCalls.SettingsReplaced` | backend/ent/account_query.go:47-63 | the limit, the offset and the unique setting are those of the last call that sets them, a lock on Postgres included |
| `QueryCalls.FieldsAre` | backend/ent/account_query.go:418-454 | the selected fields are those of the last GroupBy, or those there were, followed by those of every later Select |
| `QueryCalls.EdgesAre` | backend/ent/account_query.go:364-405 | an edge is what the last With for it built from a new query by its own options, or what it was |
| `QueryCalls.OriginKept` | backend/ent/account_query.go:42-454 | no call changes the dialect, the interceptors or where the query starts from |
| `QueryClone.CloneThenRun` | backend/ent/account_query.go:340-360 | after cloning, whatever is called on either copy in any interleaving, each holds what its own calls make of it, at every level |
| `QueryClone.CloneIsExact` | backend/ent/account_query.go:346-359 | a clone equals its original exactly when no query of the tree has modifiers |
| `QueryCalls.CloneOnlyDropsModifiers` | backend/ent/account_query.go:342-360 | the clone is the one query that is the same but for the modifiers, at every level, and has none |
| `QueryClone.CloneCommutes` | backend/ent/account_query.go:342-360 | cloning late gives what cloning early and repeating the calls gives |
| `QueryClone.LockFreeClonesExactly` | backend/ent/account_query.go:342-360 | a query built without locks, also in its edges, clones exactly |
| `QueryClone.LockIsLost` | backend/ent/account_query.go:789-810 | a lock taken last is missing from the clone |

## Left out

- SQL text, drivers, transactions, contexts, `DISTINCT`, interceptors and edge traversal (`Query*`): libraries and wrappers without logic of their own; see the assumptions.
- Eager loads nested inside a neighbour query: the neighbour's own loader is the same code.
- `AccountGroupQuery.loadGroup`: the same loop as `loadAccount` on another key.
- `EagerLoad.Load*`: neighbours are values, so that two accounts sharing a group share one Go object is not shown; nor is the difference between a nil and an empty slice.
- The fields of the join table that a group edge query could carry in `Edges`.
- `BulkSave.SaveAll`: requires that no two builders share a mutation or an id pointer, and takes the defaults of each builder as a function of its fields; hooks that replace the mutation object are not modelled.
- `QueryClone.Query.Clone`: the generated query types are one class whose edges are a map from edge name; the source's one statement for each edge is a loop. Selectors (`sql`, `path`) are opaque values.
- `QueryClone.Append`: the capacity the runtime chooses is fixed at twice the length.
- `AuditReport.IterVulns`: the titles that findings carry are left out once they can be joined; they are only printed.
- Wording of errors; reports whose JSON has other types than the tool expects.
- Unicode whitespace and case in the normalisers: an ASCII model.
- Integer width, float precision, UUID and time precision: stored exactly.
- The checks of `Exec` on where conflict options may be set.
- Typed setters (as `SetField` by name), panic wrappers, group-by and aggregate plumbing, updates, deletes, and the other entities' copies of the same templates.
