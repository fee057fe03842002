# Go CDK: models and proofs

Dafny 4.11 models of five parts of the Go Cloud Development Kit, with proofs of what they promise.
`dafny verify dfyconfig.toml` checks the whole project.

**Docstore action lists over Firestore** (`Actions`, `Grouping`, `Commits`, `Effects`, `Gets`, `Reference`,
`Schedule`, `RunActions`, `Prepare`, `Execution`, `Feasible`, `AtomicWrites`). A user's list is validated,
grouped by the place that each action takes in the schedule, and turned into Commit calls. The service is an
abstract store in which a commit takes effect whole or not at all; any calls may fail on the way there or on the
way back. `RunActions` is a system of steps: reading before the writes, starting calls under the throttle's
channel and wait group, committing in any order, reading beside the commits, reading after them.
`Reference.Meaning` is the simple meaning of a list, its actions one after the other in the user's order; if a
keyed atomic write is refused on the way, all keyed atomic writes are refused, each at its own place.
`Prepare.RunOfList` says that every finished run, however interleaved and whichever calls fail, has the results
and the documents of that meaning; `Execution.Execute` runs the methods under any such schedule and ends with a
slice of errors that says the same. `Feasible.CanExecute` says that every list has such a schedule, and a
service that fails just the calls that are to fail.

**Update modifications** (`FieldPaths`, `Mods`). Accepted modifications have prefix-free paths, so they mean the
same in every order; compiling them into fields, a mask and increments keeps that meaning. Printed field paths
can be read back.

**Blobs** (`Lex`, `Listing`, `Memblob`, `BlobList`, `BlobReader`, `BlobWriter`, `Prefixed`). The in-memory
bucket's paged listing with directories, scans under concurrent changes, the portable listings over any driver
that keeps the page contract, the seekable reader, the sniffing writer, and the view under a prefix.

**Two protocols** (`Variables`, `Subscriptions`, `BatchSize`). The goroutines of a runtime variable and of a
subscription as steps that interleave in any order. Each section under the lock is a method of a class, tied by
its contract to the function that the step system uses.

**The document codec** (`GoTypes`, `Values`, `Codec`, `DecodeOrders`, `CodecLoops`, `Faithful`, `Documents`). Encoding
through Firestore's stateful encoder and decoding into a fresh variable, for a datatype of Go types and values.

Where the code does not do what its documentation says, or does it only under a condition, the condition is
proved exact, with a concrete example:

- If a keyed atomic write cannot be encoded, the others are dropped without an error
  (`Commits.SentOrReported`, `Commits.SilentDropExample`, `Prepare.WhenPassedOver`).
- `AtomicWrites` is documented to make all following writes one atomic operation; they are one from every store
  exactly when none of them is a Create without a key, or there is only one, or none of them reaches the service
  (`AtomicWrites.OneOperationIff`, `AtomicWrites.TwoFlaggedExample`).
- `Latest` can answer without an error and without a value (`Variables.LatestEmptyAnswer`,
  `Variables.LatestEmptyMidway`, `Variables.LatestEmptyExample`).
- A batch of messages wakes one waiting caller only, so others sleep beside a queue that is not empty
  (`Subscriptions.AsleepIff`, `Subscriptions.AsleepExample`), and a fetch that offers a wakeup to nobody is stuck for
  ever once there is an error (`Subscriptions.StuckIff`, `Subscriptions.StuckExample`).
- `Receive` is documented to report the same error from then on; it does along a run exactly when no other error
  is recorded in it (`Subscriptions.ErrorReplaced`, `Subscriptions.ErrorReplacedExample`).
- The documented loop over pages ends exactly when no token on the way reads "first page"
  (`BlobList.EndsUnlessLiteral`); over the in-memory bucket that depends on which names end its pages
  (`BlobList.MemblobEnds`, `BlobList.LiteralTokenFromMemblob`). An empty key, which Copy can store, ends a
  listing early in one exact case (`Listing.EmptyTokenMeansDone`, `Listing.ScanUnderChanges`,
  `BlobList.MemblobBreaksContract`, `Prefixed.EmptyKeyByCopy`), though not through a prefix
  (`Prefixed.PageUnderPrefix`, `Prefixed.EmptyKeyThroughPrefix`).
- A reader opened beyond the end of its blob reports negative offsets (`BlobReader.SeekStaysInWindow`,
  `BlobReader.SeekPastEndExample`).
- A pointer to a nil slice, map or pointer is decoded as a nil pointer, a pointer to a time.Time is encoded as bytes
  that cannot be decoded, and a nil one makes the encoder panic (`Faithful.RoundTrip`,
  `Faithful.PointerToNilExample`, `Faithful.TimePointerExample`); a document whose name has a slash does not keep its
  name (`Documents.DocRoundTrip`).
- Decoding a map depends on the order in which Go goes through it exactly when two of its strings are one key and
  can be decoded differently (`DecodeOrders.OrderMatters`, `DecodeOrders.ClashExample`).

## Model

| member | source | states |
|---|---|---|
| `Actions.ToDriverAction` | docstore/docstore.go:400-446 | an action is accepted exactly when its key, revision, field paths and modifications are acceptable; a Put with a revision becomes a Replace; an Update has all of the user's modifications, converted, in the order of their paths |
| `Actions.ToDriverActions` | docstore/docstore.go:363-398 | a list is refused exactly when it has a bad action, the errors name exactly the bad ones, duplicates included, and an accepted list is converted in order, modifications included, and is well formed |
| `Actions.AcceptedIff` | docstore/docstore.go:400-500 | in the user's terms: only a Create may lack a key, and must not have a revision; all paths are well formed; no path of an Update lies below another |
| `Actions.ConvertedInto` | docstore/docstore.go:412-432 | only a Put with a revision changes its kind, to a Replace; an empty name is no key |
| `Actions.DuplicatesIff` | docstore/docstore.go:363-398 | two actions may not stand together exactly when they name the same document and both or none of them is a Get |
| `Grouping.GroupActions` | docstore/driver/util.go:58-106 | the five results are the groups by class, in list order: gets before, beside and after the writes, ordinary writes followed by those without keys, and keyed atomic writes |
| `Grouping.Vals` | docstore/driver/util.go:95-103 | the values of a class's map, sorted by index, are the class's group |
| `Grouping.ClassNext` | docstore/driver/util.go:85-90 | one more action changes the class of an earlier one only when it writes the key of a get that was to run beside the writes |
| `Grouping.GroupsPartition` | docstore/driver/util.go:58-106 | the groups together have each action of the list as often as the list has it |
| `Grouping.ConcurrentKeysDisjoint` | docstore/driver/util.go:56-106 | a get that runs beside the writes has a key that no action writes |
| `Grouping.FpsEqual` | docstore/driver/util.go:150-161 | two lists of field paths are found equal exactly when they are |
| `Grouping.GroupByFieldPath` | docstore/driver/util.go:129-147 | terminates for distinct actions; the groups have every get once, the gets of a group ask for the same field paths, and different groups for different ones |
| `FieldPaths.FpHasPrefix` | docstore/docstore.go:503-513 | component-wise prefix |
| `FieldPaths.PrefixSortsFirst` | docstore/docstore.go:468-475 | a path that is a prefix of another is sorted before it as a dotted string |
| `FieldPaths.ParseFieldPath` | docstore/docstore.go:591-603 | a dotted string is refused exactly when it is empty, begins or ends with a dot, or has two dots in a row; otherwise its components have no dots and joined are the string |
| `FieldPaths.ParseMore` | docstore/docstore.go:591-603 | what stands before the first dot is the first component, and what follows is parsed by itself |
| `FieldPaths.PrefixAsStrings` | docstore/docstore.go:503-513 | a path is a prefix of another exactly when its string is the other's, or is that with a dot after it |
| `FieldPaths.ReadOfPrinted` | docstore/gcpfirestore/fs.go:709-740 | a reader of plain and backtick-quoted components gives a printed path back, whatever characters its components have |
| `FieldPaths.PrintingInjective` | docstore/gcpfirestore/fs.go:709-740 | different paths are printed differently |
| `FieldPaths.PrintedPlain` | docstore/gcpfirestore/fs.go:709-740 | a component is printed as it is exactly when it has letters, digits and underscores only and does not begin with a digit; otherwise between backticks |
| `Mods.ToDriverMods` | docstore/docstore.go:460-500 | succeeds exactly when every path parses, every increment is a number and no path is a prefix of another, though it compares each path with earlier ones only |
| `Mods.Commute` | docstore/docstore.go:240-243 | modifications at paths that are not prefixes of each other commute on every document |
| `Mods.EffectAt` | docstore/docstore.go:258-266 | at its own path a modification deletes, stores, or adds to what was there |
| `Mods.KeepsOther` | docstore/docstore.go:240-243 | at every path that is neither above nor below its own it changes nothing |
| `Mods.DeletesNothing` | docstore/docstore.go:258-266 | deleting what is not there leaves the document as it was |
| `Mods.TopLevel` | docstore/docstore.go:258-266 | the effect on a top-level field, as an update of the map |
| `Mods.EveryEffect` | docstore/docstore.go:240-266 | accepted modifications each have their own effect on what was there before, and everything else stays |
| `Mods.AnyOrder` | docstore/docstore.go:240-243 | accepted modifications have the same effect in every order |
| `Mods.SetAtOpen` | docstore/gcpfirestore/fs.go:675-704 | setting a path that no non-map blocks succeeds, and does what the modification does |
| `Mods.SetAtBlocked` | docstore/gcpfirestore/fs.go:675-704 | setting a path that a non-map blocks fails |
| `Mods.ProcessMods` | docstore/gcpfirestore/fs.go:568-600 | for accepted modifications no field path fails; the only errors are values that cannot be encoded; the result is the compiled form |
| `Mods.CompiledMeaning` | docstore/gcpfirestore/fs.go:531-600 | applying the compiled fields, mask and increments to any document is applying the modifications one at a time in any order |
| `Mods.CompiledLeaves` | docstore/gcpfirestore/fs.go:531-600 | so what is sent leaves at every modified path what was asked for, and everything else as it was |
| `Commits.ActionToWrites` | docstore/gcpfirestore/fs.go:437-529 | fails exactly for gets, revisions of the wrong type, documents that cannot be encoded and modifications with such a value; otherwise gives the action's writes and the generated name |
| `Commits.ActionMeaning` | docstore/gcpfirestore/fs.go:437-561 | committing an action's writes succeeds and changes its document exactly as the kind of action promises: existence, revision, new contents |
| `Commits.CommitSucceeds` | docstore/gcpfirestore/fs.go:437-529 | a Create succeeds exactly when the document is missing; with a non-zero timestamp the others succeed exactly when that is the stored revision; without, a Put and a Delete always, a Replace and an Update exactly when the document exists |
| `Commits.CommitLeaves` | docstore/gcpfirestore/fs.go:437-561 | the document is then what was given, gone, or what each modification asks for, under a new revision; all others are as they were |
| `Commits.UpdateLeaves` | docstore/docstore.go:460-500 | after an accepted Update every path that the user named holds what was asked for |
| `Commits.WrittenUnder` | docstore/gcpfirestore/fs.go:437-456 | every write is of the document of the action's key; a Create without one is written under the generated name, which is also what its document is told |
| `Commits.WritesShape` | docstore/gcpfirestore/fs.go:531-561 | an action has one or two writes, of its own document, and two only as an update followed by a transform without a precondition |
| `Commits.CannotFail` | docstore/gcpfirestore/fs.go:391-392 | a write without a precondition succeeds on every store |
| `Commits.CanFailIff` | docstore/gcpfirestore/fs.go:388-417 | all writes have a precondition but a Put and a Delete that name no revision |
| `Commits.BuildCommitCalls` | docstore/gcpfirestore/fs.go:388-417 | unsendable actions get their error; every sendable one with a precondition has a call of its own, and those without share the last call |
| `Commits.BuildAtomicWritesCommitCall` | docstore/gcpfirestore/fs.go:420-434 | one call for all keyed atomic writes if all can be sent; otherwise none, and only the first unsendable one has its error |
| `Commits.SentOrReported` | docstore/gcpfirestore/fs.go:420-434 | when some atomic write cannot be sent, all of them report an error exactly if there is only one |
| `Commits.SilentDropExample` | docstore/gcpfirestore/fs.go:424-426 | two atomic deletes, of which the second is dropped without an error |
| `Commits.FollowingTransform` | docstore/gcpfirestore/fs.go:635-648 | at an action's offset, looking for a following transform tells whether it has one or two writes, because names are distinct |
| `Commits.CursorAtOffset` | docstore/gcpfirestore/fs.go:611-632 | at iteration i the cursor is the index of the first write of action i, within the results, and it ends at the number of writes |
| `Commits.DoCommitCall` | docstore/gcpfirestore/fs.go:603-633 | on success every document of the call with a revision field has the update time of its own first write, or its action the error of setting it, and its generated name; on failure every action of the call has the error; no other slot changes |
| `Commits.StampedTells` | docstore/gcpfirestore/fs.go:611-632 | the time put in a document is that of the first write of that document in the call, and the name is the one it was written under |
| `Commits.SetErr` | docstore/gcpfirestore/fs.go:309-313 | exactly the slots of these actions have the error |
| `Effects.CommitEffect` | docstore/gcpfirestore/fs.go:387-434 | a call over distinct names succeeds exactly when each of its actions would alone, and then leaves every document as that action alone would |
| `Effects.OrdinaryOutcome` | docstore/gcpfirestore/fs.go:387-417 | whatever the store, each ordinary write has in its call the outcome it would have alone |
| `Effects.InOneCall` | docstore/gcpfirestore/fs.go:387-417 | every sendable ordinary write is in exactly one call |
| `Gets.NewGetRequest` | docstore/gcpfirestore/fs.go:363-378 | the request names every get's document in order, with the mask of their common field paths |
| `Gets.HandleResponse` | docstore/gcpfirestore/fs.go:341-359 | a true response makes the get that it names right and keeps the others right |
| `Gets.BatchGet` | docstore/gcpfirestore/fs.go:308-361 | whatever the order of the responses, each get has the answer for its own document and fields, or not-found; a call that cannot start, a stream that breaks and a response of no known kind are each reported by all gets of the call; no other slot changes |
| `Gets.RunGets` | docstore/gcpfirestore/fs.go:300-304 | every get is in exactly one call, of gets of its field paths, and reports the fate of that call |
| `Gets.AllAnswered` | docstore/gcpfirestore/fs.go:300-361 | when all calls are answered from one state of the store, every get has the answer for its own document and its own field paths |
| `Reference.InOrderExpected` | docstore/docstore.go:322-331 | running a list in order gives each action its expected result and leaves the expected documents, whichever actions the service does not hear or answer; a write of the transaction is refused exactly when one that arrives would fail alone |
| `Reference.MeaningExpected` | docstore/docstore.go:322-331 | so does the meaning with the keyed atomic writes as one transaction, which takes place exactly when each of them would succeed alone |
| `Reference.SameFieldsIs` | docstore/docstore.go:322-331 | two stores that are the same up to revisions have the same names, each with the same fields |
| `Reference.ReadExpected` | docstore/gcpfirestore/fs.go:266-296 | a get that reads when exactly the sent writes of its key that come before it are done has its expected result |
| `Schedule.AllOrNone` | docstore/gcpfirestore/fs.go:387-434 | the writes of a call are expected to take effect all together or not at all, as the call arrives and succeeds or not |
| `Schedule.CommitStep` | docstore/gcpfirestore/fs.go:272-288 | a commit, whenever it happens among the others, and also when it is lost, gives its writes their expected results and the store the expected documents |
| `Prepare.PlanGood` | docstore/gcpfirestore/fs.go:266-270 | grouping and building calls gives every write that is to be sent exactly one call, of one of the three kinds, with distinct names |
| `Prepare.TransactionSent` | docstore/gcpfirestore/fs.go:420-434 | all keyed atomic writes are sent, or none; in that case all but the first unsendable one are passed over |
| `Prepare.WhenPassedOver` | docstore/gcpfirestore/fs.go:420-434 | some write is passed over without an error exactly when there are at least two keyed atomic writes and one of them cannot be sent |
| `Prepare.RunOfList` | docstore/gcpfirestore/fs.go:265-296 | for every well-formed list and any calls that fail, every finished run has the results and the documents of the list's meaning |
| `Prepare.Prepare` | docstore/gcpfirestore/fs.go:266-270 | the groups and calls computed are those of the plan, and exactly the unsendable writes have an error before any call is made, of a transaction only its first |
| `RunActions.ReadStep` | docstore/gcpfirestore/fs.go:266-296 | a read, at whatever moment of the run, reports what is expected, in a slot that was empty |
| `RunActions.CommitInv` | docstore/gcpfirestore/fs.go:272-288 | a commit step reports what is expected, in slots that were empty, and keeps the invariant |
| `RunActions.RunMeaning` | docstore/gcpfirestore/fs.go:265-296 | every finished run reports for each action what the list means in the user's order, and leaves the same documents up to revisions, also when calls fail on the way there or back |
| `RunActions.SlotsWrittenOnce` | docstore/gcpfirestore/fs.go:266-296 | each result is written once, by the get itself or by the call that owns the action |
| `RunActions.AfterGetsLast` | docstore/gcpfirestore/fs.go:292-294 | when a get that follows a write is read, every call has been committed and released |
| `RunActions.ThrottleWorks` | docstore/driver/util.go:182-223 | with a positive limit the channel never holds more tokens than that, nor than the wait group counts, and each active goroutine has one; Wait goes on exactly when every goroutine is done, and then every call is committed |
| `RunActions.ReleaseNeverBlocks` | docstore/driver/util.go:211-216 | a Release always finds a token to receive, and never lowers the wait group's count below zero |
| `RunActions.NoDeadlock` | docstore/gcpfirestore/fs.go:266-296 | some step is enabled in every reachable state that is not finished, whatever the limit |
| `RunActions.RunsEnd` | docstore/gcpfirestore/fs.go:266-296 | a bound on the length of every run |
| `Execution.CommitOne` | docstore/gcpfirestore/fs.go:603-633 | distributing the results of a call, whenever the schedule has it, fills the slots of its actions as the step system's commit does |
| `Execution.ReadRound` | docstore/gcpfirestore/fs.go:300-361 | a round of reads fills the slots of its gets with what is expected of them, or with the failure of their own calls |
| `Execution.Execute` | docstore/gcpfirestore/fs.go:265-296 | under every schedule of the goroutines, and whichever calls fail, the slice of errors and the documents read end as the list means |
| `Execution.SaysWhich` | docstore/gcpfirestore/fs.go:265-296 | a slot has no error exactly when the write took effect, was passed over, or the document was found, and each kind of failure has its own error |
| `Feasible.CanFinish` | docstore/gcpfirestore/fs.go:266-296 | from every reachable state some schedule goes on to the end |
| `Feasible.SomeService` | docstore/gcpfirestore/fs.go:300-361 | for every run there is a service whose replies are true all along it: each call that is heard is answered from the store of its moment, the others fail |
| `Feasible.CanExecute` | docstore/gcpfirestore/fs.go:265-296 | so for every list and all failures that the actions of a call share there are a schedule and a service under which RunActions runs to its end |
| `Feasible.PartialFailureExample` | docstore/gcpfirestore/fs.go:387-417 | a Replace whose call gets no answer beside a Delete whose call does: they are in different calls, and report the failure and success |
| `AtomicWrites.OneOperationIff` | docstore/docstore.go:536-540 | the flagged writes of a list take effect together or not at all, from every store, exactly when none of them is a Create without a key, or there is only one, or none reaches the service |
| `AtomicWrites.TwoFlaggedExample` | docstore/docstore.go:536-540 | a Create without a key that is refused beside a Delete that is carried out |
| `AtomicWrites.HappensInRuns` | docstore/gcpfirestore/fs.go:265-296 | in every finished run an answered write reports success exactly when it takes effect, and its document is as it leaves it |
| `Lex.SortKeys` | blob/memblob/memblob.go:140-144 | keys collected in any order and sorted |
| `Lex.LessIff` | blob/memblob/memblob.go:140-144 | one string is smaller exactly when they agree up to a place where it ends or has the smaller character |
| `Lex.PrefixInterval` | blob/memblob/memblob.go:161-165 | the keys with a prefix are an interval of the order |
| `Listing.CollapseMonotone` | blob/memblob/memblob.go:152-212 | collapsing keys to directories keeps their order, for every prefix and delimiter |
| `Listing.CollapseIs` | blob/memblob/memblob.go:176-190 | a key is listed under its name up to and with the first delimiter after the prefix, or as itself when there is none |
| `Listing.PageLength` | blob/memblob/memblob.go:135-213 | a page has as many names as asked for, or 1000 when no size is given, unless fewer are left |
| `Listing.CollapseCollision` | blob/memblob/memblob.go:176-190 | two keys with the same listed name are both in that directory |
| `Listing.PageThenRest` | blob/memblob/memblob.go:192-212 | a page with a token is full, and what lies above the token is exactly what the page left out; a page without one is all that is left, unless the empty key stops it |
| `Listing.ScanIncreasing` | blob/drivertest/drivertest.go:512-598 | with arbitrary writes and deletes between pages, the names returned strictly increase |
| `Listing.ScanUnderChanges` | blob/memblob/memblob.go:135-213 | and every name present at all fetches is returned exactly once, and only names that some fetch had; only when the empty key stops the first page are the other names missing |
| `Listing.ScanOfUnchanged` | blob/memblob/memblob.go:152-212 | over unchanging keys, pages of any positive sizes concatenate to the sorted listing without duplicates |
| `Listing.ScanFinishes` | blob/memblob/memblob.go:152-212 | and such a scan ends |
| `Listing.EmptyTokenMeansDone` | blob/memblob/memblob.go:201-207 | an empty token means that nothing is left, except exactly when the empty key fills a first page of one and there are more names |
| `Listing.EmptyNameIffEmptyKey` | blob/memblob/memblob.go:152-190 | the empty name is listed exactly when the empty key is stored and the listing has no prefix |
| `Memblob.SeenIffLast` | blob/memblob/memblob.go:176-190 | comparing a directory with the last one only is comparing it with all directories seen |
| `Memblob.Bucket.ListPaged` | blob/memblob/memblob.go:137-213 | the page is the next stretch of the sorted collapsed names, with its token |
| `Memblob.Bucket.GetAttributes` | blob/memblob/memblob.go:222-231 | the stored attributes, or not found |
| `Memblob.Bucket.NewRangeReader` | blob/memblob/memblob.go:234-266 | a reader of exactly the range asked for, cut at the end of the blob |
| `Memblob.WindowIs` | blob/memblob/memblob.go:234-266 | the range is the bytes from the offset on, at most as many as asked for |
| `Memblob.Bucket.NewTypedWriter` | blob/memblob/memblob.go:296-325 | a writer for any key but the empty one |
| `Memblob.DriverReader.Read` | blob/memblob/memblob.go:233-266 | the next bytes of the range, and end of file exactly when none are left |
| `Memblob.DriverWriter.Close` | blob/memblob/memblob.go:358-397 | stores the whole content in one step, keeping the creation time; canceled or refused, it changes nothing |
| `Memblob.StoredIs` | blob/memblob/memblob.go:358-397 | what is stored: content, size, type, metadata, digest, both times; no other key changes |
| `Memblob.Bucket.Copy` | blob/memblob/memblob.go:400-428 | the destination has the source's blob, all other keys are as before; a missing source changes nothing |
| `Memblob.Bucket.Delete` | blob/memblob/memblob.go:431-446 | removes exactly that key |
| `BlobList.MemblobMeetsContract` | blob/driver/driver.go:254-269 | the in-memory bucket keeps the page contract, unless it lists the empty key and something else |
| `BlobList.MemblobBreaksContract` | blob/memblob/memblob.go:192-212 | if it does, it keeps the contract for no listing at all |
| `BlobList.ListPage` | blob/blob.go:932-996 | over any driver that keeps the contract, even with short pages: exactly pageSize objects unless the listing ends, and a token for where it goes on |
| `BlobList.EndsUnlessLiteral` | blob/blob.go:905-948 | over any driver that keeps the contract, following the tokens with one page size comes to an empty token exactly when no token on the way is the literal for the first page |
| `BlobList.MemblobEnds` | blob/memblob/memblob.go:192-212 | over an in-memory bucket it does exactly when no full page of the sorted listing, counted from the start, ends on a name that is the literal while there are more names |
| `BlobList.LiteralTokenFromMemblob` | blob/blob.go:905-948 | a bucket of two blobs whose pages of one go on for ever |
| `BlobList.CollectPages` | blob/blob.go:906-931 | when no token on the way is the literal, following the tokens of ListPage gives the whole listing |
| `BlobList.ListIterator.Next` | blob/blob.go:578-614 | the next object of the listing, or the end, however the driver cuts its pages |
| `BlobList.CollectIterator` | blob/blob.go:578-614 | the iterator gives the same listing as the pages |
| `BlobReader.Reader.Read` | blob/blob.go:117-156 | the bytes at the logical cursor of the window; the driver's reader always stands where the saved offset says, a reopened one ends where the window ends, and the internal error is never returned |
| `BlobReader.Reader.Seek` | blob/blob.go:159-195 | moves the cursor within the window, as the simple reader does |
| `BlobReader.SeekMeans` | blob/blob.go:159-195 | from the start, from the cursor or from the farthest offset; before the start is refused, beyond the farthest offset it stops there |
| `BlobReader.MaxIsWindow` | blob/blob.go:159-195 | for a base offset within the blob the farthest offset of Seek is the length of the window; beyond it, it is negative and the window is empty |
| `BlobReader.SeekStaysInWindow` | blob/blob.go:159-195 | no Seek ends before the window exactly when the base offset lies within the blob |
| `BlobReader.SeekPastEndExample` | blob/blob.go:159-195 | a Seek that reports offset -2 |
| `BlobReader.NewReader` | blob/blob.go:1099-1152 | a reader at the start of the range asked for; negative offsets are refused |
| `BlobReader.Run` | blob/blob.go:99-195 | any sequence of reads and seeks is that of a cursor over the fixed window, from any base offset |
| `BlobWriter.Writer.Open` | blob/blob.go:475-487 | opens the driver's writer once, under the detected type |
| `BlobWriter.Writer.Write` | blob/blob.go:398-430 | appends, however the content is cut, and sniffs the first 512 bytes of the whole |
| `BlobWriter.HeadIs` | blob/blob.go:398-430 | detection looks at the first 512 bytes, or at all there are |
| `BlobWriter.Writer.Close` | blob/blob.go:436-471 | stores the whole content; on an MD5 mismatch the bucket is unchanged |
| `BlobWriter.Upload` | blob/blob.go:390-493 | the result depends only on the concatenation of the chunks |
| `Prefixed.PageUnderPrefix` | blob/driver/driver.go:430-444 | a page through the prefix is the page of the view with the prefix stripped, and the tokens agree except in one exact case |
| `Prefixed.NestedPage` | blob/driver/driver.go:411-444 | listing through prefix q over prefix p is listing through p + q |
| `Prefixed.ViewOfView` | blob/driver/driver.go:411-421 | the view under q of the view under p is the view under p + q |
| `Prefixed.PrefixedBucket.ListPaged` | blob/driver/driver.go:430-444 | rewriting the keys of the base bucket's page gives the page of the view |
| `Prefixed.EmptyKeyByCopy` | blob/memblob/memblob.go:400-428 | a blob stored under the empty key by Copy, listed by pages of one: the first page says that it is the last |
| `Prefixed.EmptyKeyThroughPrefix` | blob/driver/driver.go:430-459 | the same through a prefix: there is a token, and the next page has the other blob |
| `Prefixed.PrefixedBucket.GetAttributes` | blob/driver/driver.go:426-428 | acts on the view |
| `Prefixed.PrefixedBucket.NewRangeReader` | blob/driver/driver.go:446-448 | a reader of the range asked for of the view's blob, with its size, or not found |
| `Prefixed.PrefixedBucket.WriteBlob` | blob/driver/driver.go:450-455 | stores in the view, and keys outside are untouched |
| `Prefixed.PrefixedBucket.Copy` | blob/driver/driver.go:457-459 | copies within the view, and keys outside are untouched |
| `Prefixed.PrefixedBucket.Delete` | blob/driver/driver.go:461-463 | deletes from the view, and keys outside are untouched |
| `Prefixed.OutsideIs` | blob/driver/driver.go:411-421 | nothing outside changed exactly when every key without the prefix is as it was |
| `Variables.Variable.constructor` | runtimevar/runtimevar.go:126-145 | a variable without a value, with Watch not yet having anything to see |
| `Variables.Variable.Publish` | runtimevar/runtimevar.go:212-242 | the background goroutine's section: publishes and replaces the channel, or ends when the variable is closed; closes no channel twice |
| `Variables.Variable.Watch` | runtimevar/runtimevar.go:178-186 | Watch's section: the newest state, and the channel it will wait on next |
| `Variables.Variable.Latest` | runtimevar/runtimevar.go:272-277 | Latest's section |
| `Variables.Variable.Close` | runtimevar/runtimevar.go:294-310 | Close's section: the first one closes the channels, later ones change nothing |
| `Variables.ReachableInv` | runtimevar/runtimevar.go:126-320 | in every interleaving: the watched channel is open exactly when nothing changed since Watch last took an answer, and the invariants on values and on closing |
| `Variables.NoDoubleClose` | runtimevar/runtimevar.go:189-320 | no step closes a closed channel |
| `Variables.ClosedForGood` | runtimevar/runtimevar.go:166-320 | ErrClosed is permanent, and no caller stays blocked |
| `Variables.WatchSeesChanges` | runtimevar/runtimevar.go:169-187 | a waiting Watch can wake exactly when something changed since it last took an answer |
| `Variables.WatchTakesLast` | runtimevar/runtimevar.go:178-186 | over the run: Watch answers the last publication, value or error; when its context ended, that, and it still has the publication to take; ErrClosed after a Close |
| `Variables.WatchExample` | runtimevar/runtimevar.go:178-186 | a good value is published and then an error: Watch answers the error and no value |
| `Variables.LatestIsNewest` | runtimevar/runtimevar.go:262-278 | haveGoodCh seen closed on an open variable: Latest answers the newest good value |
| `Variables.LatestAnswers` | runtimevar/runtimevar.go:263-277 | over the run: the newest good value if it saw that there is one, else the error of the last publication; ErrClosed after a Close |
| `Variables.LatestEmptyAnswer` | runtimevar/runtimevar.go:263-277 | over the run: Latest answers neither error nor value exactly when its context ended it and the last change before it looked was a good publication |
| `Variables.LatestEmptyMidway` | runtimevar/runtimevar.go:263-277 | in that case no good value had been published, and the variable was open, when the call checked |
| `Variables.LatestEmptyExample` | runtimevar/runtimevar.go:263-277 | a run in which that happens |
| `Variables.DriverClosedOnce` | runtimevar/runtimevar.go:312-319 | the driver is closed at most once, after the background goroutine has ended |
| `Variables.CloseDoesNotHang` | runtimevar/runtimevar.go:312-315 | a Close that waits for the background goroutine can go on after at most two steps of that goroutine |
| `BatchSize.Throughput.UpdateBatchSize` | pubsub/pubsub.go:459-499 | asks for 1 to 3000 messages, keeps the running size positive, and is the measured step |
| `BatchSize.MeasuredBounds` | pubsub/pubsub.go:459-499 | the running size changes by a factor between 0.75 and 2 |
| `BatchSize.MeasuredMeans` | pubsub/pubsub.go:459-499 | half of the way to two seconds' worth of the messages taken, within the factors; at least a tenth of a second is counted; the count starts again |
| `BatchSize.SizeMeans` | pubsub/pubsub.go:459-499 | what is asked for is the running size rounded up, at most 3000 |
| `BatchSize.NoOvershoot` | pubsub/pubsub.go:484-491 | it moves towards the ideal size and never past it |
| `BatchSize.Converges` | pubsub/pubsub.go:459-499 | with a constant ideal it comes within any tolerance after an explicit number of measurements, and stays there |
| `Subscriptions.Subscription.Receive` | pubsub/pubsub.go:530-634 | the section of Receive under the lock: error, context, start of a fetch, a message or a channel to wait on |
| `Subscriptions.ReceiveMeans` | pubsub/pubsub.go:530-642 | a recorded error comes first, then the context, then the queue's first message; otherwise it waits |
| `Subscriptions.StartsFetchIff` | pubsub/pubsub.go:548-556 | a fetch starts exactly when there is none and no more messages are queued than half the running batch size |
| `Subscriptions.CountsDelivered` | pubsub/pubsub.go:588-592 | over the run: the count is that of the messages delivered since the last measurement |
| `Subscriptions.Subscription.Enqueue` | pubsub/pubsub.go:566-568 | the queue grows at its end |
| `Subscriptions.Subscription.Fail` | pubsub/pubsub.go:574-576 | records an error |
| `Subscriptions.Subscription.EndFetch` | pubsub/pubsub.go:580-583 | closes the waiting channel and forgets it |
| `Subscriptions.StepInv` | pubsub/pubsub.go:526-686 | every step keeps the invariants, and no Receive ever waits on a nil channel |
| `Subscriptions.DeliveredInOrder` | pubsub/pubsub.go:526-642 | delivered messages followed by the queue are what arrived, in order, up to what is on its way; all of it when no fetch is live |
| `Subscriptions.NothingLost` | pubsub/pubsub.go:556-686 | over the run: every message that the driver returned was delivered, is queued, or is on its way, and none twice |
| `Subscriptions.FirstFailure` | pubsub/pubsub.go:652-686 | the error of a fetch is the first that one of its calls failed with, and that is sent and recorded |
| `Subscriptions.FailureExample` | pubsub/pubsub.go:652-686 | a call of the driver fails and its error is recorded |
| `Subscriptions.OneFetch` | pubsub/pubsub.go:548-556 | a fetch starts only when there is none |
| `Subscriptions.WaitsOnLiveOrClosed` | pubsub/pubsub.go:628-641 | a waiting caller's channel is the live fetch's or closed |
| `Subscriptions.SendsNeverBlock` | pubsub/pubsub.go:652-686 | the result channel has room for every send |
| `Subscriptions.NoDeadlock` | pubsub/pubsub.go:526-686 | while a caller waits, a step of the subscription itself is enabled unless the fetch is inside the driver |
| `Subscriptions.FetchEnds` | pubsub/pubsub.go:556-584 | every step of a fetch lowers a measure that no other step raises |
| `Subscriptions.AsleepIff` | pubsub/pubsub.go:561-570 | a waiting caller sleeps, in every run, until messages are queued once more or the fetch ends, exactly when its channel is open and no wakeup is on offer |
| `Subscriptions.OneWakePerBatch` | pubsub/pubsub.go:561-570 | along a run, the wakeups given are the batches queued, but for one still on offer |
| `Subscriptions.AsleepExample` | pubsub/pubsub.go:628-641 | a caller that sleeps beside a message while the fetch is inside the driver |
| `Subscriptions.StuckIff` | pubsub/pubsub.go:561-570 | a fetch that offers a wakeup never gets past it, in any run, exactly when there is an error and nobody waits |
| `Subscriptions.StuckExample` | pubsub/pubsub.go:561-576 | a run that leads there |
| `Subscriptions.ErrorStays` | pubsub/pubsub.go:534-538 | once there is a permanent error there always is one |
| `Subscriptions.ErrorReplaced` | pubsub/pubsub.go:504-512 | from any reachable state with an error, Receive reports it after every prefix of a run exactly when the run records no other: no acknowledgement fails with one, nobody shuts down, no fetch comes to one |
| `Subscriptions.ErrorReplacedExample` | pubsub/pubsub.go:504-512 | a run in which it is replaced |
| `GoTypes.CastsInvert` | docstore/gcpfirestore/codec.go:72-74 | a uint64 cast to int64 and back is itself, over the whole range |
| `GoTypes.CastsCongruent` | docstore/gcpfirestore/codec.go:72-74 | a cast changes a number by a multiple of 2 to the 64 only, into the range of the other type |
| `GoTypes.Ranges` | docstore/driver/codec.go:478-491 | the ranges of the integer types |
| `GoTypes.OmittedIff` | docstore/driver/codec.go:745-761 | omitempty leaves out exactly nil, the zero values of basic types, and slices, arrays and maps without elements |
| `GoTypes.KeyRoundTrip` | docstore/driver/codec.go:252-272 | a map key of any width, printed and parsed, is itself |
| `GoTypes.PrintedNumber` | docstore/driver/codec.go:252-272 | a printed number has digits without leading zeros, and a minus sign if it is negative |
| `GoTypes.ParsesMean` | docstore/driver/codec.go:650-668 | a signed key may begin with a sign; both kinds must be in the range of 64 bits |
| `Codec.DecodeOfEncoded` | docstore/driver/codec.go:118-293 | for every value that can be encoded, decoding its encoding gives exactly its decoded form, or fails exactly where a pointer to a time.Time was encoded |
| `Codec.NullIff` | docstore/driver/codec.go:160-194 | a value that can be encoded is encoded as null exactly when it is nil or leads to nil |
| `Codec.EncodedAs` | docstore/gcpfirestore/codec.go:66-116 | the Firestore value that stands for each basic value |
| `Codec.EncodedInto` | docstore/driver/codec.go:160-226 | only a slice of bytes is encoded as bytes, other lists as arrays, maps and structs as maps |
| `Codec.AbsentIff` | docstore/driver/codec.go:274-293 | a field is absent exactly when it has omitempty and is nil, the zero value of its basic type, or without elements |
| `Codec.NumberDecodes` | docstore/driver/codec.go:445-491 | an integer is decoded to itself, a double exactly to the integer that it is, within the type's range |
| `Codec.WrongKind` | docstore/driver/codec.go:379-517 | a value of the wrong kind is an error |
| `Codec.DecodeOfNull` | docstore/driver/codec.go:379-395 | null is decoded to nil for the types that have it, and is otherwise an error |
| `Codec.ArrayDecodes` | docstore/driver/codec.go:519-588 | an array that is long enough gets the elements, and the rest is zero |
| `Codec.StructDecodes` | docstore/driver/codec.go:673-703 | a struct gets its fields, the others are zero; a name that it does not have is an error |
| `Codec.DecodeTyped` | docstore/driver/codec.go:379-703 | whatever is decoded is a value of the type |
| `Codec.AnyOfEncoded` | docstore/gcpfirestore/codec.go:230-275 | whatever was encoded can be decoded into an interface |
| `CodecLoops.EncodeValue` | docstore/driver/codec.go:118-208 | leaves the encoding in the encoder, that of a marshaler for a pointer to a time.Time; panics exactly when a nil one is met |
| `CodecLoops.EncodeList` | docstore/driver/codec.go:211-226 | through a list encoder, element by element, up to the first that panics |
| `CodecLoops.EncodeMap` | docstore/driver/codec.go:229-247 | through a map encoder, in any order of the keys; panics exactly when some entry does |
| `CodecLoops.EncodeStruct` | docstore/driver/codec.go:274-293 | through a map encoder, without omitted fields; panics exactly when some other field does |
| `CodecLoops.DecodeValue` | docstore/driver/codec.go:379-517 | decodes into a fresh variable of the type: fails exactly when decoding does in every order, and otherwise gives a value that some order gives |
| `CodecLoops.DecodeList` | docstore/driver/codec.go:519-588 | element by element; an array keeps its length, and what is left of it is zero |
| `CodecLoops.DecodeMap` | docstore/driver/codec.go:595-625 | in any order of the keys, also when two strings are one key |
| `CodecLoops.DecodeStruct` | docstore/driver/codec.go:673-703 | in any order of the names; an unknown name is an error |
| `CodecLoops.DecodeAny` | docstore/gcpfirestore/codec.go:230-275 | the Go value that best represents a Firestore value |
| `CodecLoops.OutcomeOfEncoded` | docstore/driver/codec.go:118-703 | what was encoded is decoded to the decoded form, in every order |
| `DecodeOrders.OrderMatters` | docstore/driver/codec.go:595-625 | a value that can be decoded has two possible results exactly when, somewhere in it, two strings are one key and can be decoded differently |
| `DecodeOrders.ClashExample` | docstore/driver/codec.go:595-625 | the strings 1 and 01 in a map with integer keys |
| `DecodeOrders.EncodedNoClash` | docstore/driver/codec.go:229-247 | encoding produces no such strings |
| `Faithful.AnyExact` | docstore/gcpfirestore/codec.go:230-275 | a value in an interface can be encoded and comes back as it was exactly when it is canonical |
| `Faithful.CleanIff` | docstore/driver/codec.go:379-703 | the decoded form is the original, up to nil for empty, exactly when no pointer leads to nil or to a time.Time and interfaces are canonical |
| `Faithful.RoundTrip` | docstore/driver/codec.go:118-293 | encoding and decoding into a fresh variable succeed and give the original back, up to nil for empty, exactly for those values |
| `Faithful.SameIsEqual` | docstore/driver/codec.go:118-293 | where nothing is empty, being the same up to nil for empty is being equal |
| `Faithful.PointerToNilExample` | docstore/driver/codec.go:180-186 | a value that does not come back |
| `Faithful.TimePointerExample` | docstore/gcpfirestore/codec.go:118-138 | a pointer to a time.Time is encoded as bytes, which cannot be decoded; a nil one cannot be encoded |
| `Documents.BaseOfPath` | docstore/gcpfirestore/codec.go:156-158 | the base of a document's path is its name exactly when the name is not empty and has no slash |
| `Documents.DocStored` | docstore/gcpfirestore/codec.go:34-45 | a document is stored with all its encoded fields but the one that has its name |
| `Documents.DocRoundTrip` | docstore/gcpfirestore/codec.go:34-45 | a whole document comes back, name and all, exactly in that case |

## Left out

- Actions of one list on the same document object: writes are encoded before any get runs, so a get and a write
  are taken to use different document objects.
- Reference.Meaning: does not place the transaction at one moment of the list, since gets of its keys may stand
  between its writes; each atomic write takes effect at its own place.
- Generated names are taken to differ from each other and from the names in the list (`Reference.NamesApart`).
- BeforeDo hooks, credentials, and how other clients change the store during a run.
- Execution.Execute: has the batches of one round read at one moment of the schedule; in `Prepare.RunOfList` reads
  are separate steps, at any moment of their round.
- Execution.Execute: says nothing about the revisions that the documents end with; `Commits.DoCommitCall` does for
  each call.
- What a field mask leaves of a document, and how the service adds numbers, are uninterpreted functions.
- Decoding what a get read into the caller's document is the codec's part, not that of `Gets`.
- The resource prefix of document paths: names are relative to the collection.
- Time-of-day, MD5 and content detection are parameters; metadata, headers and hooks of blobs are left out.
- Offsets near the end of int64, and strings that are not valid UTF-8.
- BlobReader.Run: is a run during which the bucket does not change; `BlobReader.Reader.Read` covers a deleted blob.
- The lock of the portable Bucket, ReadFrom, WriteTo, Download and signed URLs.
- fileblob, S3, GCS and Azure drivers, whose services or file systems cannot be seen here.
- How the batch size is split into concurrent calls: any number of calls is allowed, none included, and a call that
  is retried is taken to return in the end.
- Rounding of floating-point numbers: the batch size is computed over the reals, and doubles are reals.
- Acknowledgements, apart from the error that they can leave; finalizers; telemetry.
- Aliasing of a list that is being encoded: the encoder's list becomes its value when it is complete.
- Types with their own marshalers other than time.Time, embedded structs through pointers, channels and functions.
- Times are instants in UTC: what MarshalBinary says about other zones, and years that it refuses, are left out.
- Decoding into a variable that already holds a value.
- Decoding something that is not a map into a struct, which the code does not guard against, is an error here.
- Doubles outside the 64-bit range of an integer type are refused for it here; Go leaves that conversion open.
- Reference values, which the codec does not support, and the revision field that decodeDoc sets.
- Query building, case-folding field matches, secrets and the server package.
