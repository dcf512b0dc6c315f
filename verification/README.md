# Verified models of the hard parts of a Matter deployment

This project models thirteen self-contained algorithms and protocols of the repository in Dafny and proves what they
keep. Verify it with `dafny verify dfyconfig.toml`.

| files | what they model |
|---|---|
| `Options`, `Texts` | missing values and text, used by the others |
| `ExpressionLayouts`, `TsFile`, `LayoutMeaning`, `LayoutWidth`, `LayoutShape` | the code printer of the generator: five layouts, and why none changes what is written; which is chosen, and how it looks |
| `InsertionCursor`, `InsertionNames` | adding, removing and inserting entries through the printer's cursor |
| `BleConnections`, `BleProgress`, `NobleBleCentral` | opening a BLE channel: attempts, guards, timers, retries |
| `Formatting`, `GreedyWrapping`, `FittedTexts`, `TerminalText`, `WrappedCharacters` | wrapping and fitting text to a terminal |
| `JsonFileStorage`, `JsonFileContents`, `JsonFileBackend` | the write-behind JSON store |
| `StartupBarrier` | the start-up order of the deployment script |
| `Locations`, `Lookups` | path resolution in the command line tool |
| `GeneratorNames`, `NameForms` | names for generated definitions |
| `AggregationLedger`, `ConstantWindow` | windowed averages in the broker |
| `ZigbeeEjection` | removing Zigbee-only elements from a model |
| `WindowCovering` | the simulated window covering motor |
| `ClusterMerge` | merging equally identified elements of a cluster |
| `DeviceQueries`, `ContinuousDiscovery`, `DiscoveryProgress`, `BleScanner` | BLE discovery: waiters, filters and the discovery loop |
| `FlagBitmaps` | bitmap encoding of the chip-tool WebSocket interface |

Code that suspends at an `await` or polls is a state machine with one step for each stretch between two suspensions;
its theorems are about every interleaving of the events. An event that cannot happen where it stands in a sequence is
skipped, so a theorem over all sequences of events is a theorem over all runs. Code that updates an object is a class.
The BLE central, the JSON store, the discovery loop and the window covering have a `Valid()`, the invariant of their
machine: for every event a method takes the step of the machine and keeps `Valid()`, and `PerformAll` runs any sequence
of events. Loops are loops proved against a recursive function.

Drivers, timers, promises and the clock appear as events or parameters. `connectAsync` is assumed not to reject while
the channel of its attempt is being created, and lemmas show that the retry theorem needs just this. Text is a sequence
of UTF-16 code units and `\s` is spelled out. Sums of samples are real numbers. The textual forms of the optional
conformance, the empty constraint and the nullable quality are "O", the empty text and "X".

## What the code does that one might not expect

Each is a lemma in the table below.

- An empty builder in an expression block can make the block drop another entry.
- `fittedTextOf` drops what follows a carriage return or a Unicode line separator in a line.
- A mutation while the storage backend closes, if `close` has first waited for another write, can put an unfinished text
  under the name of the store: the handle of the write that `close` runs has been cleared, and both writes use one
  temporary file.
- A root that is also a level-1 broker would wait for itself for ever.
- A block without entries repeats its indent between prefix and suffix.
- A name stays defined when its entry is removed, and when the call that defines it throws at a later entry.
- `a//b` is an absolute path.
- A sample counts from the start of its window, so a value that is sampled twice counts twice.
- A window covering ignores targets nearer than six hundredths of a percent.
- In a group of three elements with one ID, a conflict of the third with the first is lost.
- A discovery by product number is never woken; a product number can wake a discovery by vendor.
- The continuous discovery does not time out while it waits, misses a device that changes its advertisement, and is
  lost when a second discovery waits for the same query or the scanner is closed.
- A bitmap flag at bit 32 is the flag at bit 0.

## Model

| member | source | states |
|---|---|---|
| LayoutMeaning.LayoutKeepsMeaning | matter.js/codegen/src/util/TsFile.ts:200-607 | For every tree of undocumented atoms, expression blocks and non-empty builders, and every blank indent, erasing the white space of the rendered text gives prefix, comma-joined (dot-joined for builders) children, suffix: whichever layout is chosen at whichever level, including the entry rendered a second time for the nested layout |
| LayoutMeaning.StripExpression | matter.js/codegen/src/util/TsFile.ts:558-607 | One expression block keeps its texts in each of the five layouts |
| LayoutMeaning.EmptyBuildersAreHarmlessIff | matter.js/codegen/src/util/TsFile.ts:200-607 | Exactly when a block with empty builders among its children says what it says without them: unless the nested layout takes the text of the first child and that is an empty builder, or the verbose layout leaves the comma before a last one |
| LayoutMeaning.EmptyBuilderLosesItsSibling | matter.js/codegen/src/util/TsFile.ts:200-212 | The worse case: an empty builder before a multi-line sibling is dropped, after which the block renders its first entry instead of the sibling, so the sibling's text is lost |
| LayoutMeaning.EmptyBuilderExample | matter.js/codegen/src/util/TsFile.ts:558-585 | The smallest such loss, an array that renders as two brackets |
| LayoutWidth.LineWidthIsLength | matter.js/codegen/src/util/TsFile.ts:492-551 | The running count of the scan is the length of the trimmed, comma-separated line |
| LayoutWidth.SingleLineIsBounded | matter.js/codegen/src/util/TsFile.ts:558-585 | Single-line text is no longer than the scan counted, shorter than 124 columns for one entry and 120 for several, and has a line break only if prefix, suffix or indent has one |
| LayoutWidth.SingleLineIsPreferred | matter.js/codegen/src/util/TsFile.ts:492-551 | Another layout than single-line is chosen exactly when an entry has a line break, a comment opener or an assignment, or the line would be too long |
| LayoutShape.LayoutIff | matter.js/codegen/src/util/TsFile.ts:492-551 | Exactly when a block gets which of the five layouts, in code units: verbose for //, /* or ' = ' in an entry, or for a line break inside braces or among several entries; nested for a lone entry with a line break; one line if it has fewer than 124 columns for one entry and 120 for several; else one line each |
| LayoutShape.MarkedIff | matter.js/codegen/src/util/TsFile.ts:492-512 | The texts that force the verbose layout are those with //, /* or ' = ' somewhere |
| LayoutShape.MarkedBlockBreaksLines | matter.js/codegen/src/util/TsFile.ts:200-251 | When an entry holds a comment opener or an assignment, every entry stands on lines of its own with its delimiter, and a line break follows if another entry or a suffix does, so that a line comment swallows nothing |
| LayoutShape.VerboseLines | matter.js/codegen/src/util/TsFile.ts:200-251 | The verbose layout line by line: a blank line before each item of five or more line breaks and after it, unless it may be grouped |
| LayoutShape.PlainBlockIsOneLine | matter.js/codegen/src/util/TsFile.ts:558-593 | With none of these, no line break and a line that fits, the block is that line, with a space at both ends inside braces unless the first entry opens a brace |
| LayoutShape.LongBlockIsALineEach | matter.js/codegen/src/util/TsFile.ts:558-593 | If it does not fit, each entry is a line, all but the last with a comma, between the lines of prefix and suffix |
| LayoutShape.SoleEntryIsNested | matter.js/codegen/src/util/TsFile.ts:558-593 | A lone entry with a line break is written between prefix and suffix at the indent of the block itself, unless the prefix opens a brace |
| LayoutShape.EmptyBlock | matter.js/codegen/src/util/TsFile.ts:214-251 | A block without entries is prefix and suffix directly after each other, both with the indent |
| LayoutShape.EntriesAreIndented | matter.js/codegen/src/util/TsFile.ts:558-607 | The entries of a block are rendered four spaces deeper |
| LayoutShape.AtomIsIndented | matter.js/codegen/src/util/TsFile.ts:200-212 | Every line of an atom gets the indent |
| LayoutShape.BuilderOfTwo | matter.js/codegen/src/util/TsFile.ts:447-480 | A chain of two is one line exactly when both are and it has fewer than 120 columns; else the second goes to a line of its own, four spaces deeper and after a dot |
| LayoutShape.LongerBuilderBreaksLines | matter.js/codegen/src/util/TsFile.ts:447-480 | In a longer chain every entry but the first stands on lines of its own, after a dot that takes the place of its indent |
| ExpressionLayouts.ChooseExpressionLayout | matter.js/codegen/src/util/TsFile.ts:492-551 | The one-pass scan over the entries computes the layout that is said declaratively by what the entries are, independent of where in the list they are met |
| ExpressionLayouts.VerboseIsFinal | matter.js/codegen/src/util/TsFile.ts:492-551 | Why the scan may return early: once some entries are verbose, or one nested entry has a successor, no further entries change the layout |
| TsFile.LayOutEntries | matter.js/codegen/src/util/TsFile.ts:214-251 | The loop with its blank-line flag produces the specified parts, joined by line breaks, or directly when only prefix and suffix are there |
| TsFile.LayOutExpressions | matter.js/codegen/src/util/TsFile.ts:558-593 | The text of an expression block in the layout that was chosen |
| TsFile.Render | matter.js/codegen/src/util/TsFile.ts:200-479 | Rendering with the loops of the source equals the recursive meaning-preserving function, including the builder's two-entry chain on one line and the slicing off of the indent |
| InsertionCursor.CursorIsRestored | matter.js/codegen/src/util/TsFile.ts:391-399 | After any code on a block, with insertions nested to any depth, the previous cursor is back, also when a conflicting name made the code throw |
| InsertionCursor.OthersKeepTheirOrder | matter.js/codegen/src/util/TsFile.ts:285-313 | Entries that the code neither adds nor removes keep their order, and none is lost or duplicated |
| InsertionCursor.AddedBeforeCursor | matter.js/codegen/src/util/TsFile.ts:285-399 | All that is added at a cursor, by the code itself and by insertions nested to any depth, stands immediately before it in the order of the calls; leaving out what is removed and what is added elsewhere, nothing else has changed |
| InsertionCursor.InsertingBeforePlaces | matter.js/codegen/src/util/TsFile.ts:391-399 | The same for a whole insertingBefore on a block that holds the cursor entry |
| InsertionCursor.AppendedWithoutCursor | matter.js/codegen/src/util/TsFile.ts:304-312 | What is added at a cursor that is not in the block goes to its end, in order |
| InsertionCursor.CursorRemovedMidway | matter.js/codegen/src/util/TsFile.ts:269-312 | When the code removes the entry at its cursor, earlier additions stay in their place and later ones go to the end |
| InsertionNames.CodeThrowsIff | matter.js/codegen/src/util/TsFile.ts:285-407 | Code of any nesting throws exactly when what it adds, at any depth, defines a name twice or one that is defined already; otherwise all its names are defined afterwards, those of removed entries included |
| InsertionNames.ThrowingDefinesNames | matter.js/codegen/src/util/TsFile.ts:285-313 | An addition that throws adds no entry, but the names before the conflict are defined |
| InsertionNames.AddPlaces | matter.js/codegen/src/util/TsFile.ts:304-312 | A single addition stands before the first occurrence of the cursor |
| InsertionNames.AddAppends | matter.js/codegen/src/util/TsFile.ts:304-312 | And at the end if there is no cursor or it is not in the block |
| InsertionNames.RemoveTakesTheFirst | matter.js/codegen/src/util/TsFile.ts:269-274 | A removal takes the first occurrence, never throws, and forgets no name |
| InsertionCursor.CodeBlock.AddEntries | matter.js/codegen/src/util/TsFile.ts:285-313 | add: names registered up to a conflict, then all entries spliced before the cursor, or appended when the cursor is gone |
| InsertionCursor.CodeBlock.RemoveEntry | matter.js/codegen/src/util/TsFile.ts:269-274 | remove: the first occurrence goes, nothing happens when there is none |
| InsertionCursor.CodeBlock.NameDefined | matter.js/codegen/src/util/TsFile.ts:402-407 | A name is registered once; a second definition is refused and changes nothing |
| InsertionCursor.CodeBlock.ExecuteBefore | matter.js/codegen/src/util/TsFile.ts:391-399 | insertingBefore with its finally: the body runs with the new cursor, whatever its outcome the old one is put back |
| BleConnections.OneRetryPerAttempt | matter.js/packages/nodejs-ble/src/NobleBleChannel.ts:176-351 | In every interleaving of calls, connects, disconnects, timeouts, interviews, failures and close in which no connect promise rejects once the channel of its attempt is being created, each attempt starts at most one retry |
| BleConnections.AtMostThreeTries | matter.js/packages/nodejs-ble/src/NobleBleChannel.ts:97-353 | In every interleaving an outer openChannel makes at most three attempts that connect or interview, however often it waits for a disconnecting peripheral |
| BleConnections.TimersStopWithTheGuard | matter.js/packages/nodejs-ble/src/NobleBleChannel.ts:131-197 | In every interleaving no timer of an attempt runs once its guard has been removed |
| BleConnections.StepKeepsInv | matter.js/packages/nodejs-ble/src/NobleBleChannel.ts:83-353 | The invariant behind these: the attempts of a call form a chain in which all but the last have been retried, and the try count of the last counts the attempts that did not wait |
| BleConnections.LateRejectionRetriesTwice | matter.js/packages/nodejs-ble/src/NobleBleChannel.ts:293-350 | That condition is the one needed: from every state of the invariant, a rejection in the midst of creating the channel, the failure of the creation and the disconnect make one attempt retry twice |
| BleConnections.OnlyLateRejectionsBreakInv | matter.js/packages/nodejs-ble/src/NobleBleChannel.ts:83-353 | Of all events that can happen exactly such a rejection breaks the invariant |
| BleConnections.LateIsReachable | matter.js/packages/nodejs-ble/src/NobleBleChannel.ts:199-312 | States in which a connect could still reject that late are reachable without any such rejection |
| BleProgress.RetryTriesAgainIff | matter.js/packages/nodejs-ble/src/NobleBleChannel.ts:97-197 | In every state of the invariant a retry makes one more attempt of the same call, with the count going on, exactly when the central listens, is not closed, its channel is not open, the call has made fewer than three tries and the peripheral is idle, disconnecting or connected |
| BleProgress.DisconnectTriesAgainIff | matter.js/packages/nodejs-ble/src/NobleBleChannel.ts:176-197 | The same for a disconnect during an attempt |
| BleProgress.RejectionTriesAgainIff | matter.js/packages/nodejs-ble/src/NobleBleChannel.ts:343-350 | And for a rejected connect of an attempt that has not been given up |
| BleProgress.FailedCreationTriesAgainIff | matter.js/packages/nodejs-ble/src/NobleBleChannel.ts:305-316 | And for the disconnect after a failed creation |
| BleProgress.ThreeTriesAreMade | matter.js/packages/nodejs-ble/src/NobleBleChannel.ts:97-197 | A run that makes exactly three tries, and after whose next disconnect there is no fourth |
| BleProgress.CallOpensIff | matter.js/packages/nodejs-ble/src/NobleBleChannel.ts:83-175 | Exactly when an outer call makes an attempt, and what that attempt waits for |
| BleProgress.ConnectInterviewsIff | matter.js/packages/nodejs-ble/src/NobleBleChannel.ts:199-222 | Exactly when a connect starts the interview: the attempt is not given up, there is no error, somebody listens and no attempt is in progress |
| BleProgress.ConnectedChannelOpens | matter.js/packages/nodejs-ble/src/NobleBleChannel.ts:199-353 | A connect that arrives, and an interview and creation that succeed, open the channel and leave nothing of the attempt that could still act |
| BleProgress.CreationGoesOn | matter.js/packages/nodejs-ble/src/NobleBleChannel.ts:291-322 | Once the channel is created guard and progress mark are gone, also when more services are looked at |
| BleProgress.InterviewGoesOn | matter.js/packages/nodejs-ble/src/NobleBleChannel.ts:225-303 | An interview that is not complete goes on with another read or service, or gives the attempt up when there is none |
| BleProgress.HandlerWaitsFor | matter.js/packages/nodejs-ble/src/NobleBleChannel.ts:225-322 | What a suspended handler waits for, and from where it can fail: exactly which of its events can happen in which phase |
| BleProgress.TimedOutNeverRetries | matter.js/packages/nodejs-ble/src/NobleBleChannel.ts:131-175 | In every run, once one of its three timers has run out an attempt never retries, whatever the driver still answers |
| BleProgress.ClosedMakesNoAttempt | matter.js/packages/nodejs-ble/src/NobleBleChannel.ts:355-370 | After close no run makes another attempt |
| NobleBleCentral.NobleBleCentralInterface.OpenChannel | matter.js/packages/nodejs-ble/src/NobleBleChannel.ts:83-353 | The guards in their order and the three starts (interview at once, wait for the disconnect, connect) make the state of the machine |
| NobleBleCentral.NobleBleCentralInterface.ConnectHandler | matter.js/packages/nodejs-ble/src/NobleBleChannel.ts:199-222 | The handler up to its first await, with its four early returns |
| NobleBleCentral.NobleBleCentralInterface.ReTryHandler | matter.js/packages/nodejs-ble/src/NobleBleChannel.ts:176-197 | Guard, progress mark and listeners are gone before the channel is opened again with the next try count |
| NobleBleCentral.NobleBleCentralInterface.HandleCharacteristics | matter.js/packages/nodejs-ble/src/NobleBleChannel.ts:237-320 | What the handler does with the characteristics of a service: read more, next service, give up, or create the channel |
| NobleBleCentral.NobleBleCentralInterface.Open | matter.js/packages/nodejs-ble/src/NobleBleChannel.ts:83-353 | A new outer call makes one try at most before anything else happens, and leaves a valid state |
| NobleBleCentral.NobleBleCentralInterface.OnDisconnect | matter.js/packages/nodejs-ble/src/NobleBleChannel.ts:176-197 | A disconnect during an attempt makes it retry for the first and last time |
| NobleBleCentral.NobleBleCentralInterface.ConnectRejected | matter.js/packages/nodejs-ble/src/NobleBleChannel.ts:343-350 | A rejected connect leaves a valid state exactly when the channel is not already being created |
| NobleBleCentral.NobleBleCentralInterface.ConnectTimedOut | matter.js/packages/nodejs-ble/src/NobleBleChannel.ts:135-142 | After a connect timeout nothing is left that could start a retry: no guard, no timer, no listener |
| NobleBleCentral.NobleBleCentralInterface.InterviewTimedOut | matter.js/packages/nodejs-ble/src/NobleBleChannel.ts:151-163 | After an interview timeout the guard and the disconnect listener are gone, and with them every later step of the handler |
| NobleBleCentral.NobleBleCentralInterface.HandleDisconnected | matter.js/packages/nodejs-ble/src/NobleBleChannel.ts:305-316 | The disconnect after a failed creation makes the attempt retry for the first and last time |
| NobleBleCentral.NobleBleCentralInterface.Perform | matter.js/packages/nodejs-ble/src/NobleBleChannel.ts:83-370 | For every event the object takes the step of the machine, from a valid state to a valid one: at most one retry an attempt, no timer without its guard, the attempts of a call in a chain of at most three tries |
| NobleBleCentral.NobleBleCentralInterface.PerformAll | matter.js/packages/nodejs-ble/src/NobleBleChannel.ts:83-370 | So over every sequence of events the object runs the machine, and at the end no attempt has retried twice, no unguarded attempt has a timer, and no call has more than three tries |
| NobleBleCentral.NobleBleCentralInterface.AfterFailedCreate | matter.js/packages/nodejs-ble/src/NobleBleChannel.ts:305-316 | A failed creation retries once its peripheral has disconnected, and the finally block then clears the progress mark of whatever the retry started |
| GreedyWrapping.GreedyIsOptimal | matter.js/packages/create/src/formatting.ts:72-100 | No split of the same words into lines whose multi-word lines are narrow enough has fewer lines than the greedy one (an exchange argument: greedy stays ahead of any rival) |
| GreedyWrapping.WrapIsGreedy | matter.js/packages/create/src/formatting.ts:72-100 | wrap computes the greedy split whenever every line of that split starts with a visible word, but for a last line of one word |
| FittedTexts.WrapIsShortest | matter.js/packages/create/src/formatting.ts:72-100 | So no rival split beats the output of wrap, under the same exact condition |
| FittedTexts.WrapKeepsWordsIff | matter.js/packages/create/src/formatting.ts:72-100 | For every text: wrapping keeps the word sequence exactly when every line of the greedy split starts with a visible word, but for a last line of one word; a word without visible width at the head of a line is fused with the next |
| FittedTexts.WrapKeepsWords | matter.js/packages/create/src/formatting.ts:72-100 | In particular wrapping keeps the word sequence of every text of visible words |
| FittedTexts.WrappedLinesAreNarrow | matter.js/packages/create/src/formatting.ts:72-100 | Every wrapped line of more than one word is narrower than the width, measured as it will be printed |
| FittedTexts.InvisibleWordIsFused | matter.js/packages/create/src/formatting.ts:77-93 | The smallest loss: a word without visible width swallows the space after it, so two words become one |
| FittedTexts.FittingIsIdempotent | matter.js/packages/create/src/formatting.ts:49-70 | Fitting a fitted text changes nothing, for every text of visible words |
| FittedTexts.PaddingIsKept | matter.js/packages/create/src/formatting.ts:56-68 | The padding of a paragraph opens its first line and is not repeated on the others |
| FittedTexts.FittingKeepsWords | matter.js/packages/create/src/formatting.ts:49-70 | Fitting keeps the words of the whole text exactly when no line holds a word after a carriage return or a Unicode line or paragraph separator, which the pattern of the source does not match and drops |
| TerminalText.EscapeSequenceTakesOneColumn | matter.js/packages/create/src/formatting.ts:23-47 | The visible width in code units: an escape sequence up to its m takes one column, whatever it holds, and what follows it has its own width |
| TerminalText.OpenEscapeTakesNone | matter.js/packages/create/src/formatting.ts:23-47 | An escape sequence that does not end takes none, with all that follows |
| TerminalText.UnitTakesOneColumn | matter.js/packages/create/src/formatting.ts:23-47 | Any other unit takes one column, a high surrogate together with the unit after it |
| TerminalText.ParagraphParts | matter.js/packages/create/src/formatting.ts:56-68 | A paragraph is the white space at its head, which is kept, the text up to the first line terminator, which is wrapped, and the rest, which is dropped |
| TerminalText.NarrowTerminalLeavesText | matter.js/packages/create/src/formatting.ts:49-55 | Text is left alone where the terminal is unknown or not wider than 20 columns |
| TerminalText.ParagraphsAreFitted | matter.js/packages/create/src/formatting.ts:49-70 | Elsewhere each paragraph is fitted by itself |
| TerminalText.WrappedTextIsNarrowAndShort | matter.js/packages/create/src/formatting.ts:72-100 | The lines that the terminal shows, split at line feeds: those of several words are narrower than the width, and no rival has fewer |
| TerminalText.WordsAreSeparated | matter.js/packages/create/src/formatting.ts:72-76 | White space separates words, and a text of visible ASCII characters is one word |
| WrappedCharacters.WrapKeepsCharacters | matter.js/packages/create/src/formatting.ts:72-100 | For every text and width wrapping keeps all characters but white space, in their order, also where it fuses words |
| WrappedCharacters.FittingKeepsCharacters | matter.js/packages/create/src/formatting.ts:49-100 | For every text fitting does so exactly when no line has more than white space after a line terminator other than the line feed |
| Formatting.VisibleWidthOf | matter.js/packages/create/src/formatting.ts:23-47 | The scan with its escape-sequence and surrogate-pair jumps computes the visible width defined character by character; a complete escape sequence counts as one column |
| Formatting.Wrap | matter.js/packages/create/src/formatting.ts:72-100 | The loop equals the fold of word insertions |
| Formatting.FittedTextOf | matter.js/packages/create/src/formatting.ts:49-70 | Each line is its padding followed by its wrapped body; widths of 20 and less, or unknown ones, leave the text alone |
| JsonFileStorage.SingleWriter | matter.js/chip-testing/src/storage/StorageBackendAsyncJsonFile.ts:91-138 | At most one write is in flight at any time of every run, also with mutations while close writes, in which no mutation starts a write after close has lost the handle of its own |
| JsonFileStorage.SingleWriterIff | matter.js/chip-testing/src/storage/StorageBackendAsyncJsonFile.ts:91-138 | Over whole runs that condition is exact: a second write occurs if and only if such a mutation does, unless callers run between the settling of a write and the callback of its promise |
| JsonFileStorage.OverlapIsASecondWrite | matter.js/chip-testing/src/storage/StorageBackendAsyncJsonFile.ts:91-138 | In any run whatsoever, a mutation while close's own write is in flight without its handle is a second write |
| JsonFileStorage.FileIsAWholeState | matter.js/chip-testing/src/storage/StorageBackendAsyncJsonFile.ts:125-129 | In every such run, and wherever it stops, the file holds one complete state that the store had, or is still missing if it was missing at first |
| JsonFileStorage.FileMovesForward | matter.js/chip-testing/src/storage/StorageBackendAsyncJsonFile.ts:91-129 | A file, once there, stays, and never goes back to an earlier state of the store |
| JsonFileStorage.CloseStoresItsSnapshot | matter.js/chip-testing/src/storage/StorageBackendAsyncJsonFile.ts:131-138 | After a close that ends without an error, the file holds the state that close took, or a later one |
| JsonFileStorage.CloseFlushes | matter.js/chip-testing/src/storage/StorageBackendAsyncJsonFile.ts:131-138 | If nothing was changed meanwhile, that is what is in memory |
| JsonFileContents.MutationIsRemembered | matter.js/chip-testing/src/storage/StorageBackendAsyncJsonFile.ts:57-91 | A mutation is what memory holds afterwards, and is appended to the states that the store has had |
| JsonFileContents.MemoryOfRun | matter.js/chip-testing/src/storage/StorageBackendAsyncJsonFile.ts:41-91 | In every run memory is the store of the last mutation, or what was found in the file at first |
| JsonFileContents.CloseStoresTheLastMutation | matter.js/chip-testing/src/storage/StorageBackendAsyncJsonFile.ts:131-138 | After a close during which nothing is changed the file holds the store of the last mutation, or what was found |
| JsonFileContents.MutationStartsWriteIff | matter.js/chip-testing/src/storage/StorageBackendAsyncJsonFile.ts:91-123 | Exactly when a mutation starts a write, and that what is written is the new memory |
| JsonFileContents.MutationIsStored | matter.js/chip-testing/src/storage/StorageBackendAsyncJsonFile.ts:91-129 | A write that a mutation starts and that is left to finish brings it to the file |
| JsonFileContents.FirstMutationIsStored | matter.js/chip-testing/src/storage/StorageBackendAsyncJsonFile.ts:30-44 | Also the first one after initialisation, whether or not there was a file |
| JsonFileContents.FileNeverVanishes | matter.js/chip-testing/src/storage/StorageBackendAsyncJsonFile.ts:57-138 | In every run whatsoever, also with two writers, there is a file for ever once there is one |
| JsonFileContents.CloseWritesAndEnds | matter.js/chip-testing/src/storage/StorageBackendAsyncJsonFile.ts:131-138 | Closing writes memory even if nothing was changed, and ends when that write is over |
| JsonFileContents.CloseWaitsFirst | matter.js/chip-testing/src/storage/StorageBackendAsyncJsonFile.ts:131-138 | If a write is running, closing waits for it, fails if it failed, and else writes again |
| JsonFileContents.ClosedWritesNothing | matter.js/chip-testing/src/storage/StorageBackendAsyncJsonFile.ts:91-138 | Once closed the store stays closed, and no run writes anything again |
| JsonFileStorage.SecondWriter | matter.js/chip-testing/src/storage/StorageBackendAsyncJsonFile.ts:91-123 | Exactly when a mutation puts a second write in flight: close is running its own write and the callback of the write it waited for has cleared the handle |
| JsonFileStorage.SecondWriterCanTearTheFile | matter.js/chip-testing/src/storage/StorageBackendAsyncJsonFile.ts:102-129 | What a second write can do: a reachable state in which an unfinished text stands under the name of the store, because both writes use one temporary file |
| JsonFileStorage.StepKeepsInv | matter.js/chip-testing/src/storage/StorageBackendAsyncJsonFile.ts:57-138 | The invariant behind these, for every event: which write the handle names, and how versions on disk, in the temporary file and in flight are ordered |
| JsonFileBackend.StorageBackendAsyncJsonFile.Change | matter.js/chip-testing/src/storage/StorageBackendAsyncJsonFile.ts:57-100 | A mutation puts the new store into memory, remembers the old one, leaves the file and commits; afterwards two writes are in flight exactly when close was running its own without its handle |
| JsonFileBackend.StorageBackendAsyncJsonFile.Commit | matter.js/chip-testing/src/storage/StorageBackendAsyncJsonFile.ts:91-100 | commit starts a write only when open, not already writing, and recently initialised |
| JsonFileBackend.StorageBackendAsyncJsonFile.Close | matter.js/chip-testing/src/storage/StorageBackendAsyncJsonFile.ts:131-138 | close up to its first await |
| JsonFileBackend.StorageBackendAsyncJsonFile.ResumeAfterCurrent | matter.js/chip-testing/src/storage/StorageBackendAsyncJsonFile.ts:102-138 | close after the write it waited for: it fails with it, or starts its own; the file does not change |
| JsonFileBackend.StorageBackendAsyncJsonFile.FinishClose | matter.js/chip-testing/src/storage/StorageBackendAsyncJsonFile.ts:131-138 | A close without an error has stored the state that it took, or a later one |
| JsonFileBackend.StorageBackendAsyncJsonFile.TempFileRenamed | matter.js/chip-testing/src/storage/StorageBackendAsyncJsonFile.ts:125-129 | A rename puts the state that its own write took under the name of the store, never an unfinished or an earlier one |
| JsonFileBackend.StorageBackendAsyncJsonFile.Perform | matter.js/chip-testing/src/storage/StorageBackendAsyncJsonFile.ts:57-138 | For every event the object takes the step of the machine, and stays valid unless the event is the one mutation to avoid |
| JsonFileBackend.StorageBackendAsyncJsonFile.PerformAll | matter.js/chip-testing/src/storage/StorageBackendAsyncJsonFile.ts:57-138 | So over every run without that mutation the object runs the machine with one write at a time, and a whole file that moves forward |
| StartupBarrier.Level1StartsAfterAllLevel2 | deploy.py:355-361 | For any number of servers in any roles and any interleaving, failures and exceptions included, a level-1 broker starts only after every level-2 node has posted |
| StartupBarrier.RootStartsAfterAll | deploy.py:294-306 | And the root only after every node of both levels has posted |
| StartupBarrier.StepsDecreaseWork | deploy.py:696-711 | Every step that is not another poll lessens the work left |
| StartupBarrier.NoDeadlock | deploy.py:294-361 | Without failures no reachable state is a deadlock, although one thread plays several roles in sequence |
| StartupBarrier.CanFinish | deploy.py:696-711 | From every such state some schedule ends every thread |
| StartupBarrier.OverMeansStarted | deploy.py:294-361 | Whenever a run without failures is over, exactly the roots have been started, exactly the level-1 brokers have been started and have posted, and exactly the level-2 nodes have posted |
| StartupBarrier.StartupCompletes | deploy.py:696-711 | Complete start-up, in which every role of every server is started and has posted, is possible exactly when the root has no level-1 role: otherwise its thread waits for a post that comes later in the same thread |
| StartupBarrier.FailureLoses | deploy.py:294-361 | A role that fails, or whose thread dies, before its post is lost |
| StartupBarrier.FailureBlocksTheRest | deploy.py:294-361 | After that, in every run, no root is started, and for a level-2 node no level-1 broker that was not started before |
| StartupBarrier.ThresholdsMatchTheMachines | deploy.py:36-65 | The lengths the script polls for, 16 and 16 + 4, are the numbers of nodes of its twenty machines |
| Locations.ResolutionIsAWalk | matter.js/packages/cli-tool/src/location.ts:110-200 | On paths without empty segments resolution is a left-to-right walk on a stack of locations: a dot stays, two dots pop but never below the root, a name pushes |
| Locations.ResolutionComposes | matter.js/packages/cli-tool/src/location.ts:110-200 | Resolving p/q is resolving p and then q from there, errors included |
| Locations.ResolutionGoesOn | matter.js/packages/cli-tool/src/location.ts:128-200 | The same when q has empty segments and p does not end in a dot |
| Locations.DoubleSlashIsAbsolute | matter.js/packages/cli-tool/src/location.ts:137-146 | So an empty segment inside a path makes the rest absolute: p//q leads where /q leads from the root |
| Locations.PathLeadsBack | matter.js/packages/cli-tool/src/location.ts:89-101 | The path of a location leads back to it from every directory of the same tree |
| Lookups.UndefinedIff | matter.js/packages/cli-tool/src/location.ts:152-200 | A lookup that may fail is answered by undefined exactly when only dots precede the last name and that name alone is missing; a name missing further down is an error |
| Lookups.OneStep | matter.js/packages/cli-tool/src/location.ts:128-190 | Two dots lead to the parent, from the root to itself, one stays, and a name leads to what the directory holds under it |
| Lookups.PathGrows | matter.js/packages/cli-tool/src/location.ts:89-101 | The path of the root is a slash; below it each location adds a slash and its name |
| Locations.Resolve | matter.js/packages/cli-tool/src/location.ts:128-200 | The recursion terminates, because the joined remaining segments are shorter than the path, and computes the specified outcome |
| Locations.ShiftDots | matter.js/packages/cli-tool/src/location.ts:148-150 | The loop that shifts empty and dot segments off |
| Locations.FindRoot | matter.js/packages/cli-tool/src/location.ts:141-144 | The loop to the root |
| Locations.Path | matter.js/packages/cli-tool/src/location.ts:89-101 | The path getter's loop |
| GeneratorNames.AssignNames | matter.js/codegen/src/clusters/GeneratorScope.ts:202-207 | From the locations of a scope to its names: every model that is placed gets a name, and two get the same only if they are one model; a definition outside any hierarchy is an error |
| GeneratorNames.CollectedAreDistinct | matter.js/codegen/src/clusters/GeneratorScope.ts:374-434 | The models collected by priority are distinct across all slots, and exactly those that are placed |
| GeneratorNames.CollectedModelLosesItsName | matter.js/codegen/src/clusters/GeneratorScope.ts:374-529 | A collected model goes without its preferred name exactly when one in an earlier slot, or earlier in its own, has that name |
| GeneratorNames.NamesAreTotalAndInjective | matter.js/codegen/src/clusters/GeneratorScope.ts:436-529 | For any list of models: each gets a name, and two share one only if they are the same model |
| GeneratorNames.PreferredNameIsLostToAnEarlierModel | matter.js/codegen/src/clusters/GeneratorScope.ts:440-516 | A model goes without its preferred name exactly when a model before it in priority order has that name |
| NameForms.EarlierSlotDecides | matter.js/codegen/src/clusters/GeneratorScope.ts:374-529 | Of two models with the same preferred name, the one in a later slot never gets it |
| NameForms.SlotOrder | matter.js/codegen/src/clusters/GeneratorScope.ts:181-191 | The order of the slots: the local cluster, local enums, structs and bitmaps, clusters elsewhere, global definitions, attributes, commands, events |
| NameForms.SkippedIff | matter.js/codegen/src/clusters/GeneratorScope.ts:385-430 | Exactly what gets no name: models of other kinds, and local definitions that are no struct, enum or bitmap |
| NameForms.CommandNames | matter.js/codegen/src/clusters/GeneratorScope.ts:446-452 | The preferred name of a command ends in Request or Response by its direction, whatever its own name ends in |
| NameForms.EventNames | matter.js/codegen/src/clusters/GeneratorScope.ts:453-456 | That of an event ends in Event, once |
| NameForms.DatatypeNames | matter.js/codegen/src/clusters/GeneratorScope.ts:444-464 | That of a datatype loses Enum, Struct or Bitmap at its end; Type alone gets the name of the parent before it |
| NameForms.ClusterNames | matter.js/codegen/src/clusters/GeneratorScope.ts:457-464 | That of a cluster loses Cluster |
| NameForms.SecondNames | matter.js/codegen/src/clusters/GeneratorScope.ts:466-512 | The second choice adds the word for the kind, or the name of the parent before a field, and then come the numbers from 2 on |
| GeneratorNames.Assign | matter.js/codegen/src/clusters/GeneratorScope.ts:440-516 | The search for a free name computes the first free candidate and needs at most one candidate more than there are names in use (by pigeonhole, from the injectivity of the decimal suffixes) |
| GeneratorNames.FirstFree | matter.js/codegen/src/clusters/GeneratorScope.ts:501-512 | The candidate found is free, all smaller ones from 2 on are taken, and their number is bounded by the names in the way |
| GeneratorNames.AssignNamesByPriority | matter.js/codegen/src/clusters/GeneratorScope.ts:436-529 | The nested loops name the models in priority order |
| GeneratorNames.AssignPriorities | matter.js/codegen/src/clusters/GeneratorScope.ts:374-434 | Each slot holds exactly the models placed in it, once each; a definition outside any hierarchy is an error |
| AggregationLedger.LedgerBalances | matter.js/packages/cs525/src/VirtualMatterBrokerNode.ts:435-539 | In every run, for each interval, the contributions received (value times seconds since the window started) equal what was paid out (published averages times endpoints times interval) plus the pending sums |
| AggregationLedger.SampleAddsItsArea | matter.js/packages/cs525/src/VirtualMatterBrokerNode.ts:443-451 | A sample adds exactly its own area to every interval's total |
| AggregationLedger.FiringKeepsOtherSums | matter.js/packages/cs525/src/VirtualMatterBrokerNode.ts:528-539 | Firing one interval leaves every endpoint's sum and the window of the other alone |
| AggregationLedger.WindowPublishesWithinSamples | matter.js/packages/cs525/src/VirtualMatterBrokerNode.ts:471-540 | From one firing of an interval to the next, in any state: if each endpoint is sampled at most once in between, by at most V, the average published is at most V, other intervals firing meanwhile |
| AggregationLedger.PublishedWithinSamples | matter.js/packages/cs525/src/VirtualMatterBrokerNode.ts:476-526 | The bound for a window whose sums are 0 at first |
| AggregationLedger.FiringStartsAfresh | matter.js/packages/cs525/src/VirtualMatterBrokerNode.ts:528-539 | Which they are after every firing |
| AggregationLedger.RepeatedSampleIsCountedTwice | matter.js/packages/cs525/src/VirtualMatterBrokerNode.ts:443-451 | The restriction is needed: a value sampled twice at the end of a window is published as its double |
| ConstantWindow.ConstantIsPublished | matter.js/packages/cs525/src/VirtualMatterBrokerNode.ts:435-539 | If in a window every endpoint is sampled once with the same value after the same time, what is published is the value weighted by that time as a part of the interval of 10 or 60 seconds |
| ConstantWindow.WholeWindowIsTheValue | matter.js/packages/cs525/src/VirtualMatterBrokerNode.ts:476-526 | At the end of the interval, the value itself |
| AggregationLedger.VirtualMatterBroker.AttributeChanged | matter.js/packages/cs525/src/VirtualMatterBrokerNode.ts:429-451 | The listener adds the sample to the row of its endpoint, made on first use |
| AggregationLedger.VirtualMatterBroker.RecalculateAggregatesFor | matter.js/packages/cs525/src/VirtualMatterBrokerNode.ts:471-540 | Publishes the average over the rows, or over one stand-in with sum 0, and starts the window afresh |
| AggregationLedger.VirtualMatterBroker.CleanUp | matter.js/packages/cs525/src/VirtualMatterBrokerNode.ts:531-539 | The loop resets the sums of one interval in all rows |
| ZigbeeEjection.EjectionKeepsTheSpared | matter.js/codegen/src/util/finalize-model.ts:287-311 | What stays, in preorder, is exactly the elements with no Zigbee element on their path from the root, where a cluster's Zigbee features are those of the original tree |
| ZigbeeEjection.ZigbeeFeaturesAreGone | matter.js/codegen/src/util/finalize-model.ts:287-298 | After one pass a cluster has no Zigbee feature left |
| ZigbeeEjection.EjectionIsIdempotent | matter.js/codegen/src/util/finalize-model.ts:287-311 | So a second pass, which computes a smaller feature set, removes nothing |
| ZigbeeEjection.ZigbeeIff | matter.js/codegen/src/util/finalize-model.ts:254-271 | Exactly which elements are Zigbee elements: those whose conformance says Zigbee or zigbee, or is the name of a Zigbee feature, alone or in brackets |
| ZigbeeEjection.EjectionPurges | matter.js/codegen/src/util/finalize-model.ts:287-311 | At any depth nothing remains that says Zigbee or depends on a feature that came from above |
| ZigbeeEjection.DependentsAreEjected | matter.js/codegen/src/util/finalize-model.ts:287-311 | At any depth in a cluster nothing remains that depends on a feature of the cluster that says Zigbee |
| ZigbeeEjection.CleanTreeIsKept | matter.js/codegen/src/util/finalize-model.ts:287-311 | A tree that does not mention Zigbee is left as it is |
| ZigbeeEjection.FeatureTexts | matter.js/codegen/src/util/finalize-model.ts:254-271 | SCH and [SCH] are Zigbee where the feature SCH is, and only there |
| ZigbeeEjection.OtherTexts | matter.js/codegen/src/util/finalize-model.ts:254-271 | M, O, the empty text, and other expressions over the feature are not |
| ZigbeeEjection.EjectZigbee | matter.js/codegen/src/util/finalize-model.ts:300-311 | The filter loop computes the ejected tree |
| ZigbeeEjection.AddFeatures | matter.js/codegen/src/util/finalize-model.ts:287-298 | The loop over the features collects the Zigbee ones after those that came from above |
| WindowCovering.TicksFollowTheLine | matter.js/chip-testing/src/cluster/TestWindowCoveringServer.ts:40-136 | The first five ticks are on the line start plus counter times increment, the increment truncated toward zero; the sixth lands on the target |
| WindowCovering.MovementIsMonotone | matter.js/chip-testing/src/cluster/TestWindowCoveringServer.ts:99-136 | The position moves monotonically and never passes the target |
| WindowCovering.ReachesTargetIff | matter.js/chip-testing/src/cluster/TestWindowCoveringServer.ts:40-89 | From rest, also after a stop, six ticks reach the target exactly when it is at least six hundredths away, or already there: shorter movements are not started |
| WindowCovering.CommandsEnd | matter.js/chip-testing/src/cluster/TestWindowCoveringServer.ts:40-89 | Where a command without a target ends: opening at 0 and closing at 10000, if that is at least six hundredths away |
| WindowCovering.CommandArrives | matter.js/chip-testing/src/cluster/TestWindowCoveringServer.ts:40-136 | In any run, whatever the other axis is told meanwhile, six ticks after a command its axis is at the target, or where it was if that is nearer than six hundredths |
| WindowCovering.RetargetEnds | matter.js/chip-testing/src/cluster/TestWindowCoveringServer.ts:40-136 | Where an axis ends that gets a target in mid-movement: at that target, unless it is nearer than six hundredths to where the axis is; then at the old one |
| WindowCovering.PositionsStayInRange | matter.js/chip-testing/src/cluster/TestWindowCoveringServer.ts:40-142 | In every run of movements, re-targetings, ticks and stops with targets in 0..10000 both positions stay there |
| WindowCovering.RunningMovementArrives | matter.js/chip-testing/src/cluster/TestWindowCoveringServer.ts:99-136 | Wherever a run has led, a running movement ends at its target after the ticks it has left |
| WindowCovering.StoppedAxisStays | matter.js/chip-testing/src/cluster/TestWindowCoveringServer.ts:138-142 | A stopped axis does not move by ticks |
| WindowCovering.AxesAreIndependent | matter.js/chip-testing/src/cluster/TestWindowCoveringServer.ts:40-142 | Lift and tilt do not influence each other: the events and the state of the other axis can be left out of a run |
| WindowCovering.TestWindowCoveringServer.HandleMovement | matter.js/chip-testing/src/cluster/TestWindowCoveringServer.ts:40-89 | Starting a movement, with its early returns |
| WindowCovering.TestWindowCoveringServer.HandleMovementTick | matter.js/chip-testing/src/cluster/TestWindowCoveringServer.ts:99-136 | One tick of one axis |
| WindowCovering.TestWindowCoveringServer.HandleStopMovement | matter.js/chip-testing/src/cluster/TestWindowCoveringServer.ts:138-142 | After a stop no number of ticks moves either axis |
| WindowCovering.TestWindowCoveringServer.PerformAll | matter.js/chip-testing/src/cluster/TestWindowCoveringServer.ts:40-142 | Over every sequence of movements, ticks and stops with targets in range the object runs the machine, and its positions stay in range |
| ClusterMerge.Merge | matter.js/codegen/src/clusters/generate-cluster.ts:413-443 | The loop that splices the array it walks terminates; it throws exactly when two neighbours with one ID differ in access; it keeps the elements that start a run of equal IDs, and each element before the clash is relaxed once, against its successor's original traits, because prev moves on to removed elements |
| ClusterMerge.SurvivorsIncrease | matter.js/codegen/src/clusters/generate-cluster.ts:410-443 | The surviving IDs increase strictly exactly when not both a missing ID and the ID 0 occur, which share a sort key |
| ClusterMerge.EveryIdSurvives | matter.js/codegen/src/clusters/generate-cluster.ts:416-443 | The surviving IDs are exactly the input IDs |
| ClusterMerge.OneSurvivorPerId | matter.js/codegen/src/clusters/generate-cluster.ts:410-443 | Without that mixture each ID keeps exactly one element |
| ClusterMerge.MixedIdsStayApart | matter.js/codegen/src/clusters/generate-cluster.ts:410-419 | With it, elements without an ID need not be neighbours, and none is merged |
| ClusterMerge.FirstCollectedSurvives | matter.js/codegen/src/clusters/generate-cluster.ts:410-443 | The element that survives for an ID is the one that was collected first, by the stability of the sort |
| ClusterMerge.SortIsStable | matter.js/codegen/src/clusters/generate-cluster.ts:410-411 | The sort used keeps the order of elements with the same key |
| ClusterMerge.SurvivorTolerates | matter.js/codegen/src/clusters/generate-cluster.ts:419-443 | Exactly when the survivor of a group is no stricter in conformance and constraint than any element it stands for: when the second differs, or the first is already unrestricted, or none of the later ones differs from the first |
| ClusterMerge.NeighbourBecomes | matter.js/codegen/src/clusters/generate-cluster.ts:419-443 | What an element becomes beside the next one of its ID: conformance O, an empty constraint and quality X or none, each only where the two differ |
| ClusterMerge.FirstClashIs | matter.js/codegen/src/clusters/generate-cluster.ts:419-425 | The merge succeeds exactly when no element differs in access control from a neighbour with the same ID |
| ClusterMerge.SurvivorToleratesNull | matter.js/codegen/src/clusters/generate-cluster.ts:426-432 | The same for null values |
| ClusterMerge.PairIsReconciled | matter.js/codegen/src/clusters/generate-cluster.ts:419-443 | In a group of two, conflicts always end up relaxed on the survivor |
| ClusterMerge.ThirdConflictIsLost | matter.js/codegen/src/clusters/generate-cluster.ts:419-443 | In a group of three, a conflict of the third with the first is resolved on the second, which is dropped: the survivor stays mandatory beside an optional element |
| DeviceQueries.WokenWaiterAccepts | matter.js/packages/nodejs-ble/src/BleScanner.ts:138-172 | A search woken for a device accepts it, except exactly when it was found by looking up the device's product number as a vendor and the two numbers differ |
| DeviceQueries.ProductSearchIsNeverWoken | matter.js/packages/nodejs-ble/src/BleScanner.ts:155-165 | A search by product number is never woken by a device |
| DeviceQueries.SomeWaiterIsWoken | matter.js/packages/nodejs-ble/src/BleScanner.ts:138-172 | When a search waits, not by product number, that accepts the device, then some search is woken |
| DeviceQueries.LookupOrder | matter.js/packages/nodejs-ble/src/BleScanner.ts:138-172 | The order of the lookups in literal keys: long, then short (the upper four of twelve bits), vendor, product as vendor, and last the search for any device |
| DeviceQueries.ShortDiscriminators | matter.js/packages/nodejs-ble/src/BleScanner.ts:100-118 | The short discriminators of 0xF00, 0xA5C and 0x0FF are 15, 10 and 0 |
| DeviceQueries.KeyTexts | matter.js/packages/nodejs-ble/src/BleScanner.ts:178-192 | The texts of keys |
| DeviceQueries.AcceptsByNumber | matter.js/packages/nodejs-ble/src/BleScanner.ts:194-220 | The string prefix and suffix tests of the filter compare the vendor and product numbers |
| DeviceQueries.KeysAreInjective | matter.js/packages/nodejs-ble/src/BleScanner.ts:178-192 | Two queries have the same key exactly when they have the same effective field |
| DeviceQueries.VPParts | matter.js/packages/nodejs-ble/src/BleScanner.ts:150-157 | Splitting the vendor and product pair and parsing its parts gives back the two numbers |
| ContinuousDiscovery.RunIsFaithful | matter.js/packages/nodejs-ble/src/BleScanner.ts:257-302 | In every interleaving with other users of the scanner the callback is told of an address at most once, and of matches only |
| ContinuousDiscovery.TimeoutReportsAll | matter.js/packages/nodejs-ble/src/BleScanner.ts:278-295 | A search that ends by its timeout has reported every match then stored |
| ContinuousDiscovery.WaitingHasReportedAll | matter.js/packages/nodejs-ble/src/BleScanner.ts:107-302 | In every run of a search, not by product number, on a scanner that nobody else waits on or closes, with devices that do not change what they advertise, a search that sits waiting has reported every stored match |
| ContinuousDiscovery.ChangedDeviceIsMissed | matter.js/packages/nodejs-ble/src/BleScanner.ts:79-136 | That devices do not change is needed: a stored device that is found again leaves the search as it is, so it is kept back exactly if it matches now and its address has not been reported |
| ContinuousDiscovery.ClosedScannerStrandsTheSearch | matter.js/packages/nodejs-ble/src/BleScanner.ts:308-313 | That nobody closes the scanner is needed: closing removes the waiter of the search, which has no timer, without resolving it, and in no run does the search ever go on |
| ContinuousDiscovery.AttentiveSearchIsStranded | matter.js/packages/nodejs-ble/src/BleScanner.ts:308-313 | So a match that is discovered after that is kept back |
| ContinuousDiscovery.TimeAloneNeverEndsTheWait | matter.js/packages/nodejs-ble/src/BleScanner.ts:287-297 | The time that remains is computed into a variable of an inner scope and the waiter gets no timeout, so no amount of time ends a wait |
| ContinuousDiscovery.ReplacedWaiterIsLost | matter.js/packages/nodejs-ble/src/BleScanner.ts:57-90 | A search whose waiter was replaced under its key never goes on, in any run, not even when cancelled |
| ContinuousDiscovery.SecondSearchTakesTheWaiter | matter.js/packages/nodejs-ble/src/BleScanner.ts:57-71 | Which a second search for the same query brings about |
| DiscoveryProgress.NewMatchIsReported | matter.js/packages/nodejs-ble/src/BleScanner.ts:97-302 | A match that is new wakes a search that waits undisturbed, and its next turn tells the callback of it |
| DiscoveryProgress.TurnTellsAndWaits | matter.js/packages/nodejs-ble/src/BleScanner.ts:277-299 | A turn tells the callback of every match not yet reported, and then waits under its key, or ends if its time has passed |
| DiscoveryProgress.TimeEndsAt | matter.js/packages/nodejs-ble/src/BleScanner.ts:287-295 | A turn ends the search exactly when its end time has come |
| DiscoveryProgress.CancelledSearchEnds | matter.js/packages/nodejs-ble/src/BleScanner.ts:267-276 | Cancelling ends a search that waits under its own key, without another report |
| DiscoveryProgress.EndedSearchIsOver | matter.js/packages/nodejs-ble/src/BleScanner.ts:276-302 | A search that has ended tells of nothing more, in any run |
| DiscoveryProgress.DiscoveryWakes | matter.js/packages/nodejs-ble/src/BleScanner.ts:97-136 | A device finishes the waiter of its lookup, but if it is known already only one that wants to hear of known devices |
| BleScannerObject.BleScanner.FindCommissionableQueryIdentifier | matter.js/packages/nodejs-ble/src/BleScanner.ts:138-172 | The lookups in their order: long, short, vendor, product number as vendor, any |
| BleScannerObject.BleScanner.HandleDiscoveredDevice | matter.js/packages/nodejs-ble/src/BleScanner.ts:97-136 | A device is stored in place and at most one waiter is finished |
| BleScannerObject.BleScanner.GetCommissionableDevices | matter.js/packages/nodejs-ble/src/BleScanner.ts:194-220 | The stored devices that the query accepts, in order |
| BleScannerObject.BleScanner.Close | matter.js/packages/nodejs-ble/src/BleScanner.ts:308-313 | The loop over the keys resolves exactly the waiters with a timer, and removes all |
| BleScannerObject.ContinuousSearch.Sweep | matter.js/packages/nodejs-ble/src/BleScanner.ts:278-285 | The loop calls back for each address that is new, and marks it |
| BleScannerObject.ContinuousSearch.Continue | matter.js/packages/nodejs-ble/src/BleScanner.ts:277-299 | One turn of the discovery loop, to its next await or its end: unless cancelled, every stored match has then been reported |
| BleScannerObject.ContinuousSearch.PerformAll | matter.js/packages/nodejs-ble/src/BleScanner.ts:257-313 | Over every sequence of events, its own and those of others on the scanner, the search runs the machine: each address is told once, matches only, and if it ran undisturbed it has reported every stored match whenever it waits |
| BleScannerObject.ContinuousSearch.Cancel | matter.js/packages/nodejs-ble/src/BleScanner.ts:267-271 | Cancelling marks the search and finishes the waiter under its key |
| FlagBitmaps.WhatComesBack | matter.js/chip-testing/src/ChipToolWebSocketHandler.ts:162-284 | For every list of flags and every object, decoding the encoded number gives the names of exactly those flags that share their bit with a flag the object held |
| FlagBitmaps.RoundTrip | matter.js/chip-testing/src/ChipToolWebSocketHandler.ts:162-284 | With separate bits exactly the true flags come back, if and only if each is the name of a member and none is held by its description alone |
| FlagBitmaps.OverlappingFlagComesBack | matter.js/chip-testing/src/ChipToolWebSocketHandler.ts:162-284 | Separate bits are needed: a flag that shares its bit comes back with another |
| FlagBitmaps.Bit32IsBit0 | matter.js/chip-testing/src/ChipToolWebSocketHandler.ts:180-182 | Bits are shared modulo 32, as shifts are |
| FlagBitmaps.BitIsSet | matter.js/chip-testing/src/ChipToolWebSocketHandler.ts:162-190 | The number has a bit exactly when the object holds some flag of that bit |
| FlagBitmaps.MaskDoubles | matter.js/chip-testing/src/ChipToolWebSocketHandler.ts:162-190 | Each bit is worth twice the one before, from 1 to 0x80000000 |
| FlagBitmaps.LoneFlag | matter.js/chip-testing/src/ChipToolWebSocketHandler.ts:162-190 | A lone flag is encoded as its bit, and no flag as 0 |
| FlagBitmaps.Encode | matter.js/chip-testing/src/ChipToolWebSocketHandler.ts:162-190 | The loop computes the number |
| FlagBitmaps.Decode | matter.js/chip-testing/src/ChipToolWebSocketHandler.ts:269-284 | The loop computes the names |

## Left out

- BleConnections.OneRetryPerAttempt: assumes that `connectAsync` does not reject while the channel of its attempt is being created; otherwise the claim is false, as LateRejectionRetriesTwice shows for every such state.
- JsonFileStorage.SingleWriterIff: for callers whose code does not run between the settling of a write and the callback of its promise; without this the condition is sufficient.
- GeneratorNames.AssignNames: takes locations as the scope makes them, one for a model and no outside definition represented by the local cluster; how they are found is not modelled.
- AggregationLedger.LedgerBalances: takes a recalculation as one step, so samples that arrive between its snapshot and its reset are not modelled.
- ContinuousDiscovery.WaitingHasReportedAll: for a search that is alone on an open scanner and devices that do not change; the lemmas beside it show why.
- LayoutMeaning.LayoutKeepsMeaning: for trees without empty builders; EmptyBuildersAreHarmlessIff gives the exact condition for one block whose children are empty builders or free of them, not for whole trees, in which losses at different levels could cancel.
- FittedTexts.FittingIsIdempotent: for words of positive visible width.
- ZigbeeEjection.EjectZigbee: returns the new tree instead of assigning children in place, so sharing of elements between trees, and of the feature list between nested clusters, is not captured.
- InsertionCursor.CodeBlock.AddEntries: takes the name that an entry defines as given; the patterns that extract it from the text, and `undefine`, are not modelled, and the code that runs inside an insertion is a list of adds, removes and nested insertions.
- StartupBarrier.NoDeadlock: without failures; a node that fails never posts, and those who wait for it wait for ever.
- FlagBitmaps.RoundTrip: for single-bit flags, with the decimal text between encoding and decoding identified with its 32-bit number; fields of several bits are not modelled.
- Documentation comments, cross references, raw text, sections and statement blocks of the printer, and the patterns that suppress a delimiter after a declaration.
- Case conversion of names, URI decoding, and promises as definitions in the command line tool.
- Driver internals of noble, BTP sessions, and events of other BLE addresses; the states of a peripheral are what the driver reports.
- The non-continuous discovery, except for the deletion of stored records, which is an event.
- The forced store from the exit handler.
- Ports and addresses in the installed configuration of the deployment script, and its baseline mode.
- Identifying the named models of a scope and the scope itself; datatype promotion and cross-cluster references of the model finalisation; inherited feature maps.
- The target position attributes of the window covering, and ticks that wait for a lock.
- Astral characters are two code units, of which the visible width counts one, as in the source; rounding of floating point numbers is not modelled.
