# Verified model of Network Health

Network Health is a ping monitor: a C++ daemon probes hosts and publishes their health, and any number of desktop
widgets share one list of hosts. This project models the logic of both in Dafny and proves what they rely on. One
module per component:

- **JSON** (`JsonValue`, `JsonPrinter`, `JsonParser`, `JsonStrings`, `JsonSurvivors`, `JsonRoundTrip`, `JsonTheorems`,
  `JsonGrammar`, `JsonAcceptance`, `JsonSpelling`, `JsonLayout`): the printer and the recursive-descent parser as
  classes that append to `out` and move `pos`, `depth` and `error`, each method equal to a function on byte strings;
  then the round trip for every document, indent and mode, the exact set of strings that come back from ASCII-only
  text, a grammar that derives exactly the texts that the parser takes, those of RFC 8259 among them, and the spelling
  and layout of everything printed.
- **Probing** (`Hysteresis`, `Engine`, `ProberInvariant`, `EngineInvariant`, `Scheduling`, `Effects`): what every
  operation of `Monitor` makes of its fields, with a log of verdicts, what every operation keeps, and what it does,
  field by field.
- **Reconfiguration** (`Rebuild`, `Partition`, `RebuildTheorems`, `TableSteps`, `ReloadIdentity`): `reloadClients` and
  `rebuildProbers`.
- **The daemon as a whole** (`Resolver`, `System`, `SystemTheorems`, `Punctuality`, `Histories`, `LastingVerdicts`,
  `Answers`, `Lookups`, `Loop`, `News`, `Turns`, `Interleaving`, `Witnesses`): the resolver's two threads in every
  interleaving, runs from a cold start, and the event loop with its deadlines, whose turns, with the thread at work
  anywhere in them, make up a run of the whole. `Monitor` is the class whose methods update the fields and equal the
  functions above.
- **Sharing** (`SharedStore`, `Convergence`, `SharedDestinations`): any number of widgets and one file; edits,
  synchronisations and landing writes in any order.
- **Lists** (`Canonical`, `Transfer`): the canonical spelling, export and import.
- **Encodings** (`Base64`, `Checksum`, `Published`): base64, the internet checksum, and the published payload line.

Bytes are characters below 256. Socket results, replies, lookups, loaded configuration files and clock readings are
arbitrary inputs; the clock never goes back. `dafny verify dfyconfig.toml` checks the whole project.

Where the code does not do what its comments or documentation say, the model follows the code:

- A comment at daemon/src/monitor.cpp:445-446 says that whatever answered did so inside the maximum wait. `run`
  handles replies before `tick` gives up, so it need not have: `Witnesses.LateAnswerHappens` is a run in which it has
  not. An answer is inside the wait exactly if it is handled by the probe's deadline
  (`EngineInvariant.AnswerInTimeIff`), which is so whenever a turn begins no later than 2 ms after the tick before
  (`Turns.PromptTurnAnswersInTime`).
- Importing an export does not give every list back. `seen = {}` at package/contents/ui/utils.js:156 inherits names
  from `Object.prototype`, so an id such as `constructor` is replaced: `Transfer.InheritedIdChanges`. The exact
  condition is `Transfer.ExportThenImport`.
- The canonical spelling is not a fixed point for numbers that are not finite, which are written as `null` and read as
  0. A destination with the order 1e999 shows it (`Canonical.EndlessIsRespelt`); the exact condition is
  `Canonical.CanonicalIsFixedPoint`.
- The program's own README.md:179-182 has it that a widget never publishes an empty list it has had since start-up. It
  does not as long as the file holds none but texts that have destinations in them, or the empty list as widgets write
  it: `SharedDestinations.DestinationsGuardIff`, over every run from a cold start, and no other files are safe. Lists
  that are read back as they were written are (`SharedDestinations.WrittenListsAreSafe`); a text that is no list is
  taken over as an empty one, and then the widget's own `[]` is published over it
  (`SharedDestinations.UnreadableListIsWiped`). `SharedStore.WipesIff` says at every point of every run what decides
  it: where the baseline came from.
- Not every edit is published. One made while a write of the same widget is awaited gives way to the shared value if
  that write lands, and is published if it is lost; `SharedStore.EditFate` and `SharedStore.AwaitedEditFate` say
  exactly what becomes of an edit.
- A comment at daemon/src/monitor.cpp:365-366 has it that the in-flight limit keeps sending at the interval. A send
  that is late by less than an interval can let the limit hold the next one back (`Scheduling.LateSendBlocks`). A
  prober sends exactly if its slot has come and it has room below the limit or gives up on a probe in the same turn
  (`Punctuality.RunSendsIffRoom`). A prober held back keeps the loop awake with nothing to do (`Witnesses.LoopSpins`),
  and nothing else does (`Loop.LoopProgress`).
- The parser takes more than RFC 8259, such as `+007` and control characters in strings (`JsonAcceptance.BeyondRfc`).
  Of RFC 8259 it refuses what is nested more than 64 deep and numbers that `std::stod` refuses, and nothing else
  (`JsonAcceptance.RfcTextsParse`).
- ASCII-only printing replaces a byte that begins no character by U+FFFD; but of a string that breaks off inside a
  character it drops everything from that character's beginning on, other characters included
  (daemon/src/json.hpp:206-209): `JsonSpelling.UnfinishedLosesRest`.

Two further lemmas say what two choices in the code are for: `Resolver.OtherOrderLosesWakeups`, had `collect` taken
the results before reading the eventfd, and `SharedStore.NeverSettlesUnlessFixed`, had the shared values no canonical
spelling.

## Model

| member | source | states |
|---|---|---|
| JsonTheorems.RoundTrip | daemon/src/json.hpp:138-169 | for arbitrary bytes in strings and every indent, parsing a dump gives the document back with no error if and only if it is at most 64 levels deep, no object repeats a key, and its numbers are read as they were |
| JsonTheorems.AsciiRoundTrip | daemon/src/json.hpp:172-245 | the same in ASCII-only mode, if and only if every string and key survives besides |
| JsonSurvivors.SurvivesIff | daemon/src/json.hpp:172-245 | a byte string comes back from `\u` escapes if and only if it is made of UTF-8 characters, lone surrogates in three bytes included, and no high surrogate is followed by an escape that it would be joined with or would lose |
| JsonTheorems.PlainDocumentsComeBack | daemon/src/json.hpp:138-169 | documents of well-formed UTF-8 and whole numbers come back from ASCII-only text if and only if depth and keys allow |
| JsonTheorems.IntegersAreExact | daemon/src/json.hpp:247-261 | whole numbers below 9e15 in magnitude are read as they were, whatever `%.10g` and `std::stod` do with others |
| JsonTheorems.DumpIsAscii | daemon/src/json.hpp:185-245 | every byte of ASCII-only output is below 0x80, whatever bytes the strings hold and whatever the numbers, as long as `%.10g` writes ASCII |
| JsonLayout.PrettyIsLaidOut | daemon/src/json.hpp:263-332 | compact text has no white space outside strings; pretty text is that text with a line for each item, member and closing bracket, indented by the brackets open there, and a space after each colon, and is the compact text again without white space outside strings |
| JsonSpelling.PlainStringIsSpelt | daemon/src/json.hpp:185-245 | in plain mode each byte is spelt by itself: by its letter of section 7 of RFC 8259, as an escape if it is another control character, or as it is |
| JsonSpelling.AsciiStringIsSpelt | daemon/src/json.hpp:172-245 | in ASCII-only mode, for any bytes: characters of UTF-8 as one or two escapes of their number, bytes that begin none as U+FFFD |
| JsonSpelling.EscapeSpells | daemon/src/json.hpp:172-183 | an escape has four lower-case digits with the unit's value |
| JsonSpelling.UnfinishedLosesRest | daemon/src/json.hpp:206-209 | a string that breaks off inside a character is printed as U+FFFD alone from there on |
| JsonSpelling.NumbersAreSpelt | daemon/src/json.hpp:247-261 | whole numbers below 9e15 are printed as integers of RFC 8259 without leading zeros, all others as formatted |
| JsonAcceptance.AcceptedIff | daemon/src/json.hpp:148-169 | the texts parsed without an error are exactly those of the grammar `Taken`, up to 64 levels and with numerals that `std::stod` reads; each is parsed to its meaning, however it is derived |
| JsonGrammar.DerivedTextParses | daemon/src/json.hpp:338-626 | every text of the grammar, with any white space, escapes (by the tables of RFC 8259 and RFC 3629) and repeated keys, is parsed to its meaning, or to null with an error if it is too deep or a numeral is not read |
| JsonAcceptance.RfcTextsParse | daemon/src/json.hpp:338-626 | a JSON text of RFC 8259 is parsed to its meaning if and only if it is at most 64 levels deep and `std::stod` reads its numbers |
| JsonAcceptance.RespeltStays | daemon/src/json.hpp:475-554 | a string means the same however its characters are spelt: as they are, by letter, or by digits of either case |
| JsonAcceptance.RfcIntegersRead | daemon/src/json.hpp:425-454 | integers up to 2^53 in magnitude are always read, to their value |
| JsonAcceptance.BeyondRfc | daemon/src/json.hpp:425-519 | two texts that are taken and are none of RFC 8259 |
| JsonAcceptance.AcceptedIsClean | daemon/src/json.hpp:104-118 | whatever is parsed without an error repeats no key in any object and is at most 64 levels deep |
| JsonAcceptance.AcceptedComesBack | daemon/src/json.hpp:138-169 | so it is printed and parsed to itself again if and only if its numbers, and in ASCII-only text its strings, come back |
| JsonRoundTrip.DumpThenParse | daemon/src/json.hpp:148-169 | every dump in any mode parses: to the document's image (repeated keys merged, strings and numbers as re-read) up to depth 64, to null with an error beyond |
| JsonStrings.StringReadBack | daemon/src/json.hpp:497-554 | a printed string or key, well-formed or not, is parsed to its closing quote and to exactly its re-read form |
| JsonStrings.AsciiRereadIsIdentity | daemon/src/json.hpp:172-245 | well-formed UTF-8 survives \u escapes, astral characters as surrogate pairs |
| JsonStrings.PlainRereadIsIdentity | daemon/src/json.hpp:185-245 | any byte string survives plain printing |
| JsonRoundTrip.NumberReadBack | daemon/src/json.hpp:425-454 | the greedy number scan reads back every printed integer up to 2^53 in magnitude, and stops after it |
| JsonValue.SetThenLookup | daemon/src/json.hpp:104-118 | `set` replaces in place or appends: afterwards the key has the value, other keys keep theirs, keys stay distinct |
| JsonValue.SetInPlace | daemon/src/json.hpp:104-118 | the loop of `set` |
| JsonPrinter.Writer.WriteEscapedCodePoint | daemon/src/json.hpp:172-183 | appends the escape of a code point, as a surrogate pair beyond the basic plane |
| JsonPrinter.Writer.WriteNext | daemon/src/json.hpp:185-245 | appends one character's spelling and advances by the bytes it used, replacing malformed sequences |
| JsonPrinter.Writer.WriteString | daemon/src/json.hpp:185-245 | appends the quoted spelling of the string |
| JsonPrinter.Writer.WriteNumber | daemon/src/json.hpp:247-261 | appends the decimal numeral on the integer path, the formatted number otherwise |
| JsonPrinter.Writer.Write | daemon/src/json.hpp:263-332 | appends exactly the document's text for its style and depth |
| JsonParser.Parser.SkipWhitespace | daemon/src/json.hpp:342-352 | moves the cursor to the first byte that is not white space |
| JsonParser.Parser.ReadNumber | daemon/src/json.hpp:425-454 | outcome, cursor and error are those of the number grammar as written |
| JsonParser.Parser.ReadHex4 | daemon/src/json.hpp:475-495 | four hex digits, or the error at the right place |
| JsonParser.Parser.ReadString | daemon/src/json.hpp:497-554 | escapes, surrogate pairing and unterminated strings, exactly as `ParseString` |
| JsonParser.Parser.ReadValue | daemon/src/json.hpp:372-381 | depth is charged and given back, and the 65th level fails |
| JsonParser.Parser.ReadArray | daemon/src/json.hpp:556-585 | the items in order, or the first error |
| JsonParser.Parser.ReadObject | daemon/src/json.hpp:587-626 | the members in order, repeated keys replaced, or the first error |
| JsonParser.ParseDocument | daemon/src/json.hpp:148-169 | value and error of the whole text, trailing data refused |
| Base64.Base64Encode | daemon/src/util.cpp:215-242 | the index loop computes the encoding of section 4 of RFC 4648 |
| Base64.DecodeInverts | daemon/src/util.cpp:215-242 | the section 4 decoder inverts it for every byte string |
| Base64.EncodedLength | daemon/src/util.cpp:215-242 | the length is 4 for each started group of 3 |
| Base64.EncodedAlphabet | daemon/src/util.cpp:215-242 | symbols of the alphabet, then only the padding due |
| Base64.Vectors | daemon/src/util.cpp:215-242 | the test vectors of section 10 of RFC 4648 |
| Published.BuildPayload | daemon/src/monitor.cpp:780-782 | the payload written is the encoding of the ASCII-only compact dump, fractions included |
| Published.PublishedIsRead | daemon/src/monitor.cpp:780-782 | decoding and parsing a payload gives the document's image, and the published document itself if and only if depth, keys, numbers and strings allow |
| Checksum.ComputeChecksum | daemon/src/pinger.cpp:44-64 | the loops, with a 32-bit accumulator, compute the complemented folded sum |
| Checksum.FoldKeepsResidue | daemon/src/pinger.cpp:60-62 | folding terminates below 2^16 and keeps the sum modulo 65535, zero only for zero |
| Checksum.VanishesIff | daemon/src/pinger.cpp:44-64 | the checksum is 0 exactly on positive multiples of 65535 |
| Checksum.ChecksumComplements | daemon/src/pinger.cpp:44-64 | the checksum is what the weighted sum of all bytes, a last odd one included, lacks to a multiple of 65535 |
| Checksum.SealedVanishes | daemon/src/pinger.cpp:258-263 | storing the checksum over a zero word at an even offset makes the checksum 0, for up to 65537 words and either byte order of the receiver |
| Checksum.SealPacket | daemon/src/pinger.cpp:258-263 | raw IPv4 packets leave sealed, all others unchanged |
| Hysteresis.VerdictIsLastRun | daemon/src/monitor.cpp:480-506 | the specification: the value of the latest run of more than N equal samples, or the first sample |
| Hysteresis.WeighAllIsVerdict | daemon/src/monitor.cpp:480-506 | candidate and streak compute exactly that, for every sensitivity and history |
| Hysteresis.JudgeAllIsVerdict | daemon/src/monitor.cpp:450-515 | the same for raw samples through `classify`, and every sample and answer is counted |
| Hysteresis.ShownIsMeasured | daemon/src/monitor.cpp:439-506 | told by times and silences alone: the state is Good, Warn or Bad as the last run of more than the sensitivity was answered within the threshold, beyond it, or not at all, or the first sample if there is no such run; and the time shown is the last sample's |
| Hysteresis.AlternationMovesNothing | README.md:225-238 | with sensitivity 1 or more an alternating mixture never moves the state |
| Hysteresis.JudgeKeepsConsistent | daemon/src/monitor.cpp:480-506 | a state is shown exactly once something was sent, `Offline` is never measured |
| Monitor.Monitor.JudgeDestination | daemon/src/monitor.cpp:439-506 | the loop body, branch by branch, equals the judgement |
| Monitor.Monitor.ApplySample | daemon/src/monitor.cpp:450-515 | counts the sample, judges each subscriber in order, marks what is dirty |
| Monitor.Monitor.SendProbe | daemon/src/monitor.cpp:517-552 | no route, sent, or failed: the whole new state |
| Monitor.Monitor.ExpireProbes | daemon/src/monitor.cpp:554-563 | gives up on the front while it is due |
| Monitor.Monitor.ResolveProber | daemon/src/monitor.cpp:564-567 | asks the resolver when due |
| Monitor.Monitor.SendWhenDue | daemon/src/monitor.cpp:569-577 | sends below the cap and moves the schedule, without catching up |
| Monitor.Monitor.Tick | daemon/src/monitor.cpp:554-579 | all probers in turn |
| Monitor.Monitor.TakeReply | daemon/src/monitor.cpp:581-606 | accepts a reply only for an outstanding probe of a live prober from its own address |
| Monitor.Monitor.HandleResolutions | daemon/src/monitor.cpp:608-639 | drains the resolver and applies each result: time to live, back-off, dropped uids |
| Monitor.Monitor.CarryOver | daemon/src/monitor.cpp:268-292 | carries evaluated states by client id and (id, address) |
| Monitor.Monitor.EnrollOne | daemon/src/monitor.cpp:305-360 | one destination: reuse, recycle or create its prober, subscribe it |
| Monitor.Monitor.RebuildProbers | daemon/src/monitor.cpp:305-373 | the double loop and the indexing loop give the rebuilt table |
| Monitor.Monitor.ReloadClients | daemon/src/monitor.cpp:236-303 | carry-over, then the rebuilt table, then a publication due |
| Monitor.Monitor.Publish | daemon/src/monitor.cpp:763-799 | when it publishes, and what that resets |
| Monitor.Monitor.NextDeadline | daemon/src/monitor.cpp:805-828 | the least of all deadlines |
| Monitor.Monitor.Turn | daemon/src/monitor.cpp:857-908 | one turn of the loop in its order: results, replies, reload, tick, housekeeping, publish |
| Engine.BackoffDoubles | daemon/src/monitor.cpp:608-639 | the wait after failed lookups starts at 5 s and doubles up to 5 minutes |
| Lookups.RunLooksUp | daemon/src/monitor.cpp:554-639 | in every run a host is looked up in its prober's turn of the tick if and only if no request of its own is outstanding and, less 2 ms, 5 minutes have passed since a success, or since the last of k failures in a row 5 s doubled k - 1 times, up to 5 minutes |
| Lookups.FirstComeFirstServed | daemon/src/resolver.cpp:39-98 | requests are served in their order, each once and with the answer for its own host |
| Effects.ResolutionEffect | daemon/src/monitor.cpp:608-639 | a result replaces the address if it found one and ends the lookup, of its own prober only |
| Effects.SendEffect | daemon/src/monitor.cpp:517-577 | an attempt goes out on the open socket of the address's family only; its number is outstanding for the maximum wait if it was sent and settled if not; the next slot is one interval on |
| ProberInvariant.Erase | daemon/src/monitor.cpp:601 | removing any one probe keeps the queue sorted and takes exactly its number out of flight |
| ProberInvariant.FrontIsEarliest | daemon/src/monitor.cpp:805-828 | the front deadline is the least |
| ProberInvariant.RateBound | daemon/src/monitor.cpp:569-577 | k attempts by time t take at least k - 1 intervals, less 2 ms |
| ProberInvariant.PaceStep | daemon/src/monitor.cpp:569-577 | one due attempt keeps the schedule between the count of attempts and one slot ahead |
| EngineInvariant.TickKeepsInv | daemon/src/monitor.cpp:554-579 | index, ledgers, queues, pace and history stay right over a tick |
| EngineInvariant.HandleRepliesKeepInv | daemon/src/monitor.cpp:581-606 | and over any replies |
| EngineInvariant.HandleResolutionKeepsInv | daemon/src/monitor.cpp:608-639 | and over resolutions |
| EngineInvariant.ReplyEffect | daemon/src/monitor.cpp:581-606 | a reply changes something if and only if it names an outstanding probe of a live prober and comes from that prober's family and address, whatever the text; then it settles that probe and no other, with its round-trip time |
| Answers.RunAnswers | daemon/src/monitor.cpp:581-606 | in every run every answer in the log was given by a reply from the address that its prober had at that moment, with the time since its probe was sent |
| EngineInvariant.AnswerInTimeIff | daemon/src/monitor.cpp:581-606 | every echo of an outstanding probe is taken as an answer, and its round-trip time is inside the maximum wait if and only if it is handled by the probe's deadline |
| Turns.PromptTurnAnswersInTime | daemon/src/monitor.cpp:857-893 | in every run of the loop, an echo handled in a turn that begins no later than 2 ms after the last tick is inside the maximum wait |
| Witnesses.LateAnswerHappens | daemon/src/monitor.cpp:439-448 | a run from a cold start answers after 60 ms to a prober that waits for 50 ms |
| Scheduling.TickSettles | daemon/src/monitor.cpp:554-579 | after a tick nothing is due within the slack, and each send is ahead or capped |
| Scheduling.EarlyTickDoesNothing | daemon/src/monitor.cpp:805-828 | a tick earlier than the next deadline less the slack is the identity |
| Scheduling.DueMeansWork | daemon/src/monitor.cpp:805-828 | a deadline that has come means work, or a prober at its cap |
| Scheduling.CapNeverBlocks | daemon/src/monitor.cpp:365-369 | on schedule, with at most eight intervals of waiting, a due probe finds room after expiry |
| Scheduling.SendsIffRoom | daemon/src/monitor.cpp:554-577 | after expiry and lookup, a prober sends if and only if its slot has come and it was below its limit or its oldest probe was due |
| Scheduling.LateSendBlocks | daemon/src/monitor.cpp:569-577 | an instance without room: a send 99 ms late leaves the slot after the next one blocked |
| Scheduling.OneAttemptPerTick | daemon/src/monitor.cpp:554-579 | a whole tick makes at most one attempt per prober |
| Punctuality.RunSendsIffRoom | daemon/src/monitor.cpp:554-579 | at any point of any run, a prober's turn makes exactly one attempt if its slot has come and it has room, and none otherwise |
| Punctuality.RunNeverBlocks | daemon/src/monitor.cpp:554-579 | in whole runs, over replies, results and reloads, a due prober whose own sends so far were punctual attempts exactly one probe, whatever the others do |
| Rebuild.KeyInjective | daemon/src/monitor.cpp:42-45 | keys agree only for equal host, interval and timeout, separator in the host or not |
| Effects.LimitIsLeast | daemon/src/monitor.cpp:365-369 | the in-flight limit is the least that covers the maximum wait, between 1 and 8 |
| Effects.MinIntervalIsLeast | daemon/src/monitor.cpp:356-362 | the least interval is one of the probers' and none is below it |
| Effects.CarryEffect | daemon/src/monitor.cpp:268-292 | a loaded destination takes all that was evaluated of the first old one with its id and address, and keeps its own settings |
| Effects.CarryClientEffect | daemon/src/monitor.cpp:268-292 | only the first old client with the same id is looked at, and settings of the loaded one are kept |
| RebuildTheorems.RebuildMakesTable | daemon/src/monitor.cpp:305-373 | rebuilding any table makes the one the configuration calls for |
| RebuildTheorems.TableIsPartition | daemon/src/monitor.cpp:305-373 | enabled destinations are subscribed once, to the one prober with their address, interval and timeout; disabled ones nowhere; no prober is without subscribers |
| RebuildTheorems.RebuildSurvivors | daemon/src/monitor.cpp:305-373 | surviving streams keep their whole prober, others start afresh under new uids |
| RebuildTheorems.ReloadKeepsInv | daemon/src/monitor.cpp:236-373 | the invariant holds over reconfiguration, the uid index exact again |
| ReloadIdentity.UnchangedReload | daemon/src/monitor.cpp:236-303 | reloading an unchanged configuration with unique ids changes nothing but `stateDirty` |
| Resolver.Resolver.Request | daemon/src/resolver.cpp:39-52 | queues a request unless its uid waits already |
| Resolver.Resolver.TakeCompleted | daemon/src/resolver.cpp:54-67 | hands over everything completed |
| Resolver.Resolver.PopRequest | daemon/src/resolver.cpp:69-80 | the worker's first locked section |
| Resolver.NoLostWakeup | daemon/src/resolver.cpp:39-98 | every atomic section of either thread keeps a wakeup on the way to waiting results |
| SystemTheorems.SampleReaches | daemon/src/monitor.cpp:450-515 | a sample judges exactly the destinations of its prober, each once |
| SystemTheorems.StepKeepsSystemInv | daemon/src/monitor.cpp:554-639 | every step of either thread keeps the whole invariant |
| SystemTheorems.RunConserves | daemon/src/monitor.cpp:450-606 | at every instant of every run each number 1..sequence is in flight or has exactly one verdict; `sent` and `received` count the log; no probe ever has two verdicts |
| SystemTheorems.RunRateBound | daemon/src/monitor.cpp:569-577 | the rate bound from a prober's creation on, for any tick times |
| SystemTheorems.RunPartitions | daemon/src/monitor.cpp:305-373 | at every instant the partition and the uid index are exact, and a state is shown if and only if something was sent |
| SystemTheorems.RunResolves | daemon/src/resolver.cpp:39-98 | under every interleaving a prober is resolving if and only if one request of its own is outstanding, and its endpoint comes from its own host |
| SystemTheorems.RunWakes | daemon/src/resolver.cpp:39-98 | at every instant of every run, results wait only with the eventfd signalled, about to be, or about to be drained |
| Histories.SamplesCounted | daemon/src/monitor.cpp:450-456 | the samples in the log of a prober are what `sent` and `received` count |
| Histories.RunShowsVerdict | daemon/src/monitor.cpp:450-515 | between reconfigurations each destination has been judged by exactly its prober's samples, in their order, and shows the verdict of that history |
| LastingVerdicts.RunKeepsVerdict | daemon/src/monitor.cpp:268-292 | over any part of any run, reloads included, a destination kept with its threshold and sensitivity shows the verdict of all samples its probers have had |
| Loop.LoopProgress | daemon/src/monitor.cpp:893-908 | after the end of a turn that goes on, the next deadline is ahead of the turn's beginning if and only if no prober sits at its limit with a send overdue then |
| Loop.FinishRests | daemon/src/monitor.cpp:893-908 | the end of a turn leaves the loop at rest: nothing to reload, no change of state unpublished, the idle clock set exactly without probers |
| Loop.NewsGoesOut | daemon/src/monitor.cpp:763-828 | a turn leaves no change of state unpublished, other news only within the publishing interval, and the loop sleeps no longer than to the end of it |
| News.ChangesArePublished | daemon/src/monitor.cpp:763-908 | a turn after which a destination shows another state, a prober another address, or the configuration was read, has published |
| News.PublishedIff | daemon/src/monitor.cpp:763-799 | news of state is published at once, other news exactly when both the publishing interval and the least interval have passed |
| News.ChangeIffDifferent | daemon/src/monitor.cpp:450-515 | a sample counts as a change of state if and only if some destination shows another state after it |
| News.IdleEndsIff | daemon/src/monitor.cpp:896-906 | the loop ends by itself exactly after the idle limit without probers |
| News.ExpiryChecked | daemon/src/monitor.cpp:407-440 | expired files are looked for with a client time-out only, every minute or twice in a shorter time-out, and one found leads to a reload |
| Loop.TurnProgress | daemon/src/monitor.cpp:857-908 | both for whole turns with any results, replies and reloads, with the invariant and the remembered clock readings kept |
| Turns.RunProgress | daemon/src/monitor.cpp:839-909 | both after every turn of every run of the loop |
| Turns.TurnIsRun | daemon/src/monitor.cpp:857-908 | every turn is a sequence of steps of the whole daemon |
| Interleaving.HistoryIsRun | daemon/src/monitor.cpp:839-909 | however the parts of the loop's turns and the sections of the resolver's thread follow one another from a cold start, within turns and between them, some run of the whole daemon has come to the same engine, queues and thread at every point |
| Interleaving.LoopKeepsAll | daemon/src/monitor.cpp:839-909 | so the loop keeps, at every point of its turns, the exact partition and index, consistent verdicts, conservation, the rate bound, one lookup of its own for each resolving prober, and a wakeup on the way to waiting results |
| Interleaving.LoopKeepsVerdict | daemon/src/monitor.cpp:839-909 | over any part of the loop's turns, reloads included, a destination kept with its threshold and sensitivity shows the verdict of all samples its probers have had |
| Interleaving.TurnAlone | daemon/src/monitor.cpp:857-908 | the parts of a turn that the thread leaves alone make up the turn that `Monitor.Turn` computes |
| Witnesses.LoopSpins | daemon/src/monitor.cpp:839-848 | three turns from a cold start, after which no prober has anything to do and the next deadline has passed |
| Loop.SleepIsTight | daemon/src/monitor.cpp:840-848 | without a deadline the loop sleeps for ever, past one not at all; otherwise the rounded timeout ends no earlier than the deadline unless limited to an hour, and less than 1 ms past it |
| Loop.EarlyWakeDoesNothing | daemon/src/monitor.cpp:857-908 | a whole turn before the next deadline that is brought nothing leaves a loop at rest as it was, but for the time of the last look for expired files when there are no clients |
| SharedStore.Store.Synchronise | package/contents/ui/SharedStore.qml:102-161 | `sync` with every branch and signal: the widget's new state and the file's |
| SharedStore.Store.BecomeReady | package/contents/ui/SharedStore.qml:169-174 | the baseline is the value held |
| SharedStore.SharedFile.Write | package/contents/ui/SharedStore.qml:81-100 | for any text, what `read` then gives is the revision and the text as it comes back through `Qt.btoa` and `Qt.atob` |
| SharedStore.NoStartUpWipeIff | package/contents/ui/SharedStore.qml:109-161 | for every set of texts: in all runs from a cold start in which the file holds none but these, however writes land, only a widget that has held a non-empty value publishes the empty one over a shared one, if and only if none of them but the empty value is spelt as the empty one |
| SharedStore.WipesIff | package/contents/ui/SharedStore.qml:141-161 | at any point of any run, a widget that may publish and has held nothing but the empty value publishes it over another if and only if its baseline is another, and then that is a text of the file that it read as empty |
| SharedStore.UnreadableIsWiped | package/contents/ui/SharedStore.qml:141-161 | a run in which a widget that has held nothing but the empty value publishes it over a value it reads as empty |
| SharedStore.NeverAhead | package/contents/ui/SharedStore.qml:102-167 | with writes landing at once no widget is ever ahead of the file, and the revision never falls |
| Convergence.FewPublishes | package/contents/ui/SharedStore.qml:102-167 | after the last edit the file is written at most twice, with nothing but some widget's value or another spelling of what was shared; the second time it is another spelling of the first |
| Convergence.OnePublish | package/contents/ui/SharedStore.qml:102-167 | at most once if the widgets' own values are in their own spelling, whatever the file holds, and then the file's value is in it too |
| Convergence.CalmStays | package/contents/ui/SharedStore.qml:102-167 | while whoever agrees with the file's revision holds its value, in its own spelling, nothing is written until the next edit |
| Convergence.Agreement | package/contents/ui/SharedStore.qml:102-167 | after two rounds of synchronisation (three if the file is not in its own spelling, four if a widget's value is not) all widgets hold the file's value and nothing moves any more |
| Convergence.AgreementAnyway | package/contents/ui/SharedStore.qml:102-167 | from any state without writes under way, widgets ahead of the file or waiting for lost writes included: after a round past their 5 s and six or seven rounds in all, the same |
| Convergence.FourRoundsHappen | package/contents/ui/SharedStore.qml:102-167 | a run that takes two publications and four rounds |
| SharedStore.EditFate | package/contents/ui/SharedStore.qml:102-161 | at every synchronisation, exactly when an edit is published, when it waits for a write to land, and when it is replaced, and by which spelling of the shared value |
| SharedStore.AwaitedEditFate | package/contents/ui/SharedStore.qml:109-161 | over all following synchronisations, what becomes of an edit made while a write is awaited, whether that write lands or is lost |
| SharedStore.AwaitedEditBothWays | package/contents/ui/SharedStore.qml:109-167 | such an edit ends in the file after a lost write, and is gone after one that lands |
| SharedStore.LostWriteIsRetried | package/contents/ui/SharedStore.qml:109-126 | a write that does not land is awaited for 5 s and no longer, then published again |
| SharedStore.RepublishesIffRespelled | package/contents/ui/SharedStore.qml:94-161 | an adopted value is published again if and only if its canonical spelling differs |
| SharedStore.CrossedHappens | package/contents/ui/SharedStore.qml:163-167 | two widgets can write the same revision at once |
| SharedStore.LateWriteGoesBack | package/contents/ui/SharedStore.qml:163-167 | and a write that lands late takes the file back behind a widget |
| SharedDestinations.PublishedListsStay | package/contents/ui/main.qml:214-231 | a published list that is read back as written is its own adoption if and only if its numbers are finite, and always from the second spelling on |
| SharedDestinations.DestinationsGuardIff | package/contents/ui/main.qml:214-231 | for destinations the start-up guard holds over all runs within a set of file texts if and only if each of them has destinations in it or is `[]` as widgets write it |
| SharedDestinations.WrittenListsAreSafe | package/contents/ui/utils.js:82-118 | so no file of lists that are read back as written is ever wiped by a widget that has had no destinations |
| SharedDestinations.UnreadableListIsWiped | package/contents/ui/utils.js:82-109 | a file that holds no list defeats the guard for destinations |
| Canonical.CanonicalDestinations | package/contents/ui/utils.js:82-109 | the loop builds the canonical form |
| Canonical.CanonicalIsFixedPoint | package/contents/ui/utils.js:82-109 | the canonical spelling of a canonical spelling is itself if and only if all numbers were finite |
| Canonical.MissingIsFilled | package/contents/ui/utils.js:82-109 | a list is spelt as the one with everything missing filled in |
| Canonical.CompleteIsRead | package/contents/ui/utils.js:82-104 | a complete entry is read field by field |
| Canonical.CanonicalAscends | package/contents/ui/utils.js:105-107 | finite orders ascend, and equal ones go by id |
| Canonical.EndlessIsRespelt | package/contents/ui/utils.js:82-109 | a destination with an infinite order is spelt with `null` first and with 0 the second time |
| Canonical.OrderBlindIffNoTies | package/contents/ui/utils.js:82-109 | with explicit finite orders all arrangements of a list are spelt alike if and only if no two different entries tie on (order, id) |
| Canonical.SortStable | package/contents/ui/utils.js:105-107 | entries that tie keep their order |
| Canonical.SortCounts | package/contents/ui/utils.js:105-107 | sorting loses and invents nothing |
| Transfer.ImportDocument | package/contents/ui/utils.js:137-200 | the loop computes the import, and refuses exactly what holds no list |
| Transfer.ImportAccounts | package/contents/ui/utils.js:137-200 | kept, skipped and dropped add up; the result is the first usable entries up to the maximum, numbered from 1, with distinct ids and every field in range |
| Transfer.KeptFields | package/contents/ui/utils.js:158-195 | each field of a kept entry, with its default when missing or out of range |
| Transfer.IdGiven | package/contents/ui/utils.js:168-172 | an entry keeps its own id unless it has none or the id is taken or inherited |
| Transfer.TrimTakesSpaces | package/contents/ui/utils.js:160-161 | trimming takes white space from both ends and nothing else |
| Transfer.RoundedIsNearest | package/contents/ui/utils.js:192-193 | numbers are rounded to the nearest whole one, up in the middle |
| Transfer.ExportThenImport | package/contents/ui/utils.js:126-200 | importing an export gives the same canonical form if and only if that form is importable |
| Transfer.InheritedIdChanges | package/contents/ui/utils.js:156-172 | a destination with the id `constructor` and nothing else wrong comes back under another id |

## Left out

- How numbers that are not whole or not below 9e15 in magnitude are written and read: `%.10g` and `std::stod` are functions given to the printer and the parser, the latter exact on integer tokens. The round trips are about documents whose numbers are printed as tokens that `std::stod` reads to the end, which leaves out infinities and NaN.
- `Json` accessors, `toInt` rounding, the clamps of `loadClientFile` (preconditions here) and the overall counts in the state document.
- Sockets, `getaddrinfo`, epoll, inotify, signals, file locking and file replacement: their results are inputs. The eventfd is taken to be open.
- Wrap-around of the 32-bit `uid` and `sequence`, and of 64-bit times.
- `lastError`, log lines, wall-clock times and the readable copy of the state file.
- `m_stop` of the resolver and the joining of its thread.
- Monitor.Monitor.HandleResolutions: drains the resolver in one piece; the worker's steps between the two halves of `collect` are in `System`.
- Turns.RunProgress: assumes that clock readings never go back, also from one turn to the next. What `System` and `Interleaving` take as one step of the loop (one prober's turn of the tick, all replies, one reload) is not interrupted.
- LastingVerdicts.RunKeepsVerdict: is about unique client ids in the old configuration, and about destinations that a reload finds again under the same client, id and address; a changed threshold or sensitivity keeps the state but not the reading of the history.
- SharedStore.NeverAhead: assumes writes that land before the next step and a file that nobody else modifies; the same goes for the theorems of `Convergence` (of those, `AgreementAnyway` takes widgets as they are and gives every wait its 5 s), which are about values that a second adoption leaves alone, as it does all published lists (`SharedDestinations.PublishedListsStay`).
- The appearance settings' own spelling: `"{}"`, their empty value, is never a spelling of theirs, so the start-up guard does not come into play for them.
- `Qt.btoa` and `Qt.atob`: what they make of a text besides base64 is a parameter of the file. The theorems about many widgets take it that shared texts come back unchanged, and the shell that carries out a write is not modelled.
- JSON texts of destination lists: `JSON.stringify` and `JSON.parse` are modelled by what they spell. `localeCompare` is any total preorder, and sorting is stable as the language requires; where an order is not a number the engine's order is one of several possible.
- `Math.random` in `newId`: new ids are given, assumed to be fresh.
- All visual QML, addresses' syntax, colours, shell quoting and the appearance settings.
