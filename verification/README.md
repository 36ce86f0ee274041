# Verified core of mahoquot-proxy

A Dafny model of the gateway's stateful and wire-level cores, with proofs of what each of them promises over
all inputs and all runs. `dafny verify dfyconfig.toml` checks everything.

The model follows the Rust source's own form. Loops are methods with invariants, locked or atomic state is a
class whose methods state the whole new state, and an array sorted in place stays an array. Each method is tied
to a specification function; the theorems are about these functions. Concurrent code is also modelled as a
state machine whose events are the sections that run under one lock (or one atomic access), and the theorems
then speak about every run.

| component | modules | central results |
|---|---|---|
| mDNS discovery | `Utf8`, `DnsName`, `DnsPacket`, `DnsResponse`, `DnsMerge` | the decoder finds the meaning of a compressed name; print/parse/merge round trip; RDATA expansion preserves names |
| monthly budget | `CivilCalendar` | the day arithmetic is the Gregorian calendar; the month start is the first instant of the month |
| AI Studio relay | `WorkerRelay` | ownership, single answers and final disconnects over every run |
| credential refresh | `RefreshCommit` | a commit is a three-way merge; a grant is consumed at most once |
| interactions | `ContinuationStore`, `Continuations`, `StreamObserver` | the bounded store refines a map; exact matching of results; the grammar of every stream |
| Home | `Resp`, `HomeClient`, `HomeDispatch` | the command codec is injective; no credential is lost without the fence; the newest snapshot wins |
| reset order | `Sorting`, `ResetOrder` | ranks follow resets, cached ranks stay right, reordering is a stable sort in the Claude slots |
| session affinity | `AffinityStore`, `AffinityPersistence` | trimming is an order statistic; a quiet snapshot loses nothing |
| Cline usage | `ClineWindow` | resets lie ahead, usage is the sum of the window, a cap holds until its reset |

`Bytes`, `Decimal`, `FiniteSets`, `Json`, `Options` and `Sequences` hold shared notions.

Text is its UTF-8 octets wherever the source inspects octets, and `string` elsewhere. Random identifiers,
clocks, network results and digests are parameters or events: generations and request identifiers are new when
drawn, and the digest of a set of call identifiers is the set itself.

Where the source does not meet the first wording of a property, the model keeps the code as it is, shows an
input that fails and proves the exact condition:

- names come back from print and read if and only if they are the root or have at most 127 parts, none empty,
  each at most 63 octets long, or of 64 or 65 octets with a final replacement character, which the lossy
  conversion restores (`DnsName.NameRoundTrip`, `DnsName.DoubledDotIsLost`);
- a stream announces itself if and only if its first frame is acceptable, and otherwise only fails
  (`StreamObserver.StreamOpensExactly`, `StreamObserver.SomeStreamsNeverOpen`);
- a trim reaches its cap if and only if no tie of times crosses the cap (`AffinityStore.TrimRespectsCap`,
  `AffinityStore.TiesExceedCap`);
- a cap is kept until its reset if and only if no observation wraps the 64-bit counter past the budget
  (`ClineWindow.CapHoldsUntilReset`, `ClineWindow.CounterWraps`);
- a write that fails, that lands after a newer one, or that overlaps another in the one temporary file is not
  announced again (`AffinityPersistence.FailedWriteIsForgotten`, `AffinityPersistence.OvertakenWriteIsStale`,
  `AffinityPersistence.OverlappingWritesMix`); a quiet store's file answers as the store does if and only if what is
  read from it trims to the bindings of the newest snapshot (`AffinityPersistence.QuietDiskIsComplete`), and it holds
  one whole snapshot when writes take turns (`AffinityPersistence.TurnsLandWhole`);
- reset ranks count without gaps if and only if no two subscription members share an identifier
  (`ResetOrder.RanksNumberSubscriptions`, `ResetOrder.RepeatedMemberLeavesGap`).

Assumptions of the run theorems, stated in the `Enabled` predicates:

- relay: a generation is drawn once, a request identifier once;
- refresh: token endpoints issue access tokens that were not stored before, other writers do not put back
  replaced tokens, a file of type generic is never loaded as a Vertex account, and the lock is held from reading
  the file to replacing it;
- affinity, in the clauses that name `TimesAscend`: a clock that does not go back. The persistence runs assume
  nothing about times or about how writes interleave, only that a serialized map is read back as itself, which
  `AffinityPersistence.FileRoundTrip` proves for its keys;
- continuations: nothing about times; the sharper bound of `StoreRefinesMap` names its own clock condition;
- dispatch: the server answers a pop with the whole credential, possibly empty and of at most 2^63 - 1 octets, as
  one bulk, or with octets of its own; connections may cut the answer anywhere. Only
  `HomeDispatch.HonestServerDeliversPops` asks that the octets of its own are no value.

## Model

| member | source | states |
|---|---|---|
| DnsName.EncodeDnsName | crates/gateway/src/discovery.rs:972-982 | the loop over dot-separated parts prints each non-empty part, cut at 63 octets, behind its length, and then the root label |
| DnsName.DecodeDnsNameChecked | crates/gateway/src/discovery.rs:988-1036 | the loop with its list of visited positions ends on every buffer and offset, pointer cycles included, and returns the name's meaning, a definition that follows at most 128 positions and knows no visited list |
| DnsName.CycleHasNoMeaning | crates/gateway/src/discovery.rs:996-1018 | a position that leads back to itself has no meaning for any number of inspected positions, so refusing a repeated position loses no name |
| DnsName.MeaningfulTrailIsDistinct | crates/gateway/src/discovery.rs:996-1018 | reading a name that has a meaning never inspects a position twice |
| DnsName.NameAtBounds | crates/gateway/src/discovery.rs:1000-1036 | a decoded name ends strictly past its start and inside the buffer |
| DnsName.NameAtEncoded | crates/gateway/src/discovery.rs:972-1036 | what any printed name reads as, anywhere in any packet: its non-empty parts, cut at 63 octets and made well-formed again; nothing when there are 128 or more |
| DnsName.NameRoundTrip | crates/gateway/src/discovery.rs:972-1036 | printing then reading returns the same name and the offset behind it if and only if the name is the root or has at most 127 parts, none empty, each at most 63 octets long or of 64 or 65 octets with a final replacement character |
| DnsName.LongRereads | crates/gateway/src/discovery.rs:972-1036 | a well-formed label over 63 octets reads back as itself if and only if it has 64 or 65 octets and ends in a replacement character |
| DnsName.DoubledDotIsLost | crates/gateway/src/discovery.rs:972-982 | `a..b` is well-formed text that does not survive the trip |
| DnsName.PlainNameSurvives | crates/gateway/src/discovery.rs:988-1036 | a name spelled by dot-free well-formed labels, with whatever pointers, reads as those labels joined and survives being printed again |
| DnsName.CompressedRoundTrip | crates/gateway/src/discovery.rs:988-1036 | labels followed by the two pointer octets of section 4.1.4 of RFC 1035 read as those labels in front of the name printed at the pointer's target, ending right after the pointer; nothing when labels, pointer and parts are more than 127 |
| DnsName.NameAtIsText | crates/gateway/src/discovery.rs:1025-1036 | every decoded name is well-formed UTF-8 |
| Utf8.LossyIsValid | crates/gateway/src/discovery.rs:1029-1030 | the lossy conversion of labels always yields well-formed text |
| Utf8.LossyOfValid | crates/gateway/src/discovery.rs:1029-1030 | it changes nothing on well-formed text |
| Utf8.LossyOfCut | crates/gateway/src/discovery.rs:1029-1030 | cutting well-formed text anywhere and converting it keeps the whole characters and puts one replacement for a character cut through |
| Utf8.CharIsScalar | crates/gateway/src/discovery.rs:1029-1030 | every character counted as well-formed is the shortest form of one Unicode scalar value, so no surrogate and no overlong form |
| Utf8.ScalarIsChar | crates/gateway/src/discovery.rs:1029-1030 | the octets of every scalar value are counted as one well-formed character |
| DnsPacket.ParseDnsPacket | crates/gateway/src/discovery.rs:1062-1151 | header, question loop and record loop with their three ways to stop compute the recursive reading of the packet |
| DnsPacket.ParseQuestions | crates/gateway/src/discovery.rs:1075-1094 | the question loop, ended by its count, by the end of the packet or by a bad name, is the recursive reading of the section |
| DnsPacket.ParseRecords | crates/gateway/src/discovery.rs:1095-1143 | the record loop reads owner, fixed fields and RDATA of each record as the recursive definition does |
| DnsPacket.AcceptedPacketFits | crates/gateway/src/discovery.rs:1062-1151 | 12 + 5 * questions + 11 * answers never exceeds the length of an accepted packet |
| DnsPacket.ExpansionPreservesName | crates/gateway/src/discovery.rs:1118-1134 | decoding the stored self-contained RDATA alone gives the name which the packet's pointers spell, ending at the RDATA's end, if and only if that name survives printing |
| DnsPacket.ExpandedRdataKeepsMeaning | crates/gateway/src/discovery.rs:1062-1151 | for every PTR and SRV record of every accepted packet, at its own offset: the stored RDATA read alone gives the name that the packet's pointers spell in that record if and only if it survives printing; targets made of dot-free well-formed labels always do |
| DnsResponse.BuildMdnsResponse | crates/gateway/src/discovery.rs:1173-1278 | the appended header, PTR, SRV, TXT, A and AAAA sections are the printed form of the advertised record list |
| DnsResponse.BuildMdnsQuery | crates/gateway/src/discovery.rs:1153-1170 | the appended octets are the printed form of one PTR question |
| DnsResponse.ResponseRoundTrip | crates/gateway/src/discovery.rs:1062-1278 | parsing a printed response gives exactly PTR, SRV and TXT and then all A and AAAA records, in order, with names, class, TTL and data |
| DnsResponse.QueryRoundTrip | crates/gateway/src/discovery.rs:1062-1170 | parsing a printed query gives exactly one question: PTR, class IN, for the service |
| DnsResponse.CompressedTargetRead | crates/gateway/src/discovery.rs:1095-1143 | a PTR or SRV record whose target is written as labels and a pointer is read with the target spelled out and all its other fields |
| DnsResponse.AllSectionsRead | crates/gateway/src/discovery.rs:1062-1151 | records printed into the answer, authority and additional sections all come back, in that order |
| DnsMerge.MergeDiscoveredServices | crates/gateway/src/discovery.rs:1945-2077 | the two loops over records and SRV entries update the service map to the merge of what was gathered, one entry per instance |
| DnsMerge.ParseTxtRecords | crates/gateway/src/discovery.rs:459-475 | the loop over the lines builds the map whose content `LastLineWins` describes |
| DnsMerge.LastLineWins | crates/gateway/src/discovery.rs:459-475 | a key is in the map if and only if it is not empty and some line has it after normalizing, and it holds the value of the last such line |
| DnsMerge.LineSplits | crates/gateway/src/discovery.rs:459-475 | a line is split at its first equals sign; without one it is a key with an empty value |
| DnsMerge.ReadTextLines | crates/gateway/src/discovery.rs:1974-1989 | the offset loop over TXT RDATA yields the length-prefixed strings up to the first one that does not fit |
| DnsMerge.GatheredAre | crates/gateway/src/discovery.rs:1955-2007 | whatever records arrive, the last SRV and TXT record of a name count, and all its A and AAAA addresses in order |
| DnsMerge.ShortNameOfInstance | crates/gateway/src/discovery.rs:2009-2012 | the file name of an advertised instance is its part before the first dot, the whole name if and only if it has no dot |
| DnsMerge.ResponseIsRediscovered | crates/gateway/src/discovery.rs:1062-1278 | build, parse and merge compose: known services stay as they were and the advertised one appears with the same port, addresses in order and TXT map, under its own name if and only if that name is dot-free |
| CivilCalendar.DayRoundTrip | crates/gateway/src/claude_budget.rs:31-52 | `days_from_civil` inverts `civil_from_days` on every integer, and the date in between has a valid month and day |
| CivilCalendar.DateRoundTrip | crates/gateway/src/claude_budget.rs:31-52 | the converse on every valid Gregorian date |
| CivilCalendar.CivilFollowsCalendar | crates/gateway/src/claude_budget.rs:31-42 | day z + 1 is the calendar's next day after day z, with leap years and month lengths defined independently |
| CivilCalendar.CivilIsTheCalendar | crates/gateway/src/claude_budget.rs:31-42 | any numbering of dates that has 1970-01-01 at 0 and respects the next day agrees with `civil_from_days` on every day number |
| CivilCalendar.MonthStartBounds | crates/gateway/src/claude_budget.rs:24-28 | month start <= now < start of the following month |
| CivilCalendar.MonthStartIsFirstInstant | crates/gateway/src/claude_budget.rs:24-28 | `month_start_utc_ms` is midnight on the first of the month that contains `now`, monotone, constant within a month and different between months |
| WorkerRelay.Relay.Insert | crates/gateway/src/aistudio.rs:92-107 | connecting replaces the worker's entry, and nothing else, with a new generation |
| WorkerRelay.Relay.Admit | crates/gateway/src/aistudio.rs:369-389 | a request enters the table under the current session of its worker, unless there is none or 1024 wait |
| WorkerRelay.Relay.Dispatch | crates/gateway/src/aistudio.rs:401-454 | a frame answers or updates only what belongs to the session that sent it |
| WorkerRelay.Relay.Disconnect | crates/gateway/src/aistudio.rs:455-478 | the worker's entry goes only if it still is this session's, and all of the session's requests are answered in the same step |
| WorkerRelay.Relay.Release | crates/gateway/src/aistudio.rs:39-46 | dropping the guard removes the request whatever became of it |
| WorkerRelay.AnswerAll | crates/gateway/src/aistudio.rs:466-478 | the loop of disconnect answers each of the session's requests once |
| WorkerRelay.RelaySafety | crates/gateway/src/aistudio.rs:355-478 | over every run: at most 1024 pending, each for a session that is still connected; every answer comes from the worker and generation of admission; no request is answered twice; each admitted request is waiting, answered or given up |
| WorkerRelay.AnswersAreCaused | crates/gateway/src/aistudio.rs:401-478 | over every run an answer is delivered if and only if a step fits it while the request waits: a worker's final message with its payload answers as itself, a stream frame as an invalid response, the session's end as a disconnect |
| WorkerRelay.WaitingEnds | crates/gateway/src/aistudio.rs:433-478 | a request stops waiting if and only if such a step answers it or its caller gives up; any other message leaves it waiting |
| WorkerRelay.CurrentSessionIs | crates/gateway/src/aistudio.rs:92-107 | over every run a worker's session is the one that connected last, unless that one has disconnected |
| WorkerRelay.AdmittedToCurrent | crates/gateway/src/aistudio.rs:369-389 | over every run a request is admitted if and only if its worker has such a session and fewer than 1024 wait, and then it waits for that session |
| WorkerRelay.CatalogOfCurrent | crates/gateway/src/aistudio.rs:401-432 | a catalog counts only from the worker's current session, which it leaves with the listed names |
| WorkerRelay.CollectNames | crates/gateway/src/aistudio.rs:415-424 | the loop over catalog rows yields the first 256 usable names |
| WorkerRelay.ListedRows | crates/gateway/src/aistudio.rs:415-424 | a catalog lists its usable rows in order, at most 256 |
| WorkerRelay.DisconnectIsFinal | crates/gateway/src/aistudio.rs:455-478 | after a completed disconnect no run, including one that replaces the worker under the same identifier, ever has a request of that session pending again |
| WorkerRelay.SessionsAreIsolated | crates/gateway/src/aistudio.rs:401-478 | a step of one session leaves requests, answers and catalog of every other session unchanged, even under the same worker identifier |
| RefreshCommit.CredentialFile.CommitRefresh | crates/gateway/src/account.rs:2625-2742 | the key-by-key loops replace the file by the merge, or report a conflict and leave the file alone |
| RefreshCommit.CommitIsThreeWayMerge | crates/gateway/src/account.rs:2640-2720 | a commit succeeds if and only if the file is an object that agrees with the snapshot on every identity key; each key then has the refresh's value where the refresh may and did change it, and the file's value otherwise |
| RefreshCommit.CommitWithoutEdits | crates/gateway/src/account.rs:2640-2720 | without a concurrent edit the file equals the candidate on writable keys and itself elsewhere |
| RefreshCommit.EditsCommuteWithCommit | crates/gateway/src/account.rs:2640-2720 | an edit of keys the refresh does not touch, before or after the commit, ends in the same file |
| RefreshCommit.CommitReplacesGrant | crates/gateway/src/account.rs:2527-2551 | a successful commit found its own snapshot's grant in the file and leaves one with the new token |
| RefreshCommit.CandidateWrites | crates/providers/src/refresh_exec.rs:180-235 | every key of a refreshed credential: access token by type, rotated refresh token and identity token if issued, the two times, a timestamp of the kind that was there, and the snapshot's value elsewhere |
| RefreshCommit.RefreshedFileMayRefresh | crates/gateway/src/account.rs:2527-2551 | the next refresh starts from a refreshed file if and only if the loaded account has its new access token and, except for Vertex, its refresh token |
| RefreshCommit.GrantsAreConsumedOnce | crates/gateway/src/account.rs:2527-2720 | over every interleaving of refreshes and lock-holding writers no stored grant is consumed by two successful commits, the file never again holds a consumed grant, and a refresh in flight sends the token of its snapshot |
| RefreshCommit.CommitInvalidatesSnapshot | crates/gateway/src/account.rs:2640-2680 | after one commit every refresh that started from the same tokens conflicts |
| ContinuationStore.InteractionsStore.Put | crates/gateway/src/interactions.rs:64-76 | expired entries go, and at 1024 live entries one that expires first makes room for a new key |
| ContinuationStore.InteractionsStore.Get | crates/gateway/src/interactions.rs:77-82 | returns the live entry of the key and drops expired ones |
| ContinuationStore.StoreRefinesMap | crates/gateway/src/interactions.rs:63-83 | over every run, whatever the times, the store holds at most 1024 entries and answers only the unbounded map's last put of the key while it is valid; a valid put is missing only if an operation dropped it, past its expiry by that operation's time or behind 1023 others for a new key; with a steady clock, only if 1024 other keys expire no earlier |
| Continuations.CallKey | crates/gateway/src/interactions.rs:50-61 | yields the set of identifiers, and fails if and only if there is none, or one is empty, contains NUL or repeats |
| Continuations.Save | crates/gateway/src/interactions.rs:634-689 | files a completed turn under its identifier and, if it has calls, under their set; an error leaves the store untouched |
| Continuations.SavedExactly | crates/gateway/src/interactions.rs:634-689 | a turn is filed if and only if it is final and its identifiers are in order, under its own identifier and then its calls, for half an hour |
| Continuations.SavedTurnKeeps | crates/gateway/src/interactions.rs:634-689 | a filed turn holds the history followed by the model's parts as one message, the interaction's environment or else the turn's, and the calls among its steps |
| Continuations.CallsInConcat | crates/gateway/src/interactions.rs:640-646 | picking the calls out of the steps distributes over concatenation |
| Continuations.Prepare | crates/gateway/src/interactions.rs:152-229 | rewrites the request body, or refuses it, as the recursive definition over its input says; the store only loses expired entries |
| Continuations.MatchIsExact | crates/gateway/src/interactions.rs:152-229 | a request matched to a turn with pending calls carries results for exactly those identifiers, none missing, extra or twice, from the same namespace, and names that turn if it names one |
| Continuations.ExactResultsMatch | crates/gateway/src/interactions.rs:152-229 | results for exactly the pending calls of a filed, unexpired turn, in any order, are matched to that turn and go upstream in the order in which they came, with the rest of the body kept and completed for a native upstream, also when the request names the turn and it is found by its identifier; a translated request is refused only for a call without a name |
| Continuations.PlainTurnIsContinued | crates/gateway/src/interactions.rs:159-177 | a request that names a turn without calls is passed on unchanged but for the turn's environment where it has none |
| Continuations.NamedResultsKeepOrder | crates/gateway/src/interactions.rs:213-226 | results keep their order; each keeps all its keys and gets the name of the call whose identifier it answers; the only failure is a call without a name |
| Continuations.CallIsUnique | crates/gateway/src/interactions.rs:213-226 | with good identifiers a result answers one call only, so the name it gets is determined |
| Continuations.RunIsFiled | crates/gateway/src/interactions.rs:634-689 | in every run of saved turns and lookups the store files each turn under its own identifiers only |
| Continuations.CompletedTurnIsContinued | crates/gateway/src/interactions.rs:50-229 | over every run of saved turns and lookups, whatever the times: a request that answers exactly the calls of a turn last filed under them, and names that turn or none, continues it, unless the turn expired or was dropped, or a translated call has no name; a request that names the turn is also refused when the turn filed last under that name is gone, and answered with it when it is a later one without calls |
| StreamObserver.Observer.Accept | crates/gateway/src/interactions.rs:712-825 | one upstream frame updates the observer and yields its events, or an error, without touching the store |
| StreamObserver.Observer.Finish | crates/gateway/src/interactions.rs:827-860 | the end of the stream completes and files the turn, or fails it |
| StreamObserver.FrameRead | crates/gateway/src/interactions.rs:712-825 | an accepted frame's events continue the trace grammar from where the last frame left it |
| StreamObserver.FrameAccepted | crates/gateway/src/interactions.rs:712-825 | a frame is accepted if and only if it is the closing mark, or JSON within the remaining size, without an error and with supported parts only |
| StreamObserver.StreamFollowsGrammar | crates/gateway/src/interactions.rs:712-930 | every stream, whatever its frames and its end, only fails, or emits created once and first, steps 0, 1, 2, ... each started, sent and stopped, and last either one completed event with exactly those steps or a failure; the store is written if and only if it ends in completed |
| StreamObserver.StreamShowsParts | crates/gateway/src/interactions.rs:712-825 | over every accepted stream the steps and events show the arrived parts, one for one, in order and field by field: identifier, name, arguments and signature of a call, text and kind, MIME type, data and address of media, and the deltas that carry them |
| StreamObserver.CompletedShowsStream | crates/gateway/src/interactions.rs:827-860 | the completed interaction has the identifier and usage reported last and those steps, and requires an action if and only if a function call arrived |
| StreamObserver.StreamCompletesExactly | crates/gateway/src/interactions.rs:634-930 | a stream completes and files its turn if and only if it ends properly, every frame is acceptable, one has a finish reason, and its identifiers are in order |
| StreamObserver.StreamOpensExactly | crates/gateway/src/interactions.rs:712-745 | the first event is created if and only if the first frame that is not the closing mark is JSON within the size limit, reports no error and has only supported parts; otherwise the trace is one failure |
| StreamObserver.SomeStreamsNeverOpen | crates/gateway/src/interactions.rs:712-745 | a stream without frames and one whose first frame is not JSON send nothing but a failure |
| StreamObserver.GrammarEnds | crates/gateway/src/interactions.rs:712-860 | in such traces only the first event is created and only the last is completed or failed |
| StreamObserver.GrammarNumbersSteps | crates/gateway/src/interactions.rs:739-800 | the index of a started step is the number of steps started before it |
| StreamObserver.PublishedTurnIsWhole | crates/gateway/src/interactions.rs:634-861 | a stream that writes the store had every frame accepted and a finish reason, and the parts of the filed turn are those that arrived, in order, each as `KeptIsFaithful` describes |
| StreamObserver.FiledTurnHolds | crates/gateway/src/interactions.rs:634-689 | what a completed stream files: the conversation followed by the message with the arrived parts, under its namespace, owner and reported identifier |
| StreamObserver.KeptIsFaithful | crates/gateway/src/interactions.rs:750-775 | a part is kept unchanged, except that a function call without an identifier gets one |
| StreamObserver.StreamedTurnIsContinued | crates/gateway/src/interactions.rs:152-229 | the calls of a streamed turn always have names, so a request that answers exactly them continues the turn, unless it expired or was dropped, or the request names it and a later turn of that name is gone or asks for nothing |
| Resp.EncodeRespCommandBytes | crates/gateway/src/home.rs:470-480 | the loop appends the array line and one bulk per argument, whatever octets it holds |
| Resp.Reader.ReadRespBulk | crates/gateway/src/home.rs:482-522 | one reply is consumed and classified: data, nil, I/O error or protocol error, with exactly what remains |
| Resp.ParseOfPrinted | crates/gateway/src/home.rs:470-498 | printing and parsing a length are inverse on the 64-bit range |
| Resp.BulkRoundTrip | crates/gateway/src/home.rs:470-522 | a printed bulk reads as its own octets, CRLF included, and leaves what follows it |
| Resp.CommandRoundTrip | crates/gateway/src/home.rs:470-522 | the array line announces the right count and that many bulk reads return exactly the command and its arguments and consume exactly the encoding |
| Resp.CommandIsInjective | crates/gateway/src/home.rs:470-480 | equal octets, even with something after them, come from the same command and arguments |
| Resp.LineReply | crates/gateway/src/home.rs:509-520 | a status and an integer line read as their text, any other one-line reply as a protocol error, and what follows is left |
| Resp.CutReplyIsNoticed | crates/gateway/src/home.rs:482-522 | every proper prefix of a bulk reads as an error, never as nil and never as other data |
| HomeClient.HomeClient.AbortAmbiguousDispatch | crates/gateway/src/home.rs:713-718 | fences, marks the ambiguity and stops the heartbeat |
| HomeClient.HomeClient.Close | crates/gateway/src/home.rs:720-723 | fences and stops the heartbeat, without marking an ambiguity |
| HomeClient.HomeClient.RpopAuth | crates/gateway/src/home.rs:1070-1134 | each outcome of a pop, from fence check to reply, with the flags it leaves and the command it hands to the connection, if it gets that far |
| HomeClient.HomeClient.DispatchMember | crates/gateway/src/home.rs:985-1030 | a popped credential becomes a member, or the client is fenced; the command handed to the connection is that of the pop |
| HomeClient.DecodedOfAnswer | crates/gateway/src/home.rs:985-1030 | an answer made for a member, wherever it gives the provider and with or without model and account tuple, decodes to that member |
| HomeClient.HomeClient.ApplyAuthoritativeSnapshot | crates/gateway/src/home.rs:911-959 | replaces revision, configuration and models together if and only if the snapshot is sound and newer; stale and broken ones change nothing |
| HomeClient.RevisionIs | crates/gateway/src/home.rs:921-926 | a configuration's revision is its 64-bit `revision`, else its 64-bit `rev` |
| HomeClient.NewestSnapshotIsHeld | crates/gateway/src/home.rs:911-959 | after any sequence of snapshots the held configuration and models come from one snapshot and no sound one is newer |
| HomeClient.SnapshotOrderIsIrrelevant | crates/gateway/src/home.rs:911-959 | arrival order does not matter when a revision identifies its snapshot |
| HomeDispatch.PoppedReply | crates/gateway/src/home.rs:985-1134 | a popped credential reaches its caller, with no flag changed, if and only if its whole reply arrived and it is not empty and usable; otherwise the client is fenced |
| HomeDispatch.EveryPopIsAccounted | crates/gateway/src/home.rs:713-1134 | over every interleaving of dispatches and every cut of replies: each credential that left the server is in flight, reached exactly one caller unchanged, or the client is fenced |
| HomeDispatch.HonestServerDeliversPops | crates/gateway/src/home.rs:1070-1134 | if the server answers no value of its own, callers receive popped credentials and nothing else |
| HomeDispatch.FenceIsFinal | crates/gateway/src/home.rs:730-1134 | a raised fence stays up in every run, and only calls already past every check still send a command, one each |
| HomeDispatch.FencedExactly | crates/gateway/src/home.rs:713-1134 | over every run the client ends up fenced if and only if it was, someone closed it, a command could not be written, or a reply arrived that is neither nil nor a whole, non-empty, usable credential; the last two and nothing else mark the ambiguity, so a failure to connect never fences; the heartbeat is down after any of these until the sync worker reports again |
| HomeDispatch.CallIsRun | crates/gateway/src/home.rs:839-1134 | for all flags and answers, the flags a call leaves, what it returns and whether it writes a command are those of the protocol's events for one call |
| HomeDispatch.RefusedPopTakesNothing | crates/gateway/src/home.rs:1082-1112 | a fenced, blank or unreachable pop answers the error that says so, writes nothing and changes nothing |
| HomeDispatch.NilDeclines | crates/gateway/src/home.rs:1113-1134 | the nil reply carries no data however it is cut, and read whole it does not fence |
| ResetOrder.RanksNumberSubscriptions | crates/gateway/src/claude_reset_order.rs:44-63 | ranks name exactly the subscription members' identifiers and differ between them; they count from 0 without gaps if and only if no two subscription members share an identifier |
| ResetOrder.RepeatedMemberLeavesGap | crates/gateway/src/claude_reset_order.rs:44-63 | a subscription member that stands in the pool twice leaves a gap in the ranks |
| ResetOrder.RanksFollowResets | crates/gateway/src/claude_reset_order.rs:44-63 | one identifier ranks before another if and only if its active window resets sooner, or equally soon and it stands earlier in the pool, where of members with one identifier the one that sorts last counts; members without a window come last |
| ResetOrder.RankOrderByWindows | crates/gateway/src/claude_reset_order.rs:23-63 | in the members' own windows: the earlier reset to come ranks first, at the same reset the earlier place in the pool, and members without one last in pool order |
| ResetOrder.ClaudeResetOrder.Ranks | crates/gateway/src/claude_reset_order.rs:68-92 | answers from the cache until it expires, recomputes otherwise, and holds what it answered |
| ResetOrder.RankingStaysFresh | crates/gateway/src/claude_reset_order.rs:44-92 | at every time before `valid_until` a fresh computation over the same windows gives the cached ranks |
| ResetOrder.CachedRanksAgree | crates/gateway/src/claude_reset_order.rs:68-92 | over every series of calls in time order the answer is less than 30 minutes old and equals the fresh ranking whenever the windows are those it was computed from |
| ResetOrder.RankingExpires | crates/gateway/src/claude_reset_order.rs:68-92 | a ranking is answered until the first reset among the ranked members or for 30 minutes, whichever is sooner, and computed anew by the first call from then on |
| ResetOrder.ReorderClaudeSlots | crates/gateway/src/claude_reset_order.rs:99-126 | the in-place loops leave the array as the specification of the reordering says |
| ResetOrder.ReorderKeepsOtherSlots | crates/gateway/src/claude_reset_order.rs:99-126 | the result is a permutation, every slot of another provider is untouched, and the Claude slots in order are the stable sort of what they held by (nearly spent, rank) |
| ResetOrder.SlotOrderByWindows | crates/gateway/src/claude_reset_order.rs:31-126 | of two slots with subscription members, one with more than 90 percent of a live window used never precedes one without, and otherwise the better rank comes first |
| Sorting.SortByIsStableSort | crates/gateway/src/claude_reset_order.rs:115-121 | the sort orders keys, keeps elements and keeps the order of equal keys |
| Sorting.StableSortIsUnique | crates/gateway/src/claude_reset_order.rs:115-121 | these three facts determine the result, so any stable sort computes it |
| AffinityStore.Trim | crates/gateway/src/affinity_store.rs:127-135 | the retain, sort and cutoff passes leave exactly the live bindings that fewer than `cap` live ones outdate |
| AffinityStore.TrimDropsOldest | crates/gateway/src/affinity_store.rs:127-135 | every live binding that a trim drops is strictly older than every one it keeps |
| AffinityStore.TrimKeepsEnough | crates/gateway/src/affinity_store.rs:127-135 | at least min(cap, live) bindings stay |
| AffinityStore.TrimRespectsCap | crates/gateway/src/affinity_store.rs:127-135 | a trim gets down to the cap if and only if no tie of times crosses it |
| AffinityStore.TiesExceedCap | crates/gateway/src/affinity_store.rs:127-135 | any number of bindings used in one second survive a trim, so the cap alone does not bound the store |
| AffinityStore.DistinctTimesRespectCap | crates/gateway/src/affinity_store.rs:127-135 | with distinct times the cap holds |
| AffinityStore.TrimComposes | crates/gateway/src/affinity_store.rs:127-135 | trimming at two times in order is trimming once at the later |
| AffinityStore.PutKeepsOwnBinding | crates/gateway/src/affinity_store.rs:87-100 | a put keeps its own binding if and only if fewer than `cap` live bindings carry a later time |
| AffinityStore.AnsweredForSixHours | crates/gateway/src/affinity_store.rs:80-85 | a binding is answered for exactly six hours after its use |
| AffinityStore.PutTrimsAbove20000 | crates/gateway/src/affinity_store.rs:87-100 | a put drops nothing up to 20000 sessions and trims to 20000 beyond |
| AffinityStore.StoreAnswersLastPut | crates/gateway/src/affinity_store.rs:80-100 | over every run of puts and trims after a load, a lookup answers the last put's account, in the file or since, within the time limit or nothing; with a clock that does not go back nothing only for a key never put, expired, or followed by puts of `cap` other keys |
| AffinityStore.LastPutIsFound | crates/gateway/src/affinity_store.rs:80-100 | with a clock that does not go back the latest put is found while it is live, whatever trims follow it |
| AffinityPersistence.KeyRoundTrip | crates/gateway/src/affinity_store.rs:146-149 | every 64-bit key printed as 16 hexadecimal digits parses back to itself |
| AffinityPersistence.FileRoundTrip | crates/gateway/src/affinity_store.rs:57-152 | reading the file that was serialized from a map, with its hexadecimal keys, gives the map |
| AffinityPersistence.Store.Get | crates/gateway/src/affinity_store.rs:80-85 | answers the account of a binding that is within the time limit |
| AffinityPersistence.Store.Put | crates/gateway/src/affinity_store.rs:87-100 | inserts, trims at capacity and raises the flag |
| AffinityPersistence.Store.SnapshotIfDirty | crates/gateway/src/affinity_store.rs:139-152 | lowers a raised flag and yields the map, trimmed |
| AffinityPersistence.QuietSnapshotIsComplete | crates/gateway/src/affinity_store.rs:57-152 | over every interleaving of puts, snapshotters and writes, with any times, a change that is not in the last snapshot is announced by the flag, by a snapshotter yet to read, or by a put holding the lock; with none of these, loading the serialized file at any time answers every later lookup identically |
| AffinityPersistence.QuietDiskIsComplete | crates/gateway/src/affinity_store.rs:57-215 | with nothing running and all writes ended, however they overlapped or failed, the file answers every later lookup as the store does if and only if what is read from it trims to the same bindings as the newest snapshot |
| AffinityPersistence.TurnsLandWhole | crates/gateway/src/affinity_store.rs:154-215 | when writes take turns with the temporary file, the file always is the whole text of the write that was renamed last |
| AffinityPersistence.FailedWriteIsForgotten | crates/gateway/src/affinity_store.rs:170-183 | a failed write does not raise the flag again: a concrete run ends quiet with a binding that the file lacks |
| AffinityPersistence.OvertakenWriteIsStale | crates/gateway/src/affinity_store.rs:154-183 | two writes side by side can land in the wrong order: a concrete run without failures ends quiet with the older binding in the file |
| AffinityPersistence.OverlappingWritesMix | crates/gateway/src/affinity_store.rs:200-215 | two writes that use the temporary file at once leave the newer text continued by the rest of the older one |
| ClineWindow.ClineDailyTracker.EstimatedResetUnix | crates/gateway/src/cline_usage.rs:74-85 | the override if set, else a day after the window's start, else zero |
| ClineWindow.ClineDailyTracker.RolloverIfLapsed | crates/gateway/src/cline_usage.rs:88-104 | a lapsed window is cleared, any other left alone |
| ClineWindow.ClineDailyTracker.SeedFromHistory | crates/gateway/src/cline_usage.rs:109-123 | the first call seeds a window that has not lapsed, without lowering what was counted or moving an open window; later calls change nothing |
| ClineWindow.ClineDailyTracker.AnchorWindow | crates/gateway/src/cline_usage.rs:126-131 | after rolling over, starts a window at a positive time if none is open |
| ClineWindow.ClineDailyTracker.Observe | crates/gateway/src/cline_usage.rs:136-142 | rolls over, anchors and adds modulo 2^64 |
| ClineWindow.ClineDailyTracker.OnCap429At | crates/gateway/src/cline_usage.rs:150-165 | a past reset changes nothing; otherwise usage is at least the budget, the reset is the one named, and a closed window opens a day before it |
| ClineWindow.ResetLiesAhead | crates/gateway/src/cline_usage.rs:74-165 | in every run with times past the first day, the estimated reset lies in the future after an observation |
| ClineWindow.UsedIsSumOfWindow | crates/gateway/src/cline_usage.rs:88-142 | in observe-only runs the count is the sum, modulo 2^64, of the uses since the window opened, all of them within its 24 hours |
| ClineWindow.CapHoldsUntilReset | crates/gateway/src/cline_usage.rs:150-165 | after a cap with a future reset, the reset stays exact through every mix of observing, anchoring and seeding before it, and the first use at or after it opens a window of its own; usage stays at or above the budget throughout if and only if no observation wraps the counter past the budget |
| ClineWindow.CapHoldsWithinCounter | crates/gateway/src/cline_usage.rs:136-165 | usage stays at or above the budget in particular when all tokens of the run fit 64 bits |
| ClineWindow.CounterWraps | crates/gateway/src/cline_usage.rs:136-142 | one token more than 2^64 - 1 puts a capped account below its budget |
| ClineWindow.CapSurvivesObservation | crates/gateway/src/cline_usage.rs:136-165 | an observation under a cap keeps usage at or above the budget if and only if the counter does not wrap past it |
| ClineWindow.SeedAdds | crates/gateway/src/cline_usage.rs:109-123 | the first seed of a window that has not lapsed raises usage to the larger of both sums and opens a closed window only; every other seed adds nothing |
| ClineWindow.AnchorOpens | crates/gateway/src/cline_usage.rs:126-131 | an open window that has not lapsed stays, any other becomes one that opens now and resets a day later |

## Left out

- The browser emulation in `captcha-solver`, the proxy in `tools`, and `scripts`: semantics outside the code at hand, or process plumbing.
- Sockets, multicast, interface enumeration and responder threads of discovery: operating-system calls.
- `format_instance_name`, the sanitizers and `build_txt_records` of discovery: easy text rules beside the codec.
- Trimming and lower-casing of TXT keys need Unicode tables; `DnsMerge` takes them as the parameter `normalize`.
- The host text of an address and the service fields that are copied out of the TXT map: direct copies.
- The list of PTR instance names that the merge collects is not modelled, because the source never reads it.
- Overflow of 64-bit day and millisecond arithmetic in the calendar: the model uses unbounded integers.
- `BudgetTracker`: fills a map from a database query.
- `WorkerRegistry::request`, `send_and_wait`, `update_catalog` and the list of visible models: they bypass the pending table.
- Committing a refresh without a settings store takes no lock in the source; the model has the lock.
- File writing inside `commit_refresh`: the new content replaces the old one in one step.
- Provider headers, model names and credential loading of accounts: wide and shallow.
- Whether a catalog row is blank text, the concrete message kinds as text, and the payload's structure in the relay: rows are names or nothing, kinds a datatype, payloads text.
- HTTP routing, `namespace` and `parse_request` of interactions, and the observer's native pass-through mode: plumbing.
- Concrete digests, UUIDs and JSON text: sets, fresh identifiers and a JSON datatype with integer numbers stand for them.
- A `functionCall` part that is no object, on which the source panics when it inserts a field: the model reads it as having no fields.
- Which of several entries with equal expiry the continuation store evicts: any of them is allowed.
- TLS, JWT, certificates, cluster switching and the sync timer of Home: library calls and timing.
- `HomeLease::release`: one atomic swap and a counter, easy beside the dispatch protocol.
- Decoding settings from a snapshot: `HomeClient` takes whether the bound settings store accepts them as part of the snapshot.
- The three stores of `abort_ambiguous_dispatch` are one step in the runs; only the fence is read by others.
- Interleavings of the relaxed atomic accesses inside one Cline tracker operation: each operation is one step.
- The map of Cline trackers and its display: lookup by account.
- The source allocates the announced length of a bulk before it reads; that a huge length ends the process there is not modelled, the read fails instead.
- A single write of the affinity file stores its octets in one step, or a prefix of them when it fails; a temporary file left by an earlier process is not modelled.
