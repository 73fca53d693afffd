# What the SDK promises, proved

This project models seven parts of the Thalovant SDK for Rust and proves what they promise: the conversations a client
remembers, the trust store behind a Noise connection, the framing of encrypted messages and the prologue both peers must
agree on, the collectors that wait for a reply, the update of a runtime group's configuration beside other writers, the
two bounded waits of the control plane, the inventory of what a hub can be asked, the order of names, and the message
that carries two paths.

Where the source changes things step by step the model does too: each such operation is a method, tied by its `ensures`
to a specification, and what the source promises is proved of that specification by lemmas. Time is a number carried by
arrivals and polls. What the outside does (arrivals, faults, other writers and other processes, names and keys drawn at
random) is a parameter, and every result holds for all of it.

| file | what it models |
|---|---|
| `ConversationStore.dfy` | a map from session id to conversation, against a list of at most 32 conversations, oldest first |
| `TrustStore.dfy` | the trust store as a protocol: attempts of any processes that interleave step by step, fail and crash |
| `NoiseStore.dfy` | its operations as they run, file operation by file operation, each call a run of the protocol |
| `NoiseFraming.dfy` | chunking, sealing and reassembly over an ideal ordered AEAD channel |
| `CanonicalJson.dfy`, `JsonText.dfy` | canonical JSON, a reader for it, and the prologue |
| `ReplyCollector.dfy` | what an ask and a query make of timed events |
| `ConfigMerge.dfy`, `ConfigUpdate.dfy` | the recursive merge, and the read-merge-write loop against a server with other writers |
| `Polling.dfy` | the device sign-in and the admission wait |
| `Languages.dfy`, `DescribeWindows.dfy`, `IntentInventory.dfy` | languages, windows of describe requests, and the inventory fold |
| `NaturalOrder.dfy` | names in natural order |
| `KeyFolderMessage.dfy` | the rejected-key message and the folders read back from it |
| `Wrappers.dfy`, `Numbers.dfy`, `Text.dfy`, `Hex.dfy`, `Json.dfy` | what they share |

## How to read the results

**Two layers.** A method is proved equal to a specification, and the results are about that specification. They say what
it means in the source's own literals (event kinds, status codes, sizes, characters) rather than by its helpers' names.

**Conversation store.** `Memory.Model()` is the list a reader would keep by hand; every method keeps the map an exact
index of it, so the list's properties are the map's. `RememberedFinds` and `NothingActiveForgets` say for every id what a
lookup finds after a call. Growing the key list while it is walked reaches no further than one round through the groups
of this turn's ids, because groups are disjoint; `TakeOver` is proved against that closed form.

**Trust store.** The protocol's `World` is a file system, the locks, the attempts at work with the stage each is at, and a
log. A step may go well, fail for a reason of its own, or be a crash; a creator may ignore the lock. The results are about
every run from any folders. `NoiseStore` then writes the operations as the source does, with any steps of others before
each of its own: its `Valid()` says that the store is where a run of the protocol leads, so a call ends in what the
protocol's theorems say.

**Collectors.** Handling an event takes no time, and one that arrives at the very instant a window closes is too late.
With that, deleting foreign events changes nothing at all, the end time included. A query reads what is already waiting
when it starts, even with no time left.

**Configuration.** A server is everything it ever stored, in order, and a rule that names each version from what was
stored up to it. What a conditional write can promise rests on these names: that of the versions the server comes to hold
no two with different contents share one, as with a counter that has not wrapped or a digest that has not collided. Only
the claims about what was replaced ask for it. The merge is not associative, and the project states exactly when grouping
two deltas, or swapping two writers, makes no difference.

**Waits.** A wait is given by the polls it makes; a run with no polls left is one still waiting. So a bound on the number
of polls says that the wait is over.

**A converse that fails.** The comment on `describe_many` (`src/intents.rs:953-955`) says that only a call with
registrations unanswered and nothing usable is a timeout, and so it is. Not every such call is one: when the deadline
passes between two windows (`src/intents.rs:991-995`), the code returns the empty answers it has. `EmptyHandedSuccess` is
such a call, and `EmptyHandedExactlyWhen` says which calls can be: those that take more than one window and start with
time left. `OnlyTheDeadlineLeavesOut` is the account of any one of them: some registrations were never asked.

## Model

| member | source | states |
|---|---|---|
| ConversationStore.CollectKept | src/client.rs:86-110 | The fields kept of a turn are exactly the carried ones that are truthy. |
| ConversationStore.CarryConversation | src/events.rs:307-326 | This turn's own fields win, and one it left out is taken from the last turn when it passes the carry filter. |
| ConversationStore.CarriesExactly | src/events.rs:294-326 | A field reaches the turn exactly when the turn has it, or it is listed, the last turn had it, and it is neither null nor an empty array or object. |
| ConversationStore.NothingKeptIsLost | src/events.rs:285-326 | Every field one turn keeps passes the later carry filter and reaches the next turn unless that sets its own. |
| ConversationStore.TakeGroup | src/client.rs:128-135 | One turn of the worklist removes the whole group of an id and adds the aliases not yet among the keys. |
| ConversationStore.TakeOver | src/client.rs:123-137 | The worklist, growing while it is walked, ends with this turn's ids first, then every alias they reach, no repeats, and the map left without exactly those groups. |
| ConversationStore.SameReach | src/client.rs:123-137 | What the inherited ids reach is no more than this turn's own ids reach. |
| ConversationStore.DistinctIsLength | src/client.rs:66-72 | Counting stamps counts conversations, each group of aliases once. |
| ConversationStore.EvictOldest | src/client.rs:157-166 | The eviction loop ends, and drops the oldest groups down to 32. |
| ConversationStore.LookupFindsTheSame | src/client.rs:175-180 | Looking an id up in the map finds what the list of conversations finds. |
| ConversationStore.MergedIsUnion | src/client.rs:114-137 | The merged ids are this turn's followed by every alias of a conversation they reach, without repeats. |
| ConversationStore.MergedAliases | src/client.rs:146-153 | After the cut to 8 the aliases are among the ids taken over, and this turn's ids, up to 8, are all kept. |
| ConversationStore.NothingActiveForgets | src/client.rs:138-145 | A turn that ends with nothing active forgets its conversation under every alias, and every other id finds what it found. |
| ConversationStore.RememberedFinds | src/client.rs:85-167 | After a turn that left state each id finds: that state if it is a kept alias; nothing if it was taken over and cut or if its conversation was the oldest of 32; else what it found before. |
| ConversationStore.RememberedKeepsShape | src/client.rs:85-167 | A call keeps at most 32 conversations, disjoint, of 1 to 8 different ids, each with state to carry. |
| ConversationStore.EveryRunIsWellFormed | src/client.rs:85-167 | That shape holds after every sequence of calls. |
| ConversationStore.Memory.GroupsAreWhole | src/client.rs:58-63 | Between any two calls each key lies in its own duplicate-free group of at most 8, every sibling is there with an equal entry, groups with different stamps are disjoint, and kept fields are truthy. |
| ConversationStore.Memory.RememberConversation | src/client.rs:85-167 | The map is again an index of the list, and the list is the one a call makes of the old list: reached conversations gone, the merged one last, the head dropped past 32. |
| ConversationStore.Memory.ContinueConversation | src/client.rs:170-190 | There is a next context exactly when the list finds the id; all of the turn's own context and session stays as it is, and a session field not its own is there exactly when the conversation kept it, with that value. |
| ConversationStore.NextTurnGetsWhatWasLeft | src/client.rs:85-190 | Over two calls: after a turn under at most 8 ids, the next one under any of them gets exactly the six listed fields that the turn left with something in them and that it does not set itself. |
| TrustStore.PublishedKeyNeverChanges | src/noise_store.rs:154-194 | Once a folder has a key file, no steps of any attempts, locking or not, change it. |
| TrustStore.CreatorsAgree | src/noise_store.rs:154-212 | Every key any attempt returned for a folder, at any point of any run, is the one in its key file, so all are the same. |
| TrustStore.NewKeyFilesAreWhole | src/noise_store.rs:400-402 | A folder that had no key has, between any two steps, none or one holding a whole 32-byte key. |
| TrustStore.LostRacesAreReal | src/noise_store.rs:447-451 | A publication is told that the key existed only when it did. |
| TrustStore.RepinsWholly | src/noise_store.rs:411-413 | The rename puts the whole new pin table in place of the very table its attempt had read, under the folder's lock. |
| TrustStore.PinFilesAreWhole | src/noise_store.rs:405-413 | At any moment of any run, crashes included, a pin file is the one there was at first or a whole table of valid pins. |
| TrustStore.TrustedKeysAreTheStoredOne | src/noise_store.rs:239-254 | In any run, every key reported pinned for a node and not forgotten since spells the very bytes of the stored one, so all are one key. |
| TrustStore.PinnedMeansSameBytes | src/noise_store.rs:247-248 | A key is the pinned one, case aside, exactly when it is 64 hexadecimal digits that decode to the same bytes. |
| TrustStore.PinsAreMalformedExactlyWhen | src/noise_store.rs:354-385 | A pin file is refused exactly when it is no table of strings or holds a blank node or a key that is not 64 hexadecimal digits; otherwise what is read is the table. |
| TrustStore.MalformedTrustIsNeverOverwritten | src/noise_store.rs:354-373 | A pin file that is no table of valid pins stays as it is through every further run. |
| TrustStore.PinsAreLostOnlyToForget | src/noise_store.rs:345-352 | A node's pin changes or goes only by the rename of an attempt asked to forget that node. |
| TrustStore.OutcomesAreTrue | src/noise_store.rs:239-352 | A refused pin, a read and a failure changed no trusted file; a failed adoption put no key; an adoption says it copied exactly when it put the key there. |
| TrustStore.AdoptionIsSafe | src/noise_store.rs:271-326 | From an empty target, whatever adoptions fail or crash, the target's key is absent or the legacy key, never there without the node's pin. |
| TrustStore.CopiesAreTheLegacyKey | src/noise_store.rs:319-325 | In every run, whatever else works on the folders: once an adoption has said that it copied, its target's key is the legacy key. |
| TrustStore.AdoptionCompletes | src/noise_store.rs:271-326 | A later adoption that meets no failure copies the key, and the pins where there were none. |
| TrustStore.CreationCompletes | src/noise_store.rs:154-194 | In a free folder without a key, a creator that meets no failure puts the key it drew in place and returns it. |
| TrustStore.ExistingKeyIsReturned | src/noise_store.rs:161-175 | In a folder with a key a creator returns that key and changes nothing. |
| TrustStore.FirstContactIsPinned | src/noise_store.rs:239-246 | With readable pins and none for the node, a first contact that meets no failure is pinned beside the others. |
| TrustStore.KnownHubIsRecognised | src/noise_store.rs:248-253 | A hub whose node is pinned is accepted exactly when its key decodes to the pinned bytes and refused otherwise, and nothing changes. |
| TrustStore.ForgettingCompletes | src/noise_store.rs:345-352 | A pin that is forgotten without a failure is gone and the others stay. |
| Hex.ReadsWrittenKey | src/noise_store.rs:197-212 | A key file's text is decoded to the key that was written. |
| Hex.KeyIsReadExactlyWhen | src/noise_store.rs:197-212 | A text is read as a key exactly when, white space around it aside, it spells the key's 32 bytes, high digit first, in either case. |
| Hex.WritesLowerCase | src/noise_store.rs:184 | A written key spells its bytes in lower case. |
| Hex.SameDigitsSameBytes | src/noise_store.rs:248 | Of texts of hexadecimal digits, case aside, exactly those that decode to the same bytes are the same. |
| NoiseStore.NoiseStore.PublishPrivate | src/noise_store.rs:415-457 | Staging, linking or renaming and cleaning up, with steps of others between, go exactly through the protocol's stages to the reported result. |
| NoiseStore.NoiseStore.PlaceStaged | src/noise_store.rs:447-454 | The link never replaces a file and the rename does; only the link reports that the target existed. |
| NoiseStore.NoiseStore.LoadOrCreateNoiseKey | src/noise_store.rs:154-212 | A call is a run of the protocol, and a key it returns is the one in the folder's key file, whoever wrote it. |
| NoiseStore.NoiseStore.PinHubKey | src/noise_store.rs:239-254 | A call is a run of the protocol. A blank node or a key that is not 64 hexadecimal digits fails; otherwise the answer is `Pinned` exactly when the stored key and the offered one decode to the same bytes and `Refused` exactly when they differ; a call that did not pin changed no trusted file. |
| NoiseStore.NoiseStore.LoadNoisePin | src/noise_store.rs:216-220 | A call is a run of the protocol that changes no trusted file, and what it returns is what is pinned for the node when it is over. |
| NoiseStore.NoiseStore.ForgetNoisePin | src/noise_store.rs:345-352 | A call is a run of the protocol; when it succeeds the node has no pin, and a failed one changed no trusted file. |
| NoiseStore.NoiseStore.AdoptLegacyKey | src/noise_store.rs:271-326 | A call is a run of the protocol, pins first and key last; it says it copied exactly when it put the key there, and then the target's key is the legacy key. |
| NoiseFraming.NoiseSession.EncryptOne | src/noise.rs:515-527 | One plaintext is sealed at the next counter when it fits the 65535 bytes of a Noise message (section 3 of the Noise Protocol Framework). |
| NoiseFraming.NoiseSession.EncryptMessage | src/noise.rs:399-428 | Encryption of a message never fails and makes exactly its frames, at consecutive counters. |
| NoiseFraming.LongMessageFrames | src/noise.rs:408-427 | An oversize message makes ceil(len / 65000) frames with exactly one first and one last, each within 65535 bytes with its tag. |
| NoiseFraming.FramesOnTheWire | src/noise.rs:399-428 | Byte by byte what each frame carries: its kind (0 to 5) and its own stretch of 65000 bytes of the message. |
| NoiseFraming.NoiseSession.GuardReassemblyCap | src/noise.rs:531-540 | A buffer past the cap is dropped whole and reported. |
| NoiseFraming.NoiseSession.DecryptFrame | src/noise.rs:436-512 | Only what the peer sealed at this very counter opens; the buffer is within the cap after every call, error or not. |
| NoiseFraming.ErrorsEmptyTheBuffer | src/noise.rs:449-512 | Every error empties the reassembly buffer, except that an empty plaintext and an unknown kind of frame leave it as it was. |
| NoiseFraming.OnlyInOrderRunsSucceed | src/noise.rs:436-447 | A run is error-free only over the peer's frames in order, nothing dropped, repeated or altered. |
| NoiseFraming.OneMessageRoundTrip | src/noise.rs:399-513 | A message of at most 32 MiB is received whole with its flag; a longer one is always refused. |
| NoiseFraming.SessionRoundTrip | src/noise.rs:399-513 | Any messages within the cap, encrypted by one session, are decrypted to exactly that sequence with their flags. |
| NoiseFraming.OversizeIsRefused | src/noise.rs:531-540 | A message over the cap ends the run whatever came before it and whatever follows. |
| NoiseFraming.AcceptedFrames | src/noise.rs:455-512 | A session accepts exactly (single or first more* last)* with a possibly unfinished tail, each run within the cap, and delivers the joined bodies. |
| JsonText.WriteString | src/noise.rs:167-185 | A string is written between quotes with exactly the quote, the backslash and control characters escaped. |
| JsonText.ReadsQuoted | src/noise.rs:167-185 | A written string is read back whole by the rules of section 7 of RFC 8259, whatever follows it. |
| JsonText.PlainTextIsWrittenAsItIs | src/noise.rs:164-185 | Text without a quote, a backslash and a control character is written as it is. |
| JsonText.SpecialsAreWrittenSo | src/noise.rs:169-183 | Each other character is written for itself, by its short form or as four lower-case digits, whatever stands around it. |
| CanonicalJson.WriteCanonical | src/noise.rs:130-162 | The writer, which appends while it sorts each object's keys, writes the canonical text. |
| CanonicalJson.CanonicalIsReadBack | src/noise.rs:124-162 | Canonical text is parsed back to its value with keys in order. |
| CanonicalJson.CanonicalKeysAscend | src/noise.rs:147-160 | What is read back from canonical text has the keys of every object, at every level, in ascending order of their characters, and means the value written. |
| CanonicalJson.ReferenceVector | src/noise.rs:609-612 | A reference vector, its keys inserted in the other order, has exactly its reference text. |
| CanonicalJson.NormalMeansTheSame | src/noise.rs:139-158 | Sorting the keys at every level changes no value. |
| CanonicalJson.CanonicalTellsValuesApart | src/noise.rs:124-162 | Two values have the same text exactly when they are the same, whatever order their keys came in. |
| CanonicalJson.ObjectTextIsPrefixFree | src/noise.rs:124-162 | No object's text is a proper prefix of another's, nor of another's followed by anything. |
| CanonicalJson.BuildPrologue | src/noise.rs:194-204 | The prologue is the two canonical payloads and the protocol name with nothing between them. |
| CanonicalJson.PrologueTellsNegotiationsApart | src/noise.rs:194-204 | Equal prologues exactly when HELLO payload, HANDSHAKE payload and protocol name are all equal. |
| ReplyCollector.ReplyMediaBudget.Accept | src/events.rs:708-725 | An event is kept exactly when its clip fits the clip and the reply budget; the sum and the count of drops follow. |
| ReplyCollector.PushFragment | src/client.rs:1203-1211 | Speech is normalised, and added unless blank or the same as the last fragment. |
| ReplyCollector.CollectAskReply | src/client.rs:921-1055 | The loop's reply, end time and remembered turns are those of the listening specification, for every input. |
| ReplyCollector.AskKeepsOnlyItsOwn | src/client.rs:968-982 | Every event kept carries the ask's own id, or is a denial without one of an utterance that came while this ask was the only one out. |
| ReplyCollector.ForeignEventsNeverMatter | src/client.rs:968-982 | Inputs that agree on the events with that property give the same outcome, kept events and end time. |
| ReplyCollector.AskEndsInTime | src/client.rs:941-1023 | An ask never runs past its deadline; each event is handled before the window its predecessors opened closes; the end is the hard failure or exactly the window's close. |
| ReplyCollector.SettlesAfterTheFirstWords | src/client.rs:987-997 | With words said the ask ends a settle window after the first of them, whatever comes later. |
| ReplyCollector.GivesUpAfterTheFirstEnd | src/client.rs:998-1016 | With nothing said it ends an empty-reply window after the first end of a turn, whatever comes later. |
| ReplyCollector.WaitsToTheDeadline | src/client.rs:942-952 | With nothing said and no turn ended it waits to its deadline. |
| ReplyCollector.AskKeepsItsOwnEvents | src/client.rs:934-1023 | It kept the first of its own events up to its end, as the media budget allows, and none that came after. |
| ReplyCollector.FragmentsAreTheWordsSaid | src/client.rs:1203-1211 | The fragments are the words said with runs of equal neighbours reduced to one. |
| ReplyCollector.OneIsSpoken | src/client.rs:986-989 | An event adds words, white space normalised, exactly when it is one of the two kinds of speech and has any. |
| ReplyCollector.CollapseOnlyDropsRepeats | src/client.rs:1208-1210 | Repeating each of the texts left gives back all that was said, and no two neighbours are equal. |
| Text.WordsMakeUpTheText | src/client.rs:1204 | A text is its words, none with white space in it, with white space around and between them. |
| Text.JoinSpacesSingly | src/client.rs:1204 | Normalising puts one space between the words and none around them. |
| ReplyCollector.OutcomeFollowsFromWhatWasHeard | src/client.rs:1024-1054 | A reply exactly when words were said in time, with their text, the kept events, drops, session and `ok` exactly when no hard failure came; otherwise the error, with what it carries: refused, a fault, unanswered or timed out. |
| ReplyCollector.FirstSessionIsTheFirst | src/client.rs:1040-1050 | The session reported is the first one named that is not blank. |
| ReplyCollector.CollectQueryReply | src/client.rs:820-901 | The query loop's result is that of the gathering specification, for every input. |
| ReplyCollector.OtherQueriesNeverMatter | src/client.rs:838-843 | A query's result depends only on the messages that carry its own id. |
| ReplyCollector.GathersOnlyItsOwn | src/client.rs:838-843 | Every event a query goes by came in a message with its own id. |
| ReplyCollector.QueryOutcomeFollowsFromTheConclusion | src/client.rs:847-901 | A query times out, whatever it heard, exactly when nothing concluded it in time; else it replies with all a reply says, fails by the name of the hard or last soft failure, or reports silence. |
| ConfigMerge.MergeRuntimeConfig | src/control.rs:2960-2976 | The merge that inserts key by key is the recursive merge. |
| ConfigMerge.MergeAt | src/control.rs:2960-2976 | What stands at every path after a merge, from what stands there in base and delta. |
| ConfigMerge.PlainValuesWin | src/control.rs:2974 | A plain value of the delta is what stands in its place. |
| ConfigMerge.MergeIsIdempotent | src/control.rs:2960-2976 | Merging the same delta again changes nothing. |
| ConfigMerge.MergeIsNotAssociative | src/control.rs:2974 | A plain value between two objects erases the first: a concrete case where grouping matters. |
| ConfigMerge.MergeGroupsExactlyWhen | src/control.rs:2960-2976 | Grouping two deltas makes no difference exactly when nowhere a plain value of the first erases what the second would only add to. |
| ConfigMerge.OrderIsFreeExactlyWhen | src/control.rs:2960-2976 | Two deltas may be merged in either order exactly when they agree wherever both give a plain value. |
| ConfigMerge.ValidateConfigNumbers | src/control.rs:2933-2958 | The validation succeeds exactly when every number at any depth is one the rule lets through. |
| ConfigMerge.SafeMeansSafeInside | src/control.rs:2933-2958 | A value passes exactly when every number reached inside it through objects and arrays, at any depth, is let through. |
| ConfigMerge.MergeKeepsNumbersSafe | src/control.rs:1487-1488 | A merge of safe values has safe numbers only. |
| ConfigUpdate.UpdateRuntimeGroupConfig | src/control.rs:1453-1498 | The loop ends as the update specification says, in what the server holds, in its result and in its attempts, for any interference and faults. |
| ConfigUpdate.UndisturbedUpdatesSucceed | src/control.rs:1459-1496 | Left alone, an update by an object, of a config object with a revision of 64 digits 0-9a-f and safe numbers, succeeds at the first attempt and stores exactly the merge. |
| ConfigUpdate.BadDeltasAreRefused | src/control.rs:1459-1465 | A delta that is no object, or an unsafe number, is refused before anything is asked of the server. |
| ConfigUpdate.UnnamedConfigsAreLeftAlone | src/control.rs:1471-1486 | Without a revision of that form or a config object, nothing is written. |
| ConfigUpdate.UpdatesAreMergesOfTheCurrentConfig | src/control.rs:1469-1496 | As long as the server names no two of its versions' contents alike, all it stores is the delta merged into the very content replaced; nobody's write is undone; at most 3 attempts, each but the last answered with 412; a success is stored last, and unless an answer is lost a failure stored nothing. |
| ConfigUpdate.OthersChangesSurvive | src/control.rs:1487-1492 | Every path outside the delta keeps what the replaced version held, even if others wrote it a moment before; personas are replaced only when given. |
| ConfigUpdate.LosesOnlyToOthers | src/control.rs:1492-1495 | Without faults a final 412 means that others wrote during all three attempts. |
| ConfigUpdate.RepeatingAnUpdateIsHarmless | src/control.rs:1488-1491 | A second update with the same delta stores the content that is there already. |
| ConfigUpdate.UpdatesCommuteExactlyWhen | src/control.rs:1488-1491 | Two updates leave the same content in either order exactly when their deltas agree. |
| Polling.PollDeviceToken | src/control.rs:934-967 | The loop's result, sleeps and end time are those of the polling specification. |
| Polling.SleepsFitTheTimeout | src/control.rs:959-965 | The sleeps never add up to more than the timeout, for any interval. |
| Polling.DeviceSignInEnds | src/control.rs:934-967 | The first deciding answer is the result; each full sleep is the interval plus 5 s per `slow_down` so far (section 3.5 of RFC 8628); with a positive interval it is over after ceil(timeout / interval) + 1 polls. |
| Polling.SignInTellsAnswersApart | src/control.rs:973-1024 | A sign-in that did not time out ends with the token of a JSON success, denied or expired exactly when status 400 names it, and never on a pending answer. |
| Polling.WaitForAdmission | src/control.rs:2056-2174 | The loop's result, sleeps and end time are those of the waiting specification. |
| Polling.AdmissionWaitEnds | src/control.rs:2098-2173 | It ends by the deadline and after at most ceil(timeout / interval) + 1 polls; no poll comes sooner than it should; it times out only at the deadline or when a rate limit asks for more than is left. |
| Polling.AdmissionTellsReadingsApart | src/control.rs:2107-2171 | Which readings are ridden out and which end a wait how: admitted when ready or 404; 401, 403 and no answer passed on unchanged; a failed admission with the operation's own words, or for another refusal below 500; timed out only at the deadline or for a rate limit beyond it. |
| Polling.AdmissionSleepsExactly | src/control.rs:2099-2173 | Each sleep is as long as its reading asks for, only the deadline cuts it short, a rate limit that asks for more than is left is not slept out, and what decides ends the wait when it is read. |
| Polling.NothingIsPolledInVain | src/control.rs:2062-2094 | Without an operation the wait is over well at once; with a zero interval, a link elsewhere or no id it fails at once. |
| Languages.ChosenLanguages | src/intents.rs:710-727 | The loop's choice is the specified one, `en-us` when nothing was named. |
| Languages.SameLanguageExactlyWhen | src/intents.rs:189-195 | Two tags name one language exactly when, trimmed and in lower case, they agree character by character, dash and underscore counting as one. |
| Languages.ChosenAreTheLanguagesAskedFor | src/intents.rs:710-727 | Chosen tags name different languages, each was asked for, and every language asked for is named. |
| Languages.ChosenGrows | src/intents.rs:706-709 | First spellings in the order given: asking for more changes none of those already chosen. |
| DescribeWindows.UniqueKeepsFirsts | src/intents.rs:966-971 | Each registration once, in first-seen order. |
| DescribeWindows.DescribeOneBatch | src/intents.rs:1001-1084 | A window's result and what it published are those of the window specification. |
| DescribeWindows.SendsEndAs | src/intents.rs:1013-1032 | Sending ends well when every request goes out before the deadline; else the first that does not ends it, with a timeout or with its failure. |
| DescribeWindows.WindowEndsForAReason | src/intents.rs:1034-1083 | A window whose requests went out ends complete, refused, or at the deadline, whichever its arrivals bring about first. |
| DescribeWindows.AnswersMeansIsAnswerTo | src/intents.rs:1044-1064 | An event answers a request exactly when it carries its own id, or none and its first definition fits this registration and none before it. |
| DescribeWindows.WindowEndsWell | src/intents.rs:1034-1083 | A window succeeds only complete, or at the deadline with something usable, and holds only first answers from before the deadline. |
| DescribeWindows.TimeoutsAreSilence | src/intents.rs:1075-1081 | A window that sent everything and timed out got no first answer with a definition in time. |
| DescribeWindows.DescribeMany | src/intents.rs:957-998 | The loop over windows ends as specified, window by window. |
| DescribeWindows.DescribeRunsWindows | src/intents.rs:957-998 | Each registration is published at most once, in first-seen order, at most a batch at a time; a success holds all that any window found and no more; a timeout is reported only when nothing usable was found. |
| DescribeWindows.EntriesAreFirstAnswers | src/intents.rs:1044-1070 | Every entry is the first answer to its own request, from before the deadline. |
| DescribeWindows.OnlyTheDeadlineLeavesOut | src/intents.rs:957-998 | In any one call a registration is left out only when time is up; a success with nothing usable leaves out exactly what was never asked, which takes time lost between windows. |
| DescribeWindows.EmptyHandedExactlyWhen | src/intents.rs:971-996 | A call can succeed with nothing usable and a registration unanswered exactly when it takes more than one window and starts before its deadline. |
| DescribeWindows.EmptyHandedSuccess | src/intents.rs:991-995 | A concrete call that succeeds with nothing usable while a registration is unanswered. |
| IntentInventory.ListLanguages | src/intents.rs:1426-1440 | The listings kept and the tags filed under are the specified ones. |
| IntentInventory.ListingsTellLanguagesApart | src/intents.rs:1426-1440 | Listing keys are pairwise different languages, and each answer is filed under one of them in its own language. |
| IntentInventory.ListingsHoldTheLastAnswers | src/intents.rs:1433-1438 | A listing's rows are those of the last answer in its language. |
| IntentInventory.ListWanted | src/intents.rs:1463-1470 | The registrations to describe are collected row by row as specified. |
| IntentInventory.WantedAreTheRowsInNeed | src/intents.rs:1463-1470 | A registration is described exactly when an enabled template row came without a definition. |
| IntentInventory.FoldInventory | src/intents.rs:1477-1530 | The fold over three maps gives the intents read off all rows. |
| IntentInventory.InventorySaysWhatTheRowsSay | src/intents.rs:1477-1530 | One intent per skill and name that has a row; engine of the first row; enabled if any row is; per language the last non-empty sentences, whatever the order of rows without any. |
| IntentInventory.SentencesAreTheHubs | src/intents.rs:1490-1500 | Every sentence list stands in a row's own definition or in one given for that very registration. |
| IntentInventory.InventoryShowsWhatWasDescribed | src/intents.rs:1463-1510 | For an enabled template row, where no row of its intent in that language came with a definition, the whole inventory shows the samples of the first definition with any that was given for that registration, or nothing. |
| IntentInventory.OwnDefinitionsAreShown | src/intents.rs:1490-1508 | A definition that came with a row is shown when no later row of its intent in that language brings anything. |
| IntentInventory.SamplesInParts | src/intents.rs:675-687 | Samples are read in order, each trimmed, and left out when nothing is left of it. |
| IntentInventory.InventoryIsInStep | src/intents.rs:1387-1440 | Languages differ, `listed_in` is in step with them, and an intent's sentences stand only under those tags, never under two spellings of one language. |
| IntentInventory.TakeInventory | src/intents.rs:1370-1539 | Choosing, listing, describing and folding, composed. |
| NaturalOrder.Chunks | src/inventory.rs:275-287 | The loop's chunks are the specified ones. |
| NaturalOrder.ChunksAlternate | src/inventory.rs:275-287 | The chunks are the whole text, cut exactly where digits meet other characters. |
| NaturalOrder.CompareNames | src/inventory.rs:274-307 | The scan compares chunk lists in order and then by length. |
| NaturalOrder.NamesAreRanked | src/inventory.rs:274-307 | The comparison is reflexive, mirror-symmetric and transitive. |
| NaturalOrder.NamePrecedesExactlyWhen | src/inventory.rs:289-306 | One name comes first exactly when the chunks agree up to leading zeros to a place where it ends, or has the smaller number, or a number against text, or text with the smaller character. |
| NaturalOrder.NumberChunksCompareAsNumbers | src/inventory.rs:293-296 | Digit runs of any length compare exactly as the natural numbers they write. |
| NaturalOrder.NamesAreEqualExactlyWhen | src/inventory.rs:289-306 | Two names are equal exactly when their lower-cased chunks agree up to leading zeros. |
| KeyFolderMessage.ClientKeyRejected | src/errors.rs:695-711 | The message is the fixed opening and what names the folders. |
| KeyFolderMessage.FoldersAreReadBack | src/errors.rs:636-655 | For all path strings the folders read back are the ones written, and none when none was written. |
| KeyFolderMessage.MessagesTellFoldersApart | src/errors.rs:695-711 | Different folders make different messages. |
| KeyFolderMessage.OtherErrorsNameNoFolder | src/errors.rs:636-655 | An error of another kind, or one that opens differently, names no folder. |

## Left out

- Mutex poisoning (`lock().ok()?`, `poisoned`): a lock is always obtained in the conversation store and the Noise session.
- The conversation sequence counter and the cipher counters are unbounded numbers; 2^64 wrap-around and nonce exhaustion are not modelled.
- The Noise handshake, the key derivation and the ciphers: the AEAD is ideal, opening only what the peer sealed at the same counter.
- UTF-8: texts are sequences of characters; the prologue's bytes are its text's. Media and frame sizes count what the source counts.
- JSON numbers: printed number tokens are opaque, delimited texts, and two numbers are the same when they print the same.
- The state folder's permissions, symbolic links, its lock file and lock timeout, the in-process lock, the PSK cache: files are regular, link and rename are atomic, and a crash releases a lock. A lock is waited for, or waiting for it fails.
- Staging names: no attempt draws a name another one drew; one that is taken all the same makes the publication fail, as in the source.
- Broadcast overflow and a closed channel in the collectors, the race between sending and collecting, and the cleaning of the request id: collectors get arrivals until their time is up.
- The detail a denial carries (code, reason, quota, allowed types): a refusal keeps the denied type only.
- Durations that overflow the clock: times are unbounded numbers.
- HTTP: requests, headers, bodies and the parsing of a wait from a problem or a header; a reading carries the wait it asks for. An admission refused with another status keeps its status, not its wording.
- The wait's operation id from a link, and the comparison of origins: given as whether the link leads elsewhere and the id found.
- The rule by which a float is outside the exact range: a parameter of the number validation.
- The server's own answer to a successful write: an update's success carries no value.
- Retrying a listing in the language's usual form, choosing the closest language a hub loaded, and falling back to the engines' manifests (`src/intents.rs:1309-1360`, `src/intents.rs:1389-1425`, `src/intents.rs:1441-1460`): what a language is listed under is a parameter, and a failed listing is not modelled.
- Lower-casing: a parameter; nothing about Unicode's case tables is used.
- Grouping the intents by skill and their order by name: the inventory is a map from skill and name.
- Reading event data into definitions and rows, and lost replies when the bus overflows within a window.
- TrustStore: the operations are steps over values there, since attempts interleave; their update of files in place is in NoiseStore.
- Typed request builders, redaction, home and identity files: single-branch code beside these parts.
