# A verified model of BotHearth's protocols and stores

BotHearth lets agents work in containers under a daemon's supervision: it talks WebSocket to its console, keeps
an authenticated audit log, hands a desktop back and forth between a person and a model, freezes process trees,
packs deliverables and meters what a task may spend. This project models those parts in Dafny, in the form the
program gives them, and proves what they are for. State that the program updates in place is a class here; each
of its methods is proved against a function of the old state, and the laws are proved about those functions and
about whole runs of them.

`dafny verify dfyconfig.toml` checks everything.

## What is modelled

* **WebSocket codec** (`WsFrames`, `WsConnection`, `WsStream`, `WsMeaning`). The layout of section 5.2 of RFC 6455
  is a printer over every length form and mask; one pass of the parse loop is a parser. The parser accepts exactly
  the layouts. Draining a buffer in two parts is draining it once, so the cut of a stream into chunks does not
  matter as long as no chunk trips the size guard; one byte at a time it never trips. Where the guard trips, the
  cut does matter, unless what is left is silent frames and then an oversize header: the guard looks at a whole
  chunk, so 2 MiB of empty pongs in one chunk close a connection that the same bytes leave open one by one.
  `WsMeaning` says in the terms of RFC 6455 alone what a connection delivers and writes for a stream.
* **Canonical JSON** (`CanonicalJson`, `CanonicalReading`, `CanonicalReader`). The serializer of the audit log
  (sections 3.2.2 and 3.2.3 of RFC 8785) is uniquely readable, with any continuation: two values have the same
  text exactly when they mean the same, up to key order and dropped members. Numbers are abstract; their rendering
  is any injective function into the number alphabet, and decimal integers are shown to be one. A reader with its
  own grammar and escapes reads the text back, and finds the members of every object in the order of their keys.
* **Audit chain and log** (`AuditChain`, `AuditLog`, `AuditRecords`, `Anchors`). HMAC is an injective function.
  The accepted head determines the log record by record, its MAC alone determines the head, and acceptance depends
  on meaning only. Appends suspend once, on the key; a run is any interleaving of calls, resumptions, failures of
  the key provider and reopens, and after every step the file and its head verify and each record is that of its
  call.
* **Takeover** (`Takeover`, `TakeoverEpochs`, `TakeoverClient`, `HandoverHistory`, `HandoverSafety`,
  `HandoverOutcome`, `TakeoverRows`). The transition table, the session, the gate and the takeover commands run in
  two containers; the client drives both by one request after another. A request may be lost before it has an
  effect or its reply may be lost after, and the model may ask for a takeover between any two requests. The
  durable rows are modelled with the two clean-ups that must not change any answer.
* **Process control and the JSON-RPC relay** (`ProcessTree`, `McpRelay`, `McpMessages`). The fixpoint that finds a
  process tree is proved to find exactly the processes whose parent chain reaches the root. The relay is proved to
  be a private pipe for each client, on which messages change in nothing but their tags.
* **ZIP writer** (`ZipStore`, `ZipHeaders`). The writer is proved against a reader that goes from the end record
  over the central directory to each local header, and against the layout of every header, byte by byte.
* **Transcripts and loop detection** (`Transcript`, `TranscriptCuts`, `LoopDetection`). Compaction and resumption
  of a transcript, and the cycle detector on its bounded window.
* **Approvals and budgets** (`Approvals`, `ApprovalAnswers`, `HarnessBudget`). Approvals as the dispatcher spends
  them, and the call and money budget of a bound task with the one audit its refusal deserves.
* **Deliverables and connecting** (`OutFiles`, `ConnectToml`, `ConnectTools`). The quota on the deliverables
  directory and the merge of a section into TOML text, read back by a reader of TOML arrays.

Each `Run` predicate lists the states of a whole run from a start state; a lemma with an index into a run speaks
about every reachable state.

## Where the code does less than one might expect

* A rejected key loses an anchor but leaves the counter reset for it (`src/audit/log.ts:149`), so each lost anchor
  can stretch the distance to the next by another `anchorEvery` records (`Anchors.LossesAddUp`, for every
  distance and every number of losses), and no more (`Anchors.AnchorSpacing`). `Anchors.PlainBoundIff` says
  exactly from which logs the plain bound stays safe, and `Anchors.CounterSlack` exactly when the counter falls
  behind. Reopening the log ends the lag.
* Results that follow the order of the turns that asked for them are not enough for compaction: with calls x
  and y from two turns and then both results, the cut falls between the turns and separates x from its call
  (`Transcript.OrderOfTurnsIsNotEnough`). No compaction orphans a result exactly when no result of an earlier turn
  stands after a turn that issued another result (`Transcript.NoOrphanIff`). What the loop guarantees is stronger,
  that every result answers the latest turn with calls, and compaction keeps that.
* A transcript resumed after two pauses can be orphaned by a later compaction, because the answers invented for
  open calls are not stored and come back at the end (`Transcript.SecondResumeCanOrphan`). It cannot exactly when
  every open call is of the latest turn with calls (`Transcript.ResumeNeverOrphansIff`).
* An ok reply to a takeover operation does not always mean that both containers agree. If the model asks for a
  takeover between the two requests that complete a decline, an expiry or a release back to the agent, the browser
  takes the ask and the shell does not hear of it (`HandoverOutcome.DeclineSplits`, wherever a decline succeeds).
  `HandoverOutcome.OkMeansAgreement` says exactly when they agree; after a grant they always do.
* A change of budgets while a denial audit is in flight can put two audits of one refusal in flight, and can leave
  a refusal without any (`HarnessBudget.ChangeInFlightDoubles` and `HarnessBudget.ChangeInFlightLoses`, from every
  such state). A change is safe exactly when no audit is in flight (`HarnessBudget.SafeToChangeIff`).
* A call that is refused first takes the claim on its denial audit and then appends its usage event. When that
  cannot be appended the call throws and gives nothing back (`src/daemon/store.ts:1185`,
  `src/daemon/dispatcher.ts:245-252`), so a lasting failure of the log leaves the refusal without an audit: no call
  sends one as long as calls are refused, also when budgets change (`HarnessBudget.FailedUsageSticks`,
  `HarnessBudget.StuckStays`). A failed audit itself is retried. `HarnessBudget.OneAuditPerBudget` says that this is
  the only way the rule breaks while budgets change between audits.
* A line from upstream under an id that does not take apart ends the relay for all clients, also the null id with
  which section 5 of JSON-RPC 2.0 answers a request whose id could not be read, so a client that sends a line of
  well-formed JSON that is no request can bring the relay down through a compliant upstream
  (`McpRelay.RelayEndsIff`). A batch goes up with its ids untagged, and its answer goes to every client.
* The ZIP writer reduces sizes and offsets modulo 2^32 without an error. An archive with such an entry is never
  read back (`ZipStore.LargeEntryIsLost`), and one whose local records alone take 2^32 bytes is not read back
  either, unless the signature of a directory record stands where the directory's offset has wrapped to
  (`ZipStore.WrappedDirectoryIsLost`).
* Connecting twice is connecting once, and removing undoes connecting, but not for every text:
  `ConnectToml.ConnectTwiceIff` and `ConnectToml.RemoveAfterConnectIff` say exactly when. Text without carriage
  returns is always fine for the first. For the second, whitespace that is more than one line feed and alone in
  the file is lost.
* Files in a directory that cannot be listed are not counted by the quota, and if it can be written new ones are
  accepted there without end (`OutFiles.UnlistedEscapes`). The cap bounds all the files there are exactly when the
  visible files have reached it already, or all files are visible and there is no such directory
  (`OutFiles.TotalBoundedIff`).
* Two calls that overlap under one approval both count, from every state with such an overlap and from no other
  (`Approvals.OverlapBuysTwo`, `Approvals.StaysSingleIff`).

## Model

| member | source | states |
|---|---|---|
| WsFrames.ParseLayout | src/daemon/ws.ts:119-156 | every legal frame, in any length form and masked or not, at the head of the buffer decodes to its opcode and unmasked payload, whatever follows |
| WsFrames.ParsedIsLayout | src/daemon/ws.ts:119-156 | whatever the parser accepts is the layout of a legal frame with that opcode and payload, and it consumes exactly that layout |
| WsFrames.ParseIffLayout | src/daemon/ws.ts:119-156 | a buffer decodes to a frame if and only if it starts with a layout of that frame |
| WsFrames.OversizeIffAnnounced | src/daemon/ws.ts:131-144 | a buffer is refused with 1009 if and only if it starts with a header announcing more than 1 MiB, 64-bit lengths beyond the safe integers included |
| WsFrames.ParseStable | src/daemon/ws.ts:119-146 | bytes that arrive later never change a decision already taken |
| WsFrames.ServerFrameIsShortest | src/daemon/ws.ts:61-81 | the length form the server picks is legal and no legal layout of a body of that length is shorter |
| WsConnection.WebSocket.SendFrame | src/daemon/ws.ts:61-81 | the header is filled in place to the layout of the server frame and written with the payload if the connection is open; otherwise nothing happens |
| WsConnection.WebSocket.Close | src/daemon/ws.ts:94-104 | the first close writes one close frame with code and reason, ends the socket and tells the listeners once; later ones do nothing |
| WsConnection.WebSocket.OnData | src/daemon/ws.ts:113-171 | a chunk trips the guard or is appended and drained, frame by frame, to the state of the specification function; `WsMeaning.StreamIsHeard` says what that state is |
| WsConnection.NextFrame | src/daemon/ws.ts:119-156 | one pass over the buffer with its early returns is the parser |
| WsConnection.Unmask | src/daemon/ws.ts:148-155 | the loop xors octet i with octet i mod 4 of the key |
| WsStream.DrainInTwo | src/daemon/ws.ts:118-170 | draining now and again when more arrives ends like draining everything at once |
| WsStream.ChunksAreOneStream | src/daemon/ws.ts:113-171 | any chunks that pass the guard have, up to and including the first close, the effects and leftover of their concatenation |
| WsStream.ChunkIndependence | src/daemon/ws.ts:113-171 | two cuts of one stream that pass the guard give the same messages, pongs, close and leftover |
| WsStream.LeftoverBound | src/daemon/ws.ts:113-146 | an open connection never keeps more than 1 MiB and 13 bytes between chunks |
| WsStream.SinglesNeverTrip | src/daemon/ws.ts:114-117 | chunks of one byte never trip the guard |
| WsStream.BytewiseIsOneShot | src/daemon/ws.ts:113-171 | one byte at a time, the connection is the one-shot decoder of the whole stream |
| WsStream.StreamMeaning | src/daemon/ws.ts:113-171 | a stream of legal frames, cut anywhere, ends like its frames taken one by one up to their first close; `WsMeaning.StreamIsHeard` says what each brings about |
| WsStream.StreamSplits | src/daemon/ws.ts:119-156 | every byte stream is a list of legal frames and a tail that starts with none |
| WsStream.SendRoundTrip | src/daemon/ws.ts:61-81 | what an open connection sends decodes to what was sent, and so do the same frames masked under any keys |
| WsStream.ChunksAgreeIff | src/daemon/ws.ts:113-171 | chunks do what their concatenation does in one piece if and only if none trips the guard, or what is left where one first does is silent frames and then an oversize header |
| WsStream.GuardSeesChunks | src/daemon/ws.ts:114-117 | a stream that closes the connection in one chunk and leaves it open byte by byte |
| WsStream.ClosedIsFinal | src/daemon/ws.ts:61-62 | after a close the connection stays closed and writes nothing more, whatever arrives |
| WsStream.CloseIsPrefix | src/daemon/ws.ts:158-161 | what happened up to the first close is a prefix of all that happens |
| WsMeaning.StreamIsHeard | src/daemon/ws.ts:113-171 | legal frames without a close, cut anywhere into chunks that pass the guard, have exactly these effects, in order: a text payload is delivered and flagged as no binary, a binary one flagged as binary, a ping is answered by a frame of opcode 10 with its payload, as the parser reads it; then the connection waits with what is left, or writes a close of 1000 for a close and one of 1009 for an oversize header |
| WsMeaning.GuardRefuses | src/daemon/ws.ts:114-117 | an open connection refuses a chunk with a close of 1009 and its reason if and only if the chunk takes the buffer past 1 MiB and 14 bytes |
| WsMeaning.SentIsRead | src/daemon/ws.ts:61-81 | what is sent while open is one more write, which parses to one frame of that opcode and payload |
| WsMeaning.ClosedIsRead | src/daemon/ws.ts:94-104 | the first close writes one frame of opcode 8 whose payload is the code, high byte first, and the reason; then the socket ends and the listeners are told |
| WsMeaning.ListenersAreToldOnce | src/daemon/ws.ts:54-177 | whatever chunks, sends, closes and ends of the socket happen, a closed connection has told its listeners exactly once and an open one not yet |
| WsMeaning.MaskedBits | src/daemon/ws.ts:148-155 | bit by bit, octet i of the data is the exclusive or of what travels and octet i mod 4 of the key |
| WsMeaning.Examples | src/daemon/ws.ts:119-156 | the parser reads the examples of section 5.7 of RFC 6455 |
| CanonicalJson.SerializeString | src/audit/chain.ts:52-71 | the escaping loop is the quoted text, escape by escape |
| CanonicalJson.LessIsTotal | src/audit/chain.ts:28 | any two different keys are ordered one way or the other; which way is `CanonicalReader.LessIsBefore` |
| CanonicalReading.QuotedReadable | src/audit/chain.ts:52-71 | quoted strings are prefix-free: equal texts with any continuations force equal strings and continuations |
| CanonicalReading.NumberReadable | src/audit/chain.ts:42-49 | numbers followed by a delimiter are read back uniquely |
| CanonicalReading.Readable | src/audit/chain.ts:14-40 | equal texts of two values, with delimited continuations, force the same structure and equal continuations |
| CanonicalReading.SameOrder | src/audit/chain.ts:28-34 | sorting by key forgets the order the members came in |
| CanonicalReading.SameTextIffSameMeaning | src/audit/chain.ts:10-40 | two proper values have the same canonical text if and only if they mean the same, up to key order, undefined members and undefined items read as null |
| CanonicalReading.DecimalIsFaithful | src/audit/chain.ts:42-49 | decimal integers are a rendering of the kind the laws assume |
| CanonicalReader.CanonicalIsRead | src/audit/chain.ts:10-71 | the canonical text of a value reads back, with nothing left over, to that value and no other, and the members of every object in it stand in the order of their keys |
| CanonicalReader.ValueIsRead | src/audit/chain.ts:14-40 | and so with any delimited continuation, which is left over |
| CanonicalReader.LessIsBefore | src/audit/chain.ts:28 | a key that sorts before another agrees with it up to some unit, and there ends or has the smaller unit |
| CanonicalReader.EscapeIsRead | src/audit/chain.ts:52-71 | every unit is written as itself or with the one escape that section 3.2.2.2 of RFC 8785 leaves it |
| CanonicalReader.ThrowsIff | src/audit/chain.ts:14-46 | the serializer throws if and only if the value is undefined or a function, a symbol, a bigint, NaN or an infinity stands anywhere in it |
| AuditChain.SealRecord | src/audit/chain.ts:77-87 | a sealed record carries the given payload and the hash of its canonical text |
| AuditChain.VerifyAuditChain | src/audit/chain.ts:89-106 | the loop accepts or names the first record whose link or hash is wrong |
| AuditChain.VerifyAuditRecords | src/audit/verify.ts:60-112 | it passes exactly the numbered and linked lists |
| AuditChain.VerifyAuditFile | src/audit/verify.ts:20-58 | it passes exactly when the records verify and the head has a good MAC and names the last record, and else tells which of these fails first |
| AuditChain.TailDeterminesLog | src/audit/chain.ts:89-106 | linked lists of one length with one tail hash are equal record by record, up to key order |
| AuditChain.HeadDeterminesLog | src/audit/verify.ts:20-112 | two logs accepted under heads with the same sequence number and hash are equal record by record: no edit, reorder, insertion or truncation passes |
| AuditChain.HeadMacDeterminesHead | src/audit/verify.ts:40-49 | two accepted heads with the same MAC are the same head |
| AuditChain.AcceptanceByMeaning | src/audit/verify.ts:20-112 | a log that means the same, record by record, is accepted under the same head |
| AuditLog.AuditLog.constructor | src/audit/log.ts:85-95 | opening an existing file resumes its sequence number, hash and anchor counter; a missing one starts empty, whatever head file there is |
| AuditLog.AuditLog.ReplayHead | src/audit/log.ts:97-107 | the replay loop ends with the last record's number and hash and the count of records since the last anchor |
| AuditLog.AuditLog.Append | src/audit/log.ts:109-110 | a call suspends on the key and changes nothing yet |
| AuditLog.AuditLog.AppendAnchor | src/audit/log.ts:148-154 | the anchor resets the counter and takes the head as it stands at the call |
| AuditLog.AuditLog.Resume | src/audit/log.ts:111-146 | a resumed append seals, writes, moves the head and counts in one step, and calls for an anchor when one is due; what the record carries is `AuditRecords.ResumeWrites` |
| AuditLog.EveryInterleavingVerifies | src/audit/log.ts:85-154 | after every step of every interleaving the file verifies against its head as soon as it holds a record, and each automatic anchor names the hash of the record whose number it carries |
| AuditRecords.EveryRecordIsItsCall | src/audit/log.ts:109-146 | in every interleaving record k carries, member by member and under its name, the version, time, type, task, computer and body of the call whose resumption wrote it; task and computer are absent if and only if the call had none |
| AuditRecords.ResumeWrites | src/audit/log.ts:112-129 | a resumed append that can be written adds one record, with what its call passed, the next number and the last hash; any other adds none |
| AuditRecords.EveryRecordFollows | src/audit/log.ts:109-146 | in every interleaving record j has the number j + 1, the hash of the record before it or "genesis", and as its own hash the MAC under its scheme of the canonical text of its members |
| AuditRecords.HeadIs | src/audit/log.ts:130-136 | the head file holds version 1, the number of records and the last hash, and the MAC of exactly these three |
| AuditRecords.AnchorNamesHead | src/audit/log.ts:148-154 | an anchor call has the type audit.anchor, no task and no computer, and the head and number of the moment of the call |
| Anchors.AnchorSpacing | src/audit/log.ts:138-153 | when appends are awaited and n anchors are lost to a failing key, more than (1 + n) times `anchorEvery` records in a row always hold an anchor; with none lost, more than `anchorEvery` |
| Anchors.StretchIsProduct | src/audit/log.ts:138-153 | the bound of `Anchors.AnchorSpacing` is (1 + n) times `anchorEvery`, or 1 + n when `anchorEvery` is less than one |
| Anchors.LossesAddUp | src/audit/log.ts:148-153 | for every `anchorEvery` and every n, an awaited run that loses n anchors and leaves (1 + n) times that many records in a row without one |
| Anchors.PlainBoundIff | src/audit/log.ts:138-153 | a log at rest that has kept the plain bound goes on keeping it while no anchor is lost, if and only if its counter covers the records since the last anchor and these are fewer than `anchorEvery` |
| Anchors.CounterSlack | src/audit/log.ts:97-153 | at rest between awaited appends the counter is at most the true count and one, unless an anchor was appended by its type, and at least the true count if and only if no anchor was lost, with records before it to cover, since the last written one or reopen |
| Takeover.TakeoverSession.GateMethod | computer-server/src/takeover-gate.ts:84-100 | live input passes for the human's current epoch only and renews the lease; other methods pass when the session is not busy; relay, control and exempt methods pass always |
| Takeover.TakeoverSession.Move | computer-server/src/takeover-gate.ts:102-126 | a transition the table allows changes state, id, epoch and lease to those of the specification function; any other changes nothing; `TakeoverEpochs` says what the epochs are for |
| Takeover.TakeoverSession.Dispatch | computer-server/src/dispatch.ts:239-371 | each takeover command, both forms of sync included, checks its id and its transition in the source's order and leaves the state the specification gives, also when a later side effect fails |
| TakeoverEpochs.TransitionsAreRows | src/protocol/takeover.ts:22-39 | the transitions are the rows of the table and no others |
| TakeoverEpochs.EpochNeverDecreases | computer-server/src/takeover-gate.ts:102-126 | over every sequence of commands but the sync of the human state the epoch never decreases |
| TakeoverEpochs.SameEpochIff | computer-server/src/takeover-gate.ts:102-126 | two moments of human control have the same epoch if and only if the session is human or validating all the time between them |
| TakeoverEpochs.InputPassesInOneTurn | computer-server/src/takeover-gate.ts:84-93 | live input with one epoch passes the gate at two moments only if no other state came between them |
| TakeoverEpochs.GateByState | computer-server/src/takeover-gate.ts:84-100 | state by state: live input passes for the epoch of a human session, tools for an agent or an ended one, relay, control and exempt methods always |
| TakeoverEpochs.LifeRemembers | computer-server/src/takeover-gate.ts:102-126 | at every moment an agent session holds no id, lease or reason, a human one has a lease, and any other has an id |
| TakeoverEpochs.AcceptedLeaves | computer-server/src/dispatch.ts:239-371 | what each accepted command leaves in id, lease, reason and epoch, in terms of its arguments |
| TakeoverEpochs.ReplyReports | computer-server/src/takeover-gate.ts:128-145 | an accepted reply reports the state, id, lease and epoch that the command leaves |
| TakeoverEpochs.FailsIff | computer-server/src/dispatch.ts:239-371 | a request fails if and only if a fault hits it, and a refusal leaves the session as it was |
| TakeoverClient.ExecClient.RequestBoth | src/computer-client/exec-client.ts:163-170 | the browser decides and the shell is touched only after it accepted |
| TakeoverClient.ExecClient.GrantTakeover | src/computer-client/exec-client.ts:172-197 | status, check, sync of the shell, grant on both, stopping at the first refusal |
| TakeoverClient.ExecClient.DeclineTakeover | src/computer-client/exec-client.ts:199-220 | both statuses, ids and states are checked before either side is touched |
| TakeoverClient.ExecClient.ReleaseTakeover | src/computer-client/exec-client.ts:222-243 | release on both, a masked observation, and validation on both with what it saw |
| TakeoverClient.ExecClient.ExpireTakeover | src/computer-client/exec-client.ts:245-247 | expiry on both |
| HandoverSafety.TakeoverSafety | src/computer-client/exec-client.ts:158-247 | in every run with any faults and asks, after every request and ask: while the browser is human or validating the shell is not the agent's and no tool passes the gate on either side, and live input passes the browser's gate for a human's current epoch only |
| HandoverHistory.HistoryIsComplete | src/computer-client/exec-client.ts:158-247 | the moments that the safety speaks of are all there are: between two of them one command has reached one side, and the last is the present |
| HandoverHistory.OnlyFaultsFail | src/computer-client/exec-client.ts:158-247 | without faults every operation is accepted or refused |
| HandoverOutcome.OkMeansAgreement | src/computer-client/exec-client.ts:158-247 | for every world and every faults and asks, an accepted grant, release, decline, expiry or sync reports its goal and leaves the shell in it; the browser is in it too if and only if not the model asks right before the last request to the shell and the goal is agent or paused |
| HandoverOutcome.DeclineSplits | src/computer-client/exec-client.ts:163-170 | wherever a decline succeeds without faults, an ask between its two last requests leaves the shell with the agent and the browser waiting for a person, under an ok reply |
| HandoverOutcome.BothAgree | src/computer-client/exec-client.ts:158-170 | an accepted step of both sides takes the shell to its target, and the browser if and only if no ask that its target takes comes before the request to the shell |
| HandoverOutcome.GrantSucceedsIff | src/computer-client/exec-client.ts:172-197 | without faults a grant succeeds if and only if it is for the open request, whatever state the shell was left in |
| HandoverOutcome.DeclineSucceedsIff | src/computer-client/exec-client.ts:199-220 | without faults a decline succeeds if and only if both sides can go back to the agent under this id |
| HandoverOutcome.ReleaseSucceedsIff | src/computer-client/exec-client.ts:222-243 | without faults a release succeeds if and only if both sides are human under this id |
| HandoverOutcome.StaleGrantTouchesNothing | src/computer-client/exec-client.ts:177-186 | a grant for anything but the open request rewrites neither session |
| HandoverOutcome.InvalidDeclineTouchesNothing | src/computer-client/exec-client.ts:209-218 | a decline that either side could not follow touches neither |
| TakeoverRows.Store.CloseStaleTakeovers | src/daemon/store.ts:1456-1466 | the clean-up runs once a database and terminates exactly the stale rows |
| TakeoverRows.Store.FinishTask | src/daemon/store.ts:854-870 | only an unfinished task changes status, and with it its unanswered rows are terminated |
| TakeoverRows.ActiveIsLatest | src/daemon/store.ts:1435-1447 | if the query selects any row the answer is a selected row, and no selected row is later |
| TakeoverRows.CloseStaleIsInvisible | src/daemon/store.ts:1435-1466 | closing stale rows changes the answer for no computer and no task |
| TakeoverRows.CloseStaleMissesNone | src/daemon/store.ts:1456-1466 | every row still open afterwards is held by a person or waits for a live task |
| TakeoverRows.CloseStaleIsIdempotent | src/daemon/store.ts:1449-1455 | a second clean-up would change nothing |
| TakeoverRows.FinishCleanupIsInvisible | src/daemon/store.ts:862-868 | when a task ends, closing its rows gives the same answers as the change of status alone |
| TakeoverRows.HeldRowOutlivesTask | src/daemon/store.ts:94-102 | a row held by a person still holds its computer after its task ends, for every asking task |
| TakeoverRows.SelectsByState | src/daemon/store.ts:94-102 | state by state: an ended row never answers, one that a person has or had always does, and an unanswered one for its own running task or, without a task, for everyone |
| TakeoverRows.ClosedByState | src/daemon/store.ts:862-868 | the clean-ups close exactly the unanswered rows of tasks that ended, or of the one that ends |
| TakeoverRows.LaterIff | src/daemon/store.ts:1443 | time stamps compare by the first character that differs, and a text after its prefixes |
| McpRelay.McpListen.OnConnect | computer-server/src/native-process.ts:134-137 | a new client gets the next number |
| McpRelay.McpListen.OnLine | computer-server/src/native-process.ts:138-148 | a line goes up with its id and a cancel's target tagged as the specification function says (`McpMessages.LineGoesUp` says what stays); after a line that is no message the client hears nothing more, while lines it sent already still go up until its socket closes |
| McpRelay.McpListen.OnClose | computer-server/src/native-process.ts:147-148 | a closed client is gone: nothing more is taken from it or sent to it |
| McpRelay.McpListen.OnReply | computer-server/src/native-process.ts:150-160 | a reply goes to the client in its id with the original id, a notification to everyone, an id that takes apart but names no client to nobody, and anything else ends the relay |
| McpRelay.RelayIsPrivatePipes | computer-server/src/native-process.ts:128-167 | every run, projected onto one client, is a run of a private pipe: what it has upstream and received and whether it is open and hears; `McpMessages.UpstreamIsWhatWasSent` says what it has upstream |
| McpMessages.UpstreamIsWhatWasSent | computer-server/src/native-process.ts:138-146 | in every run the messages a client has upstream are, in order, those it sent: name and rest the same, an id exactly when it was there, and the tags taken apart give back its id and the target of its cancel |
| McpMessages.LineGoesUp | computer-server/src/native-process.ts:138-146 | a line of a connected client goes up as one such message behind all others |
| McpMessages.ReplyByItsId | computer-server/src/native-process.ts:151-160 | a message under an id reaches the client that the id names, if it hears, with the original id and nothing else changed; it is dropped if the id names none and ends the relay if it does not take apart |
| McpMessages.NotificationReachesAll | computer-server/src/native-process.ts:159 | a message without an id reaches every client that hears, unchanged |
| McpMessages.NewClientIsNew | computer-server/src/native-process.ts:134-137 | a new client has a number that none had before |
| McpMessages.WhoIsConnected | computer-server/src/native-process.ts:134-148 | a connect adds its client, a close takes its client away, and nothing else changes who is connected |
| McpRelay.IdsNeverCollide | computer-server/src/native-process.ts:141 | ids of different clients are never equal upstream |
| McpRelay.ReplyReachesAsker | computer-server/src/native-process.ts:154-157 | the reply to a request reaches the client that asked, with its original id, and no other |
| McpRelay.CancelNamesItsRequest | computer-server/src/native-process.ts:142-143 | a cancel names a request's upstream id if and only if that client sent a request with that id |
| McpRelay.RelayEndsIff | computer-server/src/native-process.ts:151-160 | an event ends the relay if and only if it is a line from upstream that is no message or whose id does not take apart, a null id among them |
| McpRelay.HonestUpstreamKeepsRelayAlive | computer-server/src/native-process.ts:151-160 | if upstream answers only ids it was sent, and so never with a null id, no client can bring the relay down |
| ProcessTree.Tree | computer-server/src/native-process.ts:37-45 | on any table, cycles included, the loop ends with the root and exactly the processes whose parent chain reaches it |
| ProcessTree.OrderIsIrrelevant | computer-server/src/native-process.ts:37-45 | the order of the rows does not change a process's reachability |
| ProcessTree.ControlPids | computer-server/src/native-process.ts:47-56 | exactly the rows that are not the caller, not protected, not zombies and in the state the mode wants, in the order of the table |
| ProcessTree.SelectedByKind | computer-server/src/native-process.ts:47-56 | mode by mode: neither the caller, nor the first process, a supervisor, or anything at or below a desktop process; of the others pause takes those neither zombie nor stopped, resume the stopped ones |
| ProcessTree.DesktopIsNeverSelected | computer-server/src/native-process.ts:30-56 | a desktop process and everything below it is selected in neither mode |
| ProcessTree.ModesPartition | computer-server/src/native-process.ts:54-55 | pause and resume divide the processes that are neither protected, nor zombies, nor the caller |
| ProcessTree.ModesAreDisjoint | computer-server/src/native-process.ts:54-55 | no pid is selected in both modes |
| ZipStore.Store | src/daemon/zip-store.ts:27-87 | the archive, or the error of a name or a number of entries that 16 bits cannot hold |
| ZipStore.Parts | src/daemon/zip-store.ts:28-73 | the loop's locals, centrals and running offset |
| ZipStore.RoundTrip | src/daemon/zip-store.ts:27-87 | the reader recovers exactly the packed entries, in order |
| ZipHeaders.EveryField | src/daemon/zip-store.ts:27-87 | every byte of every archive: at the positions the sizes give, the local headers, names and data, the directory headers and names and the end record, field by field with the numbers of APPNOTE.TXT, CRC and compressed sizes included |
| ZipStore.RecordedOffset | src/daemon/zip-store.ts:68-72 | the offset recorded for an entry is the total length of the local records before it |
| ZipStore.TotalSize | src/daemon/zip-store.ts:27-87 | the archive takes 22 bytes and for each entry 76, twice its name and its data |
| ZipStore.LargeEntryIsLost | src/daemon/zip-store.ts:13-17 | an archive with an entry of 4 GiB or more is never read back |
| ZipStore.ReadsFromField | src/daemon/zip-store.ts:75-86 | whatever the entries, the reader reads as many records as there are from the directory's start modulo 2^32 |
| ZipStore.WrappedDirectoryIsLost | src/daemon/zip-store.ts:13-17 | when the local records take 2^32 bytes or more that is inside them, and nothing is read unless the signature of a directory record stands there |
| Transcript.Conversation.Compact | src/daemon/compact.ts:32-69 | the transcript is cut in place at the point the scans find, under one note, or left alone |
| Transcript.Conversation.AnswerOpenCalls | src/daemon/agent-loop.ts:194-212 | an answer for each open call is pushed at the end, in order |
| Transcript.NoOrphanIff | src/daemon/compact.ts:32-69 | from a transcript without orphans no compaction, however many results it keeps, makes one, if and only if no result of an earlier turn stands after a turn that issued another result |
| Transcript.KeepOrphansIff | src/daemon/compact.ts:36-60 | for one number of results to keep: no orphan if and only if no result so crosses the result that many from the end |
| Transcript.OrderOfTurnsIsNotEnough | src/daemon/compact.ts:41-54 | a transcript with results in the order of their turns whose cut orphans one |
| Transcript.CompactKeepsImmediate | src/daemon/compact.ts:32-69 | compaction keeps that every result answers the latest turn with calls |
| Transcript.CompactKeepsResults | src/daemon/compact.ts:32-69 | what is kept is a suffix under one note and holds the last results, as many as are to be kept |
| TranscriptCuts.CutIs | src/daemon/compact.ts:36-60 | as many results stay as are to be kept, or all, and the cut is at the nearest turn before the first of them that made its call, or at it when there is none |
| TranscriptCuts.PlainCutIs | src/daemon/compact.ts:55-60 | without results the last messages stay, as many as are to be kept, and a shorter transcript is left alone |
| TranscriptCuts.RunOnlyAppends | src/daemon/agent-loop.ts:690-869 | between compactions the loop only appends |
| Transcript.RunNeverOrphans | src/daemon/agent-loop.ts:690-869 | after any mix of loop appends and compactions every kept result has its call earlier in the transcript |
| Transcript.ResumeAnswersOnce | src/daemon/agent-loop.ts:194-212 | with distinct call ids, resuming keeps the stored transcript as a prefix and answers each open call exactly once |
| TranscriptCuts.ResumeIs | src/daemon/agent-loop.ts:194-212 | for any transcript, repeated ids included: one result is appended for each call that no result names, at every place where one is made, in the order of the calls, and nothing else |
| Transcript.ResumeNeverOrphansIff | src/daemon/agent-loop.ts:194-212 | with distinct ids, no compaction of a resumed transcript orphans a result if and only if every open call is of the latest turn with calls |
| Transcript.ResumeIsImmediateIff | src/daemon/agent-loop.ts:194-212 | a resumed transcript is as the loop makes them if and only if every open call is of the latest turn with calls |
| Transcript.SecondResumeCanOrphan | src/daemon/agent-loop.ts:194-212 | a transcript paused twice whose resumption a later compaction orphans |
| LoopDetection.HasPeriodCycle | src/daemon/agent-loop.ts:235-249 | the loop over copies on the 8-entry window answers whether the full history ends in two copies of a cycle of distinct actions under one observation |
| LoopDetection.WindowIsEnough | src/daemon/agent-loop.ts:172 | the window of 8 gives the answer of the unbounded history |
| LoopDetection.LoopGuard.Record | src/daemon/agent-loop.ts:725-745 | a recorded call stops the run if it repeats too often without change or closes a cycle |
| LoopDetection.CycleFreeMore | src/daemon/agent-loop.ts:734-744 | a history without cycles stays so with a call that closes none |
| LoopDetection.TwoCycleIs | src/daemon/agent-loop.ts:235-249 | call by call: a b a b under one observation |
| LoopDetection.ThreeCycleIs | src/daemon/agent-loop.ts:235-249 | and a b c a b c |
| LoopDetection.RepeatsIff | src/daemon/agent-loop.ts:727-731 | a key counts as repeated m times if and only if the last m calls have it |
| LoopDetection.RunIsCycleFree | src/daemon/agent-loop.ts:725-745 | the recorded calls that get past the check hold no two copies of a 2- or 3-cycle anywhere, however long the run |
| Approvals.GrantTaskOrigins | src/daemon/store.ts:1028-1044 | the loop skips empty and known origins, adds new ones and stops at 32; it returns exactly the origins of the rows it added, in order |
| Approvals.GrantedKeeps | src/daemon/store.ts:1028-1044 | grants are only added, only for this task and row, and the limit holds for every task |
| Approvals.GrantedOrigins | src/daemon/store.ts:1035-1043 | what is granted was granted before or is one of the origins, and only the limit leaves one of them out |
| Approvals.GoesIff | src/daemon/dispatcher.ts:700-741 | a call goes if and only if the latest row for its action is approved, unexpired and bound to it |
| ApprovalAnswers.VerdictIs | src/daemon/dispatcher.ts:700-725 | with the latest row for the action, bound to the call and neither expired nor consumed: late it expires, pending the call waits, denied or killed it is refused, approved it goes; without one the call asks |
| ApprovalAnswers.BeginIs | src/daemon/dispatcher.ts:687-750 | asking adds a pending row with what was asked, expiry marks the row, waiting and refusal change nothing, and a call that goes grants what it uses if and only if the answer was for the whole task, up to the limit |
| ApprovalAnswers.AnswerIs | src/daemon/server.ts:3791-3830 | a pending row takes its answer and keeps it; allowing approves, deny and kill do not; for the whole task every origin it names is granted unless the task is full, and no other answer grants anything |
| ApprovalAnswers.LateAnswerIs | src/daemon/server.ts:3786-3800 | an answer after the expiry marks the row expired, and one to a row that is not pending changes nothing |
| ApprovalAnswers.AllowedStays | src/daemon/server.ts:3804-3826 | over the rest of every run what such an answer named stays granted or the task is full, and every grant is of an origin that its row named or used, for that row's task |
| ApprovalAnswers.UncertainSpends | src/daemon/dispatcher.ts:333-346 | code by code: five failures spend the approval as a success does, under the answer given or once when none is recorded; seven leave it |
| Approvals.ApprovalStore.FindApprovalByAction | src/daemon/store.ts:1308-1326 | the latest row of the task for the action |
| Approvals.ApprovalStore.SetApprovalStatusIf | src/daemon/store.ts:1292-1306 | one row changes if it has the expected status, and nothing else does |
| Approvals.ApprovalStore.ConsumeApprovalWithGrant | src/daemon/store.ts:1058-1083 | for any expected status, origins and decision, consuming and granting happen together or not at all |
| ApprovalAnswers.ConsumeIs | src/daemon/store.ts:1058-1083 | a row in another status changes nothing; else it is consumed with its decision and every origin is granted or the task full |
| ApprovalAnswers.CountIsSize | src/daemon/store.ts:1030-1034 | the count that the limit is about is the number of the task's grants |
| Approvals.OneApprovalOneEffect | src/daemon/dispatcher.ts:687-832 | in every run without overlapping calls under one row, each row buys at most one call that counts, a consumed row bought exactly one, every grant goes back to an answer for the whole task, and no task holds more than 32 origins |
| Approvals.ConsumedIsFinal | src/daemon/dispatcher.ts:700-701 | a consumed row stays consumed and never runs a call again |
| Approvals.NoEffectKeepsApproval | src/daemon/dispatcher.ts:333-346 | whatever else is under way, a call that was stopped, thrown, sent back or without effect leaves its approval usable by the same request |
| Approvals.EffectSpendsApproval | src/daemon/dispatcher.ts:773-778 | whatever else is under way, a call that counts consumes its row, and the same request must ask again |
| Approvals.OverlapBuysTwo | src/daemon/dispatcher.ts:773-778 | in every state in which a row stands twice among the calls under way, two results that spend both count under it |
| Approvals.BeginOverlaps | src/daemon/dispatcher.ts:728-741 | a call that begins under a row whose call is under way makes such an overlap |
| Approvals.StaysSingleIff | src/daemon/dispatcher.ts:687-832 | without a new overlap no row ever buys two calls that count, if and only if none stands twice among the calls under way |
| HarnessBudget.Store.ObserveHarnessToolCall | src/daemon/store.ts:1157-1199 | a refused task's call claims the audit if it is free; any other call is counted, priced and judged |
| HarnessBudget.Store.FinishHarnessDenialAudit | src/daemon/store.ts:1202-1210 | a written audit is reserved for a binding still denied, and the claim is released either way |
| HarnessBudget.Store.SetTaskSpendCap | src/daemon/store.ts:764-768 | the cap changes and the refusal is recomputed |
| HarnessBudget.Store.SetTaskMaxSteps | src/daemon/store.ts:771-775 | the step budget changes and the refusal is recomputed |
| HarnessBudget.DeniedIffExhausted | src/daemon/store.ts:159-187 | after every operation of every run a binding is denied if and only if a budget is exhausted |
| HarnessBudget.RowIsLedger | src/daemon/store.ts:764-795 | at every moment of every run the caps in force are the last ones set, every call not refused beforehand is counted once, and calls are refused if and only if calls times price reach the cap or calls the step budget |
| HarnessBudget.AuditsAreConserved | src/daemon/dispatcher.ts:238-286 | the audits that were sent and have not ended are those on their way, of the current budget and of older ones |
| HarnessBudget.PermittedIsBelowCap | src/daemon/store.ts:1177-1198 | a permitted call leaves the estimate strictly below the cap in force and room for another step |
| HarnessBudget.RefusingCall | src/daemon/task-view.ts:74-93 | the first refused call is the meter's last call, or the one after it: that if and only if the cap is no whole number of calls and its whole part is below the step budget |
| HarnessBudget.NoLimitNeverRefuses | src/daemon/task-view.ts:81-91 | a binding whose meter shows no limit refuses nothing |
| HarnessBudget.OneAuditPerBudget | src/daemon/dispatcher.ts:238-286 | if budgets change between audits, then at every moment of a run each refusal has at most one audit on its way or written and a refused call sends one if and only if there is none (so it retries a failed one), if and only if no first refused call of the run fails to append its usage event |
| HarnessBudget.FailedUsageSticks | src/daemon/dispatcher.ts:245-252 | such a failure leaves a refusal with its claim taken and no audit on its way or written |
| HarnessBudget.StuckStays | src/daemon/store.ts:1160-1175 | and then no call sends one as long as calls are refused, whether budgets change or not |
| HarnessBudget.SafeToChangeIff | src/daemon/store.ts:787-795 | a change of budget, with only quiet ones and no failing usage event after it, leaves that rule in force for good if and only if no audit is on its way at the change |
| HarnessBudget.ChangeInFlightDoubles | src/daemon/store.ts:787-795 | from every state with an audit being appended a change of budgets can lead to two audits of one refusal being appended |
| HarnessBudget.ChangeInFlightLoses | src/daemon/store.ts:1202-1210 | from every such state it can also lead to a refusal on record as audited with no audit on its way or written |
| HarnessBudget.UnauditedStays | src/daemon/store.ts:1160-1175 | and then no call sends one until budgets change again |
| OutFiles.CountFiles | computer-server/src/out-files.ts:63-80 | the stack loop answers the smaller of the cap and the number of entries that are no directories, below directories it can open and list, on any tree |
| OutFiles.OutDir.WriteFile | computer-server/src/out-files.ts:107-229 | the checks, directories, opening and writing, in order, give the specified tree and answer, also for a link that leads nowhere, within or out, a device or a directory in the file's place, and for directories without leave to list, search or write |
| OutFiles.WriteIsExact | computer-server/src/out-files.ts:107-229 | a refused call changes nothing; an accepted one gives its file the right content within the limit, leaves every other file as it was and adds one file when it is new |
| OutFiles.AcceptedIff | computer-server/src/out-files.ts:107-229 | a call is accepted if and only if its path lies within, meets no link out and can be opened, and there is nothing at it and room for one more file, or a file and the mode is to overwrite, or to append within the limit |
| OutFiles.AcceptedBytes | computer-server/src/out-files.ts:189-214 | the file then holds the new bytes, after its old ones if and only if the mode is to append |
| OutFiles.ErrorsTell | computer-server/src/out-files.ts:107-229 | what each of the three errors tells, and which of two comes first |
| OutFiles.EscapesIff | computer-server/src/out-files.ts:157-163 | a path is refused as an escape if and only if it meets a link out of the directory, as far as it gets |
| OutFiles.QuotaHolds | computer-server/src/out-files.ts:107-229 | over any calls, from any directory, the count never passes the larger of cap and initial count, and a file over its limit was there before, unchanged |
| OutFiles.TotalBoundedIff | computer-server/src/out-files.ts:62-80 | with distinct names, the files there are, over any calls, stay within the larger of cap and initial number if and only if the visible files have reached the cap already, or all files are visible and no directory that can be written is out of sight |
| OutFiles.QuotaIsTotal | computer-server/src/out-files.ts:62-80 | where every directory can be listed and searched it stays so, and the cap bounds all files there are |
| OutFiles.QuotaFromEmpty | computer-server/src/out-files.ts:107-229 | from an empty directory the cap bounds all the files that any calls leave |
| OutFiles.UnlistedEscapes | computer-server/src/out-files.ts:71-73 | in any tree, a directory out of sight that can be reached and written takes one more file as long as the visible ones are fewer than the cap, and these do not become more |
| ConnectToml.StripCodexModelbotSection | src/cli/connect-writers.ts:198-218 | the line loop with its flag, then the three tidying steps |
| ConnectToml.StripKeepsTheRest | src/cli/connect-writers.ts:198-218 | what is left is the lines outside our sections, in order, but for blank ones, and none opens a section of ours |
| ConnectTools.TableIff | src/cli/connect-writers.ts:203 | a line opens a table if and only if it is a bracketed name and then blanks |
| ConnectTools.OursIff | src/cli/connect-writers.ts:206-209 | a header is ours if and only if it names the server or something below it |
| ConnectTools.StripIsTidy | src/cli/connect-writers.ts:217 | cut text ends in one line feed, starts with none but for that one, and has no two blank lines in a row |
| ConnectTools.SectionIsLast | src/cli/connect-writers.ts:225-230 | the section stands alone where there are only blanks, by ECMAScript's white space, and else after one blank line |
| ConnectToml.RenderedIsSection | src/cli/connect-writers.ts:68-93 | the rendered section is one the cutter takes out whole, for every server name that fits a header |
| ConnectToml.ModelbotSection | src/cli/connect-writers.ts:27-93 | and so for the name that connecting uses |
| ConnectTools.EveryToolIsEnabled | src/cli/connect-writers.ts:68-93 | the array that the rendered section opens reads back to every tool, once and in order, for any number of tools |
| ConnectToml.ConnectKeepsTheRest | src/cli/connect-writers.ts:220-231 | connecting keeps the lines outside our sections, in order and but for blank ones, and puts the one new section after them; text of nothing but whitespace there is dropped |
| ConnectToml.ConnectTwiceIff | src/cli/connect-writers.ts:220-231 | connecting twice is connecting once if and only if there are only blanks outside our sections or no line there keeps a carriage return |
| ConnectToml.RemoveAfterConnectIff | src/cli/connect-writers.ts:220-231 | removing after connecting gives what removing gives if and only if the rest is empty or a line feed, or holds more than blanks and no line that keeps a carriage return |
| ConnectToml.LineFeedsAreSteady | src/cli/connect-writers.ts:199 | text without carriage returns meets that condition |
| ConnectToml.BlanksAreLost | src/cli/connect-writers.ts:220-231 | a file with one space: removing leaves it, removing after connecting does not |

## Left out

* Sockets, the HTTP upgrade, and listeners that call back into the connection. Fragmentation and control-frame
  limits, which the code does not define. After the first close only what `WsStream.ClosedIsFinal` says.
* The encoding of canonical text as UTF-8 before it is hashed; it is injective on text without lone surrogates.
  ES6 number formatting is a parameter.
* The JSON text of log lines and of the head file: the model holds records and heads. A crash between the write
  of a record and the write of the head, and redaction of bodies.
* Takeover operations of the client that overlap each other, container restarts and the sync of the human state
  that follows them (a command of the session here, which the modelled operations never send), the credential
  field of a request, and the screen stream.
* Which command line a process has: its kind is given. Signals and the scan of the process table.
* The JSON text of relayed messages. The tag of an id is an injective pairing that can be undone; what another
  text undoes to is a parameter. How many lines still come from a destroyed socket is left open. Socket errors and
  closing are one event.
* What the reader makes of an archive whose directory's offset wraps onto the signature of a directory record. The
  CRC is uninterpreted.
* The wording of compaction notes and of invented answers, screenshots pruned from old observations, and the
  conditions under which the loop compacts: it may at any time.
* The hash of an action and the tools exempt from loop detection: the model sees the recorded calls.
* The rounding of money to 12 decimals: amounts are exact. A usage event of a permitted call that cannot be appended,
  which changes nothing here, and a restart of the daemon, which drops the claims on audits.
* When an approval is needed and how its action is hashed. The end of a task by a `kill` answer. Rows are in the
  order of their creation, so the clock does not go back. Approvals swept after expiry are answers that came late.
* SQLite itself, migrations and JSON columns: rows are values and each statement is a function of the table.
* Links on the way that lead to directories inside the deliverables directory, the modes of files and of that
  directory itself, a pipe that nobody reads, races with other writers, and failures of the disk after a file is
  opened. Parsing of the path: a call's path has a component "..", leads outside, or is given below the directory.
* The merge of a server entry into JSON configuration files: it sets or deletes one key.
* Session windows, configuration, the command line, deployment and the websites.
