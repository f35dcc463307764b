# Verified models of the ERP's delivery, caching, approval and front-end algorithms

A Dafny model of the parts of the repository whose promises span many steps or
many functions, with proofs of those promises. Each module follows one source
component; code that works by changing things is a class or a loop, and every
loop is proved against a function whose own properties are proved beside it.
`dafny verify dfyconfig.toml` checks everything (Dafny 4.11).

**Event delivery** (`EventKey`, `Delivery`, `DeliveryProof`, `DeliveryTheorems`,
`DeliveryWitness`, `ConsumerLoop`). Outbox, relays, topic log, consumers, claims,
dead letters and operator replays are one transition system in which every
database statement, broker call or process failure is a step. The loops of the
relay, the consumer and the operator are methods of the class `Deployment`,
proved to be runs of that system whatever the other processes do in between.

**Access-answer cache** (`AnswerCache`, `AnswerCacheProof`). The mutex-guarded
operations as a class, and lookup, fetch, store, forget and clock ticks as
interleaved steps.

**Approval engine** (`Approval`, `ApprovalProof`, `ApprovalRuns`,
`ApprovalTheorems`, `ApprovalProgress`, `ApprovalRights`). The statements of
`Act`, `Submit`, `Withdraw` and `finish` over their tables, and a system of
concurrent calls in which a decision reads and plans in one step and commits in
a later one.

**Spreadsheets** (`Crc32`, `Zip`, `ZipProof`, `Xml`, `XmlScan`, `Sheet`,
`SheetProof`, `SheetOthers`, `Csv`). The hand-written writer and the hand-written
reader, which share no code, and the proof that the second undoes the first:
bytes of the archive, text of the worksheet, and the delimited form. The reader
is also proved on archives and sheets that other programs write, and the
delimited reader on every text there is.

**Page algorithms** (`OrgChart`, `OrgForest`, `Rail`, `MailFolders`,
`LiveRefresh`, `BigAttachments`, `Money`, `FreightFill`), with `Text`, `Counting`
and `Sorting` for what they share.

## Assumptions about the surroundings

- A transaction commits or rolls back as a whole, unique constraints hold, and
  the topic log is append-only. The acknowledgement of a commit, of a publish, of
  a mark or of an offset commit may be lost at any time, and any process may
  stop at any step.
- Whether an uncommitted message comes back is a parameter (`FetchRule`), because
  the reader is not part of this model. The no-loss theorem is proved for the rule
  that pkg/kafkax/kafkax.go:181 states; for the other rule the exact condition is
  proved and a losing run is given.
- A handler claims inside the transaction that writes its effect, or ignores the
  event and claims nothing (pkg/kafkax/kafkax.go:61-66).
- Clocks, staffing answers, role look-ups, collation (`localeCompare`),
  `toUpperCase`, numeric character references, shared strings and cell formats are
  parameters; theorems hold for all of them unless a condition is stated.
- Text is a sequence of Unicode scalar values; a lone UTF-16 surrogate cannot be
  expressed.

## Where the code and its own documentation disagree

- pkg/kafkax/kafkax.go:313 says that parked events were never claimed. They can
  be: the acknowledgement of the fifth commit is lost, or another consumer claims
  in between (`ParkedAfterItsCommit`; `StaleRowsArise` says exactly after which
  runs). pkg/deadletter/deadletter.go:132-138 says that replaying such a row would
  run the handler's work twice; the claim refuses it, so the work is not repeated,
  but the row cannot be cleared by replays (`StuckExactly`, `StuckForever`) until
  the handler ignores the event (`SkippedReplayClears`).
- pkg/kafkax/kafkax.go:181 relies on the same message coming back. If the reader
  moves on instead, a later cumulative commit passes the failed message and the
  event is lost (`AdvancingLosesAnEvent`); `NothingPassedUnresolvedExactly` says
  exactly when that cannot happen.
- pkg/outbox/relay.go:68 speaks of rows locked against other relays, but the
  query runs outside a transaction, so two relays may read the same row. The
  model allows it; duplicates are harmless (`ExactlyOnce`).
- A replayed envelope lacks the trace id and the time of the first delivery
  (`KeyRoundTrip`).
- pkg/grpcx/answercache.go:44 counts forgets in 64 bits, so 2^64 forgets during
  one fetch look like none (`EpochWraps`).
- services/approval leaves `current_seq` at 1 when the first staffed node has
  another sequence number (`CurrentSeqMisses`); `CurrentSeqExactly` says when the
  column names the node being decided.
- frontend/src/lib/orgChart.ts:93-98 means to guard against cycles only; the
  reports of somebody whose manager is himself end up as orphaned roots too,
  because that line never ends (`AttachedExactly`).
- frontend/src/lib/attachmentExcel.ts:221 knows no self-closing row, though line
  228 knows self-closing cells: an empty row written as one tag swallows the row
  behind it, and every later row moves up (`ShortRowMerges`).
- frontend/src/lib/attachmentExcel.ts:133 drops a last record without a line end
  when it is a single empty field (`UnendedRecord`).
- frontend/src/lib/inquiryWorkspace.ts:78 reads `groups[unit]` from an object that
  inherits names, so a unit such as "constructor" makes the total throw
  (`ProductTotal`, `InheritedUnitFails`).

## Model

| member | source | states |
|---|---|---|
| EventKey.KeyRoundTrip | pkg/deadletter/deadletter.go:175-188 | a parked row gives back its event, colons in the aggregate type and every int64 id included, if and only if the aggregate type is not empty; so a replay claims under the key of the first delivery |
| EventKey.KeyInjective | pkg/kafkax/kafkax.go:57-59 | two events share a dedupe key if and only if aggregate type and id agree |
| DeliveryProof.StepKeepsInv | pkg/kafkax/kafkax.go:146-276 | every step of every process keeps the protocol's invariant, and claims, skips and parked rows are never forgotten |
| DeliveryTheorems.ExactlyOnce | pkg/kafkax/kafkax.go:203-276 | in every run, with crashes, lost acknowledgements, re-sends, rebalances and replays, a group has applied an event once if its claim row exists and never otherwise |
| DeliveryTheorems.NoEventVanishes | pkg/kafkax/kafkax.go:146-193 | under redelivery every outbox event is, for each group, unpublished, at or past the committed offset, claimed, parked or knowingly ignored |
| DeliveryTheorems.NothingPassedUnresolvedExactly | pkg/kafkax/kafkax.go:180-191 | whatever the reader does, no group ever commits past an unresolved message if and only if no offset is committed over one that its session gave up on |
| DeliveryTheorems.StaleRowsArise | pkg/kafkax/kafkax.go:266-275 | after any run a dead letter's event is applied as well if and only if on the way a claimed event was parked or a parked one claimed, and the row was not taken away since |
| DeliveryTheorems.StuckExactly | pkg/kafkax/kafkax.go:309-327 | after any run a dead letter is out of reach of every replay if and only if it became one in that way and no replay of it still holds its own success |
| DeliveryTheorems.StuckForever | pkg/deadletter/deadletter.go:120-160 | no continuation clears such a row unless the handler at some point ignores the event |
| DeliveryTheorems.SkippedReplayClears | pkg/deadletter/deadletter.go:139-160 | a replay whose handler ignores the event takes exactly that row away |
| DeliveryWitness.AdvancingLosesAnEvent | pkg/kafkax/kafkax.go:180-191 | a run in which a reader that moves on loses an event, for any two events |
| DeliveryWitness.ParkedAfterItsCommit | pkg/kafkax/kafkax.go:260-275 | for every event and group, a run from the empty system that ends with the event applied once, parked, and stuck |
| ConsumerLoop.BackoffFor | pkg/kafkax/kafkax.go:278-287 | one second doubled per attempt, capped at the ceiling |
| ConsumerLoop.RetriesDouble | pkg/kafkax/kafkax.go:298-307 | the wait after n fetch failures in a row doubles from the floor and stops at the ceiling |
| ConsumerLoop.Deployment.HandleOne | pkg/kafkax/kafkax.go:223-276 | true only with the event resolved for the group, false only for the reasons the code gives, at most five handler calls; every call of the handler does what its answer says (ignoring is the only way to skip, an error has its reason, a success claims), an event is parked only after five errors, and with nobody else at work the first attempt that does not fail decides: its work is claimed with exactly one effect, in exactly that many calls |
| ConsumerLoop.Deployment.Attempts | pkg/kafkax/kafkax.go:237-275 | the retry loop, call by call: all attempts but the last fail, no wait before it is cut short, and it ends in a settled event, one parked after five errors, or a message given up uncommitted |
| ConsumerLoop.Deployment.CallHandler | pkg/kafkax/kafkax.go:237-247 | one call of the handler: an event is skipped only when the handler ignores it, success means that its claim committed with its work, and each error has its cause, a claim held by somebody else's transaction included; with nobody else at work a handler that works has claimed |
| ConsumerLoop.Deployment.SetAside | pkg/kafkax/kafkax.go:260-275 | parking writes exactly one row with the fields of the event, and leaves a row that is there alone |
| ConsumerLoop.Deployment.Transact | pkg/idempotency/idempotency.go:62-74 | claim and work commit together or not at all, and a taken or locked claim stops the work, whatever others do while the transaction is open |
| ConsumerLoop.Deployment.Run | pkg/kafkax/kafkax.go:146-193 | the consumer loop is a run of the protocol, answer by answer: what each answer of the reader makes it do, a cursor that moves only forward, and a wait that is that of exactly the failures since the last message |
| ConsumerLoop.Deployment.Iteration | pkg/kafkax/kafkax.go:171-191 | a message at the cursor is always fetched, and is passed only when resolved; the stored offset is the one behind it; a malformed message is passed without a call |
| ConsumerLoop.Deployment.Replay | pkg/deadletter/deadletter.go:139-160 | success means that the event is settled under its first key and that the row loaded is gone; a handler that works leaves a claim, one that ignores the event a skip, and every error has its reason |
| ConsumerLoop.Deployment.PublishBatch | pkg/outbox/relay.go:67-119 | what was appended is in the topic and every publish that failed is counted on its row; every row whose publish was acknowledged and whose mark was stored ends up published; with nobody else at work exactly those do, so each row that failed stays for the next batch |
| AnswerCache.CacheKeyInjective | pkg/grpcx/answercache.go:108-109 | equal keys come from equal questions: method, company, asker and body |
| AnswerCache.Store.Lookup | pkg/grpcx/answercache.go:124-133 | a hit exactly when an entry is there whose time is not up, with that entry's reply; else a ticket with the current epochs; one counter moves |
| AnswerCache.Store.StoreAnswer | pkg/grpcx/answercache.go:135-155 | a ticket older than a forget stores nothing; otherwise the answer is in until its time is up, every other entry stays while there is room, exactly the expired ones go when that makes room, and all only if those left would still fill the map |
| AnswerCache.Store.ForgetTenant | pkg/grpcx/answercache.go:157-167 | drops exactly the company's entries, keeps the others as they are, and bumps its epoch modulo 2^64 |
| AnswerCacheProof.AcceptedExactly | pkg/grpcx/answercache.go:138-140 | a ticket is honoured if and only if the forgets that concern its company since the lookup are multiples of 2^64 in number; below that, if and only if there were none |
| AnswerCacheProof.Coherence | pkg/grpcx/answercache.go:92-175 | under every interleaving a hit answers the same question, was stored less than the TTL before, and was fetched after every forget that preceded the call; the map never exceeds its bound |
| AnswerCacheProof.AnswersAreRemembered | pkg/grpcx/answercache.go:124-155 | over every run, an answer that was stored is given to every later lookup of its question until its time is up, a forget that concerns it, a later store under its key, or a store into a full map |
| AnswerCacheProof.HitAgreesWithIam | pkg/grpcx/answercache.go:92-155 | when the company's data last changed before a forget, a hit equals what iam would answer now |
| AnswerCacheProof.EpochWraps | pkg/grpcx/answercache.go:161 | after n forgets a ticket is honoured if and only if n is a multiple of 2^64 |
| Approval.PlanFrom | services/approval/internal/app/service.go:495-507 | the first node from an index on with somebody to ask, with its people; nobody only if all are empty |
| Approval.Engine.Act | services/approval/internal/app/act.go:37-213 | the decision's whole effect on instances, tasks and outbox, row by row; it succeeds only for the assignee or an administrator and never on one's own travel expenses, nor on one's own contract without the right to confirm; every refusal exactly under its own guard, and no trace of a failed transaction |
| Approval.Engine.Transact | services/approval/internal/app/act.go:109-200 | the transaction under the lock equals its specification for every plan made earlier |
| Approval.Engine.Submit | services/approval/internal/app/service.go:153-311 | for each document type the node and the exact people asked first and when the submitter is among them; approval at once only when every node is empty and the type needs no reader; refusal for a second running flow; the rows created |
| Approval.Engine.Withdraw | services/approval/internal/app/withdraw.go:27-47 | only the submitter, only while running, a cancelled flow left alone; exactly the pending tasks are cancelled, everything else is kept |
| ApprovalRuns.ActedKeeps | services/approval/internal/app/act.go:109-200 | every committed decision keeps all tables consistent: one place of work, quorums behind it, nodes with tasks and advance events matching, terminal events matching states |
| ApprovalTheorems.EngineSafe | services/approval/internal/app/act.go:37-272 | over every run of concurrent calls: open tasks exactly while running, all at the last node visited; a quorum at every node that was left, however the flow stands or ended, and at all of them on approval; the nodes with tasks are a first one and those of the advance events, each once and ascending; one terminal event if and only if the engine ended the flow |
| ApprovalTheorems.FinishedForGood | services/approval/internal/app/act.go:115-117 | a finished instance keeps its row, its tasks and its events in every continuation |
| ApprovalTheorems.EventsTellTheTruth | services/approval/internal/app/act.go:245-272 | a terminal event always names the status its instance has, and no document has two running flows |
| ApprovalTheorems.CurrentSeqExactly | services/approval/internal/app/act.go:182-186 | `current_seq` names the node being decided if and only if the flow has advanced or its first node carries sequence 1 |
| ApprovalTheorems.CurrentSeqMisses | services/approval/db/migrations/00001_approval.sql:46 | a submission after which the column names another node |
| ApprovalProgress.EveryStepDescends | services/approval/internal/app/act.go:141-190 | over every run a committed decision ends its instance or makes (nodes ahead, tasks open) smaller in lexicographic order, and every other step ends it or leaves that measure alone |
| ApprovalProgress.DecisionsAreBounded | services/approval/internal/app/act.go:141-190 | in every run at most as many decisions commit on an instance as its definition has nodes times the people any staffing names |
| ApprovalProgress.DecisionsAreConserved | services/approval/internal/app/act.go:120-129 | over every run the tasks decided by people are as many as the decisions that committed |
| ApprovalProgress.DecisionsFollowTheirLook | services/approval/internal/app/act.go:37-200 | over every run a committed decision was made by the assignee or an administrator, on no document of their own, and did what it means under the staffing its own look found: it waits for colleagues, goes to the least later staffed node with one task for each person there, or ends the flow, outside contracts only when every later node was empty |
| ApprovalRights.NeverApprovedUnread | services/approval/internal/app/service.go:213-252 | over every run an approved contract or purchase order holds a task that somebody decided so |
| ApprovalRights.ContractsAreNeverRejected | services/approval/internal/app/act.go:65-67 | over every run no contract is rejected, and no task of one |
| Crc32.Compute | frontend/src/lib/simpleXlsx.ts:12-16 | the table-driven loop computes the bit-at-a-time CRC-32 of section 8 of RFC 1952 for all data |
| Crc32.MakeTable | frontend/src/lib/simpleXlsx.ts:5-10 | entry n is n after eight steps of the register |
| Crc32.ByteStepIsShifts | frontend/src/lib/simpleXlsx.ts:14 | one table step is eight reference steps |
| Crc32.OneBadByteIsDetected | frontend/src/lib/simpleXlsx.ts:12-16 | checksums of messages that differ within one byte are equal only if the byte is |
| Crc32.ChecksumOfA | frontend/src/lib/simpleXlsx.ts:12-16 | the checksum of one letter is the published one |
| Zip.StoredZip | frontend/src/lib/simpleXlsx.ts:28-72 | the buffers written field by field are the archive that `ArchiveIsLaidOut` describes |
| Zip.ZipMembers | frontend/src/lib/attachmentExcel.ts:371-399 | on arbitrary bytes: the last end record within the last 64 KiB or none, the records one behind the other with their extra fields and comments skipped, a later record of a name replacing an earlier one, and the error of the first record that is not there |
| Zip.ReadMember | frontend/src/lib/attachmentExcel.ts:401-419 | a member is the bytes behind its local header, its name and its extra field, as many as the directory says or as are left; each error exactly under its own guard |
| Zip.EndOf | frontend/src/lib/attachmentExcel.ts:373-381 | the last end record within the last 64 KiB, or none |
| ZipProof.MembersOfArchive | frontend/src/lib/attachmentExcel.ts:371-399 | on a written archive the reader lists the first `count mod 65536` entries |
| ZipProof.ArchiveIsLaidOut | frontend/src/lib/simpleXlsx.ts:28-72 | every field of a written archive by its offset, value and width, as sections 4.3.7, 4.3.12 and 4.3.16 of APPNOTE.TXT have it |
| ZipProof.ZipRoundTrip | frontend/src/lib/simpleXlsx.ts:28-72 | for distinct names and sizes within the fields, exactly those entries are found, each with exactly its bytes; all of them if and only if there are fewer than 65536 |
| Xml.UnescapeUndoesEscape | frontend/src/lib/attachmentExcel.ts:353-367 | unescaping the four-pass escape gives the text without its control characters |
| Xml.OtherReferencesRead | frontend/src/lib/attachmentExcel.ts:353-367 | an apostrophe and any decimal or hexadecimal reference are read wherever they stand |
| Xml.PassesAgree | frontend/src/lib/simpleXlsx.ts:78-80 | the four replacement passes amount to one substitution per character |
| XmlScan.SkipPieces | frontend/src/lib/attachmentExcel.ts:221-228 | markup without the element hides none behind it from the scanner |
| XmlScan.ElementFound | frontend/src/lib/attachmentExcel.ts:221-228 | the scanner finds an element with its attributes and its whole content |
| Sheet.ColumnName | frontend/src/lib/simpleXlsx.ts:82-91 | the loop gives the bijective base-26 name |
| Sheet.NamesGrow | frontend/src/lib/simpleXlsx.ts:82-91 | A to Z, AA to ZZ, then AAA |
| Sheet.ColumnIndex | frontend/src/lib/attachmentExcel.ts:323-330 | the loop reads the leading capitals of a reference |
| Sheet.WorksheetRows | frontend/src/lib/attachmentExcel.ts:218-253 | rows in order, read up to the header and `keep` more, then counted only |
| Sheet.ReadCells | frontend/src/lib/attachmentExcel.ts:227-249 | every cell at the column of its reference, or behind the last one, with blanks filled in |
| SheetProof.ColumnRoundTrip | frontend/src/lib/attachmentExcel.ts:323-330 | every column's name reads back as its index, also in front of a row number |
| SheetProof.WorksheetRowsFound | frontend/src/lib/simpleXlsx.ts:97-115 | over a whole written worksheet the row scan finds the written rows in order and nothing else |
| SheetProof.CellReads | frontend/src/lib/simpleXlsx.ts:105-110 | a written cell reads back with its column and its text or digits |
| SheetProof.SheetRoundTrip | frontend/src/lib/attachmentExcel.ts:218-253 | for every grid, reading the written worksheet gives every cell's text at its own row and column, up to the last written cell of a row; rows past the limit come back empty |
| SheetOthers.AttsRead | frontend/src/lib/attachmentExcel.ts:348-351 | whatever other attributes a tag has, and in any order, the one asked for is found |
| SheetOthers.WrittenReads | frontend/src/lib/attachmentExcel.ts:228-249 | a cell as another program writes it reads as what it means: the shared string its number names, the joined runs of a rich text, the shown form of a number in its style, nothing for a self-closing cell |
| SheetOthers.OthersRowReads | frontend/src/lib/attachmentExcel.ts:227-249 | a row of such cells, with references or without, has every cell in its own column: the one referred to, or the one behind the cell before |
| SheetOthers.OthersSheetReads | frontend/src/lib/attachmentExcel.ts:218-253 | a sheet of such rows, with any markup around them, has one row for each, read up to the header and `keep` more |
| SheetOthers.ShortRowMerges | frontend/src/lib/attachmentExcel.ts:221 | a self-closing row comes out as one with the row behind it |
| Csv.ParseDelimited | frontend/src/lib/attachmentExcel.ts:87-138 | the character loop equals its specification on every text |
| Csv.ReadsWhatWasWritten | frontend/src/lib/attachmentExcel.ts:87-138 | any table in the form of section 2 of RFC 4180, quoted or plain, with any mix of line ends, is recovered, but for a bare line feed behind a CR |
| Csv.RecoversExactly | frontend/src/lib/attachmentExcel.ts:121-128 | the table comes back whole if and only if no record written as a bare line feed follows one ended by CR |
| Csv.QuotedTableRecovers | frontend/src/lib/attachmentExcel.ts:87-138 | the fully quoted form is always recovered, for any characters and any delimiter other than quote, CR or LF |
| Csv.UnendedRecord | frontend/src/lib/attachmentExcel.ts:133-136 | a last record without a line end is read, unless it is one empty field |
| Csv.UnclosedRecord | frontend/src/lib/attachmentExcel.ts:95-109 | a quote that is never closed takes the rest of the text, line ends and all |
| Csv.EveryText | frontend/src/lib/attachmentExcel.ts:87-138 | every text, well-formed or not, is records in the written form and a rest, and is read as just those: text behind a closing quote, quotes inside plain fields and quotes left open included |
| OrgChart.LeadsBackTo | frontend/src/lib/orgChart.ts:108-119 | the bounded walk equals its specification |
| OrgChart.PushAll | frontend/src/lib/orgChart.ts:79-100 | each member goes among the roots or under its manager, and orphans are marked |
| OrgChart.AttachedExactly | frontend/src/lib/orgChart.ts:82-99 | a member hangs under its own manager if and only if the manager is listed and the line above ends within 64 hops; it is marked an orphan if and only if it names somebody else as its manager and does not hang |
| OrgChart.ReportIsBelow | frontend/src/lib/orgChart.ts:93-99 | a report stands exactly one level below its manager, so the links have no cycle |
| OrgForest.BuildReportingTree | frontend/src/lib/orgChart.ts:70-104 | the built and sorted forest is the one the theorems speak of |
| OrgForest.CountMembers | frontend/src/lib/orgChart.ts:263-270 | the recursive count is the number of members drawn |
| OrgForest.GrownDrawsAll | frontend/src/lib/orgChart.ts:79-100 | for any links, cycles and missing managers included, every member is drawn exactly once |
| OrgForest.ReportingForest | frontend/src/lib/orgChart.ts:70-104 | the finished forest draws everybody once, so the count equals the input size, hangs each where its links put it and keeps siblings in name order |
| Rail.VisibleRail | frontend/src/lib/mailFolders.ts:106-121 | on any list the one-variable scan keeps a row if and only if no proper ancestor of it is collapsed |
| Rail.AncestorsOf | frontend/src/lib/mailFolders.ts:140-152 | the bounded walk up by parent keys equals its specification |
| Rail.PathIsAncestors | frontend/src/lib/mailFolders.ts:140-152 | the path up holds exactly the ancestors at most that many levels above |
| Rail.RevealShowsActive | frontend/src/lib/mailFolders.ts:130-138 | after reopening, the active row is visible if and only if nothing more than 32 levels above it is collapsed |
| Rail.RevealOpensOnlyThePath | frontend/src/lib/mailFolders.ts:130-138 | reopening takes exactly the ancestors up to 32 levels above out of the collapsed folders |
| MailFolders.SplitFolderPath | frontend/src/lib/mailFolders.ts:220-232 | the path is cut at the last separator of any kind |
| MailFolders.PathOf | frontend/src/lib/mailFolders.ts:220-232 | parent, separator and leaf make up the name, and the leaf holds no separator |
| MailFolders.ParentNamed | frontend/src/lib/mailFolders.ts:220-232 | a name under an existing folder, with any of the three separators, has that folder as its parent and the rest as its leaf |
| MailFolders.NestFolders | frontend/src/lib/mailFolders.ts:244-279 | the grouping loop and the recursive walk give the specified rows |
| MailFolders.FolderTree | frontend/src/lib/mailFolders.ts:244-279 | with unique names each folder has one row: leaf or full name, as deep as folders above it exist, the key of its parent, marked when it has children; in preorder, each behind the row of its parent; the children of one parent by name, equal ones in their old order |
| Sorting.SortArranges | frontend/src/lib/mailFolders.ts:256-259 | the stable sort by name: smaller names first, equal ones in their old order, none lost or repeated |
| MailFolders.ActiveFolderIsShown | frontend/src/lib/mailFolders.ts:130-138 | in a nested rail the active folder is visible after reopening, down to depth 32 |
| LiveRefresh.Scheduler.Schedule | frontend/src/lib/liveRefresh.ts:66-72 | the refresh is owed in any case, and a timer is set exactly when none is pending, nothing runs and the page allows it |
| LiveRefresh.Scheduler.RunEnd | frontend/src/lib/liveRefresh.ts:86-93 | a failure is owed again without a timer, a success counts as the last one and schedules what came in meanwhile |
| LiveRefresh.SchedulerSafe | frontend/src/lib/liveRefresh.ts:51-107 | in every run under a monotonic clock refreshes never overlap, start at least the gap apart, and every notification is owed or answered by a later start |
| LiveRefresh.StoppedStaysQuiet | frontend/src/lib/liveRefresh.ts:101-105 | nothing starts after `stop` |
| LiveRefresh.WaitIsBounded | frontend/src/lib/liveRefresh.ts:69-71 | whatever the clock does, the wait lies between the debounce and the longer of debounce and gap |
| LiveRefresh.WaitIsLeast | frontend/src/lib/liveRefresh.ts:69-71 | the wait is the least that is not below the debounce and keeps the gap from the last start or lasts as long as the gap |
| LiveRefresh.StartsOnlyWhenAllowed | frontend/src/lib/liveRefresh.ts:74-85 | in every run a refresh starts only when its timer is due, on a visible and ready page, with none running and nothing stopped |
| LiveRefresh.OwedIsStarted | frontend/src/lib/liveRefresh.ts:98-100 | what is owed, or has not succeeded for too long, is started by the next heartbeat and its timer when the page allows it |
| BigAttachments.LinkedAttachmentFlags | frontend/src/lib/bigAttachments.ts:26-46 | the flags mark the least number of leading files in size order that makes the rest fit |
| BigAttachments.MinimalLinking | frontend/src/lib/bigAttachments.ts:26-46 | what stays attached fits, no choice of fewer files would do, and ties go to the earlier file |
| BigAttachments.LargestFirst | frontend/src/lib/bigAttachments.ts:37-38 | no choice of as many files weighs more than the first in order |
| Money.SubtotalIsRounded | frontend/src/lib/inquiryWorkspace.ts:35-41 | the cents are the half-up rounding of the exact product, and no other number is |
| Money.CentsReadBack | frontend/src/lib/inquiryWorkspace.ts:40 | printed cents read back as the same cents, with the dot and without it |
| Money.ParseExactly | frontend/src/lib/inquiryWorkspace.ts:36 | exactly the plain decimals are read, with their digits and decimals; everything else is missing |
| Money.ChargeTotals | frontend/src/lib/inquiryWorkspace.ts:42-46 | for each currency with a valid charge, and no other, the exact sum of its subtotals |
| Money.ChargesAddUp | frontend/src/lib/inquiryWorkspace.ts:42-46 | the sums of two lists of charges are those of the two put together, currency by currency |
| Money.OneCharge | frontend/src/lib/inquiryWorkspace.ts:44 | one charge counts its rounded subtotal in the currency it names and nothing elsewhere |
| Money.ContractTotal | frontend/src/lib/contractEditing.ts:16-20 | the exact sum of the lines, or a dash when one has no subtotal |
| Money.LinesAddUp | frontend/src/lib/contractEditing.ts:16-20 | a contract cut in two adds up to its total, and has none if either part has none |
| Money.ProductTotal | frontend/src/lib/inquiryWorkspace.ts:75-81 | exact sums per unit with the decimals of the most precise entry, which as printed read back as the same numbers; fails if and only if a unit is a name every object inherits |
| Money.QuantityReads | frontend/src/lib/inquiryWorkspace.ts:77 | a text of a number, white space and a unit reads as that number with its decimals and exactly that unit |
| Money.QuantityMissing | frontend/src/lib/inquiryWorkspace.ts:77 | a text with anything else in front is missing; a number on one line is not |
| Money.CellsAddUp | frontend/src/lib/inquiryWorkspace.ts:76-79 | sums, decimals, units and missing cells of two lists are those of the two put together |
| Money.CellCounts | frontend/src/lib/inquiryWorkspace.ts:77-79 | one cell counts with all its digits in the unit of its column, else in its own, and in no other |
| Money.ParseOfRendered | frontend/src/lib/inquiryWorkspace.ts:80 | a printed sum reads back as the same number with the same decimals |
| Money.InheritedUnitFails | frontend/src/lib/inquiryWorkspace.ts:78-79 | a concrete unit that makes the total fail |
| FreightFill.FillFreightTable | frontend/src/lib/freightRateFill.ts:64-82 | all the rows there are, then a blank one for each listed product without one, in the order of the list; in each row of a listed product exactly the named columns get the new value; a cell is noted if and only if it changed; the count is that of the rows of listed products |
| FreightFill.UndoAfterFill | frontend/src/lib/freightRateFill.ts:85-91 | with unique product ids the undo of a fill gives back the original rows in order, with or without selecting all |
| FreightFill.EditsSurvive | frontend/src/lib/freightRateFill.ts:84-91 | whatever the page holds by then, the undo restores exactly the touched cells of a row and keeps every other cell |
| FreightFill.UndoneRows | frontend/src/lib/freightRateFill.ts:85-91 | the undo takes out exactly the rows the fill added and keeps the others in order |

## Left out

- Per-aggregate order of published events: pkg/outbox/relay.go:106 states it, but the `continue` of lines 107-110 lets a later event pass a failed one.
- Kafka, Postgres, gRPC and HTTP themselves: only the contracts listed above are used.
- The time a parked row was written, its topic and its reason, and the listing of dead letters: no property rests on them.
- The approval engine's notifications and comments, the idempotent resubmission of a contract by request key, and the resolution of approver types into people: staffing is a parameter.
- Approval.Engine.Submit: the fallback people for purchase orders come in as one list, already chosen and already without the submitter where others exist.
- The checksum inside the archive: the layout takes it as a parameter, since the reader never looks at it; `Crc32` is proved on its own.
- DEFLATE and text decoding: a member that is stored is read byte for byte, one that is deflated is handed on undecoded; names are compared as bytes.
- Sheet.WorksheetRows: the date formats of styles.xml, shared strings and numeric references are look-ups; a `RangeError` from `String.fromCodePoint` is not modelled, and numbers are the digits JavaScript prints.
- SheetProof.SheetRoundTrip: assumes that cell styles 1 and 2 are not date formats, as the styles part of frontend/src/lib/simpleXlsx.ts:125 makes them.
- The wrapping of `.xlsx` parts around the worksheet (content types, relationships, workbook): fixed strings.
- OrgForest.BuildReportingTree: nodes are known by their position, and sorting works on values where the source sorts node lists in place; ids must be distinct, as primary keys are.
- The department tree of frontend/src/lib/orgChart.ts:133-182, which does not reach departments in a longer cycle, and `focusView`, whose parts are filters.
- MailFolders.NestFolders: the source's rows also carry the folder record and its custom flag; sorting is on values.
- LiveRefresh.SchedulerSafe: one clock serves both `Date.now` and the timers.
- Money.ProductTotal: how the parts are joined into one line, and their order, is not modelled; nor is the mark for missing entries beyond their number.
- Money.ChargeTotals: `toUpperCase` is a parameter; as it never yields a name that objects inherit, look-ups by inherited name do not arise.
- Select, unselect and missing-price helpers of frontend/src/lib/freightRateFill.ts beyond those the fill uses: one-line filters.
- Signing, tokens, localisation, routing and the user interface.
