# A verified model of the Gmail SMTP relay

The relay accepts mail over SMTP, stores it in a SQLite table and delivers it from there with a
pool of workers. This project models the path of a message from the first command line to its
final status, and proves what holds on that path for every input, every interleaving of sessions
and workers, and every sequence of crashes and restarts.

`dafny verify dfyconfig.toml` checks everything.

## How the model is built

| file | what it holds |
|---|---|
| `Timestamps.dfy`, `TimestampOrder.dfy` | the RFC3339Nano text of an instant, SQLite's text order, and where the two orders differ |
| `Backoff.dfy` | the retry delay loop over int64 |
| `Queue.dfy` | the table as a class whose rows are replaced in place, and the SQL statements on it |
| `Delivery.dfy` | one process life after another as a state machine: inserts, N workers, crashes, restarts |
| `DeliveryInvariant.dfy`, `DeliveryRuns.dfy`, `Drain.dfy` | row ownership, theorems about whole runs, termination |
| `Runner.dfy` | the worker's code, running inside that machine with everybody else interfering |
| `DataReader.dfy`, `Text.dfy` | lines, message bodies, dot unstuffing, command parsing |
| `Session.dfy`, `Conversation.dfy` | a connection as a reactive machine, and the framing of its input |
| `SessionRules.dfy`, `Logins.dfy` | that machine as its client sees it: on the bytes of each piece, which reply it gets, why, and what it changes; what must have happened for a session to be greeted, logged in or on TLS |
| `Deadlines.dfy`, `Connection.dfy` | what arrives before each read deadline; the connection handler's code, proved to behave as that machine |
| `PlainClient.dfy`, `Framing.dfy` | the lines of a simple client; when part of a message body is read as commands |
| `AuthLimiter.dfy`, `LoginRace.dfy` | the failed-login window and lockout, and the sessions racing past it |
| `Relay.dfy`, `RelayRuns.dfy`, `Talks.dfy`, `Opening.dfy`, `BacklogRace.dfy` | connections, slots, queue and workers together; each connection in it as a conversation; where the backlog limit fails |

Every claim about a run reads the events of the run itself (`DeliveryRuns.Count`, `SendLog`,
`ClaimLog`, `RetryLog`); the per-message history kept in the machine's state is proved to be those logs before
it is used.

A statement that writes may report an error before it took effect or after it (`Queue.Fault`). The
claim, the insert and the marks all allow for both: a claim can commit and be lost, a row can exist
whose client was told 451, and a mark can count although its worker saw an error.

What is assumed:

- What arrives before each read deadline is arbitrary and fixed in advance (`Deadlines.Clock`), and so
  are the answers of the limiter, the alias authority and the handshake while a piece is handled; the
  handler's contract holds for all of them. A read that needs more than has arrived fails, and what
  it had is consumed. A later deadline lets later bytes through, as `bufio` and
  `net.Conn` do.
- Each SQL statement and the claim transaction are atomic, one process uses the database at a time,
  and the primary key rejects a second row with the same id. Message ids are otherwise arbitrary.
- `time.Now` does not go backwards within one goroutine, and for the failures of one key. No clock
  shared by the workers is assumed. Instants are UTC in the years 0 to 9999.
- The results of `Send`, of the sender alias check, of database calls and of the TLS handshake are
  arbitrary at every call. Address syntax, the sender pattern and base64 are arbitrary functions.
- Command text is ASCII, so that trimming and upper-casing are per character. A `char` is one byte.

Where the code and what is written about it differ, the model follows the code:

- The comment on dot unstuffing cites RFC 5321, section 4.5.2. The code removes a dot only from
  lines that begin with two; `DataReader.MatchesRfcReceiverExactlyWhen` says when that is the same.
- Due times are compared as text. A message can be claimed up to a second before it is due, and a
  whole second sorts after every fraction of itself (`TimestampOrder.WholeSecondSortsLast`).
- The setting called a limit per minute does not in general lock a key at that many failures in a
  minute. The least number that always locks is `AuthLimiter.Threshold`: one for a limit of one,
  otherwise 2L-1 when lockouts are shorter than a minute and 2L-2 when they are not, so 118 for the
  default limit of 60 with a lockout of 300 seconds. `AuthLimiter.LimitPerMinuteHoldsExactlyWhen`
  says for which settings it is the limit itself; `AuthLimiter.MayEscape` builds the failures that
  pass in every other case.
- A message body can be read as commands. The read deadline is set once per command and not renewed
  inside DATA; when it passes, the body read so far is dropped, 451 is answered, and the rest of the
  body is served as commands with the envelope still set. `Framing.BodiesStayBodiesExactlyWhen` says
  exactly when; `Framing.BodyLineQuits` and `Framing.BodyFragmentIsQueued` are two inputs. Results
  about accepted mail speak of the body as the server read it.
- The backlog limit is not a bound on the queue. The bound is limit plus connections minus one, and
  `BacklogRace.BoundIsReached` reaches it from the first start-up; the limit itself holds exactly
  for a single connection, or when no conversation is ever told to send a body
  (`BacklogRace.LimitHoldsExactlyWhen`).
- A row does not imply a 250: the insert commits before the reply is written
  (`RelayRuns.EveryRowIsOneBody`).
- The delay is not capped for caps beyond int64's reach: `Backoff.DelayCorrectExactlyWhen`.
- The behaviour document asks for STARTTLS before AUTH on port 587; the code asks for it only when
  `SMTP_REQUIRE_TLS_587` is set, and the model carries that setting.

## Model

| member | source | states |
|---|---|---|
| `Timestamps.DaysBeforeYearClosed` | internal/queue/sqlite.go:106 | the calendar behind the stored dates is the Gregorian one, leap rule included |
| `Timestamps.MonthsClosed` | internal/queue/sqlite.go:106 | its month lengths are those of the calendar, in a closed form that repeats every five months |
| `Timestamps.EpochText` | internal/queue/sqlite.go:106 | the layout, field by field, on the last second of 1970-01-01 |
| `Timestamps.FractionText` | internal/queue/sqlite.go:106 | and with a fraction, whose trailing zeros are dropped |
| `Timestamps.DatesGrow` | internal/queue/sqlite.go:106 | a later day has a later year-month-day |
| `TimestampOrder.StampOrder` | internal/queue/sqlite.go:169-172 | down to the second, text order of stored timestamps is time order |
| `TimestampOrder.ZoneOrder` | internal/queue/sqlite.go:106 | within a second the trimmed fractions compare like the full ones unless one is a prefix of the other, and then the other way round |
| `TimestampOrder.OrdersAgreeExactlyWhen` | internal/queue/sqlite.go:166-172 | on distinct instants text order is time order if and only if they are not in one second with one trimmed fraction a proper prefix of the other |
| `TimestampOrder.WholeSecondSortsLast` | internal/queue/sqlite.go:166-172 | the failing family made concrete: a whole second sorts after all later instants of that second |
| `TimestampOrder.BeforeWithinASecond` | internal/queue/sqlite.go:223-231 | an earlier second always sorts first, so text order is wrong by less than one second |
| `TimestampOrder.FormatInjective` | internal/queue/sqlite.go:190-195 | the stored text determines the instant |
| `Backoff.BackoffDuration` | internal/worker/runner.go:142-155 | the loop with int64 wrap-around computes the delay function, which is min(base*2^(attempt-1), max) whenever the cap fits |
| `Backoff.DoubledIsCapped` | internal/worker/runner.go:144-154 | while the first doubling to reach the cap fits an int64, no doubling overflows and the delay is the capped power |
| `Backoff.DelayCorrectExactlyWhen` | internal/worker/runner.go:142-155 | all delays are min(base*2^(attempt-1), max) if and only if the first doubling that reaches the cap fits an int64 |
| `Backoff.SomeDelayWraps` | internal/worker/runner.go:144-150 | otherwise some attempt gets a negative delay |
| `Backoff.SmallCapsFit` | internal/config/config.go:154-159 | every configuration with base at most max below 2^62 nanoseconds is on the right side |
| `Backoff.DelayMonotone` | internal/worker/runner.go:142-155 | later attempts never wait less and never more than the cap |
| `Queue.SQLiteStore.Enqueue` | internal/queue/sqlite.go:78-111 | inserts exactly when all fields are present, the id is new and the statement takes effect, and reports success only when the database does, and otherwise the first thing that is missing; the new row has the content, is pending with no attempts, due at its creation, and eligible in every later second; otherwise nothing changes |
| `Queue.NewRowWaits` | internal/queue/sqlite.go:103-106 | a new row is pending, untried and due at its creation, and the first claim in any later second may take it |
| `Queue.SQLiteStore.BacklogCount` | internal/queue/sqlite.go:113-119 | scanning every row once counts exactly the pending and processing ones, the set every backlog result is about; DATA decides on this count |
| `Queue.SQLiteStore.GetStats` | internal/queue/sqlite.go:121-133 | each status is counted exactly, the four add up to the table and the backlog equals BacklogCount on the same table |
| `Queue.SQLiteStore.ClaimNextPending` | internal/queue/sqlite.go:159-221 | claims a row no eligible row sorts before: that row and no other becomes processing, has one more attempt and carries the time of the claim, and is returned as stored; returns nothing and changes nothing only if refused or nothing is eligible; otherwise the claim committed and its error hides the row |
| `Queue.ClaimTakes` | internal/queue/sqlite.go:198-202 | the effect of a claim on the table is this: one row processing, one more attempt, update time that of the claim, all else as it was |
| `Queue.SQLiteStore.RecoverStuckProcessing` | internal/queue/sqlite.go:223-240 | row by row, exactly the processing rows whose update time sorts before the cutoff become pending and due now; none is left stuck, the backlog keeps its members, and the number recovered is returned |
| `Queue.SQLiteStore.MarkSent` | internal/queue/sqlite.go:242-252 | sets one row sent whatever its status was, at this update time, and changes nothing else |
| `Queue.SQLiteStore.MarkRetry` | internal/queue/sqlite.go:254-264 | sets one row pending with the new due time whatever its status was, at this update time, and changes nothing else |
| `Queue.SQLiteStore.MarkFailed` | internal/queue/sqlite.go:266-276 | sets one row failed whatever its status was, at this update time, and changes nothing else |
| `Queue.StatusesPartition` | internal/queue/sqlite.go:121-133 | every row is counted under exactly one status |
| `Queue.FirstEligibleExists` | internal/queue/sqlite.go:166-172 | if any row is eligible the ordered query has a first row |
| `Queue.ClaimInTime` | internal/queue/sqlite.go:166-172 | a claimed row is due less than a second from now and no eligible row was created in an earlier second |
| `Queue.EligibleInTime` | internal/queue/sqlite.go:166-172 | a pending row due in an earlier second is eligible, one due in a later second is not, and eligibility means being due unless a fraction is cut short |
| `Queue.RecoveryInTime` | internal/queue/sqlite.go:223-240 | recovery takes every processing row updated in a second before the cutoff's and none updated in a later one, and keeps content and attempts |
| `DeliveryInvariant.StartInv` | cmd/smtp-relay/main.go:36-48 | the ownership invariant holds of an empty queue before the first start-up |
| `DeliveryInvariant.ClaimKeeps` | internal/queue/sqlite.go:198-221 | a claim gives the row exactly one owner and keeps the invariant |
| `DeliveryInvariant.SendKeeps` | internal/worker/runner.go:96 | a returning Send, whatever it returns, keeps the invariant |
| `DeliveryInvariant.DecideKeeps` | internal/worker/runner.go:98-114 | the choice between sent, failed and retry is justified by the last Send, a retry is due the delay after the decision, and the invariant is kept |
| `DeliveryInvariant.MarkKeeps` | internal/queue/sqlite.go:242-276 | a mark without status guard still only moves the marker's own processing row |
| `DeliveryInvariant.LoseKeeps` | internal/worker/runner.go:88-119 | a failed mark, or a claim whose caller got an error, keeps the invariant |
| `DeliveryInvariant.CrashKeeps` | cmd/smtp-relay/main.go:93-117 | a crash keeps the invariant |
| `DeliveryInvariant.RestartKeeps` | cmd/smtp-relay/main.go:41-52 | the recovery at start-up keeps the invariant |
| `DeliveryInvariant.RunKeeps` | internal/worker/runner.go:61-120 | the invariant holds at every point of every interleaving |
| `DeliveryRuns.HistoryIsTrue` | internal/worker/runner.go:86-120 | the recorded sends (outcome, content, attempt), claims, recoveries and interrupted Sends of a message are exactly those of the run |
| `DeliveryRuns.AtMostOneDeliveryPerRecovery` | internal/worker/runner.go:86-120 | in every run a message has at most one delivery plus one per recovery of its row, counting successful Sends and every Send the process died in |
| `DeliveryRuns.AttemptsAreClaims` | internal/queue/sqlite.go:198-214 | attempts is the number of claims, at most the limit plus the recoveries, strictly less while pending |
| `DeliveryRuns.OneOwner` | internal/queue/sqlite.go:198-212 | two workers never hold the same row, and a held row is processing |
| `DeliveryRuns.SettledForever` | internal/queue/sqlite.go:242-276 | a sent or failed row never changes again and its message is never claimed again nor passed to Send |
| `DeliveryRuns.SettledForAReason` | internal/worker/runner.go:96-112 | sent means the last Send of the run for it succeeded, failed means the last one failed for good or once too often, and every Send of the run got the inserted content |
| `DeliveryRuns.UnclaimedIsDue` | internal/queue/sqlite.go:103-106 | in every run a row never claimed is as it was inserted: pending, untried, due at its creation |
| `DeliveryRuns.RetriedForAReason` | internal/worker/runner.go:104-114 | a pending row that was claimed, and not recovered since, failed for the moment only, at that attempt, and has one left |
| `DeliveryRuns.RetriesAreDueOnTime` | internal/worker/runner.go:113-115 | and it is due exactly min(base*2^(claims-1), max) after the last decision of the run to try it again |
| `DeliveryRuns.RecoveredOnlyWhenOld` | cmd/smtp-relay/main.go:41-45 | a start-up recovers only rows whose last claim in the run lies in a second no later than the cutoff's |
| `DeliveryRuns.ContentNeverChanges` | internal/queue/sqlite.go:159-276 | no step removes a row or changes its content or creation time |
| `DeliveryRuns.ClaimsAreSpaced` | internal/worker/runner.go:113-115 | without a recovery between them, claim k+1 of a message comes more than min(base*2^(k-1), max) less one second after claim k |
| `DeliveryRuns.CountersAddUp` | internal/worker/runner.go:96-115 | processed is sent plus retried plus failed plus the workers between the two counter updates |
| `DeliveryRuns.CountersAreTrue` | internal/worker/runner.go:96-115 | each counter is the number of Sends recorded, successes, retries and give-ups since the process last died, counted on the run |
| `DeliveryRuns.RowsConserved` | internal/queue/sqlite.go:121-133 | the rows of the four statuses add up to the inserts of the run |
| `Drain.StepLowersRank` | internal/worker/runner.go:86-120 | every worker step, failed marks and lost claims included, lowers the rank of its own message and raises no other |
| `Drain.DrainIsBounded` | internal/worker/runner.go:86-120 | from any state, orphans or not, however much fails and however often the process dies and starts again, without arrivals and recoveries the workers take at most as many steps as the total rank |
| `Drain.NotDoneCanStep` | internal/worker/runner.go:61-84 | while a message is unsettled some worker step is possible |
| `Drain.DrainEndsSettled` | internal/worker/runner.go:86-120 | without failed marks, lost claims and orphans, a drain that cannot go on has settled every message |
| `Drain.FreshTotal` | internal/worker/runner.go:104-115 | for waiting messages never recovered the bound is five steps for each allowed attempt |
| `Drain.OrphanWaitsForRecovery` | cmd/smtp-relay/main.go:41-45 | a row whose mark failed stays processing and untouched, start-ups and crashes included, as long as no start-up finds it stuck |
| `Drain.RecoveryFreesOrphan` | cmd/smtp-relay/main.go:41-52 | the first start-up that finds it stuck makes it due at once with an attempt left |
| `Runner.Runner.constructor` | cmd/smtp-relay/main.go:41-45 | the pool starts on whatever earlier lives left, after the recovery |
| `Runner.StartUp` | cmd/smtp-relay/main.go:41-52 | recovery, then the pool, or nothing when recovery reports an error; in either case the table is where a run of the machine ends |
| `Runner.Runner.ProcessOne` | internal/worker/runner.go:86-120 | with arbitrary interference between its statements, one call is one pass of that worker in a run of the machine, a claim lost to a late error included; a full pass calls Send exactly once, with the claimed row's content and with the outcome that the run records, any other pass never; store and counters are where the run ends; the pass is empty only if the claim was refused or nothing was eligible; a refused or lost claim and a mark that changed nothing are reported as errors |
| `Runner.Runner.Deliver` | internal/worker/runner.go:96-119 | one call to Send with the message claimed, then the steps its outcome asks for |
| `Runner.Runner.DecideStep` | internal/worker/runner.go:98-114 | sent exactly after a success, failed after the last attempt or for good, otherwise a retry due the capped delay after now; the counter that goes with it and no other goes up, and the step is the machine's |
| `Runner.Runner.MarkStep` | internal/worker/runner.go:100-118 | the row of the message gets the status decided on, and the new due time for a retry, and nothing else changes, unless the database refused |
| `Runner.Runner.RecordProcessed` | internal/worker/runner.go:135-140 | counts the call to Send |
| `DataReader.Reader.ReadLine` | internal/smtp/server.go:216 | returns the input through the next line feed and leaves the rest; when that did not arrive in time, drops what did and leaves what comes later |
| `Deadlines.OneDeadlineForAll` | internal/smtp/server.go:213-216 | one deadline covers a command with its AUTH lines and its body; any other reply starts a new one |
| `DataReader.TerminatorShape` | internal/smtp/server.go:565 | a body ends at a line that is one dot followed only by CR and LF |
| `DataReader.SplitBodyCuts` | internal/smtp/server.go:560-567 | body lines, terminator and rest are the input in order, and no body line is a terminator |
| `DataReader.ConsumeData` | internal/smtp/server.go:557-590 | stops just after the first terminator on the normal and the oversize path; payload and size are the unstuffed body when it fits, no payload and a size over the limit when it does not; an error exactly when no terminator arrived in time, with what did arrive consumed and what comes later left |
| `DataReader.RoundTrip` | internal/smtp/server.go:557-577 | reading a stuffed message returns exactly the message and leaves exactly the rest, or refuses it whole when it is over the limit |
| `DataReader.MatchesRfcReceiverExactlyWhen` | internal/smtp/server.go:569-572 | agrees with dropping every leading dot if and only if no body line begins with an undoubled dot |
| `DataReader.KeepsALoneDot` | internal/smtp/server.go:570-572 | a body line on which the two rules differ |
| `Text.CommandSplit` | internal/smtp/server.go:607-614 | the parser returns a verb and arguments if and only if the line says them: the verb in any spelling, a gap with a blank in it, the arguments; spaces around all of it do not matter |
| `Text.SpelledUpper` | internal/smtp/server.go:609 | upper-casing turns exactly the spellings of a word in small and capital letters into the word |
| `Text.TrimSpaceFinds` | internal/smtp/server.go:609-613 | whatever spaces are around it, text that neither begins nor ends with one is found |
| `Text.FieldFound` | internal/smtp/server.go:453 | the first word is found after any spaces, and what is left is searched in the same way |
| `Text.SplitFound` | internal/smtp/server.go:482 | the first segment ends at the first separator, and what is left is split in the same way |
| `Text.BracketedAddressFound` | internal/smtp/server.go:616-626 | an address in angle brackets is found after spaces and before parameters |
| `Text.BareAddressFound` | internal/smtp/server.go:627-633 | otherwise the first word is the address, less any stray brackets at its ends |
| `Text.NoAddressFound` | internal/smtp/server.go:617-632 | a first word of nothing but brackets, or no word, is no address |
| `Session.ReactKeeps` | internal/smtp/server.go:243-450 | every reaction keeps the session invariant, never undoes TLS, and queues only checked content, exactly on a 250 to a body |
| `Session.OnAuthKeeps` | internal/smtp/server.go:291-308 | AUTH keeps the invariant: no login without greeting and required TLS, at most three failures |
| `Session.OnMailKeeps` | internal/smtp/server.go:310-352 | a sender is set only after login and every sender check |
| `Session.OnRcptKeeps` | internal/smtp/server.go:354-374 | recipients are valid, need a sender and stay within the limit |
| `Session.ThreeFailuresAreFinal` | internal/smtp/server.go:300-303 | with three failures no credentials are checked and the count stays |
| `Session.ReplyAnnouncesMode` | internal/smtp/server.go:391-395 | 354 exactly announces a body, 334 exactly an AUTH line, and only command lines are counted |
| `SessionRules.EhloReply` | internal/smtp/server.go:246-266 | EHLO and HELO in any spelling are answered 250, greet, drop the envelope and change nothing else |
| `SessionRules.StartTlsReply` | internal/smtp/server.go:268-289 | 454 on TLS; after a handshake greeting, login and envelope are gone; after a failed one the session is closed |
| `SessionRules.AuthReply` | internal/smtp/server.go:291-308 | each reply to AUTH without a response: 530, 503, 454, 501, 504 or the question 334, exactly when, and what it changes |
| `SessionRules.ClosedGatesReply` | internal/smtp/server.go:292-307 | and where the gates are closed a response makes no difference |
| `SessionRules.PresentedIsChecked` | internal/smtp/server.go:489-503 | a user and password presented by an AUTH PLAIN argument, a PLAIN line or the two LOGIN lines are answered 454, 235 or 535: logged in and the count cleared if and only if the pair is configured, otherwise counted and reported |
| `SessionRules.NothingPresented` | internal/smtp/server.go:452-555 | a piece that presents no credentials logs nobody in, counts no failure and is not answered 235 |
| `SessionRules.UserLineReply` | internal/smtp/server.go:514-523 | the user line of LOGIN asks for the password, or is answered 535 when it cannot be decoded |
| `SessionRules.NoPairReply` | internal/smtp/server.go:477-486 | a response without credentials in it is answered 535 and nobody is told |
| `SessionRules.FailureRule` | internal/smtp/server.go:493-503 | the failure count goes up by one for wrong credentials, to zero for right ones, and stays otherwise, and the limiter is told of exactly these |
| `SessionRules.LoginRule` | internal/smtp/server.go:493-503 | a session becomes authenticated if and only if the piece presents a configured pair and the user is not blocked |
| `SessionRules.NameRule` | internal/smtp/server.go:510-533 | the user that a password line is checked with is the one that the line before it decodes to |
| `SessionRules.MailReply` | internal/smtp/server.go:310-352 | each of the seven replies to MAIL, exactly when it is given, for any spelling of MAIL and FROM; only 250 sets the sender |
| `SessionRules.RcptReply` | internal/smtp/server.go:354-374 | each of the five replies to RCPT, exactly when; only 250 adds one recipient, at the end |
| `SessionRules.DataReply` | internal/smtp/server.go:376-394 | each of the four replies to DATA, exactly when; only 354 changes the mode |
| `SessionRules.BodyReply` | internal/smtp/server.go:395-426 | each of the three replies to a body, exactly when: the envelope goes with 250 and 552 and stays with 451, and only 250 hands over the message |
| `SessionRules.RsetReply` | internal/smtp/server.go:428-431 | RSET is answered 250, drops the envelope and changes nothing else |
| `SessionRules.NoopReply` | internal/smtp/server.go:433-435 | NOOP is answered 250 and changes nothing |
| `SessionRules.QuitReply` | internal/smtp/server.go:437-440 | QUIT is answered 221 and closes |
| `SessionRules.UnknownReply` | internal/smtp/server.go:442-448 | any other line is answered 502, an empty one 500, and changes nothing |
| `SessionRules.StateRules` | internal/smtp/server.go:243-450 | TLS comes with a handshake and stays; a greeting comes with EHLO or HELO; greeting and login go exactly with the handshake |
| `SessionRules.EnvelopeRule` | internal/smtp/server.go:243-450 | the envelope is dropped by EHLO, HELO, RSET, the handshake and the end of a body; otherwise only an accepted MAIL or RCPT changes it |
| `Conversation.InputIsPartitioned` | internal/smtp/server.go:203-240 | the pieces handled, in order and with cut bodies among them, and the unread rest are the input byte for byte |
| `Conversation.PiecesReadAsAnnounced` | internal/smtp/server.go:391-395 | what the server reads next, a body, an AUTH line or a command, is what its last reply asked for |
| `Conversation.PieceShape` | internal/smtp/server.go:216 | a line ends at the first line feed; a body piece is the whole body at that point of the input or a proper part of it that no terminator line ends |
| `Conversation.CommandsAreCounted` | internal/smtp/server.go:223-228 | at most the limit of command lines is handled; the next is refused with 421 and ends the session |
| `Conversation.Continued` | internal/smtp/server.go:268-289 | a conversation continued on the stream after STARTTLS is one conversation, with the calls of both |
| `Conversation.ConversationsAreSafe` | internal/smtp/server.go:243-450 | from any safe session the session invariant holds throughout every conversation, and all content queued passed policy and limits |
| `Conversation.LockedOutForGood` | internal/smtp/server.go:300-303 | after the third failure nothing in the rest of the conversation checks credentials or logs in |
| `Logins.AuthedByLogin` | internal/smtp/server.go:493-501 | in every conversation an authenticated session had a piece that presented a configured pair, and no handshake came after it |
| `Logins.GreetedByEhlo` | internal/smtp/server.go:246-266 | a greeted one had an EHLO or HELO, and no handshake after it |
| `Logins.TlsByHandshake` | internal/smtp/server.go:282-285 | it is on TLS if and only if it began there or a STARTTLS led to a handshake |
| `Logins.UngreetedRefused` | internal/smtp/server.go:286-313 | until then MAIL is answered 503, and AUTH 503, or 530 where TLS is missing |
| `Logins.PasswordFollowsName` | internal/smtp/server.go:510-533 | the user that goes with a password is what the piece just before it decodes to |
| `Framing.MisreadExactlyWhen` | internal/smtp/server.go:395-400 | for each body, one of its bytes is read as a command if and only if a read failed inside it and anything was read afterwards |
| `Framing.BodiesStayBodiesExactlyWhen` | internal/smtp/server.go:395-400 | a conversation reads no byte of any body as a command if and only if no read failed inside a body with something read after it |
| `Framing.BodyLineQuits` | internal/smtp/server.go:395-400 | the failing input: a pause after the first line of a body whose second line is QUIT gets 451 and then 221 to that line |
| `Framing.BodyFragmentIsQueued` | internal/smtp/server.go:395-424 | with DATA as that second line, the rest of the body is queued and acknowledged as a message with the envelope of the first |
| `Connection.Connection.HandleConn` | internal/smtp/server.go:203-240 | from the first byte the client sends, on either stream: the pieces handled are the input cut by its replies and the deadlines, each gets the machine's reply to the answers given at that moment, the codes written are those replies, the calls into queue and limiter are the machine's; it stops only when closed, when the server shuts down, or when the line it waits for does not arrive in time; a shutdown lets at most the command in progress finish and then answers 421; and it ends safe (`WholeConversation`) |
| `Connection.Connection.Reply` | internal/smtp/server.go:648-663 | writing a reply extends log, codes and session by exactly one step of the machine |
| `Connection.Connection.WholeConversation` | internal/smtp/server.go:185-240 | over both streams of a connection, STARTTLS or not: a safe session, only checked content queued, no credentials checked after three failures, the command limit counted through, TLS only by a handshake, and greeting and login only by an EHLO and a configured pair on the stream in use |
| `Connection.Connection.HandleCommand` | internal/smtp/server.go:243-450 | the line gets the machine's reply as the next entry of the same conversation, and the fields are where the machine is |
| `Connection.Connection.HandleStartTls` | internal/smtp/server.go:268-289 | the machine's reply to STARTTLS comes next in the plaintext log, which stays; the stream is switched if and only if there was no TLS and the handshake succeeded, and then there is no greeting, login or envelope and the conversation goes on with the bytes of the fresh stream |
| `Connection.Connection.HandleMail` | internal/smtp/server.go:310-352 | exactly one step: the machine's reaction to MAIL under the answers given, nothing else changed |
| `Connection.Connection.HandleRcpt` | internal/smtp/server.go:354-374 | exactly one step: the machine's reaction to RCPT, nothing else changed |
| `Connection.Connection.HandleData` | internal/smtp/server.go:376-394 | the reply is the machine's, decided by the number of unsettled rows in the table at that moment; a body is read only after 354 |
| `Connection.Connection.CheckData` | internal/smtp/server.go:376-394 | exactly one step, to 354 or back to commands |
| `Connection.Connection.ReceiveBody` | internal/smtp/server.go:395-426 | one entry for as much of the body as arrived in time; the body is handed over with the envelope as it is, or refused; after a 250 its row is in the table; one cut short is answered 451, leaves the envelope set and leaves the later bytes for the next command |
| `Connection.Connection.AuthCommand` | internal/smtp/server.go:291-308 | the gates before credentials, in order; past them the mechanism decides the reply |
| `Connection.Connection.HandleAuth` | internal/smtp/server.go:452-555 | each mechanism's first reply is the machine's, and any further lines follow in the same conversation |
| `Connection.Connection.FinishPlain` | internal/smtp/server.go:477-503 | exactly one step: the machine's reaction to a PLAIN response |
| `Connection.Connection.Validate` | internal/smtp/server.go:489-503 | exactly one step: blocked, refused and counted, or logged in and cleared, with the call to the limiter that goes with it, as `SessionRules.PresentedIsChecked` has it |
| `Connection.Connection.Login` | internal/smtp/server.go:505-527 | the user line gets the machine's reply, and the password is asked for exactly when it decodes |
| `Connection.Connection.Password` | internal/smtp/server.go:521-549 | the password line gets the machine's reply; without one the connection is dropped |
| `Connection.Connection.PlainLine` | internal/smtp/server.go:462-475 | the same for the line after the empty PLAIN challenge |
| `AuthLimiter.AuthLimiter.AuthBlocked` | internal/smtp/server.go:709-724 | blocked exactly before the end of the lockout, with the wait in whole seconds, at least one |
| `AuthLimiter.WaitIsWhatIsLeft` | internal/smtp/server.go:717-721 | the wait is what is left of the lockout in whole seconds, rounded down, but at least one |
| `AuthLimiter.AuthLimiter.RecordAuthFailureKey` | internal/smtp/server.go:733-751 | the state of the key is the replay of its history with this failure; no other key changes |
| `AuthLimiter.AuthLimiter.RecordAuthFailure` | internal/smtp/server.go:726-731 | records under the user and, when known, the address, and nowhere else |
| `AuthLimiter.AuthLimiter.ClearAuthState` | internal/smtp/server.go:753-757 | forgets one key and no other |
| `AuthLimiter.LockoutNeedsTheLimit` | internal/smtp/server.go:737-749 | a lockout means at least the limit of counted failures in the minute ending there |
| `AuthLimiter.TwiceTheLimitMustLock` | internal/smtp/server.go:741-749 | after any history, even with a clock that went back, twice the limit less one counted failures within a minute include one that locks |
| `AuthLimiter.EscapesExactlyBelow` | internal/smtp/server.go:741-749 | for every configuration, n failures within a minute can all be counted without a lockout if and only if n is below the threshold |
| `AuthLimiter.LimitPerMinuteHoldsExactlyWhen` | internal/smtp/server.go:741-749 | any perMinute counted failures within a minute include a lockout if and only if the limit is one, or two with a lockout of a minute or more |
| `AuthLimiter.LockoutLastsExactly` | internal/smtp/server.go:716-722 | whatever failures follow, the key is blocked exactly for the lockout period with a wait from 1 to that period |
| `AuthLimiter.DefaultSettings` | internal/smtp/server.go:716-749 | with the default settings no key takes 118 counted failures within a minute, and the one that locks does so for 300 seconds |
| `LoginRace.ChecksAfterLockout` | internal/smtp/server.go:489-503 | after the failure that locks a key, until the lockout ends or a success lifts it, sessions already past the limiter compare a password fewer times than there are connections |
| `Relay.ConnSlots.TryAcquireConnectionSlot` | internal/smtp/server.go:669-676 | takes a slot exactly when one is free |
| `Relay.ConnSlots.ReleaseConnectionSlot` | internal/smtp/server.go:678-683 | gives one slot back, never below zero |
| `Relay.ServedOrTurnedAway` | internal/smtp/server.go:155-183 | a connection is served, with a fresh session, exactly while fewer than the limit are live; otherwise nothing changes |
| `Relay.SlotsKeep` | internal/smtp/server.go:172-181 | slots taken equal live handlers and stay within the limit |
| `Relay.BacklogGrowsByInserts` | internal/queue/sqlite.go:223-276 | no claim, mark, crash or recovery makes the backlog grow |
| `Relay.BacklogKeeps` | internal/smtp/server.go:381-416 | no step of any connection, worker, crash or restart passes limit plus connections minus one, or what was stored if that is more |
| `RelayRuns.QueueRuns` | internal/smtp/server.go:409-416 | the queue within a run of the relay is a run of the delivery machine, so its theorems apply |
| `RelayRuns.BacklogIsBounded` | internal/smtp/server.go:381-416 | from any state that satisfies the queue and connection invariants, backlog plus bodies in flight stay within limit plus connections minus one, or within what the run started with |
| `RelayRuns.StoredBacklogIsBounded` | internal/smtp/server.go:381-416 | whatever backlog within the limit an earlier life stored, the queue never exceeds limit plus connections minus one |
| `RelayRuns.HandlersAreBounded` | internal/smtp/server.go:155-183 | never more handlers than slots |
| `RelayRuns.SessionsAreSafe` | internal/smtp/server.go:185-240 | every session of every run satisfies the session invariant |
| `Talks.SessionsAreConversations` | internal/smtp/server.go:185-240 | in every run of the relay the session of a connection is where its own pieces lead from a fresh session, whatever the others do |
| `Talks.RelayLogins` | internal/smtp/server.go:493-501 | so an authenticated one was sent a configured pair on that connection, after any STARTTLS |
| `RelayRuns.AcknowledgedMailIsKept` | internal/smtp/server.go:395-426 | a 250 after DATA means a row with the content received and checked, unchanged through any later run; every Send of the run got that content, at most one and one per recovery succeeded or may have, and the row is closed only for a reason |
| `RelayRuns.EveryRowIsOneBody` | internal/smtp/server.go:409-424 | every row was inserted exactly once, from one checked body, and was answered 250 if and only if the insert reported no error and the reply came before a crash or disconnection |
| `Opening.ServedTakesMail` | internal/smtp/server.go:243-394 | one user, sender and recipient that pass the checks are enough for some conversation to be told to send a body |
| `PlainClient.EhloAccepted` | internal/smtp/server.go:246-266 | EHLO in any spelling is answered 250 |
| `PlainClient.MailAccepted` | internal/smtp/server.go:310-352 | so is MAIL FROM in any spelling with an accepted address, whose aliases matter only when they are checked |
| `PlainClient.RcptAccepted` | internal/smtp/server.go:354-374 | and RCPT TO in any spelling |
| `Opening.MailHasOpening` | internal/smtp/server.go:376-394 | then some conversation gets to DATA without its replies depending on the backlog before |
| `BacklogRace.NoMailEver` | internal/smtp/server.go:376-416 | and otherwise no run of the relay ever holds a row |
| `BacklogRace.BoundIsReached` | internal/smtp/server.go:381-416 | whenever some conversation is told to send a body, a run from the first start-up attains limit plus connections minus one |
| `BacklogRace.LimitHoldsExactlyWhen` | internal/smtp/server.go:381-416 | every run keeps the backlog within the configured limit if and only if there is a single connection or no conversation is ever told to send a body of at least one byte |

## Left out

- Sockets, deadlines other than the read deadline, `Shutdown` and the TLS handshake itself: STARTTLS switches to a fresh stream, and plaintext already buffered is dropped with the old one.
- Reply texts: only the code of each reply is modelled.
- Schema creation, migration, JSON encoding of recipients, `last_error`, the index, and the oldest-pending part of `Stats`: no effect on the properties.
- Gmail, OAuth, error classification and the alias cache: `Send` and the alias check answer arbitrarily.
- Order among rows with the same creation text: any of them may be claimed first.
- Wrap-around of the uint64 counters and of lockout arithmetic on durations beyond 292 years, and the floating-point rounding of waits beyond 100 days; `lastProcessedAt`.
- The auth limiter, and the race of sessions past it, are proved on their own with the connection limit; in a session the limiter's answers are arbitrary, and the calls the session makes to it are recorded.
- A failed write or flush of a reply: the session goes on or ends as if it had been written; in the relay machine a 250 that never left is a disconnection before the reply.
- The random choice of message ids, configuration loading, the observability server, DNS, ACME and Docker files.
- `Run` itself: its N loops are the free interleaving of worker steps, so polling intervals play no part.
- Runner.Runner.Interference: stands for any steps of the others within one life of the process; a crash ends the pass and is covered by the machine.
