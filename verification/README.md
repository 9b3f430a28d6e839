# serverwall in Dafny

serverwall is a reverse proxy, mail relay and web application firewall written in Rust. This project models its
hardest parts and proves what they promise. Each module follows one part of the system:

| file | what it models |
|---|---|
| `Bytes.dfy`, `Text.dfy`, `Options.dfy`, `Sets.dfy` | byte lines, UTF-8 validity, trimming, splitting |
| `DataTransfer.dfy` | the message body on the wire: dot-stuffing on one side, the DATA loop on the other |
| `Receiver.dfy` | SMTP command parsing and the relay's receiver session |
| `Client.dfy` | the relay's SMTP client: replies, conversation, verdict |
| `RelayToRelay.dfy` | the client of one relay against the receiver of another |
| `Queue.dfy`, `Delivery.dfy`, `DeliveryTask.dfy` | spool, retry schedule, and delivery as a protocol of interleaved steps |
| `DeliveryRuns.dfy`, `Starting.dfy`, `Bounces.dfy`, `Careless.dfy`, `Resting.dfy`, `Provenance.dfy` | runs of that protocol: bounces, how careful the operator must be, held messages and restarts, where messages come from |
| `Ja3.dfy`, `Ja3Text.dfy` | the ClientHello parser and the string a JA3 fingerprint hashes |
| `SmtpProxy.dfy`, `ProxySessions.dfy` | the inbound SMTP proxy session and the antispam decisions |
| `ConfigFile.dfy` | configuration validation, and the lock-write-rename protocol of many processes, with the web interface's write in place |
| `RateLimit.dfy` | sliding-window limits |
| `Connections.dfy` | the listener's and the backends' connection counters |
| `RoundRobin.dfy` | round-robin selection |
| `Waf.dfy`, `WafEngine.dfy` | anomaly scoring, inspection, batching of custom rules |
| `Cookies.dfy` | Set-Cookie rewriting and cookie lookup |
| `Spf.dfy` | SPF records, printed and read |

Code that changes state in place is a class or a method with loops, proved equal to a specification function; what the
code promises is proved about that function, for all inputs or all runs. Concurrent code is a state machine whose steps
are the atomic actions of its tasks, taken in any order.

## What the proofs assume

- Clocks, DNS answers, replies of remote servers, random queue ids, iteration orders of hash maps and the outcome of I/O
  are parameters; every theorem holds for all their values, but where it names a condition. A clock may show any time
  at any step; times recorded by the rate limiter may go back, since a check reads the clock before it locks its entry.
- Delivery: every operation on the spool (enqueue, dequeue, remove, update, list) succeeds and is one step, and so is a
  task's reading and marking of its message, and its two operations when it gives up, enqueuing the bounce and removing
  the message; a queue id is never given out twice; every spawned task has marked its message Active before the next scan
  lists the spool. An operator command is not one step: it reads in one and writes back in another. A restart drops the
  relay's tasks, scan and permits between two steps.
- Configuration writers: the file system's exclusive creation and its rename are atomic, and all writers name the file
  by the same path. That a reader can load the file is proved for a parser that undoes the printer. No configuration
  prints as the empty text. The web interface's write in place is modelled as it is: truncation, then writes at the
  writer's own offset, into the file it opened even after a rename has replaced it.
- Backend counters: at most `tasks` tasks are between the availability test and the guard.
- Batched rules: a set of patterns compiles only if each of its patterns does. `WafGroups.BatchingFaithful` does not need
  even that.

## Where a promise fails, and exactly when it holds

| promise | holds exactly when | shown by |
|---|---|---|
| the DATA loop undoes dot-stuffing | the message is valid UTF-8 (lines are read as text) | `DataTransfer.RoundTrip` |
| one read returns one reply | the reply's last line has a space after the code | `Client.ReadsOneReply`, `Client.BareReplyRunsOn` |
| after an operator command, while the relay has not been restarted: one task, one fate and at most `max_attempts` tasks (one at least) per message | the command writes to no message, and deletes none, that is Active, and writes to none attempted since it was read | `Careless.CarefulExact`, `Careless.CarelessBreaks` |
| in runs with such an operator: no more than `max_attempts` tasks per message | `max_attempts` is at least 1 | `Careless.MaxAttemptsExact`, `Careless.AttemptsExceeded` |
| in all runs: no bounce of a bounce | the configured bounce sender is a null sender | `Bounces.BounceSenderExact`, `Bounces.BounceLoop` |
| in all runs: no more bounces than accepted messages with a real sender | there is at most one delivery thread; with a careful operator, always | `Bounces.BouncesBoundedExact`, `Bounces.BouncedTwice` |
| no spam verdict is passed over for a sender that is not allow-listed | no recipient was accepted for an allow-listed sender since the last RSET | `SmtpProxy.SessionSafety`, `ProxySessions.LaterMessageUnjudged` |
| a held message is not attempted until released, restarts included | when it is held it is neither listed by the scan under way nor on a task that has not begun | `Resting.HoldExact`, `Resting.RestRun` |
| a message in the spool when the relay restarts is attempted again without an operator | it was neither Active nor held | `Resting.StrandedExact` |
| a stranded message may be written to, Active as it is | it has an attempt left and was not attempted since it was read | `Resting.ReviveExact` |
| the configuration file is one whole, valid configuration all along | nobody writes it in place, as the web interface does to store its certificate | `ConfigWriter.WholeExact`, `ConfigWriter.OverwriteCrash` |
| after a crash inside the lock the configuration file never changes | nobody writes it in place | `ConfigWriter.CrashInsideFreezes` |
| no span of window length holds more than the limit of checks that passed | times are recorded in order, or the limit is at most 1, or the window is empty; with times that go back by no more than `slack`, spans shorter than the window by `slack` always | `RateLimit.RateBoundExact`, `RateLimit.OutOfOrder` |
| every valid custom rule takes effect | the valid patterns of each batch compile as one set | `WafGroups.BatchingExact`, `WafGroups.BatchLost`, `WafGroups.TwoTooLarge` |
| `increment` returns what `get_count` would | the window is not empty | `RateLimit.IncrementExact` |
| round-robin counts differ by at most 1, across wraps of the counter too | the number of available backends divides 2^64 | `RoundRobin.FairAlwaysExact`, `RoundRobin.UnfairSeam` |
| a backend has at most `max_connections` connections | one task at a time looks and takes its guard, and none is routed by tag; the least bound is `max - 1 + tasks` plus the guards routed by tag | `BackendGuards.BackendSafety`, `BackendGuards.BoundReached` |
| Set-Cookie rewriting is idempotent | every piece after a semicolon of the SameSite token starts with SameSite itself | `Cookies.IdempotentExact`, `Cookies.NotIdempotent` |
| a printed SPF record with a last term of one word reads back | every mechanism is `Readable` and has no blank | `Spf.PlainRecordExact`, `Spf.NotEveryMechanismReturns` |

Where the source and what it says of itself differ, the model follows the code. The help text of the SPF commands
writes mechanisms as `+:mx`, while the parser takes a qualifier with no colon after it. Rule groups are said to share
their targets, while a group is given the targets of its first rule. And where the retry intervals read as the delays
after the first, second and later attempts, `Delivery.RetryDelays` shows that the first of several is never waited.

## Model

| member | source | states |
|---|---|---|
| DataTransfer.WriteSegment | serverwall-relay/src/delivery/sender.rs:169-179 | one segment goes out without its trailing CR, with a leading dot doubled, ended by CRLF |
| DataTransfer.WriteBody | serverwall-relay/src/delivery/sender.rs:168-184 | the write loop puts out a wire line per newline-separated segment and then the lone dot |
| DataTransfer.ReceiveData | serverwall-relay/src/receiver.rs:262-282 | the DATA loop reads lines to the lone dot, undoes stuffing, and tells a closed connection from a line that is not text |
| DataTransfer.ReadDataConsumes | serverwall-relay/src/receiver.rs:262-282 | a received body always takes at least one byte of the input |
| DataTransfer.RoundTrip | serverwall-relay/src/receiver.rs:262-282 | for every message and all following bytes: the loop stops at the sender's own dot, leaves what follows unread and yields the normalised message, if and only if the message is valid UTF-8 |
| DataTransfer.NormalizeValid | serverwall-relay/src/delivery/sender.rs:168-184 | a hop turns text into text and nothing else into text |
| DataTransfer.NormalizeAgain | serverwall-relay/src/delivery/sender.rs:168-184 | what has made one hop is not changed by the next, whatever follows it |
| DataTransfer.HopsGrow | serverwall-relay/src/delivery/sender.rs:168-184 | k hops give the one-hop message plus exactly k - 1 further CRLFs |
| Receiver.Step | serverwall-relay/src/receiver.rs:168-388 | every turn of the command loop that goes on has consumed input, so every session ends |
| Receiver.Handle | serverwall-relay/src/receiver.rs:168-388 | the command loop produces the events of the session specification, for every byte stream |
| Receiver.AnswerMatches | serverwall-relay/src/receiver.rs:168-388 | after every command the session state is what an observer of the replies concludes |
| Receiver.DataDeserved | serverwall-relay/src/receiver.rs:245-350 | a DATA is answered as the history before it deserves |
| Receiver.SessionDeserved | serverwall-relay/src/receiver.rs:168-388 | from any state that matches its history, every later DATA is treated as its transaction deserves |
| Receiver.ReceiverRefinesTrace | serverwall-relay/src/receiver.rs:168-350 | in every session a body is asked for exactly when the open transaction has recipients; it is refused exactly when rate or content policy refuse it and deferred exactly when only the spool fails; otherwise the spooled message carries the sender of the last accepted MAIL since EHLO, HELO, RSET or the last received body, the recipients accepted since that MAIL in order, not empty, within the recipient limit, from an aligned domain, and the body signed for that domain |
| Receiver.FinishSpooled | serverwall-relay/src/receiver.rs:284-350 | after a body, the reply and what is spooled are those policy, signature and spool call for |
| Client.ReadResponse | serverwall-relay/src/delivery/sender.rs:196-215 | the reading loop joins lines up to one that ends a reply |
| Client.WireRead | serverwall-relay/src/delivery/sender.rs:196-215 | a well-formed multi-line reply is read whole, and reading goes on exactly when its last line has no space |
| Client.ReadsOneReply | serverwall-relay/src/delivery/sender.rs:196-215 | a read returns this reply and leaves the rest unread if and only if the last line puts a space after the code |
| Client.BareReplyRunsOn | serverwall-relay/src/delivery/sender.rs:196-215 | the reply `250` without text is not recognised: alone it fails, and otherwise it swallows the next reply |
| Client.Converse | serverwall-relay/src/delivery/sender.rs:138-193 | the conversation with its loop over recipients sends and returns what the specification says |
| Client.Transmit | serverwall-relay/src/delivery/sender.rs:161-192 | DATA, body, final reply and QUIT |
| Client.ScriptRead | serverwall-relay/src/delivery/sender.rs:196-224 | against a script of replies each read returns the next reply, judged by its own first digit |
| Client.AskScript | serverwall-relay/src/delivery/sender.rs:149-159 | the i-th envelope command goes out after i positive replies, and the first other reply or the end of input stops the attempt |
| Client.BodyScript | serverwall-relay/src/delivery/sender.rs:161-192 | the body goes out only after a 3xx, and QUIT only after a 2xx to the body |
| Client.ConversationScript | serverwall-relay/src/delivery/sender.rs:45-55 | for every lock-step script: each item is sent exactly when all replies before it were good, the attempt succeeds exactly when the final reply is 2xx too, and fails for good exactly when the reply that stopped it starts with 5 |
| RelayToRelay.MailParsed | serverwall-core/src/proto/smtp.rs:46-77 | the client's MAIL line is parsed back to its address |
| RelayToRelay.RcptParsed | serverwall-core/src/proto/smtp.rs:46-77 | the client's RCPT line is parsed back to its address |
| RelayToRelay.BracketedAddress | serverwall-relay/src/receiver.rs:392-399 | extracting the address from `<a>` gives `a`, for every `a` |
| RelayToRelay.DataStep | serverwall-relay/src/receiver.rs:245-350 | DATA with an encoded body makes the session finish exactly that message and go on after it |
| RelayToRelay.TransactionRuns | serverwall-relay/src/receiver.rs:168-388 | the bytes of a whole transaction make the receiver accept each command and spool the message once |
| RelayToRelay.RelaysAgree | serverwall-relay/src/delivery/sender.rs:138-193 | back to back, the receiver spools what the client was given, and the client, seeing the receiver's replies, sends exactly that and reports success |
| RelayToRelay.OneLineCommand | serverwall-core/src/proto/smtp.rs:46-77 | the address of a MAIL or RCPT parsed from a line of text is itself text on one line |
| RelayToRelay.SpooledOneLine | serverwall-relay/src/receiver.rs:168-350 | whatever bytes a receiver is sent, the addresses of every message it spools are text on one line |
| RelayToRelay.PassedOn | serverwall-relay/src/delivery/sender.rs:138-193 | whatever a receiver spooled from any bytes, if its text is valid, the next relay whose policy accepts it spools with the same sender and recipients, and the first reports success |
| Queue.TryHosts | serverwall-relay/src/delivery/mod.rs:147-191 | the nested loops over hosts and addresses decide as the flat list of attempts does |
| Queue.DecideFirst | serverwall-relay/src/delivery/mod.rs:147-191 | the first attempt that does not fail temporarily decides, and without one the last temporary error is kept |
| Queue.ConcludeExact | serverwall-relay/src/delivery/mod.rs:130-243 | a message is done exactly when the first address to decide accepts it, and kept exactly when none decides, it has not expired and has attempts left; its text is quoted in the bounce exactly when an address refused it for good |
| Delivery.DeferWithinCap | serverwall-relay/src/queue/scheduler.rs:34-50 | a message is deferred only while its attempts are below `max_attempts`, with its counter unchanged |
| Delivery.QuietStep | serverwall-cli/src/commands/queue.rs:109-144 | scans, and the two halves of operator commands, touch no fate, no envelope and no text; with care they touch no attempt counter and no Active message |
| Delivery.WriteBackIs | serverwall-cli/src/commands/queue.rs:109-144 | writing back changes the metadata of its own message only, to what was read earlier, and never to Active |
| Delivery.ApplyExclusive | serverwall-relay/src/delivery/mod.rs:73-128 | every careful step keeps: permits free or held by a task, one task per message, and Active what they work on, in the state they read it |
| Delivery.ApplyCovered | serverwall-relay/src/delivery/mod.rs:115-128 | every step, careful or not, keeps a task at every Active message |
| Delivery.ApplyAccounted | serverwall-relay/src/delivery/mod.rs:115-243 | every step, careful or not, in a state where the messages being worked on are in the spool as their tasks read them, keeps: each message is in the spool or has met exactly one fate |
| Delivery.ApplyLimited | serverwall-relay/src/delivery/mod.rs:198-243 | every careful step keeps: the counter is the number of tasks started, and an idle message has an attempt left |
| Delivery.RunSafe | serverwall-relay/src/delivery/mod.rs:73-243 | all of this over every interleaving of accept, scan, spawn, mark and finish with operator commands that read, write back and delete with care |
| Delivery.DeliverySafety | serverwall-relay/src/delivery/mod.rs:73-243 | in every state a careful operator lets a run reach, tasks and free permits add up to the thread count, no two tasks share a message, every message ever given an id is in the spool with no fate or out of it with exactly one, and none was worked on more often than the cap |
| Delivery.RetryDelays | serverwall-relay/src/delivery/mod.rs:218-230 | in every reachable state a message deferred by its k-th task waits interval k, counted from 0, and k is at least 1 |
| Provenance.ApplyTraced | serverwall-relay/src/delivery/mod.rs:115-243 | every step, careful or not, keeps envelopes and texts as the log tells their origin |
| Provenance.MessagesKept | serverwall-relay/src/bounce.rs:121-127 | in every state of every run each spooled message, and each copy a task works with, has the envelope and text it was accepted with, or is a bounce from the bounce sender to exactly the sender of the message it reports on |
| Bounces.ApplyNoLoops | serverwall-relay/src/bounce.rs:26-127 | with a null bounce sender every step, careful or not, keeps: no bounce was bounced, and every copy of a bounce has a null sender |
| Bounces.NoBounceLoops | serverwall-relay/src/bounce.rs:26-127 | no run, whatever the operator does, bounces a bounce |
| Bounces.ApplyCovers | serverwall-relay/src/delivery/mod.rs:167-176 | every step with one task per message keeps: each bounce used up one accepted message with a real sender |
| Bounces.ApplyPermits | serverwall-relay/src/delivery/mod.rs:73-112 | every step, careful or not, keeps tasks and free permits adding up to the thread count |
| Bounces.BouncesBounded | serverwall-relay/src/delivery/mod.rs:207-240 | there are no more bounces than accepted messages with a real sender, in runs with a careful operator and in all runs with at most one thread |
| Bounces.BouncedTwice | serverwall-cli/src/commands/queue.rs:109-115 | with two threads a message retried while a task works on it is bounced twice |
| Bounces.BouncesBoundedExact | serverwall-relay/src/delivery/mod.rs:73-112 | the bound holds of all runs if and only if there is at most one thread |
| Bounces.BounceLoop | serverwall-relay/src/bounce.rs:32-39 | with any other bounce sender some run bounces a bounce |
| Bounces.BounceSenderExact | serverwall-relay/src/bounce.rs:32-39 | all runs are free of bounced bounces if and only if the bounce sender is null |
| Careless.MaxAttemptsExact | serverwall-relay/src/queue/scheduler.rs:34-50 | no message gets more than `max_attempts` tasks, in any run with a careful operator, if and only if that is at least 1 |
| Careless.AttemptsExceeded | serverwall-cli/src/commands/queue.rs:109-115 | without care, a message retried while a task works on it is attempted twice where one attempt is allowed |
| Careless.DeleteBreaks | serverwall-cli/src/commands/queue.rs:104-107 | a message deleted while Active meets two fates in some continuation, whatever tasks and scan are under way |
| Careless.WriteBreaks | serverwall-cli/src/commands/queue.rs:109-144 | so does one written to while Active |
| Careless.CatchesUp | serverwall-cli/src/commands/queue.rs:109-144 | a message whose counter was set back is attempted more often than the cap in some continuation, whatever tasks and scan are under way |
| Careless.CarelessBreaks | serverwall-cli/src/commands/queue.rs:104-144 | every careless last step of a command, in every safe state, has a careful continuation with two fates or too many attempts |
| Careless.CarefulExact | serverwall-cli/src/commands/queue.rs:104-144 | in every safe state the last step of an operator command keeps every careful continuation in order if and only if its message is not Active and, for a write, was not attempted since it was read |
| Starting.GetsStarted | serverwall-relay/src/delivery/mod.rs:73-128 | whatever scan and tasks are under way, a message nobody works on that is Pending, Deferred, listed or on a task that has not begun is started once more in some run without the operator |
| Resting.RestRun | serverwall-relay/src/delivery/mod.rs:73-86 | over any steps and restarts, a held or Active message that is neither listed nor on a task is not started until a command other than hold writes to it, and leaves the spool only by being deleted |
| Resting.HoldExact | serverwall-cli/src/commands/queue.rs:117-122 | a message held with care is not attempted until a command other than hold writes to it, in any careful run with restarts, if and only if at that time it is neither listed nor on a task that has not begun |
| Resting.RestartSafety | serverwall-relay/src/delivery/mod.rs:34-112 | with a careful operator and restarts at any time, tasks and free permits add up, no two tasks share a message, every message has one place or one fate, and none is started more often than the cap |
| Resting.StrandedExact | serverwall-relay/src/delivery/mod.rs:73-86 | a message in the spool at a restart is not attempted again until a command other than hold writes to it, if and only if it was held or Active |
| Resting.ReviveExact | serverwall-cli/src/commands/queue.rs:109-129 | writing back to a stranded message what was read since its last attempt keeps every careful continuation in order if and only if it has an attempt left |
| DeliveryTask.Spool.constructor | serverwall-relay/src/queue/spool.rs:21-25 | a new spool is empty |
| DeliveryTask.Spool.Enqueue | serverwall-relay/src/queue/spool.rs:46-75 | the message is stored as Pending, due now, with no attempts |
| DeliveryTask.Spool.Dequeue | serverwall-relay/src/queue/spool.rs:77-86 | reading a message does not remove it |
| DeliveryTask.Spool.Remove | serverwall-relay/src/queue/spool.rs:88-102 | exactly this message is gone |
| DeliveryTask.Spool.UpdateMetadata | serverwall-relay/src/queue/spool.rs:131-146 | only this message's metadata change, and only if it is there |
| DeliveryTask.Spool.ListDue | serverwall-relay/src/delivery/mod.rs:73-86 | the scan lists each due message once and nothing else |
| DeliveryTask.Spool.Begin | serverwall-relay/src/delivery/mod.rs:115-128 | the start of a task is the protocol's Mark step |
| DeliveryTask.Spool.GiveUp | serverwall-relay/src/delivery/mod.rs:167-176 | the message leaves the spool, replaced by its bounce if its sender may have one |
| DeliveryTask.Spool.HandleTempFail | serverwall-relay/src/delivery/mod.rs:198-243 | given up when expired or out of attempts, otherwise its next retry is written back |
| DeliveryTask.Spool.Complete | serverwall-relay/src/delivery/mod.rs:130-243 | the rest of a task is the protocol's Finish step, spool and log |
| DeliveryTask.Spool.ReadCommand | serverwall-cli/src/commands/queue.rs:109-110 | the first half of retry, hold and release is the protocol's Look |
| DeliveryTask.Spool.WriteCommand | serverwall-cli/src/commands/queue.rs:111-144 | the second half, after whatever happened in between, is the protocol's Put, for each of the four changes |
| DeliveryTask.Spool.ListCommand | serverwall-relay/src/queue/spool.rs:104-128 | the listing a flush starts with is what a Look at every message would read |
| DeliveryTask.Spool.FlushCommand | serverwall-cli/src/commands/queue.rs:131-144 | for any listing, up to date or not, exactly the messages it shows as deferred and that are still there get the listed metadata back, due now |
| DeliveryTask.FlushIsPuts | serverwall-cli/src/commands/queue.rs:131-144 | the writes of a flush are a run of Put steps, one for each deferred message of its listing, and end with the spool the command leaves |
| DeliveryTask.Spool.DeleteCommand | serverwall-cli/src/commands/queue.rs:104-107 | the Delete step |
| Ja3.GreaseFamily | serverwall-core/src/tls/ja3.rs:16-24 | the table holds exactly the values of section 2 of RFC 8701: two equal bytes with low nibble A |
| Ja3.ReadValues | serverwall-core/src/tls/ja3.rs:135-144 | a list of two-byte values is read without GREASE and without leaving the buffer |
| Ja3.ReadFormats | serverwall-core/src/tls/ja3.rs:200-207 | point formats are read up to their length or the end of the extension |
| Ja3.ReadExtension | serverwall-core/src/tls/ja3.rs:183-208 | what one extension contributes |
| Ja3.ReadExtensions | serverwall-core/src/tls/ja3.rs:168-211 | the extensions of a block, up to the first that does not fit |
| Ja3.ParseExtensions | serverwall-core/src/tls/ja3.rs:147-219 | compression methods and extensions from a position on |
| Ja3.ParseBody | serverwall-core/src/tls/ja3.rs:104-219 | the hello's body with its running position |
| Ja3.ParseClientHello | serverwall-core/src/tls/ja3.rs:82-220 | for every byte string the parser ends, never reads out of range, and returns what the grammar-directed specification says |
| Ja3.ValuesEncoded | serverwall-core/src/tls/ja3.rs:135-144 | reading an encoded list gives it back without GREASE, whatever follows |
| Ja3.ExtsEncoded | serverwall-core/src/tls/ja3.rs:173-211 | reading encoded extensions gives types, groups and formats |
| Ja3.ParseInvertsEncode | serverwall-core/src/tls/ja3.rs:82-220 | parsing the encoding of any ClientHello followed by anything returns its version, its ciphers, extensions and groups without GREASE, and its point formats |
| Ja3.ParseStable | serverwall-core/src/tls/ja3.rs:82-220 | a parse that succeeded is not changed by later bytes |
| Ja3Text.ListInjective | serverwall-core/src/tls/ja3.rs:42-66 | a hyphen-joined list of numbers determines the numbers |
| Ja3Text.TextInjective | serverwall-core/src/tls/ja3.rs:42-66 | two parameter records have the same string if and only if they are equal |
| Ja3Text.FingerprintExact | serverwall-core/src/tls/ja3.rs:37-66 | two ClientHellos have the same string exactly when they agree on version, ciphers, extension types and groups without GREASE, and point formats |
| Ja3Text.GreaseInvisible | serverwall-core/src/tls/ja3.rs:135-211 | putting any number of GREASE ciphers, groups or extensions into a hello does not change the string |
| SmtpProxy.RunPreData | serverwall-antispam/src/pipeline.rs:115-147 | the loop returns the decision of the first check that rejects or defers, and continues exactly when none does |
| SmtpProxy.FirstDecisionIs | serverwall-antispam/src/pipeline.rs:115-216 | a pipeline stops exactly when some check decides, with the first such check's reply |
| SmtpProxy.CatchAllUnreachable | serverwall-antispam/src/pipeline.rs:150-216 | the post-DATA pipeline stops only with a rejection or a deferral, so the session's catch-all arm is dead |
| SmtpProxy.ReceiveBody | serverwall-proxy/src/proxy/smtp_proxy.rs:243-261 | the proxy's DATA loop ends at the lone dot or the end of input, undoes stuffing, and fails on a line that is not text |
| SmtpProxy.SameAsReceiver | serverwall-proxy/src/proxy/smtp_proxy.rs:243-261 | the proxy reads what the relay's receiver reads whenever that ends at a full line |
| SmtpProxy.BodyRoundTrip | serverwall-proxy/src/proxy/smtp_proxy.rs:243-261 | a body sent by the relay arrives normalised with what follows unread |
| SmtpProxy.Proxy.constructor | serverwall-proxy/src/proxy/smtp_proxy.rs:129-133 | the command loop starts after the banner with an empty envelope |
| SmtpProxy.Proxy.Say | serverwall-proxy/src/proxy/smtp_proxy.rs:503-507 | one reply is recorded and nothing else changes |
| SmtpProxy.Proxy.EndTransaction | serverwall-proxy/src/proxy/smtp_proxy.rs:461-466 | envelope and phase are reset after the transaction's events |
| SmtpProxy.Proxy.HandleLine | serverwall-proxy/src/proxy/smtp_proxy.rs:147-224 | every command but DATA answers and changes the fields as specified |
| SmtpProxy.Proxy.HandleData | serverwall-proxy/src/proxy/smtp_proxy.rs:236-467 | a DATA with all its exits |
| SmtpProxy.Proxy.Serve | serverwall-proxy/src/proxy/smtp_proxy.rs:131-510 | the command loop over the bytes of the connection, bodies included, runs the session specification |
| SmtpProxy.AllowedSinceIs | serverwall-proxy/src/proxy/smtp_proxy.rs:211-214 | a session is marked allowed exactly when some recipient accepted since the last RSET was given for an allow-listed sender |
| SmtpProxy.JudgedBlock | serverwall-proxy/src/proxy/smtp_proxy.rs:263-467 | a judged DATA appends a 354, at most one forwarded message, and one final reply, each with its reason; the verdict is passed over exactly in a session marked allowed |
| SmtpProxy.AnswerObserved | serverwall-proxy/src/proxy/smtp_proxy.rs:147-224 | after every command the fields are what an observer of the replies concludes |
| SmtpProxy.DataObserved | serverwall-proxy/src/proxy/smtp_proxy.rs:226-467 | and after every DATA |
| SmtpProxy.SessionSafety | serverwall-proxy/src/proxy/smtp_proxy.rs:176-482 | for every byte stream each forwarded message has the body read, the recipients accepted since the last 354 or RSET, none blocked, a sender that is empty or not blocked, and no pre-DATA refusal; it passes over post-DATA checks and verdict exactly in a session marked allowed, and otherwise has neither refusal nor Spam verdict; each message not forwarded was refused by the first check that decided or is spam; and each 354 gets exactly one final reply, the backend's if the message was forwarded |
| ProxySessions.DataTalk | serverwall-proxy/src/proxy/smtp_proxy.rs:243-261 | DATA and a body the relay's client encodes reach the checks as the normalised message, with what follows read next |
| ProxySessions.MessageTalk | serverwall-proxy/src/proxy/smtp_proxy.rs:176-261 | a message the relay's client sends reaches the checks with its sender, recipient and normalised body |
| ProxySessions.LaterMessageUnjudged | serverwall-proxy/src/proxy/smtp_proxy.rs:347-351 | after a message of an allow-listed sender, a spam message of another sender on the same connection is forwarded unjudged |
| ConfigCheck.CheckFrontends | serverwall-core/src/config/loader.rs:70-104 | accepts exactly when every frontend has its pool, its certificate, a listener, and the firewall only on HTTPS |
| ConfigCheck.CheckPools | serverwall-core/src/config/loader.rs:106-114 | accepts exactly when no pool is empty |
| ConfigCheck.FindDuplicate | serverwall-core/src/config/loader.rs:116-136 | growing a set finds a name that occurs twice exactly when there is one |
| ConfigCheck.CheckFrontendNames | serverwall-core/src/config/loader.rs:116-125 | accepts exactly when frontend names are distinct |
| ConfigCheck.CheckPoolNames | serverwall-core/src/config/loader.rs:127-136 | accepts exactly when pool names are distinct |
| ConfigCheck.CheckRest | serverwall-core/src/config/loader.rs:138-155 | accepts exactly when scanner commands have their placeholder and trusted hosts are addresses or networks |
| ConfigCheck.Validate | serverwall-core/src/config/loader.rs:69-169 | accepts exactly the well-formed configurations, and every complaint is true of the configuration |
| ConfigWriter.ApplySafe | serverwall-core/src/config/writer.rs:13-87 | every step of any process but opening the file to write it in place keeps one holder and a whole file |
| ConfigWriter.OneHolderKept | serverwall-core/src/config/writer.rs:13-47 | every step, writing in place included, keeps at most one writer inside the lock |
| ConfigWriter.WriterSafety | serverwall-core/src/config/writer.rs:57-87 | over every interleaving with I/O errors, crashes and writes in place anywhere, at most one writer is inside the lock; and if nobody wrote in place, the configuration file is one whole, valid configuration, which a parser that undoes the printer loads |
| ConfigWriter.WholeExact | serverwall-webui/src/routes/system.rs:91-108 | for every run: the file is one whole, valid configuration all along if and only if nobody opens it to write it in place |
| ConfigWriter.StaleLock | serverwall-core/src/config/writer.rs:23-47 | past a lock file nobody holds nobody gets in, in any run, and only writing in place changes the file |
| ConfigWriter.CrashInsideFreezes | serverwall-core/src/config/writer.rs:13-47 | after a crash inside the lock nobody gets in again, and the configuration file never changes if and only if nobody writes it in place |
| ConfigWriter.CutShortReached | serverwall-webui/src/routes/system.rs:101-103 | a crash while the file is written in place leaves any prefix of the text |
| ConfigWriter.OverwriteCrash | serverwall-webui/src/routes/system.rs:101-103 | if that prefix cannot be loaded, no run of the editors, which load first, changes it any more |
| ConfigWriter.AcquireLock | serverwall-core/src/config/writer.rs:23-47 | the first of five attempts that does not find the lock file decides: a guard if it created the file, an error if it failed otherwise; busy after five |
| RateLimit.Retain | serverwall-antispam/src/predata/rate_limit.rs:24-35 | pruning keeps exactly the recent times in order |
| RateLimit.PruneEarlier | serverwall-antispam/src/predata/rate_limit.rs:24-35 | pruning at an earlier time loses nothing that is recent now |
| RateLimit.KeptAgrees | serverwall-antispam/src/predata/rate_limit.rs:24-35 | for every non-decreasing history the pruned store and the full history have the same recent times |
| RateLimit.Record | serverwall-antispam/src/predata/rate_limit.rs:24-35 | prunes, records and counts what is then within the window |
| RateLimit.RecordedStandsFor | serverwall-antispam/src/storage/rate_db.rs:28-34 | recording at any time keeps the store the pruned form of the full histories; if the times of the key came in order it has the recent ones of its full history |
| RateLimit.Limiter.constructor | serverwall-antispam/src/predata/rate_limit.rs:51-68 | a new limiter has seen nothing |
| RateLimit.Limiter.CheckIp | serverwall-antispam/src/predata/rate_limit.rs:77-103 | at whatever time, a check passes exactly when the kept checks of its address within the window, itself included, are within the limit; if the times came in order these are all checks ever made |
| RateLimit.Limiter.Check | serverwall-antispam/src/predata/rate_limit.rs:77-152 | a check is rejected exactly when the address does not pass; sender and domain are counted only past that, in this order, and each decides by its own limit |
| RateLimit.RateBound | serverwall-antispam/src/predata/rate_limit.rs:77-103 | if times go back by no more than `slack`, no span of window length less `slack` holds more than `max_per_ip` checks of one address that passed by the pruned store |
| RateLimit.OneBound | serverwall-antispam/src/predata/rate_limit.rs:77-103 | with a limit of one the bound holds of spans of window length whatever the order of times |
| RateLimit.OutOfOrder | serverwall-antispam/src/predata/rate_limit.rs:77-84 | a burst, one check a window later that clears it, and one with an earlier time all pass, one more than the limit in one span |
| RateLimit.RateBoundExact | serverwall-antispam/src/predata/rate_limit.rs:24-103 | for every span length, slack, window and limit: the bound holds of all histories if and only if the span is empty, or the limit is zero and the window not empty, or the span is within the window and the limit is one or span and slack together are within the window |
| RateLimit.RateDb.constructor | serverwall-antispam/src/storage/rate_db.rs:14-26 | a new store is empty |
| RateLimit.RateDb.Increment | serverwall-antispam/src/storage/rate_db.rs:28-34 | prunes, records, returns the number stored |
| RateLimit.RateDb.GetCount | serverwall-antispam/src/storage/rate_db.rs:36-43 | the number of recent events, without changing the store |
| RateLimit.IncrementExact | serverwall-antispam/src/storage/rate_db.rs:28-43 | the two agree at the same time if and only if the window is not empty |
| Listener.ApplyCounted | serverwall-proxy/src/listener/tcp_listener.rs:262-295 | every step keeps: the counter is live, finished and dead handlers together, within the limit |
| Listener.ListenerSafety | serverwall-proxy/src/listener/tcp_listener.rs:222-295 | in every reachable state live handlers are at most the counter, the counter at most the limit, what died before is lost for good, and the counter is exact just when nobody died or is about to lower it |
| Listener.DeadListenerAdmitsNone | serverwall-proxy/src/listener/tcp_listener.rs:272-294 | once as many handlers died as the limit allows, no connection is admitted again |
| Listener.TcpListener.constructor | serverwall-proxy/src/listener/tcp_listener.rs:25-36 | a new listener has counted nothing |
| Listener.TcpListener.DispatchConnection | serverwall-proxy/src/listener/tcp_listener.rs:262-295 | a connection is admitted exactly when the counter is below the limit |
| BackendGuards.MovedGuarded | serverwall-core/src/types.rs:111-148 | every move of any task keeps the counter equal to the live guards, and counter plus pending tasks within the bound |
| BackendGuards.BackendSafety | serverwall-proxy/src/pipeline.rs:83-99 | in every interleaving the counter is the number of live guards and at most `max - 1 + tasks`, plus the guards routed by tag; a limit of 0 admits only those |
| BackendGuards.BoundReached | serverwall-proxy/src/pipeline.rs:83-99 | for every limit, number of tasks and number of guards routed by tag some run reaches the bound |
| BackendGuards.Counters.constructor | serverwall-core/src/types.rs:90-109 | a new backend is enabled, healthy and unused |
| BackendGuards.Counters.Available | serverwall-core/src/types.rs:111-118 | available exactly when enabled, healthy and below the limit |
| BackendGuards.Counters.NewGuard | serverwall-core/src/types.rs:131-135 | a guard raises both counters, whether the backend was selected or found by tag |
| BackendGuards.Counters.DropGuard | serverwall-core/src/types.rs:142-148 | dropping a guard lowers the active counter and not the total |
| RoundRobin.Positions | serverwall-core/src/balancer/round_robin.rs:37-42 | the list holds available backends only, each once, in order |
| RoundRobin.PlaceOf | serverwall-core/src/balancer/round_robin.rs:37-42 | and every available backend |
| RoundRobin.Balancer.constructor | serverwall-core/src/balancer/round_robin.rs:17-22 | counting starts at zero |
| RoundRobin.Balancer.Select | serverwall-core/src/balancer/round_robin.rs:31-50 | nothing is chosen exactly when nothing is available; otherwise the counter picks among the available ones and moves on, wrapping at 2^64 |
| RoundRobin.HitsBounds | serverwall-core/src/balancer/round_robin.rs:48-49 | the number of selections of one backend in a window is pinned between bounds less than one round apart |
| RoundRobin.Fair | serverwall-core/src/balancer/round_robin.rs:37-49 | between two wraps any two available backends are selected equally often, give or take one |
| RoundRobin.FairRounds | serverwall-core/src/balancer/round_robin.rs:37-49 | k rounds select every available backend exactly k times |
| RoundRobin.FairAcrossWrap | serverwall-core/src/balancer/round_robin.rs:37-49 | a window that crosses one wrap is within two |
| RoundRobin.UnavailableNeverServed | serverwall-core/src/balancer/round_robin.rs:37-49 | an unavailable backend is never selected |
| RoundRobin.UnfairSeam | serverwall-core/src/balancer/round_robin.rs:48-49 | if the number of available backends does not divide 2^64, a window over the wrap serves one backend twice and another not at all |
| RoundRobin.FairAlwaysExact | serverwall-core/src/balancer/round_robin.rs:37-49 | counts stay within one across all wraps if and only if that number divides 2^64 |
| Waf.ScoreIsSum | serverwall-waf/src/anomaly.rs:20-33 | adding with saturation match by match gives the sum cut off at 2^32 - 1 |
| Waf.SumPermutes | serverwall-waf/src/anomaly.rs:20-23 | the sum and the reported ids do not depend on the order of matches |
| Waf.AnomalyScorer.constructor | serverwall-waf/src/anomaly.rs:11-17 | a new scorer has no matches |
| Waf.AnomalyScorer.AddMatch | serverwall-waf/src/anomaly.rs:20-23 | score and ids are those of all matches added |
| Waf.AnomalyScorer.IsAnomalous | serverwall-waf/src/anomaly.rs:31-33 | anomalous exactly when the saturated sum reaches the threshold |
| Waf.AnomalyScorer.Reset | serverwall-waf/src/anomaly.rs:36-39 | back to no matches |
| Waf.ModesAgree | serverwall-waf/src/engine.rs:152-330 | for every request blocking mode blocks exactly when detection mode logs; its score is at most the other's and its matches are a prefix |
| Waf.DecisionExact | serverwall-waf/src/engine.rs:152-330 | the early exit does not show: a request that is not excluded is blocked or logged exactly when the saturated sum of all its limit and rule matches reaches the threshold |
| Waf.LimitScore | serverwall-waf/src/engine.rs:194-240 | the limits add five for each of body, header count and URI, and five for each header value that is too long |
| Waf.ExtractPermutes | serverwall-waf/src/rules/matcher.rs:13-53 | the values of a target do not depend on how header and cookie maps are walked |
| Waf.OrderIndependent | serverwall-waf/src/engine.rs:152-330 | decision, score and the bag of matches are unchanged by any order of rule groups and any walk of the header and cookie maps, in every mode |
| WafEngine.CheckLimits | serverwall-waf/src/engine.rs:194-252 | the limit matches, and an early exit exactly in blocking mode at an anomalous score |
| WafEngine.CheckCounts | serverwall-waf/src/engine.rs:199-227 | one match per exceeded limit of body, header count and URI |
| WafEngine.CheckHeaders | serverwall-waf/src/engine.rs:229-240 | one match per header value that is too long |
| WafEngine.TargetValues | serverwall-waf/src/engine.rs:257-261 | the values of all targets of a group |
| WafEngine.TestValue | serverwall-waf/src/engine.rs:272-288 | one match per pattern that hits |
| WafEngine.EvaluateGroup | serverwall-waf/src/engine.rs:256-290 | all matches of a group, with the first rule's transformations |
| WafEngine.EvaluateRules | serverwall-waf/src/engine.rs:255-291 | all matches of all groups |
| WafEngine.Inspect | serverwall-waf/src/engine.rs:152-330 | exclusions, limits, rules and verdict as specified |
| WafGroups.BatchRules | serverwall-waf/src/engine.rs:132-137 | the map holds, for every key, its rules in order |
| WafGroups.AddRules | serverwall-waf/src/engine.rs:130-144 | the groups of the map's batches are appended in the order the map is walked |
| WafGroups.CompileKeeps | serverwall-waf/src/rules/rule_set.rs:122-165 | compiling a batch keeps exactly the rules whose patterns compile, if these compile together, and otherwise nothing |
| WafGroups.Exchange | serverwall-waf/src/engine.rs:271-289 | value by value over all patterns finds what pattern by pattern over all values finds |
| WafGroups.KeysPartition | serverwall-waf/src/engine.rs:132-137 | batching by key neither loses a rule nor tests one twice |
| WafGroups.BatchingFaithful | serverwall-waf/src/engine.rs:130-144 | for every environment: with custom rules added the engine finds what it found before plus what each rule adds as one of its batch, equally often, however the map is walked |
| WafGroups.LiveIs | serverwall-waf/src/rules/rule_set.rs:122-165 | a rule adds what it finds on its own if the valid patterns of its batch compile together, and otherwise nothing |
| WafGroups.BatchLost | serverwall-waf/src/rules/rule_set.rs:157 | a batch whose valid patterns are too large together is dropped, and none of its rules finds anything |
| WafGroups.TwoTooLarge | serverwall-waf/src/rules/rule_set.rs:157 | two valid rules whose patterns do not compile together find nothing |
| WafGroups.BatchingExact | serverwall-waf/src/engine.rs:130-144 | for every request: custom rules add exactly what each usable rule finds on its own if and only if every rule that finds something is in a batch whose valid patterns compile together |
| Cookies.FindAttribute | serverwall-proxy/src/proxy/http_proxy.rs:719-726 | an attribute is found in any letter case |
| Cookies.RetainOthers | serverwall-proxy/src/proxy/http_proxy.rs:728 | exactly the attributes that do not start with SameSite are kept |
| Cookies.Assemble | serverwall-proxy/src/proxy/http_proxy.rs:732-737 | name=value and attributes joined by semicolon and blank |
| Cookies.EnforceSetCookie | serverwall-proxy/src/proxy/http_proxy.rs:706-738 | the rewriting as specified |
| Cookies.AssembledSplit | serverwall-proxy/src/proxy/http_proxy.rs:706-738 | splitting an assembled cookie gives its name=value and its attributes' own pieces back |
| Cookies.RewritingKeeps | serverwall-proxy/src/proxy/http_proxy.rs:706-738 | dropped exactly when too long; otherwise name=value and all other attributes are kept in order, every demanded flag is there, and a token without semicolons leaves exactly one SameSite attribute |
| Cookies.IdempotentExact | serverwall-proxy/src/proxy/http_proxy.rs:706-738 | rewriting again changes nothing if and only if every piece after a semicolon of the token starts with SameSite |
| Cookies.Idempotent | serverwall-proxy/src/proxy/http_proxy.rs:706-738 | idempotent for every value and every token without semicolons |
| Cookies.NotIdempotent | serverwall-proxy/src/proxy/http_proxy.rs:727-730 | with the token `L;P` no rewriting is idempotent, whatever the value |
| Cookies.ParseCookie | serverwall-proxy/src/proxy/http_proxy.rs:741-752 | the search over the pieces of the header |
| Cookies.CookieFound | serverwall-proxy/src/proxy/http_proxy.rs:741-752 | in a header put together from pairs the first pair of that name is found, or nothing if there is none |
| Spf.PrintRecord | serverwall-cli/src/commands/spf.rs:127-136 | the parts of a record |
| Spf.ParseMechanisms | serverwall-cli/src/commands/spf.rs:144-163 | the loop over the items, empty ones skipped |
| Spf.TermExact | serverwall-cli/src/commands/spf.rs:144-163 | a printed term reads back as its mechanism if and only if the mechanism is readable |
| Spf.RecordExact | serverwall-cli/src/commands/spf.rs:123-163 | for every last term: readable mechanisms without blanks come back if nothing but blanks precedes its last word, and only then if every mechanism prints as something or the last term has no blank |
| Spf.PlainRecordExact | serverwall-cli/src/commands/spf.rs:123-163 | with a last term of one word, splitting the record at blanks and reading its middle terms returns the mechanisms if and only if each is readable and has no blank |
| Spf.MadeUpFor | serverwall-cli/src/commands/spf.rs:144-163 | a mechanism that prints as nothing can be made up for by a word of the last term |
| Spf.NotEveryMechanismReturns | serverwall-cli/src/commands/spf.rs:144-163 | a mechanism named `+a` does not come back |

## Left out

- Sockets, TLS handshakes, DNS, MD5, regular expressions, TOML, logging, the web interface but for its write of the configuration, and command-line parsing: foreign calls or I/O, present as parameters where a value is needed.
- The banner, EHLO and STARTTLS part of the client's connection (sender.rs:58-133): it only decides which stream the conversation runs on.
- The receiver's trusted-host and TLS gates before the command loop, and its policy functions, which are predicates of the environment; DKIM signing is an arbitrary function of message and sender domain.
- The text of a bounce, an arbitrary function of envelope, error and original message.
- Upper-casing of non-ASCII letters in command keywords, and lower-casing of such letters in cookie attributes: only ASCII letters are changed in the model.
- A restart between the two spool operations of a task that gives up, and a message delivered by a task that a restart drops before it removes the message; spool operations that fail or interleave within themselves, such as an update overtaken by a removal.
- Listing the spool is one step; messages that arrive while the directory is read count as arriving before or after it.
- BackendGuards.BackendSafety: the counters are unbounded integers; a 64-bit counter would wrap after 2^64 live guards.
- Listener.ListenerSafety: without a limit the counter is an unbounded integer for the same reason.
- What the allow and block lists match: predicates of sender and recipient.
- Forwarding to the backend as a transparency claim: the proxy writes the message without stuffing it again.
- Fragments of a conf.d directory and the serialisability of concurrent edits: the lock covers the write, not the load before it.
- Spf.RecordExact: gives one direction only where the last term has blanks and a mechanism prints as nothing; Spf.MadeUpFor shows why.
- WafGroups.BatchingFaithful: for rules with one target each and common transformations, which is what the rule parser makes; built-in rules form one group by construction.
- The scorer's `add_score`, which the engine does not use.
- What the transformations do to request values, spam scores in floating point, access lists, geography, certificates, the IMAP and Stratum proxies, other balancers: foreign data, or easy once modelled.
