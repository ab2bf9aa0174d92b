# Postmoogle, modelled and proved

Postmoogle bridges SMTP and Matrix. This project models six of its state machines in Dafny and proves what they
keep over every run:

* the **retry queue** (`QueueStore`, `QueueProtocol`, `QueueSafety`, `QueueDeadlock`, `QueueConservation`,
  `QueueFirst`, `QueueTraps`, `QueueCache`, `QueueFailures`, `RetryQueue`, `RetryExact`, `QueueDrain`, `QueuePass`): every interleaving of `Sendmail`, `Add` and `Process`, one lock operation or store
  access at a time, with a store that may fail at any access and a run that may stop anywhere;
* **email threads and replies** (`Threads`, `ThreadRuns`, `ThreadReplies`, `ThreadExact`, `ThreadHandlers`, `Addresses`,
  `Rewriting`, `Replies`, `CcExact`): which Matrix thread an email lands in, and to whom a reply goes;
* the **SMTP session and the SASL servers** (`Session`, `SessionRuns`, `SessionExact`, `Sasl`) under arbitrary call sequences;
* the **mailbox registry** (`Registry`, `RegistryExact`, `RegistrySync`, `ReservedNames`): the in-memory name index over the rooms'
  settings;
* the **greylist** (`Greylist`);
* **canonical lists and command texts** (`Text`, `Sorting`, `ListCodec`, `RoomConfig`, `Spamlist`, `SendCommand`, `SendPanic`).

Code that updates state is a class whose methods are proved against a function of the old state; the theorems are
lemmas about those functions. The Matrix server, the mail sender, DNS, the address parsers, the clock and the store's
failures are parameters or nondeterministic choices, never fixed answers. Map iteration takes any order.

Where an expected property is false of the code, the model keeps the code and the project states when the property
holds: two emails under one queue id (`QueueTraps`), a relay URL with an empty text
(`QueueConservation.RelayKeptExact`), recipients left over from an earlier transaction
(`SessionRuns.RecipientsExact`), a reply's Message-Id made with another domain (`ThreadReplies.ReplyRoundTrip`), an
automatic reply's Message-Id that is never stored (`ThreadReplies.AutoreplyNotFollowed`), a Matrix M_UNKNOWN answer
(`ThreadRuns.AnswerExact`), the substring replacement in CC (`Rewriting.OneSenderExact`, `CcExact.EveryOrderExact`),
elements with commas (`ListCodec.ReadBackExact`, `Spamlist.AddExactIff`), a tab before a reserved alias
(`ReservedNames.AliasesExact`), a command prefix that begins with white space (`SendPanic.SendPanicExact`).
Likewise a pass tries one email more than the batch size, and an email gets one queue send more than the configured
retries.

`dafny verify dfyconfig.toml` checks the whole project.

## Model

| member | source | states |
|---|---|---|
| `QueueStore.KeyTextInjective` | internal/bot/queue/queue.go:18-27 | the keys of the index and of different emails' records never coincide |
| `QueueStore.ShouldQueueExact` | internal/bot/email.go:45-60 | an answer queues an email if and only if, without outer white space, it begins with a 4 or has 450, 451 or "greylisted" in it |
| `QueueStore.SettingsUsed` | internal/bot/queue/manager.go:50-58 | batch size and retries are used as set, or 10 and 100 where they are zero |
| `QueueSafety.EveryRunSafe` | internal/bot/queue/queue.go:10-113 | in every state of every interleaving of any number of calls, with any store access failing and any ids: a lock is held exactly by the call between its lock and unlock, the index is the replay of all edits the store took (none lost), and every index entry points to its own key's whole record with a readable non-negative attempt count |
| `QueueSafety.SafeAfter` | internal/bot/queue/manager.go:45-83 | every single call, lock operation and store access keeps that invariant |
| `QueueCache.StoppedRunLeavesWholeRecords` | internal/bot/queue/queue.go:27-70 | wherever a run stops, with any writes refused by the server but kept by the process's cache, and any ids: every entry of the server's index points to its own key's whole record on the server |
| `QueueCache.EveryRunIntact` | internal/bot/queue/queue.go:27-70 | in every state of such a run, every email listed on the server or in the cache has its whole record on the server |
| `QueueCache.AckedMirrors` | internal/bot/queue/queue.go:27-112 | a server that takes every write holds just what the process sees |
| `QueueDeadlock.DeadlockIsCircularWait` | internal/bot/queue/queue.go:25-46 | a reachable deadlock is always one `Add` holding an item lock and waiting for the index, and one pass holding the index and waiting for that item |
| `QueueDeadlock.CircularWaitIsPermanent` | internal/bot/queue/queue.go:68-76 | such a wait persists in every continuation of the run |
| `QueueDeadlock.CircularWaitReuses` | internal/bot/queue/queue.go:25-46 | such a wait needs an id that is added again while a pass still knows it |
| `QueueDeadlock.DistinctIdsNeverDeadlock` | internal/bot/queue/manager.go:60-81 | if no two emails share an id, no reachable state is deadlocked, although `Add` and `Process` lock in opposite orders |
| `QueueDeadlock.EveryCallGoesOn` | internal/bot/queue/manager.go:60-81 | if no two emails share an id, every unfinished call of every reachable state can go on, or waits for one that can, or for one that waits for one that can |
| `QueueConservation.EveryRunBooks` | internal/bot/queue/queue.go:84-112 | with a reliable store, distinct ids and fixed retries, in every reachable state: the attempt count stored for a listed email equals its failed queue sends, except while a pass is between a failed send and its note |
| `QueueFirst.FirstSendExact` | internal/bot/email.go:64-79 | with distinct ids and any store: an email is tried outside the queue at most once; it counts as delivered if and only if that was accepted, and is queued if and only if it was refused with an answer that asks for it |
| `QueueConservation.EveryEmailHasOneFate` | internal/bot/email.go:64-79 | every email handed to `Sendmail` has exactly one fate: in its first send, delivered by exactly one successful send, turned down at the first send, waiting, dropped after exactly retries + 1 failed queue sends, or panicked on a nil relay; nothing is put on the wire but the email as handed in, relay aside |
| `QueueConservation.RelayKeptExact` | internal/bot/queue/queue.go:93-98 | every send of an email goes by the relay handed in if and only if the text of its URL is not empty or the email has no queue send |
| `QueueConservation.QuietQueueHoldsTheWaiting` | internal/bot/queue/manager.go:67-81 | once all calls have returned, an email waits if and only if it is listed, and its record carries the email and its number of failed sends |
| `QueueConservation.CountsBounded` | internal/bot/queue/queue.go:89-103 | at any moment an email has at most one success and at most retries + 1 failures |
| `QueueTraps.RepeatedIdDeadlocks` | internal/bot/queue/queue.go:25-46 | for any id and any two emails, queueing the second under the id of a listed first while a pass starts reaches a deadlock |
| `QueueTraps.RepeatedIdLosesEmail` | internal/bot/queue/queue.go:27-27 | for any id and any two different emails, both calls return without error and the first email is in no record |
| `QueueTraps.EmptyRelayForgotten` | internal/bot/queue/queue.go:12-15 | an email with a relay URL of empty text is first sent with that URL and then from the queue with none |
| `QueueFailures.ListedUntilSpent` | internal/bot/queue/queue.go:51-113 | with any store access free to fail, any ids and fixed retries: an email that was listed is listed still, was delivered, or has at least retries + 1 failed queue sends |
| `QueueFailures.EveryRunHonest` | internal/bot/queue/queue.go:84-112 | in every such run the attempts stored for a listed email are at most its failed queue sends |
| `RetryExact.TryExact` | internal/bot/queue/queue.go:84-112 | a try of a listed email: it leaves the index if and only if its noted attempts exceed the retries or the sender accepts it; if it stays, its record differs only in one more attempt; it is sent once, as its record says, if and only if its attempts do not exceed the retries; no other email changes |
| `RetryExact.PassExact` | internal/bot/queue/manager.go:67-81 | a pass settles each email it tries by that email's own record and answer, whatever else it does, and touches no other |
| `RetryExact.PassSends` | internal/bot/queue/manager.go:67-81 | a pass sends exactly the tried emails whose attempts do not exceed the retries, in order, each as its record says |
| `RetryExact.PassTries` | internal/bot/queue/manager.go:67-71 | it tries all listed emails, or one more than the batch size, or none for a negative one |
| `RetryExact.QueueEmptiesWithin` | internal/bot/queue/manager.go:45-83 | with no new email the queue is empty after at most max(1, retries + 2) passes for each listed email |
| `RetryQueue.TryDrains` | internal/bot/queue/queue.go:84-112 | trying a listed email lowers the sum of max(1, retries + 2 - attempts) whatever the mail sender answers |
| `RetryQueue.EachPassDrains` | internal/bot/queue/manager.go:67-81 | a pass lowers that sum by at least min(index size, batch + 1), for any iteration order and any answers |
| `RetryQueue.QueueEmpties` | internal/bot/queue/manager.go:45-83 | with no new `Add`, the queue is empty after as many passes as that sum, for every non-negative batch size (zero standing for the default) |
| `QueueDrain.WorkBounded` | internal/bot/queue/queue.go:84-112 | in every interleaving, turns ended (a failed attempt noted or an email taken off) and emails left come to at most max(1, retries + 2) for each email listed |
| `QueueDrain.InterleavedPassDrains` | internal/bot/queue/manager.go:60-81 | in every interleaving a pass lowers the potential, from reading the queue to giving it back, by at least min(index size, batch + 1), whatever other calls do meanwhile |
| `QueueDrain.InterleavedQueueEmpties` | internal/bot/queue/manager.go:45-83 | in every interleaving, once no email is listed any more, the queue is empty after as many passes as its potential was |
| `QueuePass.InterleavedPassIsAPass` | internal/bot/queue/manager.go:60-81 | in every interleaving a pass, from reading the queue to giving it back, leaves the index and the records of all emails it found listed as a pass on its own does for some answers, each email being tried once |
| `QueuePass.InterleavedPassTries` | internal/bot/queue/manager.go:67-71 | and it tries all of them, or one more than its batch size, or none for a negative one |
| `QueuePass.InterleavedEmptiesWithin` | internal/bot/queue/manager.go:45-83 | the same in every interleaving, once no email is listed any more |
| `RetryQueue.Queue.Add` | internal/bot/queue/queue.go:10-48 | on success the record is stored and listed; after any failure the email is never listed without its record |
| `RetryQueue.Queue.Remove` | internal/bot/queue/queue.go:51-71 | on success the email is off the index and its record blank; after any failure no listed email has lost its record |
| `RetryQueue.Queue.Try` | internal/bot/queue/queue.go:74-113 | one attempt, as the function `TryOne` on the store and the wire |
| `RetryQueue.Queue.TryAndRemove` | internal/bot/queue/manager.go:73-79 | the loop body is exactly `TryOne`; no other email's listing changes |
| `RetryQueue.Queue.Process` | internal/bot/queue/manager.go:45-83 | with a reliable store a pass tries exactly min(index size, batch + 1) listed emails, each once; with any failures the index stays valid and gains nothing |
| `ThreadRuns.LetterEffect` | internal/bot/email.go:553-584 | sending an email from the room records exactly its own ids and those of its notices with its thread, and moves only that thread's last event |
| `ThreadRuns.StepKeeps` | internal/bot/email.go:137-219 | whatever a step records is keyed by one of its own Message-Ids; every other mapping stays |
| `ThreadRuns.ThreadsNeverChange` | internal/bot/email.go:623-629 | in every run with unique ids a recorded Message-Id keeps its thread for ever |
| `ThreadRuns.ReplyLandsInThread` | internal/bot/email.go:150-187 | an email whose In-Reply-To names a posted email lands in that email's thread, whatever happened in between, while the thread's event can be fetched |
| `ThreadRuns.ChainSharesThread` | internal/bot/email.go:596-621 | a whole chain of answers shares one thread |
| `ThreadRuns.AnswerExact` | internal/bot/email.go:150-187 | an answer that names one email and nothing else lands in that email's thread if it has one and its event can be fetched, else it opens its own; the email has a thread if and only if it was posted, or its send failed after a thread was found |
| `ThreadRuns.UnknownBreaksChain` | internal/bot/email.go:174-187 | an answer to an email refused with M_UNKNOWN, naming nothing else, opens a new thread |
| `ThreadReplies.LastAlwaysBelongs` | internal/bot/email.go:645-651 | in every run with unique ids the recorded last event of every thread was posted in that thread |
| `ThreadReplies.AutoreplyOncePerThread` | internal/bot/email.go:212-216 | automatic replies are made only in threads that an email with no known reference has just opened, and at most once in each |
| `ThreadExact.AutoreplyExact` | internal/bot/email.go:189-216 | an automatic reply is made in a thread if and only if an email opened it, a reply is configured, the body was posted where the room posts it, and the thread's event can be fetched |
| `ThreadExact.AutoreplyWire` | internal/bot/email.go:276-303 | it goes out once to every recipient that accepts it, under an id made of the thread's first event and the time |
| `ThreadExact.ReferencesExact` | internal/bot/email.go:596-621 | an email whose In-Reply-To is unknown lands in the thread of the first known id of its References, ids with spaces between them, and opens its own if none is known |
| `ThreadExact.ReferenceLandsInThread` | internal/bot/email.go:596-621 | if the first known id is that of an email that has arrived, it joins that email's thread |
| `ThreadExact.ArrivalIsLast` | internal/bot/email.go:186-187 | after a posted email the last event of its thread is the email, or the last notice of the automatic reply it caused; other threads keep theirs |
| `ThreadExact.LetterLasts` | internal/bot/email.go:553-584 | after an email from the room the last event of its thread is the notice posted last; without one, and in other threads, it stays |
| `ThreadExact.PartsInThread` | internal/bot/email.go:189-203 | an email and its body event belong to the thread it landed in |
| `ThreadExact.EventsInThread` | internal/bot/email.go:553-584 | users' events and the notices about their emails belong to the thread of the command or reply |
| `ThreadExact.LetterWire` | internal/bot/email.go:371-389 | an email from the room is on the wire once for every recipient that accepted it, and for no other |
| `ThreadExact.SendWire` | internal/bot/command.go:628-667 | the same for the send command, under the Message-Id of its event and the room's domain |
| `ThreadExact.ReplyWire` | internal/bot/email.go:315-390 | a reply goes out if and only if the thread has another event to answer, the recorded last one or else the first, that can be fetched |
| `ThreadExact.NoticeAnswered` | internal/bot/email.go:580-583 | an email that answers the Message-Id of a notice lands in the thread of the email it is about |
| `ThreadReplies.SendRoundTrip` | internal/bot/command.go:642-662 | a later email that answers only the email sent by the send command of event E lands in thread E if and only if some recipient was reached or queued and the notice about it posted |
| `ThreadReplies.SendAnswered` | internal/bot/command.go:642-662 | in that case it does so with any further references, and the Message-Id it answers is the one on the wire |
| `ThreadReplies.ReplyRoundTrip` | internal/bot/email.go:363-388 | a later email that answers only a thread reply lands in that thread if and only if the reply's FromDomain is the room's own domain |
| `ThreadReplies.FirstKnownDecides` | internal/bot/email.go:602-618 | the thread is that of the first known reference |
| `ThreadReplies.NeverRecorded` | internal/bot/email.go:580-583 | a Message-Id that its own step does not save is in no later state of the run |
| `ThreadReplies.AutoreplyNotFollowed` | internal/bot/email.go:276-303 | the Message-Id of an automatic reply is never saved: an email that answers only it opens a new thread |
| `ThreadHandlers.KeysApart` | internal/bot/email.go:23-24 | keys of Message-Ids and keys of threads never coincide |
| `ThreadHandlers.GetThreadID` | internal/bot/email.go:596-621 | gives the thread of the first reference that is recorded, not empty and fetchable, and "" exactly when there is none |
| `ThreadHandlers.Room.Receive` | internal/bot/email.go:150-187 | the thread found, the email posted and recorded in it, as the functions `Landing` and `Recorded`; nothing but an early mapping after a failed send |
| `ThreadHandlers.Room.IncomingEmail` | internal/bot/email.go:137-219 | the whole step, body event and automatic reply included, is `Apply` |
| `ThreadHandlers.Room.SendAutoreply` | internal/bot/email.go:222-305 | does nothing if the thread's event is gone, else sends to every recipient and saves under the thread's event |
| `ThreadHandlers.Room.Deliver` | internal/bot/email.go:371-389 | the loop over the recipients: refused ones are skipped, the others are on the wire and saved |
| `ThreadHandlers.Room.SaveSentMetadata` | internal/bot/email.go:553-584 | without a notice nothing is saved; with one, two Message-Ids and the last event |
| `ThreadHandlers.Room.RunSendCommand` | internal/bot/command.go:628-667 | the send command's step is `Apply` |
| `ThreadHandlers.Room.GetLastEventID` | internal/bot/email.go:631-643 | the recorded last event, or the thread itself |
| `ThreadHandlers.Room.SendEmailReply` | internal/bot/email.go:315-390 | a reply is sent only with a fetchable parent other than itself; the step is `Apply` |
| `Addresses.HostnameOf` | internal/utils/mail.go:22-53 | the host name of mailbox@domain is the domain, whichever way the address is parsed |
| `Addresses.HostnameAnyCase` | internal/utils/mail.go:28-29 | case and outer white space make no difference to a host name |
| `Addresses.HostnameBare` | internal/utils/mail.go:32-42 | a text without '@' that is no address is its own host name |
| `Addresses.AddressListExact` | internal/email/utils.go:42-58 | the addresses of a list: none in an empty text, else what the parser makes of it trimmed and in lower case |
| `Addresses.SanitizeDomain` | internal/utils/utils.go:29-42 | the trimmed domain if it is configured, else the first configured one; always a configured one |
| `Addresses.SanitizedExact` | internal/utils/utils.go:29-42 | the domain used for a setting, whatever white space is around it |
| `Addresses.MessageIDInjective` | internal/email/utils.go:22-24 | a Message-Id determines its event and domain |
| `Addresses.MessageIDForm` | internal/email/utils.go:22-24 | a Message-Id is the event and, after the last '@', the domain, in angle brackets |
| `Rewriting.ReplaceEach` | internal/bot/email.go:448-452 | replacing a comma-free text in a comma-separated list replaces it in each entry |
| `Rewriting.OneSenderExact` | internal/bot/email.go:448-452 | with one sender, CC becomes the list with that address swapped if and only if no other address contains it (or the swap is void) |
| `Rewriting.AnyOrderExact` | internal/bot/email.go:448-452 | with several senders and no address containing another, every iteration order gives the intended list |
| `Rewriting.OrderDecides` | internal/bot/email.go:448-452 | when one sender begins with another, two iteration orders leave different headers |
| `CcExact.EveryOrderExact` | internal/bot/email.go:448-452 | for any number of domains, all iteration orders leave CC as intended if and only if no address contains a sender other than by being it and an original From that takes a sender's place contains no other one; the original From is not of the room's mailbox |
| `CcExact.OwnMailboxBack` | internal/bot/email.go:448-452 | with an original From of the room's own mailbox that condition is not necessary: two replacements can cancel out in every order |
| `Replies.CcIntended` | internal/bot/email.go:448-452 | under that condition the new CC is the old list with the room's addresses replaced by the original From |
| `Replies.SenderOnItsDomain` | internal/bot/email.go:417-436 | the sender is mailbox@FromDomain |
| `Replies.PreviousExact` | internal/bot/email.go:418-434 | the sender is the parent's From if that is the mailbox on a configured domain, else its To, else its RCPT TO, else nobody |
| `Replies.AddressExact` | internal/email/utils.go:27-39 | an address is what the parser makes of the trimmed lower-case text, else the addresses of a list with commas between them, else the text |
| `Replies.ReplyReaches` | internal/bot/email.go:457-479 | the reply reaches, once, exactly the addresses of To and CC that are neither forwarded nor the sender's |
| `Replies.RecipientsListed` | internal/bot/email.go:473-478 | the recipients are the normalized kept addresses, duplicate-free if and only if normalization keeps those apart |
| `Replies.SenderLeftOut` | internal/bot/email.go:457-471 | adding From changes nothing if and only if the normalized sender is the sender, is forwarded, or is in To or CC |
| `Replies.PlainRecipients` | internal/bot/email.go:457-479 | with normal addresses the recipients are, once each, To and CC without the sender and the forwarded addresses |
| `Replies.AuthorGetsReply` | internal/bot/email.go:443-446 | when To was the room's address the original author is a recipient, unless it is forwarded or the sender |
| `Replies.ParentEmail.FixToFrom` | internal/bot/email.go:411-455 | From is the returned sender, which is empty or an address of the mailbox on a configured domain; FromDomain is configured; To is reversed exactly when it was the room's; CC is rewritten in some order |
| `Replies.ParentEmail.RewriteCc` | internal/bot/email.go:448-452 | the loop over the senders in any order |
| `Replies.ParentEmail.CalculateRecipients` | internal/bot/email.go:457-479 | the recipients are From, To and CC without the forwarded addresses and the sender, normalized, in some order |
| `Replies.ParentEmail.GetParentEmail` | internal/bot/email.go:514-549 | From is the room's address in the parent, CC the parent's CC rewritten, To the author exactly when the room was addressed; the recipients, FromDomain, In-Reply-To and References follow from these |
| `Session.SmtpSession.AuthPlain` | internal/smtp/session.go:79-97 | outgoing only after a valid address and an allowed login, else a ban |
| `Session.SmtpSession.MailFrom` | internal/smtp/session.go:99-117 | the MAIL step |
| `Session.SmtpSession.ValidateOutgoingMail` | internal/smtp/session.go:229-248 | accepted if and only if the address is valid, local and mapped to the authenticated room |
| `Session.SmtpSession.RcptTo` | internal/smtp/session.go:119-141 | the RCPT step, which remembers the recipient before checking it |
| `Session.SmtpSession.DataFor` | internal/smtp/session.go:143-148 | the DATA step |
| `Session.SmtpSession.OutgoingData` | internal/smtp/session.go:156-179 | deals with the recipients up to the first failure |
| `Session.SmtpSession.IncomingData` | internal/smtp/session.go:181-226 | delivers only past the parser, the filter, the greylist and DKIM |
| `SessionRuns.EveryRunAuthorized` | internal/smtp/session.go:79-97 | over every call sequence, mail leaves for the outside only after a successful login of the session, and the session is outgoing if and only if there was one |
| `SessionRuns.DirectionNeverReverts` | internal/smtp/session.go:93-93 | once outgoing, always outgoing |
| `SessionRuns.ActsForLastLogin` | internal/smtp/session.go:93-96 | over every call sequence the session acts for the user and room of its last successful login |
| `SessionRuns.MailExact` | internal/smtp/session.go:99-117 | after a login MAIL is accepted if and only if the sender is valid, local and mapped to that login's room; before one, if and only if it is valid and not local |
| `SessionExact.AuthExact` | internal/smtp/session.go:79-97 | over every call sequence AUTH is accepted if and only if the address is valid and the login allowed; then one success is noted and the session acts for that user and room, else the client is banned and nothing else changes |
| `SessionExact.MailAnswers` | internal/smtp/session.go:99-117 | every answer of MAIL, its bans and the sender it leaves |
| `SessionExact.RcptExact` | internal/smtp/session.go:119-141 | every answer of RCPT: accepted after a login, else if and only if the recipient is local, mapped and not listed where that is checked; the recipient is remembered in any case |
| `SessionExact.DataRefusals` | internal/smtp/session.go:181-213 | every refusal of DATA before delivery, in order, and the one ban |
| `SessionExact.OthersRemember` | internal/smtp/session.go:143-150 | DATA and Reset change nothing that the session remembers |
| `SessionRuns.OutgoingDataExact` | internal/smtp/session.go:156-179 | an outgoing DATA handles a prefix of the recipients, local ones only through `IncomingEmail` and the others only through `sendmail`, and answers nil if and only if all were accepted |
| `SessionRuns.IncomingDataExact` | internal/smtp/session.go:181-226 | an unauthenticated DATA delivers something if and only if the message was parsed and passed filter, greylist and DKIM, and then only to Matrix |
| `SessionRuns.EveryDeliveryAccounted` | internal/smtp/session.go:143-226 | every delivery of a session comes from one of its DATA calls, to a recipient named before it, on that recipient's side |
| `SessionRuns.RecipientsAreAllNamed` | internal/smtp/session.go:119-120 | DATA goes through every recipient named since the session began |
| `SessionRuns.RecipientsExact` | internal/smtp/session.go:119-150 | these are the accepted recipients of the current transaction if and only if none was refused and none was named before a Reset |
| `SessionRuns.StaleRecipientGetsMail` | internal/smtp/session.go:150-150 | a recipient of an earlier transaction receives the later message |
| `Sasl.SplitIsPlainMessage` | internal/smtp/authserver.go:112-128 | a response splits into three NUL-free parts if and only if it is their PLAIN message (section 2 of RFC 4616) |
| `Sasl.PlainExact` | internal/smtp/authserver.go:104-130 | over every response sequence, one call with the parts of the first response if it has two NULs, none otherwise |
| `Sasl.PlainCallsExactlyMessages` | internal/smtp/authserver.go:104-130 | the call is made with given credentials if and only if the first response is their PLAIN message; never more than one call |
| `Sasl.PlainRejectsAfterDone` | internal/smtp/authserver.go:104-108 | once done, every response is rejected without effect |
| `Sasl.PlainAnswers` | internal/smtp/authserver.go:104-130 | every answer of PLAIN: the deciding turn ends the exchange if and only if its response is a message, with an error if and only if the login is refused |
| `Sasl.PlainAuthServer.Next` | internal/smtp/authserver.go:104-130 | one PLAIN turn |
| `Sasl.LoginExact` | internal/smtp/authserver.go:51-78 | over every response sequence, one call at the third response with the second and third |
| `Sasl.LoginRejectsAfterDone` | internal/smtp/authserver.go:51-78 | once done, every response is rejected without effect |
| `Sasl.LoginAnswers` | internal/smtp/authserver.go:51-78 | every answer of LOGIN: two challenges, then the end, with an error if and only if the login is refused, then errors |
| `Sasl.LoginAuthServer.Next` | internal/smtp/authserver.go:51-78 | one LOGIN turn |
| `RegistrySync.SyncExact` | internal/bot/data.go:14-55 | after a sync every claimed name maps to the last joined room that claims it, every other name is as before, and the settings the process sees are the migrated ones |
| `RegistrySync.ActiveByDefault` | internal/bot/data.go:57-75 | a joined room claims the names its settings list if and only if it has no active flag or a true one |
| `RegistrySync.ListsExact` | internal/bot/data.go:14-24 | the names that settings list: mailbox and aliases in any case, with any white space around them, in lower case |
| `RegistrySync.SyncedSettings` | internal/bot/data.go:57-75 | after a sync no joined room has an old spam setting, one that had has the migrated list, and every other option is as before but for a missing active flag |
| `RoomConfig.TruthyExact` | internal/utils/utils.go:54-61 | an option is on if and only if it is "1", "true" or "yes", in any case |
| `RegistryExact.MailboxEffect` | internal/bot/command_owner.go:101-132 | over every run: a name that is not reserved and mapped to no other room is mapped to the room, the room's old mailbox is unmapped, every other name is as before, and mailbox, owner and active flag are set; any other name changes nothing |
| `RegistryExact.AliasesEffect` | internal/bot/command_owner.go:134-174 | the same for aliases: accepted if and only if every piece is available; the old alias string is unmapped and the new one mapped if some piece is new |
| `RegistryExact.OthersKeepTheirNames` | internal/bot/command_owner.go:101-174 | over every run a name of one room stays with it when another room sets its mailbox or aliases, unless it is what that room had stored itself, or a comma string that it sets |
| `RegistryExact.SharedAliasString` | internal/bot/command_owner.go:134-174 | two rooms that set the same two free aliases take the index entry of the whole string from each other |
| `RegistryExact.StopEffect` | internal/bot/command_owner.go:17-40 | `stop` unmaps the room's mailbox and nothing else, and empties its settings |
| `RegistryExact.DeleteEffect` | internal/bot/command_admin.go:76-102 | `delete` unmaps the name and nothing else, and empties the settings of its room |
| `RegistryExact.StoreEffect` | internal/bot/command_owner.go:101-174 | the same commands when the settings cannot be read or the change is not kept |
| `RegistryExact.RoundEffect` | internal/bot/data.go:38-47 | a round of a sync when the settings cannot be read or the change is not kept |
| `RegistrySync.SyncTwice` | internal/bot/data.go:26-55 | an immediate second sync changes nothing |
| `RegistrySync.SyncOrderFree` | internal/bot/data.go:26-55 | with disjoint claims the join order does not matter |
| `RegistrySync.ClashFollowsOrder` | internal/bot/data.go:14-24 | two rooms that claim one name trade it when they trade places |
| `ReservedNames.MailboxExact` | internal/bot/command_owner.go:101-132 | an accepted mailbox command leaves reserved names free if and only if the name's normal form is not reserved |
| `ReservedNames.AliasesExact` | internal/bot/command_owner.go:134-174 | the same for the aliases read back at sync |
| `ReservedNames.StepKeepsFree` | internal/bot/command_admin.go:76-102 | every command and every round of a sync keeps reserved names free, whatever the store answers |
| `ReservedNames.EveryRunKeepsFree` | internal/bot/access.go:99-106 | over every run with plain names no reserved name is claimed in the settings or mapped in the index |
| `ReservedNames.TabTakesReserved` | internal/bot/command_owner.go:134-174 | a tab before a reserved name passes the check, and the next sync maps the reserved name |
| `Registry.Bot.IsReserved` | internal/bot/access.go:99-106 | true if and only if the name is in the list |
| `Registry.Bot.SetMailbox` | internal/bot/command_owner.go:101-132 | the new index and settings, or no change if the name is reserved or taken |
| `Registry.Bot.SetAliases` | internal/bot/command_owner.go:134-174 | the same for aliases; the whole comma string is activated |
| `Registry.Bot.RunStop` | internal/bot/command_owner.go:17-40 | only the mailbox leaves the index; the settings are cleared |
| `Registry.Bot.RunDelete` | internal/bot/command_admin.go:76-102 | the name leaves the index and its room's settings are cleared |
| `Registry.Bot.AddRoom` | internal/bot/data.go:14-24 | mailbox and aliases of an active room are mapped to it |
| `Registry.Bot.MarkActive` | internal/bot/data.go:63-65 | a missing active flag is set on the settings the process sees, without a spam migration too |
| `Registry.Bot.MigrateRoomSettings` | internal/bot/data.go:57-75 | the process sees the settings with the flag, and with the spamlist migrated if an old spam setting is present |
| `Registry.Bot.SyncRooms` | internal/bot/data.go:26-55 | the loop over the joined rooms is `Sync` |
| `Greylist.Bot.IsGreylisted` | internal/bot/access.go:109-128 | the verdict and the list are those of `Judge` |
| `Greylist.FirstContactStays` | internal/bot/config/lists.go:38-59 | after every run the list holds the first contact of every host, readable; later contacts and other ports never move it |
| `Greylist.GreylistExact` | internal/bot/access.go:109-128 | in every run a contact is put off if and only if less than the configured time has passed since the host's first contact, cut to the second |
| `Greylist.HostExact` | internal/utils/utils.go:19-26 | a host first seen at t0, truncated to the second, is put off at each contact from any port if and only if that comes before t0 plus the configured minutes |
| `Greylist.VerdictApart` | internal/bot/config/lists.go:38-59 | the contacts of other hosts make no difference to a verdict |
| `Greylist.Disabled` | internal/bot/access.go:110-112 | with zero minutes nobody is put off and nothing is noted |
| `Greylist.NotKept` | internal/bot/access.go:114-124 | a new entry that is not kept leaves the list as it was and the contact put off |
| `Greylist.UnreadableStampSticks` | internal/bot/config/lists.go:38-59 | a host with an unreadable stamp is put off for ever |
| `ListCodec.SliceString` | internal/utils/utils.go:101-112 | the sorted trimmed non-empty elements, joined |
| `ListCodec.StringSlice` | internal/utils/utils.go:115-131 | the trimmed pieces between commas, empty ones included; no piece for the empty string |
| `ListCodec.PartsExact` | internal/utils/utils.go:115-131 | reading any text gives the pieces between its commas, each trimmed, empty ones included |
| `ListCodec.CleanCounts` | internal/utils/utils.go:101-110 | an element that is not blank is kept, trimmed, as often as it is there |
| `Sorting.LeExact` | internal/utils/utils.go:110-111 | the elements are sorted as in dictionaries |
| `ListCodec.SanitizeStringSlice` | internal/utils/utils.go:134-136 | the composition of both |
| `ListCodec.SlicedOfPermutation` | internal/utils/utils.go:101-112 | every permutation of the input gives the same string |
| `ListCodec.PartsOfSliced` | internal/utils/utils.go:101-131 | for comma-free elements, reading back gives the sorted list of the trimmed non-empty elements |
| `ListCodec.SanitizeIdempotent` | internal/utils/utils.go:134-136 | sanitizing twice is sanitizing once |
| `ListCodec.ReadBackExact` | internal/utils/utils.go:101-131 | reading back gives the sorted list of the trimmed non-empty elements if and only if no element holds a comma |
| `ListCodec.CommaSplits` | internal/utils/utils.go:101-131 | an example: the list with the one element "b,a" reads back as two |
| `CanonicalList.CanonicalUnique` | internal/utils/utils.go:101-131 | two canonical strings with the same elements are equal |
| `Spamlist.MigrationExact` | internal/bot/config/room.go:180-223 | the new list is canonical with exactly the emails, local parts with "@*", hosts with "*@" and old entries; the old keys are gone and no other key changes |
| `Spamlist.MigratedEntries` | internal/bot/config/room.go:185-217 | for settings that hold lists, the migrated list is the emails, the local parts with "@*" after them, the hosts with "*@" before them and the old list |
| `Spamlist.MigrationIdempotent` | internal/bot/config/room.go:180-223 | a second migration changes nothing |
| `Spamlist.CollectListed` | internal/bot/config/room.go:185-217 | the loops collect that set |
| `Spamlist.CommandExact` | internal/bot/command_owner.go:263-363 | each command keeps the list canonical and acts on its elements as on a set |
| `Spamlist.AddExactIff` | internal/bot/command_owner.go:263-296 | adding does so if and only if no item has a comma |
| `Spamlist.EveryRunExact` | internal/bot/command_owner.go:263-363 | every run of commands refines the same run on sets |
| `Spamlist.AddThenRemove` | internal/bot/command_owner.go:263-340 | adding fresh items and removing them restores the stored string exactly |
| `Spamlist.Room.MigrateSpamlistSettings` | internal/bot/config/room.go:180-223 | the settings become the migrated ones, for any map order |
| `Spamlist.Room.RunSpamlistAdd` | internal/bot/command_owner.go:263-296 | the list that the process sees becomes `Obeyed`, if the settings can be read and the change is kept |
| `Spamlist.Room.RunSpamlistRemove` | internal/bot/command_owner.go:298-340 | the same for removal |
| `Spamlist.Room.RunSpamlistReset` | internal/bot/command_owner.go:342-363 | the same for the reset |
| `SendCommand.SameCutReads` | internal/bot/command.go:466-481 | when the dispatcher, which trims the message, and the parser, which does not, cut the prefix out at the same place, they see the same words up to case |
| `SendCommand.ReadingsAgree` | internal/bot/command.go:396-397 | they do so for every message if the prefix does not begin with white space |
| `SendCommand.SendNeverOutOfRange` | internal/utils/command.go:15-28 | for such a prefix and every message dispatched as "send" no index is out of range, and details are read if and only if there are three lines |
| `SendPanic.SendPanicExact` | internal/utils/command.go:15-28 | for every prefix and every message dispatched as "send": an index is out of range if and only if the prefix is first found in the white space before the message and what follows its own text has three lines, the first a single word |
| `SendPanic.BlankPrefixExact` | internal/bot/command.go:466-481 | for a prefix of white space the panic can happen if and only if the prefix has a line end before any space |
| `SendPanic.HeadPrefixPanics` | internal/bot/command.go:466-481 | for any white space followed by "s", "se" or "sen" it can happen |
| `SendCommand.SendRoundTrip` | internal/utils/command.go:15-28 | the composed message gives recipients, subject and body back if and only if the body is not empty and does not end in white space |
| `SendCommand.ComposedIsSend` | internal/bot/command.go:396-426 | with a prefix that does not begin with white space such a message is dispatched as "send" |
| `SendCommand.DetailsEndTheText` | internal/utils/command.go:15-28 | what is read is a cut of the text, and the body ends in text |

## Left out

- DNSBL lookups and their tally (internal/smtp/dnsbl.go): the verdict is a parameter of RCPT; the tally is a counting loop.
- The Matrix client, rendering, encryption, notices, reactions and help texts: foreign calls and user interface.
- SMTP client, listener, manager and TLS reload: network plumbing; the SMTP library's own call order is not assumed, except that DATA comes with at least one recipient.
- DKIM, password hashing, SPF/MX checks and MIME: arbitrary verdicts and envelopes.
- Permission checks, option getters, ban lists, mailbox listing, `EmailsList`, `Chunks` and `clearReply`: one-branch facts or display code.
- Concurrency outside the queue: session calls, room handlers, spamlist commands, registry commands and greylist checks are atomic steps, so lost updates between separate reads and writes of one configuration are not modelled.
- The cache of account data as such: settings, lists and queue records are those that the process sees. Its maps are changed in place and keep a change that the server refused, until they are dropped from the cache; every model of a change lets it be kept or not, once and for all, so a change that is seen for a while and then gone is not modelled. What the server holds is modelled for the queue only (`QueueCache`).
- A greylist that cannot be read: the code then goes on with an empty one.
- Store failures in the thread handlers: thread and last-event records are always read and written; Matrix sends and event fetches may fail.
- The list of administrators' rooms, the sub-address part of an address and the files attached to an email: no modelled property depends on them.
- Integer width: attempt counts are unbounded, where the code uses 64-bit integers.
- Case mapping: upper and lower case are those of ASCII.
- Relay URLs: a URL is its text, and reading back a text that is not empty is taken to give the same URL; where a send goes for a given override is not modelled.
- Name lookup and login (`GetMapping` with its catch-all, `AllowAuth`): their answers are parameters of the session's calls.
- RetryQueue.Queue.Add: needs a relay that is not nil, since the code dereferences it; the interleaving model keeps the nil case as a panic.
- CcExact.EveryOrderExact: not for an original From of the room's own mailbox, where `Rewriting.AnyOrderExact` gives a sufficient condition and `CcExact.OwnMailboxBack` shows that it is not a necessary one.
- Replies.ParentEmail.FixToFrom: needs at least one configured domain; the code indexes the first one without a check.
- SendCommand.SendNeverOutOfRange: for prefixes that do not begin with white space; the settings do not enforce this, and `SendPanic.SendPanicExact` gives the exact condition for the others.
- Registry.Bot.SetMailbox: the activation flow that waits for an administrator stores the mapping as the direct one does; its messages are not modelled.
- Unsupported authentication mechanisms and the reading of the client's address behind a proxy.
