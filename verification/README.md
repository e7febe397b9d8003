# Verified models of the cellular, multi-WAN and portal tools

Dafny models of the parts of this feed that run protocols, keep shared state or work on
raw buffers, with proofs about every run, every interleaving or every input:

- **QMI proxy** (`Qlist`, `QmiCtlQueue`, `QmiProxy*`): local clients share one modem control channel.
  Control requests are queued on a linked list and sent one at a time; granted client ids are
  booked per connection and released when it closes.
- **Dial engine** (`Dial*`): the event loop that keeps a data session up over START, CHECK and
  STOP signals, an alarm, a hold time after failures, two address families and a policy for
  PDN conflicts.
- **QMI messages** (`QmiCodec`, `QmiExchange`, `QmiReturns`, `QmiSysInfo`): building and reading
  type-length-value messages in a fixed buffer, matching answers to requests between two
  threads, and the verdict drawn from the system information.
- **AT channel** (`AtLines`, `AtPrompt`, `AtReader`, `AtCommand*`, `AtChannel`, `AtTok`): lines from
  arbitrary reads, the pending command, and the tokenizer.
- **MBIM** (`MbimProxy`, `MbimConnect`): transaction-id tagging over a slot table, and the
  connect request's data buffer.
- **mwan3ct** (`Mwan3ct`): enumerating the marks under a mask and flushing exactly those.
- **Captive portal** (`Wifidog`): the packet hook's per-flow flags.

Each part has the same shape. A specification module gives the state as a datatype and each
event as a function. A proofs module states what holds of all runs of those events. A third
module holds the code in its own form, classes, arrays and loops, and every method's
postcondition ties the new state to the specification function of the old one; a loop over
arbitrary events then carries the run theorems to the objects themselves. Clock
readings, modem replies, poll and read results, set lookups and query outcomes are inputs.

Nine properties turn out not to hold of the code as it stands. Each has a lemma with a run
or input that breaks it, and a lemma with the exact condition or the exact behaviour:

- proxy order and id ownership hold exactly when no connection closes with its request at
  the head of the queue or with two requests queued (`QmiProxyOrder.OrderlyIffSafe`, `LostRequest`);
- with safe closes and an honest modem every granted client id is in one place exactly when
  each accepted client release names an id that client holds; nothing checks this, and a client
  that releases another's id can come to share it (`QmiProxyClients.RunConserves`, `SharedId`);
- the redial is covered at every point exactly when the hold never runs out between the two
  clock readings of a START, where the re-arm is `alarm(0)`; the next CHECK covers it again
  (`DialProofs.RedialIff`, `RedialLost`, `RedialRegained`);
- the lines returned from what has arrived are its terminated segments exactly when no line
  begins with the SMS prompt (`AtPrompt.ArrivingIff`, and `SplitsIff` for whole streams;
  `AtLines.PromptCutsLine`); after a returned prompt the cursor is one behind the terminator,
  where the comment at atchannel.c:424-425 has it at or before it, and the next call starts from
  an empty buffer exactly when the byte there is NUL (`AtReader.Reader.ReadNext`);
- an MBIM answer reaches its client exactly when the id fits 24 bits, the client is still
  there, no client's read came up empty (which ends the loop for all) and the modem did not
  fail; a client that takes over the slot can get it otherwise (`MbimProxyProofs.ReplyIff`,
  `AnswerLost`, `SlotReused`);
- the ids an MBIM client sends stay within 24 bits exactly when none is sent after one composed
  at the limit missed the wrap check (`MbimTids.EscapeIff`, `Escaped`);
- connect data ranges are disjoint exactly when not all three texts are set, and a text is read
  back exactly when the password agrees with it where it is written over it
  (`MbimConnectSpec.DisjointIff`, `ReadBackIff`, `Damaged`);
- the HDR personality, unlike the CDMA and attach verdicts, depends on the order of the
  elements (`QmiSysInfo.PersonalityIff`, `PersonalityByOrder`);
- a bare dash before another token leaves the caller's pointer unset, so its text does not
  come back (`AtTokSpec.AllTextsIff`).

`dafny verify dfyconfig.toml` checks the whole project. Every lemma turns automatic induction off and
recurses explicitly where it needs to: the hypothesis that Dafny 4.11 adds on its own is not guarded
by the type of a sequence parameter, and can prove too much.

## Model

| member | source | states |
|---|---|---|
| `Qlist.Init` | gl-feed/net/quectel-cm/src/qlist.h:30-34 | a node becomes the head of an empty list |
| `Qlist.AddTail` | gl-feed/net/quectel-cm/src/qlist.h:36-42 | a new node goes to the end of the list the head holds; links stay mutually inverse |
| `Qlist.Remove` | gl-feed/net/quectel-cm/src/qlist.h:44-48 | deleting a node by its own links alone takes exactly that element out of the sequence |
| `Qlist.AddTailAmong` | gl-feed/net/quectel-cm/src/qlist.h:36-42 | the same among any number of disjoint lists, the others untouched |
| `Qlist.RemoveAmong` | gl-feed/net/quectel-cm/src/qlist.h:44-48 | the same for removal |
| `Qlist.PerformAll` | gl-feed/net/quectel-cm/src/qlist.h:30-48 | any legal sequence of init, append and remove leaves every list holding what the sequence operations give |
| `Qlist.ForEach` | gl-feed/net/quectel-cm/src/qlist.h:23-24 | iteration visits exactly the sequence, in order, and ends |
| `Qlist.IsEmpty` | gl-feed/net/quectel-cm/src/qlist.h:26-26 | a list is empty iff its head points to itself |
| `QmiProxyOrder.WithdrawInOrder` | gl-feed/net/quectel-cm/src/quectel-qmi-proxy.c:243-251 | taking a closing connection's request out of the queue keeps FIFO order iff it is not the head |
| `QmiProxyOrder.StepOrderly` | gl-feed/net/quectel-cm/src/quectel-qmi-proxy.c:343-394 | each event keeps order, ownership and routing iff it is not an unsafe close |
| `QmiProxyOrder.OrderlyIffSafe` | gl-feed/net/quectel-cm/src/quectel-qmi-proxy.c:181-260 | over every run, order, ownership and routing hold at every point iff every connection closed safely |
| `QmiProxyOrder.InitialOrderly` | gl-feed/net/quectel-cm/src/quectel-qmi-proxy.c:67-85 | the proxy starts orderly |
| `QmiProxyOrder.FifoAndRouting` | gl-feed/net/quectel-cm/src/quectel-qmi-proxy.c:343-443 | in safe runs at most one CTL request is outstanding, it is the queue head, what was sent is a prefix of what was accepted, and the k-th reply is routed by the k-th request |
| `QmiProxyOrder.RoutedWhenAnswered` | gl-feed/net/quectel-cm/src/quectel-qmi-proxy.c:351-383 | over every safe run in which each reply matches its request, what the clients got is, in order, exactly the k-th reply to the k-th requester for every k a client asked, the proxy's own releases left out |
| `QmiProxyOrder.Drains` | gl-feed/net/quectel-cm/src/quectel-qmi-proxy.c:385-392 | from any orderly state as many CTL responses as there are queued requests empty the queue, and everything queued has then been sent |
| `QmiProxyOrder.LostRequest` | gl-feed/net/quectel-cm/src/quectel-qmi-proxy.c:243-251 | a run in which a close drops the in-flight head and another client's request is consumed unsent |
| `QmiProxyOrder.UnsafeCloseDisorderly` | gl-feed/net/quectel-cm/src/quectel-qmi-proxy.c:243-257 | an unsafe close always breaks order or ownership |
| `QmiProxyClients.StepConserves` | gl-feed/net/quectel-cm/src/quectel-qmi-proxy.c:208-291 | with safe closes and an honest modem, an event keeps every granted client id in exactly one place (held by one connection or in one queued release) iff it accepts no client release of an id that client does not hold |
| `QmiProxyClients.RunConserves` | gl-feed/net/quectel-cm/src/quectel-qmi-proxy.c:208-291 | over every safe run with an honest modem this holds at every point iff every accepted client release named an id that client held |
| `QmiProxyClients.SharedId` | gl-feed/net/quectel-cm/src/quectel-qmi-proxy.c:276-291 | a safe run with an honest modem in which client 6 releases the id of client 5, is granted it, and both get every message for it |
| `QmiProxyClients.FanoutCount` | gl-feed/net/quectel-cm/src/quectel-qmi-proxy.c:401-414 | a message for one client id is forwarded as often as the id is held, to its holders only |
| `QmiProxyClients.DeliveredOnce` | gl-feed/net/quectel-cm/src/quectel-qmi-proxy.c:401-414 | over every safe run with an honest modem, and clients that release only what they hold, the step that takes it in writes it once, to the only holder, or to nobody if nobody holds it |
| `QmiCtlQueue.CtlQueue.AddLast` | gl-feed/net/quectel-cm/src/quectel-qmi-proxy.c:430-436 | a message strung on the end of the linked list is the last of the queue |
| `QmiCtlQueue.CtlQueue.First` | gl-feed/net/quectel-cm/src/quectel-qmi-proxy.c:352-352 | the message behind the head's next link is the first of the queue |
| `QmiCtlQueue.CtlQueue.RemoveFirst` | gl-feed/net/quectel-cm/src/quectel-qmi-proxy.c:385-386 | unlinking it leaves the rest, in order |
| `QmiCtlQueue.CtlQueue.RemoveOf` | gl-feed/net/quectel-cm/src/quectel-qmi-proxy.c:243-251 | the walk unlinks exactly the first message of the connection, or nothing |
| `QmiProxyClients.HolderReceives` | gl-feed/net/quectel-cm/src/quectel-qmi-proxy.c:401-414 | with ids conserved, what a message for one client id adds to the writes is one copy to the connection that holds the id, and nothing iff none does |
| `QmiProxyTraffic.FanoutPerRecord` | gl-feed/net/quectel-cm/src/quectel-qmi-proxy.c:401-414 | every descriptor is given a service message once per record it is for: those with its client id, or all of its service when it has none |
| `QmiProxyTraffic.EveryWrite` | gl-feed/net/quectel-cm/src/quectel-qmi-proxy.c:343-443 | over every run, safe or not, service messages go out once per record they are for, CTL responses to the client whose request is at the head and fits, clients' service messages to the modem, all in order, and nothing else is written |
| `QmiProxyTraffic.RunOnce` | gl-feed/net/quectel-cm/src/quectel-qmi-proxy.c:401-414 | over every safe run with an honest modem, and clients that release only what they hold, each message for one client id went to its holder once, or to nobody |
| `QmiProxyTraffic.BookedIff` | gl-feed/net/quectel-cm/src/quectel-qmi-proxy.c:262-291 | a connection's records change only by a response without failure or error that fits its request at the head: granted ids are added, released ones struck off |
| `QmiProxyTraffic.RunAsks` | gl-feed/net/quectel-cm/src/quectel-qmi-proxy.c:208-257 | over every run the requests in the history and those taken back by closes are together exactly the CTL requests of clients other than SYNC and one release per record of a closing connection |
| `QmiProxyTraffic.SyncedIff` | gl-feed/net/quectel-cm/src/quectel-qmi-proxy.c:346-348 | the modem counts as synchronised iff it sent something before clients were served |
| `QmiProxyServer.Server.Enqueue` | gl-feed/net/quectel-cm/src/quectel-qmi-proxy.c:429-436 | a CTL request is queued and sent at once only into an empty queue |
| `QmiProxyServer.Server.ReceiveFromClient` | gl-feed/net/quectel-cm/src/quectel-qmi-proxy.c:417-443 | the request step of the model |
| `QmiProxyServer.Server.GetClientId` | gl-feed/net/quectel-cm/src/quectel-qmi-proxy.c:262-274 | a granted id is booked on the connection, a refused one is not |
| `QmiProxyServer.Server.ReleaseClientId` | gl-feed/net/quectel-cm/src/quectel-qmi-proxy.c:276-291 | the first matching id is struck off, on success only |
| `QmiProxyServer.Server.RouteReply` | gl-feed/net/quectel-cm/src/quectel-qmi-proxy.c:366-383 | the reply goes to, and is booked on, every connection with the requester's descriptor |
| `QmiProxyServer.Server.Advance` | gl-feed/net/quectel-cm/src/quectel-qmi-proxy.c:385-392 | the head leaves and the next request goes out |
| `QmiProxyServer.Server.ForwardToHolders` | gl-feed/net/quectel-cm/src/quectel-qmi-proxy.c:401-414 | the nested loops forward exactly the fan-out of the message |
| `QmiProxyServer.Server.ReceiveFromDevice` | gl-feed/net/quectel-cm/src/quectel-qmi-proxy.c:343-415 | the device step of the model |
| `QmiProxyServer.Server.ReleaseAll` | gl-feed/net/quectel-cm/src/quectel-qmi-proxy.c:209-241 | one release per client id is queued, in order, only on a client disconnect |
| `QmiProxyServer.Server.DropFirstQueued` | gl-feed/net/quectel-cm/src/quectel-qmi-proxy.c:243-251 | the connection's first queued request is withdrawn |
| `QmiProxyServer.Server.CleanupConnection` | gl-feed/net/quectel-cm/src/quectel-qmi-proxy.c:202-260 | the close step of the model |
| `QmiProxyServer.Server.CloseAll` | gl-feed/net/quectel-cm/src/quectel-qmi-proxy.c:603-608 | the exit loop ends with no connection and sends nothing more |
| `QmiProxyLoop.ProxyLoop` | gl-feed/net/quectel-cm/src/quectel-qmi-proxy.c:480-601 | the server object, over any sequence of poll events, goes through the run of the model, so its own lists end ordered and routed if closes were safe, and with an honest modem, and clients that release only what they hold, every granted id is in one place and its messages went to its holder once; whatever the closes, all writes and all requests are accounted for |
| `DialProofs.StepRedial` | gl-feed/net/quectel-cm/src/main.c:600-611 | from a state that owes a redial and has it covered, an event loses it iff the re-arm computes zero seconds |
| `DialProofs.RedialIff` | gl-feed/net/quectel-cm/src/main.c:556-936 | at every point of every run an owed redial is covered by a queued signal, an armed alarm or exit, iff that race never happens |
| `DialProofs.InitialRedial` | gl-feed/net/quectel-cm/src/main.c:556-556 | the loop starts with the obligation met |
| `DialProofs.RearmInTime` | gl-feed/net/quectel-cm/src/main.c:607-610 | after a START before the hold ends the session's alarm lies at the hold or less than a second after it; there is none when the clock passed the hold in between |
| `DialProofs.RedialLost` | gl-feed/net/quectel-cm/src/main.c:600-610 | a run from the start of the loop on a monotone clock: CHECK, a failing START, its alarm, and a START that reads one millisecond before and then at the hold |
| `DialProofs.CheckRegains` | gl-feed/net/quectel-cm/src/main.c:567-571 | from any state, even after the race, the first CHECK posted or taken covers the redial again |
| `DialProofs.RedialRegained` | gl-feed/net/quectel-cm/src/main.c:567-571 | over every run the redial is covered at the end if a CHECK came and the race did not happen after it |
| `DialProofs.BackOff` | gl-feed/net/quectel-cm/src/main.c:733-755 | after any run the next failing START holds for 5, 10, 20, 40, 60, 60, ... seconds by the failures since the last success, and arms the alarm for it |
| `DialProofs.RunFails` | gl-feed/net/quectel-cm/src/main.c:737-751 | the failure counter is the streak of failing STARTs since the last success, in 32 bits |
| `DialProofs.AlarmBeforeHold` | gl-feed/net/quectel-cm/src/main.c:743-744 | the alarm of a failing START comes before the end of its hold by exactly what lies between the two clock readings |
| `DialProofs.QuietDuringHold` | gl-feed/net/quectel-cm/src/main.c:607-610 | while the hold lasts no run of events makes a data call or moves the hold, except the two events that may move it |
| `DialProofs.HoldStep` | gl-feed/net/quectel-cm/src/main.c:603-611 | a call is made only once the hold is over |
| `DialProofs.Dial4Verdict` | gl-feed/net/quectel-cm/src/main.c:623-664 | what one visit of the IPv4 block does, told by its last request |
| `DialProofs.Dial6Verdict` | gl-feed/net/quectel-cm/src/main.c:666-696 | what one visit of the IPv6 block does; IPv6 is given up only while IPv4 is connected |
| `DialProofs.DialledOnce` | gl-feed/net/quectel-cm/src/main.c:616-698 | in both orders each family is dialled once per START: at most three IPv4 requests in a row, at most one for IPv6 |
| `DialProofs.ConflictExitIff` | gl-feed/net/quectel-cm/src/main.c:703-731 | with IPv4 enabled the conflict exit happens iff this START's last IPv4 request was refused with a conflict code while IPv4 was down; on QMI the code is 55, 209 or 211 |
| `DialProofs.ProfileKept` | gl-feed/net/quectel-cm/src/main.c:626-648 | APN and credentials survive each event; IPv6 goes off only with IPv4 connected |
| `DialProofs.ProfileKeptRun` | gl-feed/net/quectel-cm/src/main.c:616-698 | over every run the APN is as configured and IPv6 never comes back on |
| `DialProofs.AuthKept` | gl-feed/net/quectel-cm/src/main.c:626-635 | the auth mode changes only to the mode of a request that succeeded in that START |
| `DialChecks.CheckConcludes` | gl-feed/net/quectel-cm/src/main.c:793-861 | after a CHECK IPv4 is up iff it was not down, the query succeeded, the modem reported it connected, and its address was known or fetched and agreed; IPv6 is up iff the modem says so, or IPv4 is where it has no call of its own; the link is bits 4 and 6 of the two; a START is queued iff an enabled family is down, so always when one is reported down |
| `DialChecks.Up4Iff` | gl-feed/net/quectel-cm/src/main.c:600-861 | after any event IPv4 is up iff a CHECK just confirmed it, or it was up or the last IPv4 request of a START was granted and brought an address, and no CHECK was made |
| `DialChecks.Up6Iff` | gl-feed/net/quectel-cm/src/main.c:600-861 | the same for IPv6, which follows IPv4 where it has no call of its own |
| `DialChecks.DroppedIsRedialled` | gl-feed/net/quectel-cm/src/main.c:793-861 | a call the modem reports gone is asked for anew by the START that the CHECK queues |
| `DialChecks.RequestsInTurn` | gl-feed/net/quectel-cm/src/main.c:624-648 | IPv4 is asked for with the configured APN and auth, then iff refused by the network and with credentials with the other auth, then iff that ended in a conflict and the profile allows on the profile alone |
| `DialChecks.GrantedKept` | gl-feed/net/quectel-cm/src/main.c:624-664 | the address fetched after a granted call and the auth mode that got it are kept |
| `DialChecks.GivenUpIff` | gl-feed/net/quectel-cm/src/main.c:671-684 | IPv6 is given up iff its request was refused for a conflict while IPv4 was up and conflicts are to end it |
| `DialChecks.SixFirstIff` | gl-feed/net/quectel-cm/src/main.c:617-622 | IPv6 is dialled first iff both families are asked for over QMI and the switch is set |
| `DialChecks.SixConflictExitIff` | gl-feed/net/quectel-cm/src/main.c:703-731 | without IPv4 the conflict exit happens iff the one IPv6 request met a conflict and IPv6 stays down |
| `DialChecks.ConflictRecorded` | gl-feed/net/quectel-cm/src/QMIThread.c:2111-2145 | over QMI a conflict is recorded iff a refused call has end reason 6/55, 2/209 or 2/211 |
| `DialChecks.WaitsASecond` | gl-feed/net/quectel-cm/src/main.c:911-916 | after a change of the call list while a call is up no request is made for a second |
| `DialChecks.HoldLifted` | gl-feed/net/quectel-cm/src/main.c:899-909 | after a detach or a success the next START that may dial does |
| `DialChecks.AttachStarts` | gl-feed/net/quectel-cm/src/main.c:899-909 | a report of the network's state is taken over, and coming back with a family down asks for a dial |
| `DialChecks.EndsIff` | gl-feed/net/quectel-cm/src/main.c:863-897 | the session ends iff the modem is lost or reset, a STOP is taken or a START ends in a conflict, and then with the link down |
| `DialChecks.InterruptEnds` | gl-feed/net/quectel-cm/src/main.c:863-889 | over every run an interrupt is not lost: the session ended or the STOP is still queued |
| `DialEngine.Engine.SetupDataCall` | gl-feed/net/quectel-cm/src/QMIThread.c:2102-2160 | one data-call request: error code and conflict code by the modem's reply |
| `DialEngine.Engine.StartV4` | gl-feed/net/quectel-cm/src/main.c:623-635 | first IPv4 request and the one with the other auth mode |
| `DialEngine.Engine.RetryBare` | gl-feed/net/quectel-cm/src/main.c:637-648 | the retry on the profile alone, APN restored |
| `DialEngine.Engine.StartV6` | gl-feed/net/quectel-cm/src/main.c:666-696 | the IPv6 block |
| `DialEngine.Engine.StartBoth` | gl-feed/net/quectel-cm/src/main.c:616-698 | the two-pass loop computes the dialling order of the model |
| `DialEngine.Engine.AfterStart` | gl-feed/net/quectel-cm/src/main.c:703-755 | conflict exit, back-off or success |
| `DialEngine.Engine.HandleStart` | gl-feed/net/quectel-cm/src/main.c:603-756 | the START step of the model |
| `DialEngine.Engine.CheckV4` | gl-feed/net/quectel-cm/src/main.c:793-811 | the IPv4 check |
| `DialEngine.Engine.CheckV6` | gl-feed/net/quectel-cm/src/main.c:813-823 | the IPv6 check |
| `DialEngine.Engine.UpdateLink` | gl-feed/net/quectel-cm/src/main.c:825-835 | the link follows the two statuses |
| `DialEngine.Engine.HandleCheck` | gl-feed/net/quectel-cm/src/main.c:758-861 | the CHECK step of the model |
| `DialEngine.Engine.HandleSignal` | gl-feed/net/quectel-cm/src/main.c:598-889 | one signal: the alarm is cancelled first |
| `DialEngine.Engine.Dispatch` | gl-feed/net/quectel-cm/src/main.c:563-576 | each event of the two descriptors or of the poll does the step of the model |
| `DialLoop.MainLoop` | gl-feed/net/quectel-cm/src/main.c:558-956 | the engine object, over any sequence of events, goes through the run of the model: its counter is the failure streak, its profile follows the configured one, an owed redial is covered unless the race happened with no CHECK since, and no interrupt is lost |
| `AtLines.GatherFirst` | gl-feed/net/quectel-cm/src/atchannel.c:368-424 | one call returns the first line of what is buffered and still to come, and leaves the rest |
| `AtLines.ChunkIndependent` | gl-feed/net/quectel-cm/src/atchannel.c:304-429 | however a stream is split into reads that stay below the limit, the lines returned are its non-empty CR/LF-terminated segments, in order |
| `AtPrompt.ArrivingIff` | gl-feed/net/quectel-cm/src/atchannel.c:304-315 | for every stream that can be read within the buffer, whatever part has arrived in whatever fitting reads, the lines returned are exactly the terminated segments of that part iff no line begins with the SMS prompt |
| `AtPrompt.SplitsIff` | gl-feed/net/quectel-cm/src/atchannel.c:304-315 | for every stream shorter than the buffer in which no prompt is a line by itself, all splits are read as the lines of the stream iff no line begins with the prompt |
| `AtPrompt.PromptThenMore` | gl-feed/net/quectel-cm/src/atchannel.c:304-315 | whatever comes later, a stream up to its first prompt is read as its lines and then the prompt, before any line end came |
| `AtLines.PromptCutsLine` | gl-feed/net/quectel-cm/src/atchannel.c:304-315 | a line that begins with the prompt and goes on is returned whole when it comes in one read, and cut when the read ends behind the prompt |
| `AtReader.Reader.SkipNewlines` | gl-feed/net/quectel-cm/src/atchannel.c:403-405 | the cursor skips leading CR and LF |
| `AtReader.Reader.FindNextEol` | gl-feed/net/quectel-cm/src/atchannel.c:304-315 | finds the end of the first line, or the prompt |
| `AtReader.Reader.MoveUp` | gl-feed/net/quectel-cm/src/atchannel.c:354-363 | the partial line is moved to the front of the buffer |
| `AtReader.Reader.Restart` | gl-feed/net/quectel-cm/src/atchannel.c:369-375 | a full buffer without a line is thrown away |
| `AtReader.Reader.Append` | gl-feed/net/quectel-cm/src/atchannel.c:393-401 | one read lands behind what is buffered, with a NUL after it, inside the buffer unless the read fills it |
| `AtReader.Reader.Cut` | gl-feed/net/quectel-cm/src/atchannel.c:420-428 | the line is cut out and the cursor set behind it; for the prompt that is one behind its terminator, in an unchanged buffer, and the text the next call starts on is empty iff that byte is NUL |
| `AtReader.Reader.Fetch` | gl-feed/net/quectel-cm/src/atchannel.c:340-418 | the reads of one call end with the line of the model in the buffer, or with the channel closed; behind it the bytes of earlier calls are untouched when nothing was thrown away |
| `AtReader.Reader.ReadNext` | gl-feed/net/quectel-cm/src/atchannel.c:328-429 | readline over the buffer returns the line of the model and uses up its reads, for every deliverable sequence of reads; it leaves the rest of the model buffered, or after a prompt starts the next call on what the buffer held behind it when this one began; if every read leaves room for the terminator no write goes outside |
| `AtReader.Reader.ReadLines` | gl-feed/net/quectel-cm/src/atchannel.c:328-429 | reading until the channel closes returns exactly the lines of the whole stream, and no write goes outside the buffer |
| `AtCommandProofs.LineKeeps` | gl-feed/net/quectel-cm/src/atchannel.c:229-295 | a line handed in while a command waits keeps the response faithful to the lines seen so far |
| `AtCommandProofs.StepKeepsOwner` | gl-feed/net/quectel-cm/src/atchannel.c:627-636 | every exit path leaves one owner for each response: being filled, given to the caller, or freed |
| `AtCommandProofs.RunKeeps` | gl-feed/net/quectel-cm/src/atchannel.c:743-799 | all of it over every interleaving |
| `AtCommandProofs.ResponsesFaithful` | gl-feed/net/quectel-cm/src/atchannel.c:229-295 | for every interleaving each response given out holds exactly the expected lines in arrival order (all matching, at most the first, or none, by command type) and the last final line; a command is done only once a final line came and ends for a closed channel only if it is closed; the response is given out iff it was asked for and the wait was not cut short; nothing stays pending |
| `AtCommandProofs.WakeEndsIff` | gl-feed/net/quectel-cm/src/atchannel.c:770-777 | a wake-up ends the wait iff a final line was among the lines handed over or the channel is closed; otherwise nothing changes |
| `AtCommandProofs.SendWaitsIff` | gl-feed/net/quectel-cm/src/atchannel.c:743-768 | a command is waited for iff it was written or there is nothing to write; otherwise that is reported |
| `AtCommandProofs.ClosedIff` | gl-feed/net/quectel-cm/src/atchannel.c:431-444 | the channel is closed after a run iff it was or closed in it |
| `AtCommandLines.EveryLine` | gl-feed/net/quectel-cm/src/atchannel.c:229-295 | over every interleaving each line answers the first raw or SMS prompt of its command, ends it, becomes part of its response or is passed on as unsolicited, in order, and nothing else is written |
| `AtChannel.At.WriteRaw` | gl-feed/net/quectel-cm/src/atchannel.c:592-625 | nothing is written once the channel is closed |
| `AtChannel.TurnRound` | gl-feed/net/quectel-cm/src/atchannel.c:726-734 | the links of the list are reversed in place |
| `AtChannel.AtResponse.AddIntermediate` | gl-feed/net/quectel-cm/src/atchannel.c:111-124 | a line is put in front of the list |
| `AtChannel.AtResponse.ReverseIntermediates` | gl-feed/net/quectel-cm/src/atchannel.c:722-735 | the lines are in reverse, on the same nodes |
| `AtChannel.At.HandleFinal` | gl-feed/net/quectel-cm/src/atchannel.c:240-249 | a final line ends the response |
| `AtChannel.At.HandleOther` | gl-feed/net/quectel-cm/src/atchannel.c:255-292 | other lines are taken or unsolicited by command type |
| `AtChannel.At.ProcessLine` | gl-feed/net/quectel-cm/src/atchannel.c:229-295 | the reader's step of the model |
| `AtChannel.At.ProcessAwaited` | gl-feed/net/quectel-cm/src/atchannel.c:240-294 | the branches for a line that does not ask for raw data |
| `AtChannel.At.ClearPending` | gl-feed/net/quectel-cm/src/atchannel.c:627-636 | nothing pending, the response freed |
| `AtChannel.At.Begin` | gl-feed/net/quectel-cm/src/atchannel.c:743-768 | the command thread's step up to its wait |
| `AtChannel.At.Return` | gl-feed/net/quectel-cm/src/atchannel.c:779-798 | the response goes to the caller, lines in arrival order, or is freed |
| `AtChannel.At.Fail` | gl-feed/net/quectel-cm/src/atchannel.c:795-798 | the error exits clear what is pending |
| `AtInterleaving.Interleave` | gl-feed/net/quectel-cm/src/atchannel.c:229-295 | the channel object, over any interleaving of the two threads, ends with faithful outcomes, commands done only after a final line, one owner per response, every other line where it should be, and nothing pending when nobody waits |
| `AtTokSpec.RoundTrip` | gl-feed/net/quectel-cm/src/at_tok.c:208-283 | a printed token list after a colon that fits the line buffer is read back token by token, as many as asked for or all there are |
| `AtTokSpec.ScanPrinted` | gl-feed/net/quectel-cm/src/at_tok.c:72-89 | the same for the list alone |
| `AtTokSpec.AllTextsIff` | gl-feed/net/quectel-cm/src/at_tok.c:245-250 | scanning a printed response gives every text back iff no bare dash stands before another token |
| `AtTokSpec.StartsIff` | gl-feed/net/quectel-cm/src/at_tok.c:30-48 | there is nothing to start from iff the line has no colon |
| `AtTokSpec.SpaceIgnored` | gl-feed/net/quectel-cm/src/at_tok.c:50-89 | white space in front of a token does not matter |
| `AtTokSpec.JunkDropped` | gl-feed/net/quectel-cm/src/at_tok.c:59-89 | what stands between a quoted token and its comma is dropped, all of it if there is no comma |
| `AtTok.SkipWhiteSpace` | gl-feed/net/quectel-cm/src/at_tok.c:50-57 | white space under the cursor is skipped |
| `AtTok.SkipNextComma` | gl-feed/net/quectel-cm/src/at_tok.c:59-70 | the cursor goes behind the next comma, or to the end |
| `AtTok.StrSep` | gl-feed/net/quectel-cm/src/at_tok.c:72-89 | cutting at a delimiter by overwriting it |
| `AtTok.Next` | gl-feed/net/quectel-cm/src/at_tok.c:72-89 | nextTok cuts out the token of the model and touches nothing before the cursor |
| `AtTok.TokStart` | gl-feed/net/quectel-cm/src/at_tok.c:30-48 | the cursor starts behind the first colon |
| `AtTok.Scanf` | gl-feed/net/quectel-cm/src/at_tok.c:208-283 | the tokens found, read from the buffer when all is done, are those of the model |
| `QmiTlv.RoundTrip` | gl-feed/net/quectel-cm/src/QMIThread.c:79-88 | decoding an encoded element list gives the list back |
| `QmiTlv.GetTlv` | gl-feed/net/quectel-cm/src/QMIThread.c:74-92 | over any well-formed list the walk finds the first element that answers, by type or by position, or nothing |
| `QmiStartNetwork.LookupIsFirst` | gl-feed/net/quectel-cm/src/QMIThread.c:84-86 | a lookup by type is the first element of that type |
| `QmiStartNetwork.LookupIsNth` | gl-feed/net/quectel-cm/src/QMIThread.c:81-83 | a lookup by position is the element there |
| `QmiStartNetwork.FieldsFound` | gl-feed/net/quectel-cm/src/QMIThread.c:202-253 | each setting written is found and each left out is not |
| `QmiStartNetwork.CdmaCredentials` | gl-feed/net/quectel-cm/src/QMIThread.c:193-197 | on CDMA a profile with neither user name nor password asks as ctnet@mycdma.cn with vnet.mobi by CHAP, without APN or profile index |
| `QmiStartNetwork.OwnCredentials` | gl-feed/net/quectel-cm/src/QMIThread.c:191-253 | every other profile asks with its own texts and auth mode |
| `QmiStartNetwork.DeviceFieldsFound` | gl-feed/net/quectel-cm/src/QMIThread.c:255-298 | the same for the device-dependent elements |
| `QmiStartNetwork.FitsBuffer` | gl-feed/net/quectel-cm/src/QMIThread.c:101-131 | texts of at most 218 bytes together always fit the 256-byte buffer, except on product 0x0316 |
| `QmiComposer.PutText` | gl-feed/net/quectel-cm/src/QMIThread.c:213-237 | a text element at the running offset |
| `QmiComposer.PutElements` | gl-feed/net/quectel-cm/src/QMIThread.c:179-300 | the buffer holds the header and exactly the elements, and their length is returned |
| `QmiComposer.Compose` | gl-feed/net/quectel-cm/src/QMIThread.c:101-131 | the message is header and elements, its nested lengths agree with the bytes, and decoding gives the elements back |
| `QmiComposer.ElementsSize` | gl-feed/net/quectel-cm/src/QMIThread.c:179-300 | the elements take exactly the bytes counted by what is set |
| `QmiComposer.StartNetworkRoundTrip` | gl-feed/net/quectel-cm/src/QMIThread.c:74-300 | size, decoding and lookup of every field, together, for every profile within the limit |
| `QmiExchangeProofs.EveryOutcomeRight` | gl-feed/net/quectel-cm/src/QMIThread.c:650-689 | over every interleaving a woken call returns the first message received since its own request that has that request's identity, or nothing iff none came before the wake-up or a hang-up came first |
| `QmiExchangeProofs.OwnAnswer` | gl-feed/net/quectel-cm/src/QMIThread.c:632-646 | a response handed over has the service type, client id and transaction id of the caller's own request |
| `QmiExchangeProofs.NoLateAnswer` | gl-feed/net/quectel-cm/src/QMIThread.c:660-661 | a message received before a later request was sent is never handed to it, and none is handed out twice |
| `QmiExchangeProofs.FreedOnce` | gl-feed/net/quectel-cm/src/QMIThread.c:694-714 | no request buffer is freed twice or freed while in the slot; no response leaves the slot twice |
| `QmiExchangeProofs.SentAs` | gl-feed/net/quectel-cm/src/QmiWwanCM.c:129-138 | what is sent keeps the transaction id, has a client id, and never the folded IPv6 service |
| `QmiReturns.EveryCall` | gl-feed/net/quectel-cm/src/QMIThread.c:650-714 | over every interleaving a request goes out iff the device is open, the write succeeds and the device record has a client id for its service, under that id (the IPv6 service its own), and each woken call returns the first message since then with the request's service, client id and transaction id bytes, or nothing iff none came before a hang-up or the wake-up |
| `QmiReturns.ReadFreesIff` | gl-feed/net/quectel-cm/src/QMIThread.c:694-714 | the reader frees the waiting request iff it is answered or the channel hangs up |
| `QmiReturns.NeverDangling` | gl-feed/net/quectel-cm/src/QMIThread.c:665-676 | over every interleaving a response freed for want of a taker is out of the slot |
| `QmiExchangeThreads.DeviceSend` | gl-feed/net/quectel-cm/src/QmiWwanCM.c:120-156 | the rewrite of the caller's buffer, and when sending succeeds |
| `QmiExchangeThreads.Threads.Begin` | gl-feed/net/quectel-cm/src/QMIThread.c:650-664 | the sender's step up to its wait; the slot aliases the caller's buffer |
| `QmiExchangeThreads.Threads.Read` | gl-feed/net/quectel-cm/src/QMIThread.c:694-714 | the reader's step: match, free, copy, signal, or hang-up |
| `QmiExchangeThreads.Threads.IsResponse` | gl-feed/net/quectel-cm/src/QMIThread.c:632-646 | the identity test on two buffers |
| `QmiExchangeThreads.Threads.Resume` | gl-feed/net/quectel-cm/src/QMIThread.c:665-688 | the sender's step after the wait |
| `QmiInterleaving.Interleave` | gl-feed/net/quectel-cm/src/QMIThread.c:650-714 | the shared state, over any interleaving of sender and reader on real buffers, ends with every request sent and every call answered as it should be, and no buffer freed twice |
| `QmiSysInfo.VerdictIff` | gl-feed/net/quectel-cm/src/QMIThread.c:1672-1909 | CDMA iff some CDMA or HDR evidence and no LTE or NR evidence; attached iff some system element reports a packet domain |
| `QmiSysInfo.AnyOrder` | gl-feed/net/quectel-cm/src/QMIThread.c:1672-1909 | both verdicts are the same for every permutation of the elements |
| `QmiSysInfo.PersonalityIff` | gl-feed/net/quectel-cm/src/QMIThread.c:1799-1804 | eHRPD is concluded iff it is reported at or after a packet-domain report |
| `QmiSysInfo.PersonalityByOrder` | gl-feed/net/quectel-cm/src/QMIThread.c:1799-1804 | two orders of the same two elements that differ in the personality |
| `QmiSysInfo.ReadElement` | gl-feed/net/quectel-cm/src/QMIThread.c:1678-1904 | the switch on one element's bytes |
| `QmiSysInfo.Walk` | gl-feed/net/quectel-cm/src/QMIThread.c:1677-1909 | the loop over the bytes of the answer reaches those verdicts |
| `MbimProxyProofs.TableInOrder` | gl-feed/net/quectel-cm/src/quectel-mbim-proxy.c:182-205 | in every run each live slot carries its own number and descriptors are distinct |
| `MbimProxyProofs.TagApart` | gl-feed/net/quectel-cm/src/quectel-mbim-proxy.c:239-240 | the tag can be taken apart; the low 24 bits are the client's id iff that id fits 24 bits |
| `MbimProxyProofs.ReplyIff` | gl-feed/net/quectel-cm/src/quectel-mbim-proxy.c:208-290 | whatever happens in between, the answer to a request reaches that client alone with its own id iff the id fits 24 bits, the client did not hang up, no client's read came up empty and the modem did not fail |
| `MbimProxyProofs.AnswerLost` | gl-feed/net/quectel-cm/src/quectel-mbim-proxy.c:351-361 | a run in which one client's empty read ends the loop and another, who never hung up, loses its answer |
| `MbimProxyProofs.BroadcastOnce` | gl-feed/net/quectel-cm/src/quectel-mbim-proxy.c:262-268 | an unsolicited message reaches every connected client once and nobody else |
| `MbimProxyProofs.BroadcastTold` | gl-feed/net/quectel-cm/src/quectel-mbim-proxy.c:262-268 | what a message with id 0 adds to the writes is one copy to every connected client and nothing else |
| `MbimProxyProofs.EveryWrite` | gl-feed/net/quectel-cm/src/quectel-mbim-proxy.c:208-290 | over every run unsolicited messages go once to each client connected at that point, answers to the client in the slot of their tag, opens and closes get their done message, other requests are passed on under their slot's tag, in order, and nothing else is written |
| `MbimProxyProofs.ServedIff` | gl-feed/net/quectel-cm/src/quectel-mbim-proxy.c:292-394 | clients are served after a run iff they were or the modem reported being open, and the loop did not end since |
| `MbimProxyProofs.SessionShared` | gl-feed/net/quectel-cm/src/quectel-mbim-proxy.c:227-236 | in every run no client's open or close message reaches the modem |
| `MbimProxyProofs.AnsweredHere` | gl-feed/net/quectel-cm/src/quectel-mbim-proxy.c:227-236 | open and close are answered to that client alone, as done, with its own id |
| `MbimProxyProofs.SlotReused` | gl-feed/net/quectel-cm/src/quectel-mbim-proxy.c:182-205 | a run in which the next client in a slot is handed the answer meant for the previous one |
| `MbimProxyServer.Server.HandleConnect` | gl-feed/net/quectel-cm/src/quectel-mbim-proxy.c:167-193 | the first free slot is taken |
| `MbimProxyServer.Server.HandleDisconnect` | gl-feed/net/quectel-cm/src/quectel-mbim-proxy.c:195-206 | the slot is freed |
| `MbimProxyServer.Server.HandleRequest` | gl-feed/net/quectel-cm/src/quectel-mbim-proxy.c:208-248 | open and close answered locally, the rest tagged in place and passed on |
| `MbimProxyServer.Server.SendAll` | gl-feed/net/quectel-cm/src/quectel-mbim-proxy.c:262-268 | the broadcast loop |
| `MbimProxyServer.Server.HandleResponse` | gl-feed/net/quectel-cm/src/quectel-mbim-proxy.c:255-290 | the device step of the model |
| `MbimProxyServer.Server.Dispatch` | gl-feed/net/quectel-cm/src/quectel-mbim-proxy.c:327-383 | each ready descriptor does the step of the model, including the restart with a wiped table |
| `MbimProxyServer.Server.ProxyLoop` | gl-feed/net/quectel-cm/src/quectel-mbim-proxy.c:292-394 | the server object, over any sequence of poll events, goes through the run of the model with its table in order, and everything it wrote is what it should have written |
| `MbimTids.TidsFit` | gl-feed/net/quectel-cm/src/mbim-cm.c:942-951 | ids sent stay within 1 and 0xFFFFFF when every command composed at the limit reaches the wrap check |
| `MbimTids.EscapeIff` | gl-feed/net/quectel-cm/src/mbim-cm.c:1440-1446 | for every sequence of commands too short for the counter to come round, all ids sent fit iff none is sent after one composed at the limit missed the check |
| `MbimTids.Escaped` | gl-feed/net/quectel-cm/src/mbim-cm.c:1440-1446 | one unsent command at the limit and the next id has a 25th bit |
| `MbimTids.Client.Send` | gl-feed/net/quectel-cm/src/mbim-cm.c:1425-1446 | composing takes the counter, sending renumbers |
| `MbimConnectSpec.NarrowWiden` | gl-feed/net/quectel-cm/src/mbim-cm.c:865-885 | narrowing undoes widening |
| `MbimConnectSpec.AlignedInside` | gl-feed/net/quectel-cm/src/mbim-cm.c:1942-1973 | every range is 4-byte aligned and inside the buffer, for all lengths |
| `MbimConnectSpec.DisjointIff` | gl-feed/net/quectel-cm/src/mbim-cm.c:1956-1975 | the ranges are disjoint iff not all of APN, user and password are set |
| `MbimConnectSpec.ReadBack` | gl-feed/net/quectel-cm/src/mbim-cm.c:1956-1975 | unless all three are set, each text is read back from its range |
| `MbimConnectSpec.ReadBackIff` | gl-feed/net/quectel-cm/src/mbim-cm.c:1956-1975 | for all texts the password is read back, and APN and user name each iff their letters agree with the password where their ranges overlap it |
| `MbimConnectSpec.Damaged` | gl-feed/net/quectel-cm/src/mbim-cm.c:1963-1967 | with all three set the password can land on the user name |
| `MbimConnect.CharToWchar` | gl-feed/net/quectel-cm/src/mbim-cm.c:873-885 | the range written is the widened text, cut to the room |
| `MbimConnect.WcharToChar` | gl-feed/net/quectel-cm/src/mbim-cm.c:865-871 | the narrowed text, cut to the room and terminated |
| `MbimConnect.Populate` | gl-feed/net/quectel-cm/src/mbim-cm.c:1938-1978 | layout, length and buffer contents of the connect data |
| `Mwan3Bits.ExtractDeposit` | gl-feed/net/mwan3-nft/src/mwan3ct.c:25-36 | reading back what was spread over a mask gives the number |
| `Mwan3Bits.DepositExtract` | gl-feed/net/mwan3-nft/src/mwan3ct.c:25-36 | spreading what was read gives the part under the mask |
| `Mwan3Bits.Bijection` | gl-feed/net/mwan3-nft/src/mwan3ct.c:25-36 | numbers below 2 to the bit count and submasks correspond one to one, for every mask |
| `Mwan3Bits.PopcountRest` | gl-feed/net/mwan3-nft/src/mwan3ct.c:30-30 | clearing the lowest set bit lowers the count by one |
| `Mwan3Bits.MarkIff` | gl-feed/net/mwan3-nft/src/mwan3ct.c:109-112 | an entry has the mark of a number iff its bits under the mask read as that number |
| `Mwan3ct.Id2Mask` | gl-feed/net/mwan3-nft/src/mwan3ct.c:25-36 | the loop computes the spread number |
| `Mwan3ct.Conntrack.FlushAnyMarked` | gl-feed/net/mwan3-nft/src/mwan3ct.c:95-116 | success removes exactly the entries marked under the mask that pass the status filter; a failing query leaves exactly the later marks; more than 16 bits is an error that removes nothing |
| `Mwan3ct.QueriesApart` | gl-feed/net/mwan3-nft/src/mwan3ct.c:108-112 | no entry is matched by two queries |
| `WifidogProofs.HookKeeps` | gl-feed/net/gl-portal/src/wifidog-ng.c:295-380 | every packet keeps the flag discipline |
| `WifidogProofs.EverySequence` | gl-feed/net/gl-portal/src/wifidog-ng.c:295-380 | over every sequence of packets and changes no flow is both allowed and hijacked, each is redirected at most once and only by a web packet of a client not let in, and every allowed flow earned it by a packet |
| `WifidogProofs.AllowedStays` | gl-feed/net/gl-portal/src/wifidog-ng.c:322-324 | a flow once allowed is never redirected |
| `WifidogProofs.NothingSlipsBy` | gl-feed/net/gl-portal/src/wifidog-ng.c:319-373 | a tracked packet the hook looks into passes only if its flow is then allowed or hijacked, or is killed for a client let in |
| `WifidogProofs.LetThroughIff` | gl-feed/net/gl-portal/src/wifidog-ng.c:322-378 | a flow not led to the portal is let through and its packet accepted iff it was before, or the packet opens it for a listed client or address, or is DNS, DHCP or neither TCP nor UDP; else a packet that opens an untranslated web connection appends exactly one redirect, and any other is dropped with nothing changed |
| `WifidogProofs.HijackedPasses` | gl-feed/net/gl-portal/src/wifidog-ng.c:326-336 | a packet of a flow led to the portal is accepted, and the flow goes iff the client is listed |
| `WifidogProofs.NotLooked` | gl-feed/net/gl-portal/src/wifidog-ng.c:307-324 | a packet the hook does not look into is accepted and changes nothing |
| `WifidogProofs.EarnedForGood` | gl-feed/net/gl-portal/src/wifidog-ng.c:322-340 | over every sequence, once a packet earned its flow the passage no later packet of the flow is dropped |
| `WifidogProofs.SettingsInForce` | gl-feed/net/gl-portal/src/wifidog-ng.c:112-170 | every packet is judged by the settings given last |
| `WifidogProofs.SubnetTest` | gl-feed/net/gl-portal/src/wifidog-ng.c:319-320 | the test by broadcast address is the test by network, for the usual broadcast |
| `Wifidog.Netns.Filter` | gl-feed/net/gl-portal/src/wifidog-ng.c:295-380 | the hook's branches compute the packet step of the model |
| `WifidogLoop.Serve` | gl-feed/net/gl-portal/src/wifidog-ng.c:295-380 | the hook, over any sequence of events, leaves flows, redirects and verdicts with the properties of every run |

## Left out

- Device discovery, sysfs probing, ethtool, usbmon, DHCP clients, netlink, the socket wrapper, hardware info, data-format detection and the QRTR transport: input and output with little state of their own.
- Logging, dump functions, name tables, cell information and command-line parsing.
- Code that is not compiled by default: QMI packet merging, QoS, status messages over IPC, SIM reboot after a long detach, and everything under `#if 0`.
- quectel-atc-proxy.c: the same proxy shape with less state.
- The modem-reset branch of the QMI proxy: line 395 compares the service type with an indication flag, so it is never taken, and nothing is claimed about it.
- Allocation failure, short or failed writes to clients and the modem, and element lists that are not well formed: success and well-formedness are assumed.
- Addresses being zero at exit: the link function returns early when the link value is unchanged, so this does not hold and is not claimed.
- More than one thread sending QMI or AT commands at a time.
- Reading the integer formats of the tokenizer; strings are modelled, and a format is the number of strings it asks for.
- MbimProxyProofs.ReplyIff: the descriptors and the server socket that the early return from the loop leaves open, and the reopening of the modem, are not modelled; clients are served again once it reports being open.
- MbimProxyProofs.EveryWrite: for client descriptors that are positive, as accept hands them out.
- WifidogProofs.EarnedForGood: for packets of flows that were tracked at some time.
- QmiProxyServer.Server: the request queue is a linked list on the heap; the connection list and each connection's client list are sequence fields.
- QmiProxyClients.RunConserves: for a modem that answers the request it was given, grants only free ids and releases exactly the granted id asked for.
- QmiTlv.GetTlv: takes a well-formed list; on others the 16-bit remaining length wraps.
- QmiComposer.Compose: takes a transaction id and a profile whose message fits 256 bytes; the source has no check of its own, and what it does beyond the buffer is not modelled.
- QmiComposer.PutElements: the two bring-up elements of product 0x0316 have one byte of value; the three further bytes that the source stores behind it, and the next element or nothing covers, are not modelled.
- QmiSysInfo.Walk: country and network codes, data capabilities and the device class are not modelled; elements are taken to be at least as long as the fields read.
- AtReader.Reader.ReadNext: the source's buffer has exactly 4096 bytes (util.c:33) and a read may fill it, so the terminator at atchannel.c:401 then lands one byte behind it; the array has that byte, and the contracts say when it is untouched: every read leaves `used + |chunk|` below the limit. After a prompt with no NUL left in the array behind it, only line, input and cursor are described.
- AtReader.Reader.ReadLines: for streams free of NUL without a line that begins with the prompt, in reads that stay below the limit.
- AtPrompt.SplitsIff: a prompt that is a line by itself is returned as it should be, but the next call starts on what earlier reads left behind it (`AtReader.Reader.ReadNext`), and the lines after that are not traced.
- AtTokSpec.RoundTrip: quoted tokens free of quotes, bare ones free of commas and of a leading space or quote, the last one not bare and empty.
- DialProofs.RearmInTime: the hold lies less than 2 to the 32 seconds ahead.
- MbimTids.EscapeIff: for sequences too short for the 32-bit counter to come round; the ids that the wrap brings back into range are not traced.
- Mwan3ct.Id2Mask: the counter is a number and `id & bit` its binary digit; masks and marks are 32-bit words.
- Wifidog.Netns.Filter: the kernel's translation set-up is an input that accepts or drops and marks the flow as translated.
