# Verified model of bdremote-ng

bdremote-ng is a daemon for the Sony PS3 Blu-ray remote. A Bluetooth thread receives packets and
queues them, the LIRC thread takes them from the queue, tracks the held key, repeats it and
broadcasts key lines to every connected client, and the main thread accepts clients and shuts down.

The model has three layers.

* **Sequential code, in place.** `q.dfy`, `lirc_util.dfy`, `lirc_thr.dfy`, `lirc_srv.dfy`,
  `lirc_callback.dfy` and `capture.dfy` hold the source's structs as classes with the source's loops.
  Each method is proved against a function or a property of its inputs, and lemmas say what that
  function means. `keydef.dfy` is the key table, `lirc_line.dfy` the text protocol.
  `line_limits.dfy` says exactly when its lines fit their buffer, and, with `key_names.dfy`, when a release
  line tells its key.
* **Interleaved machines.** `monitor.dfy` is the queue with its mutex and condition variables, for
  any number of producers and consumers and any capacity; `monitor_limits.dfy` says exactly where its
  promises end. `sessions.dfy` is the client table under
  the acceptor and the LIRC thread, with the kernel's open descriptors and one session per
  connection; `broadcast_alone.dfy` ties it to the sequential broadcast. A run is a list of steps; the
  results hold in every reachable state.
* **The whole daemon.** `daemon.dfy` composes the two machines with the key logic and the single
  receive buffer. `Daemon.ScheduleIndependence` and `Daemon.EndToEnd` are its main results.
  `daemon_progress.dfy` shows that it never gets stuck.
  `key_trace.dfy`, `repeat_timing.dfy`, `repeat_progress.dfy`, `repeat_limits.dfy` and `rate_window.dfy`
  hold the laws of the key machine over whole runs; `Daemon.PartsAreReachable` lets all of them be used on a run of the daemon.

Clock readings, poll results, accepted descriptors and the kernel's answers to `write` are arbitrary
inputs. The clock is assumed never to run backwards, with microseconds below a million.

## Where the code and its documentation differ

The model follows the code. Each case has a lemma that says exactly when the code does what is promised.

* `src/q.h:106` says that `Q_ERR` means an empty queue. A consumer that timed out reports it even
  when an item has just arrived, which stays queued. The documented meaning holds in all runs exactly
  where no timed consumer shares the queue with a producer (`MonitorLimits.ErrorMeansEmptyIff`). In the
  daemon the two share it.
* POSIX.1-2008 lets a timed wait that expires consume a signal. With a timed consumer beside another
  consumer, an item can then lie in the queue while a consumer sleeps on and nobody is about to wake
  it. `Monitor.NoLostItemIff` and `MonitorLimits.SleepersAreRightIff` give the exact set-ups that are
  safe; the daemon's own, one producer and one timed consumer, is among them.
  `MonitorLimits.StandStillIff` says exactly when a producer and a consumer can both be left asleep:
  with the program's 254 places that takes 254 timed consumers and one more consumer.
* "Generate rate repeats per second" (`src/bdremoteng.c:311`): the integer division 1000 / rate rounds
  down, so other rates than the divisors of 1000 can exceed what was asked for
  (`RepeatLimits.RateNeverExceededIff`, and `RateWindow.FirstSecondKeptIff` for the first second). In the
  other direction the timer loses time, so no rate is reached in every run
  (`RepeatLimits.RateIsNeverReached`). `RepeatProgress.RepeatsKeepComing` is what does hold.
* A press of a code outside the key table sets `keyDown` with no key. Held past the delay it makes the
  repeat branch index the table with -1. `RepeatLimits.LookupsInRangeIff` gives the exact condition.
* `broadcastToLirc` asserts fewer than 16 clients, while `add_client` admits 16.
  `Sessions.AssertionHoldsIff` gives the exact condition.
* A release line can be longer than `broadcastToLirc`'s buffer, because the length check bounds only
  name and suffix. `LineLimits.AllLinesFitIff` gives the exact condition on the configured suffix.
* With the LIRC names a release of `cross` and one of `clear` are the same line, since both are called
  KEY_CLEAR. `LineLimits.ReleasesTellKeysIff` says exactly when release lines tell keys apart.

## Model

| member | source | states |
|---|---|---|
| RingQueue.RingGeometry | src/q.c:134-144 | whenever the mutex is free: tail is (head + count) mod N, full iff count = N, empty iff count = 0, and the k-th oldest item is at (head + k) mod N, for every capacity N |
| RingQueue.EmptyAndFull | src/q.c:118-157 | the two flags tested by the wait loops tell the truth about the queued items |
| RingQueue.PutRefinesEnqueue | src/q.c:134-144 | adding to the ring appends at the back of the FIFO and keeps the ring well formed |
| RingQueue.TakeRefinesDequeue | src/q.c:228-239 | removing from the ring takes the oldest item off the FIFO and keeps the ring well formed |
| RingQueue.ApplyIsFifo | src/q.c:111-245 | over any sequence of calls, initial contents and everything added are everything removed followed by what is left, and the capacity is never exceeded |
| RingQueue.ApplyInOrder | src/q.c:111-245 | calls of other threads take effect one by one: an add if there is room, a remove if there is an item |
| RingQueue.AddWaitsForRoom | src/q.c:118-134 | over any trace of wakes the wait loop of queueAdd ends after the first wake that leaves room, and sleeps on exactly if none does |
| RingQueue.RemoveWaitsForItem | src/q.c:201-226 | over any trace of wakes the wait loop of the removes ends after the first wake that leaves an item or times out, a wait that fails counting as no wake, and sleeps on exactly if none does |
| RingQueue.SignalsNeverExpire | src/q.c:157-165 | a wait that ends only by wakeups never ends in an error, so the blocking remove needs no error return |
| RingQueue.TimeoutLeavesWhatArrived | src/q.c:214-226 | over any trace of wakes, a timed-out remove leaves exactly what other calls added, and did not remove, during the wait that expired |
| RingQueue.Queue.Init | src/q.c:77-97 | the new queue is well formed and empty |
| RingQueue.Queue.AddLocked | src/q.c:134-144 | the in-place critical section of queueAdd appends exactly its item |
| RingQueue.Queue.RemoveLocked | src/q.c:173-184 | the in-place critical section that both removes share takes exactly the oldest item |
| RingQueue.Queue.QueueAdd | src/q.c:111-148 | waits as long as the queue is full, through spurious wakeups and other threads' calls, and then appends its item to whatever is queued by then |
| RingQueue.Queue.QueueRemNonBlock | src/q.c:190-245 | returns the oldest item and Q_OK once there is one, Q_ERR and no item on a timeout; a failing wait that keeps the mutex changes nothing |
| RingQueue.Queue.QueueRemBlock | src/q.c:150-188 | the same dequeue as the timed remove, never ending in a timeout |
| Monitor.ShapeKept | src/q.c:111-245 | in every step at most the owner of the mutex is inside, the ring stays well formed, and who holds a packet follows from where it is in the code |
| Monitor.NoLostWakeup | src/q.c:118-242 | in every reachable state, for any threads: if producers sleep, free slots are at most woken producers plus removes not yet signalled; if consumers sleep, items are at most woken consumers, adds not yet signalled and timed consumers outside their wait that hold no item, which may have swallowed a signal; without these last where no signal can be swallowed for another consumer |
| Monitor.NeverBothAsleep | src/q.c:157-187 | a producer and a consumer sleep with no wakeup under way only where there is a producer, a timed consumer for every place in the queue, and more consumers than places |
| Monitor.SleepersAreRight | src/q.c:201-242 | once nobody is awake inside the queue, a sleeping producer means a full queue, and a sleeping consumer an empty one where no signal can be swallowed for another consumer |
| Monitor.NoLostItemIff | src/q.c:214-219 | consumers never miss an item, in any run and for any number of threads, if and only if no expiring wait can swallow a signal that another consumer needs |
| Monitor.ItemCanBeLost | src/q.c:214-219 | builds, for every other set-up, the run that leaves a consumer asleep beside a queued item |
| Monitor.QueueIsFifo | src/q.c:134-144 | over every interleaving, packets added are packets removed followed by the queue, in order |
| Monitor.PacketsAreOwned | src/q.c:51-75 | allocated = freed + queued + held by a thread; no packet is freed twice, and nobody holds a freed, queued or foreign packet |
| Monitor.StepInv | src/q.c:111-245 | every step of every thread keeps all of the above |
| MonitorLimits.StandStillIff | src/q.c:118-242 | some run leaves a producer and a consumer asleep with no wakeup under way iff there is a producer, at least N timed consumers and more than N consumers, N being the capacity |
| MonitorLimits.StandStillHappens | src/q.c:118-242 | builds that run: timed consumers swallow the signals of a whole queue of items while one more consumer sleeps |
| MonitorLimits.SleepersAreRightIff | src/q.c:201-226 | in every run a quiet queue has consumers asleep only when it is empty, iff no expiring wait can swallow a signal that another consumer needs |
| MonitorLimits.ErrorMeansEmptyIff | src/q.c:214-226 | in every run whoever is about to return Q_ERR leaves an empty queue, as src/q.h documents it, iff no timed consumer shares the queue with a producer |
| MonitorLimits.EveryThreadCanMove | src/q.c:111-245 | in every reachable state every thread can go on, unless it waits for a mutex that another thread holds; any sleeper may wake spuriously and any timed one expire, whatever the queue holds; at its test a thread sleeps exactly if the queue says so |
| KeyDef.CodesAreDistinct | src/keydef.h:120-173 | no two of the 51 keys have the same code |
| KeyDef.CodeIndexFinds | src/lirc_thr.c:260-273 | the search finds a key iff some key has the code, and the key found has it |
| KeyDef.CodeFindsItsKey | src/lirc_thr.c:260-273 | looking up the code of a table entry gives back that very entry |
| LircUtil.KeyState.InitTime | src/lirc_util.c:55-65 | both clocks are set, nothing has elapsed, and the held key is untouched |
| LircUtil.KeyState.UpdateTime | src/lirc_util.c:67-86 | the new keyState is the specified one for a clock that did not run backwards |
| LircUtil.OneUpdate | src/lirc_util.c:76-85 | one call never counts time that did not pass, and loses less than a millisecond plus the whole-second ticks |
| LircUtil.TimerBounds | src/lirc_util.c:55-86 | k calls over D microseconds with S second ticks: D - 999 k - 1000000 S <= 1000 elapsed <= D |
| LircUtil.SteadyBounds | src/lirc_util.c:76-85 | over any number of calls no more than gap + 1 ms apart: the timer loses less than a millisecond a call and less than gap + 1 ms at a tick of the second |
| LircUtil.TimerIsSlow | src/lirc_util.c:76-85 | over any number of calls it counts no more than the whole milliseconds that passed, and no more than 999 in a whole second |
| LircUtil.LimitTakesTime | src/lirc_util.c:76-85 | so counting ms milliseconds takes at least ms milliseconds, and 1 ms more for every whole second in between |
| LircUtil.HurriedReadingsStopTheTimer | src/lirc_util.c:78-85 | read more than once a millisecond, however long, the timer never advances |
| LircUtil.WriteRestResult | src/lirc_util.c:88-106 | over any sequence of partial writes the result is positive exactly when every byte went out |
| LircUtil.PartialWritesAddUp | src/lirc_util.c:95-102 | a line taken in pieces is delivered iff the rest of it is delivered by the later calls |
| LircUtil.WriteSocket | src/lirc_util.c:88-106 | terminates; returns len iff the peer got the whole buffer in order, and otherwise a value of at most zero after a strict prefix |
| LircLine.LineRoundTrip | src/lirc_thr.c:356-360 | a decoder that accepts only digits of the right width and base recovers code, repeat number and name from the printed line, for all codes, numbers and space-free names |
| LircLine.KeyLinesFit | src/lirc_thr.c:359-360 | for every key of the table and every 32-bit repeat number the line with its terminator fits the 100-byte buffer |
| LineLimits.ReleaseLineFitsIff | src/lirc_thr.c:335-342 | the lines that a release leads to, past the guard on the name, fit the buffer iff there is no suffix or name and suffix have at most 77 or at least 100 characters |
| LineLimits.ReleaseHappens | src/lirc_thr.c:275-353 | every key of the table can be pressed and released in some run |
| LineLimits.AllLinesFitIff | src/lirc_thr.c:356-360 | no run overruns the buffer, with any line of a press, a release or an int-numbered repeat, iff the configured suffix meets that condition for every key of the table |
| KeyNames.NamesTellKeys | src/keydef.h:120-173 | no two keys share an original name, and only `cross` and `clear` share an LIRC name |
| LineLimits.ReleasesTellKeysIff | src/lirc_thr.c:325-342 | different keys never have the same release line, iff the original names are used or no release of `cross` and `clear` is sent |
| LircThr.LinesTellTheKey | src/lirc_thr.c:275-360 | every line reads back: a press or repeat as the code of its key, 0 or the repeat number, and the name in the configured column; a release as 0xFF and that name with the suffix |
| LircThr.OutputsOfEvent | src/lirc_thr.c:275-353 | every press, repeat and release has one line, except a release without a sendable name, and one device event of value 1, 2 or 0 if these are enabled |
| LircThr.CodeToIndex | src/lirc_thr.c:260-273 | the loop returns a key with the code if there is one, and ps3remote_undef iff there is none |
| LircThr.DataIndKeyDown | src/lirc_thr.c:275-309 | keyState and output after a press, including the press of an unknown code, which is held but not sent |
| LircThr.DataIndKeyUp | src/lirc_thr.c:311-353 | a release names the last key and forgets it; without a last key it changes nothing |
| LircThr.HandleKey | src/lirc_thr.c:221-256 | only 13-byte packets with magic 0xa1 and state 0 or 1 change the keyState or send anything |
| LircThr.RepeatKey | src/lirc_thr.c:167-208 | the repeat branch: waits for the delay, then for each period, and reports the out-of-range lookup |
| LircThr.LoopBody | src/lirc_thr.c:149-210 | one turn of the loop sends exactly the outputs of the events it adds to the log |
| LircThr.LircThread | src/lirc_thr.c:96-215 | over any list of dequeues and clock readings, the thread sends exactly the outputs of the key machine's log, in order, and faults exactly when it does |
| LircThr.TimerBehindClock | src/lirc_thr.c:159-170 | on a clock that never runs backwards the assertion of updateTime holds in every run |
| KeyTrace.EventsAreDisciplined | src/lirc_thr.c:167-208 | in every run, every release and every repeat names the last pressed key that is not released |
| KeyTrace.ReleasesNeverOutnumberPresses | src/lirc_thr.c:275-353 | in every prefix of every run no key is released more often than it was pressed |
| KeyTrace.HeldKeyFollowsPackets | src/lirc_thr.c:221-353 | whatever the timing, lastKey is the index of the latest press that no release follows, and keyDown is set iff some press is not followed by an effective release; other packets change neither |
| KeyTrace.KnownCodesNeverFault | src/lirc_thr.c:185-208 | when every pressed code is in the table, a key is down iff lastKey indexes the table, so every repeat lookup is in range |
| KeyTrace.TimingDoesNotChangeKeys | src/lirc_thr.c:149-210 | presses and releases of a run are those of handleKey folded over the dequeued packets, whatever the clock and the repeats do |
| KeyTrace.EventsFollowPackets | src/lirc_thr.c:221-353 | the events of handleKey read off the packets alone: each press of a known code is one, also while the key is down; each effective release is one, of the key held; nothing else is |
| KeyTrace.FoldPrefix | src/lirc_thr.c:149-165 | more packets only add key events at the end |
| RepeatTiming.RepeatsAreOnTime | src/lirc_thr.c:104-208 | over every run, the j-th repeat since the last dequeued packet carries number j and comes no earlier than repeat_delay + (j + 1) * (1000 / repeat_rate) ms after the reset, with 100 ms for a delay or period that is not configured |
| RepeatTiming.EveryPacketResets | src/lirc_thr.c:154-165 | the timer starts anew with every dequeued packet, valid or not, and at no other time |
| RepeatTiming.WindowBound | src/lirc_thr.c:112-115 | n repeats within w milliseconds after the delay need n periods of room |
| RepeatTiming.RateIsKept | src/lirc_thr.c:112-115 | a rate r with r * r <= 1000 sends at most r repeats in the first second after the delay |
| RepeatTiming.RunSpaced | src/lirc_thr.c:159-206 | in every run any two repeats, also across timer restarts, are at least as many periods apart as there are repeats from one to the other |
| RepeatProgress.RunInPhase | src/lirc_thr.c:172-206 | in every run, less than a delay or a period has been counted towards the next repeat |
| RepeatProgress.ReadingsAddUp | src/lirc_thr.c:167-208 | while a known key is held, every counted millisecond is accounted for by the delay, the repeats sent and at most one reading's surplus each |
| RepeatProgress.RepeatsKeepComing | src/lirc_thr.c:104-208 | from any moment of any run at which a known key is down, and as long as it stays down and is read at least every gap + 1 ms: the time in which n more repeats are sent is at most n + 1 periods of 1000 / repeat_rate ms, a gap of slack for each, repeat_delay if it is not over, a millisecond a reading and gap + 1 ms a second |
| RepeatProgress.TenMillisecondLoop | src/lirc_thr.c:60 | in a loop that reads the clock about every 10 ms, the repeats sent while a key is held account, with their slack, for at least 88 in 100 of that time, less 12 ms |
| RepeatProgress.ElapsedFits | src/lirc_util.c:83 | in every run, and for any delay that is an int, the sums that updateTime forms fit 32 unsigned bits, so elapsed never wraps |
| RepeatProgress.RepeatCountFits | src/lirc_thr.c:205 | at any rate up to 1000, repeat_count stays an int in every hold shorter than 2^31 ms |
| RepeatLimits.LookupsInRangeIff | src/lirc_thr.c:185-197 | for a list of packets, no timing at all leads to an out-of-range lookup iff every pressed code is in the table |
| RepeatLimits.UnknownPressFaults | src/lirc_thr.c:288-290 | builds, for any packets with an unknown press, the run that indexes the table with -1 |
| RepeatLimits.RateNeverExceededIff | src/lirc_thr.c:112-115 | no more repeats than the documented rate are sent, on any run, in any window from any repeat on, also across timer restarts, iff the rate divides 1000 |
| RepeatLimits.RateCanFallShort | src/lirc_util.c:76-81 | at every rate and for any number of seconds, some run holds a known key past its delay and repeats it less often than documented: not at all at rates up to 1000, once a second above |
| RepeatLimits.RateIsNeverReached | src/lirc_util.c:76-81 | no rate sends the documented number of repeats in every run |
| RateWindow.FirstSecondKeptIff | src/lirc_thr.c:104-120 | in every run at most rate repeats come within a second after the delay, iff counting the delay and rate + 1 periods takes longer than that, given what the timer must lose |
| RateWindow.OneTooMany | src/lirc_thr.c:159-206 | builds the run that counts as fast as the timer can, and sends one repeat too many in that second |
| RateWindow.FirstSecondKeptForAnyDelayIff | src/lirc_thr.c:104-120 | that holds for every delay iff (rate + 1) * (1000 / rate) is at least 1000 |
| LircSrv.SurvivorsAreTheDelivered | src/lirc_thr.c:375-390 | the clients left after a broadcast are exactly those that took the whole line |
| LircSrv.TryNext | src/lirc_thr.c:377-381 | removing the current client by value while iterating leaves the tried clients filtered and the untried ones in place |
| LircSrv.LircData.constructor | src/lirc_srv.c:73-97 | a table of 16 places, empty, with no listener |
| LircSrv.LircData.AddClient | src/lirc_srv.c:200-232 | the descriptor is appended iff it is below FD_SETSIZE and there is room, and closed otherwise; a failed accept is appended like any other |
| LircSrv.LircData.RemoveClient | src/lirc_srv.c:235-254 | in place, exactly the first entry with the descriptor goes, the order stays, and it is closed iff it was there |
| LircSrv.LircData.TryClient | src/lirc_thr.c:377-381 | a client is kept and stays open iff it took the whole line |
| LircSrv.LircData.BroadcastToLirc | src/lirc_thr.c:371-390 | with distinct descriptors and room in the table: every client is tried once, in order, the final table is the stable filter of those that took the line, and exactly the others are closed; clin - i decreases in spite of i-- |
| LircSrv.LircData.Shutdown | src/lirc_srv.c:146-164 | closes every client and leaves no client and no listener, as destroyLircData asserts |
| LircCallback.BatteryState.RemoteBatteryCharge | src/lirc_callback.c:73-95 | after any reports the script calls made are the expected ones for that history |
| LircCallback.NowsAreReports | src/lirc_callback.c:77-93 | the current charges of the calls are the reports without stuttering |
| LircCallback.CallsAreChained | src/lirc_callback.c:77-93 | the first call is (c1, c1), every later one starts where the one before ended and changes the charge, and the last one ends at the last report |
| Capture.ChargesAreSteps | src/capture/capture_bluez.c:307-338 | every reported charge is one of 0, 20, 40, 60, 80 and 100 |
| Capture.ChargesSnoc | src/capture/capture_bluez.c:307-327 | a packet of 13 bytes or more whose byte 12 is at most 5 is one report, of 20 percent a step, and no other packet is |
| Capture.DeliveredSnoc | src/capture/capture_bluez.c:299-344 | each receive is one packet for DataInd, whole up to 1024 bytes |
| Capture.LongSilenceIs | src/capture/capture_bluez.c:280-297 | the silence that ends a session is timeout + 1 empty polls in a row |
| Capture.SilenceIsEmptyRun | src/capture/capture_bluez.c:291-297 | the counter of seconds is the length of the run of empty polls that has just ended |
| Capture.TimesOutAtFirstSilence | src/capture/capture_bluez.c:278-297 | absent cancellation and hang-up, a session ends with code 2 iff there are timeout + 1 empty polls in a row, and then at the first such place |
| Capture.Session.Recv | src/capture/capture_bluez.c:299 | overwrites the front of the one buffer with at most its size of received bytes |
| Capture.Session.HandOver | src/capture/capture_bluez.c:307-344 | hands on exactly the received bytes, and reports a charge iff byte 12 is there and at most 5 |
| Capture.Session.ReadFromSocket | src/capture/capture_bluez.c:257-348 | over any polls: DataInd gets one copy per positive receive, in order, the battery gets their charges, and the end and its moment are the specified ones |
| Sessions.ClientStream | src/lirc_thr.c:373-392 | in every reachable state a peer has received the complete lines of a contiguous run of broadcasts from its birth on and at most a strict prefix of the next one; a prefix only while it is being written or if the session was closed; an open client lags only by the broadcast under way |
| Sessions.ClosedForever | src/lirc_srv.c:242-245 | a closed session is never written to again, although its descriptor number may be reused |
| Sessions.SessionsAreConserved | src/lirc_srv.c:205-231 | every accepted connection is either open under exactly one descriptor or was closed exactly once |
| Sessions.ClosedByRejectionFailureOrShutdown | src/lirc_srv.c:149-254 | in every run, whatever session ends up closed was closed by a rejection, for a descriptor too large or a full table, by a failed write, or by a step of shutdown |
| Sessions.RejectedIff | src/lirc_srv.c:214-221 | an accepted connection is closed by the capacity test iff its descriptor is at least 1024 or the table holds 16 |
| Sessions.AdmittedIsListed | src/lirc_srv.c:222-231 | what passes the test, a failed accept too, goes to the end of the table |
| BroadcastAlone.BroadcastByItself | src/lirc_thr.c:373-392 | for any answers of the kernel, a broadcast of the interleaved machine can go as the sequential one: the clients left are the stable filter, and exactly the others are closed |
| Sessions.FailedAcceptsAreDropped | src/lirc_srv.c:207-230 | when a broadcast is over the table holds no failed accept and only open clients |
| Sessions.QuiescentDescriptors | src/lirc_srv.c:205-254 | between operations the open client descriptors are exactly the non-negative table entries, each there once |
| Sessions.ShutdownClosesEverything | src/lirc_srv.c:146-157 | after shutdown no client is open and every accepted one was closed exactly once |
| Sessions.FinishedForever | src/lirc_srv.c:99-109 | after shutdown the table stays empty whatever the LIRC thread still does, so destroyLircData's assertion on clin holds |
| Sessions.AppendsStayInside | src/lirc_srv.c:214-231 | although the capacity test is made without the mutex, the table never exceeds 16 and no append falls outside the array |
| Sessions.RemovesTheRightClient | src/lirc_srv.c:235-254 | the search by descriptor finds the very entry whose write failed, even among failed accepts and reused numbers |
| Sessions.AssertionHoldsIff | src/lirc_thr.c:371 | the assertion of broadcastToLirc is safe in all runs with at most n connections iff n < 16 |
| Sessions.StepInv | src/lirc_srv.c:111-254 | every step of both threads keeps bounds, descriptors, conservation and streams |
| Daemon.RemovedIsNext | src/lirc_thr.c:151-157 | the packet the LIRC thread dequeues is the next one in the order they were allocated |
| Daemon.DataIndKept | src/lirc_callback.c:61-71 | queueing a copy of the receive buffer keeps received = queued in spite of the next overwrite |
| Daemon.CountTimeKept | src/lirc_thr.c:167-208 | an iteration that ends keeps clock order, and its repeat is the only event not yet broadcast |
| Daemon.SendKeyKept | src/lirc_thr.c:221-309 | giving a key line to broadcastToLirc keeps lines sent = lines of the events |
| Daemon.StepInv | src/lirc_thr.c:96-215 | every step of the three threads keeps the flow of packets, events and lines |
| Daemon.PartsAreReachable | src/lirc_thr.c:149-170 | in every run of the daemon queue, clients and clock behave as in their own machines, and the set-up is one where no wakeup is lost |
| Daemon.ClientsRun | src/lirc_srv.c:111-254 | every run of the daemon is a run of the client machine, with the same accepts |
| Daemon.FewClientsNeverAbort | src/lirc_thr.c:371 | a daemon that has seen fewer than 16 connections has not failed the assertion of broadcastToLirc |
| Daemon.HandledAreReceived | src/capture/capture_bluez.c:299-344 | the packets handled are a prefix of the packets received |
| Daemon.KnownCodesKeepRunning | src/lirc_thr.c:185-197 | in every run of the daemon whose received presses are all in the table, the LIRC thread never indexes the table out of range |
| Daemon.EmittedAreHandled | src/lirc_thr.c:149-164 | presses and releases sent are the fold of handleKey over the packets handled |
| Daemon.ScheduleIndependence | src/lirc_thr.c:149-164 | under every interleaving and timing the lines broadcast are the lines in the rendered outputs of events whose presses and releases, and so the lines with repeats removed, are a prefix of handleKey folded over the packets in receive order |
| Daemon.EndToEnd | src/lirc_thr.c:356-393 | what a client received is a contiguous run of those lines from its birth on, and at most the beginning of the next |
| Daemon.IdleHasSentEverything | src/lirc_thr.c:149-208 | when nothing is on its way, the lines sent are all those that the key log of the LIRC thread renders, repeats included, and its presses and releases are the fold over everything received |
| Daemon.SameInputSameKeys | src/q.c:111-245 | two daemons that received the same packets sent the same presses and releases, whatever their queue sizes, schedules and clocks |
| DaemonProgress.SomethingGoesOn | src/lirc_thr.c:149-210 | in every reachable state that is not at rest, with known codes, some thread can make a step that leaves less to do, without a packet or client |
| DaemonProgress.CanComeToRest | src/q.c:111-245 | from every such state the threads can come to rest by themselves, with everything received handled, unless the assertion of broadcastToLirc fails on the way |
| DaemonProgress.EveryPacketCanBeSent | src/lirc_thr.c:149-164 | whatever a daemon with fewer than 16 connections and known codes has done, it can go on by itself until all lines of its key log are sent, whose presses and releases are those of everything received |

## Left out

- Bluetooth set-up, HCI lookup, `run_server`, the TCP listener (`create_listener`, `nolinger`) and the uinput ioctls: calls of foreign code. Events for the uinput device are recorded in `LircThr.Out` only.
- Options, configuration setters, logging, the change of user and `bdrGetFilename`: only easy members.
- Running the battery script: the attempted call is recorded.
- `queueDeinit` and the assertions on null pointers and magic numbers: there is nothing to prove without pointers.
- Shutdown of the daemon by `__io_canceled`: runs end anywhere, which covers the LIRC and Bluetooth threads; that every thread does end is not stated, because a producer may sleep on notFull after the consumer has left. Module DaemonProgress shows what the threads can do, not that a scheduler lets them.
- The number of milliseconds queueRemNonBlock blocks: its deadline is not normalised and is computed anew on each turn, so a timed wait may expire, fail or be woken at any moment.
- In module Monitor the code between lock and unlock of the ring is one step, which the mutex allows; `RingQueue.Queue` has it statement by statement.
- In `RingQueue.Queue` what the other threads do during a wait is an input, and the trace of wakeups is finite; module Monitor has the threads themselves.
- LircThr.RepeatKey: `repeat_count` and `elapsed` are unbounded here. By `RepeatProgress.ElapsedFits` and `RepeatProgress.RepeatCountFits` this differs from the code only in a hold of more than 2^31 ms, or at a rate above 1000. What the C program does after an out-of-range lookup is not modelled: the model stops the thread.
- LircThr.DataIndKeyUp: what the C program does after a release line has overrun the buffer is not modelled; the line is sent as if it fitted. `LineLimits.AllLinesFitIff` says exactly when no line overruns it.
- The 24-bit key mask: it is only logged.
- LircSrv.LircData.constructor: all sixteen entries are cleared, the source clears the first sixteen bytes; no entry is read before it is written.
- A failed `accept` in module Sessions leaves -1 in the table as in the source; other negative descriptors cannot occur.
- RepeatTiming.WindowBound: counts repeats from the last reset, `RepeatLimits.RateNeverExceededIff` from any repeat.
- RepeatTiming.RateIsKept: its condition on the rate is sufficient only; `RateWindow.FirstSecondKeptIff` has the exact one.
- RepeatTiming.RunSpaced: speaks of the clock readings that decide the repeats. The broadcast comes later, after a delay that is not modelled, so the lines that a client sees can be closer together than the readings.
- LircUtil.TimerBounds: its lower bound says nothing in a run of more than a thousand calls; `LircUtil.SteadyBounds` does.
