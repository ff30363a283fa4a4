# Verified model of the HDMI takeover

The repository hands one external display from Android's composer to an Xorg in
a chroot, and hands it back. This project models the places where that is
decided and proves what they promise, for every input, every run and every
behaviour of the surroundings.

| part | files | main results |
|---|---|---|
| takeover broker | `Broker`, `ComposerLink`, `AgentLink`, `Wire`, `Clients`, `VolumeGuard`, `Host`, `PreferredMode`, `ArmingLog`, `Clock` | `Broker.Broker.Run`: every boundary of every run is safe, no session outlives an alarm, every START has a cause, every automatic one rests on the composer's own replies at the clock's own times, Xorg is told to stop before the display is taken back, every descriptor is closed after at most one send, every interruption is recoverable |
| input fan-in | `FanIn`, `InputBridge`, `EventMeaning` | `InputBridge.Bridge.Run`: in every turn the streams show the OR of what each source's own events lead to, with exactly their motion and repeats, and no press goes unreleased; `EventMeaning.Followed`: where the events lead is what the last event that decides a key says, lost events left aside |
| traced scanout | `Trace`, `Kernel`, `PropertyCache`, `PropertyRun`, `Scanout`, `AgentSession`, `Announcement`, `Interposer`, `TracedRun`, `StartedXorg` | `TracedRun.Run`: the kernel gets exactly Xorg's calls and each only after its announcement, the observer equals a scan over the commits Xorg made, tracing stops only after a proven scanout, filtered properties are characterised exactly; `StartedXorg.StartShowsXorg`: what the broker takes for a started session shows a picture this Xorg asked for |
| display mode text | `Refresh`, `ModeText` | `ModeText.SetModeReadsBack`: a mode survives printing, Android and binary32 |
| cadence analysis | `GrayCode`, `Cadence` | `Cadence.ReportOnSteadyCapture`: a reported skip is a source frame never captured |
| fixed primary plane | `FixedPrimary` | `FixedPrimary.NoSharedPlane`: two CRTCs never lease one plane |

Objects whose fields the sources update in place are classes; a pure function
beside each gives its meaning, and the whole-run theorems are the postconditions
of methods called `Run`. Whatever a program cannot control is an arbitrary
choice inside the methods: poll results, failing writes and commands, messages
from the other processes, clock readings, how often a wait loops, and at which
moment the composer gives the display back by itself. The composer is known only
by its documented contract (docs/ARCHITECTURE.md:29-33 and 146-153): phases move
forward one request at a time and are answered with success only when reached,
and RELEASE, a lost connection or its own decision return the display to Android.

Statements about whole runs are statements about lists that grow during the run,
and each list is written where the thing itself happens, never beside it. The
kernel model enters every system call into a ledger that also holds the records
the broker made durable. The composer connection keeps every reply it reads and
the agent connection the requests still unanswered; both enter START, STOP, RELEASE
and the loss of the agent into one shared log, which also holds the fate of every
received descriptor. The socket keeps every command, and each reply carries the
clock at which its request was sent. The stored mode keeps a history of every
durable state and of the mode the user wanted then. The broker's own decisions form
a log whose entries refer to those replies, commands and durable states by
position, and an outsider's view between two turns of the event loop is a list of
snapshots. Polls of the keys, of the composer and of the agent, failed writes and
refused requests are counted where they happen, and so are the answers of Android:
the compatibility gates, the suspend blocker, the display commands and the files.

## What turned out not to hold

- The two waits of a takeover accept any READY. The second one is bound to answer
  this START exactly when nothing that can still be answered with success was
  outstanding (`AgentLink.SecondReadyAnswersStart`), which for the broker's own
  requests means nothing at all (`AgentLink.BrokersSecondReady`). One old STOP is
  enough for both waits to succeed before START was looked at
  (`AgentLink.LateStop`). `Broker.Broker.Start` proves the end-to-end claim under
  the condition.
- A refused START is reported as a refusal exactly when nothing came back from the
  composer for the RELEASE that follows, because its answer is read into the same
  variable (`Broker.Broker.FailStart`).
- Applying a mode overwrites an existing journal. After a recovery that left the
  journal behind, the user's mode survives that exactly when it was in force by
  then (`PreferredMode.ApplyAfterFailedRecovery`).
- A rate that is no whole number of millihertz comes back as a neighbour less
  than one millihertz away (`Refresh.SnapshotNeighbour`).
- An unplug swallowed while waiting for another answer keeps an armed broker from
  progressing until some message reports the display connected
  (`Broker.Broker.AdvanceArmed`).
- `active` may outlast the lease (`Broker.Broker.DisplayLost`). At every boundary
  an active session has the display exactly as long as the composer has not taken
  it back since it granted the lease, and without a session the display is
  Android's (`Broker.Broker.BoundaryIsSafe`).
- docs/ARCHITECTURE.md:80-83 says that the page-flip fallback compares the
  connector with the active one. The code compares the requested connector with
  the expected one and never looks at what the CRTC drives; the flip equals the
  rejected modeset exactly when those agree (`Kernel.FlipEqualsModeset`,
  `Kernel.FlipCanKeepOtherConnector`).
- docs/ARCHITECTURE.md:58-62 says that an ioctl is not issued without its
  acknowledged record. The fallback's GETCRTC and PAGE_FLIP are, and they are the
  only ones: they follow a rejected SETCRTC with no record of their own
  (`Announcement.FallbackUnannounced`, `Announcement.FallbackLookUnannounced`).
- Dropping writes that repeat the cache loses a write that puts a changed
  property back to its stored value, and only such writes
  (`PropertyRun.SuppressionInvisible`, `PropertyRun.WriteBackIsLost`).
- From a START until its verification the flag that switches tracing off is honest
  exactly if it was not set before (`AgentSession.Agent.BeginXorg`). With it set,
  the new Xorg's first acknowledged record tells it to stop tracing
  (`AgentSession.UnverifiedXorgStopsTracing`). Once the request is answered the
  flag is honest again (`AgentSession.Agent.Dispatch`).
- The band's identifier counts down in every second window of 65536 frames, so
  two successive frames look like a step of one exactly in the first half of each
  131072-frame cycle (`GrayCode.SuccessiveFramesStepByOne`).

## Model

| member | source | states |
|---|---|---|
| Broker.Broker.Run | native/broker/main.cpp:446-520 | Over any run with any environment: every boundary snapshot is safe (without a session the display is Android's, a session has it until the composer takes it back, not probing, both grabs and the suspend blocker held exactly while active, the last look at the keys no escape, timers cleared, or running with time left and at most 60 or 20 seconds of it, no descriptor owned); a session that is active at two successive boundaries has had one look at the keys and one at the agent's connection in between, and nothing to end it; every START has a cause of its own, a command of root or an automatic start; every automatic start was justified by the log, whose entries rest on a command to arm, on STATUS replies to requests sent since, a different one per poll and at the poll's own time, and on a durable state with the requested mode in force; no RELEASE is sent while an agent that got a START has neither been told to stop nor been lost; every received descriptor ends closed after at most one send; and, unless a recovery failed, every durable state along the way replays to the mode the user wanted then |
| Wire.StopBetween | docs/ARCHITECTURE.md:151-153 | Between a START that reached the agent and a later RELEASE request lies an attempt to stop the agent, or its loss |
| Wire.Wire.PassOn | native/broker/main.cpp:167-187 | Only a descriptor that is held and was never passed on can be passed on |
| Wire.Wire.Receive | native/broker/main.cpp:189-210 | A message brings at most one descriptor, which is then the only one held |
| Broker.Broker.BoundaryIsSafe | native/broker/main.cpp:455-513 | The loop invariant, with time left, implies the safety an outside observer can check, including that a session without the display is one whose lease the composer took back |
| Broker.Broker.DisplayLost | native/broker/main.cpp:455-513 | At any boundary with a session the composer may take the display back, and the loop invariant and `active` stay as they are |
| Broker.Broker.Turn | native/broker/main.cpp:463-512 | One loop iteration with any events keeps the boundary invariant and serves exactly the clients that are there; a session that stays has had one look at the keys and one at the agent, with no alarm; afterwards a session has time left, an armed broker without one has no poll due, and a session that was not there before has its cause among the new log entries |
| Broker.Broker.ServeEvents | native/broker/main.cpp:467-511 | Composer, agent and timers can end a session but not start one. One that stays has time left, was looked after once on each side, and its look at the keys found both devices and no chord of three seconds; one that ends had an alarm, or its timer had run out |
| Broker.Broker.ServeNext | native/broker/main.cpp:466 | The next command is served with an answer that tells the truth about it, and only it can have started a session; a session that stays is not disturbed |
| Broker.Broker.ModeSetOutside | native/broker/main.cpp:676-684 | A mode set by somebody else while the broker's is not in force becomes the mode to restore |
| Broker.Broker.Start | native/broker/main.cpp:902-1044 | Success is exactly the step to an active session with both grabs, the three acquire phases sent once each in order, and a deadline exactly 60 seconds, or a watchdog exactly 20 seconds, after a moment within this call; a START is sent only right behind a noted cause; a session, an unknown probe, a closed gate and a missing agent are refused with their own status; otherwise it succeeds with nothing gone wrong, and fails only if something went wrong or five seconds passed; START, STOP and RELEASE go out exactly as far as it got; any failure leaves no trace of the takeover; both waits took a READY in the order of the written requests; with no unanswered request at the start, success means the agent answered this START after proving its scanout in a start of its own from the records sent to it |
| Broker.Broker.EnterSession | native/broker/main.cpp:909-1044 | With an agent there, the guards and then the session: success exactly with nothing gone wrong, and failure only with a reason |
| Broker.Broker.PrepareAgent | native/broker/main.cpp:940-952 | Waiting for the agent never moves the display away from Android, success is a READY for PREPARE or a request written before it with nothing gone wrong, and failure has a reason: a fault, five seconds, or the deadline |
| Broker.Broker.OpenSession | native/broker/main.cpp:930-1044 | With both guards held, a session whose two READYs are a possible takeover of the outstanding requests, or the idle state, and never a START left without a STOP |
| Broker.Broker.BeginSession | native/broker/main.cpp:930-952 | The deadline 60 seconds after a moment within this call and the prepared agent, or STOP attempted and the idle state |
| Broker.Broker.StartClock | native/broker/main.cpp:930-936 | A bounded session's deadline is exactly 60 seconds after the clock reading made here |
| Broker.Broker.TakeDisplay | native/broker/main.cpp:954-1044 | From prepared agent to an active session whose READY comes, if it answers a START, with the evidence of a start made meanwhile; or back to idle, nothing in between |
| Broker.Broker.AcquireLease | native/broker/main.cpp:954-1003 | On success prepare, pause and create were sent in this order and nothing else, the composer granted the lease, and only then does the broker own the lease descriptor, not yet passed on; it succeeds exactly if all three were served, the last with a descriptor |
| Broker.Broker.DeliverLease | native/broker/main.cpp:1005-1018 | START carries the lease's own connector and CRTC and the descriptor goes out with that write, once, or not at all; it is closed afterwards in both cases |
| Broker.Broker.HandOver | native/broker/main.cpp:1005-1044 | The session is active exactly when the wait for START was answered in time, with evidence of a new start if the answer is a START's; otherwise the display is back and the agent told |
| Broker.Broker.Settle | native/broker/main.cpp:1019-1044 | Success exactly if START was accepted, with the session then active; otherwise STOP and RELEASE, and ERR_AGENT only for a refusal |
| Broker.Broker.BecomeActive | native/broker/main.cpp:1030-1034 | An active session has time left, a continuous one exactly 20 seconds from now |
| Broker.Broker.FailStart | native/broker/main.cpp:1019-1028 | STOP then RELEASE; the agent's refusal is reported as such if and only if the agent refused and no message of the composer was read since |
| Broker.Broker.Abandon | native/broker/main.cpp:996-1001 | Exactly STOP, if the agent may hold the display, and then RELEASE are attempted, after which the display is Android's again and no guard is held |
| Broker.Broker.EnterGuards | native/broker/main.cpp:909-929 | ERR_INCOMPATIBLE exactly if the gates are closed; otherwise OK exactly if both keys were grabbed and the suspend blocker obtained, both then held; in any other case the idle state unchanged |
| Broker.Broker.WaitAgent | native/broker/main.cpp:613-654 | An accepted READY answers some written request that can succeed, in order, with the keys calm and nothing gone wrong; a START accepted this way carries scanout evidence of exactly the start it caused; the wait ends otherwise only on an alarm, a refusal, its timeout or the deadline; the display can only move towards Android meanwhile |
| Broker.Broker.TakeAgentMessage | native/broker/main.cpp:640-651 | Progress messages leave the outstanding requests alone; acceptance consumes them up to the answered one, and for a START the agent made one new start and proved it; anything else but these is a fault of the agent, and FAILED is told apart |
| Broker.Broker.Interrupted | native/broker/main.cpp:630-638 | The wait is interrupted exactly by an escape of the keys, the loss of the composer or a message other than that the display is connected; descriptor ownership is kept and the display can only roll back |
| Broker.Broker.ProbeLease | native/broker/main.cpp:1070-1152 | The lease-only probe ends idle from every exit and refuses to run beside a session. It succeeds only if prepare, pause, create and RELEASE were sent in this order and served, with the lease held three seconds or the keys having ended that, and fails only if something went wrong |
| Broker.Broker.HoldLease | native/broker/main.cpp:1132-1146 | The lease is held for three seconds, unless a look at the keys means escape, and exactly then it is cut short |
| Broker.Broker.FinishLeaseProbe | native/broker/main.cpp:1046-1068 | Closes the probed descriptor and sends exactly one RELEASE, after which the display is Android's; an earlier error is kept, and success stays success exactly if the release was served |
| Broker.Broker.CleanupGuards | native/broker/main.cpp:1154-1160 | No grab, suspend blocker, deadline, watchdog or continuous flag survives |
| Broker.Broker.Release | native/broker/main.cpp:1162-1188 | Ends in the idle state with the mode preference handled and the arming ended, or does nothing when there is nothing to release |
| Broker.Broker.GiveBack | native/broker/main.cpp:1166-1178 | STOP is attempted if the agent is there, then RELEASE if the composer is, in this order and nothing else, and the display is Android's whether or not either answers |
| Broker.Broker.StopAgent | native/broker/main.cpp:1166-1172 | STOP is attempted exactly if the agent is there; afterwards no START is without its STOP, and the wait for the answer cannot take the display |
| Broker.Broker.SendRelease | native/broker/main.cpp:1173-1176 | The request itself enters the shared log, may only be made once the agent has been told or is lost, and leaves the display with Android whether or not an answer comes |
| Broker.Broker.Disarm | native/broker/main.cpp:817-826 | Ends the arming and replays the journal |
| Broker.Broker.SetMode | native/broker/main.cpp:752-774 | On a command that names it, the requested mode becomes exactly the commanded one if that is allowed, and an attempt is made to store it; it never changes during an arming, a probe or a session; each refusal has its status, and OK means stored |
| Broker.Broker.Arm | native/broker/main.cpp:776-815 | A session refuses, an armed broker answers OK and changes nothing. Otherwise the requested mode becomes the commanded one, or stays for native; one that is not allowed is refused; OK exactly if the broker is then armed, which takes open gates, a stored mode, and an apply that worked if one was due. The mode was applied at once exactly if no replug is required, which it is only if the composer reports the display connected or did not answer |
| Broker.Broker.AcceptArm | native/broker/main.cpp:790-814 | What the arming rests on are replies to requests made after it; a mode is applied at arming time only on such a reply that reports the display unplugged; otherwise a replug is required, and the arming fails exactly if the apply did |
| Broker.Broker.OpenArming | native/broker/main.cpp:790-798 | The arming is noted with the number of replies read so far, and a STATUS request follows |
| Broker.Broker.ConfirmUnplugged | native/broker/main.cpp:806-811 | The reply that said disconnected is noted before the apply, and a failed apply ends the arming |
| Broker.Broker.ApplyPreference | native/broker/main.cpp:851-862 | A mode is applied only right after an unplug was noted; the entry names a later durable state in which the requested mode is in force and the old one journaled, and it is in force now; a failed apply leaves the journal as if not applied |
| Broker.Broker.AdvanceArmed | native/broker/main.cpp:839-900 | When due, exactly then, a poll is noted at the clock reading made here, resting on the reply to a STATUS request sent at that reading, or on none; becoming active leaves its cause in the log; the arming ends only if an apply or a start failed for a reason; a pending unplug blocks the poll without touching mode or arming |
| Broker.Broker.Judge | native/broker/main.cpp:849-899 | The reply just read is noted as one poll with its own status. One that passes every test adds one to the count, and the third leads to a start, after which the broker is either active or, with a reason, disarmed; a connected display that fails a test starts the count anew and keeps the arming; an unplugged one gets the mode applied or, if that fails, ends it |
| Broker.Broker.JudgeRipe | native/broker/main.cpp:890-899 | A poll that passes every test is counted, and with the third in a row Xorg is started |
| Broker.Broker.JudgeUnplugged | native/broker/main.cpp:849-866 | A poll that finds the display unplugged restarts the count and applies the mode once, or ends the arming |
| Broker.Broker.JudgeUnready | native/broker/main.cpp:867-889 | A poll that fails a test is noted; before the mode is applied it leaves the count alone, after that it starts it anew |
| Broker.Broker.RequestedModeMatches | native/broker/main.cpp:742-750 | True exactly for a connected display with an active mode of the requested size and within 100 mHz of the requested rate, or any such mode if native is requested |
| Broker.Broker.AutomaticStart | native/broker/main.cpp:892-899 | Logs the start and where the wire log stands before attempting it, and stays armed exactly if it succeeds; it fails only for a reason |
| Broker.Broker.RegisterAgent | native/broker/main.cpp:1272-1293 | Accepted exactly without unknown flags, without a session and without another agent; a new agent starts with no outstanding request |
| Broker.Broker.Serve | native/broker/main.cpp:1243-1359 | After an ignored status request the command has its effect: what ends, arms, configures or starts something and what cannot, with an answer that tells the truth; a session ends only by disarm or toggle, and one that stays is not disturbed |
| Broker.Broker.Execute | native/broker/main.cpp:1299-1354 | Disarming, or toggling while armed or active, ends both; a session starts only by a root Xorg probe and an arming only by arm or toggle; the requested mode is the old one or the commanded one exactly as the command and the state say; a diagnostic build refuses to arm by toggle; the answer is OK only if arming, mode or session are as asked, and each refusal has its status |
| Broker.Broker.Toggle | native/broker/main.cpp:1299-1316 | Ends what there is to end; with nothing to end it arms, unless this is a diagnostic build |
| Broker.Broker.Probe | native/broker/main.cpp:1333-1350 | A root Xorg probe is noted before it is attempted and answered OK exactly if it made a session; an OK lease probe sent its three phases and RELEASE; a session is not disturbed |
| Broker.Broker.ServeComposer | native/broker/main.cpp:467-480 | An alarm, that is a lost composer or a message other than that the display is connected, ends a session; without one session and arming stay as they are; a lost composer leaves an arming alone and closes the connection |
| Broker.Broker.HearComposer | native/broker/main.cpp:471-480 | Exactly the message that the display is connected is no alarm and changes nothing; an unplug or an invalid message ends a session; an invalid message also ends an arming, while an unplug lets it continue with nothing pending |
| Broker.Broker.ServeAgent | native/broker/main.cpp:481-492 | It fails exactly if the agent is lost or the message read is broken, a failure, or progress that could not be acknowledged; this ends a session, and otherwise session and arming stay as they are |
| Broker.Broker.ServeTimers | native/broker/main.cpp:493-511 | A session that stays has had one look at the keys, which found both devices and no chord of three seconds, and has time left on its deadline, less than 60 seconds after its start, or on its watchdog; one that ends had an escape, an expired deadline, or a watchdog that was due and could not be renewed |
| Broker.Broker.RenewWatchdog | native/broker/main.cpp:496-508 | A continuous session whose watchdog is due either has it renewed to exactly 20 seconds after a moment within this call, after the composer served a PING with the lease still continuous, or is released, and the latter only without such an answer |
| Broker.Broker.EndIfExpired | native/broker/main.cpp:509-511 | A bounded session ends here exactly if its deadline has passed |
| Broker.Broker.Startup | native/broker/main.cpp:446-448 | Recovery at startup establishes the boundary invariant from any durable state |
| Broker.Broker.Shutdown | native/broker/main.cpp:514-519 | An orderly stop returns the display, the grabs and the mode, and closes the connections that are there |
| ComposerLink.ComposerLink.Request | native/broker/main.cpp:534-571 | One request moves the display at most as its operation allows, RELEASE always ends at Android and is logged as such, success of an acquire phase means it was granted, the reply read is kept with the request it answers and the time that was sent, exactly one wanted descriptor is kept, and a pending unplug makes the request fail until a connected message; it counts as a fault unless it was served |
| ComposerLink.ComposerLink.AwaitReply | native/broker/main.cpp:545-571 | Without a matching reply the connection is closed and no descriptor stays; whether any message was read is reported |
| ComposerLink.ComposerLink.TakeHotplugs | native/broker/main.cpp:545-559 | Any number of interleaved hotplug messages: each descriptor closed, the last message decides what is pending |
| ComposerLink.ComposerLink.TakeReply | native/broker/main.cpp:560-569 | Ownership passes to the caller exactly when it asked for the descriptor |
| ComposerLink.ComposerLink.HandleReadable | native/broker/main.cpp:581-597 | The classification agrees with the cached status, an invalid message changes none of it, no descriptor is kept, and everything but a connected display is an alarm |
| ComposerLink.ComposerLink.Cache | native/broker/main.cpp:573-579 | A connected report, and nothing else here, clears a pending unplug |
| ComposerLink.ComposerLink.Poll | native/broker/main.cpp:467-470 | A lost connection is an alarm |
| Clients.Listener.Accept | native/broker/main.cpp:1243-1270 | Every command that is served was received, with the rank of its sender |
| AgentLink.AgentLink.Read | native/broker/main.cpp:640-651 | What the broker reads was computed by the agent for one of the written requests; a READY for a START comes with the evidence of the one start it caused; a broken message, a failure or unacknowledged progress is an alarm |
| AgentLink.AgentLink.Write | native/broker/main.cpp:1005-1018 | A START goes out with its lease, which must be held and unsent, and enters the shared log when it got through; every attempt to write STOP does |
| AgentLink.AgentLink.Close | native/broker/main.cpp:481-485 | The loss of the agent enters the shared log |
| AgentLink.SecondReadyAnswersStart | native/broker/main.cpp:940-1029 | Over all ways in which the two waits can be answered, the second READY answers START if and only if no request outstanding before the takeover can still succeed |
| AgentLink.BrokersSecondReady | native/broker/main.cpp:940-1029 | For requests the broker writes, that is if and only if none was outstanding |
| AgentLink.StaleAnswer | native/broker/main.cpp:940-1029 | Any outstanding request that can succeed makes a takeover whose second READY answers PREPARE |
| AgentLink.LateStop | native/broker/main.cpp:940-1029 | With one old STOP outstanding the agent's next two answers are two accepted READYs, to STOP and to PREPARE |
| VolumeGuard.VolumeGuard.Acquire | native/broker/main.cpp:387-397 | Both keys are grabbed or neither is, and both exactly if both devices are there and let themselves be grabbed |
| VolumeGuard.VolumeGuard.Release | native/broker/main.cpp:398-411 | Nothing is grabbed and no chord is remembered |
| VolumeGuard.VolumeGuard.ReadOne | native/broker/main.cpp:413-427 | A key is where its last event left it |
| VolumeGuard.VolumeGuard.Update | native/broker/main.cpp:412-442 | Escape if and only if a device is lost or both keys have been down for three seconds since the chord began |
| VolumeGuard.VolumeGuard.Watch | native/broker/main.cpp:493-494 | Every look at the keys is kept with what was read and when; it means escape if and only if a device is lost or both keys have been down for three seconds since the chord began |
| Host.Host.Block | native/broker/main.cpp:925-929 | The suspend blocker is held exactly if the last attempt got it |
| PreferredMode.ReplayRestores | native/broker/main.cpp:710-740 | Recovery yields the user's mode and no journal exactly from the recoverable states, and is idempotent |
| PreferredMode.ApplyAfterFailedRecovery | native/broker/main.cpp:676-740 | After a recovery that left the journal and a successful apply, the user's mode is recoverable if and only if it was in force when the apply took its snapshot |
| PreferredMode.ModeStore.Apply | native/broker/main.cpp:676-708 | The mode is read back, journaled and only then replaced, each step exactly if the one before worked, and a refused replacement is followed by a recovery; a crash at any point leads back to the mode in force before, a success leads back to that mode and no other, and a failure without an old journal changes nothing |
| PreferredMode.ModeStore.Recover | native/broker/main.cpp:710-740 | The journal is read, its mode put in force and only then the journal removed, each step exactly if the one before worked; a crash at any point still leads to the journaled mode; an unreadable journal counts as none and stays, a corrupt one is refused and stays |
| PreferredMode.ModeStore.WriteJournal | native/broker/main.cpp:309-320 | The journal is replaced as a whole or left as it was |
| PreferredMode.ModeStore.ChangeOutside | native/broker/main.cpp:676-684 | An outside change keeps the journal invariant and makes the new mode the one to restore |
| ArmingLog.Arming.PollGood | native/broker/main.cpp:890-892 | One more good poll, resting on the reply just read to a request sent at its time, extends the run of good polls, each at least 250 ms after the one before |
| ArmingLog.Arming.PollBad | native/broker/main.cpp:871-889 | A poll whose reply does not fit starts the count again |
| ArmingLog.Arming.PollFailed | native/broker/main.cpp:844-848 | A poll without a reply starts the count again |
| ArmingLog.Arming.PollUnplugged | native/broker/main.cpp:849-851 | The same reply is noted as this poll and as the unplug |
| ArmingLog.Arming.PollReplug | native/broker/main.cpp:867-870 | A display still plugged in from before the apply adds nothing to the count |
| ArmingLog.Arming.SeeDisconnected | native/broker/main.cpp:798-806 | The unplug is noted with the reply that said so, which came after the arming |
| ArmingLog.Arming.SetApplied | native/broker/main.cpp:861 | The apply comes after an unplug seen in the same arming and names the durable state it led to |
| ArmingLog.Arming.NoteAutoStart | native/broker/main.cpp:892-894 | With three counted samples the log justifies a start for the requested mode |
| ArmingLog.Arming.NoteRootProbe | native/broker/main.cpp:1333-1344 | A command of root is noted at most once, with where the wire log stands |
| ArmingLog.Arming.Preserve | native/broker/main.cpp:828-837 | An unplug is progress: the arming continues and the count restarts |
| ArmingLog.Arming.Configure | native/broker/main.cpp:765-767 | A new requested mode invalidates every earlier justification |
| ArmingLog.StableExtend | native/broker/main.cpp:841-892 | Spacing and quality of k polls carry over to k + 1 |
| ArmingLog.AutoStartsAppend | native/broker/main.cpp:892-899 | Justifications of earlier starts survive later events |
| ArmingLog.StartRestsOn | native/broker/main.cpp:839-899 | A justified start in the words of those it rests on: a client's command to arm, since then a STATUS reply that said disconnected, a later durable state with the requested mode in force, and three different STATUS requests, each sent at least 250 ms after the one before, all answered with connected at that mode and ready for a lease |
| ArmingLog.HonestGrows | native/broker/main.cpp:839-899 | Further replies, commands, durable states and time leave what the log rests on as it was, and nothing rests on them yet |
| ArmingLog.CausedAppend | native/broker/main.cpp:1005-1018 | Every START has a cause as long as each is sent right behind a noted one |
| ArmingLog.OwnCause | native/broker/main.cpp:902-903 | Two STARTs never share a cause |
| ModeText.JournalRoundTrip | native/broker/main.cpp:656-674 | Every mode printed to the journal or the configuration file is read back as itself |
| ModeText.ScanPrinted | native/broker/main.cpp:684-685 | A printed number is read whole and nothing behind it is consumed |
| ModeText.ScanPrintedRefresh | native/broker/main.cpp:694-695 | A rate printed with three decimals is read as exactly that rational number |
| ModeText.CompactRead | native/broker/main.cpp:344-347 | The compact form falls through the first format and is read by the second |
| ModeText.DecimalRead | native/broker/main.cpp:336-347 | Any number of decimals is read as the rational number it denotes |
| ModeText.AnswerRead | native/broker/main.cpp:333-353 | After any caption, an answer in either form and with any decimals is read as the numbers it denotes |
| ModeText.SetModeReadsBack | native/broker/main.cpp:333-353 | For every mode the broker may set, Android's answer in either form and with any decimals of that value yields that mode as the snapshot |
| ModeText.PrintedModeReadsBack | native/broker/main.cpp:333-353 | The same with the three decimals the broker prints itself |
| ModeText.NativeReadsBack | native/broker/main.cpp:340-343 | An answer that says null yields the native mode, whatever stands around it |
| Refresh.ThousandthsPrinted | native/broker/main.cpp:726-727 | Dividing any 32-bit value by 1000 in double and printing three decimals shows its own digits |
| Refresh.RefreshRoundTrip | native/broker/main.cpp:351 | Reading as binary32, multiplying by 1000 and rounding restores every value below 2^22, from the relative error bound alone |
| Refresh.RoundTripLimit | native/broker/main.cpp:351 | The bound is sharp: from 2^22 on two admissible roundings miss the value |
| Refresh.SnapshotNeighbour | native/broker/main.cpp:348-351 | Any rate up to 4000 Hz is journaled within one millihertz, and journaling it again changes nothing |
| InputBridge.Bridge.LevelIsOr | native/input-bridge/main.c:270-293 | A reader of a virtual device sees a key down if and only if some connected source holds it |
| InputBridge.Bridge.Run | native/input-bridge/main.c:396-451 | Over any run of scans, polls, drops and unplugs, with exactly what the scans found and the polls brought: in every turn each source is where its own poll leads or is gone, a reader sees the OR of these sources for every key, and each device's stream grew by exactly the motion, scan codes and repeats of the sources with its role, in order; presses and releases alternate and balance per key, and both streams end complete |
| InputBridge.Bridge.Turn | native/input-bridge/main.c:408-440 | One turn takes in what the scan found, moves each source by its own poll and leaves the streams at the OR of the moved sources, with exactly their motion, scan codes and repeats added |
| InputBridge.Bridge.ChangeKey | native/input-bridge/main.c:270-293 | The device announces exactly the change of the shared level, repeats pass only while the source holds the key, and no other source or device is touched |
| InputBridge.Bridge.FlushFrame | native/input-bridge/main.c:263-268 | One SYN_REPORT on exactly the devices this source left unfinished |
| InputBridge.Bridge.ReconcileKeys | native/input-bridge/main.c:295-308 | After dropped events every forwarded key is at the level the kernel reports and every other key is untouched |
| InputBridge.Bridge.ForwardEvent | native/input-bridge/main.c:329-358 | One event moves the source's keys as its meaning says; a press or release is announced exactly as it changes the shared level; motion, scan codes and repeats reach exactly the devices of the source's roles unless events are being dropped; and SYN_REPORT ends its frames |
| InputBridge.Bridge.ForwardEvents | native/input-bridge/main.c:320-361 | A whole read leaves the source where the event list leads and sends exactly its motion, scan codes and repeats, none of them while events are dropped; the source stays exactly if no error and no failed reconciliation occurred |
| InputBridge.Bridge.Disconnect | native/input-bridge/main.c:363-374 | Removing a source releases what it alone held, ends its frames, sends no motion and keeps the order of the rest |
| InputBridge.Bridge.Connect | native/input-bridge/main.c:108-150 | Only an ungrabbed device with a role is added, at the end, with no key pressed |
| InputBridge.ScanAdds | native/input-bridge/main.c:108-150 | A scan keeps the sources there are in place, adds only released ones with a role, grabs no node twice and misses none that is of use |
| InputBridge.Bridge.Known | native/input-bridge/main.c:102-106 | True exactly for the paths already grabbed |
| InputBridge.Bridge.PollAll | native/input-bridge/main.c:431-440 | Walking backwards, each source meets its own poll result even while others are removed: the survivors are exactly the sources moved by their own events, and the motion and repeats of all is sent in that order |
| InputBridge.Bridge.Shutdown | native/input-bridge/main.c:444-449 | After the sources are gone every key is up, both streams are synced and the final release of keys emits nothing |
| InputBridge.VirtualDevice.AddHolder | native/input-bridge/main.c:280-285 | A press is emitted exactly for the first holder |
| InputBridge.VirtualDevice.DropHolder | native/input-bridge/main.c:286-292 | A release is emitted exactly for the last holder |
| InputBridge.VirtualDevice.ReleaseKeys | native/input-bridge/main.c:236-245 | Afterwards nothing is down; silent when nothing was |
| InputBridge.CountedUpdate | native/input-bridge/main.c:270-293 | Flipping one key of one source moves one count of one device by one |
| InputBridge.EdgeOfFlip | native/input-bridge/main.c:280-292 | The tests "was zero" and "became zero" detect precisely the edges of the OR |
| EventMeaning.Followed | native/input-bridge/main.c:329-343 | Over any list of events: a source is given up exactly at a SYN_REPORT after dropped events at which the kernel does not tell the key levels; until then every key is at the level of the last event that decides it, its press or release or the SYN_REPORT after a loss, and the source knows whether events are being lost |
| EventMeaning.SentMeans | native/input-bridge/main.c:341-358 | A device gets exactly what the events that are not lost pass on to it: scan codes and motion by role, and repeats of keys that are down |
| EventMeaning.LossRecovered | native/input-bridge/main.c:329-341 | After SYN_DROPPED, any events and a SYN_REPORT with the key levels, every forwarded key is at its level, every other as it was, the loss is over, and nothing of what came in between was sent; without the levels the source is given up |
| EventMeaning.LastEdgeDecides | native/input-bridge/main.c:342-343 | Without SYN_DROPPED a forwarded key is at the level of its last press or release, and nothing gives the source up |
| EventMeaning.ReaderSees | native/input-bridge/main.c:431-440 | After every turn a reader sees a key down if and only if it is down, by the events of that turn, for some source that stays |
| FanIn.CountIsAny | native/input-bridge/main.c:280-292 | A holder count is positive if and only if some source presses |
| FanIn.PressesMatchReleases | native/input-bridge/main.c:270-293 | In an alternating stream presses exceed releases by one exactly while the key is down |
| TracedRun.Run | native/drm-trace/drmtrace.c:740-819 | For any sequence of ioctls of one Xorg: every system call was announced in full under its own number right before, or came after a proved startup and was no SETCRTC, or is the fallback of an announced SETCRTC; call by call the kernel got exactly that call once, unless the filter drops it, and of a SETCRTC exactly the calls its fallback comes to, with the error that follows from them, the agent saw that call's own records, and a SETCRTC with result 0 was shown by the kernel; the properties are what the filter leads to; until the sequence number wraps, the observer's verdict is that of the commits as made, and any proof of the scanout rests on a moment at which all enabling commits had succeeded and the kernel showed the last one; the process ends exactly at a record that was not acknowledged |
| TracedRun.Perform | native/drm-trace/drmtrace.c:740-819 | One ioctl: the agent sees one whole commit with the caller's own argument and result, or only records the observer ignores, and the kernel gets exactly the caller's call |
| Interposer.Interposer.AgentTurn | native/agent/main.cpp:957-969 | Between any two records the agent may verify, and later let tracing stop, which changes nothing but flips accepted earlier |
| TracedRun.JustifiedAnywhere | native/agent/main.cpp:905-926 | Wherever between two records the verification fell, the completed enabling commits had all succeeded and the kernel showed the last one, or the one under way |
| StartedXorg.StartShowsXorg | native/agent/main.cpp:905-926 | When the records behind a START the broker took for accepted are those of an interposed Xorg, its completed enabling SETCRTCs had all succeeded and the kernel showed on the leased CRTC a framebuffer this Xorg asked for itself |
| TracedRun.FilterInvisible | native/drm-trace/drmtrace.c:431-440 | At the end of a run the filter is invisible if and only if no last write put a stored value back after another write moved it away |
| Interposer.Interposer.Emit | native/drm-trace/drmtrace.c:91-113 | The process ends exactly if the matching acknowledgement does not come; with it the record is durable; no system call is made |
| Interposer.Interposer.IoctlSetCrtc | native/drm-trace/drmtrace.c:740-819 | The agent observes exactly one commit with the caller's argument and the result Xorg gets, the calls made are the SETCRTC and, exactly after EINVAL on the expected CRTC and connector, those of the fallback, and the error is what they lead to, success means the kernel shows the requested framebuffer, position and timing, and a process that ends before the call leaves the display alone |
| Interposer.Interposer.ExecuteSetCrtc | native/drm-trace/drmtrace.c:791-802 | The announced call and then, exactly after EINVAL where the fallback applies, its calls; the error is the kernel's unless a flip was accepted, then 0 if it showed and EIO if not; success, by modeset or by flip, shows what was asked for; EINVAL means that no flip of the fallback took effect |
| Interposer.Interposer.PerformSetCrtc | native/drm-trace/drmtrace.c:791-814 | Only with its whole announcement durable is the call made, and its result is what the closing record says |
| Interposer.Interposer.TryPageFlip | native/drm-trace/drmtrace.c:555-662 | Where the fallback is off or not meant for the request nothing is called and the result is 0; elsewhere the calls are exactly those of the fallback; result 1 only with the request visible; result 0 with no new flip; its details cannot be mistaken for connector records |
| Interposer.Interposer.FlipInstead | native/drm-trace/drmtrace.c:585-662 | A look at the CRTC, then PAGE_FLIP exactly if it runs the requested position and timing, then looks until the request shows: 0 exactly if no flip was accepted, 1 if the last look shows the request, which is then the requested picture, and -1 if 20 looks did not |
| Interposer.Interposer.AwaitFlip | native/drm-trace/drmtrace.c:641-656 | At most 20 looks, ending with the first that shows the requested framebuffer, and false only after 20 that do not; true only with everything else of the CRTC unchanged |
| Interposer.Interposer.AnnounceSetCrtc | native/drm-trace/drmtrace.c:455-469 | BEFORE and every named connector are the last durable records, and no call came in between |
| Interposer.Interposer.Announce | native/drm-trace/drmtrace.c:752-766 | A traced call's whole announcement is durable and nothing was called meanwhile; an untraced one needs a proved startup |
| Interposer.Interposer.AtomicDetails | native/drm-trace/drmtrace.c:471-517 | The nested lists of a commit within bounds are flattened so that each property of each object is listed once at its place; one beyond them yields a single truncation record; each unreadable list ends it where the code stops |
| Interposer.Interposer.IoctlAtomic | native/drm-trace/drmtrace.c:740-819 | The call is made exactly once, and between BEFORE and AFTER the agent sees exactly its details |
| Interposer.Interposer.IoctlOther | native/drm-trace/drmtrace.c:740-819 | Any other call is made exactly once with its result passed on, and shows the observer nothing it follows |
| Interposer.Interposer.IoctlSetProperty | native/drm-trace/drmtrace.c:767-802 | The kernel ends where filtering by the cache leads, a repeated write is never executed and any other exactly once, and the cache is not refreshed |
| Interposer.Interposer.IoctlGetProperties | native/drm-trace/drmtrace.c:804-818 | The read of the named object is announced under its name and made exactly once; a traced successful read of a connector fills the cache with that connector's report, any other read leaves it alone |
| Interposer.Interposer.ListProperties | native/drm-trace/drmtrace.c:519-553 | The cache takes over a whole report entry by entry, within its capacity |
| Announcement.CommitPieces | native/drm-trace/drmtrace.c:455-469 | Announcement, fallback details and result together are one commit's records |
| Announcement.FallbackUnannounced | native/drm-trace/drmtrace.c:555-662 | Whenever a fallback call may come, no record became durable since the last call |
| Announcement.FallbackLookUnannounced | native/drm-trace/drmtrace.c:585-594 | A GETCRTC after a rejected SETCRTC is covered by that SETCRTC and announced by nothing |
| Kernel.FlipEqualsModeset | native/drm-trace/drmtrace.c:595-639 | The flip shows the request, and equals the modeset if and only if connectors and untimed mode fields agree |
| Kernel.FlipCanKeepOtherConnector | native/drm-trace/drmtrace.c:555-639 | A CRTC lighting another connector, with a request that passes every test of the fallback |
| AgentSession.JustifiedMeansScannedOut | native/agent/main.cpp:905-926 | Evidence means: every enabling SETCRTC succeeded with the leased connector, there was one, and the kernel shows the last one's framebuffer at Android's timing |
| AgentSession.JustifiedMidCommit | native/agent/main.cpp:905-926 | The same when the verification falls into the middle of a further commit |
| AgentSession.Agent.VerifyScanout | native/agent/main.cpp:905-926 | Success exactly if the trace is confirmed and not failed, the lease and Android's mode are there, and the kernel, asked once, shows the followed framebuffer at that mode's timing; it records evidence about the current start, the leased objects and the records seen |
| AgentSession.Agent.StartXorg | native/agent/main.cpp:928-977 | Success exactly if Android's mode could be read, everything needed was there, the first turn that decides anything passes every test with the scanout seen by the kernel, and the session, if one is wanted, came up; success, and switching tracing off, only with evidence for this very start; an acknowledgement sent before the verification carries the flag that was set when START came |
| AgentSession.Agent.BeginXorg | native/agent/main.cpp:928-956 | A start begins exactly if the connector is connected, the CRTC could be read, Android's mode is known, and the configuration, the lease and the process are there; from here until the verification the steady flag is honest if and only if it was not set before |
| AgentSession.UnverifiedXorgStopsTracing | native/agent/main.cpp:231-243 | A START in steady state whose first acknowledged record tells the unverified Xorg to stop tracing |
| AgentSession.Agent.WatchXorg | native/agent/main.cpp:957-976 | A turn of the startup loop accepts exactly if Xorg is alive and ready, all its records were acknowledged, its commits are confirmed and none failed, the kernel shows the framebuffer, the windows are right and a wanted session came up; it leaves the question open exactly while Xorg lives, its records arrive and it is not ready or has not committed; acceptance, or switching tracing off, comes only with fresh evidence about the expected objects |
| AgentSession.FirstDecides | native/agent/main.cpp:957-976 | A start succeeds or fails with the first turn that decides anything |
| AgentSession.Agent.Relay | native/agent/main.cpp:245-267 | An acknowledgement to the interposer only after the broker logged the record |
| AgentSession.Agent.RelayAll | native/agent/main.cpp:245-267 | Records are relayed in order up to the first that is not acknowledged, and success means that all were |
| AgentSession.Agent.BrokerHop | native/broker/main.cpp:599-611 | The broker logs before it acknowledges |
| AgentSession.Agent.ReadAndroidMode | native/agent/main.cpp:519-557 | The inherited mode becomes the CRTC's mode exactly if that is valid, not empty and advertised by a connected connector, and stays otherwise; success exactly if the connector is connected, the CRTC could be read and the inherited mode is not empty |
| AgentSession.Agent.Advertised | native/agent/main.cpp:538-546 | Found exactly if some advertised mode has the same timing |
| AgentSession.Agent.PrepareSession | native/agent/main.cpp:699-717 | A valid preparation forgets every verdict about an earlier Xorg |
| AgentSession.Agent.CleanupSession | native/agent/main.cpp:979-989 | Tracing is mandatory again and no lease is kept |
| AgentSession.Agent.Dispatch | native/agent/main.cpp:1074-1116 | One reply per request with its identifier; success only for requests that can succeed; START is answered READY exactly if it carries the lease and the prepared probe mode and its start succeeds, with the evidence of one new start for its own objects; the steady flag is honest after every request if it was before; a failed START keeps neither the flag nor the lease |
| Scanout.Observer.ObserveRecord | native/agent/main.cpp:170-195 | The in-place observer is the fold over records that the theorems speak about |
| Scanout.CommitEffect | native/agent/main.cpp:170-195 | A whole commit changes the observer all at once, or not at all when it is not followed |
| Scanout.CommitInFlight | native/agent/main.cpp:170-195 | What the observer knows after any part of a commit |
| Scanout.ObserverMatchesScan | native/agent/main.cpp:170-195 | On every trace of contiguous commits: confirmed if and only if the first enabling commit was good, failed if and only if some enabling commit was not, and the framebuffer is the last one's |
| Scanout.NothingExpected | native/agent/main.cpp:170-172 | Without an expected CRTC nothing is ever confirmed |
| PropertyCache.Cache.Store | native/drm-trace/property_cache.h:20-34 | The array is a map of at most 512 keys: a store updates or adds one key, or refuses when full |
| PropertyCache.Cache.IsNoop | native/drm-trace/property_cache.h:36-46 | True exactly if the map holds this value for this key |
| PropertyCache.StoredReport | native/drm-trace/drmtrace.c:539-545 | After storing an accurate report, what is cached of it is the kernel's value and nothing else changed |
| PropertyRun.FilteredValue | native/drm-trace/drmtrace.c:767-789 | Per key, over any reads and writes, dropping repeated writes gives the unfiltered value if and only if the last write does not put back a stored value after another write moved it away |
| PropertyRun.SuppressionInvisible | native/drm-trace/drmtrace.c:431-440 | For any sequence of reads and writes, filtering is invisible if and only if no property is put back that way |
| PropertyRun.WriteBackIsLost | native/drm-trace/drmtrace.c:767-792 | Two writes that end with different kernel values with and without the filter |
| GrayCode.DecodeUndoesEncode | scripts/analyze-cadence.py:39-44 | Decoding the Gray code of any natural number returns it |
| GrayCode.EncodeUndoesDecode | scripts/analyze-cadence.py:39-44 | Decoding is a bijection: encoding undoes it as well |
| GrayCode.GrayToBinary | scripts/analyze-cadence.py:39-44 | The shift loop computes the exclusive or of all right shifts |
| GrayCode.AdjacentFramesDifferInOneBit | native/probes/sdl-frame-pacing.c:122-139 | The codes of successive frames differ in exactly one bit |
| GrayCode.DrawCodeBand | native/probes/sdl-frame-pacing.c:121-139 | Four alternating sync bars, then the low sixteen Gray bits, low bit first |
| GrayCode.DecodeBand | scripts/analyze-cadence.py:66-78 | A band without the sync pattern is no reading; any other yields its decoded bits |
| GrayCode.DecodeLowGray | scripts/analyze-cadence.py:74-78 | Keeping k Gray bits decodes to the low k bits of the frame, complemented when bit k is set |
| GrayCode.CaptureFrame | scripts/analyze-cadence.py:74-78 | Drawing and reading any frame gives its number mod 65536, or the complement in every second window |
| GrayCode.CapturedIdInCycle | scripts/analyze-cadence.py:74-78 | Over 131072 frames the identifier climbs and then descends |
| GrayCode.SuccessiveFramesStepByOne | scripts/analyze-cadence.py:164-171 | Two successive frames look like a step of one if and only if they lie in the climbing half |
| GrayCode.IdentifierRepeatsAtTurn | native/probes/sdl-frame-pacing.c:122-139 | At the turn two different frames show one identifier |
| Cadence.CollectRuns | scripts/analyze-cadence.py:89-100 | Every readable frame lies in exactly one collected run, and runs are bounded by unreadable frames |
| Cadence.LongestValidRun | scripts/analyze-cadence.py:89-100 | The result is a contiguous readable slice, no readable slice is longer, and among equals it is the first |
| Cadence.CollectHolds | scripts/analyze-cadence.py:143-162 | The holds expand to the identifiers, neighbours differ, transitions are the neighbouring pairs; each hold lasts from its first frame to the first frame of the next, and the last one until one nominal frame after the end |
| Cadence.DurationsAddUp | scripts/analyze-cadence.py:154-162 | The durations of the holds add up to the span of the run plus one nominal frame |
| Cadence.RunLengthUnique | scripts/analyze-cadence.py:143-162 | The identifiers have no other run-length encoding |
| Cadence.Account | scripts/analyze-cadence.py:164-171 | The loop's counters are the sums over all transitions |
| Cadence.CountsExplainDistance | scripts/analyze-cadence.py:164-171 | Without a discontinuity, first identifier plus updates plus skips is the last identifier mod 65536 |
| Cadence.SkipsAreMissedFrames | scripts/analyze-cadence.py:164-171 | On a steady capture anywhere in a climbing half, no discontinuity is counted and the skip count is the number of source frames between first and last that no captured frame shows |
| Cadence.CountTorn | scripts/analyze-cadence.py:141 | The count of frames whose two bands disagree |
| Cadence.Analyse | scripts/analyze-cadence.py:133-181 | A report exists exactly if some frame is readable, and every figure of it, the duration of each hold, skips and discontinuities included, is determined by the chosen run |
| Cadence.ReportOnSteadyCapture | scripts/analyze-cadence.py:164-181 | When the chosen run shows a steady capture, the report has no discontinuity and its skips are the source frames never captured |
| Cadence.ReportExplainsDistance | scripts/analyze-cadence.py:164-181 | Without a discontinuity the report's updates and skips explain the distance between its first and last identifier |
| FixedPrimary.FindCrtcIndex | patches/qcom-display/v1/0008-sdm-lease-the-CRTC-fixed-primary-plane.patch:36-42 | The first position of the CRTC, or proof that it is not listed |
| FixedPrimary.SelectPlane | patches/qcom-display/v1/0008-sdm-lease-the-CRTC-fixed-primary-plane.patch:30-85 | Selects a plane if and only if it is the k-th primary for the CRTC at index k below 32 and can drive it; each error exactly in its case |
| FixedPrimary.NoSharedPlane | patches/qcom-display/v1/0008-sdm-lease-the-CRTC-fixed-primary-plane.patch:30-85 | With distinct plane ids, two CRTCs never select the same plane |

## Left out

- Broker.Broker.StopAgent: STOP is attempted before RELEASE; that it was acknowledged first does not hold in the source, whose wait can end at once past a deadline or during the volume chord.
- Broker.Broker.Execute: of the answers to clients only the status is modelled, and of the peer credentials only whether the sender is root; the arming's `armed_since` only selects a text.
- Broker.Broker.HoldLease: a stop signal, which also ends the hold, is not modelled.
- TracedRun.Run: one traced thread.
- TracedRun.Run: the verdict and the steady-state claim stop where the 32-bit sequence number wraps to 0, which the observer takes for "none".
- Interposer.Interposer.IoctlGetProperties: reports are accurate values of the kernel; a caller's buffer that is too small for its count is not modelled.
- Kernel.Device.Atomic: the effect on the device of atomic commits, and of ioctls without rules, is not modelled.
- Broker.Broker.ModeSetOutside: Android's mode is set by others between turns; a change during the broker's own apply or while its mode is in force is not modelled.
- Broker.Broker.FailStart: the composer sends no message with an agent's opcode, and a broken agent message is not taken for a refusal.
- AgentLink.AgentLink.Read: agent messages of kinds the broker ignores are not modelled.
- InputBridge.VirtualDevice.Emit: streams are the writes attempted; a write dropped on EAGAIN is not modelled.
- ModeText.ParseMode: signs, exponents, hexadecimal and overflowing numbers, which the C library's conversions also accept, are not modelled.
- Refresh.Rounded: binary32 appears through its error bound; subnormal numbers, infinities and the exact grid of representable values are not modelled.
- Cadence.Analyse: percentiles and rates derived from the modelled figures, and everything before a bar is a boolean, such as video and pixel handling.
- The composer beyond its documented contract and the plane selection; most patches of the series.
- Sockets, processes, signals, real clocks, file syncing and partial messages; each received message is complete, and a failed write delivers nothing.
- xorg.conf text, GPU environment, the LXDE session, input device classification, record texts and ioctl names.
- The tile application, packaging, build and module scripts, capture-keeper and the remaining probes.
