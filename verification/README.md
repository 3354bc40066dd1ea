# StageRunner: the playback machines and the light engine

StageRunner drives stage light, audio and scripts from loops that run every 10
to 20 ms. This project models the step machines on top of these loops and proves
what their whole runs do.

- **Scripts** (`Script*.dfy`): a goto machine over script lines. LOOP jumps, optionally
  to a line and a number of times, counting on the line itself; WAIT, PAUSE and
  lines with an absolute time end a call. `ScriptMachine` defines the machine,
  `ScriptTermination` which scripts end, `ScriptLoops` where a LOOP goes on, `ScriptUnroll` what nested loops play,
  `ScriptPlayback` how a run is cut into calls, `ScriptBusyLoops` which calls never come back,
  `ScriptTimes` how long a playback lasts; `ScriptExecuter` and `ScriptList` hold the classes.
- **Timelines** (`Timeline*.dfy`): the tracks of a timeline become a list of events sorted by
  time; the scheduler merges this list with a 40 ms envelope tick.
- **Light** (`DmxFade`, `PairedFade`, `DmxRoundTrip`, `DmxChannel`, `SceneFade`, `SceneRun`,
  `SceneItem`, `LightLoop`): the fade of a channel or a 16-bit pair of channels, the pairing of
  tubes and the status flags of a scene, and the light loop, which scales all channels to bytes,
  merges them, the highest value taking precedence, and gives up the scenes that are over.
  `SceneFade` defines commands and passes of a scene, `SceneRun` proves what they lead to.
- **Sequences** (`FxItem`, `FxList`, `Sequence*.dfy`): items of a list are played in list order or at
  random, several times, each through its cues, and the user can choose the next one; `FxItem` and `FxList` also give items their ids.

Each class has the fields and methods of the original one and is proved against
functions on values; the theorems about whole runs are lemmas about these functions.
Times are run times in ms that the caller passes in, random values come from a
function from call number to value, and orders to light, audio and the user
interface are recorded in a log.

## What the proofs found

Places where the code does not do what its comments say or a user would expect.
The model follows the code; the lemma named shows the case or gives the exact condition.

- A LOOP without count can keep a call busy for ever. With backward jumps only, the first call comes back if and only
  if before every such LOOP a line waits, pauses or is too early (`ScriptBusyLoops.FirstCallReturnsIff`), and some call of a
  playback hangs if and only if no line of the body of the first such LOOP waits or pauses (`ScriptBusyLoops.SomeCallHangsIff`):
  WAIT, a line, LOOP 2 hangs in its second call (`ScriptBusyLoops.SecondCallHangs`).
- A negative LOOP target passes the test for validity: a LOOP that jumps ends the script if and only if its target
  is negative (`ScriptTermination.JumpEndsIff`, `ScriptTermination.NegativeTargetWitness`).
- An object's STOP is entered before its BEGIN when both have the same time
  (`TimelineEvents.BeginBeforeStopIff`). The comment at fxtimelineobj.cpp:109 promises a stop
  time below the end time; audio without fade-out and scripts stop exactly at the end.
- After a seek the envelopes run exactly if the event list starts with an envelope start. An object that
  begins at 0 on a later track gets in front of it, and then they are lost (`TimelineScheduler.SeekKeepsEnvelopesIff`).
- A seek of a running executer without an envelope start in front leaves a pending tick pending, with its old time
  (`TimelineScheduler.SeekKeepsPendingTick`).
- A FADETO beyond full on a channel at full is accepted and never ends (`DmxFade.AcceptedFadeEndsIff`). A fade to
  byte 255 does this on a channel at full, if it has at least 510 levels (`DmxRoundTrip.ByteFadeNeverEndsIff`,
  `DmxRoundTrip.StuckWitness`).
- A FADEOUT while a fade-in is still at level 0 is rejected and does not stop the fade-in
  (`DmxFade.FadeOutClearsIff`, `SceneRun.SceneFadeOutIff`).
- A second FADEIN puts the light of a scene out. If no dimmer is below its target, the command takes the stage flag
  away (`SceneRun.StagedIff`); once nothing runs in the scene and no other stage flag is set, the light loop gives the lit scene up
  (`SceneRun.LitSceneGivenUpIff`) and merges its tubes no longer. For a quiet lit scene this happens if and only if
  no dimmer is below its target (`SceneRun.LitFadeInGivesUpIff`, `SceneRun.SecondFadeInGivesUp`).
- A rejected command sets the fade value back to the level, so a FADEOUT at every tick holds a slow fade-in at 0 for ever
  (`DmxFade.AcceptedIff`, `DmxFade.RejectedHoldsAtZero`).
- Neither FADETO to the present level nor FADEIN at the target or above it stops a running FADEOUT: they are rejected, and the
  line goes out (`DmxFade.FadeToOverFadeOutGoesOut`, `DmxFade.FadeInOverFadeOutGoesOut`). When a command over a running fade
  reaches its level is known exactly (`DmxFade.CommandReachesIff`).
- FADEIN takes a visible tube without a type of its own for light; the end of a fade asks the universe layout, in which
  the tube may be a colour or a gobo. So the stage flag does not always tell whether a dimmer is above 0 (`SceneRun.FadeInStage`,
  `SceneRun.FadeInCompletes`). After a fade-in of one tick such a scene stays on stage for ever without any light
  (`SceneRun.ColourStaysOnStage`); after a longer one a scene without lit dimmers is given up just when its tubes
  have arrived, and its colour and gobo bytes drop to 0 (`SceneRun.LightlessFadeInIsGivenUp`, `SceneRun.FadeInActiveIff`).
- FADETO given to a scene has no target of its own and leads the tubes it fades to 0 (`SceneRun.FadeToGoesToZero`).
  No present caller of a scene command uses FADETO.
- The 16-bit maximum is written 65565, so near the end of the range the coarse level of a running fade is above full;
  which commands do this is known exactly (`PairedFade.FadeOvershootsIff`, `PairedFade.OvershootWitness`). Each of the two
  bytes put out on the way is one too low unless its product with the full value divides by 255 (`DmxRoundTrip.PairBytes`).
- A DMX byte faded to is not always the byte put out; for every full value the bytes that survive are
  known exactly (`DmxRoundTrip.ByteRoundTripIff`).
- A sequence that holds an item twice would never end in list order (`SequenceRun.ListRunEndsIff`). No present
  code path builds such a list: entries are made anew or moved.
- Nothing resets the scenes of a list for a new random run: a scene that an earlier run left in Hold begins with its
  FADEOUT (`SequenceRun.HeldSceneIsNotFadedIn`). The first pass gives all cues if and only if the list is played in
  order or every item that is no audio is Off (`SequenceRun.FirstPassIsWholeIff`).
- The duration shown for a script drops the time before an absolute time that is already over, the WAIT on such a
  line, and counts negative waits, which do not wait (`ScriptTimes.DurationIsShownIff`, `ScriptTimes.WaitsAreShownIff`).
- The time announced for a pass of a sequence is too short exactly if some scene has a delay of -1 and
  waits afterwards, or a smaller delay and takes any time at all (`SequenceTime.PassTimeIsAnnouncedIff`,
  `SequenceTime.RunTimeIsAnnouncedIff`).
- New ids without a requested start always report a conflict (`FxItems.AsRequestedIff`), although the
  comment at fxlist.cpp:350 says true is returned if there was none.

## Model

| member | source | states |
|---|---|---|
| ScriptTermination.CountedScriptEnds | StageRunner/fx/scriptexecuter.cpp:736-773 | Every script whose LOOPs carry counts ends, wherever they jump, within an explicit number of lines |
| ScriptTermination.DispatchDecreases | StageRunner/fx/scriptexecuter.cpp:27-43 | The measure behind it: every executed line lowers the number of lines that can still run among the first i lines, for backward, forward and overlapping jumps |
| ScriptTermination.DispatchKeepsRange | StageRunner/fx/scriptexecuter.cpp:766-770 | The counter of a counted LOOP never reaches its last round between lines, and a line changes no other counter |
| ScriptTermination.PassesEveryRound | StageRunner/fx/scriptexecuter.cpp:766-772 | In every script a counted LOOP lets the run pass at exactly every max(1, count)-th visit and jumps to its target otherwise |
| ScriptTermination.JumpEndsIff | StageRunner/fx/scriptexecuter.cpp:741-772 | A LOOP that jumps ends the script if and only if its target is written as a negative number |
| ScriptTermination.NegativeTargetWitness | StageRunner/fx/scriptexecuter.cpp:741-772 | LOOP -1 between two lines: the line behind it is never played |
| ScriptLoops.LoopGoesOn | StageRunner/fx/scriptexecuter.cpp:736-773 | The line after a LOOP in every run, read off its parameters: the first one without any, the next one for an invalid number or count, else the numbered one except at every count-th visit |
| ScriptLoops.EndlessScriptPlays | StageRunner/fx/scriptexecuter.cpp:741-756 | Lines, more lines and a LOOP back to these: the first are played once, the others k times in k rounds; LOOP without parameters repeats the whole script |
| ScriptLoops.PlainScriptPlays | StageRunner/fx/scriptexecuter.cpp:20-46 | Without LOOP every line with a command is played once, in order |
| ScriptTermination.BackwardScriptEndsIff | StageRunner/fx/scriptexecuter.cpp:741-756 | With backward jumps only, a script ends if and only if no valid LOOP lacks a count |
| ScriptTermination.Trapped | StageRunner/fx/scriptexecuter.cpp:741-756 | A run never gets past a LOOP without count |
| ScriptUnroll.BlockRuns | StageRunner/fx/scriptexecuter.cpp:736-773 | A nested block of counted loops, standing anywhere in a script, plays its lines, ends behind its last line and leaves every counter at 0 |
| ScriptUnroll.RoundsRun | StageRunner/fx/scriptexecuter.cpp:766-772 | The remaining rounds of a loop play the body that often and reset its counter, so an enclosing loop sees it fresh |
| ScriptUnroll.UnrollShows | StageRunner/fx/scriptexecuter.cpp:736-773 | Writing all loops out removes every LOOP and keeps the lines played, at any nesting depth |
| ScriptUnroll.NestedScriptRuns | StageRunner/fx/scriptexecuter.cpp:20-46 | A script of nested counted loops ends with all counters at 0 |
| ScriptUnroll.LoopFormEqualsUnrolledForm | StageRunner/fx/scriptexecuter.cpp:736-773 | The loop form and the unrolled form of a script play the same lines |
| ScriptPlayback.CallFollowsRun | StageRunner/fx/scriptexecuter.cpp:20-46 | A call executes the next lines of the run, in order, and reports the end only at the end |
| ScriptPlayback.CallReturns | StageRunner/fx/scriptexecuter.cpp:27-43 | With counted loops every call comes back |
| ScriptPlayback.NeverTooEarly | StageRunner/fx/scriptexecuter.cpp:365-375 | No line, LOOP lines included, is executed before its absolute time |
| ScriptPlayback.CallEndsAt | StageRunner/fx/scriptexecuter.cpp:361-395 | A call ends with a WAIT, due when its time is over, with a PAUSE, before the absolute time of the next line, due then, or at the end; no line is executed after a WAIT or PAUSE |
| ScriptBusyLoops.BusyLoop | StageRunner/fx/scriptexecuter.cpp:27-43 | In any script: caught in lines that no jump leaves and of which none waits, pauses or is too early, a call never comes back |
| ScriptBusyLoops.FirstCallReturnsIff | StageRunner/fx/scriptexecuter.cpp:20-46 | With backward jumps only, the first call comes back if and only if before every LOOP without count a line waits, pauses or is too early |
| ScriptBusyLoops.BodyIsReached | StageRunner/fx/scriptexecuter.cpp:741-772 | The body of the first LOOP without count, widened by the jumps of the counted LOOPs in it, is run through again and again, each of its lines |
| ScriptBusyLoops.SomeCallHangsIff | StageRunner/fx/scriptexecuter.cpp:20-46 | With backward jumps only, the exec loop makes a call that never comes back if and only if no line of this body waits or pauses |
| ScriptBusyLoops.BusyPlaybackHangs | StageRunner/fx/scriptexecuter.cpp:20-46 | and then one of the first Budget + 2 calls hangs that come after all absolute times |
| ScriptBusyLoops.WaitingBodyReturns | StageRunner/fx/scriptexecuter.cpp:20-46 | Otherwise every call of a playback comes back, at whatever times, so endless scripts that wait in their loop play on |
| ScriptBusyLoops.SecondCallHangs | StageRunner/fx/scriptexecuter.cpp:20-46 | WAIT, a line, LOOP 2: the first call comes back, the second one never does |
| ScriptPlayback.PlaybackFollowsRun | StageRunner/fx/scriptexecuter.cpp:20-46 | However the run of any script is cut into calls, as long as they come back it executes the lines of the uncut run |
| ScriptPlayback.CallTimesDoNotMatter | StageRunner/fx/scriptexecuter.cpp:20-46 | Two finished playbacks of any script with different call times played the same lines and ended in the same state |
| ScriptPlayback.GatedPlaybackEnds | StageRunner/appcontrol/execloop.cpp:77-85 | Called only when the target time is reached, a playback needs at most two calls per line left |
| ScriptPlayback.CountedPlaybackEnds | StageRunner/appcontrol/execloop.cpp:77-85 | A script of counted loops is finished, with its whole trace, after a known number of such calls |
| ScriptPlayback.NestedPlaybackUnrolls | StageRunner/fx/scriptexecuter.cpp:736-773 | Whenever the calls come, nested counted loops play what the unrolled script plays |
| ScriptExecuters.ScriptExecuter.ExecuteLoopExt | StageRunner/fx/scriptexecuter.cpp:736-773 | Counter and next line after a LOOP are those of the machine; false exactly for an invalid target or count |
| ScriptExecuters.ScriptExecuter.ExecuteLine | StageRunner/fx/scriptexecuter.cpp:361-466 | A line that is too early is put off to its time unchanged; otherwise it is executed; WAIT and PAUSE end the call |
| ScriptExecuters.ScriptExecuter.ProcessExecuter | StageRunner/fx/scriptexecuter.cpp:20-46 | The loop computes the result of a call: position, counters, lines played, state and target time |
| ScriptExecuters.UnfoldResult | StageRunner/fx/scriptexecuter.cpp:27-43 | The result of a call is its first line followed by the result of the rest |
| ScriptLists.DurationAfter | StageRunner/fx/fxscripttools.cpp:181-195 | The duration is the last positive absolute time plus the waits behind it |
| ScriptLists.FxScriptList.Append | StageRunner/fx/fxscripttools.cpp:153-162 | The cached duration stays the full fold over the list, and line i has number i + 1 |
| ScriptLists.FxScriptList.Clear | StageRunner/fx/fxscripttools.cpp:147-151 | An empty list with duration 0 |
| ScriptLists.FxScriptList.ExecDuration | StageRunner/fx/fxscripttools.cpp:172-178 | The duration of the list, cached or not |
| ScriptLists.FxScriptList.CalculateDuration | StageRunner/fx/fxscripttools.cpp:181-195 | The loop computes the fold in which a positive absolute time resets the sum |
| ScriptTimes.PlaybackLasts | StageRunner/fx/scriptexecuter.cpp:361-395 | Without LOOP and PAUSE, called exactly at each target time, the last call comes at the time after all lines: waits added up, lines put off to their absolute times |
| ScriptTimes.DurationIsShownIff | StageRunner/fx/fxscripttools.cpp:181-195 | This is the duration of the list if and only if the last line with an absolute time is reached in time and does not wait itself, and no later wait is negative |
| ScriptTimes.WaitsAreShownIff | StageRunner/fx/fxscripttools.cpp:181-195 | Without absolute times it is if and only if no wait is negative |
| ScriptTimes.NeverShorterThanShown | StageRunner/fx/fxscripttools.cpp:181-195 | The playback is never shorter than the duration unless a blank line carries an absolute time |
| ScriptLists.FxScriptList.RawToScript | StageRunner/fx/fxscriptitem.cpp:72-93 | One line per piece of the text, in order, empty pieces included: the line numbers LOOP refers to |
| ScriptLists.SplitLosesNothing | StageRunner/fx/fxscriptitem.cpp:74 | Joining the pieces gives the text back, and no piece holds a separator |
| ScriptLists.SplitOfJoin | StageRunner/fx/fxscriptitem.cpp:74 | Pieces without separator come back as they were joined, so line numbers are unique |
| TimelineEvents.BuiltListIsSorted | StageRunner/fx/timelineexecuter.cpp:318-417 | For non-negative objects the list is sorted, holds no negative time, envelope starts only at 0 and the end only as last event |
| TimelineEvents.EventsOfTimeline | StageRunner/fx/timelineexecuter.cpp:326-412 | The list is exactly one BEGIN per object, one STOP per positive stop time, one ENVELOPE_START per usable curve and an end if anything lasts, as a multiset |
| TimelineEvents.BeginsAndStops | StageRunner/fx/fxtimelineobj.cpp:110-152 | Read off the fields: every object of an item track has one begin at its position and one stop, a scene and audio the fade-out time before the end, a script at the end, and nothing else begins or stops |
| TimelineEvents.EnvelopeStartIff | StageRunner/fx/timelineexecuter.cpp:359-395 | An envelope start, at 0, exactly for the curve tracks that have an object and an item track above |
| TimelineEvents.EndIff | StageRunner/fx/timelineexecuter.cpp:407-414 | One end event at the latest end of all objects, if that is positive |
| TimelineEvents.PausesOfTimeline | StageRunner/fx/timelineexecuter.cpp:85-93 | The events that pause are exactly the begins of pause objects |
| TimelineEvents.LastEndIsMax | StageRunner/fx/timelineexecuter.cpp:354-355 | The end event comes at the maximum end time of all objects |
| TimelineEvents.BeginBeforeStopIff | StageRunner/fx/timelineexecuter.cpp:334-352 | A BEGIN stands before its STOP if and only if it is earlier |
| TimelineEvents.SameTimeOrder | StageRunner/fx/timelineexecuter.cpp:344-352 | At the same time the STOP stands first, for every timeline |
| TimelineEvents.InsertKeepsSorted | StageRunner/fx/timelineexecuter.cpp:334-342 | Entering an event by searching its position keeps the list sorted |
| TimelineEvents.BuiltListFront | StageRunner/fx/timelineexecuter.cpp:326-395 | The list starts with an envelope start exactly if no object after the last usable curve begins at 0 |
| TimelineScheduler.StepInv | StageRunner/fx/timelineexecuter.cpp:44-139 | Every call keeps the scheduler invariant: a triggered tick is due no later than the pending event, any other tick later than it; the target time never decreases |
| TimelineScheduler.FreshInv | StageRunner/fx/timelineexecuter.cpp:232-245 | A fresh executer satisfies it |
| TimelineScheduler.SeekInv | StageRunner/fx/timelineexecuter.cpp:171-203 | A seek on a fresh executer establishes it again |
| TimelineScheduler.SeekToBegin | StageRunner/fx/timelineexecuter.cpp:171-203 | A seek of a fresh executer to 0 changes nothing |
| TimelineScheduler.SeekKeepsPendingTick | StageRunner/fx/timelineexecuter.cpp:171-203 | A seek of a running executer without an envelope start in front keeps a pending tick with its old time; it comes before the events of the new position |
| TimelineScheduler.SeekKeepsClock | StageRunner/fx/timelineexecuter.cpp:171-203 | and a tick that is not pending yet comes with the next event that is not earlier |
| TimelineScheduler.RunItems | StageRunner/fx/timelineexecuter.cpp:44-139 | A run executes every list event from its position on exactly once, in list order |
| TimelineScheduler.RunTicks | StageRunner/fx/timelineexecuter.cpp:55-73 | Its envelope ticks are every 40 ms up to the last event, each once, or none without an envelope |
| TimelineScheduler.RunOrder | StageRunner/fx/timelineexecuter.cpp:63-138 | Actions come in time order, and a tick before an event of the same time |
| TimelineScheduler.FullRun | StageRunner/fx/timelineexecuter.cpp:44-139 | A run from 0 is the whole list merged with the ticks 40, 80, …, and takes exactly N + floor(T / 40) calls with an envelope, N without |
| TimelineScheduler.RunAfterSeek | StageRunner/fx/timelineexecuter.cpp:171-203 | After a seek to ms the run is the list from the first event at or after ms, with ticks ms, ms + 40, … exactly if the list starts with an envelope start |
| TimelineScheduler.SeekKeepsEnvelopesIff | StageRunner/fx/timelineexecuter.cpp:189-198 | Read off the tracks: after a seek envelopes run if and only if no object below the last usable curve begins at 0 |
| TimelineExecuters.TimeLineExecuter.constructor | StageRunner/fx/timelineexecuter.cpp:232-245 | A new executer has the built list and starts at its first event |
| TimelineExecuters.TimeLineExecuter.GetTimeLineObjs | StageRunner/fx/timelineexecuter.cpp:318-417 | The nested loops build the specified list and final time; false exactly for an empty list |
| TimelineExecuters.TimeLineExecuter.AddItemTrack | StageRunner/fx/timelineexecuter.cpp:329-357 | All objects of an item track are entered and the latest end is kept |
| TimelineExecuters.TimeLineExecuter.InsertEvent | StageRunner/fx/timelineexecuter.cpp:334-342 | The search loop finds the first event that is not earlier |
| TimelineExecuters.TimeLineExecuter.FindTargetTrackForCurve | StageRunner/fx/timelineexecuter.cpp:427-437 | The nearest item track above the curve, negative exactly if there is none |
| TimelineExecuters.TimeLineExecuter.ProcessExecuter | StageRunner/fx/timelineexecuter.cpp:44-139 | One call is one step of the scheduler and, while it reports more to do, keeps the invariant and never lowers the target time |
| TimelineExecuters.TimeLineExecuter.ProcessListEvent | StageRunner/fx/timelineexecuter.cpp:75-138 | A list event and the choice of the next target; a pause object pauses |
| TimelineExecuters.TimeLineExecuter.SetReplayPosition | StageRunner/fx/timelineexecuter.cpp:171-203 | The seek, unchanged state on failure, invariant kept on a fresh executer |
| DmxFade.FadeCourse | StageRunner/system/dmxchannel.cpp:245-300 | An accepted fade moves on a straight line for max(1, time / 20) ticks and stands exactly at its goal from then on |
| DmxFade.FadeIsMonotone | StageRunner/system/dmxchannel.cpp:255-262 | The level moves in one direction and stays between start and goal |
| DmxFade.AcceptedFadeEndsIff | StageRunner/system/dmxchannel.cpp:285-296 | An accepted fade ends if and only if it is not a FADETO beyond full on a channel at full |
| DmxFade.ZeroStepIff | StageRunner/system/dmxchannel.cpp:132-146 | Its step is 0 exactly in that case |
| DmxFade.AcceptedIff | StageRunner/system/dmxchannel.cpp:115-150 | BLACK is accepted off level 0, FADEIN below the target, FADEOUT above 0, FADETO off the level asked for; a rejected command changes only the fade value, to the level |
| DmxFade.CommandLasts | StageRunner/system/dmxchannel.cpp:115-300 | An accepted command, BLACK included, runs for a tick per 20 ms, at least one, and then stands at 0, at the target, or at the level asked for, at most full |
| DmxFade.ChangeIsMarked | StageRunner/system/dmxchannel.cpp:245-255 | At every tick of an accepted fade the flag for a changed level says whether the level has left its start |
| DmxFade.RejectedHoldsAtZero | StageRunner/system/dmxchannel.cpp:116-131 | A fade that rises by less than a level per tick is held at 0 by a rejected FADEOUT at every tick |
| DmxFade.StuckForEver | StageRunner/system/dmxchannel.cpp:285-296 | That command keeps running at its level for ever |
| DmxFade.ReachedWhen | StageRunner/system/dmxchannel.cpp:263-299 | The end condition of each command becomes true at its last tick and not before |
| DmxFade.FadeOutClearsIff | StageRunner/system/dmxchannel.cpp:119-131 | FADEOUT and BLACK bring a line to 0 if and only if it is above 0 or no rising fade runs on it |
| DmxFade.FadeOutClearsBy | StageRunner/system/dmxchannel.cpp:278-284 | and then by the end of its time |
| DmxFade.SettlesIff | StageRunner/system/dmxchannel.cpp:245-300 | A line in order comes to rest at exactly the level its running command leads to, and at none if it is stuck |
| DmxFade.CommandReachesIff | StageRunner/system/dmxchannel.cpp:109-150 | A command over any line, running or idle, reaches its level if and only if it is accepted and not stuck, or rejected over a line that rests at this level or runs to it |
| DmxFade.FadeToOverFadeOutGoesOut | StageRunner/system/dmxchannel.cpp:132-146 | FADETO to the level at which a falling fade just stands is rejected, and the line ends at 0 |
| DmxFade.FadeInOverFadeOutGoesOut | StageRunner/system/dmxchannel.cpp:124-127 | So does FADEIN while a falling fade stands at the target or above it |
| DmxFade.InitKeepsInv | StageRunner/system/dmxchannel.cpp:109-150 | Every command, accepted or rejected, keeps the invariant of a mix line |
| DmxFade.TickKeepsInv | StageRunner/system/dmxchannel.cpp:245-300 | Every tick keeps it |
| PairedFade.PairCourse | StageRunner/system/dmxchannel.cpp:155-202 | A paired fade puts both levels on the line of its combined value and ends after max(1, time / 20) ticks with exactly the commanded value: both levels 0, both at their targets, or coarse * F2 + fine with 0 <= fine < F2 |
| PairedFade.PairAcceptedIff | StageRunner/system/dmxchannel.cpp:155-202 | A pair accepts a command by its combined level and target |
| PairedFade.PairCommandLasts | StageRunner/system/dmxchannel.cpp:301-366 | An accepted command runs for a tick per 20 ms; BLACK and FADEOUT leave coarse and fine at 0, FADEIN each at its target |
| PairedFade.PairTickMarks | StageRunner/system/dmxchannel.cpp:306-321 | A tick marks both channels as changed when one of their levels moves |
| PairedFade.FinalIsGoal | StageRunner/system/dmxchannel.cpp:323-362 | The last assignment of each command makes up the goal |
| PairedFade.CoarseBeyondFullIff | StageRunner/system/dmxchannel.cpp:306-313 | The coarse level of a value is above full if and only if full is at least 255 and the value reaches 65536/65565 of the whole range |
| PairedFade.FadeOvershootsIff | StageRunner/system/dmxchannel.cpp:301-366 | A commanded paired fade takes the coarse level above full on its way if and only if full is at least 255 and the point after its first or before its last step reaches that limit |
| PairedFade.OvershootWitness | StageRunner/system/dmxchannel.cpp:301-366 | FADETO 100000000 from 99995000 in 40 ms with 10000 levels: the coarse level is 10039 after one tick |
| DmxRoundTrip.ByteRoundTripIff | StageRunner/system/dmxchannel.cpp:458-462 | On a channel that is idle, or that runs a command and is not at the level for byte d, fading either mix line to d makes the light loop put out d if and only if d survives, whatever the start level up to full and the fade time |
| DmxRoundTrip.ByteFadeReachesIff | StageRunner/system/dmxchannel.cpp:458-462 | Over any line the fade to a byte reaches its level exactly if it is accepted and not stuck, or the running command leads there |
| DmxRoundTrip.ByteSurvivesIff | StageRunner/appcontrol/lightloop.cpp:204-217 | Level and back is the identity on d if and only if m = d * F mod 255 is 0 or 2m + F >= 510 |
| DmxRoundTrip.OutputIs | StageRunner/appcontrol/lightloop.cpp:204-208 | The level that counts is at least 0 and at least that of each mix line, and is one of these |
| DmxRoundTrip.ByteForIsCut | StageRunner/appcontrol/lightloop.cpp:210-217 | The byte is the level in 255ths of full, times the scaler, cut to an integer, at most 255 |
| DmxRoundTrip.PairDmxIs | StageRunner/system/dmxchannel.cpp:306-310 | The 16-bit value of a paired fade is its value scaled to 65565, cut to an integer |
| DmxRoundTrip.PairBytes | StageRunner/system/dmxchannel.cpp:306-313 | In the middle of a paired fade each of the two bytes put out is the one of this value if its product with the full value divides by 255, and one lower otherwise |
| DmxRoundTrip.FineLevelsSuffice | StageRunner/system/dmxchannel.cpp:458-462 | From full value 510 on every byte survives; with 256 the byte 1 does not |
| DmxRoundTrip.ByteFadeNeverEndsIff | StageRunner/system/dmxchannel.cpp:458-462 | A fade to a byte on an idle channel at full never ends if and only if the byte is 255 and full at least 510 |
| DmxRoundTrip.StuckWitness | StageRunner/system/dmxchannel.cpp:458-462 | With the usual 10000 levels byte 255 is such a fade |
| DmxChannels.DmxChannel.InitFadeCmd | StageRunner/system/dmxchannel.cpp:109-203 | Single, paired and subordinate channels start the fade of the model and leave the other mix line alone |
| DmxChannels.DmxChannel.LoopFunction | StageRunner/system/dmxchannel.cpp:245-370 | One tick of a single or paired channel and whether it still runs |
| DmxChannels.DmxChannel.PairedLoopFunction | StageRunner/system/dmxchannel.cpp:301-367 | One tick of a pair changes both channels as specified |
| DmxChannels.DmxChannel.FadeToDmxVal | StageRunner/system/dmxchannel.cpp:458-462 | A FADETO to the level of a byte |
| DmxChannels.DmxChannel.SetPairedWith | StageRunner/system/dmxchannel.cpp:423-437 | Roles of both channels after pairing, also with itself and with none |
| DmxChannels.DmxChannel.ClrPairedWith | StageRunner/system/dmxchannel.cpp:439-451 | No pairing is left on either channel |
| SceneRun.ActiveIffRunning | StageRunner/fx/fxsceneitem.cpp:536-572 | After a tick an active flag is set if and only if some tube, single or paired, still runs a command on that mix line |
| SceneRun.StepsOfTube | StageRunner/fx/fxsceneitem.cpp:541-544 | Over any number of passes single tubes fade independently of all others |
| SceneRun.FadedLine | StageRunner/fx/fxsceneitem.cpp:323-461 | A command on either mix line fades exactly that line of a tube; the other goes on |
| SceneRun.SceneCommandLasts | StageRunner/fx/fxsceneitem.cpp:283-316 | In figures, on either mix line: without a time of its own FADEIN takes the default fade-in time, FADEOUT the default fade-out time, BLACK none; a tube runs the command for a tick per 20 ms and is then at its target or at 0 |
| SceneRun.StepsOfPair | StageRunner/fx/fxsceneitem.cpp:541-544 | Over any number of passes both tubes of a pair follow the paired fade, on both mix lines |
| SceneRun.PairTakesCommand | StageRunner/fx/fxsceneitem.cpp:450-456 | A pair whose main tube is faded by the scene itself starts the paired fade |
| SceneRun.FadesIff | StageRunner/fx/fxsceneitem.cpp:323-456 | A command to a scene without pairs fades exactly the visible tubes that are no pan, tilt or speed channel and no fine channel behind one; all others keep their lines |
| SceneRun.PairsIff | StageRunner/fx/fxsceneitem.cpp:334-356 | It pairs exactly the visible coarse position channels with a fine one right behind them |
| SceneRun.ReleasedIff | StageRunner/fx/fxsceneitem.cpp:334-356 | and releases those that have lost it |
| SceneRun.CommandFlags | StageRunner/fx/fxsceneitem.cpp:283-316 | What a command does to stage flag, active flag and black-out memory of its mix line; the other line keeps its own |
| SceneRun.ExternFadeInStays | StageRunner/fx/fxsceneitem.cpp:303-307 | A scene faded in on the extern line stays active until another command |
| SceneRun.StepsOfIdlePair | StageRunner/system/dmxchannel.cpp:245-300 | The tubes of a pair stay as they are while their main tube is idle |
| SceneRun.FadeInStage | StageRunner/fx/fxsceneitem.cpp:551-561 | The stage flag at every pass of a fade-in from dark: set during the fade exactly if a tube without a position or special type of its own rises, afterwards exactly if a dimmer has a target above 0 or the fade was over with its first pass |
| SceneRun.FadeInCompletes | StageRunner/fx/fxsceneitem.cpp:272-483 | When the time is over every faded tube is at its target and nothing runs; the stage flag says whether some dimmer is above 0, with the exact exception of fades of one tick |
| SceneRun.FadeInActiveIff | StageRunner/appcontrol/lightloop.cpp:118-125 | Exactly after which passes a scene faded in from dark is still active |
| SceneRun.LightlessFadeInIsGivenUp | StageRunner/appcontrol/lightloop.cpp:174-176 | A scene without lit dimmers is given up at the end of a longer fade-in, with all its faded tubes at their targets |
| SceneRun.ColourStaysOnStage | StageRunner/fx/fxsceneitem.cpp:551-561 | A scene of one colour tube faded in within one tick stays on stage and active for ever, without any light |
| SceneRun.SceneFadeOutIff | StageRunner/fx/fxsceneitem.cpp:285-302 | FADEOUT and BLACK end with all faded tubes at 0, nothing running and both intern flags clear if and only if none of these tubes has a rising fade still at 0; moving tubes are left alone |
| SceneRun.FadeOutBy | StageRunner/fx/fxsceneitem.cpp:450-483 | and then by the end of its time |
| SceneRun.FadeToGoesToZero | StageRunner/fx/fxsceneitem.cpp:303-307 | FADETO given to a scene has no target of its own: every idle tube it fades goes to 0, or to a negative full value, by the end of its time |
| SceneRun.StaysRegular | StageRunner/fx/fxsceneitem.cpp:323-461 | Every command on either mix line and every pass leave the division into faded tubes and tubes left alone as it is |
| SceneRun.StaysLively | StageRunner/fx/fxsceneitem.cpp:272-483 | and keep the invariant of the lines |
| SceneRun.StagedIff | StageRunner/fx/fxsceneitem.cpp:473-474 | FADEIN leaves a scene on stage if and only if some dimmer, single or paired, is below its target |
| SceneRun.KeptIff | StageRunner/appcontrol/lightloop.cpp:190-235 | A pass keeps a scene active if and only if a fade runs in it, it is on stage live or extern, or it is on stage intern and stays so |
| SceneRun.LitSceneGivenUpIff | StageRunner/appcontrol/lightloop.cpp:122-125 | A pass gives a scene with a dimmer above 0 up if and only if nothing runs in it and it has no stage flag |
| SceneRun.LitFadeInGivesUpIff | StageRunner/fx/executer.cpp:530-533 | After FADEIN to a quiet lit scene the light loop at some time gives the scene up, with a dimmer still above 0, if and only if no dimmer was below its target |
| SceneRun.GivenUpBy | StageRunner/appcontrol/lightloop.cpp:174-176 | and then by the end of the fade time |
| SceneRun.SecondFadeInGivesUp | StageRunner/fx/executer.cpp:530-533 | The second of two FADEINs from dark starts nothing, changes no level, takes the stage flag away, and the next pass gives the scene up |
| SceneItems.FxSceneItem.InitSceneCommand | StageRunner/fx/fxsceneitem.cpp:272-483 | A command to a scene of tubes of any type: pairing, new fades, status flags, black-out memory and result |
| SceneItems.FxSceneItem.InitTubeCommands | StageRunner/fx/fxsceneitem.cpp:323-461 | The loop that pairs or releases tubes on its way gives every tube the role and fade that the scene as a whole determines, and knows whether a tube, and whether a dimmer, has started |
| SceneItems.FxSceneItem.PairTube | StageRunner/fx/fxsceneitem.cpp:334-356 | A coarse position tube is paired with a fine one behind it and released otherwise, the rest of the scene stays |
| SceneItems.FxSceneItem.KindIsByNumber | StageRunner/fx/fxsceneitem.cpp:331-332 | The type set on a tube counts, else the one of its channel in the universe layout |
| SceneFade.CommandPairs | StageRunner/fx/fxsceneitem.cpp:325-356 | Visiting the tubes one after the other leaves the roles that the whole scene determines |
| SceneItems.FxSceneItem.EvaluateOnStageIntern | StageRunner/fx/fxsceneitem.cpp:610-623 | True if and only if some dimmer is above 0 on the intern line |
| SceneItems.FxSceneItem.LoopFunction | StageRunner/fx/fxsceneitem.cpp:536-572 | One tick of all tubes, paired ones included, and the status flags after it |
| SceneItems.FxSceneItem.TickAllTubes | StageRunner/fx/fxsceneitem.cpp:541-544 | The loop ticks both mix lines of every tube, with the fine tube of a pair through its main tube, and knows whether one runs |
| SceneItems.FxSceneItem.GetClearStatusHasChanged | StageRunner/fx/fxsceneitem.cpp:654-661 | Reports a change since the last call and remembers the status |
| LightLoops.HtpIsMax | StageRunner/appcontrol/lightloop.cpp:222-224 | The merge is the maximum of the values at an address, 0 if there is none |
| LightLoops.HtpIgnoresOrder | StageRunner/appcontrol/lightloop.cpp:222-224 | It does not depend on order or repetition of the contributions |
| LightLoops.MergeIgnoresSceneOrder | StageRunner/appcontrol/lightloop.cpp:118-139 | nor on the order in which the scenes are visited |
| LightLoops.LightLoop.MergedByteIs | StageRunner/appcontrol/lightloop.cpp:118-139 | The byte merged at an address is the highest of all tubes there, 0 without any |
| LightLoops.LightLoop.ByteReadsBothLines | StageRunner/appcontrol/lightloop.cpp:204-217 | The byte of a tube comes from the higher of its two mix lines and from its own scaler or that of the layout |
| LightLoops.LightLoop.FadedByteIsMerged | StageRunner/appcontrol/lightloop.cpp:190-225 | A tube alone at its address, faded to byte d on either mix line with the other no higher: the byte merged there is d if and only if d survives |
| LightLoops.LightLoop.MergeTube | StageRunner/appcontrol/lightloop.cpp:198-224 | The byte of a tube is stored and merged by maximum at its address, other addresses stay |
| LightLoops.LightLoop.MergeTubes | StageRunner/appcontrol/lightloop.cpp:197-225 | The loop over the tubes refines the maximum over their contributions |
| LightLoops.LightLoop.ProcessFxSceneItem | StageRunner/appcontrol/lightloop.cpp:190-235 | A scene is ticked and merged; the result is its visibility |
| LightLoops.LightLoop.PassSceneAmong | StageRunner/appcontrol/lightloop.cpp:118-139 | Passing one scene leaves state, contributions and visibility of all others alone |
| LightLoops.LightLoop.PassScenes | StageRunner/appcontrol/lightloop.cpp:118-139 | All scenes take one step, the output is the maximum over all of them, and the invisible ones are listed |
| LightLoops.LightLoop.ClearOutput | StageRunner/appcontrol/lightloop.cpp:90-92 | The temporary output is 0 |
| LightLoops.LightLoop.Publish | StageRunner/appcontrol/lightloop.cpp:161-170 | The published universes equal the merge; a changed flag is raised if and only if a byte differs |
| LightLoops.LightLoop.SetSceneActive | StageRunner/system/lightcontrol.cpp:248-255 | A scene is entered unless it is there already; the result says which |
| LightLoops.LightLoop.SetSceneIdle | StageRunner/system/lightcontrol.cpp:265-271 | The scene is out, all others keep their places; the result says whether it was there |
| LightLoops.VisibleStay | StageRunner/appcontrol/lightloop.cpp:174-176 | Once the scenes reported as inactive are taken out, exactly the visible ones are left |
| LightLoops.LightLoop.ProcessPendingEvents | StageRunner/appcontrol/lightloop.cpp:72-182 | After a pass over the active and the permanent scenes, with pairs or without, every published byte is the maximum over all their tubes, changed flags tell exactly the universes that changed, every scene took one step, exactly the visible ones are still active, and the next pass can follow |
| FxItems.NextId | StageRunner/fx/fxitem.cpp:121-125 | Counting up ends, with an id that nobody uses and below which, from the start of the search on, all are used |
| FxItems.NextIdIsTheOnlyOne | StageRunner/fx/fxitem.cpp:121-125 | This least unused id is unique |
| FxItems.FxRegistry.InitGenerateId | StageRunner/fx/fxitem.cpp:90-126 | The search ends with it, after the item has dropped its own id |
| FxItems.FxRegistry.GenerateNewID | StageRunner/fx/fxitem.cpp:302-308 | The item gets the least id unused by others, by default searched from its present one |
| FxItems.NewIdsAreFresh | StageRunner/fx/fxlist.cpp:365-372 | New ids of a list are used by nobody else and strictly increase |
| FxItems.NewIdsLeaveNoGap | StageRunner/fx/fxlist.cpp:365-372 | No unused id between the start of the search and a new id is left out |
| FxItems.NewIdsAreConsecutiveIff | StageRunner/fx/fxlist.cpp:365-372 | They are from, from + 1, … if and only if nobody else has one of these |
| FxItems.AsRequestedIff | StageRunner/fx/fxlist.cpp:367-371 | The reported result is true if and only if a positive start was requested and its interval is free |
| FxLists.FxList.RecreateFxIDs | StageRunner/fx/fxlist.cpp:357-375 | The items get exactly these ids, the ids of all other items stay, and the result is as specified |
| FxLists.FollowerOfForerunner | StageRunner/fx/fxlist.cpp:405-452 | Follower and forerunner are inverse, with and without turnover |
| FxLists.FxList.FindSequenceFollower | StageRunner/fx/fxlist.cpp:405-424 | The entry behind the first occurrence of the item, or of the next one of the list if none is given; the first one at turnover, none for a short list |
| FxLists.FxList.FindSequenceForerunner | StageRunner/fx/fxlist.cpp:433-452 | The entry before it, or before the previous one of the list; the last one at turnover |
| SequenceMachine.Pick | StageRunner/fx/fxlist.cpp:454-487 | Whatever the random source returns, the choice is an unplayed item, and there is none if and only if all are played |
| SequenceMachine.PickIs | StageRunner/fx/fxlist.cpp:454-487 | It is the first unplayed item among 1000 random ones, else the first unplayed one of the list |
| SequenceMachine.FollowerIs | StageRunner/fx/fxlist.cpp:405-424 | The entry behind the first occurrence, at the end the first one at turnover, none for a short list |
| FxLists.FxList.FindSequenceRandomFxItem | StageRunner/fx/fxlist.cpp:454-487 | Up to 1000 tries and a search make this choice and mark exactly the chosen item |
| FxLists.FxList.ResetFxItems | StageRunner/fx/fxlist.cpp:812-819 | All items but the one to be skipped are off |
| FxLists.FxList.ResetFxItemsForNewExecuter | StageRunner/fx/fxlist.cpp:821-827 | No item counts as played |
| SequenceRun.EveryRunPlaysAll | StageRunner/fx/executer.cpp:408-473 | In list order without repeated items, or at random, a run plays every item once in each of max(1, loopTimes) passes and ends; each item gives all cues from its state on, which is Off except for scenes in a first random pass; for all times, 0 and negative ones included |
| SequenceRun.FirstPassIsWholeIff | StageRunner/fx/execcenter.cpp:139-153 | The first pass, too, gives all cues of all items if and only if the list is played in order or every item that is no audio is Off |
| SequenceRun.HeldSceneIsNotFadedIn | StageRunner/fx/execcenter.cpp:139-153 | A new random run of a scene that an earlier run left in Hold plays it without ever fading it in |
| SequenceRun.EmptyListEnds | StageRunner/fx/executer.cpp:450-467 | An empty list in list order ends at once, however often it is to be repeated |
| SequenceRun.Order | StageRunner/fx/executer.cpp:417-419 | Random picks go on until all unplayed items have come, none twice |
| SequenceRun.PassIsPermutation | StageRunner/fx/executer.cpp:417-419 | A random pass is a permutation of the list |
| SequenceRun.ItemRuns | StageRunner/fx/executer.cpp:291-310 | An item gives all its cues before the next one becomes current |
| SequenceRun.PassRuns | StageRunner/fx/executer.cpp:408-467 | From any current item on a pass gives all cues of all items to come and then wraps up |
| SequenceRun.ListRunEndsIff | StageRunner/fx/fxlist.cpp:405-424 | In list order a run ends if and only if no item is in the list twice |
| SequenceRun.CyclesForEver | StageRunner/fx/fxlist.cpp:414-418 | In front of the second entry of an item the list is never left |
| SequenceRun.ChosenIsNext | StageRunner/fx/executer.cpp:412-416 | An item chosen by the user becomes the next one, once; in list order the pass goes on behind it and all others begin anew |
| SequenceRun.ChosenRuns | StageRunner/fx/executer.cpp:408-473 | The current item still gives all its cues, then come the chosen one and all behind it |
| SequenceCalls.CallFollowsPlay | StageRunner/fx/executer.cpp:266-315 | A call plays the next turns, at least one, and stops only at a cue that takes time or at the end |
| SequenceCalls.ReturnsThroughout | StageRunner/fx/executer.cpp:291-310 | In a run that ends no call ever hangs, even if all cue times are 0 |
| SequenceCalls.CallsFollowPlay | StageRunner/appcontrol/execloop.cpp:77-85 | However the calls fall, the turns of the run are played in order, none left out or repeated |
| SequenceCalls.CallsPlayAll | StageRunner/appcontrol/execloop.cpp:77-85 | As many calls as turns surely play the whole run |
| SequenceCalls.EveryPlaybackEnds | StageRunner/fx/executer.cpp:266-315 | Played in calls, a new sequence gives exactly the cues of these max(1, loopTimes) passes and ends |
| SequenceTime.SceneCues | StageRunner/fx/executer.cpp:508-556 | A scene waits, fades in, holds, fades out and waits, with these times and commands; with delay -1 only its own executer is started |
| SequenceTime.AudioCues | StageRunner/fx/executer.cpp:558-607 | Audio is started exactly once and faded out after its hold time |
| SequenceTime.AnySceneCues | StageRunner/fx/executer.cpp:508-556 | The same for all times: a negative one ends the item |
| SequenceTime.AnyAudioCues | StageRunner/fx/executer.cpp:558-607 | Audio for all times; a hold time of 0 waits 1000 s |
| SequenceTime.OtherCues | StageRunner/fx/executer.cpp:480-501 | Any other item is over at once |
| SequenceTime.RunTime | StageRunner/fx/executer.cpp:291-312 | The target time moves by the sum of the cue times; the cue that ends the run counts with its negative time |
| SequenceTime.SceneTime | StageRunner/fx/fxitem.cpp:395-410 | The time one scene schedules, and when it is the announced one |
| SequenceTime.PassTimeIsAnnouncedIff | StageRunner/fx/executer.cpp:242-260 | A pass of scenes schedules at least the announced time, and exactly it if and only if every scene is on schedule, which all scenes with non-negative delay are |
| SequenceTime.RunTimeIsAnnouncedIff | StageRunner/fx/executer.cpp:242-312 | The whole run of a new list of different scenes takes at least max(1, loopTimes) times the announced time less 1 ms, and exactly that if and only if every scene is on schedule |
| SequenceExecuters.FxListExecuter.constructor | StageRunner/fx/execcenter.cpp:139-153 | A new executer stands before the list with no item played |
| SequenceExecuters.FxListExecuter.CalculateSeqExecutionTime | StageRunner/fx/executer.cpp:242-260 | The sum of the announced times, kept once it is known |
| SequenceExecuters.FxListExecuter.MoveToNextFx | StageRunner/fx/executer.cpp:408-473 | The item chosen by the user, the next item, or the first one of another pass with everything reset, or the end |
| SequenceExecuters.FxListExecuter.SelectNextFx | StageRunner/fx/executer.cpp:609-613 | The choice is remembered and nothing else changes |
| SequenceExecuters.FxListExecuter.SetCurrentFx | StageRunner/fx/executer.cpp:212-223 | A new current item is prepared; an unchanged one is not |
| SequenceExecuters.FxListExecuter.CueCurrentFx | StageRunner/fx/executer.cpp:480-501 | One cue of the current item: its new state, time and order to light or audio; no other item changes |
| SequenceExecuters.FxListExecuter.CueFxScene | StageRunner/fx/executer.cpp:508-556 | The cue machine of scenes |
| SequenceExecuters.FxListExecuter.CueFxAudio | StageRunner/fx/executer.cpp:558-607 | The cue machine of audio items |
| SequenceExecuters.FxListExecuter.ProcessExecuter | StageRunner/fx/executer.cpp:266-315 | A call before its time does nothing; a due call gives exactly the turns of a call and adds their time to the target time |

## Left out

- The user interface, project files, the TCP remote, plugins, the audio and video backends: input and output.
- Clocks, timers, mutexes and signals: a loop callback is one atomic step, and the run time is a parameter.
- Life cycle of executers (delete later, removal from the executer list), pausing of the run time.
- Rounding of `float` and overflow of 32-bit integers: fades are computed in reals and truncated, other numbers are unbounded.
- Parsing of single script lines, item names and parameters, and the commands behind a line (executeDMX, executeFix and others): a line is already parsed, other commands are opaque effects. `setRawScript`, which turns line breaks into separators, is applied before.
- ScriptExecuters.ScriptExecuter.ProcessExecuter: asks that the call returns at all, because a busy LOOP does not; ScriptPlayback and ScriptBusyLoops say when it does. In state Finish a call just reports the end.
- ScriptBusyLoops.SomeCallHangsIff: for scripts whose jumps go backward. With forward jumps a LOOP without count may be skipped in some rounds and not in others; there BusyLoop and ScriptPlayback.CallReturns are what is known.
- SequenceExecuters.FxListExecuter.ProcessExecuter: asks that the call returns at all, because a list that holds an item twice can keep it busy; SequenceCalls proves it for all other lists. Items are assumed to exist during the run, and their times not to be edited.
- SequenceExecuters.FxListExecuter.SelectNextFx: the chosen item is one of the list.
- SequenceExecuters.FxListExecuter.CueFxAudio: messages of the audio unit that end the wait for audio early are not modelled: they move the target time, and after an error they skip to the next item or end the executer.
- SequenceMachine.Pick: an empty list is excluded, since the code takes a remainder by the list size.
- FxLists.FxList.RecreateFxIDs: the list holds no item twice and all items are in the global list, which their construction sees to.
- SceneItems.FxSceneItem.InitSceneCommand: the fades that pan, tilt and speed tubes start in the hidden scanner scene of their universe are not part of this model, nor is the progress channel of a scene. The partner of a main tube is the next tube and subordinate, as the pairing of a scene makes it; scanner scenes whose channels were paired by overlapping layouts are not covered.
- SceneRun.SceneFadeOutIff, SceneRun.FadeInStage: for scenes whose pairs, if any, are idle on the intern line, as they are in all scenes that only commands have paired, since those leave moving tubes alone (SceneRun.StaysRegular).
- `initFadeScannerCmd`, `directFadeToDmx`, `setTubeCount` and the allocation of tube ids and channels: they add cases without harder properties.
- LightLoops.LightLoop.ProcessPendingEvents: the hash of active scenes is a list in some order, of different scenes that share no tube; every tube addresses an existing channel and is scaled without a division by zero, as the code takes for granted; deleted scenes, the deletion of temporary ones and sending the data to the output devices are left out.
- TimelineExecuters.TimeLineExecuter.ProcessExecuter: what an event does to the linked item and what an envelope tick does to audio slots is an opaque action; a curve track without object counts as missing its object, as its error message intends.
- TimelineEvents.BuiltListIsSorted: for objects with non-negative begin, length and fade-out time of the linked item.
