# A model of the BGP peering agent

The agent runs on a DN42 router. It drives tunnels, BIRD configuration files and BGP sessions towards
a list kept by a center, measures the links, and reports back. This project models the parts that
hold state or run protocols, as Dafny classes, state machines and functions, and proves what they
keep over every run:

- `SessionSync`, `SessionHandling`, `SessionSyncTheorems`, `SessionResources`: the reconciliation of local sessions,
  kernel interfaces and BIRD files with the center's list. The world outside is a map of interfaces, a
  map of files (each to the session record it was last set up with), and the calls made; whether each
  operation succeeds is an input.
- `BirdConfig`, `Decimal`: the two generators of a session's BIRD file and the collector that queries
  the protocols by name. A rendered template is a record per protocol block.
- `BirdDial`, `BirdPool`, `BirdPoolSteps`: dialling the BIRD control socket with backoff; the pool of
  connections as a class with whole-method steps; the same pool as interleaved steps of many callers
  and the maintenance loop.
- `RttTracker`, `LatencyCommunity`, `FilterUpdater`: round-trip measurements with failover between
  protocols, sliding windows, the loss penalty and the logarithmic latency bands, and the periodic
  rewriting of all files with them. Averages, losses and logarithms are over the reals.
- `ProbePacket`, `ControlReply`: the binary probe packet with a decoder, and the reader of BIRD control
  replies with the format the daemon writes.
- `WorkerPool`: the metric collector's channels and workers as interleaved steps.
- `PortReservation`: the table of reserved ports shared by two allocators.

What the network, the kernel, the clock, random numbers and library parsers do is a parameter of the
operation that meets it, quantified over in every statement.

## What the proofs found

- A lost report matters only if it names another status than the one the center lists. If the session
  is then listed as before, the next sync makes some call for it unless it was first seen, valid, queued
  for deletion (`LostReportIsRetried`); it reports on it again unless that, or unless it is listed as
  DELETED; and a session first seen queued for deletion is never reported on again in any run
  (`LostReportFate`). A second sync is quiet exactly when no other report with news was lost
  (`SecondSyncQuietIff`).
- Removals come after set-ups. A session that ends ENABLED keeps its interface and file exactly when
  no session removed in the same sync has the same sanitised name (`EnabledSurvivesRemoval`). A renamed
  session leaves its old interface and file exactly if its new record is valid and neither off nor queued
  for deletion, or the deletion fails (`RenameKeepsOldInterface`, `RenameKeepsOldFile`).
- Without a loaded template the configurer has already removed the file when it fails; the filter
  updater keeps it. In every other case the two generators agree (`UpdateAtZeroIsConfigure`).
- Protocol names of different blocks coincide exactly when one sanitised interface name is the other's
  plus `_v4` or `_v6` (`NamesCollide`).
- `Close` ends exactly when some entry is idle (`CloseEndsIff`); so opening a pool hangs exactly when its
  first connection cannot be made (`BirdPool.BirdPool.Open`).
- The channel-full branch of a release is reachable exactly if the pool may grow and more callers than
  the channel holds may be at work at once, `poolSize < poolSizeMax < callers` (`OverflowsIff`). A caller
  can be handed an entry that maintenance has just closed exactly if `poolSize < poolSizeMax` and
  `poolSize < callers` (`HoldsReapedIff`). Neither happens while maintenance keeps out of the windows of
  other calls (`CalmNeverOverflows`).
- The documented latency bands and the code differ at 55, 1097 and 2981 ms and nowhere else
  (`DiffersFromDocumented`). A link that always answers in under a millisecond has no community, although
  a round-trip time of 0 alone maps to community 1 (`ZeroWindow`).
- The community of a session may fall although times grow. Between any two windows and losses it falls
  exactly if the penalised mean of the later one is below the start of a band the earlier time had
  reached, or the later one has no success and the earlier has (`CommunityFallsBetweenIff`), and so after
  one more measurement (`MeasurementLowersCommunityIff`). A new success lowers the penalised mean exactly
  if it is below the mean of the others (`AddedSuccessLowersIff`); 100 ms joined by 2 ms is such a case
  (`GrowthMayLower`, `SlowerMayLower`).
- Ports are reserved for 300 seconds of whole-second clock readings: two grants of a port are more than
  299 seconds apart (`GrantsApart`), and surely 300 exactly if the first fell on a whole second
  (`WaitsInFullIff`).
- A negative number of configured workers starts none, and nothing is collected (`NoWorkers`).
- A reader's buffer may take bytes after the reply from the socket, and they are lost with it
  (`ControlReply.BirdConn.Read`); nothing is lost while the daemon only speaks when asked
  (`ControlReply.BirdConn.Exchange`).

## Model

| member | source | states |
|---|---|---|
| SessionSync.Agent.ConfigureSession | src/session.go:60-76 | sets up interface then file, tied to `Configure`: the interface survives a failing file; the old file goes before the new one is made |
| SessionSync.Agent.DeleteInterface | src/session.go:363-385 | an absent link is an error only if interfaces cannot be listed |
| SessionSync.Agent.DeleteSession | src/session.go:79-100 | removes link and file, each even when the other fails |
| SessionSync.Agent.CheckAndValidate | src/task_session_sync.go:625-638 | an invalid session becomes TEARDOWN with one report; one torn down is not validated |
| SessionSync.Agent.ProcessNewSession | src/task_session_sync.go:199-277 | what is stored, called and reported for an unknown session, as `New`; what that is for each status is `SetUpHandled`, `DeleteHandled`, `OffHandled`, `RefusedHandled` |
| SessionSync.Agent.ProcessChangedSession | src/task_session_sync.go:280-380 | likewise for a known session, as `Changed`, with the early return for an equal record and the exemption of torn-down sessions being deleted |
| SessionSync.Agent.ProcessRemoteSessions | src/task_session_sync.go:443-457 | the loop over the fetched list builds the next local map in list order |
| SessionSync.Agent.ProcessDeletedSessions | src/task_session_sync.go:459-464 | removes what is no longer listed, in whatever order |
| SessionSync.Agent.SyncSessions | src/task_session_sync.go:423-470 | one sync is the function `Sync`; a failed fetch changes nothing |
| SessionHandling.SetUpHandled | src/task_session_sync.go:243-380 | a valid session that is new or changed and has status 2, 4 or 6 is set up once and reported once; it ends ENABLED exactly if every step of link and file succeeds, PROBLEM otherwise; what each leaves of link and file |
| SessionHandling.DeleteHandled | src/task_session_sync.go:264-340 | a session queued for deletion is never set up; a changed one is removed and ends DELETED, a new one only if its report arrives |
| SessionHandling.OffHandled | src/task_session_sync.go:199-340 | a changed session that is DISABLED, DELETED or TEARDOWN is removed without a report; a new one, and any other status, causes nothing |
| SessionHandling.RefusedHandled | src/task_session_sync.go:625-638 | a session that fails validation becomes TEARDOWN with one report and loses what it had; an unchanged record is left alone |
| SessionHandling.InvalidIff | src/task_session_sync.go:472-623 | validation fails exactly for one of the faults listed |
| SessionSyncTheorems.RunWellKept | src/task_session_sync.go:423-470 | after any run the keys are the UUIDs last fetched, none is QUEUED_FOR_SETUP, and all but TEARDOWN and DELETED ones pass validation, with MTU in 1280..9999 and ASN in 1..2^32-1 |
| SessionSyncTheorems.RemoteReports | src/task_session_sync.go:199-380 | processing a session makes at most one report, about it; a delivered one names its final status, and without one the status is unchanged |
| SessionSyncTheorems.ReportNamesStatus | src/task_session_sync.go:199-380 | a report names the status the session ends with, exactly unless it is lost for a valid session first seen queued for deletion |
| SessionSyncTheorems.NewsLostMeans | src/task_session_sync.go:199-380 | from the record, the local record and the outcomes alone: when a report with a status new to the center is lost |
| SessionSyncTheorems.RecordedAt | src/task_session_sync.go:423-470 | after a sync the center's record of a session equals the local one exactly if its last report arrived or its status did not change |
| SessionSyncTheorems.LostReportIsRetried | src/task_session_sync.go:280-380 | after a lost report with news the next handling of the same record makes a call exactly unless the session was first seen queued for deletion, and a report exactly unless that or it is listed as DELETED |
| SessionSyncTheorems.SecondSyncQuietIff | src/task_session_sync.go:199-380 | a second sync makes no call exactly when no report with news was lost but for sessions first seen queued for deletion, and then changes nothing |
| SessionSyncTheorems.SyncReachesFixedPoint | src/task_session_sync.go:199-380 | with distinct UUIDs and delivered reports, a second sync is the identity, for every start and every outcome of configuring and deleting |
| SessionSyncTheorems.LostDeleteReport | src/task_session_sync.go:264-269 | a new session queued for deletion whose report is lost is stored unchanged |
| SessionSyncTheorems.LostDeleteReportIsFinal | src/task_session_sync.go:280-290 | a session stored as the center lists it is never reported on while it is listed unchanged |
| SessionSyncTheorems.LostReportFate | src/task_session_sync.go:199-380 | over whole syncs: whether the next one reports on the session again, and that one first seen queued for deletion is not reported on in any later run |
| SessionResources.StepConsistent | src/task_session_sync.go:199-380 | processing one session keeps: ENABLED has both resources with its own record, DISABLED, DELETED and TEARDOWN have neither, each resource has a local owner |
| SessionResources.SyncConsistent | src/task_session_sync.go:423-470 | a whole sync keeps it, if names are distinct and stable and deletes succeed |
| SessionResources.RunConsistent | src/task_session_sync.go:423-470 | so does every run of syncs, with names that may change from sync to sync |
| SessionResources.FromCleanStart | src/task_session_sync.go:423-470 | from a clean start with one name per UUID it holds after every run |
| SessionResources.EnabledSurvivesRemoval | src/task_session_sync.go:443-464 | a session that ends ENABLED holds its resources exactly when no session removed in that sync shares its sanitised name |
| SessionResources.ReusedNameLosesResources | src/task_session_sync.go:443-464 | a name handed from a removed to a new session leaves the new one ENABLED with nothing, all operations succeeding |
| SessionResources.RenameKeepsOldInterface | src/task_session_sync.go:280-380 | the exact condition under which a renamed session's old interface stays, for every status and outcome, and that it stays as it was |
| SessionResources.RenameKeepsOldFile | src/task_session_sync.go:280-380 | likewise for its old file, if the names differ after sanitising |
| Decimal.ParseInvertsRender | src/session.go:415-416 | reading back the decimal rendering of an ASN gives the ASN |
| Decimal.FirstSeparator | src/session.go:415-416 | the parts around the first separator are determined by the whole name |
| BirdConfig.PeerConfDir.GenerateMultiProtocol | src/session.go:453-484 | writes the multi-protocol block, or nothing without a neighbour address or when rendering fails |
| BirdConfig.PeerConfDir.GenerateTraditional | src/session.go:486-541 | writes the IPv6 then the IPv4 block; a failing second leaves the first |
| BirdConfig.PeerConfDir.ConfigureBird | src/session.go:387-435 | removes the old file first, then writes the reference block list with latency 0 |
| BirdConfig.PeerConfDir.UpdateBirdConfig | src/task_filter_params_updater.go:203-335 | checks the template before removing the file, then writes the reference block list with the given community |
| BirdConfig.QueriedNames | src/task_metric.go:158-208 | the names queried, written out, which are those of the reference block list in order |
| BirdConfig.UpdateAtZeroIsConfigure | src/task_filter_params_updater.go:203-335 | with community 0 both generators do the same to the directory, error cases included, exactly unless the template is missing and the file could be removed |
| BirdConfig.EmittedNames | src/session.go:415-541 | the blocks written carry the expected names in order, all of them exactly on success |
| BirdConfig.FileMatchesQueries | src/task_metric.go:158-208 | for both generators, block names in the file are a prefix of the queried names, and equal exactly when generation succeeds |
| BirdConfig.FileSays | src/session.go:387-555 | for both generators: the block named with _v4 is for IPv4 only with the IPv4 neighbour, that named with _v6 for IPv6 only with the link-local address and interface before the IPv6 one, a multi-protocol one for both with the first address; extended next hop, ASN, source and interface; the five fields of both filters |
| BirdConfig.UpdateSucceedsIff | src/task_filter_params_updater.go:203-335 | either generator succeeds exactly if every operation it needs does and a multi-protocol session has an address |
| BirdConfig.GenerationFails | src/session.go:453-555 | with every file and template operation good, generation fails exactly for a multi-protocol session without an address |
| BirdConfig.NameParts | src/session.go:415-541 | names are equal exactly if the ASNs and the suffixed sanitised interfaces are |
| BirdConfig.NamesCollide | src/session.go:415-541 | the exact condition under which names of different blocks coincide |
| BirdConfig.NamesInjective | src/session.go:415-541 | away from interfaces ending in _v4 or _v6 a name determines ASN, sanitised interface and kind |
| BirdConfig.FilterParamsInjective | src/task_filter_params_updater.go:120-122 | the five numbers are determined by a filter parameter string |
| BirdConfig.FilterFields | src/task_filter_params_updater.go:120-122 | split at its commas the string is latency, bandwidth, security, policy and probe flag, in this order |
| BirdDial.BackoffAfter | src/bird/bird.go:145-158 | after k failures the doubling with its cap is min(2^(k-1), 30) seconds, between 1 and 30 seconds |
| BirdDial.Dialer.WaitForDialWindow | src/bird/bird.go:128-143 | returns at the later of now and the last failure plus the backoff, which is within 30 seconds |
| BirdDial.Dialer.RecordDialFailure | src/bird/bird.go:145-158 | keeps backoff and failure time in step with the history of dials |
| BirdDial.ConnectedMeans | src/bird/conn.go:96-126 | with a one-line banner and reply, a dial connects exactly if it is accepted and the reply confirms restricted mode |
| BirdDial.NewBirdConnection | src/bird/conn.go:113-126 | an accepted connection has its banner read |
| BirdDial.RequestRestriction | src/bird/bird.go:186-196 | restricted exactly if the daemon's reply confirms it |
| BirdDial.Dialer.DialOnce | src/bird/bird.go:169-198 | one dial, at the earliest time the backoff allows and as long as it takes: a failed restriction closes the connection and counts as a failure after a reset |
| BirdDial.Dialer.CreateConnection | src/bird/bird.go:167-201 | at most connectionMaxRetries dials, each as soon as the retry delay and the backoff are over; a connection, open and restricted, exactly when the first dial not refused connects; a failed restriction is not retried |
| BirdPool.SurvivesIff | src/bird/bird.go:349-375 | maintenance drops an entry exactly if it is idle, stale and preceded by enough that are kept |
| BirdPool.EnoughSurvive | src/bird/bird.go:349-375 | at least poolSize entries are kept |
| BirdPool.LateSurvivors | src/bird/bird.go:361-372 | a kept entry past position poolSize is in use or was used within five minutes |
| BirdPool.DroppedIff | src/bird/bird.go:349-375 | so maintenance drops exactly the entries past position poolSize that are idle and stale |
| BirdPool.FilterAt | src/bird/bird.go:352-375 | kept entries keep their order |
| BirdPool.FilterElements | src/bird/bird.go:352-375 | the new pool holds exactly the kept entries, each once |
| BirdPool.BirdPool.MaintenancePass | src/bird/bird.go:349-377 | the pool keeps the survivors in order; dropped are exactly those past poolSize, idle and unused for over five minutes, and they are closed and disconnected |
| BirdPool.BirdPool.GetConnection | src/bird/bird.go:203-239 | the entry returned was not lent, is open and restricted, and is either the idle head or new in the pool; a caller gets one exactly if the idle head is connected, or the pool has room and a dial connects; at a full pool it gets none only if every member is lent, and goes on to wait |
| BirdPool.BirdPool.WaitForConnection | src/bird/bird.go:241-262 | a caller waiting at a full pool gets the first entry another borrower gives back in time, usable; without one, or after shutdown, none |
| BirdPool.BirdPool.ReleaseConnection | src/bird/bird.go:265-294 | the entry goes to the end of the channel, which always has room, marked as used now; after shutdown its connection is closed instead |
| BirdPool.BirdPool.SwapConnection | src/bird/bird.go:402-412 | a reconnected entry gets the new connection and the old one is closed |
| BirdPool.BirdPool.WithConnection | src/bird/bird.go:383-424 | runs once exactly if the idle head is connected or a connection can be made in a pool with room, twice exactly if also the first run fails and a reconnect succeeds; on which connections; the entry is back at the end of the channel with the last of them |
| BirdPool.BirdPool.Open | src/bird/bird.go:87-126 | all poolSize entries idle exactly if all connections can be made; still closing after any number of rounds exactly if the first cannot; otherwise closed and empty |
| BirdPool.BirdPool.Close | src/bird/bird.go:297-339 | whether the drain loop has ended after a number of rounds; if so every connection of the pool is closed and it is empty; a second call changes nothing |
| BirdPool.CloseEndsIff | src/bird/bird.go:310-329 | closing ends exactly if some entry is idle, within as many rounds as there are idle entries |
| BirdPool.AnySequence | src/bird/bird.go:87-424 | over any sequence of calls, with any time between them, on a pool as opened: no entry is held twice, idle plus held fits the channel, the pool is bounded, and what is held is open and restricted; opening succeeds exactly if every dial does |
| BirdPoolSteps.ExclusiveStep | src/bird/bird.go:203-294 | each step of any caller or of maintenance keeps single ownership and the size bound, with the receive apart from the mark |
| BirdPoolSteps.AlwaysExclusive | src/bird/bird.go:203-294 | in every interleaving no two callers hold one entry and the pool stays within poolSizeMax |
| BirdPoolSteps.CirculationStep | src/bird/bird.go:203-294 | calm steps keep every connected entry in circulation a pool member |
| BirdPoolSteps.CalmNeverOverflows | src/bird/bird.go:203-294 | if maintenance reaps only outside the callers' windows, no release finds the channel full and what is held is a connected member, in any interleaving of callers |
| BirdPoolSteps.OverflowsIff | src/bird/bird.go:287-293 | some run reaches the channel-full branch exactly if poolSize < poolSizeMax < callers |
| BirdPoolSteps.HoldsReapedIff | src/bird/bird.go:203-214 | in some run a caller holds an entry closed by maintenance exactly if poolSize < poolSizeMax and poolSize < callers |
| RttTracker.WindowStep | src/task_rtt.go:115-129 | appending and dropping one keeps the window of the last measurements, for every limit |
| RttTracker.WindowsMatch | src/task_rtt.go:115-129 | both windows have length min(n, limit) and hold the last measurements in step |
| RttTracker.PreferredIsLastSuccess | src/task_rtt.go:110-113 | the preferred protocol is that of the most recent success, absent exactly if there was none |
| RttTracker.AvgLossBounds | src/task_rtt.go:134-148 | the average loss of the window lies in 0..1 |
| RttTracker.MeanBounds | src/task_rtt.go:137-148 | the mean of losses in 0..1 is in 0..1 and times the count is their sum |
| RttTracker.MeanGrows | src/task_rtt.go:137-148 | each loss counts in full and all alike: what one more does to the mean |
| RttTracker.CalculateAvgLossRate | src/task_rtt.go:137-148 | the loop computes the mean, 0 for none |
| RttTracker.RTTTracker.Record | src/task_rtt.go:108-134 | the tracker shows the history extended by the new measurement |
| RttTracker.RttTask.UpdateRTTTracker | src/task_rtt.go:91-135 | exactly one sample is added to the session's history and every tracker shows its own |
| RttTracker.RttTask.PingRTT | src/task_rtt.go:151-182 | fewer packets exactly within ten minutes of a remembered failure; the cache remembers failures, answers within a millisecond among them, and forgets the others |
| RttTracker.PacketsDue | src/task_rtt.go:151-182 | after any pings an address gets the smaller number of packets exactly if its last ping failed less than ten minutes ago |
| RttTracker.RttTask.AttemptOrder | src/task_rtt.go:34-54 | the preferred protocol first, the others only after a failure |
| RttTracker.OrderWritten | src/task_rtt.go:34-54 | the order of the attempts written out for every history |
| RttTracker.RttTask.MeasureRTT | src/task_rtt.go:28-88 | stores the first answer in the order, or one failure; each configured protocol pinged at most once, in order |
| RttTracker.OrderOnce | src/task_rtt.go:34-54 | no protocol occurs twice among the attempts |
| RttTracker.SampleMeans | src/task_rtt.go:56-88 | a success stores a configured protocol of the order and what it answered |
| RttTracker.MeasurementRecorded | src/task_rtt.go:56-88 | every measurement leaves a failure or a success with its protocol |
| RttTracker.FirstAnswerIff | src/task_rtt.go:56-88 | the attempts succeed exactly if some protocol answers in its turn, with the number of packets due then |
| RttTracker.FirstInTurn | src/task_rtt.go:56-88 | the first protocol that answers in its turn is the one recorded, with its answer |
| RttTracker.SucceedsIff | src/task_rtt.go:28-88 | exactly when a measurement succeeds: after a success if that protocol answers now, otherwise if one of all protocols answers in its turn |
| RttTracker.SteadySucceedsIff | src/task_rtt.go:28-88 | where answering does not depend on the number of packets, it comes down to which configured addresses answer |
| RttTracker.TwoRounds | src/task_rtt.go:28-88 | if one address answers throughout two consecutive calls, one of them succeeds, whatever happened before |
| RttTracker.RttTask.GetRTTValue | src/task_rtt.go:426-436 | the last time and the mean of the loss window, or -1 and full loss |
| RttTracker.RttTask.CleanupTrackers | src/task_rtt.go:346-352 | forgets exactly the sessions that are gone |
| RttTracker.RttTask.CleanupCache | src/task_rtt.go:355-360 | forgets exactly the failures older than twelve hours |
| LatencyCommunity.CalculateEffectiveRTT | src/task_filter_params_updater.go:47-79 | the two loops compute the penalised mean of the positive entries |
| LatencyCommunity.PenaltyExact | src/task_filter_params_updater.go:47-79 | the result is the integer part of total / count * (1 + 2 * loss) over the positive entries, and of three times their mean with full loss |
| LatencyCommunity.LossRaises | src/task_filter_params_updater.go:71-78 | 100 ms count as 160 ms with 30% loss, one community up, and as 300 ms with full loss |
| LatencyCommunity.EffectiveBounds | src/task_filter_params_updater.go:47-79 | over a non-empty window -1 exactly if no entry is positive, otherwise between 1 and three times the largest |
| LatencyCommunity.EffectiveMonotone | src/task_filter_params_updater.go:47-79 | never falls as losses grow or successes get slower |
| LatencyCommunity.PenaltyOrder | src/task_filter_params_updater.go:66-78 | for the same loss one penalised mean is below another exactly if the mean is |
| LatencyCommunity.AddedSuccessLowersIff | src/task_filter_params_updater.go:47-79 | for all windows and losses: a first success raises the effective time, a further one lowers the penalised mean exactly if it is below the mean of the others, and when the whole time falls |
| LatencyCommunity.CommunityFallsIff | src/task_filter_params_updater.go:83-118 | the community of a time is lower than another's exactly if a band starts between them |
| LatencyCommunity.CommunityFallsBetweenIff | src/task_filter_params_updater.go:47-118 | for any two non-empty windows and losses, the exact condition under which the second has the lower community |
| LatencyCommunity.MeasurementLowersCommunityIff | src/task_rtt.go:91-135 | the tracker's own step: the windows after one more measurement, and exactly when the session's community is then lower |
| LatencyCommunity.AddedSuccessLowersCommunityIff | src/task_filter_params_updater.go:47-118 | for one entry of the window turning into a success at the same loss, the condition in terms of the mean of the others |
| LatencyCommunity.SlowerMayLower | src/task_filter_params_updater.go:47-118 | an input where every time grows, the loss stays and the community falls: from 0 and 100 ms to 2 and 101 ms |
| LatencyCommunity.GrowthMayLower | src/task_filter_params_updater.go:47-118 | an input where it does: 100 ms alone has community 5, with 2 ms added 4 |
| LatencyCommunity.FloorLnIs | src/task_filter_params_updater.go:106-108 | the integer part of the logarithm reaches k exactly from the k-th power of e on |
| LatencyCommunity.FloorLnOf | src/task_filter_params_updater.go:106-108 | any function with the laws of the natural logarithm has that integer part |
| LatencyCommunity.Bands | src/task_filter_params_updater.go:83-118 | given rational bounds on e the bands start at 1, 3, 8, 21, 55, 149, 404, 1097 and 2981 ms |
| LatencyCommunity.CommunityMonotone | src/task_filter_params_updater.go:83-118 | a longer time never has a lower community; 0 means a failed measurement and nothing else |
| LatencyCommunity.CommunityNeverFalls | src/task_filter_params_updater.go:47-118 | neither more loss nor slower successes lower a session's community, which is in 1..9 unless nothing answered |
| LatencyCommunity.DiffersFromDocumented | src/task_filter_params_updater.go:33-43 | code and documented bands differ exactly at 55, 1097 and 2981 ms |
| LatencyCommunity.ZeroWindow | src/task_filter_params_updater.go:56-64 | a window of zeros gives community 0 although 0 alone gives 1 |
| FilterUpdater.EffectiveTimes | src/task_filter_params_updater.go:143-149 | one effective time per tracked session |
| FilterUpdater.UpdateFilterParams | src/task_filter_params_updater.go:125-199 | the loop rewrites the files of the active sessions in order and counts successes and failures |
| FilterUpdater.RoundCounts | src/task_filter_params_updater.go:125-199 | the two counts: ENABLED and PROBLEM sessions whose file can be written, and all of them |
| FilterUpdater.OthersUntouched | src/task_filter_params_updater.go:125-199 | a file of no active session is as it was |
| FilterUpdater.ActiveCurrent | src/task_filter_params_updater.go:125-199 | afterwards the file of an ENABLED or PROBLEM session says what `FileSays` does with the community of its round-trip time, tracked or else reported, under the names the collector queries, all of them exactly if its update succeeded |
| FilterUpdater.TrackedTimes | src/task_filter_params_updater.go:143-149 | effective times of recorded measurements are at least -1 |
| ProbePacket.EncodeIPv4LittleEndian | src/task_peer_probe.go:370-382 | the address bytes turned around, zeros without one |
| ProbePacket.EncodeIPv6LittleEndian | src/task_peer_probe.go:384-397 | the loop turns the sixteen bytes around, zeros without an address |
| ProbePacket.BuildProbePacket | src/task_peer_probe.go:311-368 | each error exactly in its case and order, otherwise the packet, refused above 65535 bytes |
| ProbePacket.AddressBytes | src/task_peer_probe.go:370-397 | the bytes of each address: an IPv4-mapped one has its last four as IPv4 address |
| ProbePacket.Layout | src/task_peer_probe.go:341-367 | where everything in a packet stands, byte by byte |
| ProbePacket.PayloadLayout | src/task_peer_probe.go:320-339 | where everything in the payload stands: the time itself, both UUIDs, ASN, addresses back to front |
| ProbePacket.LittleEndianInverse | src/task_peer_probe.go:322-339 | reading a little-endian number gives it back |
| ProbePacket.LengthField | src/task_peer_probe.go:349-360 | the length field holds the length of the whole packet |
| ProbePacket.RoundTrip | src/task_peer_probe.go:311-368 | decoding recovers banner, nonce, timestamp, UUIDs, ASN and both addresses exactly when banner and UUIDs hold no NUL |
| ControlReply.BirdConn.Read | src/bird/conn.go:32-67 | outputs the text of the reply up to its last line, nothing for a nil buffer, and may lose bytes after it |
| ControlReply.BirdConn.Restrict | src/bird/conn.go:96-105 | true exactly when the reply to restrict confirms it |
| ControlReply.ContainsMeans | src/bird/conn.go:96-105 | the search for the confirmation finds it exactly if it stands somewhere in the reply |
| ControlReply.ReplyReads | src/bird/conn.go:32-67 | for every reply of plain and continued lines ended by a last one, the reader gets exactly their texts and stops there, whatever follows |
| ControlReply.CodedLine | src/bird/conn.go:48-59 | a line with a code ends the reply exactly if the code starts with 0, 8 or 9; its text follows the separator |
| ControlReply.PlainLine | src/bird/conn.go:60-63 | a line that starts with a space gives its text and does not end the reply |
| ControlReply.BirdConn.Exchange | src/bird/conn.go:70-82 | a request and its reply: the whole text comes out and nothing is left or lost, however far the reader reads ahead |
| ControlReply.TwoReplies | src/bird/conn.go:41-48 | with two replies in the socket the second is left whole exactly if no byte of it is read ahead, and then read next |
| ControlReply.CutOff | src/bird/conn.go:43-48 | a socket closed early yields the complete lines; an incomplete one is lost |
| WorkerPool.KeepsConserved | src/task_metric.go:81-155 | every step keeps queued, in-flight, finished and collected jobs equal to those sent, each once, and is one of a fixed number of steps |
| WorkerPool.NoSendBlocks | src/task_metric.go:94-109 | neither channel is ever full when something is to be sent |
| WorkerPool.NoDeadlock | src/task_metric.go:81-155 | until the collector returns some step can be made |
| WorkerPool.CollectedOnce | src/task_metric.go:118-126 | with a worker each job has been collected exactly once at the end |
| WorkerPool.SameJobsSameMap | src/task_metric.go:118-126 | with distinct UUIDs the order of results does not matter |
| WorkerPool.EveryRun | src/task_metric.go:81-155 | every interleaving ends after the same number of steps with the map of a sequential loop: the metric of each job that gave one, and nothing else |
| WorkerPool.SomeWorker | src/task_metric.go:89-92 | the number of workers: none for a negative number, otherwise the configured one, 8 for zero, and at most one for each session |
| WorkerPool.NoWorkers | src/task_metric.go:89-101 | without a worker the collected map is empty |
| PortReservation.PortTable.TryReserve | src/functions.go:467-478 | one critical section: granted exactly if not reserved and bindable |
| PortReservation.PortTable.GetRandomUnusedPort | src/functions.go:460-483 | grants the first port offered that is not reserved; none exactly if an offer is missing before it or all ten are reserved |
| PortReservation.PortTable.GetRandomPortInRange | src/functions.go:486-543 | grants the first drawn port that is not reserved at its look-up and can be bound; none exactly if none of the twenty is; an unsupported protocol gives up at the first one not reserved |
| PortReservation.PortTable.WireGuardPort | src/handler.go:154-170 | 20000..29999 for a first session, without a reservation, else a grant in 40000..49999, refused exactly if all twenty drawn are reserved or cannot be bound |
| PortReservation.TableCoversGrants | src/functions.go:454-479 | the table keeps every granted port reserved for as long as promised |
| PortReservation.GrantsApart | src/functions.go:454-543 | under a clock that does not go back two grants of a port are 300 seconds apart by its whole-second readings, and so more than 299 seconds, over any history of attempts of both allocators |
| PortReservation.WaitsInFullIff | src/functions.go:467-478 | after a grant the next one of its port waits the full 300 seconds, in every history, exactly if the grant fell on a whole second |
| PortReservation.GrantsThisClose | src/functions.go:476 | two grants may be 299 seconds and a nanosecond apart |
| PortReservation.TableIsLastGrant | src/functions.go:454-543 | the table holds the last grant of each port and nothing else |

## Left out

- Overlapping syncs, and filter updates running at the same time as a sync: one sync and one update at a time.
- The contents of files inside the session state machine: there a file is the record it was written from; what is in it is the subject of `BirdConfig`.
- Templates, regular expressions, and the parsers of IP addresses, host names and keys: results of library calls are inputs.
- Interface programming in detail (addresses, MTU, routes, sysctl, WireGuard keys): one success or failure after the link is added.
- Peer-probe routes and the sending of probe packets; choosing which address families to probe.
- Failures to close a file or a connection.
- Rounding of floating point in averages, penalties and the logarithm.
- LatencyCommunity.Community: not defined below -1, where the logarithm is not a number and its conversion depends on the platform; no time is below -1.
- BirdPool.BirdPool.WithConnection: its own wait at a full pool is taken to end without an entry; one that gets an entry is `WaitForConnection`, use and release.
- BirdPoolSteps: shutdown is not among the steps, so it says nothing of calls overlapping `Close`; each critical section, a dial included, is one step; any time may pass between steps, also within a call, so entries may become idle long enough to be reaped at any point.
- BirdPool.BirdPool.Close: an entry taken by another call between the first receive and the lock is not modelled.
- ControlReply.BirdConn.Read: read errors other than the end of the stream are that end.
- WorkerPool: the round-trip and probe workers, which have the same channels but also stop on cancellation.
- PortReservation.PortTable.GetRandomUnusedPort: other processes may take the port before it is used; only the reservation table is modelled.
- Heartbeats, traffic rates, GeoIP checks, the looking glass, HTTP handlers, authentication and configuration loading: no state worth proving about.
