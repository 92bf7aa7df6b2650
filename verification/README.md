# WebNAS: verified models of its protocols, stores and codecs

WebNAS is a Linux administration panel: a FastAPI backend, a deployment script that switches
between two backend slots behind nginx, and a set of small parsers. This project models the
parts of it that carry state or non-obvious algorithms and proves what they keep. To check it, run
`dafny verify dfyconfig.toml`.

| file | what it models |
|---|---|
| `Release.dfy` | blue/green activation and `rollback_release`, every command free to fail |
| `Sessions.dfy`, `RateLimiter.dfy` | the session table behind its read cache, the login limiter |
| `Groups.dfy` | nested LDAP group expansion and the parent map it walks |
| `Restore.dfy`, `BackupArchive.dfy` | multi-file restore with its undo log, archive validation, target paths |
| `CoordinationLock.dfy`, `UpdateSteps.dfy`, `UpdateProtocol.dfy` | the update lock, the request and its fourteen steps, admission of operations |
| `ManagedNetwork.dfy`, `NetworkFiles.dfy`, `NetworkTransactions.dfy` | managed network objects, captured and written files, plan / apply / confirm / roll back |
| `StableSort.dfy`, `Listing.dfy`, `Search.dfy` | stable sorting, the fast and the simple page path, the budgeted tree search |
| `Uploads.dfy`, `Activity.dfy` | chunked uploads, retention of the activity table |
| `JsonDepth.dfy`, `Dns.dfy`, `MountFields.dfy`, `SystemdEscape.dfy` | scanners and codecs |
| `Text.dfy`, `Wrappers.dfy` | splitting and joining, result shapes |

Code that changes things step by step is a class or a method with loops, and its contract ties
it to a function or relation on values; what the system promises is then proved about those.
Regions under a lock are one step. External commands, file operations and clocks are free
choices: a command may succeed, fail or raise at every point, and time only moves forward. The
classes count what failed, so that their contracts say what a run without a failure, or with a
single one, comes to.

## What the proofs found

These properties fail as one would first state them. The code was kept as it is; the named
lemma gives the exact condition under which the property holds, or the run that breaks it.

- A deploy keeps traffic on a live slot exactly when the old slot is up and nginx does not
  forward to the slot that the record calls inactive (`Release.Deployment.Deploy`,
  `Release.UnsafeDeployBreaksTraffic`). A deploy whose own rollback fails can leave a host that
  is not like that (`Release.LostRollbackIsUnsafe`); only such a deploy can, and a successful
  `rollback_release` repairs it (`Release.SafeAfterDeploy`, `Release.SafeAfterRestore`). So over
  a run of both scripts every host is safe exactly when neither a lost rollback nor a failed
  `rollback_release` leaves nginx on the slot that the record calls inactive
  (`Release.RunsStaySafe`).
- No unsuccessful deploy restores the environment file of the slot it used, so once that file
  was written a later `rollback_release` serves the abandoned candidate
  (`Release.ReadinessAfterDeploy`, `Release.RollbackAfterFailedDeploy`). A failed candidate's
  directory is removed even if the records still need it
  (`Release.RemovedCandidateMustBeFresh`). The `is-active` query of
  `scripts/webnas_release.py:597` stands between the two guarded blocks: an exception there
  leaves the candidate's broker unit in place (outcome `Abandoned`).
- `rollback_release` writes the broker unit of the release it rolls back from and never restarts
  the broker, so the broker stays at the newer release (`Release.BrokerIsNotRolledBack`).
- A restore whose integrity check of an already copied database fails does not undo that copy,
  because the undo entry is written after the check (`Restore.RestoreIsAllOrNothing`). The undo
  puts back permission bits only: set-id and sticky bits of a target are lost
  (`Restore.SetIdBitsAreLost`).
- Rolling a network change back reads and writes files in text mode, so a carriage return in a
  captured file is lost (`NetworkFiles.AsReadIsOriginal`). A stale plan overwrites what was
  changed since it was built (`ManagedNetwork.StalePlan`,
  `NetworkTransactions.RollbackReturnsToStart`). Rolling back an older transaction drops the
  active record of a pending one (`NetworkTransactions.RollbackOfAnotherOrphans`).
- The job service starts, retries and releases jobs without asking whether an update is under
  way (`backend/app/jobs/service.py:298-336`, `backend/app/jobs/service.py:367-393`), although
  `backend/app/bootstrap.py:92-99` reports its jobs as active operations: firewall, security,
  compliance and routing jobs enter through it
  (`backend/app/modules/firewall_manager/router.py:71`,
  `backend/app/modules/routing_manager/service.py:410`). Such a job is active beside an update
  that is prepared or installed, and keeps a waiting update waiting
  (`UpdateProtocol.SubmittedJobsIgnoreUpdates`); exclusion holds for admitted operations, and for
  all reported ones exactly as long as no job is submitted in progress
  (`UpdateProtocol.ExclusionStep`, `UpdateProtocol.QuietStep`).
- `_record_up_to_date` overwrites a running update, after which operations are admitted beside
  the installer (`UpdateProtocol.UpToDateKeepsGuard`, `UpdateProtocol.UpToDateLetsOperationsIn`).
  The bookkeeping after a launch looks at the request's identifier only: if the launch takes so
  long that the request was given up, or the installer has ended and was concluded before that
  bookkeeping, the request is resurrected over admitted operations
  (`UpdateProtocol.ExclusionStep`, `UpdateProtocol.LateLaunchOverlaps`). A poller reads the
  request without the lock and acts on it later: it can write a concluded request as running
  (`UpdateProtocol.LateNoticeOverlaps`), or apply old log lines to a new request that still
  waits for operations (`UpdateProtocol.LateLogOverlaps`). Imports of finished
  uploads and jobs with a requested cancellation are not counted as active
  (`UpdateProtocol.StartLeavesDetached`). A finished update can show less than 100 percent
  (`UpdateSteps.FinishedProgress`), a recovered one 100 percent with unsettled steps
  (`UpdateSteps.RecoveredProgress`).
- The fast page path differs from the simple one when the requested order has ties that the
  directory scan does not return in folder-and-name order (`Listing.PathsAgree`,
  `Listing.MixedNameListsAgree`, `Listing.TypeListsMayDiffer`).
- A failed write leaves stray bytes in an upload's file, which are handed over with the rest
  (`Uploads.HandedOverAsDeclared`, `Uploads.FailedWriteAddsBytes`). The cleanup of orphans, which
  unlinks without the lock, can take the bytes of a session that started after it began
  (`Uploads.CleanupLosesBytes`).
- `ActivityRepository.add` reports an error for an event that its own trim removes
  (`Activity.AddFailsForOldEvents`).
- The session cache is not a subset of the table (`Sessions.CacheIsNotASubsetOfTheTable`). A
  call that reads the clock before another one but takes its turn after it can be answered from
  a slot whose row was purged (`Sessions.EarlierReadingIsCached`); whatever the readings, that is
  the only way in which a cached and an uncached store differ (`Sessions.AnyClockRefinement`).
- The DNS parser accepts names that are longer than 255 octets (`Dns.OverlongNamesAreAccepted`),
  and takes the questions beyond the 16th for answers (`Dns.ExtraQuestionsAreReadAsAnswers`).

## Model

| member | source | states |
|---|---|---|
| `Release.Deployment.Deploy` | scripts/webnas_release.py:579-641 | from every host whose old slot is up and whose nginx does not forward to the other one, every run with any command failing anywhere keeps the slot behind the loaded port running and healthy after each step; a run in which nothing fails activates the release, drains the old slot, leaves no stale directory and starts the new slot at boot; a run with a single failure is undone completely if it is undone; activation implies that the public address answered, and without it the boot configuration is as before; what it leaves is `DeployTraffic`, and `DeployRel` if the records agreed before |
| `Release.Deployment.StartCandidate` | scripts/webnas_release.py:584-588 | the candidate is up, healthy and recorded in its environment before anything public changes, and always so when nothing fails; nothing public changes on failure either |
| `Release.Deployment.Switch` | scripts/webnas_release.py:602-625 | at every step nginx forwards to the old port, the new port or nothing; success, certain when nothing fails, means nginx, link, slot file and record all name the candidate and the public address answered |
| `Release.Deployment.Rollback` | scripts/webnas_release.py:529-541 | traffic is back on the old slot before the candidate is stopped; a complete rollback, and it is complete unless something fails again, restores nginx, link, slot file, record and broker |
| `Release.Deployment.RestoreBroker` | scripts/webnas_release.py:543-551 | only the broker changes, and a complete run, which it is when nothing fails, gives back the previous unit and process |
| `Release.Deployment.ActivateNginx` | scripts/webnas_release.py:487-506 | the file and the loaded port are each the old or the new one (or nothing is loaded), and only a file that nginx -t accepted is loaded, or left behind unless the test itself raised; success, certain when nothing fails, means both are new |
| `Release.Deployment.Reload` | scripts/webnas_release.py:503-506 | a reload that merely reports an error is repaired by the restart; a tested file is what gets loaded |
| `Release.Deployment.CleanupReleases` | scripts/webnas_release.py:553-577 | the two kept releases survive, and nothing is removed while fewer than two are kept |
| `Release.Deployment.Drain` | scripts/webnas_release.py:629-641 | draining touches only the inactive slot and stale directories, wherever it ends; when nothing fails the old slot is stopped and not started at boot, the new one is, and no stale directory is left |
| `Release.Deployment.Withdraw` | scripts/webnas_release.py:589-594 | a candidate that never started leaves the public side alone; the broker is back when the handler ran through |
| `Release.Deployment.RestorePrevious` | scripts/rollback_release.py:53-84 | from every live host with a well-formed record, such as a failed deploy leaves, every run of rollback_release keeps traffic on a live slot; when nothing fails and the recorded release is there and can be served it succeeds, answers publicly and is what starts at boot; what it leaves is `RestoreTraffic`, and `RestoreRel` if the records agreed before |
| `Release.DeployKeepsSettled` | scripts/webnas_release.py:529-641 | agreement: after a deploy of a fresh directory the records all name the new release, or all are as before with the broker restored; active and previous releases exist on disk |
| `Release.RemovedCandidateMustBeFresh` | scripts/webnas_release.py:592-593 | the recorded releases survive a failed candidate exactly when its directory was fresh |
| `Release.RollbackSettles` | scripts/rollback_release.py:53-79 | a successful rollback_release settles the host if and only if the previous slot was ready to serve the recorded release; then it can itself be rolled back |
| `Release.TwoRollbacksGiveBack` | scripts/rollback_release.py:59-79 | two successful rollbacks give back slot, port, release, nginx, link and slot file |
| `Release.BrokerIsNotRolledBack` | scripts/rollback_release.py:53-82 | after a deploy and a successful rollback_release the backend serves the old release and the broker still runs the one rolled back |
| `Release.ReadinessAfterDeploy` | scripts/webnas_release.py:442-452 | for every unsuccessful outcome: the host stays ready for rollback_release exactly when the slot environment was not written, or is ready for the old slot when only the rollback was lost |
| `Release.RollbackAfterFailedDeploy` | scripts/webnas_release.py:442-452 | a successful rollback_release after an unsuccessful deploy settles the host exactly when the environment was not written; otherwise it serves the candidate or a backend that was never stopped |
| `Release.RollbackAfterFailedSwitch` | scripts/webnas_release.py:442-452 | after a rolled-back handover it always serves the abandoned candidate; it is settled exactly when that is the recorded release |
| `Release.SafeAfterDeploy` | scripts/webnas_release.py:529-641 | after any outcome the next deploy is safe exactly when nginx does not forward to the slot the record calls inactive, and only a lost rollback can prevent that |
| `Release.SafeAfterRestore` | scripts/rollback_release.py:53-79 | a successful rollback_release makes every live host safe; a failed one keeps a safe host safe unless nginx has moved |
| `Release.RunsStayLive` | scripts/webnas_release.py:579-641 | over every sequence of deploys from safe hosts and rollback_releases from any host, with all outcomes, traffic is on a live slot between scripts |
| `Release.RunsStaySafe` | scripts/webnas_release.py:529-641 | over every sequence from a safe host, all hosts are safe for the next deploy exactly when no deploy with a lost rollback and no failed rollback_release leaves nginx on the slot the record calls inactive |
| `Release.LostRollbackIsUnsafe` | scripts/webnas_release.py:529-541 | the host changes of a handover, in the order of the script, followed by a rollback that fails at its first command: live throughout, with the old record and traffic on the other slot at the end |
| `Release.UnsafeDeployBreaksTraffic` | scripts/webnas_release.py:584-625 | from a live host that is not safe, the changes that the script makes, in its order, take the traffic down: at the restart of the slot nginx forwards to, or at the reload of the undo with nginx down before |
| `Release.RunsStaySettled` | scripts/webnas_release.py:579-641 | over sequences whose deploys use fresh directories and keep their own rollback, and whose rollback_releases succeed from hosts ready for them, the records agree between scripts |
| `Sessions.SessionStore.CacheSession` | backend/app/security.py:115-121 | a session becomes the newest slot and the oldest slots beyond the limit go |
| `Sessions.SessionStore.Invalidate` | backend/app/security.py:123-126 | one slot leaves the cache, the table is untouched |
| `Sessions.SessionStore.CreateSession` | backend/app/security.py:128-168 | expired rows are purged, the row and its slot are written; a clash changes nothing |
| `Sessions.SessionStore.ResolveToken` | backend/app/security.py:170-213 | answer and new state of a lookup through cache and table |
| `Sessions.SessionStore.RevokeScope` | backend/app/security.py:221-272 | all rows and all slots in scope go, and the number of rows is returned |
| `Sessions.ResolveRefines` | backend/app/security.py:170-213 | a cached lookup answers and changes the table exactly as a store without a cache |
| `Sessions.CreateRefines` | backend/app/security.py:128-168 | so does creation, although its purge does not touch the cache |
| `Sessions.RevokeAllRefines` | backend/app/security.py:221-272 | so does every bulk revocation |
| `Sessions.LookupShowsRow` | backend/app/security.py:170-213 | a lookup shows the row of its hash until the row expires, whatever the cache holds, and deletes only an expired row |
| `Sessions.LoginTakesEffect` | backend/app/security.py:128-168 | a login is refused exactly when its hash is logged in; otherwise exactly that session is shown until it expires, and nobody else is affected |
| `Sessions.RevocationTakesEffect` | backend/app/security.py:221-272 | what a bulk revocation covers by user, provider or identity is shown to nobody any more, and every other session is shown as before |
| `Sessions.RevokedRowsAreCounted` | backend/app/security.py:221-272 | the answer is the number of rows that left the table; the rest is untouched |
| `Sessions.ShownIsNewestSlot` | backend/app/security.py:115-185 | a hit becomes the newest slot with its old deadline, a read from the table the newest with a new one; the others keep their order and only the oldest are evicted |
| `Sessions.ShownIsLoggedIn` | backend/app/security.py:128-272 | after any run a lookup shows a session if and only if a successful login put it there, it has not expired, and no later logout or revocation covers it |
| `Sessions.CacheRefinement` | backend/app/security.py:115-272 | whole runs of calls answer and leave the table as without a cache, and the cache keeps its limit |
| `Sessions.AnyClockStep` | backend/app/security.py:128-272 | one call with any clock readings: same table, and the same answer exactly unless it is a lookup of a hash without a row whose slot has neither expired nor aged |
| `Sessions.AnyClockRefinement` | backend/app/security.py:115-272 | whatever times the calls have read, the table is that of a store without a cache, and all answers are its answers exactly when no lookup is answered from a slot whose row was purged |
| `Sessions.CacheIsNotASubsetOfTheTable` | backend/app/security.py:139-151 | a run after which a cached slot has no row, which is why the invariant needs the expiry |
| `Sessions.EarlierReadingIsCached` | backend/app/security.py:170-176 | the witness: a lookup that read the clock before another call's purge and follows it is answered from the cache alone |
| `RateLimiter.RecentIsSuffix` | backend/app/security.py:282-286 | dropping from the front of the queue removes exactly the failures that no longer count |
| `RateLimiter.LoginRateLimiter.Check` | backend/app/security.py:288-294 | an attempt is refused exactly when the failures since the last clear within the window reach the limit |
| `RateLimiter.LoginRateLimiter.RecordFailure` | backend/app/security.py:296-299 | a failure is appended to its key's history and to no other |
| `RateLimiter.LoginRateLimiter.Clear` | backend/app/security.py:301-303 | a key's history is forgotten, the others stay |
| `Groups.WithinIsReachability` | backend/app/ldap_rbac.py:245-274 | the level sets are the groups reachable by a path of at most that many parent steps, cycles included |
| `Groups.ExpandNestedGroups` | backend/app/ldap_rbac.py:245-274 | the loop terminates and returns exactly the groups within the depth, or the limit error exactly when that set is larger than the direct set and than the node limit, whatever order sets are iterated in |
| `Groups.ExpansionClimbsTheMap` | backend/app/ldap_rbac.py:245-274 | the result in terms of the map's entries: a group is in it exactly when a direct group leads to it in at most `max_depth` steps |
| `Groups.Expand` | backend/app/ldap_rbac.py:261-273 | expanding one group keeps the breadth-first frontier: what is found below the current level is complete |
| `Groups.BuildParentMap` | backend/app/ldap_rbac.py:346-375 | the parent map holds exactly the memberships between known groups |
| `Groups.ParentsAreListings` | backend/app/ldap_rbac.py:346-375 | a parent is recorded exactly when the last entry of its name lists a known child |
| `Groups.ExpansionFollowsMembership` | backend/app/ldap_rbac.py:346-375 | over that map, expansion follows chains of group memberships |
| `Restore.UndoGivesBackOriginals` | backend/app/appliance_backup.py:583-614 | undoing the log from its end gives back every file with its content and permission bits, also when records share a target |
| `Restore.SetIdBitsAreLost` | backend/app/appliance_backup.py:594-594 | a set-group-id target comes back without that bit |
| `Restore.ForwardUndoLosesOriginals` | backend/app/appliance_backup.py:605-613 | undoing it from its start would not |
| `Restore.WriteAllContents` | backend/app/appliance_backup.py:585-604 | after a complete restore each target holds its last record with its mode, and nothing else changed |
| `Restore.RestoredContents` | backend/app/appliance_backup.py:598-601 | a restored file holds the staged bytes of the last record for it, is private when it is a key or lies under secrets, and otherwise has the recorded permission bits |
| `Restore.RestoreService.Apply` | backend/app/appliance_backup.py:581-614 | without a failure all records are written and every restored database was checked in place, with one failure the log is undone, with a second one exactly the part of the undo that was reached before; other files never change |
| `Restore.RestoreIsAllOrNothing` | backend/app/appliance_backup.py:564-614 | a failed restore leaves the original files if and only if the targets written before had only permission bits and the failure was not the late check of a new target that differs |
| `Restore.BrokenUndoStopsBetween` | backend/app/appliance_backup.py:605-614 | an undo that fails has undone exactly the records after the point it reached, so the files are those after the first ones |
| `Restore.SafeRelativeIsNormal` | backend/app/appliance_backup.py:97-107 | an accepted member path is in normal form |
| `Restore.PlainPathsAreSafe` | backend/app/appliance_backup.py:97-107 | every path of plain components is accepted as it is |
| `Restore.SafePathsArePlain` | backend/app/appliance_backup.py:97-107 | an accepted path is relative, goes nowhere up, and loses only empty and dot components |
| `Restore.RefusedPathsAreUnsafe` | backend/app/appliance_backup.py:97-107 | only an absolute path, a step up, a backslash, a NUL or an empty path is refused |
| `Restore.TargetsAreAsRecorded` | backend/app/appliance_backup.py:517-537 | data lands at its recorded place below the data directory, configuration at its own path, anything else is refused |
| `Restore.DataTargetsStayInside` | backend/app/appliance_backup.py:517-537 | data targets lie strictly below the data directory and never are the session database |
| `BackupArchive.Validate` | backend/app/appliance_backup.py:409-515 | an archive is accepted if and only if it is valid: members declared once, declarations true, sizes within limits; the report counts members and bytes |
| `BackupArchive.CheckRecord` | backend/app/appliance_backup.py:431-495 | one record passes exactly when it fits its member, is new and stays within the total |
| `BackupArchive.MemberIsDescribed` | backend/app/appliance_backup.py:409-502 | every member of an accepted archive but the manifest is described truthfully by exactly one record |
| `BackupArchive.RecordDescribes` | backend/app/appliance_backup.py:409-502 | every record describes a member: size, checksum, kind and scope |
| `BackupArchive.DescribedIsValid` | backend/app/appliance_backup.py:409-502 | an archive that is like that is accepted, nothing else is asked |
| `BackupArchive.ReportCountsBytes` | backend/app/appliance_backup.py:470-474 | the reported size is the number of bytes of all members but the manifest |
| `BackupArchive.ValidRecordsHaveTargets` | backend/app/appliance_backup.py:517-537 | each record of a valid archive has a target or is the refused session database |
| `CoordinationLock.OneThreadInside` | backend/app/update_coordination.py:127-151 | the invariant that every call keeps means that only the thread with the file lock is inside |
| `CoordinationLock.RunsExclude` | backend/app/update_coordination.py:127-151 | over every run of nested, competing and failing calls at most one thread of all processes is inside, and exactly while the file is locked |
| `CoordinationLock.OutermostCallGivesBack` | backend/app/update_coordination.py:140-151 | a call on free locks gets inside, keeps every other thread from the file, and gives both locks back |
| `CoordinationLock.NestedCallGivesBack` | backend/app/update_coordination.py:131-138 | a nested call is inside at once and leaves the thread as deep as before |
| `CoordinationLock.FailedCallGivesBack` | backend/app/update_coordination.py:140-151 | a call whose file lock fails leaves everything as it was |
| `CoordinationLock.Lock.Enter` | backend/app/update_coordination.py:130-141 | a nested call is inside at once and leaves the file lock alone |
| `CoordinationLock.Lock.Leave` | backend/app/update_coordination.py:134-151 | the file stays locked until the outermost region ends |
| `UpdateSteps.ProgressIsComplete` | backend/app/update_coordination.py:216-246 | after a transition the progress is 100 exactly when every step succeeded or was skipped |
| `UpdateSteps.WhatTransitionsLeave` | backend/app/update_coordination.py:216-246 | a transition sets one step, shows the share of settled steps to the nearest percent, and moves the request only when the step starts or fails |
| `UpdateSteps.WhatRequestLeaves` | backend/app/settings.py:1112-1144 | a new request waits with its first step done and its second running |
| `UpdateSteps.WhatStagesLeave` | backend/app/settings.py:1182-1250 | which steps the driver and the launch settle and start, and the state, phase and failed phase they leave |
| `UpdateSteps.WhatEndingsLeave` | backend/app/settings.py:1347-1400 | what each step, the state and the phase are after both endings and both recoveries |
| `UpdateSteps.WhatUpToDateLeaves` | backend/app/settings.py:1148-1179 | three steps done, ten skipped, the last done |
| `UpdateSteps.SynchronizedState` | backend/app/settings.py:1256-1279 | log markers are remembered, and leave a request in progress exactly when it was or some new marker starts a step, whatever its state |
| `UpdateSteps.StepShowsLastLine` | backend/app/settings.py:1256-1279 | over any log a step is running, succeeded or skipped as its last new line says |
| `UpdateSteps.KeptWithoutLine` | backend/app/settings.py:1256-1279 | a step without a new line, and without a new start the state and the phase, stay as they were |
| `UpdateSteps.PhaseIsLastStart` | backend/app/settings.py:1256-1279 | the phase is the step of the last new start, which clears an earlier failure |
| `UpdateSteps.ReadingTheLogAgain` | backend/app/settings.py:1256-1279 | reading the same log lines again has no effect; only new ones count |
| `UpdateSteps.FinishedProgress` | backend/app/settings.py:1373-1400 | a successful end completes the last step, and shows 100 exactly when no step but the current one was left running or failed |
| `UpdateSteps.FinishedFailure` | backend/app/settings.py:1386-1400 | a failed end fails the step under way, names it, leaves all other steps as they were and never shows 100 |
| `UpdateSteps.RecoveredProgress` | backend/app/settings.py:1352-1362 | recovery during the restart completes the request with progress 100, settled exactly when no earlier step was left running or failed |
| `UpdateProtocol.ExclusionStep` | backend/app/settings.py:1182-1408 | every step keeps "in progress implies no admitted operation", except exactly a launch, a poller's notice or a poller's log that puts the request in progress over admitted operations |
| `UpdateProtocol.QuietStep` | backend/app/bootstrap.py:92-99 | for all reported operations, submitted jobs included, the only further exception is a job submitted while the request is in progress |
| `UpdateProtocol.OperationsStayAtWork` | backend/app/update_coordination.py:299-391 | an operation is at work, in one place, from its admission or submission to its end, and no step of an update starts or ends one |
| `UpdateProtocol.InstallersRun` | backend/app/settings.py:1211-1250 | a launch begins with a started request, and an installer runs from its launch to its end |
| `UpdateProtocol.RunsExclude` | backend/app/settings.py:1093-1408 | over whole runs no admitted operation is active while a request is prepared or installed, if finishing branches wait for launches and pollers act on requests still in progress; no reported operation is, if no job was submitted in progress either |
| `UpdateProtocol.SubmittedJobsIgnoreUpdates` | backend/app/jobs/service.py:296-336 | a submitted job is active whatever the update does, and keeps a waiting request waiting |
| `UpdateProtocol.LaunchesHappen` | backend/app/settings.py:1093-1209 | a first request with nothing active reaches a launch, where LateLaunchOverlaps and NoticesArePending begin |
| `UpdateProtocol.LateLaunchOverlaps` | backend/app/settings.py:1235-1249 | a launch that outlives its request breaks the exclusion of admitted operations |
| `UpdateProtocol.LateNoticeOverlaps` | backend/app/settings.py:1403-1408 | so does a poller that writes a request as running after another poller concluded it |
| `UpdateProtocol.NoticesArePending` | backend/app/settings.py:1299-1308 | a poller can have read the request before its launch, which makes that possible |
| `UpdateProtocol.LateLogOverlaps` | backend/app/settings.py:1341-1342 | and a poller that applies old log lines to a new request which waits for operations |
| `UpdateProtocol.WaitingOnlyShrinks` | backend/app/update_coordination.py:377-391 | while a request waits the admitted operations only shrink, and so do all reported ones if no job is submitted |
| `UpdateProtocol.EmptyMeansStart` | backend/app/settings.py:1189-1209 | a waiting request starts exactly when every registry answers and reports nothing |
| `UpdateProtocol.DriverServesItsRequest` | backend/app/settings.py:1182-1188 | a driver for another request, or without a waiting one, changes nothing |
| `UpdateProtocol.WaitingCanStart` | backend/app/settings.py:1189-1209 | no deadlock: once the operations a request waits for have ended, in any order, the driver launches it |
| `UpdateProtocol.UpToDateKeepsGuard` | backend/app/settings.py:1148-1166 | recording "up to date" is safe exactly when nothing is being installed or launched |
| `UpdateProtocol.UpToDateLetsOperationsIn` | backend/app/settings.py:2219-2220 | otherwise the next operation is admitted beside the installer |
| `UpdateProtocol.StartLeavesDetached` | backend/app/update_coordination.py:329-332 | when an update starts, the operations still at work are exactly those no registry reports |
| `UpdateProtocol.Coordinator.AdmitOperation` | backend/app/update_coordination.py:377-391 | an operation is registered exactly when no request is waiting, prepared or installed |
| `UpdateProtocol.Coordinator.SubmitJob` | backend/app/jobs/service.py:164-250 | a job is started whatever the state of the update, and nothing but the jobs changes |
| `UpdateProtocol.Coordinator.TransitionStep` | backend/app/update_coordination.py:216-246 | one step's status, the request's state, phase and progress after a transition |
| `UpdateProtocol.Coordinator.RequestUpdate` | backend/app/settings.py:1093-1144 | a new waiting request, refused while one is active |
| `UpdateProtocol.Coordinator.ProcessWaiting` | backend/app/settings.py:1182-1209 | the driver starts the request it was asked for only when every registry answers and no operation is reported |
| `UpdateProtocol.Coordinator.LaunchInstaller` | backend/app/settings.py:1211-1250 | the bookkeeping of a launch applies to the request it was made for |
| `UpdateProtocol.Coordinator.SynchronizeSteps` | backend/app/settings.py:1256-1279 | the loop over log lines applies each marker once |
| `UpdateProtocol.Coordinator.ConcludeUpdate` | backend/app/settings.py:1373-1400 | both finishing branches for an installer that reported its exit code |
| `UpdateProtocol.Coordinator.RecoverUpdate` | backend/app/settings.py:1347-1371 | the recovery branches, with the phase kept as failed phase when it is no step |
| `UpdateProtocol.Coordinator.NoticeRunning` | backend/app/settings.py:1403-1408 | the late write of a preparing request as running, which reads only the identifier again |
| `UpdateProtocol.Coordinator.RecordUpToDate` | backend/app/settings.py:1148-1179 | a completed request with every step settled and progress 100 replaces whatever was there |
| `ManagedNetwork.AppliedKeepsClean` | backend/app/network_management.py:684-789 | an admitted plan leads from a conflict-free configuration to one: members, VLANs, routes, object count |
| `ManagedNetwork.CleanInFields` | backend/app/network_management.py:684-711 | what the invariant says of members, VLANs, routes and the number of objects |
| `ManagedNetwork.RefusedExactlyWhenUnclean` | backend/app/network_management.py:752-765 | a change is refused for the managed state exactly when it would break that |
| `ManagedNetwork.StalePlan` | backend/app/network_management.py:774-788 | a plan's `after` is what the change makes of the present configuration exactly when nothing else changed meanwhile |
| `NetworkFiles.WritesAreCaptured` | backend/app/network_management.py:817-913 | for every change and provider the written files are among the captured ones, and for complete requests they are the same set |
| `NetworkFiles.SavedUnderNetworkd` | backend/app/network_management.py:829-843 | after a saved interface its files hold the rendered text, the device file exists exactly for virtual interfaces, and link files exactly for the present members or parent |
| `NetworkFiles.DeletedUnderNetworkd` | backend/app/network_management.py:829-843 | after a deleted interface none of its files is left |
| `NetworkFiles.OtherFilesAfter` | backend/app/network_management.py:817-865 | DNS, Netplan and restore-unit changes leave exactly their one file with its text, or without it |
| `NetworkFiles.CapturedPathsStayInside` | backend/app/network_management.py:472-503 | touched files lie directly in the four configuration directories for all interface names that pass validation |
| `NetworkFiles.RestoreGivesBack` | backend/app/network_management.py:1109-1114 | whatever was done to captured files, restoring them gives every file as it was read |
| `NetworkFiles.AsReadIsOriginal` | backend/app/network_management.py:912-913 | that is the original exactly when no captured file holds a carriage return |
| `NetworkFiles.LineEndsAreRead` | backend/app/network_management.py:897-915 | in text mode all three line ends are read as LF and everything else as it is |
| `NetworkTransactions.Manager.BuildPlan` | backend/app/network_management.py:752-809 | the plan holds the change, the configuration it was built on and what the change makes of it; it is refused for a read-only provider, a conflict or the live system, and for nothing else |
| `NetworkTransactions.Manager.ApplyPlan` | backend/app/network_management.py:951-1026 | refused while a transaction is pending; otherwise it ends in place, pending and with all commands run when nothing fails, rolled back, not begun or interrupted after one failure, and with a failed rollback after two; unless it was not begun its rollback timer runs; it touches captured files only |
| `NetworkTransactions.ApplicableInFields` | backend/app/network_management.py:956-965 | a plan can be applied by its maker alone, in time, with its phrase if it has one, while nothing is pending |
| `NetworkTransactions.WhatBeginLeaves` | backend/app/network_management.py:966-1000 | the pending record, and a snapshot of the plan's `before` and of every file that may be written |
| `NetworkTransactions.Manager.ConfirmTransaction` | backend/app/network_management.py:1077-1092 | confirmed exactly when it is the active one and its deadline has not passed, which stops its timer; confirming again changes nothing |
| `NetworkTransactions.Manager.RollbackTransaction` | backend/app/network_management.py:1095-1170 | restores captured files and the plan's `before` unless something fails; a confirmed transaction is never rolled back automatically, a rolled back one never again; only a user's rollback stops the timer |
| `NetworkTransactions.WhatEndsATransaction` | backend/app/network_management.py:1066-1107 | a confirmed transaction is spared by the timer and can be undone by a user; an undone one is never undone again, a failed one can be |
| `NetworkTransactions.UndoneGivesBack` | backend/app/network_management.py:1095-1134 | rolling back the pending transaction gives back the files as they were when it began |
| `NetworkTransactions.RollbackReturnsToStart` | backend/app/network_management.py:971-1134 | however apply ended, failed rollbacks included, a complete rollback gives the files as read before and the plan's `before`; files and configuration are those of the start if and only if no captured file held a carriage return and the plan was not stale |
| `NetworkTransactions.RepeatedRollback` | backend/app/network_management.py:1101-1134 | after a failed rollback another one is not skipped, and ends as the first would have |
| `NetworkTransactions.RollbackOfAnotherOrphans` | backend/app/network_management.py:1153-1155 | rolling back another transaction leaves the pending one without its active record |
| `NetworkTransactions.RunsStayClean` | backend/app/network_management.py:752-1134 | over every run, stale plans included, all stored configurations are free of conflicts and within the object limit |
| `StableSort.StableSortIsUnique` | backend/app/worker.py:130-140 | what list.sort promises, ordered and ties in input order, determines its result |
| `StableSort.SortTwice` | backend/app/worker.py:130-140 | sorting twice is one sort by the later key first and the earlier key second |
| `StableSort.FilterSort` | backend/app/file_ops.py:162-198 | filtering and sorting commute |
| `StableSort.FirstDifferenceDecides` | backend/app/worker.py:113-127 | text is compared by its first difference, a prefix comes first |
| `Listing.PathsAgree` | backend/app/worker.py:153-204 | the fast list equals the simple one if and only if ties of the requested order are scanned in folder-and-name order |
| `Listing.ListHoldsMatches` | backend/app/worker.py:103-112 | the list holds, as often as scanned, exactly the entries that are not hidden and contain the query in name, type or suffix |
| `Listing.ListIsInOrder` | backend/app/worker.py:115-140 | it is in the order and direction of the requested field, folders first if asked; without a field by folder and name |
| `Listing.NameListsAgree` | backend/app/worker.py:153-204 | by name with folders first, in either direction and under any filter, they always agree |
| `Listing.PagesAgree` | backend/app/worker.py:153-204 | for every page number and size the two paths show the same page under exactly that condition; by name with folders first always |
| `Listing.MixedNameListsAgree` | backend/app/file_ops.py:186-194 | by name without folders first they agree exactly when no kept file is scanned before a kept folder of the same lower-cased name |
| `Listing.TypeListsMayDiffer` | backend/app/worker.py:104-127 | sorted by type they can differ |
| `Listing.PagesMakeTheList` | backend/app/worker.py:184-190 | pages 1 to the last one, concatenated, are the whole list |
| `Listing.PagesAreFull` | backend/app/worker.py:184-190 | every page but the last is full and none of a nonempty list is empty |
| `Listing.ListPage` | backend/app/worker.py:143-204 | the page the worker builds from light entries is the page of the filtered and sorted full metadata |
| `Listing.LegacyPaginate` | backend/app/file_ops.py:175-198 | the page of the filtered and re-sorted full listing |
| `Listing.ListAll` | backend/app/worker.py:147-151 | the unpaginated listing is all metadata in folder-and-name order |
| `Search.SearchDirectory` | backend/app/worker.py:207-279 | the walk terminates; only an unreadable root is an error, only the clock ends it for lack of time, and no entry is looked at after a late reading; results, counters and reason say of the tree what `Answers` states |
| `Search.ExamineKeepsAccount` | backend/app/worker.py:236-268 | looking at an entry loses no match and counts nothing twice |
| `Search.CompleteSearch` | backend/app/worker.py:276-279 | not truncated and nothing skipped means: everything visible was readable, and an item is returned exactly when a way down leads to it |
| `Search.FittingIsComplete` | backend/app/worker.py:224-279 | with time, room for the matches and budget for the entries the search is complete |
| `Search.FoundExactly` | backend/app/worker.py:241-264 | an entry is found exactly when it is visible, its name matches, its metadata is readable and it is of the wanted kind |
| `Search.ItemsInOrder` | backend/app/worker.py:276-276 | folders come first, then folded names, then paths |
| `Search.SkippedMeansFailure` | backend/app/worker.py:269-275 | a skip means that something failed to be read |
| `Uploads.UploadStore.Start` | backend/app/uploads.py:56-79 | a new empty session, handed over at once when nothing is expected, or an error |
| `Uploads.UploadStore.Append` | backend/app/uploads.py:102-124 | a chunk at the expected offset is appended, and a full upload handed over; otherwise the reported error |
| `Uploads.UploadStore.Cancel` | backend/app/uploads.py:127-132 | the owner's session and its file are removed |
| `Uploads.UploadStore.CleanupExpired` | backend/app/uploads.py:154-161 | sessions past the age limit go, with their files |
| `Uploads.HandedOverAsDeclared` | backend/app/uploads.py:115-152 | a handed-over file goes where its start said, has the declared length exactly when failed writes left as many bytes as the orphan cleanup took, is the accepted chunks in order when neither happened, and is handed over at most once |
| `Uploads.FailedWriteAddsBytes` | backend/app/uploads.py:112-113 | a failed write can leave bytes that are handed over with the rest |
| `Uploads.CleanupLosesBytes` | backend/app/uploads.py:39-53 | the cleanup can take bytes of a session that started after it began, although no write failed |
| `Uploads.UploadStore.Sweep` | backend/app/uploads.py:39-53 | one unlink of the cleanup takes one file that was not noted, and what it held is counted as lost |
| `Uploads.ConservationOverRuns` | backend/app/uploads.py:39-161 | over every interleaving, orphan cleanup included, each file holds the accepted chunks in order unless bytes were counted as stray or lost, and every listed session is unfinished |
| `Uploads.NothingIsLeftBehind` | backend/app/uploads.py:39-161 | over every run, however uploads end, only files of present sessions remain |
| `Uploads.ChunkIsAcceptedAtOffset` | backend/app/uploads.py:102-111 | a chunk is written exactly when it is its owner's, small enough, starts where the last one ended and fits; whoever is told another offset may resume there |
| `Uploads.CancelEndsUpload` | backend/app/uploads.py:127-132 | a cancelled upload is gone with its file and takes no more chunks; the others stay |
| `Uploads.ExpiryByAge` | backend/app/uploads.py:154-161 | sessions of more than a day go with their files, the others stay with theirs |
| `Activity.NewestCount` | backend/app/activity.py:192-206 | exactly the limit of newest rows, or all of them, survive a trim |
| `Activity.NewestOfTable` | backend/app/activity.py:192-206 | trimming a table that still holds the newest events is trimming the full history |
| `Activity.ActivityRepository.Add` | backend/app/activity.py:167-212 | an insert, a trim at every hundredth id, and an error exactly when it trims and at least the limit of known events are newer |
| `Activity.ActivityRepository.Bounded` | backend/app/activity.py:192-206 | what the invariant of Add amounts to: at most 99 rows beyond the limit, and no event is lost before the limit is exceeded |
| `Activity.AddFailsForOldEvents` | backend/app/activity.py:192-212 | a new event is among the newest exactly when fewer than the limit of events are newer |
| `Activity.RetentionOverRuns` | backend/app/activity.py:108-209 | the table always holds the newest events ever added and at most 99 more |
| `Activity.MissingIsOld` | backend/app/activity.py:192-206 | an event is missing only if as many rows as the table must keep were created later, or at the same time with a higher id |
| `Activity.RecentEventsStay` | backend/app/activity.py:192-206 | when times do not run backwards the last events added are always in the table |
| `JsonDepth.CheckDepth` | backend/app/json_limits.py:18-46 | the scan loop, with its error for limits below one |
| `JsonDepth.ItemsAreSpelledOut` | backend/app/json_limits.py:28-46 | the text of a string in the grammar is that of its characters and escapes in order |
| `JsonDepth.ValueClimbs` | backend/app/json_limits.py:28-46 | the scanner's peak over a rendered value is its nesting depth, whatever strings, escapes and white space it contains |
| `JsonDepth.RejectsExactlyDeepValues` | backend/app/json_limits.py:28-46 | a well-formed text is rejected exactly when its value nests deeper than the limit |
| `Dns.SkipDnsName` | backend/app/network_diagnostics.py:404-418 | the offset loop lands where the name ends, or rejects |
| `Dns.QuestionNameIsSkipped` | backend/app/network_diagnostics.py:398-418 | for every accepted hostname, skipping the encoded name lands on the question type and the 128-step guard is not reached |
| `Dns.QuestionHeader` | backend/app/network_diagnostics.py:398-401 | identifier, flags and counts of the question |
| `Dns.EncodableExactly` | backend/app/network_diagnostics.py:398-400 | encoding fails exactly for labels that are not ASCII or longer than 255 bytes |
| `Dns.QuestionSpellsHostname` | backend/app/network_diagnostics.py:398-401 | the encoded name spells the hostname, and type and class follow |
| `Dns.ParseDnsResponse` | backend/app/network_diagnostics.py:421-450 | on any bytes the parser stays in bounds and returns or rejects |
| `Dns.WellFormedResponsesParse` | backend/app/network_diagnostics.py:421-450 | completeness: a well-formed response gives its code and its addresses, deduplicated in order |
| `Dns.ExtraAnswersAreIgnored` | backend/app/network_diagnostics.py:435-449 | of more than 128 answers only the first 128 can give an address |
| `Dns.ExtraQuestionsAreReadAsAnswers` | backend/app/network_diagnostics.py:430-436 | after 16 questions the parser looks for answers, whatever the header says |
| `Dns.ParsedResponsesAreWellFormed` | backend/app/network_diagnostics.py:421-450 | soundness: what is accepted within the caps is a response to this query in the format of RFC 1035, but for the length limit of names and the targets of pointers |
| `Dns.RcodeIsLowBits` | backend/app/network_diagnostics.py:427-428 | the reported code is that of the four low bits |
| `Dns.AddressesAreThose` | backend/app/network_diagnostics.py:446-449 | an address is the data of a four-byte A or a sixteen-byte AAAA record of class IN |
| `Dns.DedupKeepsOrder` | backend/app/network_diagnostics.py:450-450 | addresses keep the order of their first appearance |
| `Dns.OverlongNamesAreAccepted` | backend/app/network_diagnostics.py:404-418 | names of up to 127 labels are accepted, far beyond 255 octets |
| `MountFields.DecodeMountField` | backend/app/local_disks.py:65-77 | the indexed loop computes the regular-expression substitution on all strings |
| `MountFields.EscapesAreReplaced` | backend/app/local_disks.py:65-77 | every backslash with three octal digits becomes the character of that number |
| `MountFields.OthersStay` | backend/app/local_disks.py:65-77 | any other backslash and every other character stays |
| `MountFields.DecodersInvertEscaping` | backend/app/resource_dashboard.py:169-172 | all three decoders invert the kernel's escaping |
| `MountFields.SubstituteInverts` | backend/app/network_mounts.py:521-522 | the substitution inverts escaping whichever of the four characters are escaped, if the backslash is |
| `MountFields.BackslashFirstIsWrong` | backend/app/resource_dashboard.py:169-172 | replacing the backslash first would decode twice |
| `SystemdEscape.FallbackSystemdEscape` | backend/app/network_mounts.py:741-753 | the nested loops compute the unit name |
| `SystemdEscape.PlainComponentsStay` | backend/app/network_mounts.py:741-753 | a component stays as it is exactly when it holds ASCII letters, digits, underscores and dots alone |
| `SystemdEscape.StrippedAreSlashes` | backend/app/network_mounts.py:743-743 | only outer slashes are stripped |
| `SystemdEscape.Utf8Lengths` | backend/app/network_mounts.py:751-751 | the bytes of a character: how many, and that only ASCII bytes are below 128 |
| `SystemdEscape.UnescapeInvertsUnitName` | backend/app/network_mounts.py:741-753 | a unit name gives back every component of the stripped path, in order |
| `SystemdEscape.UnitNamesAreDistinct` | backend/app/network_mounts.py:741-753 | two paths share a unit name exactly when they are equal up to outer slashes |

## Left out

- First installation and the migration of the single-service layout: rollback takes another branch there. TLS certificates and transport settings are not modelled.
- Reading deployment.json: rollback_release is modelled from a record that names a previous release still on disk.
- Release.DeployKeepsSettled: assumes a fresh candidate directory and that the deploy's own rollback ran to its end; the liveness of every step does not assume either.
- Release.RunsStaySettled: leaves out runs with a lost rollback, a failed rollback_release or a host that is not ready for one; RunsStayLive covers them for the traffic, and RemovedCandidateMustBeFresh, RollbackSettles and ReadinessAfterDeploy say when agreement is lost.
- Release.UnsafeDeployBreaksTraffic: the host changes are listed from the script, as those of LostRollbackIsUnsafe are; that the commands can succeed and fail in that order is not part of a contract of Deploy.
- Update phases and step messages written by the deployment script. systemctl daemon-reload and the other unit files: they may fail, and what they change is not modelled.
- Sessions: HMAC of tokens, SQL text and several processes sharing one database; sessions are known by their hash, one process holds one cache.
- Sessions.CacheRefinement: assumes that calls read the wall clock in the order in which they take the lock, which the source reads before it; AnyClockRefinement gives the exact condition without that order.
- Groups: case folding of names and the LDAP search itself; names are already folded.
- Restore: symbolic links, fsync and ownership. Staging and preimages live in a directory of their own; a copy is atomic, and a failing undo copy ends the undo (outcome `Broken`).
- BackupArchive: the zip format, version checks and free-form manifest fields; digest and database check are given functions of the bytes.
- UpdateProtocol.RunsExclude: assumes that the finishing branches do not give up a request while its installer is being launched, and that pollers act on requests still in progress; LateLaunchOverlaps, LateNoticeOverlaps and LateLogOverlaps show what happens otherwise. For operations that were not admitted it assumes in addition that no job is submitted in progress; SubmittedJobsIgnoreUpdates shows that nothing prevents one.
- UpdateProtocol: recovery requests (`install_revision`), timestamps, messages and versions. The registries of transient operations and uploads belong to one process, so a single backend process is modelled. File tasks, packages, mounts, uploads and transient operations are one set of admitted operations; jobs of the job service are told apart, and those that wait, are to be retried or cancelled are detached until they are reported again.
- The check that a mount has no other queued job when one is enqueued; its admission is that of every operation.
- NetworkTransactions: what nmcli, ip and tc do to the live system and to files that did not exist before; the restart of managed routes; confirm racing an unfinished rollback; a process that dies within a step.
- ManagedNetwork: field validation of interfaces, routes and rules, and refusals that depend on the live system, which are a free choice in BuildPlan.
- NetworkFiles: the rendered text of files is a given function of the interface; files that are not UTF-8 make the capture fail before anything is written.
- Listing: lower-casing, suffix extraction and the rounding of sizes to floats are given functions; the directory does not change between the scan and the metadata reads.
- Search: pattern matching and case folding are given functions; directories form a finite tree because symbolic links are not followed.
- Uploads: path and permission checks, and the import of a finished file, which is handed over whether or not it succeeds. A finished session leaves the list and hands over its file in one step.
- Activity: sanitizing of details, queries and summaries.
- JsonDepth: the decoding that follows the scan and the rejection of non-finite numbers.
- Dns.ParsedResponsesAreWellFormed: the grammar has neither the 255-octet limit of names nor any constraint on pointer targets, because the parser checks neither and follows no pointer.
- Dns: addresses are kept as bytes, not as text, and sockets are not modelled.
- HTTP routers, permission checks, audit logging, samplers, dashboards and the frontend: plumbing without hard properties.
