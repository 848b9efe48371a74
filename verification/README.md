# kube-greencosts: a verified model

kube-greencosts puts idle workloads to sleep outside availability windows and runs batch jobs when electricity is
cheap. This project models three parts of it and proves properties of them over all inputs, all failures and all
runs. `dafny verify dfyconfig.toml` checks everything.

**Hibernation** (`Cluster`, `Autoscalers`, `Hibernation`, `Protocol`, `Recovery`, `Ownership`, `StaleReads`,
`Convergence`, `Controllers`, `Turns`, `Cycle`). A cluster is a map of workloads and a list of autoscalers, both carrying
annotations. Hibernating marks and scales a workload and then suspends its autoscaler; waking restores the autoscaler and then
clears the workload. `Protocol` cuts each call between its reads and its patches: a policy works from a listing it made
earlier, any number of policies interleave, any patch may fail, any policy may be abandoned, and users and autoscalers
keep editing what is theirs. The central idea is the *view*: the configuration a user would see if everything saved in
annotations were put back. No run of the controllers changes it, wherever its patches land, and from every reachable
state one successful wake turns a sleeping workload and its autoscaler into what the view says. Safety, that a suspended
autoscaler belongs to a marked workload, holds in every run in which no marking patch lands on a workload that another
policy is at work on; `StaleReads` proves that condition exact for workloads that have an autoscaler, and `Ownership`
that policies respect each other's workloads exactly when no marking patch lands late at all. `Controllers` holds both
controllers as they run against a mutable API server, each proved against the same functions, and their agreement;
`Turns` shows that in their loops every workload ends as if its own call were the only one, and `Cycle` follows a whole
night over all workload types in which anything may fail, and the morning after.

**Scheduling** (`Prices`, `Optimal`, `Edges`, `BestTime`, `Cron`, `History`, `Scheduler`, `Decisions`, `CronRuns`,
`OneJob`, `Names`, `Text`). The scorer integrates a price step function; it is proved against the plain sum, second by second, of the
price in force. On evenly spaced points the selected start is at least as good as every other instant the points cover;
on any points, under either strategy, it is so exactly when finitely many other starts are no better, and the same is
proved of the planned time over its whole window. One reconcile of a cron job is a function of the stored objects, the
inputs read and the calls that succeed, refined by the reconciler in `Scheduler`; `Decisions` states when it dispatches,
skips, plans, waits and fails, `CronRuns` and `OneJob` prove what holds over whole runs.

**Windows and governance** (`Windows`, `Governance`). When workloads are awake, when the next window opens, when to
look again, and which cluster policy governs which workload.

## Conventions

- Instants and durations are whole seconds (stored Kubernetes times are); prices are exact reals; a time zone is a
  fixed offset. A cron schedule is its function "next firing after t".
- The short hash is any function to ten hexadecimal characters; node-selector JSON is any pair of functions that
  round-trips. A patch replaces the fields that differ between what was read and what is wanted (section 2 of
  RFC 7396).
- Whether a call to the API server succeeds is chosen freely at each call; specification functions take the choice as
  an argument. The server counts its refusals, which no other code does, and every method promises that it fails only
  when one was added and otherwise did what the function says when all calls succeed (`Controllers.Answered`,
  `Scheduler.AllSucceed`).
- `Recovery.StartOk` lists what is assumed of a cluster before the controllers run: supported kinds, counts within
  int32 and not negative, at most one autoscaler per workload, no workload named like a parking placeholder, none of
  the controllers' annotations. In particular every later marker names its owner; markers without an owner belong to
  every policy (`Cluster.OwnedBy`).
- In `Protocol` a policy reads everything when it lists, marks and clears with patches computed from what it read then,
  and turns to each listed workload once; the cluster controller's fresh read is a listing just before the call
  (`Ownership.HibernateIsRun`). A policy lists only between calls. It is *at work on* a workload while it is suspending
  its autoscaler or clearing it, and while it has it listed as its own and has not come to it yet (`Protocol.Claims`).
  In the model a policy may hibernate some and wake other workloads of one listing, which one reconcile does not; every
  run of the code is still a run of the model. A claim by listing costs safety in either mode: `StaleReads.WaitingIsFatal`
  continues it by the policy waking, `StaleReads.HibernatingClaimIsFatal` without the policy waking anything.
- A cron job's reconcile reads the clock when it starts and again when its status patch is done. The work queue
  (controller-runtime v0.21) ignores a pause that is not positive.

## Where the code falls short of what one might expect

- A second autoscaler for one workload breaks safety (`Ownership.SecondAutoscalerStaysSuspended`); the exact condition
  is `Ownership.WakeRestoresAllIff`.
- README.md:385 of the repository and the webhook admit an estimated duration equal to the schedule window, but the
  window's points leave out the one that closes its last slot, so such a job is never schedulable
  (`Prices.FullWindowNeverFits`; exact condition `Prices.ScoresInWindowIff`).
- README.md:24, :35 and :348 of the repository promise the cheapest slot within the window. For the same reason starts
  whose run reaches into the window's last slot are never compared, and one of them may be cheaper
  (`BestTime.LastSlotBargainMissed`); exact conditions `BestTime.PlannedTimeIsBestIff` and, over the points of an aligned
  window, `BestTime.PlannedTimeIsBestUnlessLastSlot`.
- Runs are only started at points. On uneven slots, or for a duration that is not a whole number of slots, a start in
  between may be cheaper (`Edges.UnalignedStartIsCheaper`); exact condition `Edges.BestIsOptimalIff`.
- The custom resource sets no minimum for the history limits. A negative limit makes every reconcile panic or fail
  before it dispatches anything, possibly after deleting all finished jobs of the kind; none does otherwise
  (`History.CronJobObjects.SyncActiveJobs`, `Scheduler.ReconcileCronJob`).
- A marking patch carries no version. Landing on a workload another policy has marked since the listing, it takes the
  workload over (`Ownership.LateIffTakesOver`, over runs `Ownership.OwnersRespectedIff`); landing on one another policy
  is at work on, it lets an autoscaler end up suspended beside an awake workload (`StaleReads.StaleMarkBreaksSafety`).
  The latter is possible if and only if another policy was at work on the workload (`StaleReads.ClaimDecides`).
- A rescale between listing an awake workload and marking it is lost (`StaleReads.RescaleLostToMark`; exact condition
  `Recovery.MarkKeepsViewIff`).
- A rescale between reading a sleeping workload and clearing it survives the wake when the count read was already the
  saved one (`StaleReads.RescaleSurvivesWake`; exact condition `Protocol.ClearedIsView`).
- The paths that fire at once name the Job after the clock, so retries after failed status patches may leave any number
  of Jobs for one occurrence (`OneJob.RetriesPileUp`); exact condition for one retry `OneJob.RetryReusesNameIff`.
- The pause until a planned time or the next occurrence is worked out after the status patch and not checked to be
  positive. When the patch takes until that instant and changes nothing, the firing waits for an unrelated event
  (`OneJob.SlowPatchLosesFiring`; exact conditions `OneJob.FiringLostIff` and `OneJob.OccurrenceLostIff`).

## Model

| member | source | states |
|---|---|---|
| Text.AtoiItoa | internal/controller/hibernatepolicy_controller.go:660-669 | A number written with Itoa reads back as itself, for every int64 |
| Cluster.CountRoundTrip | internal/controller/hibernatepolicy_controller.go:660-669 | A saved replica count is read back exactly |
| Cluster.SavedCountText | internal/controller/hibernatepolicy_controller.go:660-669 | Digits, signed or not, read as the number they spell within int64; negative, empty and any other text reads as one |
| Cluster.ToInt32IsCongruent | internal/controller/hibernatepolicy_controller.go:299-300 | A restored count is the one int32 congruent to the saved number |
| Cluster.MarkerBelongsTo | internal/controller/hibernatepolicy_controller.go:685-693 | Two policies can both own a workload only through a marker that names no owner, and then all do |
| Names.ShortLabelValue | internal/controller/helpers.go:217-230 | A label value stays within 63 characters; short ones are kept, long ones end in their hash |
| Names.ShortLabelShape | internal/controller/helpers.go:222-229 | A long value becomes its first 52 characters without what trails them, a dash and its hash, or its hash alone |
| Names.ShortenedShape | internal/controller/helpers.go:232-249 | Shortening keeps the whole suffix and the 63-character limit; before it stand the part of the prefix that fits, without what trails it, and the hash, or the hash alone |
| Names.JobNameShape | internal/controller/energyawarecronjob_controller.go:422-424 | Every Job name is the cron job's name, or that stem with the hash of the name, then a dash and the whole Unix second, within 63 characters |
| Names.JobNamesDistinct | internal/controller/energyawarecronjob_controller.go:284-291 | For non-negative seconds, equal Job names of one cron job mean equal seconds |
| Cluster.MergeFresh | internal/controller/clusterhibernatepolicy_controller.go:409-416 | A patch against an unchanged object installs the wanted object |
| Autoscalers.DetachedNameIsParked | internal/controller/helpers.go:213-215 | A parked autoscaler points at a placeholder name |
| Autoscalers.DetachedNamesCollide | internal/controller/helpers.go:213-215 | Two autoscalers are parked on one name exactly when the hashes of their kinds and names collide |
| Autoscalers.SuspendedFormKeepsView | internal/controller/helpers.go:125-149 | Suspending overwrites nothing it has not saved: bounds, target and user annotations stay recoverable |
| Autoscalers.RestoredFormIsView | internal/controller/helpers.go:186-205 | Restoring gives back minimum, maximum and target and leaves none of the controllers' annotations |
| Hibernation.SleepReplicasOk | internal/controller/hibernatepolicy_controller.go:253-267 | Scaling down saves the replica count and marks the workload as the policy's |
| Hibernation.SleepDaemonOk | internal/controller/hibernatepolicy_controller.go:511-524 | Sleeping a daemon set saves its node selector and marks it as the policy's |
| Hibernation.AsleepRunsOnLabelledNodes | internal/controller/hibernatepolicy_controller.go:521-524 | A sleeping daemon set runs exactly on the nodes labelled for it |
| Hibernation.SavedSelectorIff | internal/controller/clusterhibernatepolicy_controller.go:594-601 | A saved selector comes back exactly when its text can be read; otherwise none does |
| Hibernation.ReportedIff | internal/controller/clusterhibernatepolicy_controller.go:380-530 | A workload is reported hibernated iff it ends marked by the policy, or by none, and its kind is covered, or it is a daemon set whose patch was refused |
| Hibernation.WakeFormIsView | internal/controller/hibernatepolicy_controller.go:299-304 | Waking gives back the saved count or selector and removes every marker |
| Hibernation.FindForRestoreFinds | internal/controller/helpers.go:173-185 | The lookup before restoring finds the workload's one autoscaler, parked or not |
| Hibernation.FindHpaFinds | internal/controller/helpers.go:256-269 | The lookup before suspending finds it exactly when it is not parked |
| Hibernation.SuspendIntact | internal/controller/helpers.go:103-155 | Suspending keeps everything recoverable and the view and touches no other autoscaler, even if the workload is awake by now |
| Hibernation.SuspendOk | internal/controller/helpers.go:103-155 | Suspending the autoscaler of a marked workload keeps the cluster sound as well |
| Hibernation.RestoreIntact | internal/controller/helpers.go:161-211 | Restoring keeps everything recoverable and the view, gives back what was configured and leaves no autoscaler of the workload suspended |
| Hibernation.RestoreOk | internal/controller/helpers.go:161-211 | It keeps a sound cluster sound as well |
| Protocol.ClearMerges | internal/controller/hibernatepolicy_controller.go:299-305 | What the clearing patch leaves on a workload changed in any way since it was read |
| Protocol.ClearedIsView | internal/controller/clusterhibernatepolicy_controller.go:550-559 | What the clearing patch leaves on a workload edited meanwhile, and the exact exception for a rescale in between |
| Protocol.MarkMerges | internal/controller/clusterhibernatepolicy_controller.go:388-418 | What the marking patch leaves on a workload changed since it was listed: the policy's own markers, the count or selector it read, the user's live annotations |
| Protocol.BeginHibernateOk | internal/controller/hibernatepolicy_controller.go:237-272 | Marking from an earlier listing keeps every interleaved policy sound unless the patch lands on a workload another policy is at work on |
| Protocol.FinishHibernateOk | internal/controller/clusterhibernatepolicy_controller.go:419-422 | Suspending later, whoever acted in between, keeps the invariant and the view |
| Protocol.BeginWakeOk | internal/controller/clusterhibernatepolicy_controller.go:538-552 | Restoring the autoscaler first keeps the invariant and the view |
| Protocol.FinishWakeOk | internal/controller/clusterhibernatepolicy_controller.go:553-559 | Clearing last keeps the invariant, and the view but for the rescale exception |
| Protocol.EditOk | internal/controller/hibernatepolicy_controller.go:258-305 | Users and autoscalers editing counts, bounds and their own annotations keep the invariant |
| Protocol.RunOk | internal/controller/helpers.go:103-211 | The invariant holds in every state of every interleaving, with any failures, in which no marking patch lands on a workload another policy is at work on |
| Recovery.SuspendedImpliesMarkedAlways | internal/controller/hibernatepolicy_controller.go:261-305 | In every such run from an untouched cluster a suspended autoscaler's workload is marked hibernated |
| Recovery.SoundAlways | internal/controller/clusterhibernatepolicy_controller.go:380-629 | In every run whatever, users and autoscalers editing and patches landing anywhere, everything saved can be put back |
| Recovery.MarkKeepsViewIff | internal/controller/hibernatepolicy_controller.go:253-267 | A marking patch saves exactly what was configured iff the count it read is not outdated |
| Recovery.ConfigurationConserved | internal/controller/clusterhibernatepolicy_controller.go:380-629 | No run of the controllers, complete or cut short and wherever patches land, loses anything the user configured |
| Recovery.SavedIsLastAwake | internal/controller/clusterhibernatepolicy_controller.go:409-415 | What a sleeping workload will get back is the count it had when last awake, in every run, edits included, in which no marking patch saves an outdated count |
| Recovery.SelectorConserved | internal/controller/clusterhibernatepolicy_controller.go:478-489 | And the selector it will get back is the one it began with, in every run whatever |
| Recovery.SavedIsLastFree | internal/controller/helpers.go:125-149 | What a suspended autoscaler will get back is what it had when last free, in every run whatever |
| Recovery.WakeRecovers | internal/controller/clusterhibernatepolicy_controller.go:533-629 | From every reachable state, safe or not, one failure-free wake by the owner restores workload and autoscaler as configured and touches nothing else |
| Recovery.NextCycleMends | internal/controller/clusterhibernatepolicy_controller.go:380-629 | Where a workload is awake beside its suspended autoscaler, putting it to sleep and waking it once more brings the autoscaler back |
| Recovery.WakeUndoesRun | internal/controller/clusterhibernatepolicy_controller.go:533-629 | After any controller run a failure-free wake by the owner gives back the workload the run began with and leaves no autoscaler of it suspended |
| Recovery.WakeUndoesRunOnHpa | internal/controller/helpers.go:161-211 | And the autoscaler the run began with |
| Recovery.HibernateResumes | internal/controller/clusterhibernatepolicy_controller.go:392-400 | From every reachable state a failure-free hibernate of an owned workload suspends its autoscaler again and rewrites no saved original |
| Convergence.SuspendHolds | internal/controller/helpers.go:133-149 | A suspended autoscaler still targets the workload and is pinned to a positive cap, or for zero is parked away with its bounds kept |
| Convergence.HibernateCaps | internal/controller/helpers.go:63-77 | A workload is slept exactly when above the cap, then runs at the cap with its autoscaler held; otherwise nothing changes |
| Convergence.HibernateMovesDaemonSet | internal/controller/clusterhibernatepolicy_controller.go:464-489 | An awake daemon set is slept exactly when the action asks for it, and then moves to labelled nodes, marked by the policy |
| Convergence.NothingToHandle | internal/controller/clusterhibernatepolicy_controller.go:385-391 | A workload that is gone or of another kind is left alone without an error |
| Convergence.HibernateConverges | internal/controller/clusterhibernatepolicy_controller.go:380-530 | A hibernate that broke off anywhere, repeated, ends where an undisturbed one does |
| Convergence.WakeConverges | internal/controller/clusterhibernatepolicy_controller.go:533-629 | A wake that broke off anywhere, repeated, ends where an undisturbed one does |
| Ownership.StepLeavesOthersAlone | internal/controller/hibernatepolicy_controller.go:243-252 | No step of another policy changes a sleeping workload or its autoscaler, late marking patches apart |
| Ownership.RunLeavesOthersAlone | internal/controller/hibernatepolicy_controller.go:685-693 | Nor does any run of other policies in which no marking patch lands late |
| Ownership.OnlyOwnerReleases | internal/controller/hibernatepolicy_controller.go:671-693 | A sleeping workload loses its owner exactly when that owner finishes waking it or a marking patch lands on it late |
| Ownership.OwnerStaysUntilOwnWake | internal/controller/hibernatepolicy_controller.go:671-693 | Over whole runs without late marking patches the owner changes only through its own wake |
| Ownership.LateMarkTakesOver | internal/controller/clusterhibernatepolicy_controller.go:388-416 | A late marking patch gives the workload to its sender and saves the count read before |
| Ownership.LateIffTakesOver | internal/controller/hibernatepolicy_controller.go:243-267 | A step passes a sleeping workload to another policy iff it is a marking patch landing late |
| Ownership.OwnersRespectedIff | internal/controller/hibernatepolicy_controller.go:243-267 | Over a whole run no policy takes over another's sleeping workload iff no marking patch lands late |
| Ownership.HibernateIsRun | internal/controller/clusterhibernatepolicy_controller.go:380-530 | Every call of hibernateWorkload, with any failure, is a run of the protocol in which no marking patch is late |
| Ownership.WakeIsRun | internal/controller/clusterhibernatepolicy_controller.go:533-629 | Every call of wakeWorkload, with any failure, is one too |
| Ownership.HibernateLeavesOthersAlone | internal/controller/clusterhibernatepolicy_controller.go:392-400 | A hibernate call of another policy leaves the workload and its autoscaler alone |
| Ownership.WakeLeavesOthersAlone | internal/controller/clusterhibernatepolicy_controller.go:544-549 | A wake call of another policy does too |
| StaleReads.ClaimDecides | internal/controller/hibernatepolicy_controller.go:221-276 | After a late marking patch the controllers can lose safety, without another one, iff another policy was at work on the workload |
| StaleReads.ClaimIsFatal | internal/controller/hibernatepolicy_controller.go:221-310 | Each way of being at work on it, suspending, clearing or about to, is continued to a suspended autoscaler of an awake workload |
| StaleReads.HibernatingClaimIsFatal | internal/controller/hibernatepolicy_controller.go:236-251 | A claim by listing is continued so also without its policy waking anything |
| StaleReads.StaleMarkBreaksSafety | internal/controller/hibernatepolicy_controller.go:221-310 | The run in full, from every untouched cluster with an autoscaled workload |
| StaleReads.RescaleLostToMark | internal/controller/hibernatepolicy_controller.go:253-267 | A rescale between listing and marking is lost: the count listed is saved |
| StaleReads.RescaleSurvivesWake | internal/controller/hibernatepolicy_controller.go:299-305 | A run after which a woken workload keeps a count set while it was being woken |
| Ownership.WakeRestoresAllIff | internal/controller/helpers.go:173-188 | A wake leaves no autoscaler suspended iff each suspended one is the one the lookup finds |
| Ownership.SecondAutoscalerStaysSuspended | internal/controller/helpers.go:256-291 | With two autoscalers, two hibernates to zero and a wake leave the second suspended on an awake workload |
| Controllers.ApiServer.PatchWorkload | internal/controller/clusterhibernatepolicy_controller.go:416-418 | A patch merges what changed into what is live, or is refused and changes nothing |
| Controllers.ApiServer.FindByTarget | internal/controller/helpers.go:256-269 | findHPA returns the first autoscaler targeting the workload |
| Controllers.ApiServer.FindBySavedTarget | internal/controller/helpers.go:271-291 | findSuspendedHPA returns the first one whose saved target is the workload |
| Controllers.ApiServer.SuspendHpa | internal/controller/helpers.go:103-155 | suspendHPA computes Autoscalers.Suspend; an error exactly when a patch was refused |
| Controllers.ApiServer.RestoreHpa | internal/controller/helpers.go:161-211 | restoreHPA computes Autoscalers.Restore; an error exactly when a patch was refused |
| Controllers.ApiServer.SuspendHpaForAction | internal/controller/helpers.go:79-91 | Without a cap nothing is suspended, with one suspendHPA is called for it |
| Controllers.ApiServer.HibernateOne | internal/controller/clusterhibernatepolicy_controller.go:380-530 | hibernateWorkload computes Hibernation.HibernateWorkload; it returns an error exactly when one of its patches was refused, and otherwise both count as landed |
| Controllers.ApiServer.HibernateReplicas | internal/controller/clusterhibernatepolicy_controller.go:388-422 | Its branch for replica workloads does; without a refusal the workload sleeps with its autoscaler suspended |
| Controllers.ApiServer.HibernateDaemonSet | internal/controller/clusterhibernatepolicy_controller.go:464-489 | Its branch for daemon sets does; an error exactly when a patch was refused |
| Controllers.ApiServer.WakeOne | internal/controller/clusterhibernatepolicy_controller.go:533-629 | wakeWorkload computes Hibernation.WakeWorkload; an error exactly when a patch was refused |
| Controllers.ApiServer.ReconcileRefs | internal/controller/clusterhibernatepolicy_controller.go:138-161 | The cluster controller wakes or hibernates all refs, goes on after errors and reports the hibernated ones; it fails exactly when a patch was refused |
| Controllers.ApiServer.SleepReplicaWorkload | internal/controller/hibernatepolicy_controller.go:243-274 | One turn of the replica loops, on the item as listed, computes Hibernation.HibernateWorkload; an error exactly when a patch was refused |
| Controllers.ApiServer.SleepDaemonSet | internal/controller/hibernatepolicy_controller.go:504-528 | One turn of the daemon set loop does too; an error exactly when a patch was refused |
| Controllers.ApiServer.WakeRead | internal/controller/hibernatepolicy_controller.go:290-307 | One turn of the wake loops computes Hibernation.WakeWorkload; an error exactly when a patch was refused |
| Controllers.ApiServer.HibernateListed | internal/controller/hibernatepolicy_controller.go:230-277 | The loop over a listing read up front equals fresh per-workload calls, stopping at the first error; an error occurs exactly when a patch was refused |
| Controllers.ApiServer.WakeListed | internal/controller/hibernatepolicy_controller.go:279-310 | So does the wake loop |
| Controllers.ApiServer.ReconcileTypes | internal/controller/hibernatepolicy_controller.go:126-142 | One type after the other, each getting its turn although another broke off, computes Controllers.HibernateTypes or WakeTypes; it fails exactly when a patch was refused |
| Controllers.HibernatesAgree | internal/controller/hibernatepolicy_controller.go:182-531 | Without failures both controllers, written out separately, leave the same cluster and report the same workloads |
| Controllers.WakesAgree | internal/controller/hibernatepolicy_controller.go:209-568 | Without failures both wakes leave the same cluster |
| Controllers.ReconcilesAgree | internal/controller/hibernatepolicy_controller.go:133-207 | Without failures a whole reconcile over all types, behind the namespace controller's gates, equals the cluster controller's one loop |
| Controllers.WakingReconcilesAgree | internal/controller/hibernatepolicy_controller.go:126-131 | So does a waking one |
| Controllers.StandaloneIff | internal/controller/clusterhibernatepolicy_controller.go:357-364 | What the cluster controller is left with of a listing is all but the ReplicaSets that a Deployment owns |
| Turns.EachCollectedSleepsAlone | internal/controller/clusterhibernatepolicy_controller.go:138-161 | In the cluster controller's loop each workload ends as if its own call were the only one, whatever fails elsewhere, and is reported so |
| Turns.EachCollectedWakesAlone | internal/controller/clusterhibernatepolicy_controller.go:138-161 | So it does in the waking loop |
| Turns.EachTypeSleepsAlone | internal/controller/hibernatepolicy_controller.go:133-142 | A type from which no patch is refused gets its due, workload by workload, whatever breaks off before or after it |
| Turns.BrokenTypeReportsNothing | internal/controller/hibernatepolicy_controller.go:133-142 | A type whose loop broke off reports none of its workloads |
| Turns.NothingAskedNothingDone | internal/controller/hibernatepolicy_controller.go:182-207 | An action that asks for nothing changes and reports nothing |
| Turns.EachTypeWakesAlone | internal/controller/hibernatepolicy_controller.go:126-131 | Waking, each type gets its due likewise |
| Cycle.HibernateCallIsSound | internal/controller/clusterhibernatepolicy_controller.go:380-530 | Any call with any failure keeps the cluster sound and every configuration recoverable |
| Cycle.NightKeepsSound | internal/controller/hibernatepolicy_controller.go:133-142 | A hibernating reconcile over any types, each loop stopping at its first error, keeps the cluster sound and the view, and sleeps only listed workloads |
| Cycle.MorningWakesAll | internal/controller/hibernatepolicy_controller.go:126-131 | A failure-free waking reconcile over any types keeps the view and leaves nothing listed asleep |
| Cycle.NightAndMorning | internal/controller/hibernatepolicy_controller.go:126-142 | A hibernating reconcile with any failures, then a failure-free waking one that lists at least as much, gives back every workload and autoscaler |
| Governance.OnePolicyGoverns | internal/controller/clusterhibernatepolicy_controller.go:311-331 | No workload is governed by two cluster policies |
| Governance.RefStringInjective | internal/controller/clusterhibernatepolicy_controller.go:83-85 | Deduplicating by namespace/kind/name text confuses no two workloads |
| Governance.GovernedIff | internal/controller/clusterhibernatepolicy_controller.go:57-70 | Governed in the listing's own fields: it carries the policy's annotation, or none and its namespace does, no Deployment owns it, and its kind is included or, without inclusions, not excluded |
| Governance.Add | internal/controller/clusterhibernatepolicy_controller.go:222-233 | Adding keeps refs free of repeats and adds exactly allowed kinds |
| Governance.AllWorkloadsInNamespace | internal/controller/clusterhibernatepolicy_controller.go:311-373 | Exactly the namespace's workloads not pointing at another policy, without Deployment-owned ReplicaSets |
| Governance.CollectAnnotated | internal/controller/clusterhibernatepolicy_controller.go:253-306 | Adds every allowed workload annotated with the policy itself and nothing ungoverned |
| Governance.CollectWorkloads | internal/controller/clusterhibernatepolicy_controller.go:201-309 | Exactly the governed workloads, each once: those that opted in and whose kind is included or, without inclusions, not excluded |
| Windows.ClockTextParses | internal/controller/helpers.go:55-62 | Five-character times parse exactly when they have the admitted form, and to the minute shown |
| Windows.OtherTextsParse | internal/controller/helpers.go:54-61 | A time with one hour digit reads as with a leading zero; no other text parses |
| Windows.WeekdayNames | internal/controller/hibernatepolicy_controller.go:637-656 | The names Sun to Sat stand for the days of the week in order; only Sunday goes by other texts |
| Windows.InsideByCalendar | internal/controller/hibernatepolicy_controller.go:576-597 | A window contains exactly the instants of a named day, counted from Sunday 4 January 1970, from one clock text up to the other in local time |
| Windows.OfficeHoursOnMonday | internal/controller/hibernatepolicy_controller.go:576-597 | In the week of Monday 5 January 2026 a Monday window from 08:00 to 17:00 contains exactly those hours of that day |
| Windows.AdmittedIff | internal/webhook/hibernatepolicy_webhook.go:82-105 | For texts of the admitted form: the zone loads, the empty one being UTC, and the window ends after it begins |
| Windows.ValidateAvailabilityWindows | internal/webhook/hibernatepolicy_webhook.go:82-105 | The webhook accepts exactly loadable zones, parsable times and from before until |
| Windows.IsInAvailabilityWindow | internal/controller/hibernatepolicy_controller.go:574-597 | True exactly when some window contains now, with the end of one that does |
| Windows.InsideUntilEnd | internal/controller/hibernatepolicy_controller.go:580-594 | From inside a window every instant before its end is inside it |
| Windows.EightDaysSuffice | internal/controller/hibernatepolicy_controller.go:608-623 | If a window ever opens again, it does so today or within seven days |
| Windows.NextOpeningOf | internal/controller/hibernatepolicy_controller.go:602-624 | The search over eight days finds the least later opening of a window, or there is none on any day |
| Windows.NextAvailabilityWindowStart | internal/controller/hibernatepolicy_controller.go:599-626 | The least later opening over all windows and all days |
| Windows.NextOpeningIsLeastInside | internal/controller/hibernatepolicy_controller.go:599-626 | From outside all admitted windows it is the least later instant inside any of them |
| Windows.NoOpeningIffNoWindows | internal/controller/hibernatepolicy_controller.go:599-626 | There is none exactly when there are no windows, given a weekday in each |
| Windows.RequeueAfter | internal/controller/hibernatepolicy_controller.go:163-175 | The pause is positive and five minutes, or less and then up to the boundary |
| Windows.Requeue | internal/controller/hibernatepolicy_controller.go:120-177 | With two clock readings the status is constant over the pause if the second precedes the boundary; from outside all windows only then, from inside exactly if other windows cover the rest of the pause |
| Windows.RequeueAtOnce | internal/controller/clusterhibernatepolicy_controller.go:182-194 | With one clock reading the pause never jumps over a change of status |
| Prices.CurrentPricePoint | internal/controller/energypricesource_metrics.go:141-156 | On an increasing list the latest point not after now, or none |
| Prices.PricePointScore | internal/controller/energyawarecronjob_controller.go:530-570 | Scores exactly the starts whose run fits, with the constant price at which the run would cost the same; without a duration every point not after the window's end, with its price |
| Prices.Accumulate | internal/controller/energyawarecronjob_controller.go:545-568 | On any list the loop covers the duration exactly when rising points reach its end, summing slot by slot |
| Prices.CostIsTickSum | internal/controller/energyawarecronjob_controller.go:530-570 | A start scores iff its end is within window and last point; then score times duration is the price in force summed over every second |
| Prices.CostInAnyOrder | internal/controller/energyawarecronjob_controller.go:545-568 | On a list in any order a start can be scored iff its run ends within the window and the points from it on rise up to one not before its end |
| Prices.CostOfRisingPoints | internal/controller/energyawarecronjob_controller.go:545-568 | And then it costs what the prices of those points add up to, second by second |
| Prices.SplitKeepsCosts | internal/controller/energyawarecronjob_controller.go:530-570 | Splitting a slot into equal-priced parts changes no score |
| Prices.SelectPricePoint | internal/controller/energyawarecronjob_controller.go:478-528 | Selects the best scoring point, the earliest on ties; each error exactly in its case; without a duration the cheapest or dearest point not after the window's end |
| Prices.BestIsUnique | internal/controller/energyawarecronjob_controller.go:498-522 | The selection is determined |
| Prices.HighestIsLowestNegated | internal/controller/energyawarecronjob_controller.go:510-521 | HighestPrice is LowestPrice on negated prices |
| Prices.FilterPricesInWindow | internal/controller/energyawarecronjob_controller.go:463-476 | The window's points in their order |
| Prices.InWindowIff | internal/controller/energyawarecronjob_controller.go:463-476 | Exactly the points at or after the start and before the end |
| Prices.ScoresInWindowIff | internal/controller/energyawarecronjob_controller.go:196-214 | A run from a window point scores iff it ends by the last point inside the window, so strictly before the window ends |
| Prices.FullWindowNeverFits | internal/webhook/energyawarecronjob_webhook.go:80-86 | A duration equal to the window, which the webhook admits, is never schedulable |
| Optimal.AlignedStartIsAsGood | internal/controller/energyawarecronjob_controller.go:498-522 | On evenly spaced points every start is matched by a point next to it |
| Optimal.LowestIsGloballyCheapest | internal/controller/energyawarecronjob_controller.go:478-570 | The selected start costs no more than any start instant, aligned or not |
| Optimal.HighestIsGloballyDearest | internal/controller/energyawarecronjob_controller.go:478-570 | And under HighestPrice no less |
| Optimal.NothingFitsIff | internal/controller/energyawarecronjob_controller.go:523-525 | Nothing is selected exactly when no start instant would do |
| BestTime.WindowPrices | internal/controller/energypricesource_metrics.go:141-156 | Inside the window the filtered list prices every instant as the published list does |
| Edges.EdgeIsAsGood | internal/controller/energyawarecronjob_controller.go:530-570 | On any increasing list and for any duration every start is matched by one whose run begins or ends at a point or with the stretch |
| Edges.BestIsOptimalIff | internal/controller/energyawarecronjob_controller.go:478-570 | The selected point is as good as every start instant iff it is as good as each run that ends at a point |
| Edges.UnalignedStartIsCheaper | internal/controller/energyawarecronjob_controller.go:478-570 | Prices and a duration for which a start between points is cheaper than the selected one |
| BestTime.PlannedTimeIsBestIff | internal/controller/energyawarecronjob_controller.go:196-245 | Under either strategy, for any spacing and duration, a planned time is the best start of the whole window iff no start at an edge that was not compared is a bargain |
| BestTime.PlannedTimeIsBestCounted | internal/controller/energyawarecronjob_controller.go:196-245 | With whole slots it is the best of all instants from which the run ends by the window's last point |
| BestTime.LastRunCost | internal/controller/energyawarecronjob_controller.go:463-476 | What the run costs that ends with the window, from the last compared run and the prices of two slots |
| BestTime.PlannedTimeIsBestUnlessLastSlot | internal/controller/energyawarecronjob_controller.go:196-245 | With whole slots in a window its points span, it is the best start iff the last slot is no bargain, for one when that is no better than the slot the last compared run begins in |
| BestTime.LastSlotBargainMissed | internal/controller/energyawarecronjob_controller.go:463-476 | Prices for which the start chosen costs five times the cheapest one of the window |
| Cron.NextScheduleTime | internal/controller/energyawarecronjob_controller.go:438-461 | The catch-up loop computes Cron.NextSchedule |
| Cron.CatchUpIsExact | internal/controller/energyawarecronjob_controller.go:441-461 | With a deadline it succeeds iff at most 100 firings were missed, giving the least firing not before the cutoff |
| Cron.WithoutDeadlineNothingIsSkipped | internal/controller/energyawarecronjob_controller.go:441-449 | Without a deadline it is the least firing after the last run |
| Cron.MinimumCronInterval | internal/webhook/energyawarecronjob_webhook.go:128-147 | The least of 999 consecutive gaps |
| Cron.SampleBoundsAllGaps | internal/webhook/energyawarecronjob_webhook.go:128-147 | For gaps repeating with period at most 999 it bounds every gap there will ever be |
| Cron.ValidateSpec | internal/webhook/energyawarecronjob_webhook.go:72-126 | Each verdict exactly in its case: accepted iff the duration is within the window and the window is zero or the schedule parses and no sampled gap is shorter than the window |
| Cron.ScheduleTextShape | internal/webhook/energyawarecronjob_webhook.go:99-107 | A schedule keeps its own zone prefix; otherwise it is read in the given zone or UTC |
| Cron.SuccessorIsNextIff | internal/controller/energyawarecronjob_controller.go:446-450 | Serving an occurrence at t leaves its successor next iff t comes before that successor |
| Cron.AdmittedWindowEndsInTime | internal/webhook/energyawarecronjob_webhook.go:88-123 | An admitted window closes no later than the next firing |
| History.JobFinished | internal/controller/energyawarecronjob_controller.go:572-581 | The kind of the first true condition that ends a job, none exactly when the job still runs |
| History.OutcomeIff | internal/controller/energyawarecronjob_controller.go:572-581 | The same of the function the other properties use |
| History.OfKindIff | internal/controller/energyawarecronjob_controller.go:336-363 | The jobs pruned as successful are the completed ones, those pruned as failed the failed ones |
| History.LastSuccessIsMaximum | internal/controller/energyawarecronjob_controller.go:351-359 | The last success is the maximum of its old value and all completion times, pruned jobs included |
| History.CronJobObjects.Classify | internal/controller/energyawarecronjob_controller.go:336-363 | One pass yields running jobs, last success and both kinds of finished jobs |
| History.CronJobObjects.DeleteExcess | internal/controller/energyawarecronjob_controller.go:367-401 | Keeps min(count, limit) jobs of a kind, deleting none that started later than a kept one; panics only for a negative limit, for which it never succeeds |
| History.CronJobObjects.SyncActiveJobs | internal/controller/energyawarecronjob_controller.go:320-404 | Never deletes a running job; without a refused delete it meets both limits exactly, 3 and 1 by default, or panics on a negative one |
| History.CronJobObjects.Create | internal/controller/energyawarecronjob_controller.go:284-290 | A name already taken is no error and keeps its job; a failed create changes nothing |
| History.KeepsBoth | internal/controller/energyawarecronjob_controller.go:367-401 | Pruning one kind does not disturb the other |
| Scheduler.ReconcileCronJob | internal/controller/energyawarecronjob_controller.go:69-246 | The reconciler computes Scheduler.Reconcile, with all calls succeeding unless one was refused, which makes it fail; it deletes only finished jobs as history and meets both limits; with a negative one it fails and serves nothing |
| Scheduler.PlanOccurrence | internal/controller/energyawarecronjob_controller.go:153-194 | The part after finding the occurrence computes Scheduler.Plan; it fails when a call was refused, and otherwise all calls count as succeeded |
| Scheduler.PlanWithPrices | internal/controller/energyawarecronjob_controller.go:196-245 | The part with prices does too |
| Scheduler.DispatchJob | internal/controller/energyawarecronjob_controller.go:248-318 | dispatchJob computes Scheduler.Dispatch; it fails when a call was refused, and otherwise all calls count as succeeded |
| Decisions.SuspendedDoesNothing | internal/controller/energyawarecronjob_controller.go:98-103 | A suspended cron job starts no Job and uses up no occurrence; with its status stored it has no plan and asks for no further reconcile |
| Decisions.DispatchIff | internal/controller/energyawarecronjob_controller.go:107-223 | Without a refused call it dispatches iff it is not suspended and a stored time has come, or an occurrence is due that no running job blocks and there is no window to choose in or the start to choose has passed |
| Decisions.DispatchStores | internal/controller/energyawarecronjob_controller.go:280-318 | A dispatch is for the stored time, or else for now; that becomes the last run, the plan is dropped and the new Job listed |
| Decisions.SkipIff | internal/controller/energyawarecronjob_controller.go:165-175 | It skips an occurrence iff that is due and a running job forbids another; then now becomes the last run |
| Decisions.PlanIff | internal/controller/energyawarecronjob_controller.go:196-245 | It plans a time for an occurrence iff that is due and not blocked and the time is the start to choose and lies ahead |
| Decisions.WaitsForOccurrence | internal/controller/energyawarecronjob_controller.go:153-162 | While the next occurrence lies ahead it is written down and waited for |
| Decisions.WaitsForStoredTime | internal/controller/energyawarecronjob_controller.go:115-119 | A stored time that lies ahead is waited for |
| Decisions.TriesAgainLater | internal/controller/energyawarecronjob_controller.go:590-606 | With no readable schedule, too many missed firings, no price source or no start to choose it tries again after 15 minutes |
| Decisions.FailsIff | internal/controller/energyawarecronjob_controller.go:182-194 | Without a refused call it fails iff the prices it needs cannot be read |
| Decisions.FailureStoresNothing | internal/controller/energyawarecronjob_controller.go:94-245 | A failed reconcile leaves the status as it was |
| CronRuns.ChoiceInWindow | internal/controller/energyawarecronjob_controller.go:196-218 | Whatever the order of prices, a chosen start and its run lie strictly inside the window |
| CronRuns.PlanOkAlways | internal/controller/energyawarecronjob_controller.go:196-245 | In every reachable state a stored time and its run lie inside the stored occurrence's window, which is still to be served |
| CronRuns.PlannedDispatchMissesNone | internal/controller/energyawarecronjob_controller.go:107-151 | After dispatching a planned time the occurrence considered next is the direct successor |
| CronRuns.AdmittedSpecMissesNone | internal/webhook/energyawarecronjob_webhook.go:116-147 | The webhook's check is enough for that |
| CronRuns.EventsAdvance | internal/controller/energyawarecronjob_controller.go:140-180 | A stored dispatch or skip serves a firing after the last run and becomes the last run |
| CronRuns.OccurrencesStrictlyIncrease | internal/controller/energyawarecronjob_controller.go:107-245 | Every dispatch and skip serves a strictly later occurrence than all before it |
| CronRuns.NamesNeverRepeat | internal/controller/energyawarecronjob_controller.go:280-311 | No two dispatches use the same Job name |
| OneJob.NeverTwoRunning | internal/controller/energyawarecronjob_controller.go:94-175 | Under Forbid and Replace no run has two unfinished Jobs, and under Forbid a stored time has only its own Job running |
| OneJob.RetriesUseOneName | internal/controller/energyawarecronjob_controller.go:107-113 | However often a stored-time dispatch is retried, only one Job name is used |
| OneJob.RetryReusesNameIff | internal/controller/energyawarecronjob_controller.go:177-223 | A repeated dispatch reuses the name iff the time was stored or the clock stood still |
| OneJob.RetriesPileUp | internal/controller/energyawarecronjob_controller.go:177-180 | Under Allow n reconciles whose status patch fails leave a fresh cron job with n running Jobs |
| OneJob.RetriesServeOne | internal/controller/energyawarecronjob_controller.go:177-180 | All of them for one occurrence |
| OneJob.PileNamesDiffer | internal/controller/energyawarecronjob_controller.go:422-424 | And under different names |
| OneJob.StoredStatusIsExact | internal/controller/energyawarecronjob_controller.go:320-365 | A status stored without a dispatch lists exactly the running jobs and the last success |
| OneJob.FiringLostIff | internal/controller/energyawarecronjob_controller.go:115-119 | Waiting for a stored time, nothing brings the cron job back iff it had nothing to write and its patch was done at that time or later |
| OneJob.OccurrenceLostIff | internal/controller/energyawarecronjob_controller.go:153-162 | The same while it waits for the next occurrence, iff that was written down before, too |
| OneJob.SlowPatchLosesFiring | internal/controller/energyawarecronjob_controller.go:115-119 | A patch that changes nothing and returns at the stored time or later leaves nothing that would bring it back |
| OneJob.FreshPlanNeverLost | internal/controller/energyawarecronjob_controller.go:225-245 | A time just planned is never lost: storing it is an event |

## Left out

- Price providers, the price source reconciler and secret lookup: a reconcile takes the price list, a missing source or a failed read as input.
- Cron and time-zone parsing: a schedule is any function to the next firing, zones are fixed offsets, so daylight saving is not modelled; the sentinel zero time of a schedule that never fires again is not either.
- Floating-point rounding of scores, sub-second clock readings and int64 overflow of durations.
- SHA-256: no collision freedom is assumed or claimed, so names shortened for different objects may coincide.
- JSON of node selectors beyond its round trip; selectors are patched as a whole rather than label by label.
- Get and List failures, which change nothing: only patches, creates and deletes fail in the model.
- Status conditions, messages, events and telemetry.
- Governance.CollectWorkloads: policy names are non-empty, as object names are; reported names are references, not formatted strings.
- Jobs of other cron jobs that share a shortened owner label, and Jobs whose deletion lingers in the background.
- Recovery.SavedIsLastAwake: counts are tracked for replica workloads, which alone are scaled; selectors of all kinds are covered by Recovery.SelectorConserved, no modelled actor editing them.
- StaleReads.ClaimDecides: workloads being deleted or created, and autoscalers appearing, during a run are not modelled.
- Controllers.ApiServer.PatchHpa: installs the wanted autoscaler instead of merging the difference, so an edit of its bounds between listing and patching it is not modelled.
- BestTime.PlannedTimeIsBestIff: a run of no length, which costs nothing anywhere, is outside it; the point with the best price is planned then.
