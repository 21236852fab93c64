# milvus-onprem control plane: a Dafny model

milvus-onprem runs one Python daemon per node; the daemons coordinate through
etcd. This project models the parts of that control plane whose correctness
depends on interleavings, timing, or several functions agreeing, and proves what
they guarantee in every run.

| file | component |
|---|---|
| `Etcd.dfy` | prefix scans and the retry loop of the etcd client |
| `Election.dfy`, `LeaderElector.dfy` | leader election: a timed protocol over leases, and the elector object whose methods are its steps |
| `JobRecords.dfy`, `JobProtocol.dfy` | job records, and one job key written by its owner and by any number of sweepers |
| `Topology.dfy` | the topology mirror: seed plus watch, with gaps |
| `Joining.dfy`, `NodeNames.dfy` | `/join` under its lock: names, rollback, Raft membership |
| `ClusterEnv.dfy`, `Role.dfy`, `EnvFile.dfy`, `Shell.dfy`, `ShellEnv.dfy` | cluster.env: reader, joiner file, role detection, the two upserts, sourcing |
| `PulsarDeploy.dfy`, `MigratePulsar.dfy`, `RemoveNode.dfy`, `PulsarHistory.dfy` | the Pulsar singleton: who has one, migration, removal, histories of both with joins |
| `VersionUpgrade.dfy` | the rolling upgrade |
| `LocalWatchdog.dfy`, `PeerWatchdog.dfy` | the two watchdogs |
| `Text.dfy` | strings: order, numerals, split, join, strip |

**Form.** Protocols are state machines: an event is one stretch of code between two
awaits, one server action, or the passing of time; `Enabled`, `Apply`, `Legal` and
`After` give runs, and the results quantify over every legal run of any length.
Objects that change in place are classes (`TopologyWatcher`, `LeaderElector`, `Job`,
`JobsManager`, both watchdogs, `EtcdClient`), each method tied to the function the
lemmas are about. Loops are methods with loops. Docker, HTTP and clock results are
parameters.

**Where code and documentation disagree, the model follows the code.**

- The sweep's comments say a job that was created but never ran is treated as stale
  (`daemon/jobs.py:275-278`); the code skips every record that is not `running`
  (`daemon/jobs.py:289`). `JobProtocol.PendingJobIsNeverSwept`.
- With the default 60 s heartbeat timeout and the 31 s retry schedule the sweep can
  mark a live job and overwrite `done`: `JobProtocol.MarginIsNecessary` gives the run,
  `TerminalIsFinal` the exact condition under which it cannot happen. That a stopped
  owner's job is closed in time asks less: nobody retries for an owner that is gone, so
  one attempt, with 5 s HTTP timeouts, must fit into timeout and skew, and not the whole
  call (`JobProtocol.StoppedJobIsClosedExactly`).
- "Exactly one node wins" (`daemon/leader.py:6`) holds of live leases. Of the `is_leader`
  flags it holds, without step-downs and shutdowns, if and only if the keepalive interval
  and three calls fit into the lease (`Election.FlagsAreExclusiveExactly`); the default
  15 s lease and 31 s retry schedule do not meet that, and a step-down breaks it always
  (`Election.RevokingBreaksExclusion`).
- The loop guard is said to count restarts since the container was last healthy
  (`daemon/watchdog.py:158-164`); a healthy tick clears the history only if the alert had fired.
  `LocalWatchdog.RecoveryDoesNotReset` gives a run,
  `LocalWatchdog.HistoryCountsSinceHealthyExactly` says when the count is the promised one.
- `_upsert_kv` is said to mirror `env_upsert_kv` (`daemon/handlers.py:705`). The shell's guard for an
  unterminated last line compares a command substitution, which has lost its newline,
  with a newline (`lib/env.sh:251`), so it adds one to every file that is not empty; the Python
  upsert has no guard. The two agree only on the empty file and where the unterminated
  last line is the one replaced (`EnvFile.UpsertsAgreeExactly`); both are sound for both
  readers (`EnvFile.UpsertIsSound`).
- The pool must be drained before its peer is removed (`daemon/workers/remove_node.py:11-13`), yet
  output that is no JSON, an mc error and a listing without the pool end the wait too
  (`RemoveNode.PassingMeansDrainedExactly`); and the pool is looked up by a substring, which
  an IP that ends in the target's matches as well (`RemoveNode.MatchPicksOwnExactly`).
- After an aborted migration "rerunning is safe" (`daemon/workers/migrate_pulsar.py:188-191`): it is, but
  the rerun does nothing once the leader's own file was switched
  (`MigratePulsar.RerunAfterAbort`).
- The elector's `lease_id` is documented as None for followers (`daemon/leader.py:35-36`). It is None
  until the first lease was ever granted and never again (`Election.LeaseIdIsNoneExactly`),
  and `stop` revokes a follower's losing lease (`Election.FollowerKeepsLease`).
- An entry in the topology is taken to mean membership when an IP re-joins. That is so
  exactly in the runs without the events of `Joining.Strands`
  (`Joining.EntriesMeanMembershipExactly`).
- The worker and the watchdog both claim to derive MQ_TYPE as `lib/env.sh` does
  (`daemon/workers/remove_node.py:525-528`, `daemon/watchdog.py:348-352`) and differ from each other.
  `PulsarDeploy.DerivationsAgreeExactly`.
- A quoted value reaches a joiner without its quotes: its daemon reads the same. Its
  shell takes the line literally exactly if the value is plain
  (`Shell.SourcedLiterallyExactly`); with a blank in it the line assigns the first word or
  runs the second one (`Shell.QuotesAreLost`, `Shell.FirstWordExactly`).

## Model

| member | source | states |
|---|---|---|
| Etcd.PrefixIsInterval | daemon/etcd_client.py:41-50 | prefix ≤ key < the computed range end exactly when the key starts with the prefix |
| Etcd.ScanIsFilter | daemon/etcd_client.py:201-208 | a prefix scan is refused for the empty prefix alone and otherwise equals the filter by prefix, for any store |
| Etcd.EtcdClient.Post | daemon/etcd_client.py:81-125 | answers with the first non-transient reply, raises it if it is an error, gives up exactly when all seven are transient; the endpoint index advances once per transient reply; at most 31 s of sleep, and 31 s and seven attempts in all |
| Leader.LeaderElector.Drive | daemon/leader.py:55-189 | driven through its methods by any run of the protocol, the object keeps its invariant (flag up exactly inside the hold loop, term open exactly while leading, a lease whenever racing or leading) and is at every step the protocol's elector; not racing, it neither races nor is granted a lease before its cooldown is over; from a fresh cluster a flag that is up has its own lease behind it: it holds the leader key while that lease lives, and outlives it by at most interval + 2 calls |
| Leader.LeaderElector.Handle | daemon/leader.py:55-179 | the method that runs for one event of the protocol takes the object where the protocol goes, and what it sends (create, keepalive, revoke and the lease in it) is what the protocol records |
| Leader.LeaderElector.StartCycle | daemon/leader.py:116-129 | stops when shutting down, only watches before `_skip_race_until`, and asks for a lease from then on |
| Election.EveryRunKeepsInv | daemon/leader.py:95-179 | the protocol invariant holds after every run of any number of daemons, with expiries, revokes, step-downs, cancellations, lost and duplicate requests |
| Election.CooldownHolds | daemon/leader.py:118-127 | in every run a daemon that is not racing does not race, is granted no lease and does not come to lead before its cooldown is over |
| Election.StepDownAbstains | daemon/leader.py:66-93 | so a leader that steps down with a cooldown leaves the next term to others for that long |
| Election.RacesExactlyWhenDue | daemon/leader.py:116-129 | an idle daemon asks for a lease exactly when it is not shutting down and its cooldown is over |
| Election.NextRoundRaces | daemon/leader.py:104-129 | a deleted leader key and the end of a backoff lead to that at once |
| Election.FailureBacksOff | daemon/leader.py:95-114 | after a call that failed outside the hold loop the daemon does not race before its backoff is over |
| Election.StoppingIsForGood | daemon/leader.py:52-64 | in every run a daemon that is shutting down without the flag never raises it again, and one whose loop has ended takes no further part |
| Election.LastKeepalive | daemon/leader.py:166-180 | a leader that is shutting down loses its flag at the next keepalive reply, for good |
| Election.OneLiveLeader | daemon/leader.py:116-179 | the leader key is bound to a live lease; a daemon that believes it leads with a live lease owns that lease; so two such daemons are one; the term is set exactly while leading |
| Election.StaleLeadershipIsBounded | daemon/leader.py:140-179 | a daemon whose lease died at D has its flag down by D + interval + 2 rpc, also when the lease died before the winning reply |
| Election.StaleBoundIsAttained | daemon/leader.py:166-179 | for every interval and rpc a run with a step-down reaches that bound with the flag up |
| Election.FlagsAreExclusive | daemon/leader.py:116-179 | in every run without step-down and shutdown, if interval + 3 rpc ≤ ttl, no two `is_leader` flags are ever up together |
| Election.MarginIsNecessary | daemon/etcd_client.py:86-86 | for every configuration that violates the inequality, a run without step-down and shutdown with two flags up |
| Election.FlagsAreExclusiveExactly | daemon/leader.py:6-6 | so the flags are exclusive in all such runs if and only if the inequality holds |
| Election.RevokingBreaksExclusion | daemon/leader.py:66-93 | for every configuration, a run with a step-down and one with a shutdown in which two flags are up |
| Election.LeaseIdIsNoneExactly | daemon/leader.py:129-129 | in every run a daemon's lease id is None if and only if no grant ever reached it |
| Election.FollowerKeepsLease | daemon/leader.py:52-64 | for every configuration, a run with a watching follower that holds a live lease, which its shutdown revokes |
| JobRecords.Job.LogWriter | daemon/jobs.py:331-337 | the buffer is the last 200 capped lines of everything written |
| JobRecords.AppendLogTracksTail | daemon/jobs.py:331-337 | appending and trimming one line keeps that equality |
| JobRecords.CapLineExactly | daemon/jobs.py:332-334 | a line ending in newlines loses them all, keeps at most 4000 characters and then a mark, and is otherwise unchanged |
| JobRecords.LogTailShows | daemon/jobs.py:50-52 | line i of the buffer is the capped i-th of the last 200 lines, in order |
| JobRecords.Job.SetProgress | daemon/jobs.py:339-340 | a progress in [0,1] is kept, one below is 0 and one above is 1 |
| JobRecords.Job.Finish | daemon/jobs.py:367-391 | done, cancelled or failed as the handler ended, progress 1 exactly when done, the error exactly when failed, finished now, nothing else changed |
| JobRecords.JobsManager.PruneStuckRunning | daemon/jobs.py:286-319 | a sweep alone turns exactly the running jobs with no heartbeat or one before the cutoff whose put lands into failed ones with time and error, changes nothing else, keeps records well formed |
| JobRecords.JobsManager.PruneOld | daemon/jobs.py:240-257 | retention deletes exactly the done, failed and cancelled jobs with a finish time before the cutoff whose delete lands |
| JobProtocol.EveryStoredRecordIsGood | daemon/jobs.py:301-391 | from creation on, in every interleaving, whatever the timing, the stored record has a finish time iff terminal, progress in [0,1], 1 and no error when done, an error when failed, and the log tail as of its snapshot |
| JobProtocol.StaleMeansGone | daemon/jobs.py:286-296 | with the margin, a record that looks stale belongs to an owner that has stopped with nothing left in the air |
| JobProtocol.TerminalIsFinal | daemon/jobs.py:259-319 | if 2 s + 3 rpc + skew ≤ timeout, no sweep marks a job its owner executes, and a terminal record keeps its very state, in every run of flush, finish, crash, cancel, sweeps and retention |
| JobProtocol.StoredVerdictIsOutcome | daemon/jobs.py:367-391 | with that margin, in every run, what is stored once the owner has ended is the outcome its handler finished with, unless retention deleted it |
| JobProtocol.RetentionIsFinal | daemon/jobs.py:240-257 | with that margin, in every run, a record deleted by retention after its owner has ended is never written again |
| JobProtocol.RetentionLooks | daemon/jobs.py:243-248 | a delete is under way exactly when a look found the record terminated before the cutoff |
| JobProtocol.ProgressIsReported | daemon/jobs.py:339-391 | in every run the owner's record shows the progress reported last, clamped, and 1 once it is done |
| JobProtocol.MarginIsNecessary | daemon/jobs.py:342-390 | if that inequality fails, a run exists in which a sweep marks a finishing job and `done` becomes `failed` |
| JobProtocol.StoppedJobIsClosed | daemon/main.py:203-219 | with a leader whose sweeps complete and attempts no slower than timeout + skew, margin or not, a job whose owner stopped at d is not stored as running after d + timeout + skew + interval + 2 sweep durations |
| JobProtocol.LatePutOutlivesTheBound | daemon/jobs.py:286-296 | for every configuration with slower attempts, a run that breaks the bound |
| JobProtocol.StoppedJobIsClosedExactly | daemon/main.py:203-219 | so the bound holds in every run if and only if an attempt takes no longer than timeout + skew |
| JobProtocol.SecondSweepDurationIsNeeded | daemon/jobs.py:286-288 | for every configuration a run that attains this bound, so one sweep duration would not do: the cutoff is taken when the sweep begins |
| JobProtocol.PendingJobIsNeverSwept | daemon/jobs.py:288-290 | a pending record whose owner is gone stays as it is in every run |
| JobProtocol.PendingJobCanBeStranded | daemon/jobs.py:177-182 | such a state is reachable |
| Topology.Authoritative | daemon/topology.py:81-93 | the decoded scan holds exactly the names whose stored value is a JSON object |
| Topology.TopologyWatcher.AuthoritativePeers | daemon/topology.py:81-93 | the entry-by-entry loop computes it |
| Topology.TopologyWatcher.Seed | daemon/topology.py:114-124 | the seed is a fresh read |
| Topology.TopologyWatcher.ApplyEvent | daemon/topology.py:126-149 | a delete drops the name after the prefix and tells the old value, a decodable put sets it and tells added or old and new, an undecodable put and a foreign key change and tell nothing |
| Topology.TopologyWatcher.Run | daemon/topology.py:103-110 | after any delivered events the mirror and all notices are the folds of those steps, and the counts balance |
| Topology.AgreesWhereSeen | daemon/topology.py:103-149 | for every history and every pattern of gaps, mirror and fresh read agree on each name never changed, last changed before the seed, or whose last change was delivered and decodes |
| Topology.NoGapNoDifference | daemon/topology.py:60-93 | without gaps they are equal |
| Topology.GapDiffers | daemon/topology.py:106-107 | a change between scan and watch is lost |
| Topology.GarbageDiffers | daemon/topology.py:139-143 | an undecodable value leaves the mirror on an entry the scan drops |
| Topology.NoticesCountPeers | daemon/topology.py:133-149 | ADDED minus REMOVED-with-old equals the growth of the mirror |
| NodeNames.AllocateNextName | daemon/joining.py:273-287 | the name carries the smallest number from 1 on that no existing name carries, the one the protocol allocates, at most peers + 1, and is not in use |
| NodeNames.SuffixExactly | daemon/joining.py:273-287 | a name has a number exactly when it is `node-` and digits, and the number is their value |
| NodeNames.NumbersDecide | daemon/joining.py:357-360 | node-a stands before node-b exactly when a < b, so node-2 before node-10 |
| NodeNames.OthersComeLast | daemon/joining.py:357-360 | names without a number stand after every numbered one below 10^9, among themselves in string order |
| NodeNames.Sorted | daemon/joining.py:351-360 | a listing sorted strictly by (suffix, name) that holds exactly the given names |
| NodeNames.SortedUnique | daemon/joining.py:357-360 | it is the only such listing |
| Joining.WaitClusterHealthy | daemon/joining.py:228-262 | succeeds exactly when some poll came back with every listed member started, at the first such poll |
| Joining.Ipv4Exactly | daemon/joining.py:265-270 | accepted are exactly four runs of one to three digits, each at most 255, with three dots between |
| Joining.EveryRunKeeps | daemon/joining.py:93-222 | the topology and membership invariants hold after every run of joins, re-joins, rollbacks, aborts, deletes, starts and removals |
| Joining.OneAnswerEach | daemon/joining.py:83-94 | in every run each request gets exactly one answer, served, refused or cut short; only the one under the lock still waits |
| Joining.AnswersTheAsker | daemon/joining.py:83-94 | every answer goes to the IP that asked last |
| Joining.AnswersLast | daemon/joining.py:97-222 | in every run in which nobody deletes entries or removes members, every joined answer ever given still stands: its name holds its IP, and a fresh joiner is a member |
| Joining.FreshJoinAnswers | daemon/joining.py:157-222 | a fresh join is answered with the name under which the topology holds the IP that asked |
| Joining.FreshJoinCompletes | daemon/joining.py:157-222 | a request for an IP that is neither registered nor a member can go through: smallest free name, its entry and one unstarted member the only changes |
| Joining.RollbackUndoes | daemon/joining.py:203-214 | a failed add whose rollback gets through leaves the topology as it was without the entry, and the request is refused |
| Joining.RefusedMemberStays | daemon/joining.py:203-214 | a run in which the add took effect, its reply was lost, and the member stays without an entry |
| Joining.MemberIsNotAdded | daemon/joining.py:203-204 | an IP that is a member when its add begins is not answered as a fresh join |
| Joining.UnhealthyIsRefused | daemon/joining.py:105-112 | while a member has not started, a request can only be refused and leaves no trace |
| Joining.FirstAttemptCreates | daemon/joining.py:176-182 | unless the entry is deleted meanwhile, only the first create-if-absent of a request creates it and is answered with yes |
| Joining.JoinsAreExclusive | daemon/joining.py:157-214 | no two names share an IP; the first create-if-absent finds its name free, so its entry is its own, and a false answer only follows a retry; rollback never deletes another's entry |
| Joining.AllocationIsTight | daemon/joining.py:157-182 | every name being written has the smallest free suffix, at most peers + 1 |
| Joining.RejoinIsIdempotent | daemon/joining.py:131-155 | past the health wait a re-join returns the one name registered for its IP and changes neither topology nor members |
| Joining.RegisteredCannotAllocate | daemon/joining.py:131-157 | a registered IP can only re-join, under that name |
| Joining.StartedMembersAreAMajority | daemon/joining.py:105-112 | at most one unstarted member in every run, also after an add that took effect and reported failure; the started ones are a majority if and only if there are three members or none is unstarted |
| Joining.GrowingFromOneLosesQuorum | daemon/joining.py:160-164 | a run that grows a cluster of one and has no majority |
| Joining.StepKeepsBackedExactly | daemon/joining.py:176-222 | the step that leaves an entry without a member is exactly one of: a request that ends or gives up its rollback while its entry stands and its IP is no member; the removal of a member whose entry stands or has just been read by its own request |
| Joining.EntriesMeanMembershipExactly | daemon/joining.py:123-155 | from a topology of members, every entry but the one in flight belongs to a member throughout a run if and only if no such step occurs; then every re-join answers a member |
| Joining.StrayEntryIsAnswered | daemon/joining.py:131-155 | every run that has come to an entry without a member can go on to answer that IP as a re-join |
| Joining.AbortStrands | daemon/joining.py:179-204 | a reachable request cut short after its entry |
| Joining.FailedRollbackStrands | daemon/joining.py:205-214 | a reachable failed add whose rollback fails |
| Joining.RemovedMemberStrands | daemon/joining.py:131-155 | a reachable removal of a member whose entry stands |
| Joining.RemovedWhileAsking | daemon/joining.py:114-155 | a reachable removal between snapshot and answer |
| Joining.StrayEntryRejoinsWithoutMember | daemon/joining.py:176-204 | a run in which a re-join succeeds for an IP that is not a member |
| ClusterEnv.ReadClusterEnv | daemon/joining.py:290-313 | the reader's loop is the last-wins fold of the line parser |
| ClusterEnv.LinesExactly | daemon/joining.py:302-303 | a line ends at exactly the ten characters of `splitlines` |
| ClusterEnv.SilentLine | daemon/joining.py:303-308 | blank lines, comments, lines without `=` and lines with nothing before it give nothing |
| ClusterEnv.UnquoteReads | daemon/joining.py:309-312 | a value without quotes and outer blanks is read the same bare, padded, and in either kind of quotes or both |
| ClusterEnv.EntryLine | daemon/joining.py:303-312 | a line `key=value` reads as the key and the value stripped and unquoted |
| ClusterEnv.ReaderKeyIsClean | daemon/joining.py:303-312 | every key the reader returns can be written back: nonempty, no `=`, no `#` in front, no blank ends, one line |
| ClusterEnv.BuildJoinerEnv | daemon/joining.py:363-419 | refuses exactly on unequal lists or a joiner missing from them, else writes the stated lines |
| ClusterEnv.JoinerEnvReads | daemon/joining.py:363-419 | parsing the built file gives the per-peer entries plus every shared entry, stripped once more |
| ClusterEnv.JoinerEnvByName | daemon/joining.py:363-419 | by name: the joiner's own NODE_NAME, LOCAL_IP, PEER_IPS, PEER_NAMES and cluster state `existing`, no HOST_REPO_ROOT, every other entry the leader's |
| ClusterEnv.JoinerEnvRoundTrip | daemon/joining.py:411-419 | the shared keys come back unchanged if and only if their values are fixed points of the reader's strip |
| Role.OrderedPeersAfterJoin | daemon/joining.py:333-354 | two parallel lists, sorted strictly, of the joiner and every peer with an IP, each beside its own IP |
| Role.RoleDetect | lib/role.sh:23-84 | finds the first index of NODE_NAME in the split lists, with that name and LOCAL_IP, or else the IP there; dies exactly on unequal lengths or a missing name |
| Role.TrailingComma | lib/role.sh:24-46 | an empty list has no fields, one trailing comma adds none, a second one does |
| Role.ResolvePulsarHostIp | lib/role.sh:109-120 | the IP beside the host's name, else the first peer's |
| Role.JoinerFindsItself | lib/role.sh:72-84 | for every topology of node-N names the built file, as the daemon reads it, gives lists that split back sorted and complete, and role detection succeeds at the one index that holds the joiner's name and IP |
| Shell.SourcedLiterallyExactly | lib/env.sh:20-25 | a written entry k=v is sourced as exactly that if and only if v has no blank, quote, backslash, operator, expansion or home-directory tilde; otherwise, when the line only assigns, every value it gives k is shorter than v |
| Shell.PlainByCharacter | lib/env.sh:20-25 | tildes aside, a value is plain exactly when it has no blank, quote, backslash or operator and no dollar before what begins an expansion |
| Shell.SingleQuoted | lib/env.sh:20-25 | between single quotes everything stands for itself |
| Shell.BackslashInQuotes | lib/env.sh:20-25 | a backslash between double quotes goes exactly before a dollar, backquote, double quote or backslash |
| Shell.FirstWordExactly | lib/env.sh:20-25 | at a blank, k gets the first word if and only if the rest of the line only assigns; if it holds a command, nothing is kept |
| Shell.TwoWords | lib/env.sh:20-25 | K=x y=z keeps two variables, K=x y runs y |
| ShellEnv.JoinerShellFindsItself | lib/env.sh:20-25 | with plain shared values, sourcing the built file only assigns: it announces the joiner's name, IP and lists, keeps every shared entry, and role detection succeeds at its index |
| Shell.QuotesAreLost | daemon/joining.py:411-417 | a quoted value with a blank reads the same to shell and daemon on the leader; written to the joiner's file it reads unchanged to the daemon, and no assignment of the line gives the shell that value |
| EnvFile.UpsertKv | daemon/handlers.py:702-737 | the scan-and-replace loop produces the stated fields, also for unterminated files |
| EnvFile.UpsertsAgreeExactly | lib/env.sh:244-264 | Python and bash write the same file if and only if the file is empty or its unterminated last line is the first to set the key |
| EnvFile.ShellLeavesABlankLine | lib/env.sh:251-253 | on a file of one terminated line the bash upsert leaves a blank line after it or before the new entry, the Python one does not |
| EnvFile.ShellPadsThenUpserts | lib/env.sh:251-261 | on well-formed files the bash upsert is the Python upsert of the file with one more blank line |
| EnvFile.UnterminatedFileIsMashed | lib/env.sh:247-253 | on an unterminated line the Python upsert glues the entry to it, the bash one does not |
| EnvFile.ReadClusterEnvValue | daemon/workers/remove_node.py:476-500 | the first line that sets the key, else the default |
| EnvFile.ReadersAgree | daemon/workers/remove_node.py:487-498 | with one line per key first-match and last-match readers agree |
| EnvFile.UpsertIsSound | daemon/handlers.py:717-728 | on every well-formed file each upsert keeps it well formed, sets the key and leaves every other key, for both readers |
| EnvFile.DictionaryReaderSeesFields | daemon/joining.py:302-303 | on such files splitting at newlines and at all line breaks is the same |
| MigratePulsar.BuildOrder | daemon/workers/migrate_pulsar.py:157-174 | target first, the rest by (suffix, name), old host last, every peer with an IP exactly once; a skipped old host left out |
| MigratePulsar.ApplySweep | daemon/workers/migrate_pulsar.py:178-201 | one call per peer in order, stopping at the first failure |
| MigratePulsar.Verify | daemon/workers/migrate_pulsar.py:264-297 | passes exactly when every peer with an IP that is not excluded answers with the target |
| MigratePulsar.RunMigratePulsar | daemon/workers/migrate_pulsar.py:62-233 | exactly when it refuses, exits early or fails preflight (then nothing changes): unreachable if and only if some peer with an IP, other than a forced run's old host, does not answer; otherwise a fail-loud run in the promised order over exactly the peers with an IP, a forced run's unreachable old host left out; who is left out keeps its state, and success means everybody else is on the target |
| MigratePulsar.PreflightFails | daemon/workers/migrate_pulsar.py:132-151 | the preflight's two set tests say just that |
| MigratePulsar.EveryStepIsServed | daemon/handlers.py:409-511 | from a uniform start, at every step of a non-forced run every peer uses a running broker, and after an abort every peer but the one whose call failed |
| MigratePulsar.CompletedIsUniform | lib/render.sh:304-319 | a completed run is uniform on the target again: one broker, used by all |
| MigratePulsar.RerunAfterAbort | daemon/workers/migrate_pulsar.py:183-201 | an aborted run and a rerun in which everything works: all files end on the target if and only if the leader's had not been switched, or only the last peer's call had failed after switching its file; otherwise the rerun finds nothing to do |
| MigratePulsar.AbortLeaves | daemon/workers/migrate_pulsar.py:178-201 | after an abort exactly the peers before the failed one name the target, and the failed one if its call got that far |
| MigratePulsar.SwallowedCallsStrandExactly | daemon/workers/migrate_pulsar.py:203-209 | when calls answer 200 without effect: every step keeps every peer on a running broker if and only if all were swallowed, or the target's was not and either the old host keeps its broker or none was; post-verify passes if and only if none was |
| RemoveNode.FindByIp | daemon/workers/remove_node.py:433-440 | returns a listed name with that IP, None exactly when there is none |
| RemoveNode.Admit | daemon/workers/remove_node.py:67-141 | an admitted removal names a listed peer with that IP, is not the last peer, not the Pulsar host, not the leader; a refusal means no peer has the IP or one that has it fails a guard |
| RemoveNode.AdmitsExactly | daemon/workers/remove_node.py:67-141 | where one name has the IP, it is admitted if and only if this daemon leads more than one peer and the name is neither a Pulsar deploy's host nor, by name or IP, the leader |
| RemoveNode.WaitForDrain | daemon/workers/remove_node.py:206-249 | when the replies speak of the pool alone: polls on exactly while the pool is listed as started and neither complete, failed nor canceled, at most 361 polls; then passes on a complete pool or on silence and refuses a failed, canceled or unstarted one; in general, on the states the code reads |
| RemoveNode.StateInWords | daemon/workers/remove_node.py:386-430 | the state read from an unambiguous reply, in the pool's own flags: complete first, then failed, canceled, started |
| RemoveNode.MatchesExactly | daemon/workers/remove_node.py:409-412 | the substring match finds exactly the pools whose IP ends in the target's |
| RemoveNode.MatchPicksOwnExactly | daemon/workers/remove_node.py:406-412 | so it picks the target's own pool if and only if none listed before it has such an IP |
| RemoveNode.PassingMeansDrainedExactly | daemon/workers/remove_node.py:386-430 | with no such other pool, a wait that passes means the pool had drained, in every world the replies can come from, if and only if the deciding poll or the status read before lists it as complete |
| RemoveNode.WrongPoolPassesTheWait | daemon/workers/remove_node.py:406-416 | where another peer's IP ends in the target's, its complete pool passes the wait, with a world in which the target's has not drained |
| RemoveNode.SilentPollPassesTheWait | daemon/workers/remove_node.py:214-218 | after any number of active polls, no JSON, an error object or a listing without the pool passes the wait, with a world in which nothing has drained |
| RemoveNode.Cluster.RunRemoveNode | daemon/workers/remove_node.py:44-344 | nothing changes unless admitted, started and passed, which for unambiguous replies means a complete pool or silence after draining only; a failed, canceled or unstarted pool leaves topology and members alone; then the topology entry goes, and the etcd member last or not at all, also when a write or the listing fails; a removal means a drained pool exactly on the evidence above |
| RemoveNode.Cluster.TakeOut | daemon/workers/remove_node.py:269-303 | each failing write with its effect; once the entry is gone no request for that IP is admitted again, so a member still there stays |
| PulsarDeploy.DerivationsAgreeExactly | daemon/watchdog.py:353-361 | worker and watchdog agree on whether there is a Pulsar singleton if and only if the file is spelled plainly: one v and minor exactly 5 in a 2.5 tag, MQ_TYPE written `pulsar` |
| PulsarDeploy.WorkerTagIs25 | daemon/workers/remove_node.py:524-537 | the worker's split test holds exactly of tags that after their v's are 2.5 or begin with 2.5 and a dot |
| PulsarDeploy.TagWithoutV | daemon/workers/remove_node.py:532-535 | they differ on 2.5.4 |
| PulsarDeploy.MinorBeginningWith5 | daemon/watchdog.py:356-357 | they differ on v2.50.0 |
| PulsarDeploy.CapitalLetter | daemon/workers/remove_node.py:529-531 | they differ on MQ_TYPE=Pulsar |
| PulsarHistory.InheritedIsWhatIsRead | daemon/joining.py:411-417 | parsing the file the leader builds gives, its own entries aside, the environment a joiner inherits in the histories |
| PulsarHistory.MigrationIsEvent | daemon/workers/migrate_pulsar.py:62-233 | a non-forced run of the job that succeeds is a migration step of the histories |
| PulsarHistory.RemovalIsEvent | daemon/workers/remove_node.py:44-344 | what the removal job does to the topology is a removal step of the histories, and a node reported removed is the one it takes out |
| PulsarHistory.RemovesExactly | daemon/workers/remove_node.py:67-141 | which takes out the node with that IP unless it is the last, the leader or the host of a Pulsar deploy |
| PulsarHistory.JoinIsEvent | daemon/joining.py:157-222 | a join step is a legal run of the join protocol that answers the joiner with that name |
| PulsarHistory.JoinerGetsShared | daemon/joining.py:411-417 | and the joiner's environment holds exactly the leader's shared keys, values stripped |
| PulsarHistory.MigrationKeepsAgreement | daemon/workers/migrate_pulsar.py:98-227 | by the job's own contract such a step leaves every peer's file on the target |
| PulsarHistory.HistoriesKeepAgreement | daemon/workers/remove_node.py:67-109 | over every history of joins, successful non-forced migrations, removals and leader changes on a Pulsar deploy every file's PULSAR_HOST, or node-1 without one, is the last migration's host, MQ_TYPE and the tag stay, the host is a current peer, the topology is never empty |
| PulsarHistory.HostResolves | lib/role.sh:109-120 | so the host resolves to its own IP, never to the fallback |
| VersionUpgrade.MajorMinorOf | daemon/workers/version_upgrade.py:290-293 | digits, a dot, digits and a rest that begins with no digit, with or without one v in front, have the two numbers as major.minor |
| VersionUpgrade.MajorMinorExactly | daemon/workers/version_upgrade.py:290-293 | and a tag has none exactly when it is not of that form |
| VersionUpgrade.ReleaseExactly | daemon/workers/version_upgrade.py:61-65 | accepted targets are exactly v and three digit runs between dots |
| VersionUpgrade.GuardKeepsMinor | daemon/workers/version_upgrade.py:78-94 | a leader whose tag parses rolls out only its own major.minor |
| VersionUpgrade.GuardIsExact | daemon/workers/version_upgrade.py:78-94 | a release passes the guard if and only if the leader's tag does not parse or has its major.minor |
| VersionUpgrade.GuardOfReleases | daemon/workers/version_upgrade.py:84-94 | from va.b.c to vx.y.z it passes if and only if a = x and b = y |
| VersionUpgrade.RolloutOrder | daemon/workers/version_upgrade.py:96-102 | leader first, then by (suffix, name), exactly the mirrored peers with an IP |
| VersionUpgrade.RunVersionUpgrade | daemon/workers/version_upgrade.py:56-133 | on a leader with tag va.b.c, a target vx.y.z is refused if and only if a or b differs; the rewritten peers are a prefix of the order, up to the first failure, and the run is an upgrade step of the histories; the anchor changes only after every peer succeeded |
| VersionUpgrade.HistoriesKeepMinor | daemon/workers/version_upgrade.py:290-293 | over every history of aborted or complete upgrades, joins, leader changes and removals every peer keeps the cluster's major.minor, and the peers are those who joined and did not leave |
| LocalWatchdog.LocalComponentWatchdog.TryRestart | daemon/watchdog.py:154-222 | alert, monitor, failed and successful restart, each with its whole effect |
| LocalWatchdog.LocalComponentWatchdog.Tick | daemon/watchdog.py:101-152 | each watched container (`milvus` in front, not the control plane) is touched as its row says: only a row that is not restarting and says unhealthy but not healthy counts a miss or leads to an action, a healthy one resets, a missing one makes the step for absence, no other name changes |
| LocalWatchdog.DockerTexts | daemon/watchdog.py:430-442 | docker's own texts are such rows |
| LocalWatchdog.LocalComponentWatchdog.TickAfterFailure | daemon/watchdog.py:449-454 | a tick whose listing failed restarts every counter and arms every tripped guard again |
| LocalWatchdog.HistoryCountsRestarts | daemon/watchdog.py:173-222 | the history holds the times of the successful restarts since it was last cleared, never more than the maximum |
| LocalWatchdog.ActsExactly | daemon/watchdog.py:114-222 | in every run of docker's rows, what each tick does: nothing unless the unhealthy rows in a row since the last restart reach the threshold and no alert stands; else the alert if the restarts since the last clearing reach the maximum; else, if enabled, a restart |
| LocalWatchdog.RestartsAreSpaced | daemon/watchdog.py:120-126 | two successful restarts are at least the threshold in ticks apart |
| LocalWatchdog.ActsOnlyOnConsecutiveMisses | daemon/watchdog.py:114-133 | restarts and alerts only end at least threshold unhealthy rows in a row |
| LocalWatchdog.AlertSilences | daemon/watchdog.py:173-195 | after a loop alert nothing more happens, no restart and no second alert, before a healthy or absent tick |
| LocalWatchdog.HistoryCountsSinceHealthyExactly | daemon/watchdog.py:133-141 | in every run the history is the number of restarts since the last healthy tick if and only if no restart lies between the last clearing tick and the last healthy tick |
| LocalWatchdog.RecoveryDoesNotReset | daemon/watchdog.py:158-164 | any unhealthy row, any healthy row, the unhealthy row again: still trips the guard |
| PeerWatchdog.JobFor | daemon/watchdog.py:360-403 | the job targets the least other peer that has an IP |
| PeerWatchdog.PeerReachabilityWatchdog.MaybeAutoMigrate | daemon/watchdog.py:339-418 | creates that job and stays marked exactly when creation succeeds |
| PeerWatchdog.PeerReachabilityWatchdog.Probe | daemon/watchdog.py:293-337 | one probe's whole effect on one peer, none on others |
| PeerWatchdog.PeerReachabilityWatchdog.Tick | daemon/watchdog.py:286-337 | every peer with an IP that is not this host makes one step as its probe went; an answered probe resets, a silent one counts; the others and all other names are untouched |
| PeerWatchdog.DownSinceIsExact | daemon/watchdog.py:294-318 | `_down_since` holds exactly the peers at or past the threshold, those whose last alert was DOWN |
| PeerWatchdog.AlertsAlternate | daemon/watchdog.py:294-318 | alerts strictly alternate, DOWN first |
| PeerWatchdog.OneJobPerOutage | daemon/watchdog.py:303-332 | between two jobs for one peer lies a successful probe |
| PeerWatchdog.AlertsExactly | daemon/watchdog.py:294-318 | DOWN exactly at the silent probe that reaches the threshold in a row, UP exactly at the answered one that ends such a row |
| PeerWatchdog.DownSinceIsWhen | daemon/watchdog.py:313-318 | the entry holds the time of the silent probe that reached the threshold |
| PeerWatchdog.JobsExactly | daemon/watchdog.py:322-403 | in every run a job is created exactly at the silent probes with leadership, the opt-in, a file the watchdog takes for Pulsar and this peer as its host, enough misses in a row, no standing job, another peer with an IP and a creation that succeeds; it targets the least of those |

## Left out

- HTTP routes, redirects, bearer auth and configuration parsing: plumbing around the modelled state.
- etcd and Raft internals, JSON and base64: etcd is a linearizable store with leases; values are datatypes. Lease ids are never reused.
- Liveness of election: a DELETE between the lost race and the watch can be missed, so only safety and timed release are claimed.
- The server's clock in the election: one time for all; a lease is kept for its full ttl after it was granted or last renewed, and may live longer.
- Membership reads that lag: `_wait_cluster_healthy` polls a local read of the member list (`daemon/joining.py:233-234`); the model takes what it returns as current.
- What a shell does with a line of cluster.env that the line alone does not decide: expansions, several commands, lines that go on; what a command on a line does; variables the shell itself treats specially.
- Scheduling delay of the event loop: a sleep ends when its time is up; delay belongs in the interval or in `rpc`.
- Joining.StartedMembersAreAMajority: a member-add or an entry write that times out and takes effect after its request has ended is no run of the model, nor is a late rollback delete; the code has no guard against them.
- Joins served by two leaders at once, daemons that re-register themselves at start-up, and concurrently running cluster jobs: the code does not guard against them and the histories do not contain them.
- A job put that its owner cancelled and that arrives later, an owner put that never lands although the owner lives on, a clock that does not run at the owner's rate, and a handler that raises SystemExit or KeyboardInterrupt.
- `JobsManager.create` and `cancel` as methods: a creation is the protocol's first put, a cancellation is `Finishes(Cancelled, _)` or, before the handler runs, `Stops`.
- Forced migrations (a dead old host): the order and the excluded host are modelled, the running-broker claim covers non-forced runs only. Peers without an IP are never called and may be left on the old broker.
- Remove-node without a readable leader key: the histories assume the key can be read, so that the leader is not removed.
- Mc's start and cancel commands, the MinIO and proxy settling waits of remove-node: their results only delay the job.
- `FORCE_NODE_INDEX` and matching `hostname -I` in role detection: `RoleDetect` answers `NeedsHostname` there.
- Carriage returns and NUL characters in cluster.env, file ownership and atomic rename; sed and grep beyond literal keys and values.
- Python's `\d` beyond ASCII digits and `$` before a trailing newline, in node names, IP addresses and version tags.
- The wording of the joiner file's banner: any comment lines.
- Backup, export and token-rotation workers, bash commands, templates, the legacy bash watchdog: argument passing, I/O or weaker copies.
