# Split routing, verified

A Dafny model of the split-routing engine of this repository
(`internal/services/awgroute`, `internal/services/awg` and
`internal/services/arpspoof`): how a DNS name gets its VPN, how the answer's
addresses are installed before the reply leaves, how rules stay consistent while
connections are replaced, and the state machines around them. Code that updates
its state in place is modelled as classes, loops and arrays, each proved against
a function or relation; the properties are proved about those.

| part | files |
|---|---|
| DNS policy gate and learned-address memo | DnsGate (the code, one locked section at a time), DnsGateSystem (all interleavings, the invariant), DnsGateProperties (what follows), LearnScript |
| name matching | Entries (what an entry means, by its text), SuffixTrie, Matcher |
| decision table and its publisher | Zones, Decision, Publisher |
| rules, listing, replacement | Fallback, StableSort, Rules, SaveRules, BackupGraph, Replacement, ReplacementState, Publishing, Handover, RuleBook, RuleBookCases |
| DNS candidates | DnsCandidates |
| DNS messages | DnsNames, DnsMessages, DnsReplies, DnsObserve |
| tunnel recovery | Watchdog |
| MAC journal | MacJournal |
| client configuration | Ranges, Obfuscation, ClientConf, ConfImport, ConfRoundTrip, ConfLinks |
| shared | Wrappers, Lists, Text, TextLines, Splitting |

`dafny verify dfyconfig.toml` checks everything.

How to read it. Concurrent code is a step system: every stretch between taking
and releasing a lock, every atomic load and every compare-and-swap is one step,
and theorems quantify over all runs of any number of goroutines. Kernel sets may
lose entries only inside an exclusive section. Calls that can fail (saves, kernel
writes, status reads) fail or succeed as a parameter or a non-deterministic choice
says. Clocks do not go back. Connection IDs are distinct, trimmed and not empty:
loading a state makes them so (`internal/services/awgroute/awgroute.go:188-209`),
and the operations here keep it. DNS messages are specified by relations that say
which bytes are written where (`DnsNames.At`, `DnsMessages.ResponseAt`), so any
compression a sender chooses is covered.

Most operations are proved twice: against a function that computes the same, which
other proofs use, and against the promise in terms of fields, bytes or texts alone
(`AcquirePass`, `EntryHits`, `Answers`, `HandedOver`, `SavedConnection`, `ListedAs`,
`ResourceAt`, `ObservePass`, `Says`), which names none of these functions.

Where the code falls short of what its comments promise, the exact condition is
proved, for all inputs, and an input is given that falls outside it:

- `filterIPv6Hints` promises to hold back IPv6 hints of a blocked name. Of all the
  addresses in a message, whatever the section, an IPv6 one is held back exactly
  when the question can be echoed and some answer record has one
  (`DnsReplies.FilterIPv6Hints`). Two families get through: questions with a piece
  over 63 bytes, which the name reader accepts
  (`DnsReplies.OverlongLabelLetsHintsThrough`), and messages with IPv6 addresses
  in authority or additional records only
  (`DnsReplies.AdditionalRecordsAreNotFiltered`).
- `dnsFailureResponse` promises the echoed question. The reply asks for the labels
  of the query exactly when no label has a dot in it
  (`DnsReplies.FailureReplyEchoesTheQuestion`); the single label `a.b` comes back
  as two (`DnsReplies.InnerDotIsEchoedAsTwoLabels`). As dotted text the name comes
  back exactly when no piece of it is empty (`DnsReplies.FailureReplyEchoesTheText`,
  `DnsReplies.TrailingDotIsNotEchoed`). The question that the observer rebuilds has
  the same limit (`DnsObserve.RebuiltQuestionReadsBack`).
- A replacement promises to keep the rules. It keeps, in order, exactly those that
  name an existing connection or wait
  (`Replacement.ReplacementLosesOnlyDanglingRules`); a rule that was stored with
  the name of no connection is dropped without notice
  (`RuleBookCases.DanglingRuleIsLost`).
- After a committed replacement memory equals what was saved exactly when the
  remaining connections have a current routing mode and every listed rule that
  goes to a connection has a mode (`RuleBook.RuleStore.DeleteWithReplacement`,
  `RuleBook.TargetIsSettled`); a waiting rule without a mode is enough for them to
  differ (`RuleBookCases.UnsetModeSeparatesMemoryFromDisk`). In the listing nothing
  differs but such modes (`Publishing.PublishedStateListsTheSame`).
- A failed save leaves memory alone, but the file may already hold the new rules
  when only its permissions could not be set (`RuleBook.RuleStore.SaveRoutingRules`).
- `Obfuscation.normalize` is idempotent exactly when no header is made of spaces
  (`Obfuscation.NormalizedIsFixed`, `Obfuscation.SpaceHeaderSettlesLate`).
- A `[re]` entry promises a regular expression over the name in lower case. The
  expression is put in lower case as well, so a class with a capital is read as its
  opposite (`Matchers.CapitalClassesAreLowered`); and `*` and `#` do not match a
  line end (`Entries.Wild`).
- An exported configuration is taken for a link when imported exactly when one of
  its values has a `vpn://` word (`ConfLinks.LinkInConf`, `ConfLinks.RoundTripIsExact`,
  `ConfLinks.LinkedNameServerIsNotImported`).

## Model

| member | source | states |
|---|---|---|
| DnsGate.RoutingDnsGate.SignalLocked | internal/services/awgroute/dns_policy_gate.go:47-52 | wakes every waiter of the current channel and drops the channel, nothing else |
| DnsGate.RoutingDnsGate.Begin | internal/services/awgroute/dns_policy_gate.go:56-83 | one locked pass of `begin`: it blocks behind another apply or shuts the gate, moves generation and epoch, empties the memo, wakes waiters and then waits for readers; the whole new gate is fixed |
| DnsGate.RoutingDnsGate.AwaitReaders | internal/services/awgroute/dns_policy_gate.go:74-83 | the exclusive section starts exactly when no reader is left |
| DnsGate.RoutingDnsGate.FinishApply | internal/services/awgroute/dns_policy_gate.go:84-92 | finishing records the error, reopens the gate and wakes every waiter |
| DnsGate.RoutingDnsGate.Acquire | internal/services/awgroute/dns_policy_gate.go:119-151 | one locked pass of `acquire`, each outcome by the fields of the gate: admitted exactly when not cancelled, no apply, no failure, and the version to check is the current one; cancelled, changed, blocked and not ready likewise; only admission counts a reader |
| DnsGate.AcquireIsExact | internal/services/awgroute/dns_policy_gate.go:119-151 | the same of the pass that the runs take |
| DnsGate.BeginIsExact | internal/services/awgroute/dns_policy_gate.go:56-83 | a pass of `begin` waits behind an apply, else shuts the gate, takes the next epoch with an empty memo and the next generation exactly when it revises, and closes the channel |
| DnsGate.VerifyIsExact | internal/services/awgroute/dns_policy_gate.go:107-117 | an answer stands exactly outside applies and failures under the generation, and when learning the epoch, it began with |
| DnsGate.RoutingDnsGate.ReleaseReader | internal/services/awgroute/dns_policy_gate.go:152-160 | a leaving reader is counted out and wakes a draining writer |
| DnsGate.RoutingDnsGate.Plan | internal/services/awgroute/dns_learn_linux.go:157-177 | the locked read of the memo: refused during an apply or after a failed one, else the epoch and the requests the memo cannot answer |
| DnsGate.RoutingDnsGate.Commit | internal/services/awgroute/dns_learn_linux.go:193-207 | the locked write of the memo: only for the epoch it was planned under, emptied first when it would overflow |
| DnsGate.MissesAreTheUnknown | internal/services/awgroute/dns_learn_linux.go:170-176 | exactly the requests without a live memo entry go to the kernel |
| DnsGate.RememberAdds | internal/services/awgroute/dns_learn_linux.go:196-206 | the memo never grows past its limit and remembers nothing but confirmed keys |
| DnsGate.RememberKeepsFresh | internal/services/awgroute/dns_learn_linux.go:199-206 | a confirmed key stays remembered when there is room for all of them |
| DnsGate.CommitIsExact | internal/services/awgroute/dns_learn_linux.go:193-207 | a commit under its epoch adds the confirmed keys with their expiry and keeps the others; when they do not fit the memo starts over; otherwise nothing changes |
| DnsGate.PlanIsExact | internal/services/awgroute/dns_learn_linux.go:157-177 | a plan is refused by field; the keys it asks for are the unknown ones, as often as requested |
| DnsGateSystem.StepKeepsInv | internal/services/awgroute/dns_policy_gate.go:47-161 | every step of every goroutine and of the environment keeps the gate invariant |
| DnsGateSystem.ReachableInv | internal/services/awgroute/dns_policy_gate.go:47-161 | the invariant holds in every state of every run, for any number of goroutines |
| DnsGateProperties.ExclusiveSectionIsExclusive | internal/services/awgroute/dns_policy_gate.go:56-93 | in every reachable state with an exclusive section there are no readers, no second writer inside, and every acquire fails or blocks |
| DnsGateProperties.ReaderStaysUntilItLeaves | internal/services/awgroute/dns_policy_gate.go:119-161 | an admitted reader keeps its generation and stays counted until its own release |
| DnsGateProperties.ReadersLeaveBeforeTheRebuild | internal/services/awgroute/dns_policy_gate.go:74-83 | a reader seen before an exclusive section has released before that section starts |
| DnsGateProperties.ReaderGenerationIsCurrent | internal/services/awgroute/dns_policy_gate.go:119-161 | a reader works under the current generation, or the previous one while an apply is draining it |
| DnsGateProperties.CheckedReaderHoldsItsVersion | internal/services/awgroute/dns_policy_gate.go:119-151 | in every run a reader that called acquire with a version to check holds exactly that version until it leaves, however long it waited |
| DnsGateProperties.AdmittedToTheCurrentPolicy | internal/services/awgroute/dns_policy_gate.go:119-151 | whoever is let in gets the generation in force, outside applies and failures, and it is the one asked for |
| DnsGateProperties.VersionsCountApplies | internal/services/awgroute/dns_policy_gate.go:56-83 | in every run the generation is the number of applies that revised the policy, and the epoch the number of all applies |
| DnsGateProperties.NoLostWakeup | internal/services/awgroute/dns_policy_gate.go:47-161 | a blocked goroutine holds a closed channel, or the current one and then its reason to wait still stands |
| DnsGateProperties.NoDeadlock | internal/services/awgroute/dns_policy_gate.go:56-161 | whenever some goroutine is in the middle of an operation, some goroutine can make progress |
| DnsGateProperties.MemoIsSound | internal/services/awgroute/dns_learn_linux.go:131-209 | in every reachable state each remembered key is in the kernel sets, the memo has at most 4096 keys, and it is empty during an apply |
| DnsGateProperties.LearnedMeansInstalled | internal/services/awgroute/dns_learn_linux.go:131-209 | after a successful learn every requested entry is in the kernel until the learner leaves the gate, whether or not the memo skipped the write |
| DnsGateProperties.ConfirmedUnderItsPolicy | internal/services/awgroute/routing_discovery_integration.go:14-46 | an answer is confirmed only under the generation and epoch of its admission, outside any apply, with all its addresses installed |
| DnsGateProperties.ConfirmedWithoutApply | internal/services/awgroute/routing_discovery_integration.go:14-46 | between the start of learning and the confirmation of an answer no apply has started |
| DnsGateProperties.FailedApplyAdmitsNobody | internal/services/awgroute/dns_policy_gate.go:84-149 | after a failed apply no reader is admitted until an apply finishes without error |
| LearnScript.AwgDNSLearnScript | internal/services/awgroute/dns_learn_linux.go:211-238 | a script exactly when every request is usable and there are at most 64 destinations; otherwise the first offending request is blamed, with its reason |
| LearnScript.ScriptInstallsWhatWasAsked | internal/services/awgroute/dns_learn_linux.go:211-238 | read back line by line, the script asks for every requested entry once, in order of first request, and for nothing else |
| LearnScript.EveryLineIsARequest | internal/services/awgroute/dns_learn_linux.go:211-238 | the lines of the script are `add SET ADDRESS -exist` for the requests, and no others |
| LearnScript.KeysAreUnambiguous | internal/services/awgroute/dns_learn_linux.go:229 | the text key of the memo stands for one set and one address |
| SuffixTries.CoversIsTransitive | internal/services/awg/match.go:317-322 | label-suffix coverage is transitive, which is what lets a shorter rule stand for a longer one |
| SuffixTries.SuffixTrie.AddBase | internal/services/awg/match.go:163-178 | the mutable trie gains exactly this base and stays well linked; an empty base adds nothing |
| SuffixTries.SuffixTrie.Match | internal/services/awg/match.go:182-204 | the walk answers whether some base equals the name or ends it at a label boundary |
| Matchers.NameEntryMeaning | internal/services/awg/match.go:98-121 | what a plain entry of the user matches: the name itself, or any name under it unless subdomains are off |
| Matchers.EntryIsReadAsWritten | internal/services/awg/match.go:34-89 | an entry is refused, usable and matching exactly as its text says: `full:` the host alone, `[re]` what the engine says, `*` and `#` by a wildcard relation, any other text the domain and every name under it |
| Matchers.CapitalClassesAreLowered | internal/services/awg/match.go:36-52 | an instance: `[re]\D` is read as `[re]\d` |
| Entries.LawsAreConsistent | internal/services/awg/match.go:264-351 | what is assumed of the regular-expression engine can be met |
| Entries.NormalizedNameIs | internal/services/awg/match.go:142-145 | a normalised name has the spaces around it and one trailing dot removed and its letters in lower case |
| Matchers.CompileMatchers | internal/services/awg/match.go:125-137 | blank entries vanish, the others are compiled or reported, in order |
| Matchers.MatchAny | internal/services/awg/match.go:220-240 | the fast lookup equals `trie, or some regular expression, or exact name` |
| Matchers.InsertByLength | internal/services/awg/match.go:300-305 | keeps the candidate list sorted by length with the same members |
| Matchers.KeepPlains | internal/services/awg/match.go:307-337 | the kept bases are pairwise uncovered and stand for every plain entry |
| Matchers.KeepExact | internal/services/awg/match.go:338-349 | exactly the exact names no kept base or regular expression already answers survive |
| Matchers.SetDecidesLikeEntries | internal/services/awg/match.go:264-351 | the reduced set and the plain disjunction of entries give the same verdict on every name |
| Matchers.EmptyOnlyWithoutUsableEntries | internal/services/awg/match.go:245-250 | the reduced set is empty exactly when no entry can match anything |
| Matchers.CompileMatcherSet | internal/services/awg/match.go:264-351 | for every entry list and name the compiled set matches exactly when the text of some entry says so; the entries reported are those whose text cannot be read, in order; kept bases form an antichain, no exact name is redundant, Len() is 0 exactly when no entry is usable |
| Decisions.FirstCatchAllZoneIndex | internal/services/awgroute/mode.go:74-84 | the first enabled, non-waiting, source-free catch-all rule, or -1 when there is none |
| Decisions.ZoneMatchersOrdered | internal/services/awgroute/decision.go:154-175 | holds the live source-free rules up to the first catch-all, all of them, in order, and no others |
| Decisions.BuildSourceZoneDecisions | internal/services/awgroute/decision.go:306-338 | holds all live source-bound rules in order, each with its device-set rank |
| Decisions.BuildRouteTable | internal/services/awgroute/decision.go:201-212 | both lists together are what the merge needs |
| Decisions.CatchAllMatchesEveryName | internal/services/awgroute/decision.go:154-175 | a catch-all row matches every non-empty name, so dropping the global rows behind it loses nothing |
| Decisions.RouteFor | internal/services/awgroute/decision.go:97-139 | the two-list merge over a built table answers the first live rule that takes the name: a device rule needs its device, a catch-all takes every non-empty name, a device rule without usable entries any name, all others what an expanded entry matches; with the rule's route, number, AAAA verdict, source flag and device-set rank, in terms of the rules' own fields; it is what walking all rules from the top answers |
| Decisions.ZoneTakesWhatItSays | internal/services/awgroute/decision.go:154-175 | what one rule is compiled to takes exactly the names and clients its fields promise |
| Publisher.ReachableInv | internal/services/awgroute/decision.go:259-296 | the publishing invariant holds in every state of every run |
| Publisher.PublishedNeverGoesBack | internal/services/awgroute/decision.go:259-296 | the revision of the published table never decreases |
| Publisher.PublishedIsLabelledRight | internal/services/awgroute/decision.go:273-296 | a table labelled r holds exactly the expansion at r, and r is not ahead of the current revision |
| Publisher.CachedResultIsFresh | internal/services/awgroute/decision.go:259-296 | a result reported as cached answers the wanted input and is no older than the revision at the start of the call |
| Publisher.OnlyASettledBuildIsPublished | internal/services/awgroute/decision.go:273-296 | the published table changes only by the compare-and-swap of a build whose revision was checked |
| Publisher.UndisturbedCallPublishes | internal/services/awgroute/decision.go:245-296 | a call that nobody disturbs returns the table published then, labelled with the current revision: the one in place if it serves the call, else its own complete build |
| Publisher.UncachedResultIsOwnBuild | internal/services/awgroute/decision.go:273-296 | a table returned after both attempts were overtaken is a complete build for the wanted input |
| Publisher.RetriesAreBounded | internal/services/awgroute/decision.go:273-296 | every call takes finitely many steps, whatever the others do |
| Fallback.FallbackCandidates | internal/services/awgroute/fallback.go:14-33 | the loop yields the trimmed, non-blank IDs once each, primary first |
| Fallback.NormalizeFallbackTunnelIDs | internal/services/awgroute/fallback.go:38-63 | accepted exactly when every canonical backup exists; otherwise the first unknown one is reported |
| Fallback.SelectFallbackTunnelID | internal/services/awgroute/fallback.go:67-82 | the first usable connected candidate, else the first usable one, else none |
| Fallback.BackupsMembers | internal/services/awgroute/fallback.go:38-63 | the canonical list has exactly the trimmed non-blank IDs other than the primary, without repetition |
| Fallback.BackupsKeepOrder | internal/services/awgroute/fallback.go:35-63 | backups keep the order in which they are first given, the failover priority |
| Fallback.CandidatesArePrimaryThenBackups | internal/services/awgroute/fallback.go:14-63 | both normal forms agree: candidates are the primary followed by its backups |
| Fallback.BackupsIdempotent | internal/services/awgroute/fallback.go:38-63 | normalising a backup list twice changes nothing |
| StableSort.SortIsStable | internal/services/awgroute/awgroute.go:584-596 | the sort is a permutation, sorted by rank with unranked rules last, and keeps the order within each rank |
| StableSort.SortRestoresRankOrder | internal/services/awgroute/awgroute.go:584-596 | any shuffling of a list with ranks rising from the front is sorted back into it |
| Rules.AwgRoutingRules | internal/services/awgroute/awgroute.go:532-606 | the listing is every stored rule, under its trimmed connection or the one it is stored under, with explicit route and canonical backups in their order, in stable rank order, rules without a rank showing their position |
| Rules.SplitIsPermutation | internal/services/awgroute/awgroute.go:661-727 | splitting over distinct connections neither loses nor doubles a rule it keeps |
| Rules.SplitListsBack | internal/services/awgroute/awgroute.go:532-606 | however rules were split over connections, the listing shows those kept, in rank order |
| SaveRules.SaveZone | internal/services/awgroute/awgroute.go:662-721 | how one rule is stored, or the error that refuses it |
| SaveRules.PartitionRules | internal/services/awgroute/awgroute.go:661-727 | the first refused rule decides the error; else parts, waiting rules and referenced connections are those of the stored list |
| SaveRules.SavedRulesListBack | internal/services/awgroute/awgroute.go:532-606 | saving any acceptable list and listing it back gives the same rules in the same order with ranks 1 to n |
| RuleBook.RuleStore.SaveRoutingRules | internal/services/awgroute/awgroute.go:644-766 | errors in order of precedence, naming the first rule that cannot be stored; any failure leaves memory alone; success puts the same state in memory and on disk, it lists back with modes filled in, a connection is active exactly when routing is not off and some rule uses it, also as a mere backup, and references are kept while a rule needs them |
| SaveRules.EntryIsSaved | internal/services/awgroute/awgroute.go:733-745 | one connection after a save: its own rules, the new mode, active exactly when some rule uses it |
| SaveRules.FirstRefusalIsReported | internal/services/awgroute/awgroute.go:661-727 | a list is refused for its first rule that cannot be stored, for the reason read off what was asked, and stored when there is none |
| BackupGraph.OrderedIsAcyclic | internal/services/awgroute/delete_replacement.go:262-276 | a complete finishing order rules out every cycle |
| BackupGraph.GraphCheck.Visit | internal/services/awgroute/delete_replacement.go:263-276 | the depth-first search terminates; a refusal exhibits a cycle, otherwise the node is finished after all its backups |
| BackupGraph.ValidateReplacementGraph | internal/services/awgroute/delete_replacement.go:257-283 | accepts exactly the graphs without a cycle |
| Replacement.AwgReplacementFallbacks | internal/services/awgroute/delete_replacement.go:168-179 | the loop renames and normalises a backup list |
| Replacement.ReplacementFallbacksMembers | internal/services/awgroute/delete_replacement.go:168-179 | the renamed list has exactly the old members with target for source, without the source, the primary and repetitions |
| Replacement.ReplacedRulesListBack | internal/services/awgroute/delete_replacement.go:207-249 | what is listed after the replacement is every retargeted rule that names a remaining connection or waits, in the old order |
| Replacement.ReplacementKeepsEveryRule | internal/services/awgroute/delete_replacement.go:183-255 | when every rule names a connection or waits, the listing keeps every rule in order, with target for source in primaries and backups |
| Replacement.SurvivorsAreTheNamed | internal/services/awgroute/delete_replacement.go:207-231 | the survivors are the positions of the rules that name a connection or wait, no others, in order |
| Replacement.ReplacementLosesOnlyDanglingRules | internal/services/awgroute/delete_replacement.go:207-231 | after the replacement the listing is, in the old order, exactly the rules that name a connection or wait, each retargeted |
| ReplacementState.AwgReplacementState | internal/services/awgroute/delete_replacement.go:183-255 | refused exactly when a connection is missing or the new backups form a cycle; otherwise the candidate and whether traffic moves |
| Handovers.EntryIsHandedOver | internal/services/awgroute/delete_replacement.go:226-249 | the target is switched on and taken out of standby exactly when the source was active and full or had an enabled rule, and routing of the target is not off; all other flags stay; backups are the own ones followed by the source's, renamed, each once, in order; the applied snapshot agrees |
| Handovers.CandidateHandsOver | internal/services/awgroute/delete_replacement.go:183-255 | so it is for every remaining connection, in the old order, with selection and references |
| Handovers.RefsAreRetained | internal/services/awgroute/pending_rules.go:91-128 | exactly the connections that are not there and that rules still name keep a reference, the known one or a bare label |
| Handovers.PublishedStateIsLive | internal/services/awg/config.go:288-327 | live connections hold what was saved with rule modes filled in by the old global mode, and unset or old routing modes replaced |
| ReplacementState.ListedRulesArePlain | internal/services/awgroute/awgroute.go:539-570 | every listed rule has a trimmed connection ID and an explicit route |
| ReplacementState.NoTraceOfTheSource | internal/services/awgroute/delete_replacement.go:183-255 | the deleted ID survives in no connection, rule, backup list, applied snapshot, reference or selection |
| Publishing.Normalize | internal/services/awg/config.go:288-327 | the loop that fills unset rule modes and retires the old global modes |
| Publishing.PublishedStateListsTheSame | internal/services/awg/manager.go:273-279 | handing a saved state to the live connections changes its listing in nothing but unset modes; a rule that has a mode stays as it is |
| Publishing.PublishedStateFixed | internal/services/awg/config.go:288-327 | publishing a state changes nothing exactly when every connection has a current routing mode and every rule it holds, in its applied snapshot too, has a mode |
| RuleBook.RuleStore.Publish | internal/services/awgroute/delete_replacement.go:109-133 | connection by connection, memory becomes the published candidate; modes are filled in the applied snapshot too, which shares its rules |
| RuleBook.TargetIsSettled | internal/services/awgroute/delete_replacement.go:109-133 | what is published equals what was saved exactly when the remaining connections have a current mode and every listed rule that goes to a connection has a mode |
| RuleBookCases.UnsetModeSeparatesMemoryFromDisk | internal/services/awgroute/awgroute.go:661-670 | an instance: a waiting rule without a mode that names the deleted connection is saved as it is, and memory then differs from the disk |
| RuleBookCases.DanglingRuleIsLost | internal/services/awgroute/awgroute.go:1374-1388 | an instance: a rule stored unchecked with the name of no connection is listed before the replacement and not after it |
| RuleBook.DeletionIsComplete | internal/services/awgroute/delete_replacement.go:109-133 | the published state is well formed, has no trace of the source and lists exactly the rules that named a connection or waited |
| RuleBook.RuleStore.DeleteWithReplacement | internal/services/awgroute/delete_replacement.go:59-160 | all or nothing for every pattern of save, rollback and load failure: refused touches nothing, not done leaves the old state in memory and on disk, uncertain leaves memory, committed and deleted have the new state in both: every remaining connection handed over, traffic and backups taken over by the target, no trace of the source; memory equals the disk exactly when the state before left no mode unset |
| DnsCandidates.OrderIsReachability | internal/services/awgroute/dns_service.go:70-87 | depth-first order meets exactly the profiles that chains of backups reach, each once, cycles or not |
| DnsCandidates.SelectionExistsExactlyWhenReachable | internal/services/awgroute/dns_service.go:70-87 | a profile is selected exactly when a connected one is reachable, and it is such a one |
| DnsCandidates.EarlierBackupWins | internal/services/awgroute/dns_service.go:70-87 | a disconnected profile is served by its first connected backup, as long as none before it leads to a connected profile |
| DnsCandidates.StatusReader.IsConnected | internal/services/awgroute/dns_service.go:47-57 | usable and physically connected; the status is read at most once and remembered |
| DnsCandidates.StatusReader.SelectConnected | internal/services/awgroute/dns_service.go:70-86 | the recursive search with its shared `seen` set stops at the first connected profile in depth-first order; it terminates on cyclic graphs |
| DnsCandidates.DnsRouteCandidates | internal/services/awgroute/dns_service.go:24-94 | exactly the profiles that are switched on and have an endpoint are offered, in order, available when they also are no idle standby and run, with the interface their traffic takes now; only usable profiles have their status read, each at most once |
| DnsNames.WrittenNamesAreRead | internal/services/awg/dnswire.go:204-240 | every name written at a position, compressed or not, is read back if it takes at most 16 jumps (section 4.1.4 of RFC 1035) |
| DnsNames.ReadingIsExact | internal/services/awg/dnswire.go:204-240 | reading succeeds exactly where such a name is written, and returns its labels and the end of the bytes at that place |
| DnsNames.OneNamePerPosition | internal/services/awg/dnswire.go:204-240 | a message holds at most one name at each position |
| DnsNames.ReadName | internal/services/awg/dnswire.go:204-240 | the loop stays in bounds, terminates and returns the joined lower-case name, or that there is none |
| DnsNames.JoinLabels | internal/services/awg/dnswire.go:242-269 | dots between the labels, ASCII letters in lower case |
| DnsNames.NameIsReadBack | internal/services/awg/dns_prepare.go:61-72 | a name written piece by piece is read back exactly when no piece is empty |
| DnsMessages.ServiceBindingHints | internal/services/awg/dnswire.go:160-200 | the hints of a well-formed parameter list, and none at all of a malformed one or in alias mode |
| DnsMessages.WrittenHintsAreRead | internal/services/awg/dnswire.go:168-199 | a parameter list with rising keys and whole addresses is read as written (sections 2.2 and 7.3 of RFC 9460) |
| DnsMessages.FoursAreRead | internal/services/awg/dnswire.go:184-190 | every four bytes of an ipv4hint are read, each as its own address; likewise every sixteen of an ipv6hint (`SixteensAreRead`), mapped addresses as IPv4 |
| DnsMessages.AnswerIPs | internal/services/awg/dnswire.go:100-155 | of a well-formed response, what its answers hand out, once each, in order of first appearance; on arbitrary bytes what can be read |
| DnsMessages.AnyMessageIsReadAsWritten | internal/services/awg/dnswire.go:100-155 | on arbitrary bytes: without its questions a message has no answers; otherwise they are those of the records written one after the other, as many as announced or up to the first place where none is written |
| Lists.DedupKeepsOrder | internal/services/awg/dnswire.go:120-126 | addresses keep the order in which they first appear |
| DnsMessages.ResponseHandsOutItsAddresses | internal/services/awg/dnswire.go:100-155 | of a well-formed response the result is exactly the addresses its answer records and service hints hand out |
| DnsMessages.MessageHandsOutItsAddresses | internal/services/awg/dnswire.go:100-200 | read over all sections, a well-formed message has exactly the addresses its records hand out |
| DnsMessages.IsSinkholeResponse | internal/services/awg/dnswire.go:74-98 | NXDOMAIN, an empty positive answer, or nothing but null routes |
| DnsReplies.QuestionInfo | internal/services/awg/dnswire.go:31-43 | the first question's lower-case name and type, if there is one |
| DnsReplies.EmptyNoErrorResponse | internal/services/awg/dnswire.go:16-28 | a copy with the response bit set, no error and no records; every other bit is the query's |
| DnsReplies.DnsFailureResponse | internal/services/awg/dns_prepare.go:53-78 | given exactly when the question can be echoed; it holds that question, the query's ID and the failure code, and nothing else |
| DnsReplies.FailureReplyEchoesTheQuestion | internal/services/awg/dns_prepare.go:53-78 | a failure reply has no addresses in any section, and asks for the labels, type and class of the query exactly when no label has a dot in it |
| DnsReplies.FailureReplyEchoesTheText | internal/services/awg/dns_prepare.go:53-78 | as dotted text its name reads back exactly when no piece of it is empty |
| DnsReplies.InnerDotIsEchoedAsTwoLabels | internal/services/awg/dns_prepare.go:61-72 | an instance: a query for the one label `a.b` is answered with the question for `a` under `b` |
| DnsReplies.TrailingDotIsNotEchoed | internal/services/awg/dns_prepare.go:61-72 | an instance with an empty piece: the echo of the one label `a.` does not even read back as text |
| DnsReplies.FilterIPv6Hints | internal/services/awg/dns_prepare.go:84-108 | an IPv6 address of any section gets through exactly when the response has one and it is not the case that the type is SVCB or HTTPS, the name blocked, the question echoable and an IPv6 address in the answers |
| DnsReplies.AnswerHintsAreHeldBack | internal/services/awg/dns_prepare.go:84-108 | if the question can be echoed, no answer record of a blocked name keeps an IPv6 address |
| DnsReplies.OverlongLabelLetsHintsThrough | internal/services/awg/dns_prepare.go:97-104 | an instance: a label of 64 bytes cannot be echoed, so the filter hands out the IPv6 hint of a blocked HTTPS answer |
| DnsReplies.AdditionalRecordsAreNotFiltered | internal/services/awg/dns_prepare.go:99-107 | an instance: with an echoable question the filter hands out the same hint when it is in an additional record |
| DnsObserve.ValidatedDNSAnswerIPs | internal/services/awg/dns_observe.go:19-47 | mismatch, malformed and negative answers in order of precedence; else the answer's addresses |
| DnsObserve.AcceptedHintsAreComplete | internal/services/awg/dns_observe.go:28-46 | an accepted hint comes from a message whose answer records were all read |
| DnsObserve.RebuildQuestion | internal/services/awg/dns_observe.go:63-74 | a message of the response's question and nothing else, never out of range for a length byte |
| DnsObserve.RebuiltQuestionReadsBack | internal/services/awg/dns_observe.go:63-84 | it asks for the labels, type and class of the response exactly when no label has a dot in it; the filter can echo it exactly when the pieces up to the first empty one are at most 63 bytes |
| Watchdog.ClientRecovery.ObserveWithSettings | internal/services/awgroute/client_watchdog.go:95-138 | an observation by fields: what counts as health and what it clears; reconnect exactly when the pause is over and the tunnel is stopped, or overdue after an attempt or a probe; probe exactly when overdue for the first time; and every field afterwards |
| Watchdog.ClientRecovery.AttemptedWithSettings | internal/services/awgroute/client_watchdog.go:171-196 | a recorded attempt by fields; the next is due one pause after the handshake window, none at first, then the usual one, then the long one |
| Watchdog.ClientRecovery.Reconfigure | internal/services/awgroute/client_watchdog.go:198-211 | changed settings move the deadlines of a recovery under way, measured from its probe and attempt, and nothing else |
| Watchdog.TimestampsStayOrdered | internal/services/awgroute/client_watchdog.go:95-211 | over every run with a clock that does not go back, failure start <= attempt <= verification deadline <= retry time wherever set |
| Watchdog.OutageStartIsFixed | internal/services/awgroute/client_watchdog.go:95-145 | the start of an outage does not move until a running tunnel shows health |
| Watchdog.HealthEndsTheOutage | internal/services/awgroute/client_watchdog.go:97-111 | health clears the outage, its deadlines and its attempts |
| Watchdog.ReconnectIsNeverEarly | internal/services/awgroute/client_watchdog.go:112-138 | no reconnect before the retry time, nor before the verification deadline of a running tunnel |
| Watchdog.ProbeComesBeforeTheFirstReconnect | internal/services/awgroute/client_watchdog.go:121-138 | a running tunnel without attempts is reconnected only after a probe in the same outage whose window has passed |
| Watchdog.SilentTunnelIsReconnected | internal/services/awgroute/client_watchdog.go:112-138 | a tunnel that stays silent is probed and then reconnected once the window has passed |
| Watchdog.LastSettingsWin | internal/services/awgroute/client_watchdog.go:198-211 | changing settings twice is changing them to the last ones |
| MacJournal.Machine.JournalOriginals | internal/services/arpspoof/apply.go:79-89 | originals are on disk before any write, or the journal is as it was |
| MacJournal.Machine.Rollback | internal/services/arpspoof/apply.go:99-107 | undoing touches only what was attempted; if every restore works each address reads as before |
| MacJournal.Machine.WriteAll | internal/services/arpspoof/apply.go:90-111 | all targets written, or a failure whose complete rollback restores every address; recoverable at every moment |
| MacJournal.Machine.Apply | internal/services/arpspoof/apply.go:26-123 | whatever fails: an early refusal changes nothing, a failed write with complete rollback restores every address, success gives targets the new address and drops the rest to their own; every refusal has its fault or its target, an interface that is gone refuses only as a target, and without faults the apply succeeds |
| MacJournal.Machine.Live | internal/services/arpspoof/apply.go:26-123 | over every run of applies, saves, restarts and hot-plugs, each finished or cut short by a crash at any moment within it and gone on from there, the journal on disk always knows the own address of each interface that does not have it |
| Ranges.DecimalReadsBack | internal/services/awg/awg31.go:140-161 | a printed number is read back |
| Ranges.RangeReadsBack | internal/services/awg/awg31.go:129-161 | a printed range is read back as its interval |
| Ranges.WireRangeKeepsInterval | internal/services/awg/awg31.go:129-161 | the normal form denotes the same interval, and a text that is no range still is none |
| Ranges.WireRangeIsIdempotent | internal/services/awg/awg31.go:129-138 | normalising twice changes nothing |
| Ranges.HeadersAreRanges | internal/services/awg/obf.go:112-124 | the header check, which cuts at the first dash, accepts exactly what the range reader accepts |
| Obfuscation.NormalizedIsFixed | internal/services/awg/obf.go:19-42 | normalising twice is normalising once exactly when no header consists of spaces only |
| Obfuscation.SpaceHeaderSettlesLate | internal/services/awg/obf.go:19-42 | an instance: a header of one space is emptied by the first round and filled in by the second |
| Obfuscation.NormalFormsKeepTheirMeaning | internal/services/awg/obf.go:34-41 | normalised headers and timings denote the same intervals |
| ClientConf.ClientConf | internal/services/awg/conf.go:37-103 | the writer produces one line per key that has a value, in order |
| ClientConf.CountsAreSaid | internal/services/awg/conf.go:68-105 | the lines for junk and padding counts, by name and value; likewise `HeadersAreSaid`, `PacketsAreSaid`, `TimesAreSaid` and `SwitchesAreSaid` |
| ClientConf.IdentityIsSaid | internal/services/awg/conf.go:37-66 | the lines for keys, addresses, endpoint and keepalive, by name and value, under their headings |
| ConfImport.ParseConfSections | internal/services/awg/import.go:415-450 | the scanner loop gives the two sections, or the reason why not |
| ConfImport.ImportNeeds | internal/services/awg/import.go:35-160 | an import is refused exactly when a key, the endpoint, a switch or the keepalive is missing or unreadable, or the obfuscation settings are not valid |
| ConfImport.ImportReads | internal/services/awg/import.go:45-190 | each field of the imported profile comes from the value of its own name |
| ConfRoundTrip.PairReadsBack | internal/services/awg/import.go:395-401 | a written key and value are told apart again, whatever the value contains |
| ConfRoundTrip.ConfLinesParse | internal/services/awg/import.go:415-450 | the written lines parse into exactly the written values, section by section |
| ConfRoundTrip.ObfRecovers | internal/services/awg/import.go:104-143 | all obfuscation settings come back, omitted and default ones included |
| ConfRoundTrip.KeepaliveComesBack | internal/services/awg/awg31.go:18-37 | the effective keepalive comes back, range, number or explicit zero |
| ConfRoundTrip.ExportThenImport | internal/services/awg/import.go:35-210 | export then import recovers obfuscation, keys, endpoint, address, allowed IPs, keepalive, DNS and MTU, unless the text contains a vpn:// word |
| ConfLinks.LinkInConf | internal/services/awg/import.go:212-233 | the exported text has a vpn:// word exactly when one of the written values has |
| ConfLinks.RoundTripIsExact | internal/services/awg/import.go:35-210 | with the link unpacker refusing, an exported configuration is imported exactly when no written value has a vpn:// word, and then gives the connection back |
| ConfLinks.LinkedNameServerIsNotImported | internal/services/awg/import.go:212-233 | an instance: a valid connection with the name server `vpn://home` is exported and refused as a bad link |

## Left out

- Machine integers: generations, epochs and revisions are 64-bit counters in the source; here they do not wrap.
- Text: ASCII only in trimming, lower-casing and case-insensitive comparison; DNS names and messages are bytes.
- Regular expressions: a predicate with laws for the forms the program writes or looks for: a quoted literal followed by `$`, `^` alone, and `^...$` around dots, dot-stars and literal characters.
- Before the first table is published routeFor answers "no match"; the model starts with a table.
- Zone expansion and CIDR matching of client addresses: parameters of the decision table.
- The matchers inside a route table are kept as the list of compiled entries, not as the compiled set; `Matchers.CompileMatcherSet` proves both answer alike, what the table then does not show is the sharing of trie nodes.
- The publisher is modelled on values, one step per atomic operation: its only mutable object is the table pointer, which the steps replace.
- Memo expiry: entries carry their expiry time and `now` is a parameter; no property depends on how time passes. The two-second timeout of the kernel write is one way for it to fail.
- Addresses in DNS answers: values instead of their text, which is injective.
- parseECSFromQuery, TCP framing, sockets, caches and pools of the DNS proxy: network input and output around the message functions.
- prepareReply and the trace callbacks: they only call what is modelled here.
- Settings of a routing configuration other than its mode, and connection settings other than routing, backups and standby: carried along unchanged.
- Empty and missing slices are one value; the order of map iteration is arbitrary.
- RuleBook.RuleStore.SaveRoutingRules: with no connection left the source adds a default profile to the saved state; the model saves the state without one.
- RuleBook.RuleStore.DeleteWithReplacement: a blank replacement is the ordinary deletion, which is not part of this model; starting the target, applying routes and stopping the old tunnel are one flag that says whether they worked.
- The default connection for rules without one is a parameter, as it depends on live tunnels.
- DnsCandidates.DnsRouteCandidates: a physical status does not change while one list is made; interface names and labels are computed by parameters.
- MacJournal.Machine.Apply: which faults are possible is a parameter, and a possible fault may or may not happen; an interface that vanished returns with its own address.
- Watchdog: the supervisor loop, locks and the driver calls around the recovery state.
- ConfRoundTrip.ExportThenImport: obfuscation on, written values single trimmed lines under 64 KiB, as the writer and reader assume; key derivation, host and port syntax, packet templates and `vpn://` unpacking are parameters.
- ConfImport.Atoi: unbounded; strconv.Atoi with its error ignored yields the largest or smallest int when the digits overflow it.
- Obfuscation.NormalizedIsFixed: `HasHeaderProtectionKey`, which is derived from the key, is not kept.
- ServerConf, SetConfText, protocol version detection and the derived server address of an import.
- HTTP handlers, the web interface, SSH provisioning, shell, iptables, ip-route and `/proc` code.
