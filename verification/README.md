# Aegis defence model

Aegis is a host agent that turns log events into evidence chains, scores them, recommends responses, lets a policy gate
decide, enforces what is allowed, and rolls back what hurt the host or has expired. This project models that pipeline and
the state it carries from one loop to the next, and proves what it keeps over all inputs and all runs.

- **Evidence** (`Models`, `EvidenceRelation`, `EvidenceClosure`, `EvidenceBuilder`, `ChainBuilder`, `Scoring`,
  `EvidenceMonotonicity`): the worklist over a growing seed computes a least fixpoint; the score is monotone in it; more
  evidence never weakens the response to a source address.
- **Planning and gate** (`Addresses`, `PolicyGate`, `RuleEngine`, `AiReasoning`, `Controller`): recommendations against a
  rule table, provider fallback and sanitising, claims grounded in evidence, the gate's conditions.
- **Enforcement and undoing** (`Effects`, `PersistenceLines`, `FileEffects`, `FirewallEffects`, `Executors`,
  `Controller`): six nftables sets and a file system; batches of actions and their rollback.
- **Runs** (`Audit`, `AgentRuns`, `Responses`): the agent as a state machine of responses, clock ticks, expiry cleanups and manual
  rollbacks, with its action table.
- **Memory across loops** (`AttackLoop`, `PolicyPromotion`, `SecurityGrowth`): incremental state against functions of the
  whole history.
- **Kernels** (`TailState`, `Redaction`, `Detectors`), and helpers (`Common`, `Lists`, `Grouping`, `SortedText`).

Most modules end by spelling out the definitions they rest on: on events, plans, files and numbers, with every window,
threshold, TTL and set name written as a literal, proved equivalent to the definition they do not name.

Code that works step by step is a method with its loops or a class with its fields, proved against a specification
function; the lemmas are about that function. Regular expressions, hashes, generated ids, address parsers, provider answers
and the wording of reasons are parameters. Time, file contents and the outcome of commands are inputs. A missing text field
and an empty one are the same empty string, since every caller modelled here tests only for falsiness.

## Where the code keeps less than one would expect

Each of these has a lemma with the exact condition or a concrete case.

- Allowlist: targets are stripped before they are validated but not before they are looked up
  (`src/aegis_agent/utils.py:52-65`, `132-156`), so a padded target passes the gate
  (`Addresses.AllowlistSeesUnpaddedOnly`, `PolicyGate.GateProtectsUnpaddedTargets`, `AgentRuns.FirewallSafety`). Listed
  addresses are compared as text, so another spelling of one passes too (`Addresses.AllowlistMissesExactly`,
  `Addresses.OtherSpellingIsMissed`, `PolicyGate.EscapesAreAllowed`). Plans free of both are safe (`AgentRuns.PlainRunsRespectTheAllowlist`).
- More evidence: a signature match with a zero TTL replaces a recommendation that had one, and a policy that requires a TTL
  then denies it (`EvidenceMonotonicity.MoreEvidenceKeepsResponse`, `EvidenceMonotonicity.TtlFollowsInputs`,
  `EvidenceMonotonicity.ZeroTtlWithdrawsBlock`).
- Expiry: cleaning up an older row removes the element of a newer block of the same address
  (`AgentRuns.CleanupLiftsExactly`, `AgentRuns.LaterBlockIsLifted`); rows beyond the newest 10000 are never cleaned up
  (`Audit.HandedExactly`, `Audit.OldRowsAreForgotten`).
- Quarantine: when writing the metadata fails after the move, the payload names no paths and the file stays away
  (`FileEffects.LossyLoses`); a move across file systems that fails leaves a copy nobody takes away
  (`FileEffects.BatchUndo`); two equal generated names in a batch, and only they, lose a file
  (`FileEffects.QuarantinesUndoExactly`, `FileEffects.QuarantineNamesCollide`).
- Order of undoing: a file that was edited and then quarantined comes back edited, since the rollback goes forward
  (`FileEffects.EditSurvives`, `FileEffects.EditThenQuarantineUndoesExactly`).
- Persistence: when rewriting a file fails after it was truncated, the payload names no backup and the text is lost
  (`src/aegis_agent/executors/persistence_guard.py:82-88`, `164`; `FileEffects.LossyLoses`, `FileEffects.BatchUndo`).
- Marker: reading translates carriage returns, so a file with CRLF line ends is not recovered by deleting the markers; and
  a line that already starts with its very marker is changed by that (`PersistenceLines.MarkerRemovalRecovers`).
- Attack sessions: an observation of another key ahead of time drops sessions (`AttackLoop.ClockJumpsSplitExactly`).
- Tail reading: a bounded read can tear a line (`TailState.LinesAgreeIffNoneTorn`), and a replaced file that is not shorter
  loses its beginning (`TailState.ReplacedFile`).
- Redaction: mask-only keys are returned as they are, nested secrets included (`Redaction.WhatRedactionMisses`).
- Relation: the reason for web-related processes is never given (`EvidenceRelation.WebProcessReasonUnreachable`).

## Model
| member | source | states |
|---|---|---|
| `EvidenceRelation.ReasonIffLinked` | src/aegis_agent/evidence/builder.py:117-163 | On a seed that describes the attached events, the branches of the code find a reason if and only if the event is linked, in the declarative sense, to some attached event or anchor. |
| `EvidenceRelation.LinkedMonotone` | src/aegis_agent/evidence/builder.py:117-163 | More anchors and more attached events never unlink an event, whichever branch linked it. |
| `EvidenceRelation.PropagatedFinds` | src/aegis_agent/evidence/builder.py:143-153 | The scan over attached events succeeds exactly when one of them shares an address, a path or a process id. |
| `EvidenceRelation.WebProcessReasonUnreachable` | src/aegis_agent/evidence/builder.py:155-161 | The last branch of the relation is never taken: text that would satisfy it has matched earlier. |
| `EvidenceClosure.WellLinkedIsLeast` | src/aegis_agent/evidence/builder.py:189-205 | Events absorbed one by one, each linked when it was absorbed, lie in every set that is closed under the relation. |
| `EvidenceClosure.WellLinkedClosure` | src/aegis_agent/evidence/builder.py:189-205 | If moreover nothing outside is linked any more, the absorbed events are the least closed set. |
| `EvidenceClosure.ClosureUnique` | src/aegis_agent/evidence/builder.py:189-205 | There is one least closed set for given anchors and candidates. |
| `EvidenceClosure.ClosureMonotone` | src/aegis_agent/evidence/builder.py:189-205 | The closure of an address over more events contains its closure over fewer. |
| `EvidenceClosure.AnchorsStayHome` | src/aegis_agent/evidence/builder.py:180-190 | An event with a source address is in the closure of that address and of no other. |
| `EvidenceBuilder.CollectIps` | src/aegis_agent/evidence/builder.py:30-44 | The addresses gathered by the code are the ones the relation speaks about. |
| `EvidenceBuilder.CollectFiles` | src/aegis_agent/evidence/builder.py:47-58 | The same for paths, including that the `paths` list keeps empty entries. |
| `EvidenceBuilder.CollectPids` | src/aegis_agent/evidence/builder.py:61-76 | The same for process ids. |
| `EvidenceBuilder.MakeSeed` | src/aegis_agent/evidence/builder.py:87-103 | The initial seed describes exactly the anchors. |
| `EvidenceBuilder.RefreshSeed` | src/aegis_agent/evidence/builder.py:166-173 | Absorbing an event keeps the seed a function of the set of attached events, whatever the order. |
| `EvidenceBuilder.Round` | src/aegis_agent/evidence/builder.py:194-205 | One pass keeps seed, links and partition; it shrinks the worklist or proves that nothing left is linked. |
| `EvidenceBuilder.GrowChain` | src/aegis_agent/evidence/builder.py:189-205 | The worklist ends with the least closed set, every attached event linked back to an anchor and marked with a reason, after at most n+1 rounds and n(n+1)/2 relation checks for n candidates. |
| `ChainBuilder.GatherEntities` | src/aegis_agent/evidence/builder.py:231-249 | The address, user and path sets of a chain are those of its events, with nothing missing or added. |
| `ChainBuilder.MakeChain` | src/aegis_agent/evidence/builder.py:231-257 | A chain lists each address, user and path once in ascending order, and carries the score, band, attack and reasons of its events. |
| `Grouping.AddToGroup` | src/aegis_agent/evidence/builder.py:180-188 | Appending to the group of a key keeps the groups those of the list and the keys in order of first appearance. |
| `ChainBuilder.GroupBySource` | src/aegis_agent/evidence/builder.py:180-188 | Events are grouped by source address in order of first appearance, the events without one set aside. |
| `ChainBuilder.ChainFor` | src/aegis_agent/evidence/builder.py:189-208 | The chain of an address holds its closure, each event once, in time order, and names that address as its one source. |
| `ChainBuilder.Deduplicate` | src/aegis_agent/evidence/builder.py:221-228 | Every list of event ids is reported exactly once, and nothing is dropped when all differ. |
| `ChainBuilder.ChainKeysDiffer` | src/aegis_agent/evidence/builder.py:221-228 | Chains of different addresses never have the same event ids, so deduplication drops none of them. |
| `ChainBuilder.HostOnlyChains` | src/aegis_agent/evidence/builder.py:210-219 | Without any source address there is a chain of tampering evidence and one of the other host events, each if non-empty, and they differ. |
| `ChainBuilder.BuildEvidenceChains` | src/aegis_agent/evidence/builder.py:176-228 | One chain for every source address of the input, in order of first appearance, and no other, each the closure of that address; only without any source address are the host-only chains reported. |
| `EvidenceMonotonicity.OneChainPerSource` | src/aegis_agent/evidence/builder.py:180-228 | Every event with a source address lies in exactly one reported chain, the one of that address. |
| `EvidenceMonotonicity.OrderIrrelevant` | src/aegis_agent/evidence/builder.py:176-208 | Any order of the same events gives an address the same evidence and the same score. |
| `EvidenceMonotonicity.ChainGrows` | src/aegis_agent/evidence/builder.py:176-228 | More collected events never remove an event from an address's chain nor lower its score. |
| `EvidenceMonotonicity.MoreEvidenceKeepsResponse` | src/aegis_agent/evidence/builder.py:176-228 | Through closure, scoring, bonuses, planning and gate: an allowed block or rate limit of the source address stays recommended on more evidence, and stays allowed unless and only unless the policy requires a TTL and the first signature match asking for it carries a zero one, or none is given and the default is zero. |
| `EvidenceMonotonicity.ResponseSurvives` | src/aegis_agent/core/policy_gate.py:20-56 | The planning and gate half of that statement, for any two chains of one source. |
| `EvidenceMonotonicity.TtlFollowsInputs` | src/aegis_agent/ai/rule_engine.py:131-186 | A recommended block or rate limit of the source has a zero TTL exactly if the first match asking for it carries one, or it gives none, or there is no such match, and the default is zero. |
| `EvidenceMonotonicity.ZeroTtlWithdrawsBlock` | src/aegis_agent/ai/rule_engine.py:131-151 | A concrete case: an earlier signature match with a zero TTL turns an allowed block into a denied one. |
| `ChainBuilder.SudoInChain` | src/aegis_agent/evidence/builder.py:117-123 | A sudo event without source address is in the reported chain of an address if and only if it is in the input, has a user whom another event of the chain carries, and a successful SSH login of that address lies within 900 seconds before or after it. |
| `ChainBuilder.AppErrorInChain` | src/aegis_agent/evidence/builder.py:126-129 | An application error is in the chain of an address if and only if it is in the input and a web attack of that address lies within 600 seconds before or after it. |
| `ChainBuilder.ArtifactInChain` | src/aegis_agent/evidence/builder.py:131-153 | Every other host event is in the chain if and only if it shares an address, a path or a process id, field by field, with another event of the chain, or its text names a path of one or an address of one other than the chain's own. |
| `ChainBuilder.SourcedInChain` | src/aegis_agent/evidence/builder.py:180-190 | An event with a source address is in the chain of that address and in no other. |
| `ChainBuilder.HostOnlyMembers` | src/aegis_agent/evidence/builder.py:210-219 | Without any source address, an event is reported exactly if its type is one of the listed tampering or high-signal ones, tampering in a chain of its own. |
| `EvidenceRelation.ReasonInFull` | src/aegis_agent/evidence/builder.py:117-163 | Which reason is recorded: sudo and application errors have their own; otherwise the first that holds of a shared destination, path and process id and a name in the text, then what the scan says. |
| `EvidenceRelation.ScanNamesFirst` | src/aegis_agent/evidence/builder.py:143-153 | The scan names what the first attached event that shares anything shares, an address before a path before a process id. |
| `Scoring.HasType` | src/aegis_agent/evidence/scoring.py:10-11 | A counter is positive exactly when an event of the type is present. |
| `Scoring.ScoreSsh` | src/aegis_agent/evidence/scoring.py:19-51 | The nested SSH tiers add up to independent thresholds; exactly the tiers and rules that hold are given as reasons. |
| `Scoring.ScoreBehaviour` | src/aegis_agent/evidence/scoring.py:52-67 | The same for sudo, web, application-error and process rules; the latest rule that fires names the attack. |
| `Scoring.ScoreArtifacts` | src/aegis_agent/evidence/scoring.py:68-76 | The same for the connection, file and persistence rules, which leave the attack as it was. |
| `Scoring.ScoreService` | src/aegis_agent/evidence/scoring.py:77-86 | The same for the request spike and the integrity rule. |
| `Scoring.ScoreDroneControl` | src/aegis_agent/evidence/scoring.py:88-107 | The same for the four command-and-control rules of drones. |
| `Scoring.ScoreDroneTraffic` | src/aegis_agent/evidence/scoring.py:108-122 | The same for the three traffic rules of drones. |
| `Scoring.MaxSignature` | src/aegis_agent/evidence/scoring.py:124-136 | The loop finds the largest risk of any signature match, unparsable ones counting 60, and the ids of all of them. |
| `Scoring.ApplyRules` | src/aegis_agent/evidence/scoring.py:17-139 | All rules in order add up to the additive reference, the latest that fires names the attack, and the reasons are exactly the rules that hold. |
| `Scoring.ScoreChain` | src/aegis_agent/evidence/scoring.py:9-164 | The score is the clamped sum of all rules with the gated cross-source bonus, band and attack agree with it, and the reasons are exactly those that explain it. |
| `Scoring.CountIsSize` | src/aegis_agent/evidence/scoring.py:10-11 | A type count is the number of distinct events of that type. |
| `Scoring.SignaturePointsIsMax` | src/aegis_agent/evidence/scoring.py:124-136 | The signature points bound every match and are reached by one. |
| `Scoring.PointsMonotone` | src/aegis_agent/evidence/scoring.py:10-139 | A superset of distinct events never earns fewer points under any rule. |
| `Scoring.ScoreMonotone` | src/aegis_agent/evidence/scoring.py:9-164 | A superset of distinct events never has a lower score, clamping and the bonus gate included. |
| `Scoring.ScoreInNumbers` | src/aegis_agent/evidence/scoring.py:9-147 | The score is, in literals, the total of all rules over the numbers of distinct events of each type and the largest signature risk, ten more from two collectors on from 40, at most 100. |
| `Scoring.OneKindScores` | src/aegis_agent/evidence/scoring.py:19-122 | n distinct events of one type from one collector score exactly the literal of that type: 0, 45, 60 or 75 for failed logins below 5, 10, 30 and from 30 on, and so for every other rule. |
| `Scoring.HeldEventsBoundTheScore` | src/aegis_agent/evidence/scoring.py:19-139 | In every chain the events of a type, the two pairs and every signature match bound the score from below by their literal. |
| `Scoring.LoginPairScores` | src/aegis_agent/evidence/scoring.py:47-51 | Successful and failed logins alone score the literal of the failures and 30 for the pair. |
| `Scoring.WebPairScores` | src/aegis_agent/evidence/scoring.py:55-62 | Web attacks and application errors alone score 25, with at least one of each 40, and errors alone nothing. |
| `Scoring.SignaturesScore` | src/aegis_agent/evidence/scoring.py:124-136 | Signature matches alone score the largest of their risks, 60 standing for one that is no number. |
| `Scoring.SecondCollector` | src/aegis_agent/evidence/scoring.py:141-145 | A second collector adds ten to a total of at least 40 and nothing to a smaller one. |
| `Scoring.BandInNumbers` | src/aegis_agent/evidence/scoring.py:148-157 | The five bands begin at 90, 75, 60 and 30, exactly. |
| `EvidenceMonotonicity.BonusesAddUp` | src/aegis_agent/core/loop_controller.py:263-279 | Bonuses add to the score up to 100. |
| `Scoring.ReasonsInNumbers` | src/aegis_agent/evidence/scoring.py:19-145 | A reason is given exactly if its rule holds of the numbers of events, with every threshold in literals and the ids of all signature matches. |
| `Scoring.AttackInNumbers` | src/aegis_agent/evidence/scoring.py:17-139 | The attack named is that of the last rule that holds, drone and signature rules over the host ones. |
| `Scoring.HostAttackInNumbers` | src/aegis_agent/evidence/scoring.py:19-86 | Among the host rules likewise, by the numbers of events. |
| `Addresses.ValidMeansEnforceable` | src/aegis_agent/utils.py:132-156 | A target validates with a version exactly when its stripped text is an address of that version outside every unsafe class. |
| `Addresses.AllowlistSeesUnpaddedOnly` | src/aegis_agent/utils.py:52-65 | The allowlist recognises a valid target exactly when its text carries no padding and is listed or lies in a valid listed network. |
| `Addresses.AllowlistMissesExactly` | src/aegis_agent/utils.py:52-65 | An address that the lists protect by value escapes them exactly under a padded text, or under another spelling of a listed address outside every listed network. |
| `Addresses.OtherSpellingIsMissed` | src/aegis_agent/utils.py:57-58 | A concrete case: 2001:DB8::1 is not found in a list that holds 2001:db8::1. |
| `PolicyGate.StrongerPlanStaysAllowed` | src/aegis_agent/core/policy_gate.py:20-56 | More score and evidence and no larger minimum keep an allowed plan allowed, except for a required TTL that is now zero or missing. |
| `PolicyGate.BarePlanBounds` | src/aegis_agent/core/policy_gate.py:34-64 | A plan without metadata meets the policy's own evidence minimum and suspends no process while audited evidence is required. |
| `PolicyGate.GateProtectsUnpaddedTargets` | src/aegis_agent/core/policy_gate.py:45-50 | With all else in order the gate refuses an address exactly when it is allowlisted and its text carries no padding. |
| `PolicyGate.PlainTargetsAreProtected` | src/aegis_agent/core/policy_gate.py:45-50 | For targets spelled as the lists spell them, the gate allows no plan against an address protected by value. |
| `PolicyGate.EscapesAreAllowed` | src/aegis_agent/core/policy_gate.py:45-50 | One policy that refuses a block of a listed address and allows the same block under a padded text and under another spelling. |
| `Addresses.NetworkIsRange` | src/aegis_agent/utils.py:52-65 | A listed network holds exactly the addresses from its base, host bits cleared, up to base plus block size, of its own version. |
| `Addresses.SomeNetworks` | src/aegis_agent/utils.py:52-65 | A /8, a /24 and a /32 as ranges of addresses. |
| `Addresses.UnsafeClasses4` | src/aegis_agent/utils.py:132-156 | The unsafe IPv4 addresses are 0.0.0.0, 255.255.255.255 and the networks 127/8, 224/4 and 169.254/16. |
| `Addresses.UnsafeClasses6` | src/aegis_agent/utils.py:132-156 | The unsafe IPv6 addresses are ::, ::1 and the networks ff00::/8 and fe80::/10. |
| `Addresses.StripInFull` | src/aegis_agent/utils.py:132-140 | Stripping takes away exactly the white space on both sides. |
| `Addresses.VerdictInFull` | src/aegis_agent/utils.py:132-156 | A target is missing, no address or unsafe, each exactly when it says so. |
| `PolicyGate.AllowedExactly` | src/aegis_agent/core/policy_gate.py:20-83 | A plan is allowed if and only if every condition holds: defined, enabled, auto-allowed, the score minimum, the lowered evidence minimum, a safe and unlisted address, TTL, rollback, process names, audit serial and accounts. |
| `PolicyGate.DeniedForTheFirst` | src/aegis_agent/core/policy_gate.py:20-83 | A plan is denied with a reason if and only if that reason applies and none that the gate asks for before it does. |
| `Controller.ExecutedFilesWerePermitted` | src/aegis_agent/core/loop_controller.py:288-296 | The file operations carried out are exactly those of the file plans that meet every condition, so that their action is enabled and auto-allowed and their score at the minimum. |
| `RuleEngine.AddUnique` | src/aegis_agent/ai/rule_engine.py:106-112 | The first recommendation for an action and target wins, and unnamed targets are dropped. |
| `RuleEngine.SignatureRecs` | src/aegis_agent/ai/rule_engine.py:131-151 | For every action and target, the earliest signature match asking for it decides. |
| `RuleEngine.BruteForceRecs` | src/aegis_agent/ai/rule_engine.py:153-169 | Block and SSH rate limit of the chain's own source, behind anything recommended before. |
| `RuleEngine.FloodRecs` | src/aegis_agent/ai/rule_engine.py:171-186 | Flood and web rate limits of the own source, behind anything recommended before. |
| `RuleEngine.SourceRecs` | src/aegis_agent/ai/rule_engine.py:153-186 | The own-source rules change nothing about other targets or earlier recommendations. |
| `RuleEngine.NetworkRecs` | src/aegis_agent/ai/rule_engine.py:131-194 | All network recommendations, looked up by action and target, are those of the rule table. |
| `RuleEngine.SuspendRecs` | src/aegis_agent/ai/rule_engine.py:196-213 | A suspension is recommended exactly from score 90 on the first process with verified audit evidence. |
| `RuleEngine.QuarantineRecs` | src/aegis_agent/ai/rule_engine.py:215-220 | A quarantine of the first dropped file exactly from score 75. |
| `RuleEngine.PersistenceRecs` | src/aegis_agent/ai/rule_engine.py:222-232 | A persistence disabling exactly from score 85 with such evidence, "unknown" when no path is known. |
| `RuleEngine.AccountRecs` | src/aegis_agent/ai/rule_engine.py:234-240 | An account restriction exactly from score 90, preferring accounts seen logging in. |
| `RuleEngine.Recommend` | src/aegis_agent/ai/rule_engine.py:66-240 | Pairwise distinct action and target pairs, and the entry for each pair is the one of the rule table. |
| `RuleEngine.BuildActionPlans` | src/aegis_agent/ai/rule_engine.py:262-276 | One plan for each recommendation, in order, with the chain's evidence and score. |
| `RuleEngine.SourceActionSurvives` | src/aegis_agent/ai/rule_engine.py:131-186 | A recommendation on the own source survives more evidence and score, and its own evidence minimum never rises. |
| `RuleEngine.RecForNamesItself` | src/aegis_agent/ai/rule_engine.py:106-240 | A recommendation carries the action and target it is filed under. |
| `RuleEngine.KeysGrowWithScore` | src/aegis_agent/ai/rule_engine.py:106-240 | For a fixed chain the recommended pairs only grow with the score. |
| `RuleEngine.ListedInFull` | src/aegis_agent/ai/rule_engine.py:106-240 | The list built holds exactly the recommendations of the rules, no other and none missing. |
| `RuleEngine.DigitsInFull` | src/aegis_agent/ai/rule_engine.py:199 | A process id is written in digits that denote it. |
| `RuleEngine.MatchDecides` | src/aegis_agent/ai/rule_engine.py:131-151 | The first signature match asking for an action and target decides the TTL and the evidence minimum. |
| `RuleEngine.BlockInFull` | src/aegis_agent/ai/rule_engine.py:162-169 | Where no match asks for it, a block is recommended exactly for the named own source of a chain from score 60 on, with the default TTL, and with one event as evidence for SSH and drone attacks. |
| `RuleEngine.RateLimitInFull` | src/aegis_agent/ai/rule_engine.py:153-186 | A rate limit likewise: from 45 with SSH evidence, from 60 in a drone flood, from 70 with web attacks, for at most 1800 seconds. |
| `RuleEngine.OutboundInFull` | src/aegis_agent/ai/rule_engine.py:188-194 | An outbound block likewise: from 75, of the first enforceable destination of an external connection. |
| `RuleEngine.SuspensionInFull` | src/aegis_agent/ai/rule_engine.py:196-213 | A suspension is recommended exactly from 90, for the first audited process with a serial and id that a file, an address or another event on its id corroborates. |
| `RuleEngine.AloneIsNotSuspended` | src/aegis_agent/ai/rule_engine.py:114-129 | A process without file, address or another event on its id is never suspended, however high the score. |
| `RuleEngine.QuarantineInFull` | src/aegis_agent/ai/rule_engine.py:215-220 | A quarantine exactly from 75 on the path of the first suspicious file. |
| `RuleEngine.PersistenceInFull` | src/aegis_agent/ai/rule_engine.py:222-232 | Disabling exactly from 85 on the first modified path, "unknown" without one. |
| `RuleEngine.AccountInFull` | src/aegis_agent/ai/rule_engine.py:75-78 | An account is restricted exactly from 90: the first seen logging in or using sudo, and only without one the first of the sorted list. |
| `RuleEngine.NothingElse` | src/aegis_agent/ai/rule_engine.py:66-240 | No other action is ever recommended unless a signature match asks for it. |
| `AiReasoning.ClaimEventIds` | src/aegis_agent/ai/rule_engine.py:10-63 | A claim cites exactly the supporting events, failing those the severe ones, failing those the first; never nothing of a non-empty chain, never an unknown id. |
| `AiReasoning.AnalyzeChain` | src/aegis_agent/ai/rule_engine.py:66-259 | One mapping entry for each reason, each citing exactly what its topics allow, so every claim of a non-empty chain is grounded. |
| `AiReasoning.ProviderPriority` | src/aegis_agent/ai/llm_client.py:56-84 | The order is that of the first mentions in the configured list, or of the requested provider, without repeats, with the rule engine as last resort; every known configured provider is kept. |
| `AiReasoning.CleanActions` | src/aegis_agent/ai/llm_client.py:256-274 | Exactly the usable actions are kept, in order. |
| `AiReasoning.KeptIsBare` | src/aegis_agent/ai/llm_client.py:256-274 | What is kept is on the list and without metadata, and every listed action with a clean target is kept. |
| `AiReasoning.KeptIsGrounded` | src/aegis_agent/ai/llm_client.py:247-253 | What is kept of a mapping is grounded in the chain, and something is kept exactly if some claim cites a known event. |
| `AiReasoning.ValidateAnswer` | src/aegis_agent/ai/llm_client.py:239-285 | The clamped score, every claim with its known citations and every usable action, in order; rejected exactly when the score is unreadable or no claim cites a known event. |
| `AiReasoning.Analyze` | src/aegis_agent/ai/llm_client.py:100-141 | Whichever provider answers, the analysis of a non-empty chain with reasons is grounded; with fallback there always is one. |
| `AiReasoning.CitationsInFull` | src/aegis_agent/ai/rule_engine.py:10-63 | A claim cites the events whose type its words speak of, word by word; failing those the severe ones; failing those the first. |
| `AiReasoning.KeptInFull` | src/aegis_agent/ai/llm_client.py:256-274 | Exactly the model actions of the seven kinds are kept whose stripped target is named and free of shell syntax, with at most 500 characters of it and a TTL between a minute and a week. |
| `AiReasoning.ProviderNames` | src/aegis_agent/ai/llm_client.py:56-84 | Which names stand for which provider. |
| `AiReasoning.MappingIssues` | src/aegis_agent/core/ai_quality.py:16-25 | The guard has nothing to say about a mapping exactly when it is grounded in the given ids. |
| `AiReasoning.ActionIssues` | src/aegis_agent/core/ai_quality.py:26-40 | A dangerous recommendation is faulted exactly when it was not denied, a dangerous denial is noted, and a network action without target is noted. |
| `AiReasoning.EvaluateQuality` | src/aegis_agent/core/ai_quality.py:11-51 | Issues, penalty and verdict agree: ok exactly when there are at most ten issues and all are low; the first fifty are returned. |
| `AiReasoning.PenaltyInPoints` | src/aegis_agent/core/ai_quality.py:26-51 | Three points for each denied risky action or missing target, ten for every other issue. |
| `Controller.AnalyseChain` | src/aegis_agent/core/loop_controller.py:263-297 | A chain passing a positive collect_more is analysed by any provider into claims grounded in it, and the independent guard reports no missing mapping, empty claim or unknown id. |
| `Controller.ApplyBonuses` | src/aegis_agent/core/loop_controller.py:263-274 | Bonuses are clamped one after the other and never leave a positive score without a reason. |
| `Controller.ModelPlansAreBounded` | src/aegis_agent/ai/llm_client.py:256-274 | An allowed plan from a model answer meets the full evidence minimum and never suspends a process while audited evidence is required. |
| `PersistenceLines.SplitThenJoin` | src/aegis_agent/executors/persistence_guard.py:137-171 | Splitting a text into lines loses nothing. |
| `PersistenceLines.JoinThenSplit` | src/aegis_agent/executors/persistence_guard.py:137-171 | Joining lines and splitting again gives the same lines. |
| `PersistenceLines.DisableLines` | src/aegis_agent/executors/persistence_guard.py:137-171 | The editing loop produces the text whose hit lines stand behind their own markers, and counts them. |
| `PersistenceLines.LinesCorrespond` | src/aegis_agent/executors/persistence_guard.py:137-171 | Reading the new file line by line gives the old lines in the old order, the hit ones behind their markers. |
| `PersistenceLines.NothingActiveMatches` | src/aegis_agent/executors/persistence_guard.py:193-197 | No active line of the new file matches the evidence any more. |
| `PersistenceLines.DisablingIsIdempotent` | src/aegis_agent/executors/persistence_guard.py:137-171 | A second run with the same evidence finds nothing and changes nothing, under any marker. |
| `PersistenceLines.DisabledDiffers` | src/aegis_agent/executors/persistence_guard.py:137-171 | A file in which a line was disabled differs from the file as it was stored. |
| `PersistenceLines.MarkerRemovalRecoversText` | src/aegis_agent/executors/persistence_guard.py:150-160 | Deleting the markers recovers the text as it was read if and only if no line started with its own marker before. |
| `PersistenceLines.MarkerRemovalRecovers` | src/aegis_agent/executors/persistence_guard.py:137-160 | It recovers the file as it was stored if and only if that held no carriage return and no line of it started with its own marker. |
| `PersistenceLines.MarkerIsMarker` | src/aegis_agent/executors/persistence_guard.py:150-160 | The marker written by the code is a comment without line breaks, as the other lemmas ask. |
| `FileEffects.RunFrame` | src/aegis_agent/executors/file_guard.py:18-42 | A file operation touches nothing outside its own target and generated names. |
| `FileEffects.RunLocal` | src/aegis_agent/executors/persistence_guard.py:57-171 | What it does depends on nothing outside them either. |
| `FileEffects.RoundTripOne` | src/aegis_agent/executors/rollback.py:65-103 | Doing and undoing one operation restores its paths, backups and metadata aside, if and only if it neither failed after changing its target, nor left a file where a failing move was to put it, nor met a rollback that came to nothing. |
| `FileEffects.RunAllSplits` | src/aegis_agent/core/loop_controller.py:288-296 | In a batch with disjoint paths every operation behaves as it would alone. |
| `FileEffects.UndoAllSplits` | src/aegis_agent/core/loop_controller.py:382-396 | Payloads with disjoint paths undo independently of one another, whatever each rollback meets. |
| `FileEffects.BatchUndo` | src/aegis_agent/core/loop_controller.py:382-396 | Rolling back every success in the forward order restores every file, backups and metadata aside, if and only if no quarantine failed after its move, no rewriting of a file failed leaving other text, no failing move left a file at its new name, and no rollback of a success was a dry run or failed without leaving everything as it was. |
| `FileEffects.LostStaysLost` | src/aegis_agent/core/loop_controller.py:382-396 | After the rollback some path of such an operation, not one left behind on purpose, is not as it was. |
| `FileEffects.LossyLoses` | src/aegis_agent/executors/persistence_guard.py:82-88 | The two failing operations: a quarantined file is gone from its place, and a file whose rewriting failed keeps the text the failing write left. |
| `FileEffects.AllQuarantined` | src/aegis_agent/executors/file_guard.py:18-42 | In a batch of working quarantines of different files every one succeeds and all targets are gone, whatever names were generated. |
| `FileEffects.SecondStaysGone` | src/aegis_agent/executors/rollback.py:65-79 | Of two quarantines with the same generated name, the later one's file does not come back, in any batch. |
| `FileEffects.QuarantinesUndoExactly` | src/aegis_agent/executors/file_guard.py:29-40 | A batch of working quarantines of any size is undone if and only if no two of them generated the same name. |
| `FileEffects.QuarantineNamesCollide` | src/aegis_agent/executors/file_guard.py:29 | Two quarantines with the same generated name: one file is lost and the other restored with its content. |
| `FileEffects.EditSurvives` | src/aegis_agent/core/loop_controller.py:382-396 | Disabling lines of a file and then quarantining it: the rollback in execution order leaves the edited text. |
| `FileEffects.EditThenQuarantineUndoesExactly` | src/aegis_agent/core/loop_controller.py:382-396 | Such a pair is undone if and only if the edit disabled no line. |
| `FileEffects.RefusedChangesNothing` | src/aegis_agent/executors/persistence_guard.py:57-88 | An operation outside the configured paths, on a directory, on a missing or oversized file, on no named file or in a dry run changes no file. |
| `FileEffects.QuarantineEnds` | src/aegis_agent/executors/file_guard.py:18-42 | Which status a quarantine ends in, and that a failing move keeps the file while failing metadata leave it moved. |
| `FileEffects.PersistenceEnds` | src/aegis_agent/executors/persistence_guard.py:57-171 | Which status disabling persistence ends in, test by test, and what a failure leaves in the file. |
| `FileEffects.WorkingOperations` | src/aegis_agent/executors/persistence_guard.py:82-171 | What a working operation leaves at the target, the new name, the backup and the metadata. |
| `FileEffects.RestoreFileEnds` | src/aegis_agent/executors/rollback.py:65-79 | Which status restoring a quarantined file ends in, and that a success moves the content back. |
| `FileEffects.RestorePersistenceEnds` | src/aegis_agent/executors/rollback.py:82-103 | The same for persistence: the disabled unit first, then the backup. |
| `Executors.SettledInFull` | src/aegis_agent/core/loop_controller.py:382-396 | After a failed health check a success carries how its rollback ended, and is rolled back exactly where that worked; no other action changes. |
| `PersistenceLines.HitInFull` | src/aegis_agent/executors/persistence_guard.py:193-197 | A line is hit exactly if it is neither blank nor a comment, and looks suspicious or holds a token of four characters or more in any case. |
| `PersistenceLines.ReadTextInFull` | src/aegis_agent/executors/persistence_guard.py:137-164 | Reading turns every carriage return, line feed or pair of them into one line feed and keeps all else. |
| `FirewallEffects.Ttl` | src/aegis_agent/executors/network_guard.py:118-123 | Every timeout lies in 60..604800 seconds, missing and zero ones included. |
| `FirewallEffects.SuccessNamesItsElement` | src/aegis_agent/executors/network_guard.py:41-148 | A success puts one enforceable address into the set of its version and direction, changes nothing else, and its payload deletes exactly that element; anything else changes nothing. |
| `FirewallEffects.OnlyAppliedChange` | src/aegis_agent/executors/network_guard.py:41-97 | A batch adds what its successes name and leaves every other element as it was. |
| `FirewallEffects.EnforceAllTraces` | src/aegis_agent/executors/network_guard.py:41-123 | After a batch every element is untouched or stands with an expiry that a plan of the batch for its address put, by its own clamped TTL. |
| `FirewallEffects.DeleteAllRemovesNamed` | src/aegis_agent/executors/rollback.py:31-51 | However each rollback ends, exactly the elements named by the working ones are removed. |
| `FirewallEffects.NetworkBatchUndo` | src/aegis_agent/executors/network_guard.py:267-280 | Rolling back successes in any order, with repeats and any outcomes, leaves the sets without the elements whose deletion worked; the initial elements are back exactly when it worked for the targets absent before and for no others. |
| `FirewallEffects.TtlInSeconds` | src/aegis_agent/executors/network_guard.py:118-123 | The timeout is 3600 for a missing or zero TTL, the TTL itself from 60 to 604800, and the nearer bound outside. |
| `FirewallEffects.EnforceInFull` | src/aegis_agent/executors/network_guard.py:32-148 | An action succeeds exactly with a valid target, for real, with root where required, nft set up and the command working; the element then stands in the inbound, outbound or rate-limit set of its action, with that timeout. |
| `FirewallEffects.LiftsInFull` | src/aegis_agent/executors/rollback.py:31-51 | A working rollback takes away the element of the named set and address, and nothing else changes. |
| `Executors.Machine.NftAdd` | src/aegis_agent/executors/network_guard.py:142-148 | One add command: the named element with its timeout, or nothing on failure. |
| `Executors.Machine.NftDelete` | src/aegis_agent/executors/rollback.py:31-51 | One delete command: the named element is gone, absent or not. |
| `Executors.Preflight` | src/aegis_agent/executors/network_guard.py:99-108 | Ready exactly with the required privileges and nft installed. |
| `Executors.NetworkExecute` | src/aegis_agent/executors/network_guard.py:32-97 | The firewall command sequence has exactly the effect and result of the enforcement function. |
| `Executors.FileExecute` | src/aegis_agent/executors/file_guard.py:18-42 | Dry run, move and metadata, each with its failure and what that leaves behind, have exactly the effect and payload of the quarantine function. |
| `Executors.Backup` | src/aegis_agent/executors/persistence_guard.py:104-118 | The backup holds the target's content beside its metadata and nothing else changes; a failing one touches these two files only. |
| `Executors.DisableUnitFile` | src/aegis_agent/executors/persistence_guard.py:124-135 | The unit is renamed to a free name and the payload names it; a failing move keeps the unit, may leave a copy at that name, and reports neither. |
| `Executors.DisableMatchingLines` | src/aegis_agent/executors/persistence_guard.py:137-171 | The file is rewritten only when a line matches; a failing rewrite leaves its text and a payload without backup. |
| `Executors.PersistenceExecute` | src/aegis_agent/executors/persistence_guard.py:57-88 | All guards and both paths of the executor have exactly the effect and payload of the persistence function. |
| `Executors.RestoreQuarantined` | src/aegis_agent/executors/rollback.py:65-79 | Restoring a quarantined file, with its skipped and planned cases, and a failing move that may leave content at the target while the quarantined file stays. |
| `Executors.RestorePersistenceFile` | src/aegis_agent/executors/rollback.py:82-103 | Restoring a persistence file from the disabled name or the backup, with its skipped, planned and failed cases. |
| `Executors.RollbackExecute` | src/aegis_agent/executors/rollback.py:16-103 | The dispatch of the undo side: network payloads touch only the sets, file payloads only the files, process payloads neither, and the status is that of the payload's own branch. |
| `Executors.AutoRollback` | src/aegis_agent/core/loop_controller.py:382-396 | After a failed health check files and sets are those of undoing every success in execution order; each success is restated by how its own rollback ended, and the count is that of the rollbacks that worked. |
| `Controller.Dispatch` | src/aegis_agent/executors/local_enforcement.py:23-34 | Each action reaches its one guard and affects only that guard's part of the host. |
| `Controller.ExecuteOne` | src/aegis_agent/core/loop_controller.py:294-296 | One carried-out plan extends the batch of its guard by one, whatever the guard. |
| `Controller.ExecutePlans` | src/aegis_agent/core/loop_controller.py:288-296 | Exactly the plans the gate allows are carried out, in order, and exactly the others are set aside. |
| `Controller.RespondAndRecover` | src/aegis_agent/core/loop_controller.py:285-302 | Gate, enforcement, failed health check and auto-rollback together, dry runs and partial failures included: files as before, backups and metadata aside, exactly if no operation is lost; the sets keep exactly this response's targets whose deletion failed. |
| `Controller.RecoverFiles` | src/aegis_agent/core/loop_controller.py:382-396 | The file half for any mixture of network, file and other actions. |
| `Controller.RecoverElements` | src/aegis_agent/core/loop_controller.py:382-396 | The firewall half for any mixture of actions and outcomes: the sets lose exactly the elements whose deletion worked. |
| `Responses.ResponseIsStep` | src/aegis_agent/core/loop_controller.py:288-302 | The sets left by the controller's response, recovered or not, are those left by the step of the runs on the same plans and hosts. |
| `Responses.Respond` | src/aegis_agent/core/loop_controller.py:285-302 | So the methods, on a real host, make the step that the run theorems speak about. |
| `Responses.RecordIsRow` | src/aegis_agent/core/loop_controller.py:301-302 | A network action is recorded by the controller and stored in the action table with the same status, payload and handed-over mark. |
| `Responses.RolledAlike` | src/aegis_agent/executors/rollback.py:16-51 | A manual rollback of a stored network action ends as the rollback executor does, a missing payload being skipped. |
| `Audit.AuditTable.SaveAction` | src/aegis_agent/core/audit.py:71-86 | Insert or replace by id; ids stay unique and the new row is the newest. |
| `Audit.AuditTable.UpdateActionPayload` | src/aegis_agent/core/audit.py:103-114 | Rewrites the row of that id and no other. |
| `Audit.AuditTable.ListExpiredActions` | src/aegis_agent/core/audit.py:116-130 | The filtering loop with its break returns the first `limit` eligible rows of the newest 10000, and its one-row answer for a limit below one. |
| `Audit.CleanupExpired` | src/aegis_agent/cli.py:133-145 | Each listed row is handed over once, in order, and written back with its outcome; all other rows are untouched. |
| `Audit.CleanupReducesBacklog` | src/aegis_agent/cli.py:133-145 | One cleanup reduces the backlog by the limit, whatever the rollbacks return. |
| `Audit.RepeatedCleanup` | src/aegis_agent/cli.py:133-145 | k cleanups leave exactly max(0, n - k*limit) of n eligible rows of a table of at most 10000 rows. |
| `Audit.HandedExactly` | src/aegis_agent/core/audit.py:116-130 | A row is handed over if and only if it is eligible, among the newest 10000, and has fewer than `limit` eligible rows before it. |
| `Audit.OldRowsAreForgotten` | src/aegis_agent/core/audit.py:116-117 | A row beyond the newest 10000 is never handed over by any number of cleanups. |
| `Audit.HandedInFull` | src/aegis_agent/core/audit.py:116-130 | With a positive limit a row is handed over exactly if it is a network success nobody rolled back whose time has come, among the newest 10000, with fewer such rows than the limit before it. |
| `Audit.CleanedInFull` | src/aegis_agent/cli.py:133-145 | A row handed over keeps its status unless the rollback worked or was planned. |
| `AgentRuns.ActLeaves` | src/aegis_agent/core/loop_controller.py:288-302 | After a response, however its commands and rollbacks end, every element is an old one, or was put by a plan of it that passed the gate and is named by a success that was not rolled back. |
| `AgentRuns.StepLeaves` | src/aegis_agent/core/loop_controller.py:288-302 | Only responses put or renew elements; clock ticks, cleanups and rollbacks never do. |
| `AgentRuns.ActKeepsInv` | src/aegis_agent/core/loop_controller.py:288-302 | A response, with any outcome for each command and each rollback, keeps the invariant of firewall, action table and handed-over log. |
| `AgentRuns.CleanKeepsInv` | src/aegis_agent/cli.py:133-145 | So does a cleanup, with any outcome for each row. |
| `AgentRuns.RollKeepsInv` | src/aegis_agent/cli.py:116-130 | So does a manual rollback. |
| `AgentRuns.RunKeepsInv` | src/aegis_agent/core/loop_controller.py:221-302 | Every run of responses, clock ticks, cleanups and manual rollbacks keeps it. |
| `AgentRuns.EveryElementWasPut` | src/aegis_agent/core/loop_controller.py:288-296 | Whatever stands in the firewall after a run, with whatever expiry, was put there by a plan of the run that passed the gate, at the clock of its response. |
| `AgentRuns.FirewallSafety` | src/aegis_agent/core/loop_controller.py:288-296 | After any run every element is of its set's version, outside all unsafe classes, not lapsed and on record; a plan of the run put it with 60 to 604800 seconds to go, and that plan's text was padded or neither listed nor of an address in a listed network. |
| `AgentRuns.PlainRunsRespectTheAllowlist` | src/aegis_agent/core/policy_gate.py:45-50 | A run whose plans spell their targets as the lists do puts no address protected by value into any set. |
| `AgentRuns.HandedAtMostOnce` | src/aegis_agent/cli.py:133-145 | Over any run, with mixed outcomes, a cleanup hands each action over at most once and never one given to an auto-rollback, not even a failed one. |
| `AgentRuns.CleanupLiftsExactly` | src/aegis_agent/cli.py:133-145 | A cleanup removes exactly the elements named by some handed-over row whose delete works. |
| `AgentRuns.LaterBlockIsLifted` | src/aegis_agent/cli.py:133-145 | A run from the start in which the cleanup of an expired row lifts a newer, unexpired block of the same address, whose row still counts as live. |
| `AgentRuns.ElementsFollowTheirAction` | src/aegis_agent/executors/network_guard.py:32-40 | Over every run an element of the inbound, outbound or rate-limit set was put by a plan of exactly that action that met every condition of the gate, and expires after that plan's timeout. |
| `AgentRuns.RecordInFull` | src/aegis_agent/core/loop_controller.py:301-302 | A stored success counts as handed over exactly after a failing health check with auto-rollback, and as rolled back exactly where that worked. |
| `AgentRuns.RolledInFull` | src/aegis_agent/cli.py:116-130 | A manual rollback restates the rows of its id, lifts what the row names if it works, and leaves the others. |
| `AttackLoop.AttackLoopTracker.constructor` | src/aegis_agent/core/attack_loop.py:25-29 | An empty table; a zero window means an hour. |
| `AttackLoop.AttackLoopTracker.Gc` | src/aegis_agent/core/attack_loop.py:128-130 | Keeps exactly the sessions seen within the window. |
| `AttackLoop.AttackLoopTracker.Observe` | src/aegis_agent/core/attack_loop.py:31-75 | Collects, renews or opens the session, and reports its attempts, variants, mutation and bonus. |
| `AttackLoop.CurrentRunIsLongest` | src/aegis_agent/core/attack_loop.py:31-75 | The current run is a suffix with gaps within the window, and no longer suffix is. |
| `AttackLoop.StepOther` | src/aegis_agent/core/attack_loop.py:128-130 | Observing another key, garbage collection included, leaves a key in agreement with its history. |
| `AttackLoop.StepOwn` | src/aegis_agent/core/attack_loop.py:31-75 | Observing the key itself renews its session exactly when the gap is within the window. |
| `AttackLoop.SessionsRefineHistory` | src/aegis_agent/core/attack_loop.py:31-75 | Under a non-decreasing clock a key's attempts are the length of its current run whatever other keys do, its variants are those of that run, at most one per attempt, and mutation means two of them. |
| `AttackLoop.BonusBounds` | src/aegis_agent/core/attack_loop.py:60-68 | The bonus lies in 0..15, is zero exactly for a first attempt and never falls with more attempts. |
| `AttackLoop.BonusInPoints` | src/aegis_agent/core/attack_loop.py:57-73 | Nothing for a first attempt, two points for each of up to five, five more for a mutation. |
| `AttackLoop.TableHoldsSurvivors` | src/aegis_agent/core/attack_loop.py:31-75 | Under any clock the table holds exactly the observations that no later one of any key has overtaken by more than the window. |
| `AttackLoop.ClockJumpsSplitExactly` | src/aegis_agent/core/attack_loop.py:128-130 | Under any clock a session just observed counts at most the current run, and counts all of it if and only if no other key was observed, between two of its members, more than the window after the earlier one. |
| `AttackLoop.ClockJumpSplitsSession` | src/aegis_agent/core/attack_loop.py:128-130 | A concrete case: one reading ahead of time drops a session its own next attempt would have continued. |
| `PolicyPromotion.PolicyPromotionEngine.ObserveIncident` | src/aegis_agent/core/policy_promotion.py:123-200 | The loop over an incident's actions has the effect of its qualifying actions in order. |
| `PolicyPromotion.PolicyPromotionEngine.RecordOne` | src/aegis_agent/core/policy_promotion.py:139-184 | One qualifying action counts, restages and requests approval for its own key only. |
| `PolicyPromotion.PolicyPromotionEngine.AddTarget` | src/aegis_agent/core/policy_promotion.py:155-158 | A new non-empty target is appended and the list cut to twenty. |
| `PolicyPromotion.PolicyPromotionEngine.Restage` | src/aegis_agent/core/policy_promotion.py:161-168 | The last stage whose threshold the counts reach. |
| `PolicyPromotion.PolicyPromotionEngine.Summary` | src/aegis_agent/core/policy_promotion.py:202-227 | The counters are the numbers of records per stage, with an indicator and waiting for approval, and each listed TTL is the largest recommended for its action. |
| `PolicyPromotion.StoreRefinesHistory` | src/aegis_agent/core/policy_promotion.py:123-200 | Over every run observations and successes are the counts of qualifying actions, successes never exceed observations, stage and TTL are functions of them, the first and last time are those of the first and last such action, and approval and the indicator, built for the last target, exist exactly once promoted. |
| `PolicyPromotion.StagesOnlyClimb` | src/aegis_agent/core/policy_promotion.py:67-83 | Neither stage rank nor recommended TTL falls when the counts rise. |
| `PolicyPromotion.StagesClimbAlongRuns` | src/aegis_agent/core/policy_promotion.py:123-200 | Along any continuation of a run a key is kept, its stage never falls and its TTL never shrinks. |
| `PolicyPromotion.TargetsDistinct` | src/aegis_agent/core/policy_promotion.py:123-200 | Stored targets are distinct, non-empty and at most twenty. |
| `PolicyPromotion.SummaryAddsUp` | src/aegis_agent/core/policy_promotion.py:202-227 | The stage counts add up to the number of candidates, and those waiting are exactly the promoted. |
| `PolicyPromotion.IncidentsRefineHistory` | src/aegis_agent/core/policy_promotion.py:123-200 | The same agreement incident by incident. |
| `PolicyPromotion.StagesInNumbers` | src/aegis_agent/core/policy_promotion.py:161-168 | Over every history: promoted, with an approval pending, exactly with enough successes; below that verified exactly with one success and enough observations; below that in shadow exactly with enough observations. |
| `PolicyPromotion.NothingWithoutSuccess` | src/aegis_agent/core/policy_promotion.py:161-168 | Where promotion asks for a success at all, a key without one never has a pending approval or an indicator. |
| `PolicyPromotion.StagesNeverFall` | src/aegis_agent/core/policy_promotion.py:123-200 | Along a run a promoted key stays promoted, a verified one never returns to shadow, and one in shadow is no mere candidate again. |
| `PolicyPromotion.TtlsInSeconds` | src/aegis_agent/core/policy_promotion.py:67-83 | The recommended TTL of each action in seconds, doubled and doubled again by the counts. |
| `PolicyPromotion.StoredRecommendation` | src/aegis_agent/core/policy_promotion.py:106-184 | The stored TTL is that of the counts, and a promoted network key holds an indicator of its last target, if safe, with the confidence of the counts. |
| `PolicyPromotion.TargetsInFull` | src/aegis_agent/core/policy_promotion.py:155-158 | The stored targets are those of the key's entries, distinct and at most twenty, and with fewer than twenty all of them. |
| `PolicyPromotion.EntriesInFull` | src/aegis_agent/core/policy_promotion.py:123-150 | Exactly the successful and planned actions of the five tracked kinds count, as successes only if the service stayed healthy. |
| `SecurityGrowth.SecurityGrowthMemory.ObserveChain` | src/aegis_agent/core/security_growth.py:53-66 | One fixed bonus for any number of known addresses, however often each was learned. |
| `SecurityGrowth.SecurityGrowthMemory.LearnFromIncident` | src/aegis_agent/core/security_growth.py:68-98 | An incident adds to both memories what it teaches, and nothing below the minimum score; exactly the addresses it teaches are reported. |
| `SecurityGrowth.SourcesEqualHistory` | src/aegis_agent/core/security_growth.py:68-98 | A source address is known exactly if a past incident teaches it, and what is stored is what those incidents taught: first and last time, last score and attack, and their number. |
| `SecurityGrowth.DestinationsEqualHistory` | src/aegis_agent/core/security_growth.py:68-98 | The same for destinations. |
| `SecurityGrowth.KnownInFull` | src/aegis_agent/core/security_growth.py:68-98 | An address is known exactly if an incident at the learning minimum contained it and acted on it or scored 75 or more. |
| `TailState.TailReader.ReadLines` | src/aegis_agent/collectors/tail_state.py:37-64 | The returned lines and the new offset for missing, unfollowed, first-seen, truncated and grown files. |
| `TailState.NothingLostOrRepeated` | src/aegis_agent/collectors/tail_state.py:48-64 | Over any interleaving of appends and bounded reads the chunks concatenate to the file from start to offset, and the offset never exceeds the size. |
| `TailState.ReadsCatchUp` | src/aegis_agent/collectors/tail_state.py:54-64 | k reads advance by k chunks, up to the end of the file. |
| `TailState.CatchesUpExactly` | src/aegis_agent/collectors/tail_state.py:54-64 | ceil(backlog / max_bytes) reads are enough and no fewer. |
| `TailState.SplitInTwo` | src/aegis_agent/collectors/tail_state.py:60-64 | A cut after a line break keeps the lines; any other cut tears one line in two. |
| `TailState.LinesAgreeIffNoneTorn` | src/aegis_agent/collectors/tail_state.py:60-64 | All returned lines together are the lines of what was read if and only if no read stopped inside a line that a later one continued. |
| `TailState.ReplacedFile` | src/aegis_agent/collectors/tail_state.py:54-64 | Whatever is appended and read afterwards, the new chunks of a replaced file concatenate to it from its start exactly if it was shorter than the offset (or the offset was zero), and otherwise from the old offset on, so its beginning is never returned. |
| `TailState.ReadsInFull` | src/aegis_agent/collectors/tail_state.py:48-62 | Where a read begins and ends, for stored, outdated and missing offsets. |
| `Redaction.RedactIdempotent` | src/aegis_agent/security/secrets.py:48-69 | Redacting twice is redacting once. |
| `Redaction.RedactHidesExactly` | src/aegis_agent/security/secrets.py:53-69 | Two trees redact alike exactly when they differ only in non-empty values under sensitive keys. |
| `Redaction.WhatRedactionMisses` | src/aegis_agent/security/secrets.py:48-69 | A raw secret survives exactly when it sits inside the value of a mask-only key, which is returned as it is. |
| `Redaction.StoreThenLoad` | src/aegis_central/server.py:48-55 | For payloads whose redacted form survives encoding and decoding, storing and loading yields the once-redacted payload and so distinguishes no more than redaction does. |
| `Redaction.FieldInFull` | src/aegis_agent/security/secrets.py:48-69 | A key that names a secret, in any case of its letters, has its value masked unless empty; a reference to a secret stays; any other value is redacted inside. |
| `Redaction.SomeKeys` | src/aegis_agent/security/secrets.py:48-69 | "access_token", "openai_api_key", "db_password" and "bearer" name secrets; "api_key_file" is a reference. |
| `Detectors.Evaluate` | src/aegis_agent/core/signature_engine.py:222-293 | The nested loops with their `seen` set produce the reference list of matches. |
| `Detectors.IgnoresSignatureMatches` | src/aegis_agent/core/signature_engine.py:222-293 | Signature matches anywhere in the input change nothing, so the engine does not feed on its own output. |
| `Detectors.OneHitPerSignatureAndEvent` | src/aegis_agent/core/signature_engine.py:222-293 | One match for each signature and event, present exactly when the signature applies to the event. |
| `Detectors.HitsInFull` | src/aegis_agent/core/signature_engine.py:222-293 | A signature is reported on an event exactly if the event is raw, of a listed type, and matches. |
| `Detectors.Scan` | src/aegis_agent/core/vulnerability_guard.py:65-107 | High-risk events are reported once for each kind, and matching events are grouped by source in order. |
| `Detectors.EvaluateGuard` | src/aegis_agent/core/vulnerability_guard.py:60-141 | The report is the exploits followed by the aggregate findings, in order of first appearance. |
| `Detectors.AggregatesExactly` | src/aegis_agent/core/vulnerability_guard.py:109-141 | A source is reported exactly once if it has enough matching events with enough distinct categories, and otherwise not at all. |
| `Detectors.ExploitsExactly` | src/aegis_agent/core/vulnerability_guard.py:77-107 | Reports are unique for kind and event, and exist exactly for events with a high-risk combination. |
| `Detectors.ExploitsInFull` | src/aegis_agent/core/vulnerability_guard.py:60-106 | Which events are reported as exploits, in terms of their risk and categories. |
| `Detectors.ProbesInFull` | src/aegis_agent/core/vulnerability_guard.py:108-141 | A source probes exactly with enough matching events and enough distinct categories among them. |
| `Detectors.GuardIgnoresSignatureMatches` | src/aegis_agent/core/vulnerability_guard.py:60-141 | Signature matches in the input change nothing in the whole report. |

## Left out
- HTTP, SQLite, subprocess, systemd, dashboard, reports, heartbeat and central synchronisation: input and output only.
- Log and packet parsers, file integrity and self-protection scans: the pipeline starts from an arbitrary list of events.
- The iptables and memory backends: the iptables rollback comment embeds a second clock read, so its inverse holds only under a frozen clock.
- Executors.RollbackExecute: a resumed process is a status; signals, account restriction and host isolation change no modelled state.
- Kernel behaviour on adding an element that is already present: `refreshes` covers both renewing and keeping its timeout.
- Executors.FileExecute: directories as quarantine targets beyond their refusal, modes and symbolic links are not modelled.
- Regular expressions, hashing, address parsing and generated names: parameters, with the one assumption, where a lemma states it, that the address parser accepts no white space around a text without a zone.
- Addresses.AllowlistSeesUnpaddedOnly: targets with a zone behind a percent sign are not covered.
- Address classes of IPv4-mapped and scoped IPv6 texts: an address is its version and value.
- Case folding is that of ASCII letters.
- ChainBuilder.BuildEvidenceChains: event ids must be distinct, as the generator makes them; the order of events with equal timestamps is not stated.
- EvidenceBuilder.GrowChain: the relation reason written into an event's metadata is returned as a map instead, so a reason left by an earlier chain on a shared event is not visible to a later one.
- Scoring.ScoreChain: the reasons are stated as a set, without their order and wording; the hypothesis text is left out.
- An `embedded_ip` that is a list of addresses: it is one text.
- ChainBuilder.GatherEntities: processes, process ids and URIs, which nobody downstream of the modelled rules decides on.
- ChainBuilder.MakeChain: the same entities, the host name and the hypothesis text.
- RuleEngine.Recommend: the order of recommendations is not stated.
- RuleEngine.PersistenceRecs: the linked metadata of persistence recommendations and the gathering of evidence tokens from it (`_tokens`); the tokens are a parameter of line disabling.
- AiReasoning.ValidateAnswer: hypothesis, likelihood, limitations and the reasons of actions are left out.
- EvidenceMonotonicity.MoreEvidenceKeepsResponse: covers the rule engine with equal bonuses on both sides; model answers are covered by `Controller.ModelPlansAreBounded` alone.
- AgentRuns.FirewallSafety: runs contain network actions only; file actions are covered per response by `Controller.RespondAndRecover`, and `Responses.ResponseIsStep` joins the two.
- AgentRuns.HandedAtMostOnce: action ids are new in each response, as the generator makes them.
- Audit.RepeatedCleanup: rows are ordered newest first, with ties in creation time broken in one fixed way.
- FileEffects.BatchUndo: targets and generated names of a batch are pairwise disjoint; equal generated names and an edit followed by a quarantine of one path have their own exact conditions in `FileEffects.QuarantinesUndoExactly` and `FileEffects.EditThenQuarantineUndoesExactly`.
- AttackLoop.AttackLoopTracker.Observe: the key and the features of a chain are parameters.
- PolicyPromotion.PolicyPromotionEngine.ObserveIncident: the returned list of promotions.
- PolicyPromotion.PolicyPromotionEngine.RecordOne: the texts of shadow policies and approval payloads.
- SecurityGrowth.SourcesEqualHistory: entity lists hold no repeats, as chains build them.
- TailState.TailReader.ReadLines: followed files hold ASCII text without carriage returns, so that characters, bytes and text positions agree.
- Redaction.RedactHidesExactly: an object is an ordered list of fields, and texts of keys are compared in lower case.
- Detectors.EvaluateGuard: generated event ids and descriptive metadata of the findings are left out.
