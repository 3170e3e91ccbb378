# dedup-engine, modelled and proved

This project models the `dedup-engine` crate: the engine that decides which e-mail messages found in several PST
archives are the same message, which copy survives, and what is written for it. Everything is a pure model: SHA-256
digests, fingerprints and Message-IDs are opaque values with equality, strings are the sequences of their UTF-8 bytes
(or of their characters, where the code counts characters), and the materializer, the attachment store and the regular
expressions are what they answer.

How it is laid out:

- **Grouping, twice.** `BatchGrouping` is the pass over all items, `StreamIndex` the class that answers one item at a
  time; `EngineEquivalence` proves that they agree, under exactly which settings a rebuilt run always agrees, and by
  which inputs it fails otherwise. `GroupingRules` and `IndexRules` tell the rules from the items alone, without the
  tables the engines keep, and prove that each engine follows them and that they leave no choice; `GroupingCounters` and
  `CrossMidClusters` do so for the counters. `MidAuthority`, `GuardEffects` and `SplitOnly` say what the guards mean for
  the groups.
- **Backfill.** `UnionFind`, `Components`, `BackfillLinks`, `Backfill` and `GroupCandidates` prove the union-find
  post-pass against connected components defined by paths, whatever order the hash map is walked in; `BackfillRules`
  tells its outcome from the items, and `BackfillAuthority` says exactly when it keeps one Message-ID per group.
- **Ranking and finalization.** `Ranking` and `Resolve` (who wins a group) with `KeepRules` (what the winner is better
  at, by item fields), `PeerWalk` and `Finalize` (walking the peers, with promotion and fallback), `RoleAccounting` and
  `KeepOutcome` (every item accounted for, and every row explained by what was tried), `KeepSet` (the whole pipeline).
- **The mail writer.** `Base64` and `Base64Decoding`, `Crlf`, `NestedEml` (nested messages and their account) with
  `MailTree` (what is written, from the attachment tree and the store), `Filename` and `VolumePack` (path budget,
  numbering, volumes).
- **Small cores.** `CivilDate`, `SortedTexts`, `Preimage` with `IdentityLevels` (what each level decides), `LinkScan`
  with `LinkSpots` (hits and marks, from the matches in the bodies).
- `Common`, `ByteOrder`, `Grouping`, `ScanItems` and `GroupLists` hold what the others share.

Imperative parts of the source are methods over arrays, class fields and loops. Each is proved equal to a function or to
a declarative description, and the laws are proved about that.

Where the code does less than its comments say, the model follows the code:

- The two grouping engines are documented as one semantics (`crates/dedup-engine/src/grouping.rs:3-4`). The index
  overrules an ineligible flag when readable bodies are not enforced, and verifies bodies against the joining copy when
  a Message-ID was adopted. `EngineEquivalence.RebuildAgreesIff` gives the settings under which that can never show.
- Equal strong hashes are said to imply equal content hashes (`crates/dedup-engine/src/hasher.rs:369`). For the
  preimages that holds if and only if both messages have the same number of `|` inside their fields
  (`Preimage.StrongDecidesV1Iff`); `Preimage.StrongCollides` is a pair for which it does not.
- The default cross-Message-ID guard is called split-only (`crates/dedup-engine/src/grouping.rs:203`). It can also
  join what is apart without it (`SplitOnly.GuardAlsoJoins`). Call an item clashing when it is the first with its
  Message-ID, may bind by hash, and an earlier item of that kind has another Message-ID and the same hash key. The guard
  only splits if and only if every later item with a clashing item's Message-ID may bind by hash and has its hash key
  (`SplitOnly.OnlySplitsIff`); it changes nothing if and only if no item clashes (`SplitOnly.SameGroupsIffNoClash`).
- Backfill tests the Message-IDs the groups had before it, so a group without one can bring two together
  (`BackfillAuthority.BackfillBreaksAuthority`); `BackfillAuthority.BackfillKeepsAuthorityIff` says exactly when not.
- A link beyond a windowed HTML body counts as dropped even when the plain body then yields it
  (`LinkScan.WindowedHtmlCanRecover`). For every scan the `truncated` mark is set if and only if some candidate is no hit
  or something new lies beyond an HTML window (`LinkScan.MarkIs`), so it is exact unless the latter holds and no
  candidate is lost, which takes a plain body (`LinkScan.MarkExactIff`).
- Two messages can have one content hash and different body fingerprints, as a `|` may move between subject and preview
  (`Preimage.SameContentOtherBody`); that is what `EngineEquivalence.AdoptedBodyDisagrees` builds on.

## Model

| member | source | states |
|---|---|---|
| Grouping.HashKeyInjective | crates/dedup-engine/src/index.rs:210-225 | content-hash map keys are equal exactly when partition prefix and digest both are, whatever bytes the path holds |
| Grouping.MidKeyInjective | crates/dedup-engine/src/index.rs:210-219 | Message-ID map keys identify partition and Message-ID when no path holds a NUL |
| Grouping.ScopePrefixInjective | crates/dedup-engine/src/keepset.rs:1123-1126 | equal prefixes mean global scope or the same source |
| BatchGrouping.GroupInOnePass | crates/dedup-engine/src/keepset.rs:1069-1229 | the grouping loop, branch by branch, leaves exactly the state BatchRun defines for the item list |
| BatchGrouping.BatchRunInv | crates/dedup-engine/src/keepset.rs:1086-1229 | for every item list the groups partition all indices, members and group seeds ascend, the seed tag marks exactly the first members, and every map entry and column is grounded in a group's seed |
| GroupingRules.RunFollowsRules | crates/dedup-engine/src/keepset.rs:1086-1229 | for every item list each item is placed by its Message-ID, else by its binding content, else alone, as said from the items and the groups before it; no table is mentioned |
| GroupingRules.RulesAreTheRun | crates/dedup-engine/src/keepset.rs:1086-1229 | the rules leave no choice: groups and tags that follow them are those of the pass |
| GroupingRules.HashTagMeans | crates/dedup-engine/src/keepset.rs:513-519 | an item tagged as a duplicate by content has the partition of the item that opened its group, and its content hash (no identity level or V1), or its strong hash with the content hash standing in where there is none (the other levels) |
| GroupingRules.BareItemsMeet | crates/dedup-engine/src/keepset.rs:1161-1222 | two items without Message-IDs that may bind share a group if and only if partition and binding content are the same |
| GroupingRules.LoneItem | crates/dedup-engine/src/keepset.rs:1109-1222 | an item without a Message-ID that may not bind is alone in its group and a seed |
| GroupingCounters.CountersMean | crates/dedup-engine/src/keepset.rs:1091-1196 | each of eight counters is the number of items that meet its description: ineligible by kind, turned away, first turned away from a content, differing from the group of their Message-ID in body, metadata or recipients |
| CrossMidClusters.LargestClusterMeans | crates/dedup-engine/src/keepset.rs:1187-1195 | the largest-cluster counter is the largest number of different Message-IDs that met under one content |
| BatchGrouping.RunExtends | crates/dedup-engine/src/keepset.rs:1086-1229 | later items never change the group, the tag or the member order decided for earlier ones |
| StreamIndex.DedupIndex.CheckAndInsertItem | crates/dedup-engine/src/index.rs:262-387 | one call moves the whole index state, maps, counters and clusters, and answers as IndexStep says |
| StreamIndex.DedupIndex.JoinByHashOrInsert | crates/dedup-engine/src/index.rs:293-387 | the content-hash half: join and adopt, or block and count, or insert without overwriting an earlier group |
| StreamIndex.DedupIndex.AdoptMid | crates/dedup-engine/src/index.rs:303-324 | a hash join fills in a missing bound Message-ID and registers an unknown one with the joining item's fingerprints |
| StreamIndex.DedupIndex.InsertNew | crates/dedup-engine/src/index.rs:362-387 | a new slot under the Message-ID and, if vacant, under the content hash |
| StreamIndex.ScanAll | crates/dedup-engine/src/index.rs:262-387 | feeding a fresh index a list gives the state and all the answers of the run |
| IndexRules.HashAnswerMeans | crates/dedup-engine/src/index.rs:293-361 | an item answered as a duplicate by content has the partition and the content hash, or strong hash, of the unique item it is said to repeat |
| IndexRules.BareItemsMeet | crates/dedup-engine/src/index.rs:293-387 | two items without Message-IDs that may bind have one original if and only if partition and binding content are the same |
| IndexRules.LoneItem | crates/dedup-engine/src/index.rs:293-387 | an item without a Message-ID that may not bind is always unique |
| EngineEquivalence.EnginesAgree | crates/dedup-engine/src/index.rs:262-387 | when both engines agree on each item's eligibility (and equal bind hashes mean equal body fingerprints under body verification), the index answers Unique exactly for first members, names that member and the same tag otherwise, and the cross-Message-ID counters and clusters agree |
| EngineEquivalence.RebuiltAgreesOnIff | crates/dedup-engine/src/index.rs:294 | an item flagged as batch grouping judges it is treated alike except when CRC-tainted, with bodies not enforced and the taint not allowed back |
| EngineEquivalence.RebuildAgreesIff | crates/dedup-engine/src/grouping.rs:3-4 | all rebuilt runs agree if and only if the context is RebuildSafe |
| EngineEquivalence.TaintedCopiesDisagree | crates/dedup-engine/src/keepset.rs:1109-1118 | two tainted copies on which the engines disagree |
| EngineEquivalence.AdoptedBodyDisagrees | crates/dedup-engine/src/index.rs:315-323 | three items on which an adopted Message-ID makes the engines disagree under body verification |
| MidAuthority.MidAuthority | crates/dedup-engine/src/keepset.rs:1130-1229 | with cross-Message-ID blocking on and verification off, two items with Message-IDs share a group if and only if they share partition and Message-ID |
| MidAuthority.SameGroupIffSameKey | crates/dedup-engine/src/grouping.rs:526-541 | the same for map keys, without any condition on paths |
| MidAuthority.GroupsStayInSource | crates/dedup-engine/src/keepset.rs:1123-1229 | under per-source scope with NUL-free paths no group spans two sources |
| GuardEffects.GuardShowsIff | crates/dedup-engine/src/keepset.rs:1164-1196 | for every item list and context, the groups are those without the cross-Message-ID guard if and only if the blocked counter is zero |
| GuardEffects.StepAlike | crates/dedup-engine/src/keepset.rs:1164-1196 | the counter moves exactly when an item is turned away, and otherwise the step is the unguarded one |
| SplitOnly.TurnsAwayIffClash | crates/dedup-engine/src/keepset.rs:1164-1196 | the guard turns an item away if and only if it clashes, which is read off the items alone |
| SplitOnly.BlockedCountsClashes | crates/dedup-engine/src/keepset.rs:1184-1185 | after every run the blocked counter is the number of clashing items |
| SplitOnly.OnlySplitsIff | crates/dedup-engine/src/grouping.rs:203 | the groups with the guard refine those without it if and only if every later item with a clashing item's Message-ID key may bind by hash and has that item's hash key |
| SplitOnly.SameGroupsIffNoClash | crates/dedup-engine/src/grouping.rs:203 | the guard leaves the groups as they are if and only if no item clashes |
| SplitOnly.GuardAlsoJoins | crates/dedup-engine/src/keepset.rs:1170-1177 | a family of three items of which the guard joins two that are apart without it |
| UnionFind.Find | crates/dedup-engine/src/keepset.rs:1389-1395 | path halving terminates, returns the representative and changes nobody's representative |
| UnionFind.Unite | crates/dedup-engine/src/keepset.rs:1396-1410 | union by rank merges exactly the two classes, keeps the higher-ranked root, sets its rank, and says whether anything was merged |
| UnionFind.MergedRoots | crates/dedup-engine/src/keepset.rs:1396-1410 | each union removes exactly one representative |
| Components.CountComponents | crates/dedup-engine/src/keepset.rs:1456-1457 | classes plus absorbed numbers are all numbers, for any labelling that is exactly connectedness |
| BackfillLinks.UnitePair | crates/dedup-engine/src/keepset.rs:1441-1453 | one pair is united when Message-IDs are compatible and one is present, and counted when that joins two classes |
| BackfillLinks.UniteAllPairs | crates/dedup-engine/src/keepset.rs:1439-1454 | after the double loop every mergeable pair of a bucket is in one class |
| BackfillLinks.UniteLinked | crates/dedup-engine/src/keepset.rs:1412-1457 | for any order of the hash map the union-find classes are exactly the connected components of the link graph, and the unions counted are the groups absorbed |
| Backfill.Regroup | crates/dedup-engine/src/keepset.rs:1463-1499 | the rebuilt lists are a grouping again, with two items together exactly when their old groups have one representative |
| Backfill.SortNatsSorts | crates/dedup-engine/src/keepset.rs:1497-1500 | members come out in scan order |
| Backfill.Reclassify | crates/dedup-engine/src/keepset.rs:1502-1536 | first members are tagged as seeds, absorbed seeds by what they share with the first member, all other tags stay |
| GroupCandidates.ApplyBackfill | crates/dedup-engine/src/keepset.rs:1364-1540 | candidates are always counted, groups merged only when asked; groups before minus groups after is the candidate count |
| GroupCandidates.Group | crates/dedup-engine/src/keepset.rs:1069-1262 | grouping as a whole yields an outcome as IsOutcome describes it: items together exactly when connected, tags, counters and list order |
| GroupCandidates.OutcomeIsUnique | crates/dedup-engine/src/keepset.rs:1426 | that description fixes groups, tags and counters completely, so hash map order cannot show |
| BackfillRules.LinksMean | crates/dedup-engine/src/keepset.rs:1412-1454 | two groups are linked exactly when they share partition and the content hash of their first members, whatever the identity level, and their Message-IDs are compatible with at least one present |
| BackfillRules.OutcomeGroupsMean | crates/dedup-engine/src/keepset.rs:1412-1500 | with the flag on, items end together exactly when a chain of such groups leads from one to the other; with it off, when they were together before |
| BackfillRules.OutcomeTagsMean | crates/dedup-engine/src/keepset.rs:1502-1536 | the final tag of every item: first members are seeds, absorbed seeds are tagged by Message-ID when they share the first member's, else by content, the rest keep theirs |
| GroupCandidates.SeedTagsMarkFirstMembers | crates/dedup-engine/src/keepset.rs:1504-1536 | before and after backfill the seed tag marks exactly the first member of each group |
| GroupCandidates.OutcomeStaysInSource | crates/dedup-engine/src/keepset.rs:1412-1425 | backfill never merges across sources under per-source scope |
| BackfillAuthority.BackfillKeepsAuthorityIff | crates/dedup-engine/src/keepset.rs:1440-1453 | with the guard on, backfill keeps one Message-ID key per group if and only if no group without a Message-ID is linked to two groups that have one |
| BackfillAuthority.RunKeepsMembers | crates/dedup-engine/src/keepset.rs:1152-1160 | a group's bound Message-ID is always one of its members' |
| BackfillAuthority.BackfillBreaksAuthority | crates/dedup-engine/src/keepset.rs:1440-1453 | a family of three items whose different Message-IDs backfill brings together |
| Ranking.FidelityZeroIffClean | crates/dedup-engine/src/keepset.rs:1577-1609 | fidelity rank zero means neither degraded nor orphaned, in both modes |
| Ranking.CompareEqualIff | crates/dedup-engine/src/keepset.rs:285-305 | the order calls two keys equal only when every component is |
| Ranking.CompareFlips | crates/dedup-engine/src/keepset.rs:285-305 | comparing the other way round gives the opposite |
| Ranking.CompareTransitive | crates/dedup-engine/src/keepset.rs:285-305 | for a fixed ladder flag the order is transitive, hence total |
| Ranking.DecidedAtFirstDifference | crates/dedup-engine/src/keepset.rs:1943-1992 | the order is decided at the first ladder component that differs, and `decided_by` names that rung under either folder order |
| Resolve.RankSortRanks | crates/dedup-engine/src/keepset.rs:2458-2459 | the ranked list is sorted by rank |
| Resolve.RankSortDistinct | crates/dedup-engine/src/keepset.rs:2458-2459 | ranking lists no member twice |
| Resolve.WinnerIsUniqueMinimum | crates/dedup-engine/src/keepset.rs:2452-2461 | with distinct (path, nid) pairs the provisional winner is strictly before every other member |
| Resolve.WinnerIgnoresOrder | crates/dedup-engine/src/keepset.rs:2452-2461 | member order plays no part in who wins |
| Resolve.CleanMemberMeansCleanWinner | crates/dedup-engine/src/keepset.rs:1899-1937 | a group with a clean member never gets a degraded provisional winner |
| Resolve.ResolveGroups | crates/dedup-engine/src/keepset.rs:2438-2478 | every item's provisional row: the winner of its group is Unique, every other member a duplicate of it, with Tier 1 for a Message-ID tag, Tier 2 for a content tag and none for a seed |
| KeepRules.WinnerObeysRules | crates/dedup-engine/src/keepset.rs:1899-1937 | by item fields: no member is more faithful than the winner; among equally faithful ones, with the flag, the winner has Bcc if any has; then sources and folders in the order the flag asks for; then the policy |
| KeepRules.PolicyIsKept | crates/dedup-engine/src/keepset.rs:1899-1937 | of copies alike otherwise the winner has the largest size, the smallest scan order or the preferred path if any has it; under the date policy a dated copy beats an undated one and the earliest date wins, submit time before delivery time |
| KeepRules.GradeIs | crates/dedup-engine/src/keepset.rs:1545-1617 | the graded fidelity of an item is 0 only when nothing was lost, 4 or more exactly for lost structure, 3 or more exactly for that or lost message content, 2 or more exactly for these or lost attachment content |
| KeepRules.RulesDecide | crates/dedup-engine/src/keepset.rs:285-305 | two items that both obey the rules against each other are one path and node: the rules leave no choice |
| KeepRules.RungMeans | crates/dedup-engine/src/keepset.rs:1943-1992 | the rung named is the first of these questions on which two items differ |
| Resolve.LoserDecidedBy | crates/dedup-engine/src/keepset.rs:2230-2282 | for every loser `decided_by` names the first component where its key differs from the winner's, and the winner is smaller there |
| PeerWalk.WalkPeers | crates/dedup-engine/src/keepset.rs:2678-2783 | the attempt loop, with its stash and flags, computes the declarative pick: winner, reason, failures, skips and materializer calls |
| PeerWalk.WinnerIsFirstBest | crates/dedup-engine/src/keepset.rs:2688-2758 | with promotion on the first complete peer wins, else the first materializable one; with promotion off the latter |
| PeerWalk.DroppedIffAllFail | crates/dedup-engine/src/keepset.rs:2828-2843 | a group is dropped exactly when every peer fails hard |
| PeerWalk.WinnerMaterialized | crates/dedup-engine/src/keepset.rs:2688-2758 | the winner is a peer that was materialized and did not fail |
| PeerWalk.CallsArePrefix | crates/dedup-engine/src/keepset.rs:2688-2746 | peers are materialized in rank order, each at most once |
| PeerWalk.ReasonExplained | crates/dedup-engine/src/keepset.rs:2767-2783 | which promote reason is given, if and only if which of the cases applied |
| PeerWalk.CallsStopAtFirstAccepted | crates/dedup-engine/src/keepset.rs:2688-2746 | the walk stops at the first peer it may take as it is, and tries everybody when there is none |
| PeerWalk.ListsExplained | crates/dedup-engine/src/keepset.rs:2688-2783 | the failed peers are the tried ones that failed hard, the skipped ones the tried ones that were incomplete, other than the winner |
| Finalize.ResolvedKeepSet.SettleGroup | crates/dedup-engine/src/keepset.rs:2801-2843 | exactly one group's rows are rewritten, each to the row the walk implies |
| Finalize.ResolvedKeepSet.FinalizeGroup | crates/dedup-engine/src/keepset.rs:2667-2844 | one group is walked, its skipped peers recorded, and its rows settled unless the caller refuses the winner |
| Finalize.ResolvedKeepSet.Finalize | crates/dedup-engine/src/keepset.rs:2653-2847 | every group is settled by its own walk, in order; a refused winner ends the run with earlier groups settled and later ones untouched |
| RoleAccounting.DupPointsToUnique | crates/dedup-engine/src/keepset.rs:2802-2827 | every duplicate points to the one unique item of its own group |
| RoleAccounting.FinalizationSettles | crates/dedup-engine/src/keepset.rs:2667-2844 | a complete run leaves every row settled by its group's winner |
| RoleAccounting.Summarize | crates/dedup-engine/src/keepset.rs:2101-2197 | the counting loop counts each kind of row, and the three roles add up to the items |
| RoleAccounting.BooksBalance | crates/dedup-engine/src/keepset.rs:2101-2197 | uniques equal delivered winners equal groups minus dropped groups; duplicates without a tier are exactly the seeds that lost |
| RoleAccounting.NoPeerTwice | crates/dedup-engine/src/keepset.rs:2667-2758 | over a whole run no item is materialized twice |
| KeepOutcome.RunIsExplained | crates/dedup-engine/src/keepset.rs:2667-2844 | after any number of groups: a row of a delivered group failed if and only if it was called and failed hard, is Unique if and only if it is the winner, and a duplicate otherwise, untried and skipped peers included; in a dropped group all rows failed; the promoted and reason columns stand on the winner's row only; rows of later groups are untouched |
| KeepOutcome.CompleteRun | crates/dedup-engine/src/keepset.rs:2667-2847 | a complete run: every group is explained so, nobody was tried twice and the books balance |
| KeepOutcome.StoppedRun | crates/dedup-engine/src/keepset.rs:2798-2843 | a run that stops: at the first group whose winner is refused, with the groups before it explained |
| KeepOutcome.CountsMean | crates/dedup-engine/src/keepset.rs:2101-2197 | the counters are the numbers of rows by role and tag |
| KeepOutcome.SkipsMean | crates/dedup-engine/src/keepset.rs:2785-2796 | a skipped peer is recorded exactly when it was called, was incomplete and its group went to another |
| KeepSet.Build | crates/dedup-engine/src/keepset.rs:2555-2592 | grouping, ranking, finalization and counting together, for every input: each group and row is explained by what the calls gave, no item was tried twice, every counter is the number of rows with its role and tag; it stops if and only if a winner is refused, at the first such group |
| Base64.Base64Encode | crates/dedup-engine/src/eml_pack.rs:1308-1336 | the encoding loop computes the encoding of the buffer |
| Base64.EncodeChunked | crates/dedup-engine/src/eml_pack.rs:1292-1306 | the whole-buffer form is the encoding wrapped in lines |
| Base64.StreamBase64 | crates/dedup-engine/src/eml_pack.rs:1239-1271 | however the reader splits the bytes, the stream form writes what the whole-buffer form writes for all of them; it fails exactly when a read does |
| Base64.EncodeRead | crates/dedup-engine/src/eml_pack.rs:1249-1263 | one read encodes up to the last full triple and carries the rest in place |
| Base64.EncodeConcat | crates/dedup-engine/src/eml_pack.rs:1256-1260 | encodings of parts can be joined where the first is whole triples |
| Base64Decoding.DecodeEncode | crates/dedup-engine/src/eml_pack.rs:1308-1336 | a decoder for section 4 of RFC 4648 recovers every byte string |
| Base64Decoding.WrappedRoundTrip | crates/dedup-engine/src/eml_pack.rs:1239-1306 | so it does from the wrapped form once the line breaks are dropped |
| Base64Decoding.LinesAreShort | crates/dedup-engine/src/eml_pack.rs:1273-1289 | no line exceeds the 76 characters of section 6.8 of RFC 2045 |
| Base64Decoding.AlphabetIs | crates/dedup-engine/src/eml_pack.rs:1308-1336 | the letters are those of section 4 of RFC 4648, in its order |
| Base64Decoding.LetterAt | crates/dedup-engine/src/eml_pack.rs:1273-1289 | every line but the last has 76 letters, and every letter is in its place |
| Base64Decoding.BreaksArePairs | crates/dedup-engine/src/eml_pack.rs:1273-1306 | breaks occur only as CR LF and end what is written |
| NestedEml.PrepareAttachments | crates/dedup-engine/src/eml_pack.rs:873-899 | every attachment that opens becomes a part, every other one is counted and recorded once, in order |
| NestedEml.WritePart | crates/dedup-engine/src/eml_pack.rs:1115-1193 | one part is written and its counters, events and flag are added, nested ones with their incomplete list and cleared children |
| NestedEml.WriteMessage | crates/dedup-engine/src/eml_pack.rs:611-665 | the entity and its exact account: counters equal what the entity holds, one event per failure in ledger order; nothing when a stream breaks off |
| NestedEml.Conserves | crates/dedup-engine/src/eml_pack.rs:873-1193 | files plus embedded messages plus failures equal one per reachable attachment plus one per nested list flagged incomplete |
| NestedEml.StaysWithinDepth | crates/dedup-engine/src/eml_pack.rs:973-1022 | nested messages never go below the clamped depth limit |
| MailTree.WriteCanonicalEml | crates/dedup-engine/src/eml_pack.rs:590-609 | for every message tree, from the tree and the store alone: the write fails if and only if a stream of the tree breaks off; otherwise a reader finds every reachable attachment in document order under its name, with its data in memory or all bytes its stream gives; the events are the failures of the tree with their reasons; the counters count what is found; the account adds up, nesting stays within the clamped limit and no multipart is empty |
| MailTree.TreeKept | crates/dedup-engine/src/eml_pack.rs:611-1193 | the entity, its ledger, its failure and its flag are those of the attachment tree |
| MailTree.PartsShow | crates/dedup-engine/src/eml_pack.rs:873-1113 | the parts of a list of attachments are what the tree shows, at every depth |
| MailTree.BodyMeans | crates/dedup-engine/src/eml_pack.rs:1088-1113 | an attachment with content is given a body that reads as its data in memory, else as all bytes of the stream opened under its message and node |
| MailTree.SkipMeans | crates/dedup-engine/src/eml_pack.rs:873-1086 | which attachments fail, and with which reason |
| MailTree.CountsShow | crates/dedup-engine/src/eml_pack.rs:1115-1193 | the counters of files and messages count what a reader finds |
| Crlf.NormalizeBodyCrlf | crates/dedup-engine/src/eml_pack.rs:197-225 | the scanning loop shows the text with every line ended by CR LF |
| Crlf.NormalizedKeepsText | crates/dedup-engine/src/eml_pack.rs:197-225 | all other bytes keep their order and lines end where they ended, but for an ended last line |
| Crlf.TextIsReading | crates/dedup-engine/src/eml_pack.rs:197-225 | the same against a reading of the body byte by byte from the left |
| Crlf.NormalizedTwice | crates/dedup-engine/src/eml_pack.rs:197-225 | normalizing twice changes nothing more |
| Crlf.NormalizedForm | crates/dedup-engine/src/eml_pack.rs:188-196 | CR and LF occur only as pairs (section 2.3 of RFC 5322) and non-empty output ends with CR LF |
| Crlf.NormalizedFixes | crates/dedup-engine/src/eml_pack.rs:197-225 | a body passes unchanged if and only if it already has that form |
| Filename.MakeEmlPackFilename | crates/dedup-engine/src/eml_pack.rs:345-411 | a name exists if and only if the one without subject fits 250 UTF-16 units; it fits, keeps counter and id fragment, and has a beginning of the subject, the longest that fits where every character is one unit |
| Filename.NameUnits | crates/dedup-engine/src/eml_pack.rs:345-411 | what a subject costs in UTF-16 units |
| VolumePack.VolumePackWriter.EnsureVolumeDir | crates/dedup-engine/src/eml_pack.rs:1420-1435 | a new volume opens exactly when there is none or it is full; the counters hold even when its directory cannot be made |
| VolumePack.VolumePackWriter.FreeName | crates/dedup-engine/src/eml_pack.rs:1446-1462 | a free name that fits, without suffix or with one from 2 to 9999, every earlier one being taken; none only when a name does not fit even without subject or all are taken |
| VolumePack.VolumePackWriter.NextEmlPath | crates/dedup-engine/src/eml_pack.rs:1437-1478 | over every run of allocations, failed ones included, indices, volumes and file counts stay in step; the path is free, fits the budget, lies in the volume of its index, and reads as prefix, volume, number, id, a beginning of the subject and the suffix; a failure gives out nothing |
| VolumePack.PathIsRead | crates/dedup-engine/src/eml_pack.rs:308-320 | volume and number are decimals of at least three and six digits, and the other parts stand where they are read |
| VolumePack.PaddedShows | crates/dedup-engine/src/eml_pack.rs:308-320 | a padded number has at least the width asked for, is all digits and has the number as its value |
| VolumePack.PlacedDistinct | crates/dedup-engine/src/eml_pack.rs:1473-1477 | all relative paths ever given out are distinct |
| VolumePack.PathsDiffer | crates/dedup-engine/src/eml_pack.rs:1473-1477 | files with different numbers have different paths, whatever their volumes, ids, subjects and suffixes |
| VolumePack.VolumeHolds | crates/dedup-engine/src/eml_pack.rs:323-326 | an index belongs to a volume exactly when it lies between that volume's first and last index |
| CivilDate.CivilMeans | crates/dedup-engine/src/keepset.rs:1645-1662 | every day number, negative ones included, becomes a valid Gregorian date whose independently counted day number it is |
| CivilDate.CivilOfDate | crates/dedup-engine/src/keepset.rs:1645-1662 | every valid date is the date of its day number |
| CivilDate.CivilIncreases | crates/dedup-engine/src/keepset.rs:1645-1662 | later days are later dates |
| CivilDate.CivilFollowsCalendar | crates/dedup-engine/src/keepset.rs:1645-1662 | day 0 is 1970-01-01 and each day is followed by the calendar's next |
| CivilDate.StampMeans | crates/dedup-engine/src/keepset.rs:1645-1662 | every number of seconds becomes a valid date and time of day that counts back to it |
| CivilDate.FiletimeMeans | crates/dedup-engine/src/keepset.rs:1632-1642 | a FILETIME has a date exactly when positive, no earlier than 1601 and right to the second |
| CivilDate.YearFound | crates/dedup-engine/src/keepset.rs:1650-1652 | the closed formula for the year of an era is right on all 146097 days |
| SortedTexts.SortedUnique | crates/dedup-engine/src/hasher.rs:443-451 | there is one way to sort a collection of strings |
| SortedTexts.SortAscends | crates/dedup-engine/src/hasher.rs:443-451 | in the sorted list a proper beginning, or the smaller byte at the first difference, comes first |
| SortedTexts.CollectPermutes | crates/dedup-engine/src/hasher.rs:443-451 | filtering and mapping a rearranged list gives a rearranged list |
| Preimage.AttachmentMetaStrings | crates/dedup-engine/src/hasher.rs:443-451 | the sorted name:size texts of the attachments that count |
| Preimage.ContentPreimages | crates/dedup-engine/src/hasher.rs:232-306 | the content preimage and the three fingerprint preimages it is composed of |
| Preimage.StrongPreimage | crates/dedup-engine/src/hasher.rs:370-441 | the content preimage, the tag, and the extras of the identity level |
| Preimage.OrderDoesNotMatter | crates/dedup-engine/src/hasher.rs:232-451 | permuting attachments, and recipients within their lists, changes neither preimage |
| Preimage.StrongDecidesV1Iff | crates/dedup-engine/src/hasher.rs:369-441 | messages equal in the strong preimage are equal in the content preimage if and only if they have as many separators inside their fields |
| Preimage.StrongDecidesV1 | crates/dedup-engine/src/hasher.rs:369-441 | in particular when no field holds a separator |
| Preimage.V1DecidesFields | crates/dedup-engine/src/hasher.rs:232-306 | without separators in the fields equal content preimages mean equal subject, submit time, sender and preview, and equal attachment text |
| Preimage.V1DecidesAttachments | crates/dedup-engine/src/hasher.rs:232-306 | if moreover no attachment name holds a semicolon, the counted attachments are the same names with the same sizes, as often |
| Preimage.SameContentOtherBody | crates/dedup-engine/src/hasher.rs:232-306 | two messages with one content preimage and different body preimages |
| IdentityLevels.ContentFormat | crates/dedup-engine/src/hasher.rs:232-306 | the content preimage, field by field in order |
| IdentityLevels.MetaFormat | crates/dedup-engine/src/hasher.rs:443-451 | an attachment stands in it as name, colon and decimal size |
| IdentityLevels.ExtrasFormat | crates/dedup-engine/src/hasher.rs:370-441 | what each identity level adds to it, in order |
| IdentityLevels.StrongDecides | crates/dedup-engine/src/hasher.rs:369-441 | without separators in the fields equal strong preimages mean equal content preimages and body digest and length; from the recipient level on the same recipients; at the attachment level the same attachment contents |
| IdentityLevels.LevelIgnores | crates/dedup-engine/src/hasher.rs:369-441 | recipients do not show at the body level, nor attachment contents below the attachment level |
| Preimage.StrongCollides | crates/dedup-engine/src/hasher.rs:370-441 | two messages with equal strong and different content preimages |
| LinkScan.ClassifyIsFinal | crates/dedup-engine/src/body_cloud_links.rs:471-504 | classification is stable, and overlength means the URL it gives is too long |
| LinkScan.ScanAccum.TryKeepCandidate | crates/dedup-engine/src/body_cloud_links.rs:377-417 | one candidate moves the account as Step says |
| LinkScan.ScanAccum.HandleWindowEdge | crates/dedup-engine/src/body_cloud_links.rs:251-276 | a URL cut by the window is never kept; its whole form is noted when not met before |
| LinkScan.ScanAccum.NoteUnseenIn | crates/dedup-engine/src/body_cloud_links.rs:124-138 | what lies beyond the window is a drop exactly when something there was not met before |
| LinkScan.Probe | crates/dedup-engine/src/body_cloud_links.rs:342-375 | whether any candidate is new, and the first new one that is too long |
| LinkScan.StepSound | crates/dedup-engine/src/body_cloud_links.rs:377-417 | one candidate keeps the meaning of hits, seen URLs, flags and drops |
| LinkScan.BodySound | crates/dedup-engine/src/body_cloud_links.rs:175-213 | after every scan the account is right for all classified candidates |
| LinkScan.BodyMissed | crates/dedup-engine/src/body_cloud_links.rs:175-213 | a drop has a candidate that is no hit to show for it, unless a plain body follows a windowed HTML body with something new beyond the window |
| LinkScan.MarkIs | crates/dedup-engine/src/body_cloud_links.rs:175-213 | for every scan, dropped means exactly that some candidate is no hit or the HTML tail holds one that is neither a hit of the window nor remembered from it |
| LinkScan.MarkExactIff | crates/dedup-engine/src/body_cloud_links.rs:175-213 | exactly when "dropped if and only if some candidate is no hit" holds, in terms of the candidates alone; it can fail only when there is a plain body |
| LinkSpots.ScanBodyCloudLinks | crates/dedup-engine/src/body_cloud_links.rs:175-213 | for every two bodies, by the matches in them: which links are hits, in which order and with which source; truncated if and only if a link met is no hit or a new one lies beyond an HTML window; the overlength flag if and only if a link is too long, and then the first is shown |
| LinkSpots.HitsAreExplained | crates/dedup-engine/src/body_cloud_links.rs:175-417 | every hit is a document link of legal length met whole at a spot where its URL was not met before, hits are in reading order (href values, bare HTML, plain), and every such link is a hit unless 50 come before it |
| LinkSpots.MissedMeans | crates/dedup-engine/src/body_cloud_links.rs:377-417 | a candidate is lost exactly when some link met in a body, in or beyond a window, is no hit |
| LinkSpots.TooLongMeans | crates/dedup-engine/src/body_cloud_links.rs:377-417 | a link is too long exactly when a first one is, which is the one shown |
| LinkSpots.NewBeyondMeans | crates/dedup-engine/src/body_cloud_links.rs:124-138 | something new lies beyond the HTML window exactly when a link there is neither a hit of the HTML body nor met in its window cut off or too long |
| LinkScan.ChosenDistinct | crates/dedup-engine/src/body_cloud_links.rs:399-416 | no URL is chosen twice |
| LinkScan.ChosenComplete | crates/dedup-engine/src/body_cloud_links.rs:377-417 | where all candidates are whole every legal-length URL is chosen, at its first occurrence |
| LinkScan.UnwindowedHits | crates/dedup-engine/src/body_cloud_links.rs:175-213 | bodies that were not windowed have only whole candidates, and the URLs chosen are the distinct ones of legal length in order |
| LinkScan.WindowedHtmlCanRecover | crates/dedup-engine/src/body_cloud_links.rs:179-210 | the inputs on which the mark overstates |

## Left out

- PST parsing, file creation, CSV and JSON writing, report text: input and output.
- SHA-256, Unicode lower-casing and trimming, regular expressions, the host and path shapes of cloud URLs: given as opaque values or as what they answer.
- Message-IDs bound to merged groups after backfill: nothing reads them afterwards, and they depend on which root a class keeps.
- Counters for divergence under Tier 1, previews, X.500 recipients and tier 2.5 split attribution: not part of the grouping decisions.
- Folder, source and preferred-path pattern tables: an item carries the ranks they give it.
- `merge_soft_fidelity`, and `decided_by` and the duplicate-source columns of kept entries: they read items after materialization changed their integrity, or only report.
- Integer widths: counters and indices are unbounded; rank saturation in the union-find is modelled.
- The materializer is one outcome per item, and the attachment store one answer per node pair; the caller's refusal of a winner is a set of items.
- SplitOnly.OnlySplitsIff: stated for Tier 1 verification off, where Message-ID authority holds; with verification on, items with one Message-ID can be apart either way.
- PeerWalk.WalkPeers: the attachment rows recorded for a skipped peer are reduced to the peer and the winner it lost to.
- Preimage.StrongDecidesV1Iff: digests and node recipients count as opaque bytes, so the statement is about preimages, not about hash collisions.
- MailTree.WriteCanonicalEml: headers, boundaries and message bodies are left out; file names are not sanitized, and failures of the output writer itself are not modelled.
- Filename.MakeEmlPackFilename: the subject and the id fragment are given after cleaning; the length of the directory is given in UTF-16 units.
- VolumePack.VolumePackWriter.NextEmlPath: the files that exist are a set of relative paths; whether a directory could be made is an input. The second budget check of the source repeats the first and is not repeated here.
- CivilDate.StampMeans: the zero-padded text of the date is left out.
- LinkSpots.ScanBodyCloudLinks: window cutting itself and entity unescaping are given as the candidates they yield.
- LinkScan.ScanAccum.NoteUnseenIn: only the window-tail use is modelled; the other use of the source's flag has no caller.
- Volume prefixes are checked character by character only, which subsumes the source's other tests.
