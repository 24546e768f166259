# Verified model of tillit

tillit records signed decisions about package versions and lets a user combine the decisions of the
people they trust. This project models how that works, from stored rows to the answer a user sees,
and proves what the answers mean.

The heart is the resolver. A breadth-first walk with hop budgets turns stored connections into a
trust set (`TrustWalk`, `TrustWalkSound`, `TrustWalkComplete`, `TrustWalkReach`, `TrustWalkLimits`,
`TrustWalkPromise`, `TrustWalkFrame`). The decisions of its members feed a recursive version verdict
with a shared cache and cycle breaking (`Verdicts`), which is measured against a definition without
either (`VerdictMeaning`, `VerdictGrounded`, `VerdictExact`, `VerdictTies`), and a merged span list
(`Spans`). `Resolver` puts these together as the two queries a user can ask, and proves end to end
which stored rows a verdict rests on. `Frame` says which rows an answer can depend on, and from that
follow `Clean`, `Export` and the statements about distrust and veto-only peers.

Around it stand the local store (`Tables`, `Stores`), the trust commands (`Trust`), the signature
server (`Server`) and incremental synchronisation between the two as a protocol of interleaved
steps, with the client's other commands between syncs (`Sync`, `SyncProtocol`, `SyncResults`,
`SyncRevocation`, `SyncExamples`); and five algorithms on their own: the generic version order
(`Versions`), PEP 440 (`Pep440`, `Pep440Order`), strict semantic versions (`Semver`), the `mix.lock`
scanner (`MixLock`, `MixLockPrint`) and the dependency tree (`CheckTree`, `CheckTreeShape`). `Order`, `Text` and `Payloads` hold comparators,
strings and the parsed payloads.

Code that changes things step by step is a method, or a class where the source has an object or a
table, and is proved equal to a specification function; the lemmas are about those functions. What
each main function computes is also written out in the fields of rows, requests and versions, with
plain comparisons, by a lemma that names none of the functions it is made of.
`Store` stands for the local database, `Database` for the server's, `ResolveState` for the cache and
the set of versions in progress, `Renderer` for the tree writer with its ancestor set.

## What was found

- The source promises "every signer reachable within the trust depth limits"
  (resolver/trustset.go:49-57). The first visit wins, so this is not so. `FoundIffOpenPath` says for
  every graph exactly who is found; `SteadyWalkIsComplete` proves the promise under a condition on the
  graph alone, which holds in particular when all limits agree (`UniformIsSteady`);
  `ShortVisitHides` gives a family of graphs in which it fails. `PromiseKeptIffShallow` says for which
  peers tables it holds whatever connections are stored: those that trust nobody beyond depth one.
- The cache of `resolveVersion` can hold too low a verdict when two different base versions compare
  equal, as "1.0" and "v1.0" do (`TiesAreLookedUpWrong`). `ExactIffNoTies` shows that for any set of
  bases this is the only thing that goes wrong, and that every tie does, and `LookupGrounded` what
  holds even then.
- A revocation uploaded privately, as the mirror does (cmd/tillit/commands/mirror.go:150-162), still
  flags its public target on the server, but is never sent to other clients. `SyncedRevocation` says
  exactly what a synced client derives: the open revocations on that server, and those it held before
  because it received them or another server has them openly. `SyncedFromOneServer` says when that is
  what the flag says, and `PrivateRevocationUnseen` gives a run in which it is not.
- A peer keeps its time of synchronisation when it is distrusted or set to another server, and rows
  from before that time are not asked for again. `NothingLostIff` says for every run exactly when a
  sync leaves nothing behind, `NoSignatureLost` that this is so unless a distrusted peer was cleaned
  away or a synced one moved, and `CleanedIsLost` and `MovedIsLost` give runs that lose a signature.
- The base of a vetted delta may be reported as allowed by the point query and as vetted by the span
  list (`AllowedBaseInVettedSpan`); `PointAgreesWithSpans` says exactly when. A version rejected or
  approved in another spelling only is so by the span list alone; `RejectionAgreesIff` and
  `ApprovalAgreesIff` say exactly when the two agree.
- The PEP 440 comparator ignores a post number on a pre-release (`PostOfPreIgnored`) and does not put
  development releases with very large numbers below their release (`DevBelowSentinel`).
  `FollowsPep440` says for every pair of parsed versions exactly when it is PEP 440 order all the
  same.
- Comments in a `mix.lock` are skipped between entries but not when the end of the map is looked for:
  a closing brace in a comment ends the map (`CommentEndsMap`).
- The semantic version comparator ties different numeric identifiers from the largest int on
  (`HugeNumbersTie`); `FollowsSection11` says exactly when this matters.
- Revoking a connection ends by saving the old row again with its revoked column set
  (cmd/tillit/commands/trust.go:168-173). Saving is write-once, so this changes nothing;
  `ExecuteKeeps` shows the derived revocation is enough.

## Premises

- Strings are compared by code point, which is the byte order of UTF-8. Text that the original scans
  byte by byte is scanned character by character.
- A listing ordered by time keeps rows of equal time in insertion order (`ListingIsStable`): an
  assumption about the database, which is only asked to order by time.
- Go's unstable `sort.Slice` may order ties either way, and maps are iterated in any order.
- "The active user" is a parameter of a query. Revocation lookups assume one row per id, which the
  primary keys give.
- Exactness of a lookup assumes that distinct bases of non-rejecting deltas do not compare equal
  (`NoTiedBases`); agreement with the spans also that no exact decision is about another spelling of
  the version asked for.
- Content ids come from any injective function of payload and signature, and a payload and signature
  verify for one signer at most. The client's check is any predicate that does not read the revoked
  flag; rows it stores without a sync have their content id and verify.
- Servers and client read one clock that does not run backwards; an upload is one atomic step; the
  client runs one command at a time.
- Rows of other signers bear no id of anything the user signs (`IsForeign`).

## Model

| member | source | states |
|---|---|---|
| `Versions.CompareNumericDotted` | resolver/version.go:43-79 | the index loop computes the segment-wise order in which a missing segment is the empty word |
| `Versions.VersionsTotalPreorder` | resolver/version.go:16-79 | the version order is antisymmetric up to ties, total and transitive on all strings, valid or not |
| `Versions.VersionOrder` | resolver/version.go:16-79 | which version comes first, written out: the first differing segment decides, numbers by value and below words, words by their first differing character; if none does, a pre-release comes before none and two go by their first differing character |
| `Versions.EveryVersionReads` | resolver/version.go:35-41 | every string reads as a base and a pre-release, so this covers all strings |
| `Payloads.Validate` | models/payload.go:71-124 | a payload passes exactly when every field its kind needs is there and an endpoint pair differs |
| `Tables.ListingIsStable` | localstore/cache.go:171-189 | a listing is ordered by time and rows of one time keep their table order |
| `Tables.PutPeerKeepsSorted` | localstore/peers.go:122-176 | an upserted peers table is still listed in id order, one row per id |
| `Tables.PutPeerStored` | localstore/peers.go:122-132 | the stored peer is the one last saved, but for its sync time |
| `Tables.PutPeerSyncTime` | localstore/peers.go:122-132 | which an existing peer keeps and a new one has none of |
| `Tables.PutPeerOthers` | localstore/peers.go:122-132 | every other peer stays |
| `Tables.SaveAllMeans` | localstore/cache.go:45-62 | stored rows stay, and of the rows saved the first of each new id is added |
| `Tables.RemovePeerFrom` | localstore/peers.go:178-181 | removing a peer removes its row and no other |
| `Stores.Store.SaveCachedSignature` | localstore/cache.go:45-62 | saving is write-once: a stored id keeps its row |
| `Stores.Store.DeleteCachedSignature` | localstore/cache.go:195-208 | deletes the row of that id, and says whether there was one |
| `Stores.Store.SaveCachedConnection` | localstore/cache_connections.go:44-61 | saving is write-once: a stored id keeps its row |
| `Stores.Store.DeleteCachedConnection` | localstore/cache_connections.go:102-115 | deletes the row of that id, and says whether there was one |
| `Stores.Store.SavePeer` | localstore/peers.go:122-132 | the table is the upserted one, ids stay ordered |
| `Stores.Store.SetPeerLastSyncedAt` | localstore/peers.go:134-150 | sets that column of that peer, and fails exactly when there is no such peer |
| `Frame.SyncTimeKeepsAnswers` | localstore/peers.go:134-150 | recording a sync time changes no trust set and no answer, for any viewer |
| `Stores.Store.SaveCachedUser` | localstore/cached_users.go:30-40 | the last key saved for a user wins |
| `Stores.Store.IsRevoked` | localstore/cache.go:69-105 | revoked exactly when another row of the same signer revokes the id, with the time of the earliest such row; not found exactly when the id is not stored |
| `Stores.SavesNeverUnrevoke` | localstore/cache.go:45-62 | no run of saves turns a revoked id back |
| `Stores.RevokedMeans` | localstore/cache.go:69-105 | an id is revoked exactly when another row by the signer of its row is a revocation of that kind that names it |
| `Stores.TargetedIffRevoked` | resolver/query.go:151-164 | the per-signer set of revoked ids agrees with the lookup of a single row |
| `Stores.Store.GetActiveConnection` | localstore/cache_connections.go:128-168 | the loop computes the latest unrevoked connection, the first of equal times |
| `Stores.ActiveConnectionIs` | localstore/cache_connections.go:128-168 | the result is active, none is later, those of its time are listed after it, and there is one whenever one is active |
| `TrustWalk.SignerOutgoing` | resolver/trustset.go:180-210 | both loops compute the outgoing edges in listing order |
| `TrustWalk.OutgoingMeans` | resolver/trustset.go:176-210 | an edge is exactly an unrevoked trust connection of the signer |
| `TrustWalk.Seed` | resolver/trustset.go:66-123 | the active user starts from the peers table and its distrust, anyone else from their public connections |
| `TrustWalk.SeedsMean` | resolver/trustset.go:66-123 | the same in the fields of peers and edges: depths, flags and who is left out |
| `TrustWalk.Enqueue` | resolver/trustset.go:146-164 | each target that is not distrusted is queued with the smaller of the remaining budget and its own limit |
| `TrustWalk.HopsMean` | resolver/trustset.go:146-164 | what is queued: one longer path, the same flag, and the smaller of one hop less and the edge's limit |
| `TrustWalk.BuildTrustSet` | resolver/trustset.go:58-167 | the loop ends and computes the walk, cyclic graphs included |
| `TrustWalkSound.TrustSetSound` | resolver/trustset.go:84-165 | every entry is a duplicate-free chain of active trust connections off distrusted ids, within the depth of its first peer and every limit along it, carrying that peer's veto-only flag; each prefix is an entry |
| `TrustWalkComplete.TrustSetComplete` | resolver/trustset.go:125-165 | every direct peer, and every target of a signer with hops left, is in the set unless distrusted, at most one hop further out |
| `TrustWalkReach.GenerousWalkIsReachability` | resolver/trustset.go:125-165 | with budgets at least the number of signers: exactly the reachable signers, by shortest paths |
| `TrustWalkFrame.TrustSetFrame` | resolver/trustset.go:58-167 | the set depends only on the peers and on connections of the viewer and of its own members |
| `TrustWalkComplete.RecordedShortestFirst` | resolver/trustset.go:125-165 | entries are recorded once each, in order of path length |
| `TrustWalkLimits.FoundIffOpenPath` | resolver/trustset.go:125-165 | for every graph: a signer is found exactly when a path within all limits leads to it past nobody recorded with no hop left, and its path is a shortest such one |
| `TrustWalkLimits.SteadyWalkIsComplete` | resolver/trustset.go:49-57 | if a shorter way to a signer leaves a hop whenever a longer one does: exactly the signers some path within the limits leads to, by shortest such paths |
| `TrustWalkLimits.UniformIsSteady` | resolver/trustset.go:96-107 | so it is when all peers have one depth and no connection allows fewer hops than are left |
| `TrustWalkPromise.PromiseKeptIffShallow` | resolver/trustset.go:49-57 | for any peers table: every signer within the limits is found, whatever connections are stored, if and only if no peer but the viewer is trusted beyond depth one |
| `TrustWalkLimits.ShortVisitHides` | resolver/trustset.go:132-139 | in every graph of a family of four signers and two connections: the last signer is within all limits, but found exactly when the direct peer on the way has a hop left |
| `Verdicts.AggregateLevels` | resolver/query.go:260-280 | any rejection wins, then any vetting, then any allowance |
| `Verdicts.ResolveState.ResolveVersion` | resolver/query.go:87-122 | the recursion ends for any deltas, computes verdict and cache, and restores the set in progress |
| `VerdictMeaning.TrustedIsFixedPoint` | resolver/query.go:73-122 | trust is: not rejected, and approved exactly or by a delta from a trusted base |
| `VerdictMeaning.TrustedIsLeast` | resolver/query.go:73-122 | and it is the least such notion |
| `VerdictMeaning.MeaningStatus` | resolver/query.go:260-280 | the defined status is rejected when a rejection applies and approving exactly when trusted |
| `VerdictMeaning.MeaningIgnoresOrder` | resolver/query.go:87-122 | the defined status depends only on which signatures there are |
| `VerdictMeaning.TrustedHasChain` | resolver/query.go:106-116 | trust has a finite chain of approvals back to an exact one |
| `VerdictGrounded.LookupGrounded` | resolver/query.go:87-122 | for any signatures and order: rejected exactly when a rejection covers, approved only on a finite chain, and the cache stays so |
| `VerdictExact.LookupsExact` | resolver/query.go:87-122 | any sequence of lookups through one cache returns the defined verdict each time, without tied bases |
| `VerdictExact.LookupIgnoresOrder` | resolver/query.go:87-122 | permuting the signatures does not change a status, without tied bases |
| `VerdictTies.ExactIffNoTies` | resolver/query.go:87-122 | for any set of bases: all signatures with bases in it are looked up exactly at every version if and only if no two of the bases tie |
| `VerdictTies.TiesAreLookedUpWrong` | resolver/query.go:88-93 | "1.0" and "v1.0" tie, and as bases yield allowed where vetted is defined |
| `Spans.BuildSpans` | resolver/query.go:20-71 | the loop computes the raw spans through one shared cache |
| `Spans.MergeSpans` | resolver/query.go:217-241 | sorts in some order consistent with the comparator, then merges in place |
| `Spans.MergeKeeps` | resolver/query.go:217-241 | merging keeps the versions covered by each status and the decisions, inverted spans included; each result is made of a run of the given spans in order of start and end, from the start of its first to the furthest end, with exactly their decisions and status; and of two neighbours of one status the later starts behind the end of the earlier |
| `Spans.EveryDecisionListed` | resolver/query.go:20-71 | the span list holds each decision that is exact, rejects, or starts from a trusted base as often as it was made, and no other, without tied bases |
| `Spans.PointAgreesWithSpans` | resolver/query.go:20-122 | point query and span list agree on rejected and approved; on an approved version they agree on vetted if and only if a vetted delta that starts there and covers it comes with another vetted signature over the version |
| `Spans.RejectionAgreesIff` | resolver/query.go:20-122 | for any signatures: they agree on rejected if and only if a version rejected in another spelling is itself rejected |
| `Spans.ApprovalAgreesIff` | resolver/query.go:20-122 | and without tied bases on approved, exactly under the stated condition on approvals and rejections in other spellings |
| `Spans.AllowedBaseInVettedSpan` | resolver/query.go:20-122 | for every version there are signatures that make it such a base, allowed by the point query and inside a vetted span |
| `Resolver.Resolver.CollectSigner` | resolver/query.go:146-209 | both loops compute the standing and the withdrawn statements of one signer |
| `Resolver.Resolver.CollectMatching` | resolver/query.go:138-211 | collects over the whole trust set in some order |
| `Resolver.CollectsWhatIsStated` | resolver/query.go:138-211 | collects exactly what the unrevoked decisions and deltas of trusted signers about this ecosystem and package state, rejections only from veto-only ones, with their versions, level, reason and id and the signer's path and flag |
| `Resolver.CollectsOnce` | resolver/query.go:138-211 | and no row twice |
| `Resolver.CollectsWhatIsWithdrawn` | resolver/query.go:195-198 | reports as revoked exactly the decisions such rows state that are revoked, in the same row fields |
| `Resolver.Resolver.Version` | resolver/query.go:76-82 | the verdict is that of some order of the signers |
| `Resolver.Resolver.Package` | resolver/query.go:20-71 | the spans are those of some order of the signers |
| `Resolver.VersionVerdictUnique` | resolver/query.go:76-122 | and that order does not matter to a status |
| `Resolver.VersionAgreesWithPackage` | resolver/query.go:20-82 | the two queries on one store agree on rejected and approved, and on vetted exactly under that condition, whatever orders they saw |
| `Resolver.RejectionAgreesWithPackage` | resolver/query.go:20-82 | and for any store on rejected, exactly under the condition on spellings |
| `Resolver.VerdictRestsOnRows` | resolver/query.go:76-211 | for any store: rejected exactly when an unrevoked row of a trusted signer rejects, approved only on a chain of such rows, none veto-only |
| `Frame.SameRowsSameAnswers` | resolver/query.go:138-150 | answers depend only on the peers and the rows of the viewer and the trust set |
| `Frame.DistrustedCannotInterfere` | resolver/trustset.go:66-79 | no change to rows of distrusted signers changes any answer |
| `Frame.VetoOnlyCannotApprove` | resolver/query.go:173-175 | deleting approving decisions of veto-only signers changes no answer |
| `Clean.FindPruneCandidates` | cmd/tillit/commands/clean.go:81-122 | the candidates are exactly what lies outside the trust set |
| `Clean.ApplyPrune` | cmd/tillit/commands/clean.go:182-205 | deletes the candidates one by one and counts every one of them |
| `Clean.RunClean` | cmd/tillit/commands/clean.go:45-75 | nothing to clean exactly when there is no candidate; aborted when not affirmed; else the counts are those of the candidates and exactly the rows of trusted signers are left |
| `Clean.PrunedMeans` | cmd/tillit/commands/clean.go:81-122 | in row fields: exactly the rows and cached users of everyone outside the trust set are dropped, and peers never |
| `Clean.CleanKeepsAnswers` | cmd/tillit/commands/clean.go:77-122 | trust set, paths, flags and every answer stay the same |
| `Clean.PeersAreLive` | cmd/tillit/commands/clean.go:81-122 | no row of a peer that is not distrusted is ever a candidate |
| `Clean.CleanKeepsRevocation` | cmd/tillit/commands/clean.go:77-122 | no surviving row changes between revoked and not |
| `Clean.CleanTwice` | cmd/tillit/commands/clean.go:45-122 | a second clean finds nothing |
| `Export.BuildExportDoc` | cmd/tillit/commands/export.go:222-346 | each scope exports the peers, and the rows and public keys of its signers |
| `Export.ExportedMeans` | cmd/tillit/commands/export.go:208-346 | for each scope which rows and cached users the document holds, and that it holds every peer |
| `Export.ApplyImport` | cmd/tillit/commands/export.go:377-449 | existing peers are skipped and counted, existing rows win, users are overwritten |
| `Export.ImportMeans` | cmd/tillit/commands/export.go:377-449 | whatever is stored stays as it is; of the peers and rows in the document the first of each new id is added, peers as never synced |
| `Export.ImportPeersMeans` | cmd/tillit/commands/export.go:400-410 | and every peer in the document that is not added is counted as skipped |
| `Export.IncludePeersRoundTrip` | cmd/tillit/commands/export.go:293-328 | export with peers and import into an empty store: same trust set, same answers |
| `Export.FullRoundTrip` | cmd/tillit/commands/export.go:222-449 | a full backup gives every viewer the same answers |
| `Server.Database.CreateSignature` | db/sqliteconnector/signature.go:92-101 | inserts unless the id is stored |
| `Server.Database.RevokeSignature` | db/sqliteconnector/signature.go:103-113 | flags the rows of that id and no other |
| `Server.Database.AuthorizeRevocation` | handlers/signaturehandler.go:26-39 | authorized exactly when the target is stored and belongs to the revoker |
| `Server.Database.CreateSignatureHandler` | handlers/signaturehandler.go:41-162 | the response and the table after every check of an upload, database errors aside |
| `Server.Answers` | handlers/signaturehandler.go:41-162 | exactly which uploads are created, not found, forbidden and unauthorized: known signer, own hash and signature, valid payload, a stored target of one's own, and authentication as the signer when private |
| `Server.UploadLeaves` | handlers/signaturehandler.go:139-161 | a refused upload changes nothing; an accepted one is stored as sent if its id is new, and a revocation flags its target and nothing else |
| `Server.HandleKeeps` | handlers/signaturehandler.go:41-162 | an upload keeps ids content-addressed, revocations within one signer, and flags equal to derived revocation |
| `Server.FlagsAlwaysDerived` | handlers/signaturehandler.go:106-158 | in every reachable state a row is flagged exactly when a stored revocation by its signer targets it |
| `Server.ClientAgreesWithServer` | localstore/cache.go:64-91 | a client with the same rows derives exactly what the server flags |
| `Sync.GetUserSignatures` | db/sqliteconnector/signature.go:58-86 | sends exactly the rows of the signer uploaded at or after the given time, private ones only when asked to |
| `Sync.SentOldestFirst` | db/sqliteconnector/signature.go:58-86 | oldest first |
| `Sync.SyncPeer` | cmd/tillit/commands/sync.go:75-114 | saves what verifies, leaves the rest, and records the time the sync began, database errors aside |
| `Sync.SyncSaves` | cmd/tillit/commands/sync.go:81-105 | cached rows stay, every accepted row has its id cached, and what is new is an accepted row as it was sent |
| `SyncProtocol.StepKeepsInv` | cmd/tillit/commands/sync.go:27-114 | every step of uploads, syncs and other commands keeps: server tables consistent, cached rows genuine, and what a server held at a fetch is what it holds now but for later uploads |
| `SyncResults.NothingLostIff` | cmd/tillit/commands/sync.go:27-114 | in every behaviour, when a peer is recorded as synced the client holds every public, verifying signature its server held when it answered the fetch if and only if it held those from before the last sync time |
| `SyncResults.NoSignatureLost` | cmd/tillit/commands/sync.go:27-114 | and so it does in every behaviour in which no synced peer's rows were cleaned away and no synced peer was set to another server |
| `SyncRevocation.BehaviourKeepsSources` | cmd/tillit/commands/sync.go:27-114 | over every behaviour each cached row was received or copies an open row of some server |
| `SyncRevocation.SyncedRevocation` | cmd/tillit/commands/sync.go:75-114 | the client then derives for each such signature exactly its open revocations on that server and those it held at the fetch from elsewhere, which it had received or another server has openly |
| `SyncRevocation.SyncedFromOneServer` | cmd/tillit/commands/sync.go:75-114 | with none from elsewhere it derives exactly the open ones, and agrees with the flag if and only if a flagged signature has one |
| `SyncExamples.PrivateRevocationUnseen` | handlers/signaturehandler.go:118-158 | a run that ends with a public signature flagged on the server and not revoked for the synced client |
| `SyncExamples.CleanedIsLost` | cmd/tillit/commands/sync.go:67-114 | sync, distrust, clean, trust, sync: the client misses a signature its server holds |
| `SyncExamples.MovedIsLost` | localstore/peers.go:122-132 | sync, trust at another server, sync: the client misses a signature that server held all along |
| `SyncExamples.SomeUsable` | handlers/signaturehandler.go:69-98 | there are hashes and signature checks for which these three runs exist |
| `Trust.RevokeActiveConnection` | cmd/tillit/commands/trust.go:136-175 | stores a revocation of the active connection, if there is one |
| `Trust.RecordTrustChange` | cmd/tillit/commands/trust.go:98-134 | revoke, store the new connection, upsert the peer, in this order, stopping at a failure; what that leaves is the subject of the next rows |
| `Trust.ForgetPeer` | cmd/tillit/commands/trust.go:233-240 | revoke, then remove the peer |
| `Trust.ExecuteKeeps` | cmd/tillit/commands/trust.go:98-128 | a command keeps at most one active connection per peer; after a change it is the new one unless its id was stored before, after forgetting there is none, and rows of other signers change nothing |
| `Trust.ChangePublishes` | cmd/tillit/commands/trust.go:105-128 | the connection a change leaves active is the one just signed, to that peer, trusting it exactly when it is neither distrusted nor veto-only, to its depth |
| `Trust.PublishedEdge` | cmd/tillit/commands/trust.go:105-128 | afterwards the user's trust edges to the peer are exactly one to its depth in that case, and none otherwise |
| `Trust.ChangeStoresPeer` | cmd/tillit/commands/trust.go:130-132 | a successful change stores the peer's server, depth and flags, and touches no other peer |
| `Trust.ForgetRemovesPeer` | cmd/tillit/commands/trust.go:233-240 | after forgetting no row of that id is left and every other one is; a failure removes none |
| `Trust.AtMostOneActiveConnection` | cmd/tillit/commands/trust.go:95-175 | over every run from an empty store, other signers' rows being saved in between |
| `Trust.TrustTakesEffect` | cmd/tillit/commands/trust.go:73-82 | after the command the trusted peer is a direct member of the trust set with its veto-only flag, whatever connections come to be cached |
| `Trust.DistrustTakesEffect` | cmd/tillit/commands/trust.go:201-208 | after the command no trust path passes through the distrusted peer, whatever connections come to be cached |
| `Trust.ForgetTakesEffect` | cmd/tillit/commands/trust.go:238-240 | after the command no trust path starts at the forgotten peer |
| `CheckTree.CanonicaliseEdges` | cmd/tillit/commands/checktree.go:141-173 | each kept edge list is the retargeted list of some source key, and none is lost |
| `CheckTreeShape.RetargetMeans` | cmd/tillit/commands/checktree.go:125-150 | an edge leads to the version it names if there is a row of it, else to that of the last row of its package, else nowhere |
| `CheckTreeShape.IndexMeans` | cmd/tillit/commands/checktree.go:99-110 | a key is printed with the fields of the last row that has it |
| `CheckTree.CanonicalChildrenKnown` | cmd/tillit/commands/checktree.go:136-173 | retargeted edges lead to known packages and never to their own key |
| `CheckTreeShape.ChildrenPrintedInOrder` | cmd/tillit/commands/checktree.go:175-189 | the children printed are those given, by package and then by version, each by the first differing character |
| `CheckTree.Renderer.PrintChild` | cmd/tillit/commands/checktree.go:66-95 | prints the subtree cut at ancestors and restores the ancestor set |
| `CheckTree.Renderer.PrintRoot` | cmd/tillit/commands/checktree.go:56-64 | prints the root and its subtrees |
| `CheckTreeShape.SubtreeShape` | cmd/tillit/commands/checktree.go:66-95 | the last child gets a corner and the others a tee, what is below is indented under a gap or a bar, and below a repeated ancestor there is nothing |
| `CheckTree.Renderer.UnvisitedFromDirects` | cmd/tillit/commands/checktree.go:194-221 | a sorted list of the rows the search did not visit |
| `CheckTree.Renderer.RenderTree` | cmd/tillit/commands/checktree.go:29-54 | rendering ends for any edges and prints the trees and the leftovers |
| `CheckTree.VisitedIffReachable` | cmd/tillit/commands/checktree.go:194-206 | the search visits exactly what paths from the direct rows lead to |
| `CheckTree.LeftoversAreUnreachable` | cmd/tillit/commands/checktree.go:194-221 | the leftovers are exactly the rows no direct row leads to |
| `CheckTree.EveryRowPrinted` | cmd/tillit/commands/checktree.go:22-95 | every row is printed, cycles or not |
| `CheckTreeShape.OnlyRowsPrinted` | cmd/tillit/commands/checktree.go:22-95 | and nothing else is |
| `Semver.SplitIdents` | ecosystems/internal/semver/semver.go:147-164 | the dotted parts, if all are identifiers |
| `Semver.ParseVersion` | ecosystems/internal/semver/semver.go:72-142 | the statements compute the parser of the next row |
| `Semver.CanonicalForm` | ecosystems/internal/semver/semver.go:72-142 | a string is accepted as a record exactly when the record is well formed and the string is its rendering |
| `Semver.OneIdentifier` | ecosystems/internal/semver/semver.go:99-164 | which text may stand as one pre-release identifier: ASCII letters, digits and hyphens, no superfluous leading zero |
| `Semver.CmpPreRelease` | ecosystems/internal/semver/semver.go:171-203 | the loop compares identifier by identifier, a shorter run first |
| `Semver.CompareTotalPreorder` | ecosystems/internal/semver/semver.go:41-70 | a total preorder on all strings |
| `Semver.InvalidFirst` | ecosystems/internal/semver/semver.go:41-51 | strings that do not parse come first, by the first differing character |
| `Semver.IdentsExactIff` | ecosystems/internal/semver/semver.go:171-203 | identifiers compare as section 11.4 says except when two different numbers both reach the largest int |
| `Semver.FollowsSection11` | ecosystems/internal/semver/semver.go:41-70 | on valid versions: precedence of section 11 of Semantic Versioning 2.0.0, with ties only for build metadata, if and only if no first difference in numbers from the largest int on goes undecided |
| `Semver.HugeNumbersTie` | ecosystems/internal/semver/semver.go:171-203 | any two pre-release numbers from the largest int on compare as equal |
| `Pep440.StripZeros` | ecosystems/pypi/version.go:292-298 | the loop drops trailing zeros but keeps one number |
| `Pep440.CmpRelease` | ecosystems/pypi/version.go:270-290 | the loop compares release numbers padded with zeros |
| `Pep440.SplitLocalLabel` | ecosystems/pypi/version.go:341-351 | the loop splits at each separator |
| `Pep440.CmpLocal` | ecosystems/pypi/version.go:307-339 | the loop compares local segments, numbers above words, a shorter run first |
| `Pep440.CmpVersionTotalPreorder` | ecosystems/pypi/version.go:193-265 | a total preorder on all records |
| `Pep440.CompareTotalPreorder` | ecosystems/pypi/version.go:155-167 | a total preorder on all strings, for any parser |
| `Pep440.FollowsPep440` | ecosystems/pypi/version.go:169-339 | on all parsed versions: equals comparison by the key of PEP 440, section "Summary of permitted suffixes and relative ordering", if and only if, behind an equal pre or post segment, the post numbers are equal and no development number is huge while the other is absent, or the remaining segments decide alike, and local labels agree where they decide |
| `Pep440Order.KeyIsOrder` | ecosystems/pypi/version.go:169-339 | that comparison by key is the order written out: epoch, release numbers padded with zeros, pre-release by word and number, post, development, local label |
| `Pep440Order.KindsInOrder` | ecosystems/pypi/version.go:231-244 | of one epoch and release, any alpha comes before any beta and any beta before any release candidate, whatever else they hold |
| `Pep440Order.ReleaseMeans` | ecosystems/pypi/version.go:267-298 | the first release number that differs decides, missing ones being zero |
| `Pep440Order.SegmentsMean` | ecosystems/pypi/version.go:341-351 | a label splits as if its dashes and underscores were dots |
| `Pep440Order.InvalidFirst` | ecosystems/pypi/version.go:155-167 | strings that do not parse come first, by the first differing character |
| `Pep440.LocalsAgreeIff` | ecosystems/pypi/version.go:300-339 | local labels compare by value if and only if no first difference in two numbers from the largest int on goes undecided |
| `Pep440.PostOfPreIgnored` | ecosystems/pypi/version.go:180-191 | two pre-releases that differ in nothing but the post number are compared rightly only when it is the same |
| `Pep440.DevBelowSentinel` | ecosystems/pypi/version.go:257-265 | a development release sorts below its release exactly when its number is below 2^30 - 1 |
| `MixLock.MatchBrace` | ecosystems/hexpm/mixlock.go:162-193 | the matching brace outside strings, or none |
| `MixLock.FindStringEnd` | ecosystems/hexpm/mixlock.go:197-212 | the closing quote, escapes skipped, or none |
| `MixLock.SkipSpaceFrom` | ecosystems/hexpm/mixlock.go:216-232 | the first character outside white space and comments |
| `MixLock.AdvanceToTopComma` | ecosystems/hexpm/mixlock.go:236-267 | behind the next comma outside strings and brackets, or the end |
| `MixLock.ParseMixLock` | ecosystems/hexpm/mixlock.go:63-157 | on any text the scans stay in bounds and the loop ends, with packages, warnings or the failure |
| `MixLockPrint.ParseUndoesPrint` | ecosystems/hexpm/mixlock.go:53-157 | parsing a printed map returns the packages of its hex entries, each name and version once in first-seen order, and one warning for each other entry: of another source, of unknown shape, no tuple, no separator |
| `MixLockPrint.PackagesOnce` | ecosystems/hexpm/mixlock.go:76-79 | the packages found are exactly the packages printed, once each |
| `MixLockPrint.CommentEndsMap` | ecosystems/hexpm/mixlock.go:162-193 | whatever follows a closing brace in a comment is dropped without a warning |
| `MixLock.MapStartIsFirst` | ecosystems/hexpm/mixlock.go:63-73 | the map starts at the first "%{", and there is none exactly when the text has none |

## Left out

- NoSignatureLost: connections are pulled with a strict time comparison and are not covered.
- SyncedRevocation: covers signatures; the server hides revoked connections.
- SyncPeer: a save that fails is skipped by the source while the sync time still advances, so the row is not fetched again; failing saves are not modelled.
- CreateSignatureHandler: database errors are not modelled; a failure to flag the target is only logged by the source, which leaves a stored revocation with an unflagged target.
- ParseUndoesPrint: printed entries have balanced values, gaps of white space and balanced comments, and end in a comma; other text is covered by `ParseMixLock` only.
- BuildExportDoc: the key pairs, servers and push state of the document carry no verdict and are not modelled.
- ApplyImport: peers, signatures, connections and public keys only; key pairs, servers and push state carry no verdict. Public keys overwrite, although the comment on import says existing rows are kept.
- RenderTree: a line is its tree prefix and package key; label colours and the status text are not modelled.
- UnvisitedFromDirects: lower-casing is modelled for ASCII letters.
- The text grammar of PEP 440 (`parseVersion`): the comparator is proved for any parser.
- Parsing of signed JSON: payloads arrive parsed or as malformed.
- Hashing, signatures, base64, key storage, HTTP, SQL text, rate limits, prompts, logging and flags.
- `Publish`: it sends no signature id, which the handler refuses; uploads are modelled at the handler.
- Offsets in the error messages of the `mix.lock` scanner.
- The RubyGems comparator, which is not an order, and the other lock-file readers, which filter and deduplicate.
