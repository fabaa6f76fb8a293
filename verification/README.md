# Federate: the signed registry, its client, and the codecs underneath

A Dafny 4.11 model of the Federate network's core, with machine-checked proofs.
`dafny verify dfyconfig.toml` checks the whole project.

The model has four parts.

1. **The registry on the server.** `Store.RegistryStore` and `RedbBackend.RedbRegistryStore` are classes
   whose fields are the in-memory registry and the database tables; `WorkingCopy.WorkingZone` is the private
   zone copy that `apply_action` edits in place. Each method is proved against a function on values
   (`RegistrySpec`, `Actions`, `DbTables`), and the theorems are about all runs of that function: any sequence of
   issued nonces, online submissions (nonce, then content, then mutation), offline mutations and restarts, from
   the empty registry, with any keys, clocks and contents (`Invariant`, `RestartProofs`, `TrustProofs`,
   `HistoryProofs`, `AuthorityProofs`, `NonceProofs`, `Seed`).
2. **The verifying client.** `ResolverEngine.Resolver` is a class over memory and a cache directory, proved against
   `ResolverSpec`. Every answer of the network is an argument and may be anything. Proved: nothing is served without
   a complete chain of signatures and hashes (`SoundnessProofs`), no rollback (`RollbackProofs`, `RegistryRollbackProofs`), and
   what an accepted publish stored is what a client gets back (`PublishResolveProofs`, which with `DelegationProofs` joins
   parts 1 and 2).
3. **Codecs.** UTF-8 (`Unicode`), canonical JSON (`Canonical`, `Documents`, `SignedDocuments`), the DNS wire format (`Dns`; sections 3.1, 4.1.1,
   4.1.2 and 4.1.4 of RFC 1035, section 2 of RFC 3596), `fed://` addresses (`Uri`), and the markdown renderer
   (`Html`, `Markdown`, `MarkdownRenderer`, `MarkdownProofs`, `MarkdownTermination`).
4. **The LRU block cache** (`Cdn`).

Conventions. The foreign primitives are the fields of `Records.World`: signing, verification, hashing, canonical
bytes, parsing and RFC 3339. `Records.Lawful` is all that is assumed of them: a key's own signature verifies, hashing
never collides, and a computed hash is a well-formed address; `Records.LawfulWorldExists` gives a world that meets
it. The address format itself stays abstract, since no fixed number of digits can name all contents without a
collision. The current time is an argument everywhere. Error messages are enumerated, one constructor per error the code
can return. Storage calls succeed; where that matters it is said below.

Three readings of the code differ from a first guess and decide how the results are stated. Versions are
per target key, and a key is only lower-cased, never parsed, so version claims are per key and not per record
(`crates/federate-mutation/src/request.rs:155-175`). A domain record issued by an operator keeps the label it came
with, so a zone key may hold upper case (`crates/federate-mutation/src/store.rs:654`). A markdown list item whose text
holds a line or paragraph separator keeps the renderer at its line for ever
(`sites/federate-network/fed-md.js:122`, `:225`); the model returns "no result" there, and says exactly which texts these are.

## Model

| member | source | states |
|---|---|---|
| TrustProofs.ChainOfTrust | crates/federate-mutation/src/store.rs:378-486 | in every reachable registry the zone and every TLD record verify under the root key, every TLD and domain record sits under its own name, every TLD name is one the rules accept, every domain's TLD exists and the record verifies under that TLD's current operator key, every stored registry verifies, and the zone is structurally valid although `apply` never checks it |
| TrustProofs.PointersAgree | crates/federate-mutation/src/store.rs:446-451 | whenever a TLD pins a registry hash, the stored registry bytes and the manifest store hold exactly that content, in memory and on disk; every stored registry is pinned |
| TrustProofs.RegistryVersionsRise | crates/federate-mutation/src/store.rs:900-911 | over any run a stored delegated registry is only ever replaced by one of a strictly higher version |
| TrustProofs.AcceptanceRaisesVersion | crates/federate-mutation/src/store.rs:405-408 | each acceptance raises the zone version exactly while it is below the u64 maximum; without an acceptance the zone does not change |
| Invariant.AcceptedUnderRoot | crates/federate-mutation/src/store.rs:420-422 | a mutation is accepted only in a context that holds the registry's own root key |
| Invariant.AcceptKeepsTrust | crates/federate-mutation/src/store.rs:490-922 | any accepted mutation keeps the whole chain of trust, for all eleven actions |
| Invariant.AcceptKeepsPins | crates/federate-mutation/src/store.rs:878-920 | any accepted mutation keeps pinned hashes, stored registries and manifest store in agreement |
| ChangeProofs.ActionIsOneChange | crates/federate-mutation/src/store.rs:490-922 | every accepted action, on a trusted registry, is exactly one of: one domain record put with authority over the one it replaces, one TLD added by root, one TLD replaced with the same owner, operator and registry type, its other terms by root only |
| RestartProofs.RunKeepsInv | crates/federate-mutation/src/store.rs:378-486 | over every run the registry invariant holds: chain of trust, pins, content addressing, verified audit log, and tables and files that mirror the memory |
| RestartProofs.RestartIsNoOp | crates/federate-mutation/src/store.rs:137-223 | after any run, with storage calls succeeding, `open` succeeds exactly under the root key, rebuilds the same zone, registries, manifests, history, audit log and target versions, changes nothing on disk, and `verify_all` passes |
| RestartProofs.InvVerifiesAll | crates/federate-mutation/src/store.rs:313-345 | `verify_all` passes on every state of the invariant, the table mirror check included |
| HistoryProofs.RunKeepsHistory | crates/federate-mutation/src/store.rs:404-462 | over every run, restarts included: the audit log is a gap-free hash chain from the initial zone to the current one, events and accepted mutations are in bijection, each target key's version is the maximum accepted for it, and the zone embeds exactly the newest 200 trail entries |
| HistoryProofs.RunGrows | crates/federate-mutation/src/store.rs:405-462 | any later state has grown from any earlier one: zone and target versions never fall, no TLD or domain vanishes, a TLD keeps owner, operator and registry type, history and log are append-only, and stored zone versions are append-only below the u64 maximum |
| HistoryProofs.NeverAcceptedTwice | crates/federate-mutation/src/store.rs:381-395 | no mutation id, and no version a target key has reached, is ever accepted again at any later point of any run |
| HistoryProofs.StaleIsRefused | crates/federate-mutation/src/store.rs:381-395 | a seen id or a version already reached is refused in any state whose indexes are maxima |
| HistoryProofs.StepUnfolds | crates/federate-server/src/main.rs:627-681 | every step of a run either leaves the registry alone or commits exactly one accepted mutation, whole |
| AuthorityProofs.StepAuthority | crates/federate-mutation/src/store.rs:537-549 | a step that changes a domain record carries a valid envelope of someone with authority over the record as it stood before |
| AuthorityProofs.StepTouchesOneRecord | crates/federate-mutation/src/store.rs:490-922 | every step changes at most one record of the zone |
| AuthorityProofs.ChangeNeedsAuthority | crates/federate-mutation/src/store.rs:537-670 | if a domain record differs after any run, some step in between was signed by the record's then owner, its TLD's operator or root |
| AuthorityProofs.SuspensionHolds | crates/federate-mutation/src/store.rs:603-619 | over any run a record leaves Suspended only by a step signed by its TLD's operator or root |
| AuthorityProofs.RevocationHolds | crates/federate-mutation/src/store.rs:1146-1157 | over any run a record leaves Revoked only by a step signed by root |
| AuthorityProofs.LeaseHolds | crates/federate-mutation/src/store.rs:535-673 | over any run a record's owner key, first date and lease change only by a step signed by its TLD's operator, so an owner can publish but never extend or hand over the name |
| AuthorityProofs.ContentHolds | crates/federate-mutation/src/store.rs:502-673 | over any run the manifest a name points at changes only by a step signed by its owner or its TLD's operator; root alone never replaces content |
| AuthorityProofs.TldTermsHold | crates/federate-mutation/src/store.rs:819-920 | over any run everything in a TLD record but its pinned registry, update date and signature changes only by a step signed by root |
| NonceProofs.PruningShowsExactly | crates/federate-mutation/src/redb_backend.rs:278-311 | the pruning table and a table that never prunes answer differently about a nonce exactly when it is still live and an issue since its own was dated more than a lifetime past its expiry, for any history and any clock |
| NonceProofs.PruningIsInvisible | crates/federate-mutation/src/redb_backend.rs:278-311 | pruning never changes an answer about a time that no issue is dated more than a lifetime after, however the clock runs in between |
| NonceProofs.PruningShowsWhenClockRunsBack | crates/federate-mutation/src/redb_backend.rs:278-297 | the condition is needed: a concrete history in which the two tables differ |
| NonceProofs.RunNonces | crates/federate-mutation/src/redb_backend.rs:278-311 | whatever else a run does, restarts included, the table on disk holds exactly the issued, unpruned, unspent nonces |
| NonceProofs.LandsBeforeExpiry | crates/federate-server/src/main.rs:627-681 | every accepted online mutation carries a nonce issued less than its lifetime before and presented by nobody in between |
| NonceProofs.LandedWithinIssued | crates/federate-server/src/main.rs:627-681 | over any run the acceptances of a nonce are at most its issues, fewer while it is still unspent |
| NonceProofs.NonceAdmitsOne | crates/federate-server/src/main.rs:627-701 | a nonce issued once admits at most one online mutation, across restarts |
| WorkingCopy.WorkingZone.ApplyTo | crates/federate-mutation/src/store.rs:490-922 | the in-place edit of the zone copy equals the action's effect: same role, same new registry, same resulting zone, same error, and an untouched copy on error |
| Store.RegistryStore.Apply | crates/federate-mutation/src/store.rs:378-486 | `apply` decides as specified and, when it accepts, leaves exactly the specified memory, tables and files; otherwise everything is untouched |
| Store.RegistryStore.Land | crates/federate-mutation/src/store.rs:444-486 | the commit half: memory, one transaction, snapshot |
| Store.RegistryStore.Open | crates/federate-mutation/src/store.rs:137-223 | `open` accepts exactly the directories that pass all its checks, rebuilds the specified memory and touches nothing on disk |
| Store.RegistryStore.LoadRegistries | crates/federate-mutation/src/store.rs:176-187 | stored registries load exactly when every row parses, has its TLD and verifies under the TLD's operator |
| Store.RegistryStore.InitEmptyRegistry | crates/federate-mutation/src/seed.rs:71-105 | first initialisation is refused where a registry exists, and otherwise leaves the specified empty registry in memory and on disk |
| Store.RegistryStore.StoreBlocks | crates/federate-mutation/src/store.rs:353-359 | blocks are verified as they are written; the first bad one stops the loop |
| Store.RegistryStore.StoreManifest | crates/federate-mutation/src/store.rs:361-364 | only content that hashes to its address is stored |
| Store.RegistryStore.IssueNonce | crates/federate-mutation/src/store.rs:957-965 | a challenge is reserved for its lifetime |
| Store.RegistryStore.RunOnline | crates/federate-server/src/main.rs:627-681 | the online path consumes the nonce, then stores content, then applies, and succeeds only with a live nonce |
| Store.RegistryStore.VerifyTables | crates/federate-mutation/src/store.rs:982-1010 | true exactly when the record tables mirror the signed zone |
| Store.RegistryStore.VerifyAll | crates/federate-mutation/src/store.rs:313-345 | true exactly when zone, registries, content, audit log and tables all verify |
| RedbBackend.RedbRegistryStore.WriteRecordTables | crates/federate-mutation/src/redb_backend.rs:137-155 | the record tables are rebuilt from the given records, each under its own name |
| RedbBackend.RedbRegistryStore.NextAuditSeq | crates/federate-mutation/src/redb_backend.rs:180-189 | one past the highest audit row |
| RedbBackend.RedbRegistryStore.CommitInitial | crates/federate-mutation/src/redb_backend.rs:391-408 | the first transaction, table by table |
| RedbBackend.RedbRegistryStore.CommitMutation | crates/federate-mutation/src/redb_backend.rs:410-445 | the mutation transaction, table by table |
| RedbBackend.RedbRegistryStore.ReserveNonce | crates/federate-mutation/src/redb_backend.rs:278-297 | inserts the challenge and drops exactly the long-expired ones |
| RedbBackend.RedbRegistryStore.ConsumeNonce | crates/federate-mutation/src/redb_backend.rs:299-311 | true exactly for a live challenge, which is gone afterwards either way |
| RedbBackend.RedbRegistryStore.ListAuditEvents | crates/federate-mutation/src/redb_backend.rs:267-276 | the rows in number order |
| DbTables.TableMirrors | crates/federate-mutation/src/redb_backend.rs:137-155 | writing the values of a map of well-named records and keying them by name gives the map back |
| DbTables.RowsAppend | crates/federate-mutation/src/redb_backend.rs:433-438 | a row put at the next number is read back last, after all earlier rows in order |
| Requests.DecodePackage | crates/federate-mutation/src/request.rs:318-349 | accepts exactly the packages that decode: every block hex, within the caps, hashing to its address, and a publish action naming the manifest's hash |
| Requests.FinalizedAuditVerifies | crates/federate-mutation/src/audit.rs:41-81 | a finalized audit record verifies under the key that finalized it |
| Seed.SignedRequestVerifies | crates/federate-mutation/src/request.rs:206-228 | an envelope built in one step is accepted by `verify` |
| Seed.RootCreatesTld | crates/federate-mutation/src/store.rs:735-772 | on any trusted registry a fresh root envelope that creates a free, unlisted, well-formed TLD is accepted |
| Seed.ApplySeed | crates/federate-mutation/src/seed.rs:113-174 | the seed loop leaves exactly the specified registry and outcome |
| Seed.SeedOnlyAdds | crates/federate-mutation/src/seed.rs:113-174 | a seed run, whether or not it ends in an error, overwrites nothing and keeps the registry invariant; on success every named TLD exists |
| Seed.ReseedIsNoOp | crates/federate-mutation/src/seed.rs:113-174 | once a file went through, forcing it again changes nothing and creates nothing, and without force it is refused |
| ResolverEngine.Resolver.constructor | crates/federate-resolution/src/lib.rs:132-163 | a client starts with the configured anchor, else the persisted one, and no memory |
| ResolverEngine.Resolver.VerifyRootZone | crates/federate-resolution/src/lib.rs:200-215 | against the anchor, or trust on first use |
| ResolverEngine.Resolver.LastVerifiedZone | crates/federate-resolution/src/lib.rs:219-226 | memory, else a cached zone that verifies |
| ResolverEngine.Resolver.FetchRootNetwork | crates/federate-resolution/src/lib.rs:233-277 | the first structurally valid native answer, else the HTTP answer |
| ResolverEngine.Resolver.RefreshRootZone | crates/federate-resolution/src/lib.rs:281-330 | one refresh as one atomic step: adopt, keep something newer, or fall back to the cache |
| ResolverEngine.Resolver.GetManifestBytes | crates/federate-resolution/src/lib.rs:345-383 | cached bytes that still hash, else the first good answer, with tampered entries evicted |
| ResolverEngine.Resolver.FetchRegistryLive | crates/federate-resolution/src/lib.rs:588-647 | providers in turn until a decisive answer: a verified registry or a forgery |
| ResolverEngine.Resolver.GetRegistry | crates/federate-resolution/src/lib.rs:481-570 | the registry of a delegated TLD by mode, with rollback guard and fail-closed rules |
| ResolverEngine.Resolver.GetBlock | crates/federate-resolution/src/lib.rs:747-862 | cache, native providers, HTTP providers, origin; only bytes that hash |
| ResolverEngine.Resolver.ResolveHost | crates/federate-resolution/src/lib.rs:987-1217 | the whole resolution: outcome, new memory and new cache |
| SoundnessProofs.ContentIsSound | crates/federate-resolution/src/lib.rs:987-1217 | for arbitrary answers and arbitrary cache contents, content is returned only for the parsed name and asked path and with the complete chain: zone under the anchor, root-signed live TLD, operator-signed live record of that TLD from the right registry, manifest hashing to the record and owner-signed for this name, bytes hashing to the manifest's entry |
| RollbackProofs.RunServesOnlyChained | crates/federate-resolution/src/lib.rs:987-1217 | the same over whole runs with a configured anchor, restarts and a rewritten cache directory included, always under that anchor |
| SoundnessProofs.LocatedIsBacked | crates/federate-resolution/src/lib.rs:430-464 | a located record comes from the signed zone, the pinned registry or a verified registry, by registry type |
| SoundnessProofs.ManifestObtainable | crates/federate-resolution/src/lib.rs:345-383 | manifest bytes are had exactly when the cache or at least one asked source holds good bytes |
| SoundnessProofs.BlockObtainable | crates/federate-resolution/src/lib.rs:747-862 | the same for blocks |
| RollbackProofs.NoRollback | crates/federate-resolution/src/lib.rs:281-338 | with a fixed anchor, over any sequence of refreshes, resolutions, failures, crashes and restarts, a root zone handed out later is never older than one handed out before, and both verify |
| RollbackProofs.MemoryIsDisk | crates/federate-resolution/src/lib.rs:281-330 | after every step of such a run the zone in memory is the one in the disk cache |
| RollbackProofs.RefreshHolds | crates/federate-resolution/src/lib.rs:281-330 | one refresh, whatever is answered, keeps anchor and memory-disk agreement and never lowers the vouched version |
| RollbackProofs.ConfiguredAnchors | crates/federate-resolution/src/lib.rs:132-163 | a configured anchor is fixed whatever the cache directory contains |
| RollbackProofs.FirstUseAnchors | crates/federate-resolution/src/lib.rs:200-215 | trust on first use fixes the anchor exactly when the pinned key is not empty and has no white space around it |
| RegistryRollbackProofs.RewindExactly | crates/federate-resolution/src/lib.rs:524-563 | for any TLD records asked about in a row, some contents of the cache and some answers make the client hand out an older live registry than before exactly when the TLD's name has no cache file, or a record in between shares its file under another name or operator before a later call fetches again |
| RegistryRollbackProofs.RegistriesNeverRewind | crates/federate-resolution/src/lib.rs:524-563 | while no call in between takes over the cache file, live registry versions returned never decrease, whatever is answered, and every returned registry verifies |
| RegistryRollbackProofs.ResolutionsNeverRewind | crates/federate-resolution/src/lib.rs:987-1217 | the same over whole runs of the client: refreshes, resolutions and reboots in between included |
| RegistryRollbackProofs.SharedPath | crates/federate-resolution/src/lib.rs:698-702 | the condition is needed: two names that differ in case share one cache file |
| DelegationProofs.ServerZonesNeverRewind | crates/federate-resolution/src/lib.rs:698-732 | a client that works in zones of one registry, of whatever times, never needs the condition: live registry versions of a TLD never decrease there |
| DelegationProofs.ServerRecordsSpare | crates/federate-mutation/src/store.rs:675-920 | of all TLD records one registry ever published, two share a cache file only when TLD and operator are the same |
| RegistryRollbackProofs.ForgeryIsFinal | crates/federate-resolution/src/lib.rs:588-647 | a forged answer the fetch reaches, from a provider or from the HTTP endpoint, ends in an error and leaves no trace in the cache |
| PublishResolveProofs.PublishThenResolve | crates/federate-mutation/src/store.rs:502-589 | if a publish was accepted and its record is unchanged, a client anchored at the root key holding the zone of the day, with TLD and lease live and manifest and page obtainable, gets exactly bytes with the hash the published manifest gives for the path, or learns that it has no such path; never a security failure and never a missing domain |
| PublishResolveProofs.PublicationLands | crates/federate-mutation/src/store.rs:502-589 | an accepted publish leaves a live record of the official operator naming a stored manifest its owner signed for exactly this name |
| PublishResolveProofs.ServesPublished | crates/federate-resolution/src/lib.rs:1140-1217 | the last client steps deliver any named, valid and obtainable manifest |
| Naming.ParseDomainExactly | crates/federate-naming/src/lib.rs:219-235 | a host is accepted, and as this name, exactly when up to its port and in lower case it is a label and a TLD around one dot, both legal once outer white space is gone |
| Naming.ParseFqdn | crates/federate-naming/src/lib.rs:219-235 | a canonical name parses back to itself |
| Naming.AcceptedLabelHasNoDot | crates/federate-naming/src/lib.rs:186-206 | a label the rules accept holds no dot even before it is normalised |
| Naming.FqdnSplitsUniquely | crates/federate-naming/src/lib.rs:306-324 | without dots in labels a full name has one reading only |
| Root.VerifyZone | crates/federate-root/src/lib.rs:151-174 | succeeds exactly when anchor, zone signature and every TLD signature hold; fails only with a verification error |
| Root.VerifyRegistry | crates/federate-registry/src/lib.rs:67-101 | succeeds exactly when TLD, operator, signature and every entry's name and TLD hold |
| Manifests.VerifyManifest | crates/federate-manifest/src/lib.rs:39-60 | succeeds exactly when name, owner and signature hold |
| Manifests.ResolvePath | crates/federate-manifest/src/lib.rs:79-91 | a resolved path is a listed candidate with its hash; no result means no candidate is listed |
| Records.AddressNamesContent | crates/federate-storage/src/lib.rs:28-43 | under the address computed from some bytes the check passes those bytes and no others |
| SoundnessProofs.ClientsAgree | crates/federate-resolution/src/lib.rs:345-383 | clients that get bytes for one address get the same bytes, whatever their caches and sources |
| Canonical.BytesAreCanonical | crates/federate-core/src/lib.rs:127-162 | two JSON values have equal canonical bytes exactly when they are the same value with objects read as maps |
| Canonical.ReadsBack | crates/federate-core/src/lib.rs:134-162 | canonical text followed by anything that may follow it reads back as one value only |
| Canonical.SameText | crates/federate-core/src/lib.rs:134-162 | the order in which fields were given does not matter |
| Canonical.StringUnique | crates/federate-core/src/lib.rs:145-160 | string literals escaped as in section 7 of RFC 8259 are unambiguous up to their closing quote |
| Canonical.NumberReadsBack | crates/federate-core/src/lib.rs:160 | printed numbers are unambiguous up to what may follow a value |
| Unicode.Utf8Unique | crates/federate-core/src/lib.rs:127-132 | UTF-8 text has one reading |
| Canonical.WriteCanonical | crates/federate-core/src/lib.rs:134-162 | the recursive writer appends exactly the canonical bytes to the shared buffer and touches nothing before them |
| Ordering.SortKeys | crates/federate-core/src/lib.rs:137-138 | sorting visits keys in any order and ends in the one sorted order |
| Ordering.SortedUnique | crates/federate-core/src/lib.rs:137-138 | two strictly sorted sequences of the same keys are equal |
| SignedDocuments.SignatureCoversEverything | crates/federate-naming/src/lib.rs:298-302 | for TLD, domain, manifest, registry, zone, mutation and audit documents, equal signable bytes mean the same kind of document, equal in every field but the signature, free-form JSON fields read as maps; so no signature on one kind passes for another, although nothing tags the kind |
| SignedDocuments.BytesDetermine | crates/federate-core/src/lib.rs:127-132 | documents with equal canonical bytes are the same document, kind included |
| SignedDocuments.ActionAgrees | crates/federate-mutation/src/request.rs:71-133 | tagged actions with the same JSON are the same action |
| Dns.Parse | crates/federate-dns/src/wire.rs:37-80 | the cursor loop reads the question as specified, each label made text, in bounds and finite on any octets |
| Dns.BuildQuery | crates/federate-dns/src/wire.rs:135-150 | the query octets, label by label |
| Dns.BuildResponse | crates/federate-dns/src/wire.rs:102-127 | the response octets, record by record |
| Dns.ParseAnswers | crates/federate-dns/src/wire.rs:153-202 | the answer loops read the records as specified, in bounds and finite on any octets |
| Dns.QueryRoundTrip | crates/federate-dns/src/wire.rs:37-150 | a query built for any text parses back to its id, name and type exactly when every label has 1 to 63 octets of UTF-8, or the name is empty and the type 0, replacement of broken UTF-8 included |
| Dns.ResponseRoundTrip | crates/federate-dns/src/wire.rs:102-202 | for any parsed query the answers of the response are the given addresses in order with the TTL; past 65535 addresses, the count cut to sixteen bits |
| Dns.ServfailReads | crates/federate-dns/src/wire.rs:129-133 | a failure reply to any parsed query reads as code 2 without answers |
| Dns.ReplyFits | crates/federate-dns/src/lib.rs:28-33 | with a name of at most 255 octets and the capped answers the reply fits 512 octets |
| Uri.PrintedUriReadsBack | crates/federate-uri/src/lib.rs:40-129 | a parsed URI's printed form parses back to it exactly when it does not end in white space |
| Uri.HttpIsNative | crates/federate-uri/src/lib.rs:87-102 | for a bare host and an absolute path within the cap, without fragment or trailing white space, the gateway's translation equals parsing the joined native address, errors included |
| Uri.ParsedIsUri | crates/federate-uri/src/lib.rs:40-82 | what every parsed URI satisfies: legal name, absolute capped path, no `?` in the path, no `#` anywhere, no empty query |
| Cdn.CdnCache.Put | crates/federate-cdn/src/lib.rs:143-173 | whatever index was loaded, a put is one insertion and one correct eviction, from index and store alike, and writes the index out; it keeps index and store in agreement when they agreed |
| Cdn.CdnCache.Get | crates/federate-cdn/src/lib.rs:127-140 | a get returns verified bytes and changes at most the time of last use |
| Cdn.CdnCache.EvictInOrder | crates/federate-cdn/src/lib.rs:150-169 | the eviction loop on any index, missing block files included: the total stays the sum of kept sizes and never underflows; victims are least recently used, stop at the cap, spare the new block, and are no more than needed |
| Cdn.EvictionIsDetermined | crates/federate-cdn/src/lib.rs:150-169 | without equal times of last use a correct eviction has exactly one choice |
| Cdn.RunKeepsAgreement | crates/federate-cdn/src/lib.rs:84-173 | over any run of gets, puts and restarts the index in memory and the one on disk both hold exactly the stored hashes with true sizes |
| Cdn.TornPut | crates/federate-cdn/src/lib.rs:143-173 | after a crash between writing a block and writing the index, the two agree again exactly when the index knew the hash before |
| Cdn.PutRestoresCap | crates/federate-cdn/src/lib.rs:143-173 | whatever the index said, after a put it is within the cap or names the new block alone |
| Cdn.RunStaysWithinCap | crates/federate-cdn/src/lib.rs:84-173 | over any run with restarts the cache is within its cap or holds a single block |
| Cdn.BlockStore.Get | crates/federate-storage/src/lib.rs:73-81 | succeeds exactly for stored bytes that still hash to their address |
| Cdn.BlockStore.Put | crates/federate-storage/src/lib.rs:84-95 | stores exactly the bytes that hash to the address |
| Cdn.BlockStore.Remove | crates/federate-storage/src/lib.rs:98-103 | removes exactly a stored well-formed address |
| Html.AnglesAreTags | sites/federate-network/fed-md.js:25-32 | in printed markup every `<` is the first character of a tag of the renderer's own vocabulary |
| MarkdownProofs.RenderedIsWellNested | sites/federate-network/fed-md.js:103-235 | whatever the text, rendered output is well-nested and every `<` in it begins one of the renderer's tags |
| MarkdownProofs.NestedListStaysInside | sites/federate-network/fed-md.js:118-150 | a nested list, although parsed out of the whole text, never consumes a line past its parent item |
| MarkdownTermination.RenderHangs | sites/federate-network/fed-md.js:152-234 | `render` has no result exactly when its block loop meets, in the text or in a quotation, a line that passes the guards of the list branch and has a separator in its item text |
| MarkdownTermination.StuckExactly | sites/federate-network/fed-md.js:152-234 | the loop stays at a line exactly when the line is not blank, fence, heading, rule, quotation or table head, has a list marker, and has U+2028 or U+2029 behind it |
| MarkdownTermination.LoneLineHangs | sites/federate-network/fed-md.js:152-234 | a text of one line has no result exactly when that line without its quote marks is such a line |
| MarkdownTermination.HarmlessLinesReturn | sites/federate-network/fed-md.js:103-235 | text none of whose lines, taken alone and without quote marks, has a list marker with a separator behind it is always rendered |
| MarkdownTermination.FreeTextReturns | sites/federate-network/fed-md.js:103-235 | text free of U+2028 and U+2029 is always rendered |
| MarkdownTermination.SeparatorInItemHangs | sites/federate-network/fed-md.js:118-126 | the condition is needed: one list item with U+2028 in its text is never rendered |
| Markdown.StuckIffSeparator | sites/federate-network/fed-md.js:118-126 | a list consumes no line exactly when its first item's content holds a separator |
| MarkdownProofs.RenderedLinksAreSafe | sites/federate-network/fed-md.js:35-77 | whatever the text, every link and image destination in the rendered output has one of the allowed forms |
| MarkdownProofs.MarkedWord | sites/federate-network/fed-md.js:78-93 | a word between `**`, `__`, `*`, `_` or `~~` becomes that element around its own rendering, and the text goes on behind it |
| MarkdownProofs.PlainTextIsKept | sites/federate-network/fed-md.js:94-96 | text without markdown characters comes out as itself, escaped |
| MarkdownProofs.RejoinedLines | sites/federate-network/fed-md.js:192-199 | rendering a quotation's joined text is rendering its lines |
| MarkdownRenderer.RenderInline | sites/federate-network/fed-md.js:45-99 | the inline loop yields the specified markup and ends |
| MarkdownRenderer.ParseList | sites/federate-network/fed-md.js:118-150 | the list loop with its recursion yields the specified markup and next line |
| MarkdownRenderer.RenderLines | sites/federate-network/fed-md.js:152-234 | the block loop yields the specified markup, or reports that it would not end |
| MarkdownRenderer.RenderText | sites/federate-network/fed-md.js:103-235 | `render` yields the specified markup for the whole text, or reports that it would not end |

## Left out

- Storage failures: `apply` changes memory before the transaction, so after a failed storage call memory and disk disagree; the results assume that storage calls succeed, and a transaction is one atomic step.
- Interleavings of two refreshes: comparing and storing take separate locks; one refresh is modelled as one step.
- Sockets, HTTP handlers, timeouts, semaphores and size limits on downloads: the model has the answers they may deliver, errors included.
- Ed25519, BLAKE3, redb, serde parsing and RFC 3339: abstract fields of `Records.World`; canonicalisation is total there, which matters because the resolver lets any error but a verification failure fall through.
- Content addresses as 64 lower-case hex digits: `isHash` stays abstract (see Conventions).
- `String::from_utf8_lossy`: a parameter that leaves UTF-8 text alone; what it puts for broken text is not modelled.
- The DNS server around the wire format: it caps answers at eight and answers SERVFAIL without gateways; the reply-size result takes the cap as a hypothesis.
- Canonical.WriteCanonical: float values are their printed text; the shortest-digits printing of doubles is not modelled.
- Hypotheses of the client's rollback results: cache writes succeed, and only the client changes the cache directory (`RunServesOnlyChained` covers a rewritten one).
- Randomness of challenges: that a challenge is issued once is a hypothesis on the run.
- MarkdownProofs.RenderedIsWellNested: output is a token list with its printed form; the script concatenates strings directly. Text is a sequence of code points, not UTF-16 units.
- Security-failure subjects and reasons, error message texts, MIME types and traces: presentation.
- The legacy JSON migration, backup and restore, and `init` with content already in place: the restart result with file copying added.
- Wrap-around of audit row numbers and of the cache's size sum at 2^64: row numbers and sums are unbounded.
- Blocklist policy over whole runs: root may reserve a listed name and later change its status, so "never resolvable" is not what the code states.
- Node directory, provider ranking, search, protocol negotiation, command line, local certificate authority and daemons: no part of this model.
