# Verified models of the TES3MP content and capture tooling

This project models the parts of the repository's Python tooling whose correctness is not
visible from any one function, and proves what they promise.

* **Content baker** (`scripts/bake_tes3mp_content.py`). It reads nested TES3 records, checks
  master order, normalises catalogs, hashes a framed canonical form into a manifest, rewrites
  the server configuration, and publishes immutable packs behind a `CURRENT` pointer.
  Modules `Tes3Framing`, `Tes3Scanner`, `MasterOrder`, `Catalog`, `StartingItems`,
  `ServerConfig`, `ConfigRoundTrip`, `ManifestFraming`, `Manifest`, `ManifestMeaning`,
  `ConfigSkeleton`, `PackTree`, `PackContents`, `ScriptPackages`,
  `RecordIds`, `Publication`, `PublicationProofs`, `PublicationRuns`.
* **UDP impairment relay** (`scripts/run_phase12_movement_capture.py` and the schedule of
  `scripts/run_native_navigation_capture.py`). Modules `Impairment`, `RelaySpec`,
  `RelayProofs`, `RelayJournal`, `Relay`.
* **Schema evolution policy** (`scripts/run_vnext_flatbuffers_proof.py`). Modules
  `SchemaPolicy`, `SchemaEvolution`.
* **Incremental log readers** of the capture scripts. Modules `LogReaders`, `LogCaches`.
* **Trace checkers** for two observers of committed state. Modules `SwingTrace`,
  `KnockoutTrace`, `KnockoutSegments`.

`Bytes`, `Seqs`, `Sorting` and `Text` hold the byte, sequence, sorting and string functions
these share. Loops and objects of the program are methods and classes here; each is proved
equal to a function or predicate stated without the loop, and the main theorems are about
those.

Python facilities without logic of their own are parameters: SHA-256, JSON, UTF-8, cp1252,
case folding, `str.lower` and file-name tests. A theorem that mentions one holds for every
choice of it, except where its contract names a condition (UTF-8 injective, cp1252 encoding
undoing decoding). Clocks and the selector's results are inputs of a run. Times are integers in
units of 0.1 ms.

## Where the code does less than it seems to promise

* A comment at `scripts/bake_tes3mp_content.py:1217-1219` says prior starting items are never
  accepted as catalog input. Records are stripped by their first word but lines only by the
  prefix `starting_item` and one space. A line with a tab after the word leaves the records
  and stays in the text (`StartingItems.TabbedItemIsStray`).
  `StartingItems.RecordsMatchTextExactly` shows that the text and the records agree exactly
  when there is no such line.
* `parse_schema` keeps only the last of two fields with the same name, so the first may be
  dropped and its slot reused (`SchemaEvolution.ShadowedFieldIsLost`).
  `SchemaEvolution.KeptExactlyWhenDistinct` shows that the policy protects every field exactly
  when the names are distinct.
* The knockout checker compares one value of each observer per tick, so a second, different
  sighting is never looked at (`KnockoutTrace.SecondSightingIsUnchecked`).
  `KnockoutTrace.AgreementExactly` gives the missing half.
* `records` and `samples` restart when a file shrinks below the offset, and `Evidence.rows`
  never restarts. None of them notices a log that was cut back and grown past the offset
  between two reads (`LogCaches.RegrownLogIsStale`). `LogReaders.ResumedExactly` and
  `LogCaches.ReadExactly` show exactly when going on from the offset is right for a reader
  that had caught up: the file's complete lines must be those read before and those past the
  offset. A reader that raised keeps the rows before the line that failed, so if that line is
  rewritten they come twice; `LogReaders.RaisedReadExactly` shows exactly when they do not.
* A bake's error handler removes its temporary directory by name even after renaming it away.
  If that name is given to a second bake meanwhile, the handler can empty the second bake's
  directory and `CURRENT` ends up naming an empty pack
  (`PublicationRuns.ReusedNameEmptiesPack`, reachable by `PublicationRuns.NameGetsReused`).
  `PublicationRuns.NameReuseExactly` shows that giving out a name is safe exactly when no
  unfinished bake still holds it, and `PublicationProofs.PublicationSafety` covers every run
  in which that is so.
* The baker tests content names by the path rules of its host, pack verification by those of
  Windows, so a POSIX host bakes `C:mod.esp` into a pack that verification refuses
  (`MasterOrder.DriveNameIsRefused`). `MasterOrder.BakedLoadoutVerifies` shows that this is
  the only way the content table of a baked pack is refused.
* A manifest does not cover everything in a pack, so two bakes with the same manifest can
  differ in bytes, and the second is refused as a collision.
  `PackTree.SameManifestSameTreeExactly` lists exactly what they must share besides.
* Nothing stops a catalog file from being called `server.cfg`. It is then written over the
  rendered configuration; `PackTree.ConfigIsKeptExactly` shows that this is the only way the
  configuration is lost.

## Model

| member | source | states |
|---|---|---|
| `PublicationProofs.PublicationSafety` | scripts/bake_tes3mp_content.py:1720-1775 | over every interleaving of any number of bakes, each stopping or failing anywhere, on any initial output root: `CURRENT` is untouched or names the whole pack of one bake, a finished bake's pack is in place whole, and no non-empty pack seen at one point of a run has changed at a later one |
| `PublicationProofs.RunKeepsInv` | scripts/bake_tes3mp_content.py:1720-1775 | the invariant behind it (each bake's directory, pointer file and pack match its phase, no two bakes share a name, `CURRENT` names a whole pack) holds along every run |
| `PublicationProofs.StepKeepsInv` | scripts/bake_tes3mp_content.py:1725-1775 | every single effect of any bake keeps that invariant and every published pack |
| `PublicationProofs.BystanderKept` | scripts/bake_tes3mp_content.py:1725-1775 | a step of one bake leaves what every other bake relies on intact and shares no name with it |
| `PublicationProofs.CurrentRecordsItsManifest` | scripts/bake_tes3mp_content.py:1742-1769 | `CURRENT` that is absent, or names a pack whose metadata records that same manifest, stays so at every point of every run |
| `PublicationProofs.CollisionNeverPublishes` | scripts/bake_tes3mp_content.py:1753-1759 | a bake whose manifest is taken by a pack with other bytes never gets as far as replacing `CURRENT`; the taken pack stays as it is |
| `PublicationRuns.SoloBakeCompletes` | scripts/bake_tes3mp_content.py:1720-1771 | from any state left by other bakes, a bake scheduled alone whose manifest is free or already holds the same bytes reaches the end with exactly its pack and `CURRENT` in place and no leftover |
| `PublicationRuns.ReusedNameEmptiesPack` | scripts/bake_tes3mp_content.py:1720-1775 | from any state of any run, for any plans: if a bake whose manifest is free is given a temporary name that another unfinished bake still holds, a run from there ends with `CURRENT` naming an empty pack |
| `PublicationRuns.NameReuseExactly` | scripts/bake_tes3mp_content.py:1720-1775 | giving a bake a free temporary name keeps `CURRENT` naming a whole pack in every run from there if and only if no unfinished bake still holds that name |
| `PublicationRuns.NameGetsReused` | scripts/bake_tes3mp_content.py:1720-1775 | the unsafe case is reachable from any start with two bakes of different, free manifests |
| `PublicationRuns.PointerReuseExactly` | scripts/bake_tes3mp_content.py:1760-1770 | giving a bake a free name for its pointer file keeps `CURRENT` naming a whole pack in every run from there if and only if no bake is still to move a file of that name to `CURRENT` |
| `PublicationRuns.PointerGetsReused` | scripts/bake_tes3mp_content.py:1760-1770 | the unsafe case is reachable from any start with three bakes of different, free manifests, and `CURRENT` ends up empty |
| `PublicationRuns.OutputRoot.Publish` | scripts/bake_tes3mp_content.py:1720-1775 | run alone and without errors, publishing refuses exactly when the manifest's path exists with other contents, then leaves the root unchanged, and otherwise installs pack and `CURRENT` and removes every temporary |
| `PublicationRuns.OutputRoot.WriteAll` | scripts/bake_tes3mp_content.py:1739-1752 | the write loop leaves the directory contents that all writes in order give |
| `RelayProofs.RelaySafety` | scripts/run_phase12_movement_capture.py:92-152 | at every loop head of every error-free run, under any sequence of schedules: received = delivered + dropped + pending, at most 8 clients and 4096 pending packets, both client tables have the same keys, and every packet pending or sent belongs to a client connected through the same backend socket |
| `RelayProofs.RunKeepsInv` | scripts/run_phase12_movement_capture.py:103-152 | the full loop invariant (ordered queue, serials, sockets never shared, send log) holds along every run from any state that has it |
| `RelayProofs.ExpireKeepsInv` | scripts/run_phase12_movement_capture.py:105-117 | retiring idle clients keeps every remaining packet attached to a live client and counts every discarded one as dropped |
| `RelayProofs.DrainKeepsInv` | scripts/run_phase12_movement_capture.py:118-121 | sending keeps the invariant and leaves only packets due later than the clock |
| `RelayProofs.ReceiveKeepsInv` | scripts/run_phase12_movement_capture.py:123-152 | handling any ready key keeps the invariant, full table, lost packet and full queue included |
| `RelayProofs.RunKeepsTrace` | scripts/run_phase12_movement_capture.py:103-152 | under a nondecreasing clock every queued or sent packet has the due time its schedule gives at its position in its direction, and positions follow arrival |
| `RelayProofs.DeparturesOnTime` | scripts/run_phase12_movement_capture.py:118-152 | no packet leaves before its scheduled time, and that time is within the profile's minimum and maximum delay of when it was scheduled |
| `RelayProofs.DeparturesInOrder` | scripts/run_phase12_movement_capture.py:48-59 | two packets of a direction leave out of arrival order only under jitter, less than 40 ms apart, or under navigation, less than 175 ms apart |
| `RelayJournal.EveryDatagramIsAccounted` | scripts/run_phase12_movement_capture.py:103-152 | over every run, against the arrivals the inputs list: the packets accepted are, in order of arrival, exactly the datagrams admitted, kept by the schedule and met with room, with their bytes, destination, backend, due time and position; whatever is queued or was sent is one of them and only once; one that is neither belonged to a client silent for 30 s when an iteration began; received, reset and delayed counters count what they are named for |
| `RelayJournal.ClientsStay` | scripts/run_phase12_movement_capture.py:105-142 | over every run a client in the table was last heard of when the table says, and a client heard of is in the table unless it has since been silent for 30 s when an iteration began |
| `RelayJournal.SilentClientsGo` | scripts/run_phase12_movement_capture.py:105-121 | after the expiry and send phases no client of the table has been silent for 30 s |
| `Relay.UdpImpairmentRelay.constructor` | scripts/run_phase12_movement_capture.py:69-102 | a new relay is in the start state with a fresh schedule |
| `Relay.UdpImpairmentRelay.ExpireIdle` | scripts/run_phase12_movement_capture.py:105-117 | the in-place expiry equals the expiry of the specification, including the branch where nobody expires |
| `Relay.UdpImpairmentRelay.SendDue` | scripts/run_phase12_movement_capture.py:118-121 | the send loop equals draining the due packets in queue order |
| `Relay.UdpImpairmentRelay.Queue` | scripts/run_phase12_movement_capture.py:145-152 | the schedule is consulted once and the packet is dropped or queued as the whole history of that direction says |
| `Relay.UdpImpairmentRelay.FromListener` | scripts/run_phase12_movement_capture.py:129-152 | a client's datagram registers its address unless the table is full, notes the activity and is queued for its own backend |
| `Relay.UdpImpairmentRelay.FromBackend` | scripts/run_phase12_movement_capture.py:143-152 | a server's datagram is counted and queued for the client whose backend it arrived on |
| `Relay.UdpImpairmentRelay.HandleKey` | scripts/run_phase12_movement_capture.py:123-152 | one ready key has exactly the effect of the specification's step |
| `Relay.UdpImpairmentRelay.Loop` | scripts/run_phase12_movement_capture.py:103-152 | the object's loop ends in the state the specification's run gives |
| `Relay.UdpImpairmentRelay.Serve` | scripts/run_phase12_movement_capture.py:92-152 | the object keeps the loop invariant over a whole run |
| `Impairment.ImpairmentSchedule.Delivery` | scripts/run_phase12_movement_capture.py:48-59 | one call advances only its own direction and returns the due time the profile gives for the new count |
| `Impairment.OutcomeExactly` | scripts/run_phase12_movement_capture.py:48-59 | what becomes of packet k of a direction, in closed form from its number and the clock readings: drops at multiples of 20 or 10, alternating delays of 45 and 5 ms, the stall that packet 40 starts, the navigation delays |
| `Impairment.DropCount` | scripts/run_native_navigation_capture.py:24-29 | of the first n packets of a direction loss drops exactly n/20 and navigation exactly n/10, rounded down, and the others none |
| `Impairment.DelayBounds` | scripts/run_phase12_movement_capture.py:48-59 | delays are at most 45 ms for jitter and 250 ms for stall and within 75 to 250 ms for navigation |
| `Impairment.OrderedProfiles` | scripts/run_phase12_movement_capture.py:48-59 | direct, loss and stall never schedule a later packet of a direction before an earlier one |
| `Impairment.BoundedReordering` | scripts/run_native_navigation_capture.py:24-29 | a later packet scheduled before an earlier one is under jitter or navigation and less than 40 ms or 175 ms behind it |
| `SchemaEvolution.EvolutionIsAppendOnly` | scripts/run_vnext_flatbuffers_proof.py:288-349 | if both versions parse and the policy accepts, every old table with distinct field names keeps each field, type, slot and discriminator slot, and every new field takes only slots at or past the old slot count |
| `SchemaEvolution.ChainIsAppendOnly` | scripts/run_vnext_flatbuffers_proof.py:341-349 | the same between any two versions of a chain checked pairwise |
| `SchemaEvolution.NoNewDiscriminator` | scripts/run_vnext_flatbuffers_proof.py:316-319 | no old field can become a union later, since its discriminator would need an owned slot |
| `SchemaEvolution.PolicyComposes` | scripts/run_vnext_flatbuffers_proof.py:341-349 | pairwise acceptance along a chain implies acceptance between any two members |
| `SchemaEvolution.KeptExactlyWhenDistinct` | scripts/run_vnext_flatbuffers_proof.py:320-349 | every accepted next version of a table, also with new unions, keeps all its fields and slots and grows only at the end if and only if the table's field names are distinct |
| `SchemaEvolution.ShadowedFieldIsLost` | scripts/run_vnext_flatbuffers_proof.py:320-349 | two concrete tables where a field is dropped and its slot reused, and both are accepted |
| `SchemaEvolution.MembersAreKept` | scripts/run_vnext_flatbuffers_proof.py:344-349 | between accepted versions every old enum or union with distinct member names is still declared with each member, text and value, and no new member takes an old value |
| `SchemaEvolution.MembersAreKeptInChain` | scripts/run_vnext_flatbuffers_proof.py:344-349 | the same between any two versions of a chain accepted pairwise |
| `SchemaEvolution.MembersKeptExactlyWhenDistinct` | scripts/run_vnext_flatbuffers_proof.py:325-334 | the policy protects every member of an enum or union against any next version if and only if its member names are distinct |
| `SchemaEvolution.AcceptedExactly` | scripts/run_vnext_flatbuffers_proof.py:344-349 | between texts that parse and repeat no name the policy accepts if and only if every old line of every block, with name, text and number, is still declared |
| `SchemaEvolution.VerifySchemaPolicy` | scripts/run_vnext_flatbuffers_proof.py:341-349 | accepts exactly when both texts parse and nothing old is removed or changed |
| `SchemaPolicy.ParseTable` | scripts/run_vnext_flatbuffers_proof.py:294-334 | a table is accepted exactly when explicit ids and discriminator slots are taken once each and fill 0..n-1; the entries map each name to its last declaration |
| `SchemaPolicy.TableOkExactly` | scripts/run_vnext_flatbuffers_proof.py:294-343 | a table is accepted if and only if its declared ids are distinct, each union field has a free id below its own, and no id is left out |
| `SchemaPolicy.OrderIndependent` | scripts/run_vnext_flatbuffers_proof.py:294-334 | acceptance of a table does not depend on the order of its declarations |
| `SchemaPolicy.OneOwner` | scripts/run_vnext_flatbuffers_proof.py:313-319 | in an accepted table every slot has one owner |
| `SchemaPolicy.ParseMembers` | scripts/run_vnext_flatbuffers_proof.py:321-330 | an enum or union is accepted exactly when every member matches and the values are distinct |
| `SchemaPolicy.ParseSchema` | scripts/run_vnext_flatbuffers_proof.py:281-339 | a schema is accepted exactly when it uses no forbidden word, has a block, repeats none and every block is accepted; the result holds exactly those blocks |
| `Tes3Framing.FramingBijection` | scripts/native_target_collision_capture.py:19-30 | printing and parsing are inverse bijections between record lists that fit and accepted blobs |
| `Tes3Framing.PrintedRecord` | scripts/native_target_collision_capture.py:68-69 | where the tag, payload length, two words and payload of a printed record lie |
| `Tes3Framing.RecordsPrintThenParse` | scripts/native_target_collision_capture.py:19-30 | any records within the size limits are read back from their print |
| `Tes3Framing.RecordsParseThenPrint` | scripts/native_target_collision_capture.py:68-69 | rebuilding the records of any accepted blob gives the identical bytes |
| `Tes3Framing.PartsPrintThenParse` | scripts/native_combat_families_capture.py:20-33 | any subrecords within the size limits are read back from their print |
| `Tes3Framing.PartsParseThenPrint` | scripts/native_combat_families_capture.py:20-33 | the subrecords of any accepted payload print to the identical bytes |
| `Tes3Framing.CapIsIrrelevant` | scripts/bake_tes3mp_content.py:441-442 | on inputs no longer than both caps the record size cap does not change the parse |
| `Tes3Framing.Subrecords` | scripts/native_combat_families_capture.py:20-29 | the offset loop returns the parse of the payload and refuses exactly the broken ones |
| `Tes3Framing.Records` | scripts/native_target_collision_capture.py:19-30 | the offset loop refuses over 4 MiB and otherwise returns the parse |
| `Tes3Framing.Rebuild` | scripts/native_target_collision_capture.py:68-69 | the growing buffer ends as the print of all records |
| `Tes3Scanner.RecordData` | scripts/bake_tes3mp_content.py:430-473 | the scanner yields exactly the named records of the framing's parse, in order, with first name, deletion mark and subrecords, and refuses exactly when the framing is broken or a tag or name cannot be decoded |
| `Tes3Scanner.ScanPayload` | scripts/bake_tes3mp_content.py:448-467 | the inner loop finds the subrecords, the first name and the deletion mark of a payload, and refuses exactly the unreadable ones |
| `Tes3Scanner.FirstNameMeans` | scripts/bake_tes3mp_content.py:463-465 | the name is that of the first NAME subrecord up to its NUL, and absent exactly when there is none |
| `Tes3Scanner.UpToNulMeans` | scripts/bake_tes3mp_content.py:456-462 | a raw name ends right before its first NUL, or at its end if there is none |
| `Tes3Scanner.RecordNameMeans` | scripts/bake_tes3mp_content.py:456-473 | a record is called by its first NAME up to the NUL; a skill or magic effect without one by the number in its only four-byte INDX; any other record has no name |
| `Tes3Scanner.NamedPicks` | scripts/bake_tes3mp_content.py:430-473 | exactly the records with a name are kept, each once and in file order |
| `Tes3Scanner.ScannerSeesFixtureRecords` | scripts/bake_tes3mp_content.py:430-473 | on inputs within the fixture budget the baker's scanner and the fixture reader see the same records |
| `Tes3Scanner.PrintThenScan` | scripts/bake_tes3mp_content.py:430-473 | scanning printed records gives exactly the named ones, or refuses exactly when one is unreadable |
| `MasterOrder.CheckersAgree` | scripts/bake_tes3mp_content.py:306-314 | on admissible entries with fold-distinct names and duplicate-free masters the position-map check and the earlier-set check accept the same loadouts, and each file then has fewer than 256 masters |
| `MasterOrder.MastersAreFew` | scripts/bake_tes3mp_content.py:1797-1814 | distinct masters that all come earlier are no more than the earlier files |
| `MasterOrder.NoDependencyCycle` | scripts/bake_tes3mp_content.py:306-314 | every dependency path of an accepted loadout strictly descends the load order |
| `MasterOrder.ValidateMasterOrder` | scripts/bake_tes3mp_content.py:306-314 | accepts exactly when every master names files that all come earlier; a missing-master error names a master no file has |
| `MasterOrder.VerifyContentMetadata` | scripts/bake_tes3mp_content.py:1778-1814 | the one-pass check accepts exactly the tables whose every entry is well-shaped, new, and has distinct earlier masters |
| `MasterOrder.VerifyMasters` | scripts/bake_tes3mp_content.py:1799-1813 | the master loop of one entry accepts exactly distinct, well-shaped masters of earlier files |
| `MasterOrder.Masters` | scripts/bake_tes3mp_content.py:258-303 | the header reader returns the MAST names in order, and refuses exactly broken headers, inadmissible names and repeated ones |
| `MasterOrder.MastersExactly` | scripts/bake_tes3mp_content.py:258-303 | a file has these masters if and only if it begins with a printed TES3 record within the size limit whose MAST names, admissible and different under folding, are these |
| `MasterOrder.MasterNamesPick` | scripts/bake_tes3mp_content.py:284-288 | the names are those of exactly the MAST subrecords, up to the NUL and in order |
| `MasterOrder.BakedLoadoutVerifies` | scripts/bake_tes3mp_content.py:317-357 | a loadout the baker accepts, with masters read from its files, passes pack verification exactly when every content name is also a bare name by Windows rules; order and table bounds never reject it |
| `MasterOrder.DriveNameIsRefused` | scripts/bake_tes3mp_content.py:334-335 | on a host that takes `C:mod.esp` for a bare name, that file is baked and then refused |
| `Catalog.RebakeFixpoint` | scripts/bake_tes3mp_content.py:360-383 | normalising a normalised catalog printed with any whitespace-free manifest gives back the same lines and records |
| `Catalog.OldManifestHasNoInfluence` | scripts/bake_tes3mp_content.py:1620-1624 | any two prints of a catalog read back alike, and as the source did |
| `Catalog.NormaliseIsNormal` | scripts/bake_tes3mp_content.py:360-383 | what normalising returns is unchanged by normalising, has one manifest record, and its records are those of its own lines |
| `Catalog.ReplacePrints` | scripts/bake_tes3mp_content.py:1620-1624 | when the placeholder occurs once, byte replacement changes the manifest record and nothing else |
| `Catalog.CatalogLines` | scripts/bake_tes3mp_content.py:360-383 | the line loop computes the normal form and refuses exactly a wrong header, a malformed manifest record, or a manifest count other than one |
| `Catalog.CommentGivesNothing` | scripts/bake_tes3mp_content.py:360-383 | blank lines and comments give no record and no manifest and keep their text but for trailing space |
| `Catalog.RecordsPick` | scripts/bake_tes3mp_content.py:360-383 | the records are the words of exactly the live lines that are not manifest lines, in order |
| `StartingItems.ItemsFixpoint` | scripts/bake_tes3mp_content.py:1217-1227 | stripping and re-appending the same starting items after reading back any print of the first result gives that result again, lines and records |
| `StartingItems.OldItemsHaveNoInfluence` | scripts/bake_tes3mp_content.py:1217-1227 | whatever items were written before, rewriting the catalog read back from any print gives what rewriting the first catalog gives, for any new items |
| `StartingItems.RereadRewrite` | scripts/bake_tes3mp_content.py:1217-1227 | a printed rewrite reads back as the same lines with the records those lines hold |
| `StartingItems.RecordsMatchTextExactly` | scripts/bake_tes3mp_content.py:1217-1227 | the rewritten text holds the rewritten records if and only if no line starts with the word `starting_item` without a space right after it |
| `StartingItems.TabbedItemIsStray` | scripts/bake_tes3mp_content.py:1220-1226 | a tab after the word is such a line |
| `StartingItems.RewriteItems` | scripts/bake_tes3mp_content.py:1217-1227 | the rewrite keeps the other lines and records in order and appends one line and one record per item |
| `Manifest.StreamInjective` | scripts/bake_tes3mp_content.py:1597-1617 | equal hashed streams cover the same loadout order, folded names, digests, configuration texts, sorted catalogs and sorted modules |
| `ManifestMeaning.ManifestMeansExactly` | scripts/bake_tes3mp_content.py:1575-1617 | two bakes hash the same stream if and only if they have the same loadout, the same value of every covered server key (presence for catalogs), the same single client values, the same client mappings, and the same catalogs and modules up to order |
| `ManifestMeaning.ServerTextExactly` | scripts/bake_tes3mp_content.py:1575-1585 | the canonical server text is the same if and only if every covered key has the same value, or presence for a catalog |
| `ManifestMeaning.ClientTextExactly` | scripts/bake_tes3mp_content.py:1588-1595 | the canonical client text is the same if and only if every single value and every mapping is the same |
| `PackTree.SameManifestSameTreeExactly` | scripts/bake_tes3mp_content.py:1720-1759 | two bakes with the same manifest and with file names that do not collide write the same pack if and only if they also agree on what the manifest does not cover: the server configuration lines and keys that rendering keeps, catalog output names, the spelling of module names, and the content table |
| `PackTree.SecondBakePublishesExactly` | scripts/bake_tes3mp_content.py:1753-1759 | so once one is published the other is refused as a collision exactly when they differ in one of those |
| `PackTree.SameClientConfig` | scripts/bake_tes3mp_content.py:1662-1681 | the client configuration shows nothing that the manifest does not cover |
| `PackTree.ConfigIsKeptExactly` | scripts/bake_tes3mp_content.py:1730-1741 | under the name checks the baker makes, a pack holds the server configuration rendered for it unless a catalog called `server.cfg` is written over it with other bytes |
| `PackTree.ManifestCoversTable` | scripts/bake_tes3mp_content.py:1609-1610 | bakes of one manifest load the same files in the same order, by folded name and digest |
| `PackContents.CatalogIsInPack` | scripts/bake_tes3mp_content.py:1734 | for every ready bake the file under each catalog's output name is the UTF-8 of a text that reads back as that catalog and whose one manifest record is the new manifest |
| `PackContents.ModuleIsInPack` | scripts/bake_tes3mp_content.py:1735-1738 | the file under each module's name is its data |
| `PackContents.ServerConfigIsInPack` | scripts/bake_tes3mp_content.py:1627-1659 | `server.cfg` parses, for every key, to the new manifest, the catalog's output name exactly once, the fixed path where the key was present, or the source's value |
| `PackContents.ClientConfigIsInPack` | scripts/bake_tes3mp_content.py:1662-1681 | `openmw.cfg` parses to the new manifest, the copied server values, the single client values and the sorted client mappings, in that order, and to nothing else |
| `PackContents.MetadataIsInPack` | scripts/bake_tes3mp_content.py:1739-1752 | `pack.json` records the manifest, the content table and the digest of every other file |
| `PackContents.NothingElseIsInPack` | scripts/bake_tes3mp_content.py:1730-1752 | the pack holds the two configurations, the catalogs, the modules and `pack.json`, and no other file |
| `ManifestFraming.PreimageInjective` | scripts/bake_tes3mp_content.py:1597-1607 | equal streams were built from the same entries |
| `ManifestFraming.FramesDecode` | scripts/bake_tes3mp_content.py:1602-1607 | the frames decode to the entries they were built from |
| `Manifest.OrderIsForgotten` | scripts/bake_tes3mp_content.py:1575-1617 | reordering server assignments, client lines, catalogs or modules changes nothing that is hashed, refusals included, given distinct catalog keys and module names |
| `Manifest.PlaceIsForgotten` | scripts/bake_tes3mp_content.py:1575-1585 | moving catalog files changes nothing that is hashed |
| `Manifest.ComputeManifest` | scripts/bake_tes3mp_content.py:1597-1617 | the hashing loops feed exactly the framed canonical stream and refuse exactly when a configuration is refused |
| `Manifest.MappingPermuted` | scripts/bake_tes3mp_content.py:1253-1268 | reordering client mapping lines changes neither the sorted mapping nor whether it is refused |
| `Manifest.ServerLinesPermuted` | scripts/bake_tes3mp_content.py:1575-1585 | reordering assignments changes neither the canonical server lines nor whether they are refused |
| `Manifest.ValuesPermuted` | scripts/bake_tes3mp_content.py:211-217 | the values found for a key are the same up to order |
| `ConfigRoundTrip.ConfigReadsBack` | scripts/bake_tes3mp_content.py:1627-1659 | parsing the rendered text gives the source's assignments in order with the baked values in place, then the catalog keys the source lacked |
| `ConfigRoundTrip.EachKeyReadsBack` | scripts/bake_tes3mp_content.py:1627-1659 | key by key: the new manifest, each catalog's output name exactly once, the two fixed paths where present, every other value unchanged |
| `ConfigRoundTrip.LineReadsBack` | scripts/bake_tes3mp_content.py:1633-1653 | a rendered line assigns the same key as its source line, with the baked value if there is one |
| `ConfigRoundTrip.ValueReadsBackExactly` | scripts/bake_tes3mp_content.py:187-208 | a rendered line reads back as written if and only if its value is not empty and has no surrounding space or quotes |
| `ConfigRoundTrip.RenderServerConfig` | scripts/bake_tes3mp_content.py:1627-1659 | the line loop and the loop over missing catalogs compute the rendering and refuse exactly a text with no manifest line |
| `ConfigSkeleton.RenderExactly` | scripts/bake_tes3mp_content.py:1627-1659 | two configurations are rendered to the same lines if and only if rendering keeps the same lines and keys of both and their catalogs have the same output names |
| `ServerConfig.ParseAssignments` | scripts/bake_tes3mp_content.py:187-208 | the loop returns the assignments of all lines in order and refuses exactly when some line is bad |
| `ServerConfig.LineAssigns` | scripts/bake_tes3mp_content.py:187-208 | a line assigns what follows its first `=`, unquoted, to what stands before it, stripped, and is refused exactly when one of the two is empty |
| `ServerConfig.CommentAssignsNothing` | scripts/bake_tes3mp_content.py:187-208 | blank lines and comments are accepted and assign nothing |
| `ServerConfig.UnquoteMeans` | scripts/bake_tes3mp_content.py:187-191 | one pair of double quotes around a value goes and what is inside is kept as it is; any other value is only stripped |
| `ServerConfig.SameKey` | scripts/bake_tes3mp_content.py:1633-1639 | the renderer, which splits the unstripped line, finds the key the parser finds |
| `ServerConfig.RenderedLineReads` | scripts/bake_tes3mp_content.py:187-208 | a rendered line parses to its key and unquoted value, or is refused exactly when that is empty |
| `ScriptPackages.Validate` | scripts/bake_tes3mp_content.py:1336-1409 | accepts exactly the catalogs within the package, per-package, string, uniqueness and known-package rules; the check against 16384 variables never decides |
| `ScriptPackages.GlobalLimitRedundant` | scripts/bake_tes3mp_content.py:1367-1409 | in such a catalog the variables are the sum over declared packages of their counts and at most 16384 |
| `ScriptPackages.CountByOwner` | scripts/bake_tes3mp_content.py:1400-1403 | variables counted package by package add up to all variables |
| `ScriptPackages.CountsAreNumbers` | scripts/bake_tes3mp_content.py:1366-1403 | the counts of packages, variables and variables of a package are the numbers of such records |
| `ScriptPackages.TextBytesAdd` | scripts/bake_tes3mp_content.py:1392-1397 | string bytes add up over the records |
| `ScriptPackages.AdmitsExactly` | scripts/bake_tes3mp_content.py:1344-1403 | the checks made on one record against the running counters are exactly what keeps the records so far within the rules |
| `ScriptPackages.AddCounts` | scripts/bake_tes3mp_content.py:1366-1403 | the counters go on counting the distinct packages, variables, per-package variables and string bytes of the records read |
| `RecordIds.RoundIsBijective` | scripts/bake_tes3mp_content.py:414-416 | every FNV-1a round is a bijection on 64-bit states, with an explicit inverse both ways |
| `RecordIds.XorBits` | scripts/bake_tes3mp_content.py:414-416 | the model's xor sets a bit exactly if it is set in one of the two numbers |
| `RecordIds.FirstIdentities` | scripts/bake_tes3mp_content.py:408-417 | the identities of the empty name and of `a` are those of 64-bit FNV-1a |
| `RecordIds.OneByteNeverCollides` | scripts/bake_tes3mp_content.py:408-417 | byte strings of equal length that differ in one position have different identities |
| `RecordIds.NamesNeverCollide` | scripts/native_combat_families_capture.py:13-17 | so do lower-cased ASCII names |
| `RecordIds.StableRecordId` | scripts/bake_tes3mp_content.py:408-417 | the baker's loop computes the identity and refuses exactly non-ASCII lower-cased names |
| `RecordIds.RecordId` | scripts/native_combat_families_capture.py:13-17 | the capture scripts' loop computes the same identity on the same names |
| `LogCaches.EveryReadIsBatch` | scripts/run_native_navigation_capture.py:35-54 | for every sequence of reads between which the log is replaced, cut below the offset, or keeps the lines read and the complete lines still unread (as every append at any byte does), each read returns the parse of all complete lines of the file as it is, or raises as that parse would |
| `LogCaches.ReadStaysInStep` | scripts/run_native_navigation_capture.py:35-54 | one read returns that parse and leaves the cache in step, also after an exception |
| `LogCaches.ReadExactly` | scripts/run_native_navigation_capture.py:43-54 | `records` gives every reader that had caught up the batch parse of a file it goes on reading if and only if the complete lines of the file are those read before and those past the offset |
| `LogCaches.GrownLogFollows` | scripts/run_native_navigation_capture.py:43-54 | a log that still begins with its complete lines, whatever follows them, is one the reader can follow |
| `LogCaches.RegrownLogIsStale` | scripts/run_native_navigation_capture.py:43-45 | a concrete log cut back and grown again between two reads gives rows that are no longer in it |
| `LogCaches.RecordCache.Records` | scripts/run_native_navigation_capture.py:35-54 | a call forgets a missing file and returns nothing for it, otherwise performs exactly the specified read of the path's entry, and leaves other entries alone |
| `LogCaches.CacheStaysInStep` | scripts/run_native_navigation_capture.py:35-54 | what a call does keeps every entry in step and returns the batch parse, whenever the file changed in a way the reader can follow |
| `LogCaches.EventLog.RowsOf` | scripts/native_combat_families_capture.py:83-94 | whatever happened to the log, a call files exactly the rows of the lines completed past the offset (none if the file ends before it), moves the offset unless a line raised, and returns one event's rows in file order |
| `LogCaches.EveryCallIsBatch` | scripts/native_combat_families_capture.py:83-94 | for every interleaving of calls with appends cut at any byte each call works on the batch parse of the log as it is, or raises as that parse would |
| `LogCaches.ResumedStaysInStep` | scripts/native_combat_families_capture.py:83-94 | one call gives the batch parse and leaves the reader in step while the lines read and the complete lines still unread are kept |
| `LogCaches.EventLog.FileLines` | scripts/native_combat_families_capture.py:90-92 | the filing loop keeps each event's rows in order up to the first line that raises |
| `LogCaches.SampleCache.Samples` | scripts/native_knockout_encounter.py:189-206 | a call performs exactly the specified sample read, restarts and exceptions included, and returns its rows from the first baseline row on; a missing file reads as empty and changes nothing |
| `LogCaches.SamplesStayInStep` | scripts/native_knockout_encounter.py:189-206 | that read gives the samples of the batch parse and leaves the cache in step, whenever the file changed in a way the reader can follow |
| `LogCaches.EstablishedGrows` | scripts/native_knockout_encounter.py:15-19 | later rows only extend the established ones, so a length saved earlier stays a valid cut, and what lies past it is known exactly |
| `LogCaches.EstablishedFromBaseline` | scripts/native_knockout_encounter.py:15-19 | the established rows are all rows from the first baseline row on, and none while there is none |
| `LogCaches.SamplesFromBaseline` | scripts/native_knockout_encounter.py:189-206 | what `samples` hands out while the file can be followed is exactly the samples of the batch parse from the first baseline row on, and nothing while there is none |
| `LogCaches.WithEventPicks` | scripts/native_combat_families_capture.py:90-94 | the rows of an event are exactly those with that event, each once and in file order |
| `LogReaders.ReadIsBatch` | scripts/native_combat_families_capture.py:86-93 | parsing only the newly completed lines from a reader in step equals parsing the whole file |
| `LogReaders.ResumedExactly` | scripts/native_combat_families_capture.py:86-93 | going on from an offset, past the end of the file or not, is the batch parse for every reader that had caught up, whatever the lines mean, if and only if the file's complete lines are those read before and those it sees |
| `LogReaders.ResumesMeansSameStart` | scripts/native_combat_families_capture.py:86-93 | where the offset is still the start of a line, that condition is that the lines before it are unchanged |
| `LogReaders.RaisedReadExactly` | scripts/native_combat_families_capture.py:86-93 | after a read that raised, where the lines before the offset are unchanged, the next read is the batch parse if and only if some line still fails or no row had been kept |
| `LogReaders.ChangeKeepsTracks` | scripts/native_combat_families_capture.py:86-93 | any change past the offset that drops no complete unread line keeps a reader in step |
| `LogReaders.CompleteLinesKeep` | scripts/native_combat_families_capture.py:86-93 | appending bytes cut anywhere and rewriting an unfinished last line are such changes |
| `LogReaders.AppendKeepsTracks` | scripts/native_combat_families_capture.py:86-93 | appending any bytes cut anywhere keeps a reader in step |
| `LogReaders.SplitAtNewline` | scripts/native_combat_families_capture.py:89-90 | `splitlines` cut right after a newline splits in two, CR and CR LF endings included |
| `LogReaders.LinesOfWritten` | scripts/native_combat_families_capture.py:89-90 | splitting a text written line by line with LF, CR or CR LF endings gives the lines written |
| `LogReaders.RowsOfAll` | scripts/native_combat_families_capture.py:90-92 | where every line parses there is one row for each, in order |
| `LogReaders.ParseLines` | scripts/run_native_navigation_capture.py:50-53 | the parse loop appends the rows up to the first line that raises |
| `SwingTrace.NeighboursDecide` | scripts/native_swing_encounter.py:28-42 | on any tick-sorted arrangement the neighbour checks pass exactly when all pairs of observations agree at equal ticks, keep identity, never regress in phase and completion, and keep a nonzero interruption |
| `SwingTrace.CheckSegment` | scripts/native_swing_encounter.py:10-42 | on the rows alone: a segment passes exactly when every live swing is of player 1 or 2 and any two sightings of one player and command that both clients saw are consistent in tick order; the overlap is the number of (player, command) pairs that occur in both clients' rows |
| `SwingTrace.SeenIsWhatRowsSay` | scripts/native_swing_encounter.py:14-23 | what a client is taken to have seen of a swing is, in row order and as often as it occurs, the tick and pose of each live swing of that player and command in its rows |
| `SwingTrace.SegmentMeansRows` | scripts/native_swing_encounter.py:24-42 | the streams that are checked are consistent if and only if the sightings in the rows are |
| `SwingTrace.CheckSwing` | scripts/native_swing_encounter.py:28-42 | the loop over one merged stream decides consistency of all pairs |
| `SwingTrace.Collect` | scripts/native_swing_encounter.py:14-23 | grouping files every observation under its swing, in order |
| `KnockoutTrace.GreedyDecidesRecovery` | scripts/native_knockout_encounter.py:49-78 | the counter reaches three exactly when down, get-up, upright occur as a subsequence |
| `KnockoutTrace.GreedyIsLongest` | scripts/native_knockout_encounter.py:71-74 | no choice of occurrences gets further than the greedy one |
| `KnockoutTrace.ValidateRecovery` | scripts/native_knockout_encounter.py:49-78 | accepts exactly when every sample is of a living, expected subject and an expected observer, and each observer's view of each subject recovers and shows no other phase |
| `KnockoutTrace.ValidateObservations` | scripts/native_knockout_encounter.py:40-78 | the whole checker accepts exactly when an actor capture shows one actor, the committed-tick check passes in every segment, and recovery is accepted across all segments |
| `KnockoutSegments.AcceptsExactly` | scripts/native_knockout_encounter.py:40-78 | that condition on the segments alone: each observer sees each subject lie down, later get up and later stand and in no other state, all sightings are of living watched subjects, and at every tick and subject both saw the first observer's last value is the second's first |
| `KnockoutSegments.StreamIsWhatSegmentsSay` | scripts/native_knockout_encounter.py:53-74 | the stream of an observer and a subject is, in order and as often as they occur, that observer's sightings of it across all segments |
| `KnockoutSegments.CheckMeansTicks` | scripts/native_knockout_encounter.py:58-67 | the dictionary check passes if and only if, at each tick and subject both saw, the last sighting of the first observer has the value of the first sighting of the second |
| `KnockoutTrace.CountAll` | scripts/native_knockout_encounter.py:49-74 | after the loops each counter and phase set is that of its own stream across all segments |
| `KnockoutTrace.CheckCommitted` | scripts/native_knockout_encounter.py:52-67 | the dictionary loop compares the first observer's last value with the second's first at every shared tick |
| `KnockoutTrace.AgreementExactly` | scripts/native_knockout_encounter.py:58-67 | full agreement at shared ticks holds if and only if that check passes and neither observer contradicts itself at a shared tick |
| `KnockoutTrace.SecondSightingIsUnchecked` | scripts/native_knockout_encounter.py:58-67 | two concrete traces pass the check and disagree |

## Left out

- SHA-256, JSON, UTF-8, cp1252, case folding, regular expressions and file-name tests: parameters of the model, or applied before it (a schema is the set of its words and a list of declarations, a catalog or configuration is decoded text).
- Process launching, control files, screenshots, sockets, sleeps and thread start and stop: plumbing around the modelled loops.
- Durability under power loss: only process stops are modelled.
- `PublicationRuns.OutputRoot.Publish`: covers one undisturbed bake; errors and interleaving are in `Publication`. Comparing two trees is one step there, and empty subdirectories do not exist.
- `PublicationProofs.PublicationSafety`: about runs in which `mkdtemp` gives out no name an unfinished bake holds and `mkstemp` none that a bake is still to move to `CURRENT`; `PublicationRuns.NameReuseExactly` and `PublicationRuns.PointerReuseExactly` show that both are needed, and `PublicationRuns.NameGetsReused` and `PublicationRuns.PointerGetsReused` that both cases come up.
- Socket errors in the relay: runs are error-free; a failing send ends the original's loop.
- `RelayProofs.DeparturesOnTime`: about runs in which the driver installs no new schedule, like `RelayProofs.DeparturesInOrder`; `RelayProofs.RelaySafety` allows it.
- Floating-point rounding of clock readings, and the array layout of the heap: the queue is kept in order.
- `stat` and `read` of a log are one step.
- Swing checker after its segments: the required phases, the minimum of four shared swings and the reliable outcomes, which are independent counts.
- Knockout encounter: the physical, retarget and actor-melee validators, which are separate easier checks, and the counts that are only reported.
- `verify_pack` beyond the content table: it applies its own naming and size rules.
- Derived item, weapon, NPC, spell and evasion values: table lookups and formulas.
- `PackTree.SameManifestSameTreeExactly`: about bakes none of whose files have the same name; the baker checks catalogs and modules for that but not the two configurations and `pack.json`.
- `PackContents.ServerConfigIsInPack`: about keys the source assigns at most once; the baker's own readers refuse a covered key with two values.
- `PackContents.ClientConfigIsInPack`: about values that read back as they are written; `ConfigRoundTrip.ValueReadsBackExactly` says exactly which those are.
- Line numbers in assignments and error texts: only whether an input is refused is modelled.
- Edits made to records while rebuilding a fixture, and the other capture drivers.
