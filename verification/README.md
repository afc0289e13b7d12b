# The ownership-guarded DNS UPDATE sidecar, in Dafny

The sidecar keeps DNS zones in step with what an operator asks for. Several sidecars may share a
zone, so each data record set (A, AAAA, CNAME, NS, MX) has a *marker*, a TXT record
`owned-by=<owner>` at `ddo-<type>.<name>`, and every UPDATE carries RFC 2136 prerequisites about
markers. This project models that protocol end to end and proves what it guarantees over whole
runs, and exactly where it stops doing so.

How the pieces fit:

- `Text`, `Records`, `Ownership`, `Endpoints`: names, records, the two marker codecs, targets to rdata.
- `DnsServer`: the server as a zone, a map from (name, rdata) to TTL. Prerequisites follow sections
  2.4.2, 2.4.3 and 3.2 of RFC 2136 (value-dependent existence compares whole RRsets), updates
  sections 2.5.1, 2.5.4 and 3.7.
- `Cache`, `ChangeSets`, `Update`, `Conflicts`: the collision check and what it is for,
  `buildZoneChangeSet` and `BuildUpdateMsg`. The loops are proved to compile a list of *intents*
  (create, replace, drop), and everything else is proved about intents.
- `Protocol`: a run. Each step is one sidecar with any configuration and any cache, however stale,
  turning one batch into one message that may be lost.
- `Isolation`, `IsolationLimits`, `Replay`, `Pairing`, `PairingRuns`, `PairingLimits`: safety over runs,
  with the exact conditions under which it fails.
- `Axfr`, `Listing`, `ListingOrder`, `ReadBack`, `Marks`: the read path, and what it shows of a zone.
- `Effects`, `RoundTrip`, `UpdateTrip`, `Lifecycle`, `TargetLimits`: what a batch does to one key, and write,
  then read, for creates, updates and deletes.
- `Routing`, `Grouping`, `Breaker`, `Failover`, `ReadCycle`, `Orchestration`: zone routing, the circuit
  breaker, the failover walk and the orchestrator object whose methods tie them together.
- `EndToEnd`: whole requests and ambiguous walks, from the pieces above.
- `Refresh`, `Locks`: the Kerberos refresh schedule and the per-zone locks.
- `Examples`: for every promise the code does not keep, one concrete input that breaks it.

Code that updates state in place is a class or a method with loops, proved against a specification
function; the theorems are about those functions. The network, the DNS library, kinit, cancellation
and the clock are parameters: an arbitrary function from attempts to answers stands for every
possible behaviour. `dafny verify dfyconfig.toml` checks everything.

## Model

| member | source | states |
|---|---|---|
| `Ownership.OwnershipRoundTrip` | internal/orchestrator/orchestrator.go:512-525 | decoding an encoded owner gives the owner back, whatever its characters |
| `Ownership.DecodeIsInverse` | internal/orchestrator/orchestrator.go:512-525 | a TXT value decodes to an owner exactly when it is that owner's encoding |
| `Ownership.EncodedText` | internal/orchestrator/orchestrator.go:512-514 | the marker text is `"owned-by=` and the owner, in quotes |
| `Ownership.MarkerSpelling` | internal/orchestrator/orchestrator.go:558-565 | the marker is `ddo-`, the type in lower case, a dot and the normalised name; a wildcard's asterisk becomes `-wildcard` after the type |
| `Ownership.MarkerInjective` | internal/orchestrator/orchestrator.go:558-565 | distinct (type, normalised name) pairs never share a marker name, wildcard or not |
| `Ownership.MarkerRoundTrip` | internal/orchestrator/orchestrator.go:558-588 | decoding a marker restores type and name if and only if the normalised name is non-empty and has no trailing dot |
| `Examples.DotLost` | internal/orchestrator/orchestrator.go:573-588 | "host.." normalises to "host.", and its marker decodes to "host" |
| `Ownership.MarkerWireInjective` | internal/orchestrator/orchestrator.go:558-565 | on the server, legal record sets share a marker only if they are the same set |
| `Ownership.MarkerByWire` | internal/orchestrator/orchestrator.go:558-565 | a marker depends only on the record's server-side key, not on spelling |
| `Endpoints.ClampTTL` | internal/orchestrator/orchestrator.go:701-731 | the TTL is the request's, or the default when there is none, raised to the minimum when below it |
| `Records.TypeSpelling` | internal/orchestrator/orchestrator.go:725-731 | the five types and TXT are spelled as DNS spells them, and labelled in lower case |
| `Endpoints.DataTypeMeans` | internal/orchestrator/orchestrator.go:705-711 | which spellings, in any case, name which of the five types |
| `Endpoints.OwnerMeans` | internal/orchestrator/orchestrator.go:530-539 | the owner is the label `owner`, and an empty one is none |
| `Endpoints.CanonicalMeans` | internal/orchestrator/orchestrator.go:736-750 | white space around an address or host does not matter, it is lower-cased, and a host ends in one dot |
| `Endpoints.CanonicalMailMeans` | internal/orchestrator/orchestrator.go:751-762 | an MX target is two words in any white space: the first is kept, the second treated like a host |
| `Text.TrimSpaceMeans` | internal/orchestrator/orchestrator.go:736-740 | trimming takes the white space around a text and nothing of the text |
| `Text.FieldsWord` | internal/orchestrator/orchestrator.go:754-757 | a word followed by white space, or by nothing, is the first field |
| `Text.LowerMeans` | internal/orchestrator/orchestrator.go:501-503 | lower-casing turns each capital letter into its small one and keeps the rest |
| `Endpoints.EndpointToRecords` | internal/orchestrator/orchestrator.go:701-731 | the loop yields the records that `TargetRecordsExact`, `DataTypeMeans` and `ClampTTL` describe, none for an unsupported type |
| `Endpoints.TargetRecordsExact` | internal/orchestrator/orchestrator.go:701-765 | a record is produced exactly for each target with a canonical form, under one name, type and TTL |
| `Cache.IndexByName` | internal/orchestrator/orchestrator.go:590-597 | the index holds under each normalised name exactly that name's records in list order |
| `Cache.OrphanOwnership` | internal/orchestrator/orchestrator.go:605-634 | a marker is reported exactly when it decodes and its data record is missing from the list |
| `Cache.CollisionReason` | internal/orchestrator/orchestrator.go:645-693 | the index-based scan computes the flat rule, whose clear case `ClearIff` spells out |
| `Cache.ClearIff` | internal/orchestrator/orchestrator.go:645-693 | a create is clear if and only if no CNAME stands against another data type at the name (section 3.6.2 of RFC 1034, TXT ignored) and either nothing of its type is there or the first decodable marker names the requester |
| `Conflicts.CreatesKeepApart` | internal/orchestrator/orchestrator.go:298-331 | from a cache equal to the zone, an accepted batch of creates that names each name once leaves no name with a CNAME beside other data unless it had both before |
| `Conflicts.CarefulRunsKeepApart` | internal/orchestrator/orchestrator.go:298-331 | the same over every run of such batches |
| `Examples.AddressBesideAlias` | internal/orchestrator/orchestrator.go:306-311 | from an empty cache an address is created beside an alias and accepted |
| `Examples.AliasBesideAddressRefused` | internal/orchestrator/orchestrator.go:662-667 | a cached address refuses a CNAME at its name, and a cached CNAME an address |
| `ChangeSets.BuildZoneChangeSet` | internal/orchestrator/orchestrator.go:291-384 | the three loops emit exactly the compiled intents of the batch for this cache, in order |
| `ChangeSets.CompiledExact` | internal/orchestrator/orchestrator.go:291-384 | a prerequisite or change is in the change set exactly when some intent contributes it |
| `ChangeSets.IntentJustified` | internal/orchestrator/orchestrator.go:298-381 | every intent goes back to an endpoint of the batch with an owner, and a create to one without a collision |
| `ChangeSets.DropPresent` | internal/orchestrator/orchestrator.go:358-381 | each record of an owned delete endpoint is dropped |
| `Update.BuildUpdateMsg` | internal/dnsop/update.go:13-82 | a message is built exactly when every prerequisite and change can be, one guard or edit for each, in order |
| `Update.GuardOrigin` | internal/dnsop/update.go:46-73 | the guards of a message are exactly those its prerequisites produce |
| `Update.EditOrigin` | internal/dnsop/update.go:25-42 | the edits of a message are exactly those its changes produce |
| `Update.SplicedRefused` | internal/dnsop/update.go:75-82 | a name with white space, a comment sign, quotes, parentheses or backslashes is not built into a record |
| `Update.PreferenceMeans` | internal/dnsop/update.go:75-82 | an MX preference is a decimal number of at most 65535 |
| `DnsServer.EditsDecide` | internal/dnsop/update.go:25-42 | after an update section each record is as its last edit says, or as before if never edited |
| `DnsServer.EditsIdempotent` | internal/dnsop/update.go:25-42 | applying an update section twice equals applying it once |
| `Isolation.IsolatedStep` | internal/orchestrator/orchestrator.go:291-384 | one step of another owner, with any cache, leaves a held record set and its marker as they were, TTLs included |
| `Isolation.IsolationOverRuns` | internal/orchestrator/orchestrator.go:291-384 | the same over every run of any number of sidecars with any caches, losses and order |
| `IsolationLimits.PairRespectsIff` | internal/orchestrator/orchestrator.go:333-356 | an update pair leaves every other owner's records alone in all zones if and only if its old side has records and its new side keeps their name and type |
| `IsolationLimits.Trespass` | internal/orchestrator/orchestrator.go:333-356 | for every unguarded pair there is a zone where the accepted message changes what another owner holds |
| `Examples.RenamedOntoAnother` | internal/orchestrator/orchestrator.go:346-355 | "b" renames x.test onto y.test in a zone where "a" holds y.test: accepted, and an address is added to what "a" holds |
| `Replay.ResendHarmless` | internal/orchestrator/orchestrator.go:402-420 | a second delivery of any message is refused or changes nothing |
| `Replay.AtMostOnce` | internal/orchestrator/orchestrator.go:402-420 | however often a change set is sent and whichever sends arrive, it takes effect at most once |
| `Replay.DeleteRefusedTwice` | internal/orchestrator/orchestrator.go:358-381 | an accepted batch with an effective delete is refused the second time |
| `Replay.CreatesRefusedTwice` | internal/orchestrator/orchestrator.go:298-331 | an accepted batch of creates that changed anything is refused the second time |
| `Replay.UpdatesAcceptedTwice` | internal/orchestrator/orchestrator.go:333-356 | an accepted batch of updates is accepted again and changes nothing more |
| `PairingRuns.StepPairs` | internal/orchestrator/orchestrator.go:298-381 | after an accepted good step each record set and its marker are both there, both gone, or both as before |
| `PairingRuns.PairedStep` | internal/orchestrator/orchestrator.go:298-381 | a good step makes no unmarked data and no orphan marker that was not there already |
| `PairingRuns.PairingOverRuns` | internal/orchestrator/orchestrator.go:298-381 | the same over every run of good steps |
| `PairingRuns.CreatedIsPaired` | internal/orchestrator/orchestrator.go:298-331 | each accepted create leaves data and a marker, naming its own owner unless it relied on an orphan |
| `PairingRuns.SnapshotMarkersReal` | internal/orchestrator/orchestrator.go:605-634 | a cache equal to the zone meets the one demand the pairing theorem makes of caches |
| `PairingLimits.DeleteLeavesDataIff` | internal/orchestrator/orchestrator.go:358-381 | an accepted delete always removes the marker, and leaves unmarked data if and only if the endpoint does not list every record of the set |
| `PairingLimits.CreateMarkedIff` | internal/orchestrator/orchestrator.go:313-331 | an accepted create is marked afterwards if and only if it wrote a marker or the orphan its cache promised was really there |
| `PairingLimits.UpdatePairsIff` | internal/orchestrator/orchestrator.go:333-356 | an accepted update pair makes no new unmarked data and no new orphan if and only if data stays under its old key (it adds some there or does not list all) and it adds only where there is data or a marker |
| `Examples.HalfDeleted` | internal/orchestrator/orchestrator.go:358-381 | deleting one of two addresses of x.test takes the marker and leaves the other address |
| `Examples.CreatedUnmarked` | internal/orchestrator/orchestrator.go:313-331 | a stale cache that promises an orphan marker makes a create leave unmarked data |
| `Examples.RenamedApart` | internal/orchestrator/orchestrator.go:333-356 | renaming x.test to an unused name leaves an orphan marker and unmarked data |
| `Axfr.ParseAXFRStream` | internal/dnsop/axfr.go:18-74 | succeeds if and only if no envelope failed and the stream has at least two records with SOA first and last (section 2.2 of RFC 5936); then the result is the whole stream's conversion |
| `Axfr.ConvertAll` | internal/dnsop/axfr.go:59-72 | the loop is the order-preserving conversion, without any SOA |
| `Axfr.ConvertExact` | internal/dnsop/axfr.go:76-108 | a record is in the result exactly when some arrival converts to it |
| `Axfr.SplitChunk` | internal/dnsop/axfr.go:24-30 | cutting an envelope in two changes neither the stream nor whether it failed |
| `Axfr.TransferIsSnapshot` | internal/dnsop/axfr.go:18-74 | transferring a zone between its SOAs gives a snapshot of that zone |
| `Axfr.SnapshotExact` | internal/dnsop/axfr.go:76-108 | a snapshot holds a record exactly when the zone holds a resource record shown that way |
| `Listing.EndpointsFromRecords` | internal/orchestrator/orchestrator.go:780-847 | one endpoint per managed key in order of first appearance, with its values in transfer order, its first TTL and its last marker's owner |
| `Examples.ListedAs` | internal/orchestrator/orchestrator.go:826-840 | two addresses and a marker of x.test are listed as one endpoint with both in order, the first one's TTL, the marker's owner and the zone's resource label |
| `Listing.PassesIff` | internal/orchestrator/orchestrator.go:472-483 | a name passes an empty filter, a domain of the filter, and whatever ends in a dot and such a domain |
| `Listing.ListedExactly` | internal/orchestrator/orchestrator.go:780-847 | a key is listed if and only if its type is not TXT, its name is a domain of the filter or below one, or there is no filter, some marker decodes to it and it has a record |
| `Listing.ListedOnce` | internal/orchestrator/orchestrator.go:780-847 | no key is listed twice |
| `Listing.KeysGrow` | internal/orchestrator/orchestrator.go:836-846 | keys are listed in the order of their first records |
| `Listing.ValuesExact` | internal/orchestrator/orchestrator.go:808-846 | the targets are exactly the values of the key's records |
| `Listing.ValuesConcat` | internal/orchestrator/orchestrator.go:839-839 | the targets come in the order of the records |
| `Listing.FirstTTLExact` | internal/orchestrator/orchestrator.go:826-838 | the TTL is that of the key's first record |
| `Listing.LabelExact` | internal/orchestrator/orchestrator.go:781-801 | the owner shown is one a marker for the key spells, and there is one exactly when there is a marker |
| `Listing.LastLabelExact` | internal/orchestrator/orchestrator.go:783-801 | the owner shown is that of the key's last marker |
| `Listing.OrphanOrListed` | internal/orchestrator/orchestrator.go:605-634 | with no filter a marker for a data type is either an orphan or its key is listed, never both |
| `ReadBack.Recanonical` | internal/orchestrator/orchestrator.go:736-765 | canonicalising a listed target gives the stored rdata back if and only if it does not point at the root |
| `ReadBack.StoredData` | internal/dnsop/update.go:75-82 | what is stored for an address or host target: the text in lower case, a host with one final dot |
| `ReadBack.StoredMail` | internal/dnsop/update.go:75-82 | what is stored for an MX target: the preference as a number without leading zeros, and the host |
| `ReadBack.ShownData` | internal/dnsop/axfr.go:76-108 | what is shown for stored data: hosts in lower case without their dot, TXT chunks joined in quotes |
| `Examples.RootReadBack` | internal/orchestrator/orchestrator.go:736-765 | a CNAME target "." is stored as the root and read back as nothing |
| `TargetLimits.MailTargetIff` | internal/orchestrator/orchestrator.go:751-762 | an MX target has a canonical form if and only if it has two fields, and can be built if and only if the first is also a 16-bit number and the second a host |
| `TargetLimits.SentIff` | internal/dnsop/update.go:13-44 | a batch is sent if and only if every prerequisite and record of every intent can be built |
| `TargetLimits.OnePoisonedSinksAll` | internal/dnsop/update.go:75-82 | one target with a canonical form that cannot be built, on an endpoint that takes part, and nothing of the zone's batch is sent |
| `TargetLimits.WordForPreference` | internal/orchestrator/orchestrator.go:751-762 | "x mx.example.com" is kept as canonical, and any batch that deletes an endpoint with it sends nothing |
| `ReadBack.TargetsAreRRset` | internal/dnsop/axfr.go:76-108 | the listed targets of a key are its record set on the server, each record once |
| `ReadBack.TransferredNames` | internal/orchestrator/orchestrator.go:501-503 | every transferred name survives being normalised twice |
| `RoundTrip.CreateEffect` | internal/orchestrator/orchestrator.go:298-331 | a create accepted in any batch that names its key once adds exactly its records and its marker about that key, none of which was there; in a batch of its own it changes nothing else at all |
| `RoundTrip.WritesSpelledType` | internal/orchestrator/orchestrator.go:705-731 | what an endpoint writes is an A, AAAA, CNAME, NS or MX record exactly as its type is spelled, in any case |
| `Lifecycle.ListedSpelledType` | internal/orchestrator/orchestrator.go:826-838 | a listed endpoint spells the type of the data stored under its key |
| `RoundTrip.CreateIsListed` | internal/orchestrator/orchestrator.go:298-331 | from a cache equal to the zone, a create accepted in any batch that names its key once is listed next under its normalised name and type, with its clamped TTL and exactly its records as targets |
| `RoundTrip.CreateThenList` | internal/orchestrator/orchestrator.go:298-331 | and for its requester, if no older marker for the key names anyone else |
| `Effects.AboutOrigin` | internal/orchestrator/orchestrator.go:298-381 | every edit about a key's records or markers comes from an endpoint of the batch with that key |
| `Effects.UnnamedUntouched` | internal/orchestrator/orchestrator.go:298-381 | no record of a key the batch does not name, and no marker for it, changes |
| `Effects.OthersUnchanged` | internal/orchestrator/orchestrator.go:780-847 | every endpoint a batch does not name is backed by the same records with the same TTLs in the next listing, with the same targets counted with multiplicity and the same possible owners |
| `Effects.OthersListedAlike` | internal/orchestrator/orchestrator.go:780-847 | if the records both transfers have arrive in the same order, the two listings agree endpoint by endpoint on the keys the batch does not name, and list them in the same order |
| `ListingOrder.SameEndpoint` | internal/orchestrator/orchestrator.go:780-847 | two record lists with the same records for a key, in the same relative order, list the same endpoint for it |
| `ListingOrder.SameKeys` | internal/orchestrator/orchestrator.go:803-846 | outside a set of keys, lists that share their records in order list the same keys in the same order |
| `UpdateTrip.UpdateEffect` | internal/orchestrator/orchestrator.go:333-356 | an update accepted in any batch that names its key once, with any cache, puts its new records, removes its other old ones and changes nothing else about the key |
| `UpdateTrip.UpdateThenList` | internal/orchestrator/orchestrator.go:333-356 | it is listed next exactly if anything is left, with its new records and whatever records of the set the old side did not list, and with its own TTL if the old side listed everything |
| `UpdateTrip.UpdateOwnerShownIff` | internal/orchestrator/orchestrator.go:333-356 | it is listed for its owner in every transfer order if and only if every marker for the key names that owner, which always holds unless the key is a wildcard |
| `UpdateTrip.DeleteEffect` | internal/orchestrator/orchestrator.go:358-381 | a delete accepted in any batch that names its key once, with any cache, removes its records and its marker and changes nothing else about the key |
| `UpdateTrip.DeleteThenList` | internal/orchestrator/orchestrator.go:358-381 | it is listed afterwards if and only if data it did not list is left and so is a marker under another name, which only a wildcard key can have |
| `UpdateTrip.SoleAuthor` | internal/dnsop/update.go:25-42 | a record that one intent alone edits ends as that intent's own message leaves it |
| `UpdateTrip.DeletesComeLast` | internal/orchestrator/orchestrator.go:358-381 | whatever else an accepted batch does, what it deletes is gone, marker included |
| `UpdateTrip.UpdatesFollowCreates` | internal/orchestrator/orchestrator.go:333-356 | what an update pair removes and no pair adds is gone, even if the batch creates it |
| `RoundTrip.OwnerShownIff` | internal/orchestrator/orchestrator.go:313-331 | a create is listed for its requester in every transfer order if and only if no older marker for the key names anyone else |
| `Examples.ListedForAnother` | internal/orchestrator/orchestrator.go:313-331 | "b" creates x.test over an orphan marker of "a": every listing shows it as owned by "a" |
| `Examples.PlainCreate` | internal/orchestrator/orchestrator.go:298-331 | a plain create into an empty zone meets every condition the round-trip theorems ask for |
| `Examples.PlainUpdate` | internal/orchestrator/orchestrator.go:333-381 | moving or deleting the one address of x.test meets every condition the theorems about updates, deletes and isolation ask for |
| `Lifecycle.DeleteRestoresIff` | internal/orchestrator/orchestrator.go:298-381 | create, list, delete what is listed: any sidecar's delete is accepted and restores the zone exactly if and only if the create did not ride an orphan marker, points nowhere at the root and is listed for its requester |
| `Lifecycle.DeleteListedIff` | internal/orchestrator/orchestrator.go:358-381 | deleting what any listing of any legal zone shows is accepted if and only if everything shown can be built and the marker's record set is exactly the owner shown; afterwards the marker's set is empty and the data left is what the listing did not name |
| `Lifecycle.ListedNamesBuilt` | internal/orchestrator/orchestrator.go:780-847 | of a record set built from targets the listing names for deletion exactly the records that do not point at the root |
| `Lifecycle.NothingToDelete` | internal/orchestrator/orchestrator.go:358-381 | an endpoint without an owner, or without a target that has a canonical form, deletes nothing |
| `Examples.WildcardStillListed` | internal/orchestrator/orchestrator.go:558-588 | with a marker of an earlier release left at ddo-a.*.test, deleting one of two addresses of *.test is accepted and *.test stays listed |
| `Examples.LegacyRefused` | internal/orchestrator/orchestrator.go:558-588 | with only that marker, every listing shows *.test for its owner and the delete of what it shows is refused |
| `Routing.SortByLength` | internal/orchestrator/orchestrator.go:497-498 | a permutation, longest first; nothing is promised about equal lengths |
| `Routing.ZoneFor` | internal/orchestrator/orchestrator.go:486-499 | the longest configured zone the name lies in, or none |
| `Routing.InZoneMeans` | internal/orchestrator/orchestrator.go:489-493 | a name lies in a zone if it is the zone or ends in a dot and the zone |
| `Routing.RouteUnique` | internal/orchestrator/orchestrator.go:486-499 | the route does not depend on the configured order or on how ties are sorted, so no endpoint goes to two zones |
| `Routing.MarkerZones` | internal/orchestrator/orchestrator.go:558-565 | which zones a marker lies in, in terms of its record's zones |
| `Routing.MarkerRoutesTogether` | internal/orchestrator/orchestrator.go:486-499 | a marker routes to its record's zone if and only if its own name is not a zone and the record is not the apex of a wildcard-named zone |
| `Examples.MarkerRoutedApart` | internal/orchestrator/orchestrator.go:486-499 | with the zones test and ddo-a.x.test, x.test and its marker are routed apart |
| `Grouping.Group` | internal/orchestrator/orchestrator.go:180-246 | exactly the zones with work, each with its share of the request in request order, update pairs kept together |
| `Grouping.GoesIff` | internal/orchestrator/orchestrator.go:190-222 | an endpoint goes to the longest configured zone its normalised name is in, if that name is in the filter or there is none |
| `Grouping.ShareExact` | internal/orchestrator/orchestrator.go:190-222 | an endpoint is in a zone's share if and only if it is present and goes there, said by suffixes |
| `Grouping.ShareConcat` | internal/orchestrator/orchestrator.go:216-221 | shares keep the order of the request |
| `Grouping.BatchExact` | internal/orchestrator/orchestrator.go:216-246 | a zone's batch has exactly the creates, deletes and update pairs of the request that go there, the pairs up to the shorter list |
| `Grouping.PairsExact` | internal/orchestrator/orchestrator.go:225-246 | an update pair is in a zone's share exactly when both sides are present at one index and the new side is routed there |
| `Grouping.PairsConcat` | internal/orchestrator/orchestrator.go:225-246 | update pairs keep the order of the request |
| `Breaker.DCBreaker.constructor` | internal/state/dcbreaker.go:33-44 | every circuit starts fresh; a threshold below one becomes one |
| `Breaker.DCBreaker.IsAvailable` | internal/state/dcbreaker.go:54-67 | answers whether the circuit lets traffic through, and past the cooldown closes it; other DCs are untouched |
| `Breaker.DCBreaker.RecordSuccess` | internal/state/dcbreaker.go:71-77 | resets the DC's circuit and nothing else |
| `Breaker.DCBreaker.RecordFailure` | internal/state/dcbreaker.go:83-105 | lengthens the streak, opens the circuit at the threshold for the returned cooldown, and touches no other DC |
| `Breaker.FailuresCount` | internal/state/dcbreaker.go:83-93 | from any circuit every failure counts, and as many in a row as the threshold leave it open |
| `Breaker.OpensAtThreshold` | internal/state/dcbreaker.go:83-105 | from a fresh circuit it is the threshold-th failure in a row that opens it, for a minute |
| `Breaker.StreakCounts` | internal/state/dcbreaker.go:54-105 | in every history the streak is the number of failures since the last success or lapsed cooldown |
| `Breaker.ObjectStreak` | internal/state/dcbreaker.go:54-105 | the same for the counter of every breaker object |
| `Breaker.Cooldown` | internal/state/dcbreaker.go:94-101 | the doubling loop computes min(60 * 2^n, 3600) |
| `Breaker.BackoffDoubles` | internal/state/dcbreaker.go:94-101 | the cooldown starts at 60 seconds and doubles up to 3600 |
| `Breaker.RunInvariant` | internal/state/dcbreaker.go:54-105 | after every history the circuit is recorded open exactly when the streak is at least the threshold, and `opens` counts the openings since the last success |
| `Breaker.BreakerInvariant` | internal/state/dcbreaker.go:54-105 | the same, and the one-hour bound, for every state a breaker object can reach |
| `Breaker.KthOpening` | internal/state/dcbreaker.go:54-105 | the k-th opening since the last success lasts exactly min(60 * 2^(k-1), 3600) seconds: no traffic until then, and traffic from then on |
| `Breaker.BackoffForgotten` | internal/state/dcbreaker.go:71-77 | at threshold one, a second opening after a lapsed cooldown lasts two minutes, and one minute after a success |
| `Breaker.OpenWithinAnHour` | internal/state/dcbreaker.go:54-105 | an open circuit ends within an hour of its latest opening, whatever failures follow |
| `Breaker.AvailableAgain` | internal/state/dcbreaker.go:54-105 | an hour after the last failure every DC is available |
| `Breaker.AvailableDCs` | internal/orchestrator/orchestrator.go:440-448 | the available hosts in configured order, each query booked on its own circuit |
| `Breaker.KeepExact` | internal/orchestrator/orchestrator.go:440-448 | a host is returned exactly when it is configured and available |
| `Breaker.KeepConcat` | internal/orchestrator/orchestrator.go:440-448 | the hosts returned are in configured order |
| `Breaker.UpByHistory` | internal/orchestrator/orchestrator.go:440-448 | the hosts a breaker object lets through are those its history leaves available |
| `Breaker.EveryHostBack` | internal/orchestrator/orchestrator.go:440-448 | an hour after the last failure of any history all configured hosts are returned |
| `Failover.ContainsIff` | internal/dnsop/client_real.go:161-188 | the search finds exactly the words that occur |
| `Failover.ExchangeMeaning` | internal/dnsop/client_real.go:123-188 | which exchanges count as applied and which move the walk on: SERVFAIL, REFUSED, NOTAUTH, and no answer unless the error names a bad signature or key and not the time; nothing else |
| `Failover.DcOrderForZone` | internal/orchestrator/orchestrator.go:453-470 | the two loops compute the pin if available, else the first DC, followed by the list without its leading run of that DC |
| `Failover.WalkCovers` | internal/orchestrator/orchestrator.go:453-470 | the order holds exactly the available DCs, an available pin first |
| `Failover.WalkTail` | internal/orchestrator/orchestrator.go:463-468 | after its head the order is the configured one, missing only leading copies of the head |
| `Failover.WalkDistinctIff` | internal/orchestrator/orchestrator.go:450-470 | for every host list, repeated hosts included, the order is free of duplicates if and only if the pin is unavailable or heads the list and no host is repeated past the leading run of the first |
| `Examples.PinVisitedTwice` | internal/orchestrator/orchestrator.go:453-470 | pin dc2 with dc1 and dc2 available is walked dc2, dc1, dc2 |
| `Examples.HostVisitedTwice` | internal/orchestrator/orchestrator.go:463-468 | without a pin, a list that repeats dc2 is walked with dc2 twice |
| `Failover.ExhaustedAsksAll` | internal/orchestrator/orchestrator.go:400-421 | a walk that is never stopped asks every available DC |
| `Failover.WalkBooks` | internal/orchestrator/orchestrator.go:400-421 | a walk books a failure for every DC it moved on from, at the time of the attempt, a success for the one that applied, and nothing for a rejection |
| `ReadCycle.AxfrZone` | internal/orchestrator/orchestrator.go:156-175 | follows the DC order up to the first DC that serves, an interruption or the end |
| `ReadCycle.ListedAllConcat` | internal/orchestrator/orchestrator.go:129-142 | the zones' endpoints follow each other in the order of the visits |
| `ReadCycle.FetchesOnce` | internal/orchestrator/orchestrator.go:156-175 | the answers determine the walk |
| `ReadCycle.NothingFetchedIff` | internal/orchestrator/orchestrator.go:156-175 | a zone gets nothing if and only if every DC that would serve comes after an interruption |
| `ReadCycle.LastVisitCached` | internal/orchestrator/orchestrator.go:129-142 | over any zones, repeated or not, a zone's cache entry is what its last visit fetched, or absent if that was nothing |
| `ReadCycle.LastServedPinned` | internal/orchestrator/orchestrator.go:129-142 | a zone's pin is the DC of the last visit in which it was served |
| `ReadCycle.CycleKeeps` | internal/orchestrator/orchestrator.go:129-142 | a zone that was not visited keeps its cache entry, and one that was not served keeps its pin |
| `ReadCycle.OwnPin` | internal/orchestrator/orchestrator.go:129-142 | each walk starts from the DC that last served its zone in this cycle, or, if none has, from the pin the zone had before |
| `ReadCycle.TriedAreAvailable` | internal/orchestrator/orchestrator.go:156-175 | only available DCs are tried, and a DC that served was tried |
| `Orchestration.Orchestrator.constructor` | internal/orchestrator/orchestrator.go:82-91 | pins and cache start empty, with a breaker of its own that has no history |
| `Orchestration.Orchestrator.ListRecords` | internal/orchestrator/orchestrator.go:109-154 | one visit per zone, the endpoints of the zones transferred, pins and cache as the visits say, and for every DC exactly one breaker event if tried, success if and only if it served some zone, in whatever order the map is walked |
| `Orchestration.Orchestrator.Book` | internal/orchestrator/orchestrator.go:144-151 | the bookkeeping loop's result does not depend on map iteration order |
| `Orchestration.Orchestrator.ApplyZone` | internal/orchestrator/orchestrator.go:390-422 | the walk follows the order, moves on only from failover-eligible answers, so at most one answer is a success and it is the last (`Failover.OneSuccess`); the pin, every circuit and the breaker's history end as exactly its trace dictates |
| `Orchestration.Orchestrator.ApplyChanges` | internal/orchestrator/orchestrator.go:180-274 | exactly the zones whose share compiles to a change get one UPDATE, compiled from their own share and cache entry; in whatever order they are taken, each walk is offered the configured hosts that the walks before it left available, the breaker's history is theirs in that order, and success means all were applied |
| `EndToEnd.RequestIsForeign` | internal/orchestrator/orchestrator.go:180-246 | every zone's share of a request for other owners is covered by isolation |
| `EndToEnd.RequestsIsolate` | internal/orchestrator/orchestrator.go:180-384 | no run of other owners' requests changes what an owner holds |
| `EndToEnd.WalkEffect` | internal/orchestrator/orchestrator.go:390-422 | a walk with lost answers takes effect once or not at all, has taken effect if it reports success, and has not if its only answer is a failed prerequisite |
| `Refresh.Kerberos.MarkReady` | internal/state/kerberos.go:43-49 | ready, no detail, refreshed now |
| `Refresh.Kerberos.MarkExpired` | internal/state/kerberos.go:54-59 | expired with the reason; the last good refresh stays visible |
| `Refresh.Refresher.RefreshOnce` | internal/kerberos/refresh.go:114-148 | the next delay for each kinit outcome, always positive, and the state it leaves |
| `Refresh.Refresher.Run` | internal/kerberos/refresh.go:82-103 | attempt times of every finite run, status after the last kinit and the time of the last good one |
| `Refresh.NextBeforeExpiry` | internal/kerberos/refresh.go:128-141 | a readable ticket is renewed before it expires if and only if it has at least 2ns left |
| `Refresh.WaitLengths` | internal/kerberos/refresh.go:114-148 | the wait is 60 seconds after a failure, half the time left of a readable ticket, rounded down and at most the ceiling, and the ceiling otherwise |
| `Refresh.FailuresPostpone` | internal/kerberos/refresh.go:114-127 | n failures postpone the next attempt by exactly n minutes |
| `Refresh.MarginForFailures` | internal/kerberos/refresh.go:114-148 | after a ticket and n failures another attempt precedes expiry if and only if the ticket outlives its first wait and n minutes; n minutes under half a readable lifetime always fit |
| `Refresh.MarginLeft` | internal/kerberos/refresh.go:82-148 | the run invariant: the failures still allowed fit before expiry |
| `Refresh.NeverLapses` | internal/kerberos/refresh.go:82-148 | over every run with at most n failures in a row and tickets with exactly that room, each attempt is made on a valid ticket |
| `Refresh.WithstandsIff` | internal/kerberos/refresh.go:82-148 | a run stands any n failures in a row, wherever they start, if and only if the start-up ticket outlives the ceiling and n minutes and every later ticket its first wait and n minutes |
| `Examples.FirstTicketLapses` | internal/kerberos/refresh.go:88-91 | with the default schedule a six-hour start-up ticket lapses before the first refresh |
| `Refresh.TenHourTickets` | internal/kerberos/refresh.go:11-23 | the default ceiling against ten-hour tickets, readable or not, stands 119 failures in a row |
| `Locks.ZoneLocks.For` | internal/state/zones.go:77-86 | one lock per zone, never replaced, and different zones have different locks |
| `Locks.OrderlyStep` | internal/orchestrator/orchestrator.go:390-393 | every lock, acquire and release keeps the lock table injective and each held lock with the one thread inside |
| `Locks.OneInside` | internal/orchestrator/orchestrator.go:390-393 | in every interleaving at most one caller is between lock and unlock for a zone |
| `Locks.BlockedOnlyByOwnZone` | internal/orchestrator/orchestrator.go:390-393 | a waiting caller is blocked if and only if another is inside the same zone |
| `Locks.LockForGood` | internal/state/zones.go:77-86 | a zone keeps its lock for the whole run |

## Where the code is narrower than its comments

The model follows the code. Each gap has its exact condition and an input.

- `internal/orchestrator/orchestrator.go:450-470` promises an order "with dups removed"; a pin that is
  available but not first is visited twice, and so is a host that is configured twice
  (`Failover.WalkDistinctIff`, `Examples.PinVisitedTwice`, `Examples.HostVisitedTwice`).
- `internal/orchestrator/orchestrator.go:280-290` says an update will not touch a record it does not
  own; that holds exactly for pairs that keep name and type and have old records
  (`IsolationLimits.PairRespectsIff`, `Examples.RenamedOntoAnother`). An update pair that renames, or has
  no new records, also separates data from markers (`PairingLimits.UpdatePairsIff`,
  `Examples.RenamedApart`).
- The orphan exemption (`internal/orchestrator/orchestrator.go:313-319`) does not look at who owns the
  orphan, so a create may be listed for someone else (`RoundTrip.OwnerShownIff`,
  `Examples.ListedForAnother`), and trusts a cache that may be stale (`PairingLimits.CreateMarkedIff`,
  `Examples.CreatedUnmarked`).
- A delete removes the marker even when it lists only part of the data
  (`PairingLimits.DeleteLeavesDataIff`, `Examples.HalfDeleted`), and deleting what was listed restores the
  zone only without orphans and root targets (`Lifecycle.DeleteRestoresIff`; the create of
  `Examples.ListedForAnother` rides an orphan, `Examples.RootReadBack` shows a root target).
- `decodeOwnershipName` normalises a second time, so names ending in a dot after normalisation do not
  round-trip (`Ownership.MarkerRoundTrip`, `Examples.DotLost`).
- The collision check sees only the cache, so a stale or empty one lets a create put a CNAME beside other
  data (`Conflicts.CreatesKeepApart`, `Examples.AddressBesideAlias`).
- Earlier releases wrote the marker of a wildcard at a name that spells the asterisk (`CHANGELOG.md:63`),
  and `decodeOwnershipName` still reads it, but updates and deletes only see the current name. With such a
  marker a wildcard can be listed for someone else after an update (`UpdateTrip.UpdateOwnerShownIff`), stay
  listed after a delete (`UpdateTrip.DeleteThenList`, `Examples.WildcardStillListed`), or be listed and
  impossible to delete (`Lifecycle.DeleteListedIff`, `Examples.LegacyRefused`).
- A marker whose own name is a zone is routed away from its record (`Routing.MarkerRoutesTogether`,
  `Examples.MarkerRoutedApart`).
- `Run` waits a whole ceiling before its first refresh (`internal/kerberos/refresh.go:88-91`), so the
  start-up ticket must outlive the ceiling (`Refresh.WithstandsIff`, `Examples.FirstTicketLapses`).
- `internal/state/dcbreaker.go:15-16` says the opens counter survives a successful trial; `RecordSuccess`
  resets it, and only a lapsed cooldown keeps it (`Breaker.RunInvariant`, `Breaker.BackoffForgotten`).
- `internal/orchestrator/orchestrator.go:751-753` asks for a numeric MX preference, and nothing checks it
  (`TargetLimits.MailTargetIff`). Such a target fails when the message is built and takes the zone's whole
  batch with it (`TargetLimits.OnePoisonedSinksAll`, `TargetLimits.WordForPreference`).

## Left out

- `dns.NewRR`: names, hosts and addresses are taken to parse to themselves. A name, host or address with white space, `;`, quotes, parentheses or backslashes, which the spliced zone-file line would read as something else, a name with an empty label and an owner with quotes or backslashes are modelled as build failures; address text is not checked further, and TXT text is not split at 255 octets.
- Server rules beyond adding and deleting records, such as CNAME replacement and the apex SOA and NS cases of section 3.4.2 of RFC 2136, and the NOTZONE prescan: the repository does not implement them.
- Integer widths: TTLs and breaker counters are unbounded, times are integers; case folding and white space are ASCII.
- `Orchestration.Orchestrator.ApplyZone`: one clock reading serves all circuit queries of a call, and `ListRecords` books all its events at one reading; the calls of different goroutines on pins, cache and breaker are not interleaved.
- `Breaker.RunInvariant`: histories may carry any clock readings, also decreasing ones, so nothing is assumed about the clock.
- `Refresh.Refresher.Run`: kinit takes no time, and a run is finite (cancelled after some number of kinits).
- `Locks.OneInside`: lock references are numbered, and fairness and liveness of Go mutexes are not modelled.
- HTTP and JSON handling, configuration reading, TSIG and GSS signing, the exchange itself, kinit execution and ccache parsing, logging, error texts and phases.
