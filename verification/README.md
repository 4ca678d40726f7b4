# The stream module: a verified model

This project models the hard parts of the nginx stream module in Dafny and proves what they are for.
Code that works by changing things step by step is modelled by classes and methods over fields and
arrays, each proved against functions and predicates; the lemmas then say what those mean.

- **Preread** (`PrereadSpec`, `PrereadChunks`, `PrereadRecords`, `PrereadRoundTrip`, `PrereadGrammar`,
  `PrereadSound`, `PrereadRejects`, `PrereadLaws`, `Preread`): the resumable ClientHello parser, its record loop and the preread phase
  that feeds it. A printer written from section 4.1.2 of RFC 8446, section 7.4.1.2 of RFC 5246,
  section 3 of RFC 6066, section 3.1 of RFC 7301 and section 4.2.1 of RFC 8446 is undone by the parser
  however the message is cut; a looser grammar says exactly which messages are accepted, and every
  outcome of the phase is characterised by it on the bytes that arrived.
- **Load balancing** (`Peers`, `RoundRobin`, `LeastConn`, `Fairness`, `Choosers`, `Probing`,
  `HashRing`, `ConsistentHash`, `PeerLaws`): the shared peer state and the get methods of round robin,
  least_conn, hash, consistent hash and random, with exact fairness, optimal choice and the consistent hash ring.
- **Sessions** (`Sessions`, `SessionRuns`, `FailureRuns`, `Proxy`): any number of sessions interleaved
  at every get, free and notification, and the connect and retry cycle of one session.
- **Geo ranges** (`GeoBuckets`, `Geo`, `GeoConfig`, `GeoImage`, `GeoWriter`, `GeoLoader`,
  `GeoReader`, `GeoRestart`): the bucket table edited in place by any list of directives, and the
  binary base from its size accounting to the lookup in the relocated copy.
- **Connection limits** (`LimitConn`, `LimitRuns`, `LimitTree`): counters taken all together or not at
  all, alone and in any interleaving.
- **Templates** (`ScriptTemplate`, `Script`, `ScriptCompiler`, `ScriptEngine`): the compiler to two
  byte programs and the two passes that run them over cached variables.
- **Relay** (`Relay`, `RelaySession`): the two directions of the TCP relay, each with its single
  buffer, its chains of buffer headers and the write filter, over one list of free headers.
- **Phases** (`Phases`): the flat handler table against the nested reading of the phases.

Where something holds only under a condition, the condition is part of the statement and the other
half is proved or shown by an input: see `LimitRuns.RejectedHoldsNothing` and `LimitRuns.MixedKeeps`,
`LimitConn.RejectionRestores`, and the acceptance condition in `GeoBuckets.AddPiece`.

What cannot be seen from the code is a parameter with the contract it has there: `recv` returns no
more than was asked for, sending takes a prefix, time is monotone, a checksum is an arbitrary fold
over bytes ending in 32 bits, hashes and random numbers are arbitrary numbers, and a variable's
handler answers anything, something else each time, without changing other slots or the captures.
A region under a peer or zone lock is one atomic step.

## Model

| member | source | states |
|---|---|---|
| PrereadSpec.FillValid | stream/ngx_stream_ssl_preread_module.c:243-251 | taking input bytes keeps size <= left, so neither subtraction wraps, and every copy stays inside its destination |
| PrereadSpec.AdvanceValid | stream/ngx_stream_ssl_preread_module.c:257-487 | each parser state hands on a context in which the next field fits buf[4], version[2], the host allocation or the ALPN allocation with its commas |
| PrereadSpec.AdvanceDecreases | stream/ngx_stream_ssl_preread_module.c:257-487 | a completed state moves to a later phase, or to less input left, or through a zero-size field that cannot come again |
| PrereadSpec.TurnProgress | stream/ngx_stream_ssl_preread_module.c:242-492 | one turn of the parser loop stops, asks for more, or goes on from a valid context with a smaller measure, so the loop ends for every input |
| PrereadChunks.RunConcat | stream/ngx_stream_ssl_preread_module.c:235-256 | parsing A and, if that asked for more, then B gives the same verdict, context and output as parsing A followed by B at once, for every valid context and all bytes |
| PrereadChunks.FeedIsRun | stream/ngx_stream_ssl_preread_module.c:204-496 | feeding any list of fragments one by one is one run on their concatenation |
| PrereadRecords.ScanGrows | stream/ngx_stream_ssl_preread_module.c:147-199 | calling the handler again on a longer buffer continues exactly where one call on that buffer would be |
| PrereadRecords.DeliverIsReport | stream/ngx_stream_core_module.c:228-269 | the recv schedule does not matter: the phase reports what one scan of all the bytes it was given room for reports, whether the buffer filled up or not |
| PrereadRecords.ScanRecords | stream/ngx_stream_ssl_preread_module.c:150-195 | scanning printed handshake records is feeding their fragments to the parser |
| PrereadRecords.NoHandshake | stream/ngx_stream_ssl_preread_module.c:160-172 | a client that starts with neither a version 2 hello nor a handshake record of major version 3 is declined, in whatever portions its bytes arrive |
| PrereadRoundTrip.RunNames | stream/ngx_stream_ssl_preread_module.c:415-466 | the protocol list read entry by entry is exposed as the names joined with commas, within the allocation |
| PrereadRoundTrip.JoinedIs | stream/ngx_stream_ssl_preread_module.c:450-466 | the exposed list has a comma before every name but the first |
| PrereadRoundTrip.RunExtensions | stream/ngx_stream_ssl_preread_module.c:332-480 | any well-formed extension block is parsed to the exposed host, protocol list and version of its extensions, unknown ones skipped |
| PrereadRoundTrip.RunHello | stream/ngx_stream_ssl_preread_module.c:257-487 | the parser accepts every printed ClientHello and exposes the expected version, host and protocols, whatever bytes follow |
| PrereadRoundTrip.PrereadRoundTrip | stream/ngx_stream_ssl_preread_module.c:106-496 | every well-formed ClientHello, cut into any records that fit the buffer and delivered in any portions, ends in OK with the first host name, the comma-joined protocols and the right version, even if the client closes right behind it |
| PrereadSound.Exactly | stream/ngx_stream_ssl_preread_module.c:257-487 | the parser succeeds with an output exactly if its input starts with a message of the grammar that shows this output; the grammar leaves open what the parser skips and nothing else |
| PrereadGrammar.ItemBytes | stream/ngx_stream_ssl_preread_module.c:332-480 | the extensions of the grammar byte by byte: types 0, 16 and 43 with the lengths inside them, and any other with the length in its header |
| PrereadRejects.Decided | stream/ngx_stream_ssl_preread_module.c:257-282 | once the handshake type is seen to be another, or all bytes of the message are there, the parser has decided |
| PrereadLaws.PhaseMeans | stream/ngx_stream_core_module.c:202-310 | whatever a client sends in whatever portions is a list of handshake records and a rest: OK means that the joined fragments start with a message of the grammar, whose names are then shown, or that a version 2 hello follows; DECLINED means that no message of the grammar starts so, or that neither record nor hello follows; in all other cases the next record and the message are unfinished |
| PrereadLaws.Passes | stream/ngx_stream_ssl_preread_module.c:106-496 | every message of the grammar passes with what it shows, in any records that fit the buffer and any delivery |
| PrereadLaws.DeclinesOtherType | stream/ngx_stream_ssl_preread_module.c:266-271 | a handshake message of another type is declined, however it is cut into records and delivered |
| PrereadLaws.DeclinesLongField | stream/ngx_stream_ssl_preread_module.c:484-487 | so is a message with a field before its extensions that goes past the end of the message |
| PrereadLaws.DeclinesShortBlock | stream/ngx_stream_ssl_preread_module.c:321-330 | and one that has a single byte where the length of its extension block should be |
| PrereadLaws.DeclinesLongExtension | stream/ngx_stream_ssl_preread_module.c:484-487 | and one with an extension, after any that are in order, that goes past the end of the message |
| PrereadLaws.DeclinesHostName | stream/ngx_stream_ssl_preread_module.c:379-397 | and one whose first server name is no host name or is longer than the list of names |
| PrereadLaws.DeclinesProtocol | stream/ngx_stream_ssl_preread_module.c:425-455 | and one with a protocol, after any that are in order, that is empty or longer than the rest of the list of protocols |
| Preread.Context.constructor | stream/ngx_stream_ssl_preread_module.c:133-145 | a new context is the initial state of the specification |
| Preread.Context.Copy | stream/ngx_stream_ssl_preread_module.c:245-251 | a copy to the current destination, in whichever array that lies, is the specified store of the bytes taken |
| Preread.Context.TakeTurn | stream/ngx_stream_ssl_preread_module.c:242-482 | one turn over the real buffers refines one turn of the specification, the final `left < size` rejection included |
| Preread.Context.ParseRecord | stream/ngx_stream_ssl_preread_module.c:204-496 | the parser over its arrays and saved fields computes exactly the specified run, and on success exposes its output |
| Preread.Context.Handle | stream/ngx_stream_ssl_preread_module.c:147-199 | the record loop refines the specified scan and saves where the next record starts; by the five bytes at its position a version 2 hello succeeds with its version, anything that is no handshake record of major version 3 declines, an incomplete record waits |
| Preread.Session.Handler | stream/ngx_stream_ssl_preread_module.c:106-200 | the handler creates its context on first data; it drops it whenever it declines, above all at bytes that are no handshake record, and keeps it with the reported output when it succeeds |
| Preread.Session.PrereadPhase | stream/ngx_stream_core_module.c:202-310 | from a new connection, receiving into the real buffer gives the specified delivery, be it a verdict, a full buffer, a client that is gone or no more data for now; a stream whose first five bytes are neither a version 2 hello nor a handshake record is declined with no context left; OK leaves the context holding what was reported |
| Peers.WordInside | stream/ngx_stream_upstream_round_robin.c:285-301 | every word of the tried bitset that a peer index touches lies inside the allocation |
| Peers.MarkTried | stream/ngx_stream_upstream_round_robin.c:593-596 | setting a peer's bit marks that peer and no other |
| Peers.WeightedPickIsPick | stream/ngx_stream_upstream_round_robin.c:548-602 | a weighted pick takes an untried usable peer, counts one connection on it alone, and leaves the sum of the current weights as it was |
| Peers.PlainPickIsPick | stream/ngx_stream_upstream_hash_module.c:263-278 | a pick that ignores the weights has the same effect on connections and check times and none on weights |
| Peers.SweptWeights | stream/ngx_stream_upstream_round_robin.c:574-580 | of the peers taking part the current weight grows by the effective weight, and an effective weight below the configured one grows back by one; no other peer changes |
| RoundRobin.InitRoundRobinPeer | stream/ngx_stream_upstream_round_robin.c:281-307 | a session starts with an empty tried bitset that is large enough for its group and for the backup group |
| RoundRobin.PeerConnection.Sweep | stream/ngx_stream_upstream_round_robin.c:548-585 | the sweep raises exactly the eligible untried peers, each current weight by the effective one and each lowered effective weight by one, adds up their effective weights and finds the first with the largest current weight |
| RoundRobin.PeerConnection.GetPeer | stream/ngx_stream_upstream_round_robin.c:531-605 | the chosen peer is the first best of the eligible ones and pays back the whole share, or nothing changes if none is eligible |
| RoundRobin.PeerConnection.SwitchToBackup | stream/ngx_stream_upstream_round_robin.c:498-509 | moving to the backup group clears the part of the bitset that covers it, inside the allocation |
| RoundRobin.PeerConnection.GetRoundRobinPeer | stream/ngx_stream_upstream_round_robin.c:441-527 | the get is a single-peer grant, a weighted pick in the current group, or the same in the backup group after a one-way switch; BUSY changes no count |
| RoundRobin.PeerConnection.Free | stream/ngx_stream_upstream_round_robin.c:609-676 | giving a peer back counts one connection less; in a group of several a failure counts in fails, sets both times to now and lowers the effective weight by weight/max_fails down to 0, and a success clears fails exactly if the check passed; a try is used up, all of them for a single peer, which keeps no failures |
| RoundRobin.PeerConnection.NotifyConnect | stream/ngx_stream_upstream_round_robin.c:680-703 | an established connection clears the failure count exactly if the peer was used since it last failed, and changes nothing else |
| Fairness.SumStaysZero | stream/ngx_stream_upstream_round_robin.c:563-602 | along any run of picks from all-zero weights the current weights add up to zero |
| Fairness.AboveMinusTotal | stream/ngx_stream_upstream_round_robin.c:574-598 | no current weight ever falls to minus the total weight |
| Fairness.NeverAhead | stream/ngx_stream_upstream_round_robin.c:548-598 | with every peer eligible at full weight, after any t picks peer i was chosen fewer than t*w/W + 1 times |
| Fairness.ExactlyFair | stream/ngx_stream_upstream_round_robin.c:548-598 | after every whole cycle of W picks each peer was chosen exactly its weight in times, and all current weights are zero again |
| Fairness.GetIsFairStep | stream/ngx_stream_upstream_round_robin.c:471-490 | the round robin get of a session that finds every peer eligible is such a pick |
| LeastConn.LoadOrder | stream/ngx_stream_upstream_least_conn_module.c:163-170 | comparing conns/weight by cross-multiplication is a consistent order, so a running minimum is a minimum |
| LeastConn.FirstPassStep | stream/ngx_stream_upstream_least_conn_module.c:131-173 | each turn of the first pass keeps the first peer of least load so far, and whether another ties with it |
| LeastConn.TiesFromFirst | stream/ngx_stream_upstream_least_conn_module.c:182-203 | whichever tied peer stands for all, the second pass selects the same ties, none of them before its starting point |
| LeastConn.SecondPass | stream/ngx_stream_upstream_least_conn_module.c:186-227 | though `best` moves on the way, the second pass raises exactly the tied peers and ends at the first with the largest current weight |
| LeastConn.ChoosePeer | stream/ngx_stream_upstream_least_conn_module.c:131-228 | the chosen peer has the least load of all eligible untried ones, ties being settled by weight |
| LeastConn.GetLeastConnPeer | stream/ngx_stream_upstream_least_conn_module.c:97-280 | the least-connections get is such a choice in the current group, or the same in the backup group after the switch |
| PeerLaws.TakenIsBest | stream/ngx_stream_upstream_least_conn_module.c:131-228 | what a scanning get takes is up, below its connection limit, not disabled and not tried; for least_conn no other such peer is less loaded; of those that compete it is the first with the largest current plus effective weight |
| PeerLaws.TakenLeaves | stream/ngx_stream_upstream_least_conn_module.c:207-271 | what such a get leaves behind, field by field: one connection more and a renewed check on the taken peer, raised weights on those that competed, nothing else, and the same sum of current weights |
| PeerLaws.BusyMeans | stream/ngx_stream_upstream_round_robin.c:498-527 | a get gives up only if every peer of both groups has been tried or may not be taken, and then changes nothing |
| PeerLaws.GotFrom | stream/ngx_stream_upstream_round_robin.c:471-509 | the backup group is asked only when the current one has no peer left to take, with the tried bits of its peers cleared, and the other group stays as it was |
| PeerLaws.SingleMeans | stream/ngx_stream_upstream_round_robin.c:456-469 | a single peer is given exactly if it is up and below its connection limit; its failures do not matter |
| Choosers.OneOwner | stream/ngx_stream_upstream_random_module.c:417-428 | a residue has one owner, so the binary search and the subtract-and-walk agree on every residue |
| Choosers.OwnedResidues | stream/ngx_stream_upstream_random_module.c:139-143 | each peer owns exactly as many residues as its weight |
| Choosers.SubtractAndWalk | stream/ngx_stream_upstream_hash_module.c:213-221 | the walk over the peers finds the owner of the residue and never runs off the list |
| Choosers.BuildRanges | stream/ngx_stream_upstream_random_module.c:137-143 | the ranges are the prefix sums of the weights |
| Choosers.SearchRanges | stream/ngx_stream_upstream_random_module.c:407-429 | the binary search over the prefix sums finds the owner of the residue |
| Probing.Probe | stream/ngx_stream_upstream_hash_module.c:190-261 | the hash method takes the first probe that hits an eligible untried peer, every earlier probe having missed, or gives up after its tries |
| Probing.GetHashPeer | stream/ngx_stream_upstream_hash_module.c:163-281 | the hash get is that probe's peer, or a round robin get once the tries are used up; the running hash stays the sum of its probes |
| PeerLaws.HashIsSum | stream/ngx_stream_upstream_hash_module.c:205-212 | the running hash is the sum of all probes so far modulo 2^32 |
| PeerLaws.CandidateMeans | stream/ngx_stream_upstream_hash_module.c:211-221 | a probe looks at the peer in whose share of the total weight that sum falls |
| PeerLaws.ProbedMeans | stream/ngx_stream_upstream_hash_module.c:224-278 | the peer a probing get takes may be taken and was not tried; it gets one connection and a renewed check, its bit is set, and nothing else changes |
| Probing.Draw | stream/ngx_stream_upstream_random_module.c:233-274 | one draw takes the first drawn peer that is eligible, every earlier draw having missed; two draws take the one of the first two different eligible peers that is not more loaded; none is taken only when all tries are used up, each by a draw |
| Probing.GetRandomPeer | stream/ngx_stream_upstream_random_module.c:204-403 | the random get takes the peer such draws end with, or is a round robin get after as many draws as there were tries |
| PeerLaws.DrawMeans | stream/ngx_stream_upstream_random_module.c:233-391 | one draw takes the last drawn peer, all drawn before being unusable; two draws take, of the first usable one and the next different usable one, the one that is not more loaded |
| HashRing.FillPoints | stream/ngx_stream_upstream_hash_module.c:321-389 | the point array holds 160 points for each unit of weight of each peer in order; a peer's first point is the checksum of its server started from 0, each next one is started from the hash of the point before |
| HashRing.ChainedOnce | stream/ngx_stream_upstream_hash_module.c:341-389 | a list in that form is the one the removal theorem is about, so the form leaves no choice |
| HashRing.PointsChained | stream/ngx_stream_upstream_hash_module.c:341-389 | and the points of the removal theorem have that form |
| HashRing.Compact | stream/ngx_stream_upstream_hash_module.c:396-402 | compacting the sorted points in place leaves strictly increasing hashes, all from the list and none of its hashes lost |
| HashRing.RingOfSorted | stream/ngx_stream_upstream_hash_module.c:391-402 | a ring of the sorted points is a ring of the points, whichever order sorting left equal hashes in |
| HashRing.InitChash | stream/ngx_stream_upstream_hash_module.c:285-409 | the list filled in has that chained form, and sorting and compacting gives a ring of exactly its points |
| HashRing.FindPoint | stream/ngx_stream_upstream_hash_module.c:433-461 | the binary search returns the exact lower bound of the hash |
| HashRing.OwnerLands | stream/ngx_stream_upstream_hash_module.c:439-460 | the owner of a key is the first hash at or after it, wrapping around, seen against the whole point list |
| HashRing.RemovalMovesOnlyItsKeys | stream/ngx_stream_upstream_hash_module.c:321-402 | without collisions between servers, removing a server leaves the owner of every key it did not own unchanged, however equal hashes were sorted |
| ConsistentHash.StartsAtOwner | stream/ngx_stream_upstream_hash_module.c:482-486 | a session starts at the owner of its key although its position is kept in 32 bits |
| ConsistentHash.SweepServer | stream/ngx_stream_upstream_hash_module.c:534-582 | the sweep is the weighted sweep restricted to the peers of one server |
| ConsistentHash.Walk | stream/ngx_stream_upstream_hash_module.c:527-596 | the walk stops at the first ring position whose server has an eligible peer, every position before it having none |
| ConsistentHash.GetChashPeer | stream/ngx_stream_upstream_hash_module.c:495-618 | the consistent hash get takes the best peer of that server, or falls back to round robin after its tries |
| PeerLaws.RingMeans | stream/ngx_stream_upstream_hash_module.c:534-617 | the taken peer belongs to the server at that position, may be taken, was not tried, and is the first of the largest current plus effective weight among such peers of the server |
| PeerLaws.WalkMeans | stream/ngx_stream_upstream_hash_module.c:527-596 | no peer of a server passed on the way there could be taken |
| Sessions.GetByIsLegal | stream/ngx_stream_upstream_round_robin.c:441-527 | every outcome of the scanning gets is one the transition system allows |
| Sessions.ProbedIsLegal | stream/ngx_stream_upstream_hash_module.c:263-280 | so is every outcome of the hash and random gets |
| Sessions.RingIsLegal | stream/ngx_stream_upstream_hash_module.c:584-617 | and of the consistent hash get |
| Sessions.StepKeeps | stream/ngx_stream_proxy_module.c:732-751 | every get, free, notification and tick of any session, interleaved in any order, keeps the invariant of peers and sessions |
| SessionRuns.ConnectionAccounting | stream/ngx_stream_upstream_round_robin.c:458-490 | in every run a peer's conns is the number of sessions holding it, and at most max_conns if that is set |
| SessionRuns.NothingLeaks | stream/ngx_stream_proxy_module.c:2002-2013 | when all sessions are gone no peer counts a connection |
| SessionRuns.WeightsStayBalanced | stream/ngx_stream_upstream_round_robin.c:563-666 | in every run the current weights of each group add up to zero and effective weights stay between 0 and weight, for all methods alike |
| SessionRuns.NoPeerTwice | stream/ngx_stream_upstream_round_robin.c:498-596 | no session is given the same peer twice, switch to the backup group included, nor more peers than it had tries, and its bitset covers every group |
| Sessions.UpCountIs | stream/ngx_stream_upstream_round_robin.c:63-89 | the tries a session starts with from a group are the number of its peers that are not down |
| SessionRuns.DisabledSpacing | stream/ngx_stream_upstream_round_robin.c:563-602 | two picks that find a peer disabled are more than its fail_timeout apart |
| FailureRuns.LeftAlone | stream/ngx_stream_upstream_round_robin.c:563-568 | once a peer of several has failed max_fails times with no sign of life between, no session is given it until more than fail_timeout after each of these failures, in every run |
| FailureRuns.StepFails | stream/ngx_stream_upstream_round_robin.c:636-655 | in every step a failure raises the count by one at the time it happens, and only a sign of life from the peer lowers it |
| Proxy.Session.constructor | stream/ngx_stream_proxy_module.c:576-587 | a session starts holding nothing and may try every peer that is up, in both groups, cut to next_upstream_tries if that is set |
| Proxy.Session.Connect | stream/ngx_stream_proxy_module.c:696-773 | with round robin or least_conn, connecting and retrying ends with a connection, a broken one, no live peer, or nothing left to try, every earlier round having been refused; it makes at most as many attempts as there are tries and leaves exactly the peer still held counted |
| Proxy.Session.NextUpstream | stream/ngx_stream_proxy_module.c:1903-1965 | a failed peer is given back before the next is asked for, and nothing stays counted when the session gives up |
| Proxy.Session.Finalize | stream/ngx_stream_proxy_module.c:1969-2013 | finalizing gives back the peer that is still held, and only then |
| GeoBuckets.SplitMeans | stream/ngx_stream_geo_module.c:803-894 | each of the four edits inside a stored range changes the value on exactly the added piece and keeps the list sorted and disjoint |
| GeoBuckets.AddPiece | stream/ngx_stream_geo_module.c:774-922 | a piece is accepted exactly if it meets no stored range or lies within one, and then it alone changes the lookup |
| GeoBuckets.AcceptedMeans | stream/ngx_stream_geo_module.c:774-922 | the acceptance condition in the bounds of the stored ranges: all before or behind the piece, or one around it |
| GeoBuckets.DeletePiece | stream/ngx_stream_geo_module.c:965-987 | exactly the identically bounded range is taken out of the list, and a warning is due exactly if there is none |
| GeoBuckets.DeleteUndoesAdd | stream/ngx_stream_geo_module.c:774-987 | deleting a piece that met nothing when added restores every lookup of the bucket |
| Geo.NextBucket | stream/ngx_stream_geo_module.c:742-744 | the 32-bit step goes to the next bucket's first address, and wraps only after bucket 0xffff |
| Geo.GeoTable.AddRange | stream/ngx_stream_geo_module.c:734-932 | a range of addresses is accepted exactly if its piece is acceptable in every bucket, and then the lookup changes to its value on exactly these addresses; a refused one changes at most some of them |
| Geo.GeoTable.DeleteRange | stream/ngx_stream_geo_module.c:936-997 | an address loses its value exactly if it is in the range and its bucket stored that piece; the warning says whether some bucket did not |
| Geo.DeleteUndoesAddRange | stream/ngx_stream_geo_module.c:734-997 | deleting a range that met nothing when added restores every lookup |
| GeoImage.SizeExact | stream/ngx_stream_geo_module.c:432-475 | the size accumulated while reading is the length of the image |
| GeoWriter.AnyOrder | stream/ngx_stream_geo_module.c:1241-1242 | the values take the same room in whatever order the tree holds them |
| GeoWriter.Context.GeoValue | stream/ngx_stream_geo_module.c:1196-1245 | equal values are kept once, and a new one pays for exactly its aligned structure and text |
| GeoWriter.Context.Freeze | stream/ngx_stream_geo_module.c:453-476 | freezing gives every bucket its list, empty ones none, and adds up exactly the bytes the lists will take |
| GeoWriter.CopyValues | stream/ngx_stream_geo_module.c:1584-1609 | the values of the tree are laid out in preorder and every node learns where its value went |
| GeoWriter.OffsetFound | stream/ngx_stream_geo_module.c:1558-1562 | with distinct values the offset looked up by text is where that text was written |
| GeoWriter.WriteLists | stream/ngx_stream_geo_module.c:1542-1572 | each pointer is the place of its bucket's list, NULL for none, and the lists follow the table without gaps |
| GeoWriter.CreateBase | stream/ngx_stream_geo_module.c:1506-1580 | a zeroed mapping of the accumulated size is filled to its last byte with header, checksum of the body and image |
| GeoLoader.LoadValues | stream/ngx_stream_geo_module.c:1434-1446 | the value loop relocates every data pointer, stops at the terminator and sums the bytes as they were in the file |
| GeoLoader.LoadPointers | stream/ngx_stream_geo_module.c:1450-1456 | the table loop sums every pointer as it was and relocates all but NULL ones |
| GeoLoader.LoadLists | stream/ngx_stream_geo_module.c:1460-1470 | the list loops relocate every value pointer and end exactly at the end of the file |
| GeoLoader.LoadBase | stream/ngx_stream_geo_module.c:1424-1486 | loading turns the image for address 0 into the image for the load address, and accepts it exactly if the checksum of the whole body matches |
| GeoReader.FindDecides | stream/ngx_stream_geo_module.c:294-303 | an address has the value of the first stored range around it, or the default if there is none |
| GeoReader.RangeVariable | stream/ngx_stream_geo_module.c:294-308 | following the relocated pointers gives the value of the first range of the bucket that covers the address, and the default if none does |
| GeoConfig.StaysMet | stream/ngx_stream_geo_module.c:713-721 | if no lookup has got a value that is not kept, no range has |
| GeoConfig.Configuration.GeoRange | stream/ngx_stream_geo_module.c:623-728 | every range directive, accepted or not, keeps the table in order and its values among those kept; unparsable addresses, 255.255.255.255 and reversed bounds are refused without a change |
| GeoRestart.Restart | stream/ngx_stream_geo_module.c:451-484 | after any directives: write, read back at any address, look up: the base is accepted, and a 32-bit address gets the value of every stored range that covers it, or the default if none does |
| LimitTree.InsertKeeps | stream/ngx_stream_limit_conn_module.c:292-329 | inserting a key that was not found keeps the tree ordered and adds exactly that node |
| LimitTree.RotationKeeps | work/nginx/1.21.6/nginx-1.21.6/src/core/ngx_rbtree.c:318-376 | either rotation of balancing keeps order and contents |
| LimitTree.Lookup | stream/ngx_stream_limit_conn_module.c:333-369 | in an ordered tree the node with the hash and key is found exactly if there is one |
| LimitConn.UndoesReserve | stream/ngx_stream_limit_conn_module.c:373-398 | releasing undoes reserving, the creation and removal of the node included |
| LimitConn.ClearsAll | stream/ngx_stream_limit_conn_module.c:402-414 | taking this module's records off the head of the pool gives back all of them exactly if no foreign record lies above one |
| LimitConn.Session.Cleanup | stream/ngx_stream_limit_conn_module.c:373-398 | a cleanup lowers its node's count by one and removes the node at zero |
| LimitConn.Session.CleanupAll | stream/ngx_stream_limit_conn_module.c:402-414 | the records on top go, each lowering its own count |
| LimitConn.Session.Handle | stream/ngx_stream_limit_conn_module.c:164-288 | with room under every limit each usable key, of 1 to 255 bytes, is counted once in its zone and recorded, and no other node changes; otherwise nothing of this call stays, and the verdict and status follow dry_run |
| LimitConn.RejectionRestores | stream/ngx_stream_limit_conn_module.c:208-264 | a rejected session leaves zones and pool as they were exactly if its pool had no record of this module on top |
| LimitConn.RoomMeans | stream/ngx_stream_limit_conn_module.c:181-243 | there is room exactly if every usable key has a count below its limit, or no node and memory for one |
| LimitConn.Granted | stream/ngx_stream_limit_conn_module.c:215-285 | counting the records of a call raises the count of each usable key in its zone by exactly one and no other |
| LimitRuns.Accounting | stream/ngx_stream_limit_conn_module.c:181-285 | in every interleaving, sessions that end with an error between two limits included, a counter is the number of reservations outstanding, its node exists exactly while there are any, and it never exceeds the largest configured limit |
| LimitRuns.RejectedHoldsNothing | stream/ngx_stream_limit_conn_module.c:244-264 | a rejected session, dry run or not, holds nothing exactly if no foreign record was put above one of its own |
| LimitRuns.MixedKeeps | stream/ngx_stream_limit_conn_module.c:406-413 | a run in which a rejected session keeps a reservation, because a foreign record came between its two limits |
| LimitRuns.NothingLeft | stream/ngx_stream_limit_conn_module.c:390-395 | when every pool is gone no node is left |
| ScriptTemplate.ParseSound | stream/ngx_stream_script.c:374-487 | an accepted template is the print of well-formed pieces |
| ScriptTemplate.ParseComplete | stream/ngx_stream_script.c:374-487 | every print of well-formed pieces is accepted, as those pieces |
| ScriptTemplate.CountIsExact | stream/ngx_stream_script.c:152-160 | the number of variables counted beforehand is the number compiled |
| ScriptTemplate.PrintMeans | stream/ngx_stream_script.c:374-487 | what a piece looks like in a template, byte by byte |
| ScriptCompiler.Compiler.VariableIndex | stream/ngx_stream_variables.c:273-329 | a name gets the index of its first entry, in any case, and a new entry only if it has none |
| Script.SameName | stream/ngx_stream_variables.c:294-302 | two names are the same exactly if they differ at most in the case of their ASCII letters |
| ScriptCompiler.Compiler.AddCopyCode | stream/ngx_stream_script.c:672-713 | a literal is appended to both programs, padded to whole words, and takes a pending NUL with it if it is the last |
| ScriptCompiler.Compiler.Compile | stream/ngx_stream_script.c:364-487 | compilation succeeds on exactly the well-formed templates, and the programs stand for the template with every piece replaced and one NUL behind it if asked for |
| Script.SameVariables | stream/ngx_stream_script.c:752-795 | the compiled instructions use exactly the variables the template mentions |
| ScriptCompiler.CompileComplexValue | stream/ngx_stream_script.c:140-240 | the flush list holds the variables used and its end mark lies inside the array; a template without dollars stays a constant |
| ScriptCompiler.ConstantIsItself | stream/ngx_stream_script.c:174-181 | substituting into a template without dollars gives the template |
| ScriptEngine.StillDenotes | stream/ngx_stream_variables.c:346-378 | evaluating further variables changes no value already settled |
| ScriptEngine.Session.GetIndexed | stream/ngx_stream_variables.c:333-379 | a cached slot is returned as it is and calls no handler; any other calls its handler once: a value is stored with its text and cacheability and returned, not found is remembered, a failure returns nothing and is remembered too; no other slot changes |
| ScriptEngine.Session.Flush | stream/ngx_stream_script.c:37-55 | exactly the listed variables that must not be cached are emptied |
| ScriptEngine.Session.Length | stream/ngx_stream_script.c:76-85 | the first pass lands on every instruction, calls the handler of each used variable that was not settled exactly once however often it occurs, and returns the length of the value |
| ScriptEngine.Session.Fill | stream/ngx_stream_script.c:93-100 | the second pass lands on every padded instruction, calls no handler and fills the buffer to its last byte |
| ScriptEngine.Session.ComplexValue | stream/ngx_stream_script.c:59-105 | exactly the used variables that are not cached or may not stay so have their handlers called, each once; the value is the join of one text for each instruction: a literal, the answer of that one call, the text cached before, or the captured bytes |
| ScriptEngine.Interpret | stream/ngx_stream_script.c:59-240 | compiling and running a template joins one text for each piece: its literal, the answer of the one handler call made for the variable or its cached text, or the captured bytes, with exactly one trailing NUL if asked for and the template has a dollar; the handlers called are those of the mentioned variables that are not cached or may not stay so |
| Relay.UpdateSent | work/nginx/1.21.6/nginx-1.21.6/src/core/ngx_buf.c:271-314 | after sending k bytes the rest of the chain describes exactly the bytes behind them and starts with one of those |
| RelaySession.AfterSend | work/nginx/1.21.6/nginx-1.21.6/src/core/ngx_buf.c:184-223 | freeing the used-up headers at the front loses no byte and touches no header still in use |
| RelaySession.Direction.WriteFilter | stream/ngx_stream_write_filter_module.c:58-297 | the new chain goes behind the saved one, the first bytes of both go out, and what is saved is what was not sent |
| RelaySession.Direction.UpdateChains | work/nginx/1.21.6/nginx-1.21.6/src/core/ngx_buf.c:184-223 | the output becomes busy, exactly the used-up headers at the front are freed |
| RelaySession.Direction.Receive | stream/ngx_stream_proxy_module.c:1697-1758 | received bytes are put behind all others without overwriting one that is still to be sent |
| RelaySession.Direction.Connect | stream/ngx_stream_proxy_module.c:864-919 | the PROXY protocol header goes before the preread bytes and those before what was received since |
| RelaySession.Direction.Process | stream/ngx_stream_proxy_module.c:1650-1765 | what the destination was handed is always a prefix of all that was received, in order, and nothing is lost between the two, buffer resets included; the loop ends only for want of room or input, with all output handed on |
| RelaySession.Direction.Delivered | stream/ngx_stream_proxy_module.c:1667-1670 | with nothing waiting the destination has been handed everything |
| RelaySession.CarriedIs | stream/ngx_stream_proxy_module.c:1697-1735 | what a side sends altogether is the join of its chunks |
| RelaySession.Session.constructor | stream/ngx_stream_proxy_module.c:448-457 | both directions start empty, with one pool of headers and a buffer each |
| RelaySession.Session.OtherStays | work/nginx/1.21.6/nginx-1.21.6/src/core/ngx_buf.c:155-223 | what one direction sends, receives, takes from the shared free headers or gives back leaves the bytes and headers of the other as they are |
| RelaySession.Session.Process | stream/ngx_stream_proxy_module.c:1615-1765 | in either direction, before or after the upstream connection: nothing is lost or reordered on the one side, the other stays as it was, and no header is ever in use on both |
| RelaySession.Session.Connect | stream/ngx_stream_proxy_module.c:852-919 | the first bytes go to the upstream server before all that the client sent meanwhile, without touching the other direction |
| Phases.NextPhase | stream/ngx_stream.c:366-373 | at the end of a phase the table continues with the next, last registered handler first |
| Phases.InitPhaseHandlers | stream/ngx_stream.c:322-377 | the table built in one pass is the nested phases flattened, inside its allocation |
| Phases.FlatAt | stream/ngx_stream.c:322-377 | entry j of a phase is its j-th last registered handler, with the preread checker in the last phase, and leads to the end of its phase |
| Phases.FlatEnd | stream/ngx_stream.c:350-377 | behind all phases come the content entry and the null entry, and nothing else |
| Phases.Session.RunPhases | stream/ngx_stream_core_module.c:141-199 | driving the flat table asks the same handlers in the same order as the nested reading and stops at the same place; each index follows from the one before by its answer, to the next phase on OK and to the next entry on DECLINED, and AGAIN, DONE and errors stop it |

## Left out

- Allocation failure, except where the code undoes something because of it (a limit zone out of memory).
- `ngx_qsort`, the checksum and hash tables, PCRE, red-black balancing and deletion: taken as their contracts say; sorting gives some permutation in order of the hashes, which may leave equal hashes in any order.
- The tried bitset's words are sets of bits rather than integers with masks; indices of words and bits are as in the code.
- LimitConn.Session: nodes of all zones are one map from zone and key to the count; `LimitTree` shows separately that an ordered tree with rotations behaves as such a map.
- LimitTree.InsertKeeps: the tree is a value, so the loop over parent pointers is a recursion here.
- GeoWriter.Context: the search tree of values is a list of distinct values while it grows and a tree of any shape when it is written; its hash order is not modelled.
- GeoImage.Val: the bit of a stored value the code leaves uninitialised is taken as 0 in its first word; the padding between the fields is arbitrary.
- GeoLoader.LoadBase: loading is proved for files whose body is laid out by the writer, with any header and any checksum in it; a damaged body is not modelled.
- ScriptCompiler.CompileComplexValue: `conf_prefix` and `root_prefix`, which complete file names, are not modelled.
- ScriptEngine.Session.GetIndexed: the depth counter is constant during one evaluation; nested evaluation inside a handler is part of its answer.
- Sessions.Step: failures counted by other modules, upstream zones and configuration reloads are not modelled.
- RoundRobin.PeerConnection: SSL session caching per peer is not modelled.
- Fairness.NeverAhead: stated for full effective weights and every peer eligible, as in the design of the algorithm; `SessionRuns.WeightsStayBalanced` covers all other runs.
- Proxy.Session.Get: drives round robin and least_conn; the gets of the hash, random and consistent hash methods are covered by `SessionRuns` in every interleaving.
- RelaySession.Session: datagram sessions, rate limits, half-close, timers and SSL are not modelled; the destination is a plain TCP socket.
- Phases.Session.RunPhases: an index of the table stands for one checker call; the receive loop inside the preread checker is modelled in `Preread`.
- The CIDR mode of geo, map, split_clients, access, realip, return, set, log and GeoIP: only easier members.
- Directive parsing, configuration merging, listening sockets, resolvers, upstream zones and the event loop.
- The unfinished demonstration modules outside `stream/`.
