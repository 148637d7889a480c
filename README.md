# Simulcast SDP rewriting, modelled in Dafny

This project models the simulcast engine of lib-jitsi-meet, `lib/index.js`: the `Simulcast` object that
rewrites parsed SDP media sections ("mLines") so that a browser sends and receives simulcast video. The
engine has four parts.

- **Remote normaliser.** It rewrites every video section of a received description. *Explode*
  (`explodeRemoteSimulcast`) turns each `SIM` group into independent streams. Each layer gets its msid and
  cname suffixed with `/i`, the members of its related `FID` groups get the same identity, the lines are
  rewritten in emission order, and the `SIM` group is dropped. *Implode* (`implodeRemoteSimulcast`) keeps
  only the primary layer of each `SIM` group. It deletes the higher layers, every non-`SIM` group that
  touches them, and all the members of those groups.
- **Conference marker.** The received video section loses every `x-google-flag:conference` entry of its
  `invalid` list when the layer cache is empty. Otherwise it gets one appended when it has none, and
  any entries already there stay.
- **Local synthesiser** (`_restoreSimulcast`). It finds the primary SSRC of an outgoing video section: the
  only SSRC, or the first member of the `FID` group when there are two SSRCs. Then it either restores the
  cached layers (a cache hit) or draws `numOfLayers - 1` fresh layer SSRCs, plus one RTX SSRC per layer
  when the section has RTX. The cache becomes the layers of the `SIM` group it emitted. As
  written, a cache hit on a section with RTX lists the RTX SSRC among the layers. The model
  leaves it out (see Findings).
- **Entry points and cache control.** The constructor defaults, `clearSsrcCache`, `setSsrcCache`,
  `validateDescription`, the video filter of `processVideo`, and the send-direction filter of
  `mungeLocalDescription`.

Files:

- `sdp.dfy` (module `Sdp`): the media section. It holds the value types and the `MediaLine` class whose
  fields the transforms reassign, plus sequence and string helpers.
- `source_store.dfy` (module `SourceStore`): `getSsrcAttribute`, and the keyed view of the `a=ssrc` lines
  that `parseSsrcs`/`writeSsrcs` provide.
- `remote_normalizer.dfy` (module `RemoteNormalizer`): explode and implode.
- `conference_flag.dfy` (module `ConferenceFlag`): `removeGoogConference` and `assertGoogConference`.
- `simulcast_layers.dfy` (module `SimulcastLayers`): the topology check, the fill, the generation and the
  restore, as functions of the section and the cache.
- `simulcast.dfy` (module `Simulcast`): the `Simulcast` class with its `ssrcCache` field, its methods,
  and the two entry points.

How the model is built:

- Every routine that changes a section in place is a method on a `MediaLine`, with `modifies mLine`.
- Each such method is proved equal to a specification function of the section it started from. For
  example, `RestoreSimulcast` ensures `Restored(mLine.Sources(), ssrcCache) == RestoreSpec(old(...))`.
- The lemmas prove what those functions guarantee.
- A JavaScript TypeError (a property read on `undefined`) becomes an explicit outcome: `ok == false`,
  `None` or `Crash`.

Several callbacks in the source have braces but no `return`: lib/index.js:30-31, 257, 285, 327-328, 397-399
and 418. As written, those `filter`/`find` calls see `undefined`, so they keep nothing. For example,
`numSsrcs` is always 0, and `_restoreSimulcast` would always return at once. The model follows the evident
intent, in which each callback returns its comparison. The guarantees stated at lib/index.js:376-390 depend
on that reading.

## Model

| member | source | states |
|---|---|---|
| SourceStore.GetSsrcAttributeSpec | lib/index.js:27-33 | The lookup returns the value of the first line of that SSRC with that attribute, and nothing when there is no such line. |
| SourceStore.WriteThenGet | lib/index.js:134 | Writing the sources in an order without repeats, then looking up an SSRC of that order, gives back its msid and cname. |
| SourceStore.WriteSsrcsIds | lib/index.js:134 | The written lines carry exactly the SSRCs of the order that have a msid or a cname. |
| SourceStore.WriteParseWrite | lib/index.js:147-191 | Parsing the written lines and writing them again without an order reproduces them. |
| RemoteNormalizer.ExplodeRemoteSimulcast | lib/index.js:82-137 | The section becomes `Explode` of what it was, on failure too, with the `SIM` groups already processed left rewritten. `ok` is false exactly when a layer without a source or msid, or a related member without a source, raises a TypeError. Kind, direction and `invalid` are unchanged. |
| RemoteNormalizer.ExplodeGroup | lib/index.js:101-132 | The layer loop over one `SIM` group computes `ExplodeMembers`, and fails exactly when it raises. |
| RemoteNormalizer.CopyToRelatedGroups | lib/index.js:111-131 | The scan of the related groups of one layer computes `CopyToRelated`, and fails exactly when it raises. |
| RemoteNormalizer.CopyIdentityInto | lib/index.js:122-128 | The members of one related group take the layer's identity, each member other than the layer joins the order, and a member without a source fails. |
| RemoteNormalizer.ExplodeWithoutSim | lib/index.js:84-97 | A section without groups, or without a `SIM` group, is returned as it is, without error. |
| RemoteNormalizer.ExplodeRemovesSim | lib/index.js:92-136 | After a successful explode the groups are exactly the non-`SIM` groups in their original order, so no `SIM` group is left. |
| RemoteNormalizer.ExplodeIdempotent | lib/index.js:82-137 | Exploding an exploded section succeeds and changes nothing. |
| RemoteNormalizer.ExplodeOrder | lib/index.js:92-135 | The lines are rewritten in emission order: for each `SIM` group from the last to the first, each layer is followed by the other members of its related groups. |
| RemoteNormalizer.CopyIdentityOrder | lib/index.js:122-128 | One related group appends its members other than the layer to the order. |
| RemoteNormalizer.CopyToRelatedOrder | lib/index.js:111-131 | The related groups of a layer append their other members, group by group. |
| RemoteNormalizer.ExplodeMembersOrder | lib/index.js:101-132 | One `SIM` group appends each layer followed by its siblings. |
| RemoteNormalizer.ExplodeFromOrder | lib/index.js:92-136 | Scanning the groups from the end appends the layer order of each `SIM` group in turn. |
| RemoteNormalizer.CopyIdentityFrame | lib/index.js:122-124 | Every member of the related group gets exactly the layer's source; every other source is unchanged. |
| RemoteNormalizer.CopyToRelatedFrame | lib/index.js:111-131 | Every SSRC sharing a non-`SIM` group with the layer gets the layer's source; every other source is unchanged. |
| RemoteNormalizer.ExplodeLayerFrame | lib/index.js:103-131 | Layer `i` and every SSRC related to it get the layered identity `s/i t/i`, `c/i`; no other source changes. |
| RemoteNormalizer.ExplodeLayerState | lib/index.js:106-124 | In a section with one `SIM` group whose layers share no group, each layer and each SSRC related to it ends with the layer's identity suffixed by its index. |
| RemoteNormalizer.ExplodeLayerWritten | lib/index.js:101-134 | Each layer and each SSRC related to it is written, and the lines are the final sources in emission order. |
| RemoteNormalizer.ExplodeLayerIdentity | lib/index.js:106-108 | The msid `"s t"` of layer `i` becomes `"s/i t/i"` and its cname `c` becomes `"c/i"`; the layer and every SSRC related to it carry exactly those two lines. |
| RemoteNormalizer.ImplodeRemoteSimulcast | lib/index.js:139-200 | The section becomes `Implode` of what it was; kind, direction and `invalid` are unchanged. |
| RemoteNormalizer.MarkSimGroups | lib/index.js:150-189 | The sources lose the higher layers and everything related to them, and exactly the `SIM` groups and the groups touching a higher layer are marked. |
| RemoteNormalizer.NukeHigherLayers | lib/index.js:159-186 | The layers from index 1 on, and the members of their related groups, are deleted; the groups touching them are marked. |
| RemoteNormalizer.NukeRelated | lib/index.js:168-185 | Every member of each non-`SIM` group containing the SSRC is deleted, and exactly those groups are marked. |
| RemoteNormalizer.DeleteSources | lib/index.js:179-181 | Each listed SSRC is deleted from the sources. |
| RemoteNormalizer.RemoveMarked | lib/index.js:193-199 | The marked groups are removed; the rest stay in order. |
| RemoteNormalizer.ImplodeGroups | lib/index.js:150-199 | Exactly the non-`SIM` groups that touch no higher layer remain, so no `SIM` group is left. |
| RemoteNormalizer.ImplodeLines | lib/index.js:159-191 | The higher layers and the SSRCs related to them have no line left; every other SSRC keeps its msid and cname. |
| RemoteNormalizer.ImplodeWithoutSim | lib/index.js:147-199 | Without a `SIM` group, implode keeps the groups and only rewrites the lines in ascending SSRC order. |
| RemoteNormalizer.ImplodeIdempotent | lib/index.js:139-200 | Imploding an imploded section changes nothing. |
| RemoteNormalizer.ImplodeThenExplode | lib/index.js:82-200 | After implode there is nothing left to explode. |
| ConferenceFlag.RemoveGoogConference | lib/index.js:202-213 | `invalid` becomes `WithoutFlag` of what it was; an absent list stays absent, and nothing else changes. |
| ConferenceFlag.AssertGoogConference | lib/index.js:215-228 | `invalid` becomes present and equal to `WithFlag` of what it was, and nothing else changes. |
| ConferenceFlag.RemoveFlagSpec | lib/index.js:207-212 | No marker is left, every other entry is kept, and the list shrinks by exactly the number of markers. |
| ConferenceFlag.RemoveIdempotent | lib/index.js:202-213 | Removing twice is removing once. |
| ConferenceFlag.AssertFlagSpec | lib/index.js:220-227 | Earlier entries keep their places; one marker is appended, at the end, exactly when there was none. |
| ConferenceFlag.AssertIdempotent | lib/index.js:224-227 | Asserting twice is asserting once. |
| ConferenceFlag.RemoveThenAssert | lib/index.js:202-228 | Removing and then asserting leaves exactly one marker, last. |
| SimulcastLayers.FirstSimSpec | lib/index.js:256-257 | The `find` yields a group exactly when a `SIM` group exists, and what it yields is a `SIM` group of the section that no `SIM` group comes before. |
| SimulcastLayers.GenerateCache | lib/index.js:353-357 | After generation, `_parseSimLayers` reads the primary followed by the drawn layers. |
| SimulcastLayers.NewToOldKeys | lib/index.js:267-275 | The map has exactly the new SSRCs as keys. |
| SimulcastLayers.NewToOldDistinct | lib/index.js:267-275 | With distinct new SSRCs, `new[i]` maps to `old[i]`, or to null past the end of the old list or where it holds 0. |
| SimulcastLayers.ToAddMembers | lib/index.js:284-285 | The SSRCs to add are exactly the cached SSRCs that no new layer is renamed to. |
| SimulcastLayers.FillLayers | lib/index.js:277-319 | Each line is renamed through the map. Each SSRC to add gets an msid line and then a cname line carrying the first layer's identity. One `SIM` group is appended: the distinct SSRCs in first-appearance order (without the section's RTX SSRC), then the additions. |
| SimulcastLayers.GenerateLines | lib/index.js:323-372 | The existing lines are kept. Each drawn layer gets, in order, a cname line and an msid line copied from the primary. With RTX, each drawn RTX SSRC gets the same after them. |
| SimulcastLayers.GenerateGroups | lib/index.js:353-357 | The existing groups are kept, then one `SIM` group of the primary followed by the drawn layers, then one group per RTX SSRC. |
| SimulcastLayers.GenerateFids | lib/index.js:359-369 | With RTX, the `k`-th group after the `SIM` group is `FID` of layer `k` and its RTX SSRC. |
| SimulcastLayers.TopologyCrashes | lib/index.js:418-419 | The section `CrashingSection` (lines for SSRCs 1 and 2, only the group `SIM 1 2`) makes the source raise, and the corrected check leaves it alone. |
| SimulcastLayers.RestoreTopologyAgrees | lib/index.js:395-421 | The corrected topology check never raises and agrees with the source wherever the source does not raise; the RTX primary is the first member of the first `FID` group. |
| SimulcastLayers.RestoreSkips | lib/index.js:403-410 | No line, more than two SSRCs, or two SSRCs with no group: the section and the cache are left alone and nothing is drawn. |
| SimulcastLayers.SingleSourceTopology | lib/index.js:413-414 | A section whose lines all belong to one SSRC has that SSRC as its primary, without RTX. |
| SimulcastLayers.RestoreGenerates | lib/index.js:424-432 | On a miss for a single-stream section, the drawn layers follow the primary in one `SIM` group, and the cache becomes that list. |
| SimulcastLayers.RestoreRefills | lib/index.js:424-432 | On a hit for a single-stream section, with any cache holding the primary (without repeats, head not 0), nothing is drawn and the section's lines move to the head of the cache. After them, each other cached SSRC gets an msid line and then a cname line, in cache order, carrying the primary's msid and cname values. One `SIM` group lists the cache, and the cache is unchanged. |
| SimulcastLayers.RestoreStable | lib/index.js:384-386 | A second restore of the same section reuses the layers the first one drew: it draws nothing, emits the same `SIM` group and keeps the cache. |
| SimulcastLayers.RtxSourceTopology | lib/index.js:413-421 | A section whose first line is for `p`, with lines only for `p` and `rtx`, tied by `FID p rtx`, has the primary `p` with RTX, and `rtx` is its retransmission SSRC. |
| SimulcastLayers.RtxCollected | lib/index.js:291-298 | On such a section, the renaming pass collects `p` then `rtx` as written, and `p` alone when `rtx` is passed over. |
| SimulcastLayers.RestoreHitWithRtx | lib/index.js:291-298 | As written, a hit with the cache `[p] + rest` on a section with RTX leaves the cache `[p, rtx] + rest`, and the next hit leaves `[p, rtx, rtx] + rest`: the RTX SSRC joins the layers and the cache grows on every hit. |
| SimulcastLayers.RtxHitStable | lib/index.js:384-386 | With the correction, a hit on such a section (first line for `p`, cache headed by `p`) draws nothing, keeps the lines and the `FID` group, emits one `SIM` group listing the cache, and leaves the cache unchanged. |
| SimulcastLayers.RestoreStableRtx | lib/index.js:384-386 | For such a section (first line for `p`, lines only for `p` and `rtx`, one `FID p rtx` group), a first restore draws layers and RTX SSRCs, and the cache becomes the primary then the layers. A second restore of the same section draws nothing and keeps that cache and that `SIM` group. |
| Simulcast.NumOfLayers | lib/index.js:41-43 | A missing or zero option becomes 3, and any other value is kept, so the count is never 0. |
| Simulcast.Simulcast.constructor | lib/index.js:37-47 | Absent options mean no explode and three layers, and the cache starts empty. |
| Simulcast.Simulcast.ClearSsrcCache | lib/index.js:230-232 | The cache becomes empty and the options are unchanged. |
| Simulcast.Simulcast.SetSsrcCache | lib/index.js:242-244 | The cache is overwritten as given and the options are unchanged. |
| Simulcast.GenerateSsrc | lib/index.js:58-61 | The drawn SSRC lies in `[0, 0xffffffff)`. |
| Simulcast.Simulcast.BuildNewToOldSsrcMap | lib/index.js:267-275 | The loop builds `NewToOld`, whose keys are the new SSRCs; with distinct new SSRCs, position `i` maps to the old SSRC at `i`. |
| Simulcast.Simulcast.FillInSourceDataFromCache | lib/index.js:277-319 | The section becomes `FillSpec` of the section and the cache (the corrected fill, see Findings); kind, direction and `invalid` are unchanged. |
| Simulcast.RenameSources | lib/index.js:291-298 | Every line is renamed through the map, and the collected SSRCs are the distinct renamed SSRCs in first-appearance order, less those passed over. |
| Simulcast.AddCachedSources | lib/index.js:300-312 | An msid line and then a cname line are appended for each SSRC to add, which also join the `SIM` members in order. |
| Simulcast.Simulcast.GenerateSourceData | lib/index.js:323-372 | It draws `numOfLayers - 1` layers (none when the count is 1 or less) and, with RTX, as many RTX SSRCs, all below `0xffffffff`. The section becomes `GenerateSpec` of those draws. |
| Simulcast.AddLayerStreams | lib/index.js:346-352 | It draws the given number of SSRCs, each followed by a cname line and an msid line. |
| Simulcast.AddRtxStreams | lib/index.js:359-370 | One RTX SSRC is drawn per layer, with its cname and msid lines, and paired with its layer in an `FID` group. |
| Simulcast.Simulcast.RestoreSimulcast | lib/index.js:391-434 | The section and the cache become `RestoreSpec` of the old section, the old cache and the draws. Nothing is drawn on a hit or on an unsupported section. A supported section ends with a `SIM` group, and the cache equals its layers. |
| Simulcast.Simulcast.MungeRemoteMedia | lib/index.js:464-480 | The video section becomes `RemoteMedia` of what it was: explode or implode, then the marker removed when the cache is empty and asserted otherwise. It fails exactly when explode raises. |
| Simulcast.RemoteMediaSpec | lib/index.js:464-480 | Kind and direction are kept. A section with groups has no `SIM` group left. The marker is absent when the cache is empty and present otherwise. |
| Simulcast.RemoteMediaIdempotent | lib/index.js:464-480 | Normalising a normalised section again changes nothing. |
| Simulcast.Simulcast.MungeRemoteDescription | lib/index.js:455-486 | An invalid description comes back unchanged; otherwise the session becomes `RemoteSession` of it. |
| Simulcast.RemoteSessionSpec | lib/index.js:63-73 | The munge succeeds exactly when no video section raises. The sections then stay in place: non-video sections unchanged, each video section normalised on its own. |
| Simulcast.RemoteSessionFails | lib/index.js:464-470 | A section that raises makes the whole munge raise, whatever follows it. |
| Simulcast.Simulcast.MungeLocalDescription | lib/index.js:493-514 | An invalid description, or an unsupported browser, leaves the session and the cache alone. Otherwise each sending video section is restored in turn, seeing the cache the previous one left: the result is `LocalSession`. |
| Simulcast.LocalSessionFrame | lib/index.js:502-508 | Every section stays in place with its kind, direction and other attributes; at most its sources change. |
| Simulcast.LocalSessionSkips | lib/index.js:503-506 | Non-video, receive-only and inactive sections are left exactly as they were, and draw nothing. |
| Simulcast.LocalSessionNoVideo | lib/index.js:495-513 | A session without a sending video section comes back unchanged, and the cache is untouched. |

## Findings

| source | as written | input that shows it | evidently intended | confidence | as-written member | corrected member |
|---|---|---|---|---|---|---|
| lib/index.js:418-419 | With two distinct SSRCs and at least one group, the code assumes an `FID` group exists; when none does, `fidGroup` is undefined and reading `fidGroup.ssrcs` raises a TypeError out of `mungeLocalDescription` | a video section with lines for SSRCs 1 and 2 and the single group `SIM 1 2` (`CrashingSection`) | treat the section as one more unsupported scenario and leave it unchanged, as lines 403-410 do for the others | not executed | SimulcastLayers.TopologyAsWritten, SimulcastLayers.TopologyCrashes | SimulcastLayers.RestoreTopology, SimulcastLayers.RestoreTopologyAgrees |
| lib/index.js:291-298 | The renaming pass collects every SSRC of the lines for the new `SIM` group, so on a cache hit the RTX SSRC of a section with RTX is listed among the simulcast layers. The cache keeps it, and since the primary still heads the cache, each further hit adds it once more | lines for SSRCs `p` and `rtx`, the group `FID p rtx`, and the cache `[p, l1, l2]`: the next cache is `[p, rtx, l1, l2]`, then `[p, rtx, rtx, l1, l2]` | the `SIM` group lists only the video layers, so a hit puts back the cached layers and the cache stays `[p, l1, l2]` (guarantee 2 at lib/index.js:384-386, under assumption 2 at lib/index.js:379) | not executed | SimulcastLayers.FillAsWritten, SimulcastLayers.RestoreHitWithRtx | SimulcastLayers.FillSpec, SimulcastLayers.RtxHitStable, SimulcastLayers.RestoreStableRtx |

## Left out

- Parsing and writing SDP text (`sdp-transform`), and building the `RTCSessionDescription` (lib/index.js:16, 461, 482-485, 499, 510-513). These are a foreign library and a browser API. The entry points take the parsed session as a sequence of media sections, and return the rewritten one.
- `parseSsrcs`/`writeSsrcs` (lib/index.js:17-19). The transform-utils file is not part of this model. They get the contract the engine relies on, described at the top of `source_store.dfy`. A source keeps the msid and cname of the first such lines, and lines are written cname first, then msid. A call without an order follows ascending SSRC order. Under this contract `WriteSsrcs` writes nothing for an SSRC outside its order, and lines of attributes other than msid and cname do not survive a rewrite. Explode and implode both rewrite the lines this way, so neither keeps such lines.
- `generateSSRC`'s `Math.random` and floating-point arithmetic (lib/index.js:58-61). `GenerateSsrc` draws any value in the same range, nondeterministically. The functions take the drawn SSRCs as an input.
- `isSupported` (lib/index.js:440-448), which reads `window.chrome`. It is a boolean parameter of `MungeLocalDescription`.
- The `console.log`/`console.info` calls. They are logging only.
- A session that is `null` or has no media list (lib/index.js:64-66). A session is always a sequence here, so that case cannot arise.
- An `mLine` without an `ssrcs` list. The source raises a TypeError on it in `_restoreSimulcast`; the model always has a (possibly empty) list of lines. An absent `direction` is likewise a string.
- The text of a group's member list. Members are modelled already split and read as SSRCs, so a member that is not a number (`parseInt` giving NaN) cannot be expressed.
- The other attributes of a media section. Only kind, direction, lines, groups and `invalid` are modelled.
- SimulcastLayers.GenerateSpec: when `numOfLayers - 1` is 0 or less, the source writes the `SIM` group text as `"p "`, whose second member reads as NaN. The model emits the group `[p]`. A fractional `numOfLayers` is not modelled either, since the count is an integer.
- SimulcastLayers.RestoreTopology, SimulcastLayers.TopologyAsWritten: an `FID` group with an empty member list makes the source use NaN as the primary (lib/index.js:419). Both model such a section as unsupported and leave it unchanged.
- SimulcastLayers.RestoreRefills: stated for a cache without repeats whose head is not 0. A cache given through `setSsrcCache` may break either condition, and the model does not state the hit for such a cache.
- SimulcastLayers.FillSpec: on a hit for a section with RTX, the restored layers get no RTX streams and no `FID` groups, as in the source. Guarantees 3 and 4 (lib/index.js:387-390) are not met for them, because the cache holds no RTX SSRCs to restore.
- Simulcast.Simulcast.MungeLocalDescription: the sessions are values and each video section is rewritten on a fresh `MediaLine`, so aliasing between the caller's session objects is not modelled.
- modules/RTC/RTCBrowserType2.js and its spec file: browser sniffing over a user-agent library whose source is not part of this model.
- modules/xmpp/strophe.ping.js: timer and network plumbing of an XMPP keep-alive.
