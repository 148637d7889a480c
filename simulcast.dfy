/**
  The `Simulcast` object of lib/index.js: its options, its cache of the layer SSRCs last sent,
  and the two entry points that rewrite a session description. The received description is
  normalised (explode or implode, then the conference marker); the outgoing one has simulcast
  layers restored on each sending video section.

  A session is modelled as the sequence of its media sections, already parsed; each video
  section is worked on as a `MediaLine` object, in place, as the source does.
 */
module Simulcast {
  import opened Sdp
  import opened SourceStore
  import opened RemoteNormalizer
  import opened ConferenceFlag
  import opened SimulcastLayers

  const VIDEO := "video"

  /** The constructor's options; an absent `numOfLayers` is `None`. */
  datatype Options = Options(numOfLayers: Option<int>, explodeRemoteSimulcast: bool)

  /** `this.options.numOfLayers` after the constructor: a missing or zero count becomes the default. */
  function NumOfLayers(options: Option<Options>): (n: int)
    ensures n != 0
    ensures n == DEFAULT_NUM_OF_LAYERS || (options.Some? && options.value.numOfLayers == Some(n))
    ensures options.Some? && options.value.numOfLayers.Some? && options.value.numOfLayers.value != 0 ==>
      n == options.value.numOfLayers.value
    ensures options.None? || options.value.numOfLayers.None? || options.value.numOfLayers.value == 0 ==>
      n == DEFAULT_NUM_OF_LAYERS
  {
    if options.None? || options.value.numOfLayers.None? || options.value.numOfLayers.value == 0 then
      DEFAULT_NUM_OF_LAYERS
    else
      options.value.numOfLayers.value
  }

  /** A session description: its `type` and `sdp` texts, either of which may be missing. */
  datatype Description = Description(descType: Option<string>, sdp: Option<string>)

  /** `validateDescription` (lib/index.js:75-80): a description with a non-empty type and sdp. */
  predicate ValidateDescription(desc: Option<Description>) {
    && desc.Some?
    && desc.value.descType.Some? && desc.value.descType.value != ""
    && desc.value.sdp.Some? && desc.value.sdp.value != ""
  }

  /** `generateSSRC` (lib/index.js:58-61): any SSRC in `[0, 0xffffffff)`. */
  method GenerateSsrc() returns (s: Ssrc)
    ensures s < SSRC_LIMIT
  {
    s :| 0 <= s < SSRC_LIMIT;
  }

  // ======================================================================
  // The received description
  // ======================================================================

  /**
    The callback of `mungeRemoteDescription` (lib/index.js:464-480) for one video section:
    explode or implode, then remove the marker when the cache is empty and assert it otherwise.
    `None` when explode raises a TypeError.
   */
  function RemoteMedia(v: MediaValue, explode: bool, cacheEmpty: bool): Option<MediaValue> {
    if explode && !Explode(v.sources).ok then None
    else
      var sources := if explode then Explode(v.sources).media else Implode(v.sources);
      var invalid := if cacheEmpty then WithoutFlag(v.invalid) else Some(WithFlag(v.invalid));
      Some(v.(sources := sources, invalid := invalid))
  }

  /** `processVideo` with that callback over the first sections of a session, `None` once one raises. */
  function RemoteSession(session: seq<MediaValue>, explode: bool, cacheEmpty: bool): Option<seq<MediaValue>> {
    if session == [] then Some([])
    else
      var n := |session| - 1;
      match RemoteSession(session[..n], explode, cacheEmpty)
      case None => None
      case Some(prefix) =>
        if session[n].mediaType != VIDEO then Some(prefix + [session[n]])
        else match RemoteMedia(session[n], explode, cacheEmpty)
          case None => None
          case Some(v) => Some(prefix + [v])
  }

  /** The result of the remote callback on section `v` of a session that does not raise. */
  function RemoteAt(v: MediaValue, explode: bool, cacheEmpty: bool): MediaValue {
    if v.mediaType != VIDEO then v
    else RemoteMedia(v, explode, cacheEmpty).GetOr(v)
  }

  predicate RemoteFails(v: MediaValue, explode: bool, cacheEmpty: bool) {
    v.mediaType == VIDEO && RemoteMedia(v, explode, cacheEmpty).None?
  }

  /**
    The remote munge succeeds exactly when no video section raises; it then keeps every section
    in place, leaves the other media as they are and rewrites each video section on its own.
   */
  lemma {:induction false} RemoteSessionSpec(session: seq<MediaValue>, explode: bool, cacheEmpty: bool)
    ensures RemoteSession(session, explode, cacheEmpty).Some? <==>
      forall k :: 0 <= k < |session| ==> !RemoteFails(session[k], explode, cacheEmpty)
    ensures RemoteSession(session, explode, cacheEmpty).Some? ==>
      var out := RemoteSession(session, explode, cacheEmpty).value;
      && |out| == |session|
      && forall k :: 0 <= k < |session| ==> out[k] == RemoteAt(session[k], explode, cacheEmpty)
  {
    if session != [] {
      var n := |session| - 1;
      var pre := session[..n];
      RemoteSessionSpec(pre, explode, cacheEmpty);
      assert forall k :: 0 <= k < n ==> pre[k] == session[k];
      if RemoteSession(pre, explode, cacheEmpty).None? {
        var k :| 0 <= k < |pre| && RemoteFails(pre[k], explode, cacheEmpty);
        assert RemoteFails(session[k], explode, cacheEmpty);
      }
    }
  }

  /**
    What the remote callback guarantees for one video section: its kind and direction are kept,
    a section with groups has no `SIM` group left, a section without groups keeps its sources,
    and the marker is absent when the cache is empty and present otherwise.
   */
  lemma RemoteMediaSpec(v: MediaValue, explode: bool, cacheEmpty: bool)
    requires RemoteMedia(v, explode, cacheEmpty).Some?
    ensures var r := RemoteMedia(v, explode, cacheEmpty).value;
      && r.mediaType == v.mediaType && r.direction == v.direction
      && (v.sources.ssrcGroups.Some? ==> r.sources.ssrcGroups.Some? && !HasSim(r.sources.ssrcGroups.value))
      && (v.sources.ssrcGroups.None? ==> r.sources == v.sources)
      && (cacheEmpty ==> Count(r.invalid.GetOr([]), FLAG) == 0)
      && (!cacheEmpty ==> r.invalid.Some? && HasFlag(r.invalid.value))
  {
    if v.sources.ssrcGroups.Some? {
      if explode {
        ExplodeRemovesSim(v.sources);
      } else {
        ImplodeGroups(v.sources);
      }
    }
    if cacheEmpty {
      if v.invalid.Some? {
        RemoveFlagSpec(v.invalid.value);
      }
    } else {
      AssertFlagSpec(v.invalid);
      HasFlagCount(WithFlag(v.invalid));
    }
  }

  /** Running the remote callback on its own output changes nothing more. */
  lemma RemoteMediaIdempotent(v: MediaValue, explode: bool, cacheEmpty: bool)
    requires RemoteMedia(v, explode, cacheEmpty).Some?
    ensures var r := RemoteMedia(v, explode, cacheEmpty).value;
      RemoteMedia(r, explode, cacheEmpty) == Some(r)
  {
    var r := RemoteMedia(v, explode, cacheEmpty).value;
    if explode {
      ExplodeIdempotent(v.sources);
    } else {
      ImplodeIdempotent(v.sources);
    }
    if cacheEmpty {
      RemoveIdempotent(v.invalid);
    } else {
      AssertIdempotent(v.invalid);
    }
  }

  // ======================================================================
  // The outgoing description
  // ======================================================================

  /** A receive-only or inactive section is not sent, so it gets no layers (lib/index.js:503-506). */
  predicate Passive(direction: string) {
    direction == "recvonly" || direction == "inactive"
  }

  predicate Restores(v: MediaValue) {
    v.mediaType == VIDEO && !Passive(v.direction)
  }

  /** A session after the local munge, with the cache it leaves behind. */
  datatype LocalResult = LocalResult(session: seq<MediaValue>, cache: seq<Ssrc>)

  /**
    The callback of `mungeLocalDescription` (lib/index.js:502-508) over the first sections of a
    session, starting from `cache`; `draws[k]` are the SSRCs drawn for section `k`. `None`
    when some `draws[k]` does not hold exactly the number of SSRCs that section draws.
   */
  function LocalSession(session: seq<MediaValue>, cache: seq<Ssrc>, numOfLayers: int, draws: seq<seq<Ssrc>>): Option<LocalResult>
    requires |draws| == |session|
  {
    if session == [] then Some(LocalResult([], cache))
    else
      var n := |session| - 1;
      match LocalSession(session[..n], cache, numOfLayers, draws[..n])
      case None => None
      case Some(prefix) =>
        var v := session[n];
        if !Restores(v) then
          if draws[n] == [] then Some(LocalResult(prefix.session + [v], prefix.cache)) else None
        else if |draws[n]| != Draws(v.sources, prefix.cache, numOfLayers) then None
        else
          var r := RestoreSpec(v.sources, prefix.cache, numOfLayers, draws[n]);
          Some(LocalResult(prefix.session + [v.(sources := r.media)], r.cache))
  }

  /** The last section of a munged session is the last input section, possibly with new sources. */
  lemma LocalSessionLast(session: seq<MediaValue>, cache: seq<Ssrc>, numOfLayers: int, draws: seq<seq<Ssrc>>)
    requires |draws| == |session| && session != [] && LocalSession(session, cache, numOfLayers, draws).Some?
    ensures var n := |session| - 1;
      var pre := LocalSession(session[..n], cache, numOfLayers, draws[..n]);
      var out := LocalSession(session, cache, numOfLayers, draws).value.session;
      && pre.Some?
      && |out| == n + 1 && out[..n] == pre.value.session
      && out[n] == session[n].(sources := out[n].sources)
      && (!Restores(session[n]) ==> out[n] == session[n] && draws[n] == [])
  {
    var n := |session| - 1;
    var pre := LocalSession(session[..n], cache, numOfLayers, draws[..n]).value;
    var out := LocalSession(session, cache, numOfLayers, draws).value.session;
    assert out == pre.session + [out[n]];
  }

  /**
    The local munge keeps every section in place, with its kind, direction and other attributes:
    at most the sources of a section change.
   */
  lemma {:induction false} LocalSessionFrame(session: seq<MediaValue>, cache: seq<Ssrc>, numOfLayers: int, draws: seq<seq<Ssrc>>)
    requires |draws| == |session| && LocalSession(session, cache, numOfLayers, draws).Some?
    ensures var out := LocalSession(session, cache, numOfLayers, draws).value.session;
      && |out| == |session|
      && forall k :: 0 <= k < |session| ==> out[k] == session[k].(sources := out[k].sources)
  {
    if session != [] {
      var n := |session| - 1;
      LocalSessionLast(session, cache, numOfLayers, draws);
      LocalSessionFrame(session[..n], cache, numOfLayers, draws[..n]);
      var out := LocalSession(session, cache, numOfLayers, draws).value.session;
      var pre := LocalSession(session[..n], cache, numOfLayers, draws[..n]).value.session;
      forall k | 0 <= k < n
        ensures out[k] == session[k].(sources := out[k].sources)
      {
        assert session[..n][k] == session[k] && out[k] == pre[k];
      }
    }
  }

  /** A section that is not a sending video section is left exactly as it was and draws nothing. */
  lemma {:induction false} LocalSessionSkips(session: seq<MediaValue>, cache: seq<Ssrc>, numOfLayers: int, draws: seq<seq<Ssrc>>)
    requires |draws| == |session| && LocalSession(session, cache, numOfLayers, draws).Some?
    ensures var out := LocalSession(session, cache, numOfLayers, draws).value.session;
      forall k :: 0 <= k < |session| && !Restores(session[k]) ==> |out| == |session| && out[k] == session[k] && draws[k] == []
  {
    if session != [] {
      var n := |session| - 1;
      LocalSessionLast(session, cache, numOfLayers, draws);
      LocalSessionSkips(session[..n], cache, numOfLayers, draws[..n]);
      var out := LocalSession(session, cache, numOfLayers, draws).value.session;
      var pre := LocalSession(session[..n], cache, numOfLayers, draws[..n]).value.session;
      forall k | 0 <= k < n && !Restores(session[k])
        ensures out[k] == session[k] && draws[k] == []
      {
        assert session[..n][k] == session[k] && draws[..n][k] == draws[k] && out[k] == pre[k];
      }
    }
  }

  /** A session with no sending video section draws nothing and is returned as it is, with the cache untouched. */
  lemma {:induction false} LocalSessionNoVideo(session: seq<MediaValue>, cache: seq<Ssrc>, numOfLayers: int, draws: seq<seq<Ssrc>>)
    requires |draws| == |session|
    requires forall k :: 0 <= k < |session| ==> !Restores(session[k]) && draws[k] == []
    ensures LocalSession(session, cache, numOfLayers, draws) == Some(LocalResult(session, cache))
  {
    if session != [] {
      var n := |session| - 1;
      LocalSessionNoVideo(session[..n], cache, numOfLayers, draws[..n]);
      assert session[..n] + [session[n]] == session;
    }
  }

  // ======================================================================
  // The class
  // ======================================================================

  class Simulcast {
    var numOfLayers: int
    var explodeRemoteSimulcast: bool
    /** The layer SSRCs of the last outgoing video section, in layer order. */
    var ssrcCache: seq<Ssrc>

    /** lib/index.js:37-47: the options default to none, the layer count to three, the cache to empty. */
    constructor (options: Option<Options>)
      ensures numOfLayers == NumOfLayers(options)
      ensures explodeRemoteSimulcast == (options.Some? && options.value.explodeRemoteSimulcast)
      ensures ssrcCache == []
    {
      numOfLayers := NumOfLayers(options);
      explodeRemoteSimulcast := options.Some? && options.value.explodeRemoteSimulcast;
      ssrcCache := [];
    }

    /** `clearSsrcCache` (lib/index.js:230-232). */
    method ClearSsrcCache()
      modifies this
      ensures ssrcCache == []
      ensures numOfLayers == old(numOfLayers) && explodeRemoteSimulcast == old(explodeRemoteSimulcast)
    {
      ssrcCache := [];
    }

    /** `setSsrcCache` (lib/index.js:242-244): the cache is overwritten as given. */
    method SetSsrcCache(ssrcs: seq<Ssrc>)
      modifies this
      ensures ssrcCache == ssrcs
      ensures numOfLayers == old(numOfLayers) && explodeRemoteSimulcast == old(explodeRemoteSimulcast)
    {
      ssrcCache := ssrcs;
    }

    /** `_buildNewToOldSsrcMap` (lib/index.js:267-275). */
    method BuildNewToOldSsrcMap(newSsrcList: seq<Ssrc>, oldSsrcList: seq<Ssrc>) returns (ssrcMap: map<Ssrc, Option<Ssrc>>)
      ensures ssrcMap == NewToOld(newSsrcList, oldSsrcList)
      ensures ssrcMap.Keys == set x | x in newSsrcList
      ensures Distinct(newSsrcList) ==>
        forall i :: 0 <= i < |newSsrcList| ==> ssrcMap[newSsrcList[i]] == OldAt(oldSsrcList, i)
    {
      ssrcMap := map[];
      for i := 0 to |newSsrcList|
        invariant ssrcMap == NewToOld(newSsrcList[..i], oldSsrcList)
      {
        assert newSsrcList[..i + 1][..i] == newSsrcList[..i];
        var newSsrc := newSsrcList[i];
        var oldSsrc := if i < |oldSsrcList| && oldSsrcList[i] != 0 then Some(oldSsrcList[i]) else None;
        ssrcMap := ssrcMap[newSsrc := oldSsrc];
      }
      assert newSsrcList[..|newSsrcList|] == newSsrcList;
      NewToOldKeys(newSsrcList, oldSsrcList);
      if Distinct(newSsrcList) {
        forall i | 0 <= i < |newSsrcList|
          ensures ssrcMap[newSsrcList[i]] == OldAt(oldSsrcList, i)
        {
          NewToOldDistinct(newSsrcList, oldSsrcList, i);
        }
      }
    }

    /**
      `_fillInSourceDataFromCache` (lib/index.js:277-319): renames the lines of the new layers to
      the cached SSRCs, adds lines for the cached SSRCs left over and appends a `SIM` group. The
      source raises a TypeError on a section with no line and no `SIM` group.
     */
    method FillInSourceDataFromCache(mLine: MediaLine)
      requires mLine.ssrcs != [] || HasSim(Groups(mLine.Sources()))
      modifies mLine
      ensures mLine.Sources() == FillSpec(old(mLine.Sources()), ssrcCache)
      ensures mLine.mediaType == old(mLine.mediaType) && mLine.direction == old(mLine.direction)
      ensures mLine.invalid == old(mLine.invalid)
    {
      var entries := mLine.ssrcs;
      var newSimSsrcs := ParseSimLayers(mLine.Sources());
      var newMsid := LayerIdentity(entries, newSimSsrcs, MSID);
      var newCname := LayerIdentity(entries, newSimSsrcs, CNAME);
      var ssrcsToReplace := BuildNewToOldSsrcMap(newSimSsrcs, ssrcCache);
      var ssrcsToAdd := ToAdd(ssrcCache, ssrcsToReplace);

      // The source collects a retransmission SSRC among the layers too; see `FillSpec`.
      var renamed, finalSimSsrcs := RenameSources(entries, ssrcsToReplace, RtxSkip(mLine.Sources()));
      mLine.ssrcs := renamed;
      finalSimSsrcs := AddCachedSources(mLine, ssrcsToAdd, newMsid, newCname, finalSimSsrcs);
      mLine.ssrcGroups := Some(mLine.ssrcGroups.GetOr([]) + [SourceGroup(SIM, finalSimSsrcs)]);
    }

    /**
      `_generateSourceData` (lib/index.js:323-372): draws `numOfLayers - 1` layer SSRCs, each with
      the primary's cname and msid, groups them under `SIM` behind the primary and, when
      `doingRtx`, draws one retransmission SSRC per layer and pairs them in `FID` groups.
     */
    method GenerateSourceData(mLine: MediaLine, primarySsrc: Ssrc, doingRtx: bool) returns (sims: seq<Ssrc>, rtxs: seq<Ssrc>)
      modifies mLine
      ensures |sims| == LayerCount(numOfLayers) && |rtxs| == (if doingRtx then |sims| else 0)
      ensures forall s :: s in sims + rtxs ==> s < SSRC_LIMIT
      ensures mLine.Sources() == GenerateSpec(old(mLine.Sources()), primarySsrc, doingRtx, sims, rtxs)
      ensures mLine.mediaType == old(mLine.mediaType) && mLine.direction == old(mLine.direction)
      ensures mLine.invalid == old(mLine.invalid)
    {
      ghost var m := mLine.Sources();
      var primarySsrcMsid := GetSsrcAttribute(mLine.ssrcs, primarySsrc, MSID);
      var primarySsrcCname := GetSsrcAttribute(mLine.ssrcs, primarySsrc, CNAME);
      sims := AddLayerStreams(mLine, LayerCount(numOfLayers), primarySsrcCname, primarySsrcMsid);
      var simGroup := SourceGroup(SIM, [primarySsrc] + sims);
      mLine.ssrcGroups := Some(mLine.ssrcGroups.GetOr([]) + [simGroup]);
      rtxs := [];
      if doingRtx {
        rtxs := AddRtxStreams(mLine, sims, primarySsrcCname, primarySsrcMsid);
      } else {
        assert Groups(m) + [simGroup] + [] == Groups(m) + [simGroup];
      }
    }

    /**
      `_restoreSimulcast` (lib/index.js:391-434) with the corrected topology check: an unsupported
      section is left alone; otherwise the layers are restored from the cache when the primary
      SSRC is cached and drawn afresh when it is not, and the cache becomes the layers sent.
      `drawn` are the SSRCs drawn, layers first.
     */
    method RestoreSimulcast(mLine: MediaLine) returns (drawn: seq<Ssrc>)
      modifies this, mLine
      ensures |drawn| == Draws(old(mLine.Sources()), old(ssrcCache), numOfLayers)
      ensures forall s :: s in drawn ==> s < SSRC_LIMIT
      ensures Restored(mLine.Sources(), ssrcCache) == RestoreSpec(old(mLine.Sources()), old(ssrcCache), numOfLayers, drawn)
      ensures RestoreTopology(old(mLine.Sources())).Primary? ==>
        HasSim(Groups(mLine.Sources())) && ssrcCache == ParseSimLayers(mLine.Sources())
      ensures mLine.mediaType == old(mLine.mediaType) && mLine.direction == old(mLine.direction)
      ensures mLine.invalid == old(mLine.invalid)
      ensures numOfLayers == old(numOfLayers) && explodeRemoteSimulcast == old(explodeRemoteSimulcast)
    {
      ghost var m := mLine.Sources();
      drawn := [];
      var numSsrcs := |Dedup(Ids(mLine.ssrcs))|;
      var numGroups := |mLine.ssrcGroups.GetOr([])|;
      if numSsrcs == 0 || numSsrcs > 2 {
        return;
      }
      if numSsrcs == 2 && numGroups == 0 {
        return;
      }
      var primarySsrc: Ssrc;
      var doingRtx := false;
      if numSsrcs == 1 {
        primarySsrc := mLine.ssrcs[0].id;
      } else {
        var fidGroup := FirstFid(mLine.ssrcGroups.GetOr([]));
        if fidGroup.None? || fidGroup.value.members == [] {
          // Corrected: the source raises a TypeError (no `FID` group) or reads NaN (an empty one).
          return;
        }
        primarySsrc := fidGroup.value.members[0];
        doingRtx := true;
      }
      assert RestoreTopology(m) == Primary(primarySsrc, doingRtx);

      if primarySsrc in ssrcCache {
        FillInSourceDataFromCache(mLine);
      } else {
        var sims, rtxs := GenerateSourceData(mLine, primarySsrc, doingRtx);
        drawn := sims + rtxs;
        assert drawn[..|sims|] == sims && drawn[|sims|..] == rtxs;
      }
      ssrcCache := ParseSimLayers(mLine.Sources());
    }

    /** The per-section callback of `mungeRemoteDescription` (lib/index.js:464-480). */
    method MungeRemoteMedia(mLine: MediaLine) returns (ok: bool)
      modifies mLine
      ensures ok <==> RemoteMedia(old(mLine.Value()), explodeRemoteSimulcast, |ssrcCache| < 1).Some?
      ensures ok ==> mLine.Value() == RemoteMedia(old(mLine.Value()), explodeRemoteSimulcast, |ssrcCache| < 1).value
    {
      ok := true;
      if explodeRemoteSimulcast {
        ok := ExplodeRemoteSimulcast(mLine);
        if !ok {
          return;
        }
      } else {
        ImplodeRemoteSimulcast(mLine);
      }
      if |ssrcCache| < 1 {
        RemoveGoogConference(mLine);
      } else {
        AssertGoogConference(mLine);
      }
    }

    /**
      `mungeRemoteDescription` (lib/index.js:455-486) on the parsed `session` of `desc`: an invalid
      description is returned as it is; otherwise every video section is normalised, and `None`
      stands for the TypeError an explode can raise.
     */
    method MungeRemoteDescription(desc: Option<Description>, session: seq<MediaValue>) returns (result: Option<seq<MediaValue>>)
      ensures !ValidateDescription(desc) ==> result == Some(session)
      ensures ValidateDescription(desc) ==> result == RemoteSession(session, explodeRemoteSimulcast, |ssrcCache| < 1)
    {
      if !ValidateDescription(desc) {
        return Some(session);
      }
      var out: seq<MediaValue> := [];
      for i := 0 to |session|
        invariant RemoteSession(session[..i], explodeRemoteSimulcast, |ssrcCache| < 1) == Some(out)
      {
        assert session[..i + 1][..i] == session[..i];
        var v := session[i];
        if v.mediaType == VIDEO {
          var mLine := new MediaLine(v.mediaType, v.direction, v.sources.ssrcs, v.sources.ssrcGroups, v.invalid);
          var ok := MungeRemoteMedia(mLine);
          if !ok {
            RemoteSessionFails(session, i + 1, explodeRemoteSimulcast, |ssrcCache| < 1);
            assert session[..|session|] == session;
            return None;
          }
          v := mLine.Value();
        }
        out := out + [v];
      }
      assert session[..|session|] == session;
      return Some(out);
    }

    /**
      `mungeLocalDescription` (lib/index.js:493-514) on the parsed `session` of `desc`: unless the
      description is invalid or simulcast is unsupported, simulcast is restored on every sending
      video section in turn, each seeing the cache the previous one left. `draws[k]` are the SSRCs
      drawn for section `k`.
     */
    method MungeLocalDescription(desc: Option<Description>, supported: bool, session: seq<MediaValue>)
      returns (result: seq<MediaValue>, draws: seq<seq<Ssrc>>)
      modifies this
      ensures !ValidateDescription(desc) || !supported ==> result == session && ssrcCache == old(ssrcCache)
      ensures ValidateDescription(desc) && supported ==>
        |draws| == |session| &&
        LocalSession(session, old(ssrcCache), numOfLayers, draws) == Some(LocalResult(result, ssrcCache))
      ensures numOfLayers == old(numOfLayers) && explodeRemoteSimulcast == old(explodeRemoteSimulcast)
    {
      result, draws := session, [];
      if !ValidateDescription(desc) || !supported {
        return;
      }
      result := [];
      for i := 0 to |session|
        invariant |draws| == i
        invariant LocalSession(session[..i], old(ssrcCache), numOfLayers, draws) == Some(LocalResult(result, ssrcCache))
        invariant numOfLayers == old(numOfLayers) && explodeRemoteSimulcast == old(explodeRemoteSimulcast)
      {
        assert session[..i + 1][..i] == session[..i];
        var v := session[i];
        var drawn: seq<Ssrc> := [];
        if Restores(v) {
          var mLine := new MediaLine(v.mediaType, v.direction, v.sources.ssrcs, v.sources.ssrcGroups, v.invalid);
          drawn := RestoreSimulcast(mLine);
          v := mLine.Value();
        }
        assert (draws + [drawn])[..i] == draws;
        result := result + [v];
        draws := draws + [drawn];
      }
      assert session[..|session|] == session;
    }
  }

  // ---- helpers for the loops above ----

  /**
    The layer loop of `_generateSourceData` (lib/index.js:347-352): draws `count` SSRCs and
    gives each a cname line and an msid line.
   */
  method AddLayerStreams(mLine: MediaLine, count: nat, cname: Option<string>, msid: Option<string>) returns (sims: seq<Ssrc>)
    modifies mLine
    ensures |sims| == count && forall s :: s in sims ==> s < SSRC_LIMIT
    ensures mLine.ssrcs == old(mLine.ssrcs) + AssociatedLines(sims, cname, msid)
    ensures mLine.ssrcGroups == old(mLine.ssrcGroups) && mLine.invalid == old(mLine.invalid)
    ensures mLine.mediaType == old(mLine.mediaType) && mLine.direction == old(mLine.direction)
  {
    sims := [];
    for i := 0 to count
      invariant |sims| == i && forall s :: s in sims ==> s < SSRC_LIMIT
      invariant mLine.ssrcs == old(mLine.ssrcs) + AssociatedLines(sims, cname, msid)
      invariant mLine.ssrcGroups == old(mLine.ssrcGroups) && mLine.invalid == old(mLine.invalid)
      invariant mLine.mediaType == old(mLine.mediaType) && mLine.direction == old(mLine.direction)
    {
      var simSsrc := GenerateSsrc();
      assert (sims + [simSsrc])[..i] == sims;
      mLine.ssrcs := mLine.ssrcs + [SourceEntry(simSsrc, CNAME, cname), SourceEntry(simSsrc, MSID, msid)];
      sims := sims + [simSsrc];
    }
  }

  /**
    The retransmission loop of `_generateSourceData` (lib/index.js:359-370): draws one SSRC per
    layer, gives it a cname line and an msid line, and pairs it with its layer in an `FID` group.
   */
  method AddRtxStreams(mLine: MediaLine, sims: seq<Ssrc>, cname: Option<string>, msid: Option<string>) returns (rtxs: seq<Ssrc>)
    requires mLine.ssrcGroups.Some?
    modifies mLine
    ensures |rtxs| == |sims| && forall s :: s in rtxs ==> s < SSRC_LIMIT
    ensures mLine.ssrcs == old(mLine.ssrcs) + AssociatedLines(rtxs, cname, msid)
    ensures mLine.ssrcGroups == Some(old(mLine.ssrcGroups.value) + FidGroups(sims, rtxs))
    ensures mLine.invalid == old(mLine.invalid)
    ensures mLine.mediaType == old(mLine.mediaType) && mLine.direction == old(mLine.direction)
  {
    ghost var base := mLine.ssrcGroups.value;
    rtxs := [];
    assert sims[..0] == [] && base + FidGroups([], []) == base;
    for k := 0 to |sims|
      invariant |rtxs| == k && forall s :: s in rtxs ==> s < SSRC_LIMIT
      invariant mLine.ssrcs == old(mLine.ssrcs) + AssociatedLines(rtxs, cname, msid)
      invariant mLine.ssrcGroups == Some(base + FidGroups(sims[..k], rtxs))
      invariant mLine.invalid == old(mLine.invalid)
      invariant mLine.mediaType == old(mLine.mediaType) && mLine.direction == old(mLine.direction)
    {
      var rtxSsrc := GenerateSsrc();
      var fid := SourceGroup(FID, [sims[k], rtxSsrc]);
      assert (rtxs + [rtxSsrc])[..k] == rtxs;
      assert sims[..k + 1][..k] == sims[..k] && sims[..k + 1][k] == sims[k];
      assert FidGroups(sims[..k + 1], rtxs + [rtxSsrc]) == FidGroups(sims[..k], rtxs) + [fid];
      mLine.ssrcs := mLine.ssrcs + [SourceEntry(rtxSsrc, CNAME, cname), SourceEntry(rtxSsrc, MSID, msid)];
      mLine.ssrcGroups := Some(mLine.ssrcGroups.value + [fid]);
      assert base + FidGroups(sims[..k], rtxs) + [fid] == base + (FidGroups(sims[..k], rtxs) + [fid]);
      rtxs := rtxs + [rtxSsrc];
    }
    assert sims[..|sims|] == sims;
  }

  /**
    The first `forEach` of `_fillInSourceDataFromCache` (lib/index.js:291-298): renames each line
    the map sends to a cached SSRC and collects the distinct SSRCs in order of first appearance,
    passing over those in `skip`.
   */
  method RenameSources(entries: seq<SourceEntry>, ssrcsToReplace: map<Ssrc, Option<Ssrc>>, skip: set<Ssrc>)
    returns (renamed: seq<SourceEntry>, finalSimSsrcs: seq<Ssrc>)
    ensures renamed == RenameAll(entries, ssrcsToReplace)
    ensures finalSimSsrcs == Collected(renamed, skip)
  {
    ghost var done: seq<SourceEntry> := [];
    renamed := entries;
    finalSimSsrcs := [];
    for i := 0 to |entries|
      invariant |done| == i
      invariant done == RenameAll(entries[..i], ssrcsToReplace)
      invariant renamed == done + entries[i..]
      invariant finalSimSsrcs == Collected(done, skip)
    {
      RenameStep(entries, ssrcsToReplace, i);
      SpliceAt(done, entries, i);
      var ssrc := renamed[i];
      if ssrc.id in ssrcsToReplace && ssrcsToReplace[ssrc.id].Some? {
        ssrc := ssrc.(id := ssrcsToReplace[ssrc.id].value);
        renamed := renamed[i := ssrc];
      }
      CollectStep(done, ssrc, skip);
      if ssrc.id !in skip && ssrc.id !in finalSimSsrcs {
        finalSimSsrcs := finalSimSsrcs + [ssrc.id];
      }
      done := done + [ssrc];
    }
    assert entries[..|entries|] == entries;
  }

  /**
    The second `forEach` of `_fillInSourceDataFromCache` (lib/index.js:300-312): an msid line and
    a cname line for each SSRC to add, each SSRC also joining the `SIM` members.
   */
  method AddCachedSources(mLine: MediaLine, ssrcsToAdd: seq<Ssrc>, msid: Option<string>, cname: Option<string>,
                          simSsrcs: seq<Ssrc>) returns (finalSimSsrcs: seq<Ssrc>)
    modifies mLine
    ensures mLine.ssrcs == old(mLine.ssrcs) + CachedLines(ssrcsToAdd, msid, cname)
    ensures finalSimSsrcs == simSsrcs + ssrcsToAdd
    ensures mLine.ssrcGroups == old(mLine.ssrcGroups) && mLine.invalid == old(mLine.invalid)
    ensures mLine.mediaType == old(mLine.mediaType) && mLine.direction == old(mLine.direction)
  {
    finalSimSsrcs := simSsrcs;
    for j := 0 to |ssrcsToAdd|
      invariant mLine.ssrcs == old(mLine.ssrcs) + CachedLines(ssrcsToAdd[..j], msid, cname)
      invariant finalSimSsrcs == simSsrcs + ssrcsToAdd[..j]
      invariant mLine.ssrcGroups == old(mLine.ssrcGroups) && mLine.invalid == old(mLine.invalid)
      invariant mLine.mediaType == old(mLine.mediaType) && mLine.direction == old(mLine.direction)
    {
      var ssrc := ssrcsToAdd[j];
      assert ssrcsToAdd[..j + 1] == ssrcsToAdd[..j] + [ssrc];
      mLine.ssrcs := mLine.ssrcs + [SourceEntry(ssrc, MSID, msid), SourceEntry(ssrc, CNAME, cname)];
      finalSimSsrcs := finalSimSsrcs + [ssrc];
    }
    assert ssrcsToAdd[..|ssrcsToAdd|] == ssrcsToAdd;
  }

  lemma RenameStep(entries: seq<SourceEntry>, ssrcMap: map<Ssrc, Option<Ssrc>>, i: nat)
    requires i < |entries|
    ensures RenameAll(entries[..i + 1], ssrcMap) == RenameAll(entries[..i], ssrcMap) + [Renamed(entries[i], ssrcMap)]
  {
  }

  lemma SpliceAt(done: seq<SourceEntry>, entries: seq<SourceEntry>, i: nat)
    requires |done| == i < |entries|
    ensures (done + entries[i..])[i] == entries[i]
    ensures forall y :: (done + entries[i..])[i := y] == done + [y] + entries[i + 1..]
    ensures done + entries[i..] == done + [entries[i]] + entries[i + 1..]
  {
    assert entries[i..] == [entries[i]] + entries[i + 1..];
  }

  lemma IdsSnoc(entries: seq<SourceEntry>, e: SourceEntry)
    ensures Ids(entries + [e]) == Ids(entries) + [e.id]
  {
  }

  lemma DedupSnoc(s: seq<Ssrc>, x: Ssrc)
    ensures Dedup(s + [x]) == if x in Dedup(s) then Dedup(s) else Dedup(s) + [x]
  {
    assert (s + [x])[..|s|] == s;
  }

  lemma CollectStep(done: seq<SourceEntry>, e: SourceEntry, skip: set<Ssrc>)
    ensures Collected(done + [e], skip) ==
      if e.id in skip || e.id in Collected(done, skip) then Collected(done, skip) else Collected(done, skip) + [e.id]
  {
    IdsSnoc(done, e);
    FilterAppend(Ids(done), [e.id], Untaken(skip));
    if e.id !in skip {
      DedupSnoc(Filter(Ids(done), Untaken(skip)), e.id);
    } else {
      assert Filter(Ids(done), Untaken(skip)) + [] == Filter(Ids(done), Untaken(skip));
    }
  }

  /** A section that raises makes the whole remote munge raise, whatever follows it. */
  lemma {:induction false} RemoteSessionFails(session: seq<MediaValue>, i: nat, explode: bool, cacheEmpty: bool)
    requires 0 < i <= |session| && RemoteSession(session[..i], explode, cacheEmpty).None?
    ensures RemoteSession(session, explode, cacheEmpty).None?
    decreases |session| - i
  {
    if i < |session| {
      assert session[..i + 1][..i] == session[..i];
      RemoteSessionFails(session, i + 1, explode, cacheEmpty);
    } else {
      assert session[..i] == session;
    }
  }
}
