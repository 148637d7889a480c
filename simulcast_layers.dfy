/**
  What the local simulcast synthesiser does to one outgoing video section, as functions of the
  section and of the layer cache: which stream is the primary one (`_restoreSimulcast`,
  lib/index.js:391-434), how the cached layers are put back (`_fillInSourceDataFromCache`,
  lib/index.js:267-319) and how new layers are made up (`_generateSourceData`,
  lib/index.js:323-372). The drawn SSRCs are an input here; the `Simulcast` class draws them.

  Several callbacks in these routines have braces and no `return` (lib/index.js:257, 285,
  327-328, 397-399, 418), so as written their `find`/`filter` calls see `undefined` and keep
  nothing. The functions below follow the evident intent: each callback returns its comparison.
 */
module SimulcastLayers {
  import opened Sdp
  import opened SourceStore

  const DEFAULT_NUM_OF_LAYERS := 3

  /** `generateSSRC` draws from `[0, SSRC_LIMIT)`. */
  const SSRC_LIMIT := 0xffff_ffff

  /** The section's groups; an absent list reads as empty (`mLine.ssrcGroups || []`). */
  function Groups(m: MediaSources): seq<SourceGroup> {
    m.ssrcGroups.GetOr([])
  }

  // ---- _parseSimLayers ----

  /** The first `SIM` group, as `ssrcGroups.find(...)` returns it. */
  function FirstSim(groups: seq<SourceGroup>): Option<SourceGroup> {
    if groups == [] then None
    else if IsSim(groups[0]) then Some(groups[0])
    else FirstSim(groups[1..])
  }

  lemma {:induction false} FirstSimSpec(groups: seq<SourceGroup>)
    ensures FirstSim(groups).Some? <==> HasSim(groups)
    ensures FirstSim(groups).Some? ==> IsSim(FirstSim(groups).value) && FirstSim(groups).value in groups
    ensures FirstSim(groups).Some? ==>
      exists k :: 0 <= k < |groups| && groups[k] == FirstSim(groups).value && forall j :: 0 <= j < k ==> !IsSim(groups[j])
  {
    if groups != [] && IsSim(groups[0]) {
      assert groups[0] == FirstSim(groups).value;
    }
    if groups != [] && !IsSim(groups[0]) {
      FirstSimSpec(groups[1..]);
      if FirstSim(groups).Some? {
        var k :| 0 <= k < |groups[1..]| && groups[1..][k] == FirstSim(groups).value
          && forall j :: 0 <= j < k ==> !IsSim(groups[1..][j]);
        assert groups[k + 1] == FirstSim(groups).value;
        forall j | 0 <= j < k + 1
          ensures !IsSim(groups[j])
        {
          if j > 0 {
            assert groups[j] == groups[1..][j - 1];
          }
        }
      }
      if HasSim(groups) {
        var k :| 0 <= k < |groups| && IsSim(groups[k]);
        assert k > 0 && IsSim(groups[1..][k - 1]);
      }
      if HasSim(groups[1..]) {
        var k :| 0 <= k < |groups[1..]| && IsSim(groups[1..][k]);
        assert IsSim(groups[k + 1]);
      }
    }
  }

  lemma {:induction false} FirstSimAppend(a: seq<SourceGroup>, b: seq<SourceGroup>)
    ensures FirstSim(a + b) == if HasSim(a) then FirstSim(a) else FirstSim(b)
  {
    if a == [] {
      assert a + b == b;
    } else {
      assert (a + b)[0] == a[0] && (a + b)[1..] == a[1..] + b;
      FirstSimAppend(a[1..], b);
      if !IsSim(a[0]) && HasSim(a[1..]) {
        var k :| 0 <= k < |a[1..]| && IsSim(a[1..][k]);
        assert IsSim(a[k + 1]);
      }
      if !IsSim(a[0]) && HasSim(a) {
        var k :| 0 <= k < |a| && IsSim(a[k]);
        assert IsSim(a[1..][k - 1]);
      }
    }
  }

  /** Appending a `SIM` group to groups without one makes it the group `_parseSimLayers` finds. */
  lemma FirstSimAfterAppend(groups: seq<SourceGroup>, g: SourceGroup, tail: seq<SourceGroup>)
    requires !HasSim(groups) && IsSim(g)
    ensures FirstSim(groups + [g] + tail) == Some(g)
  {
    assert groups + [g] + tail == groups + ([g] + tail);
    FirstSimAppend(groups, [g] + tail);
    assert ([g] + tail)[0] == g;
  }

  /**
    `_parseSimLayers` (lib/index.js:255-265): the members of the first `SIM` group, or else the
    SSRC of the first line. The source raises a TypeError when there is neither.
   */
  function ParseSimLayers(m: MediaSources): (r: seq<Ssrc>)
    requires m.ssrcs != [] || HasSim(Groups(m))
  {
    FirstSimSpec(Groups(m));
    match FirstSim(Groups(m))
    case Some(g) => g.members
    case None => [m.ssrcs[0].id]
  }

  // ---- _buildNewToOldSsrcMap ----

  /** `oldSsrcList[i] || null`: a missing entry and the SSRC 0 both give null. */
  function OldAt(oldList: seq<Ssrc>, i: nat): Option<Ssrc> {
    if i < |oldList| && oldList[i] != 0 then Some(oldList[i]) else None
  }

  /**
    The map `_buildNewToOldSsrcMap` (lib/index.js:267-275) fills: `newList[i]` to `OldAt(oldList, i)`,
    a later position overwriting an earlier one with the same SSRC.
   */
  function NewToOld(newList: seq<Ssrc>, oldList: seq<Ssrc>): map<Ssrc, Option<Ssrc>> {
    if newList == [] then map[]
    else
      var i := |newList| - 1;
      NewToOld(newList[..i], oldList)[newList[i] := OldAt(oldList, i)]
  }

  /** The map has exactly the new SSRCs as keys. */
  lemma {:induction false} NewToOldKeys(newList: seq<Ssrc>, oldList: seq<Ssrc>)
    ensures NewToOld(newList, oldList).Keys == set x | x in newList
  {
    if newList != [] {
      var n := |newList| - 1;
      NewToOldKeys(newList[..n], oldList);
      assert newList == newList[..n] + [newList[n]];
    }
  }

  /** A new SSRC is sent to the old SSRC at its last position. */
  lemma {:induction false} NewToOldAt(newList: seq<Ssrc>, oldList: seq<Ssrc>, i: nat)
    requires i < |newList| && forall j :: i < j < |newList| ==> newList[j] != newList[i]
    ensures newList[i] in NewToOld(newList, oldList)
    ensures NewToOld(newList, oldList)[newList[i]] == OldAt(oldList, i)
  {
    var n := |newList| - 1;
    if i < n {
      NewToOldAt(newList[..n], oldList, i);
    }
  }

  /** With distinct new SSRCs, `newList[i]` goes to `oldList[i]`, or to null past its end. */
  lemma NewToOldDistinct(newList: seq<Ssrc>, oldList: seq<Ssrc>, i: nat)
    requires Distinct(newList) && i < |newList|
    ensures newList[i] in NewToOld(newList, oldList)
    ensures NewToOld(newList, oldList)[newList[i]] == OldAt(oldList, i)
  {
    NewToOldAt(newList, oldList, i);
  }

  // ---- _fillInSourceDataFromCache ----

  /** The cached SSRCs the map hands out: its non-null values (`Object.values(ssrcsToReplace)`). */
  function Replacements(ssrcMap: map<Ssrc, Option<Ssrc>>): set<Ssrc> {
    set k | k in ssrcMap && ssrcMap[k].Some? :: ssrcMap[k].value
  }

  /** `ssrcsToAdd`: the cached SSRCs no new layer is renamed to, in cache order. */
  function ToAdd(cache: seq<Ssrc>, ssrcMap: map<Ssrc, Option<Ssrc>>): seq<Ssrc> {
    Filter(cache, Untaken(Replacements(ssrcMap)))
  }

  function Untaken(taken: set<Ssrc>): Ssrc -> bool {
    x => x !in taken
  }

  /** A line after the renaming pass: its SSRC is replaced when the map sends it to a cached one. */
  function Renamed(e: SourceEntry, ssrcMap: map<Ssrc, Option<Ssrc>>): SourceEntry {
    if e.id in ssrcMap && ssrcMap[e.id].Some? then e.(id := ssrcMap[e.id].value) else e
  }

  function RenameAll(entries: seq<SourceEntry>, ssrcMap: map<Ssrc, Option<Ssrc>>): (r: seq<SourceEntry>)
    ensures |r| == |entries|
  {
    seq(|entries|, k requires 0 <= k < |entries| => Renamed(entries[k], ssrcMap))
  }

  /** The lines pushed for restored layers: an msid line and then a cname line per SSRC. */
  function CachedLines(ssrcs: seq<Ssrc>, msid: Option<string>, cname: Option<string>): (r: seq<SourceEntry>)
    ensures |r| == 2 * |ssrcs|
  {
    if ssrcs == [] then []
    else
      var n := |ssrcs| - 1;
      CachedLines(ssrcs[..n], msid, cname) + [SourceEntry(ssrcs[n], MSID, msid), SourceEntry(ssrcs[n], CNAME, cname)]
  }

  /** The identity of the first layer, read before anything is rewritten. */
  function LayerIdentity(entries: seq<SourceEntry>, layers: seq<Ssrc>, attribute: string): Option<string> {
    if layers == [] then None else GetSsrcAttribute(entries, layers[0], attribute)
  }

  /**
    The SSRCs the renaming pass collects for the new `SIM` group: the distinct SSRCs of the
    renamed lines in order of first appearance, leaving out those in `skip`.
   */
  function Collected(renamed: seq<SourceEntry>, skip: set<Ssrc>): seq<Ssrc> {
    Dedup(Filter(Ids(renamed), Untaken(skip)))
  }

  /**
    The retransmission SSRC of a section with two SSRCs: the second member of its first `FID`
    group, which is the stream assumption 2 of lib/index.js:379 allows beside the primary.
   */
  function RtxSkip(m: MediaSources): set<Ssrc> {
    if NumSsrcs(m) != 2 then {}
    else match FirstFid(Groups(m))
      case Some(g) => if |g.members| >= 2 then {g.members[1]} else {}
      case None => {}
  }

  /**
    `_fillInSourceDataFromCache` (lib/index.js:277-319) as a function of the section and the
    cache, with the SSRCs in `skip` left out of the collected `SIM` members.
   */
  function FillWith(m: MediaSources, cache: seq<Ssrc>, skip: set<Ssrc>): (r: MediaSources)
    requires m.ssrcs != [] || HasSim(Groups(m))
    ensures |r.ssrcs| >= |m.ssrcs| && HasSim(Groups(r))
  {
    var layers := ParseSimLayers(m);
    var ssrcMap := NewToOld(layers, cache);
    var adds := ToAdd(cache, ssrcMap);
    var renamed := RenameAll(m.ssrcs, ssrcMap);
    var msid := LayerIdentity(m.ssrcs, layers, MSID);
    var cname := LayerIdentity(m.ssrcs, layers, CNAME);
    var groups := Groups(m) + [SourceGroup(SIM, Collected(renamed, skip) + adds)];
    assert IsSim(groups[|Groups(m)|]);
    MediaSources(renamed + CachedLines(adds, msid, cname), Some(groups))
  }

  /**
    The fill as written: the renaming pass collects every SSRC of the lines, a retransmission
    SSRC included (lib/index.js:295-297).
   */
  function FillAsWritten(m: MediaSources, cache: seq<Ssrc>): (r: MediaSources)
    requires m.ssrcs != [] || HasSim(Groups(m))
    ensures |r.ssrcs| >= |m.ssrcs| && HasSim(Groups(r))
  {
    FillWith(m, cache, {})
  }

  /**
    The fill the rest of the model uses: the retransmission SSRC of an RTX section is not listed
    among the simulcast layers, so a cache hit puts back the cached layers and nothing else.
   */
  function FillSpec(m: MediaSources, cache: seq<Ssrc>): (r: MediaSources)
    requires m.ssrcs != [] || HasSim(Groups(m))
    ensures |r.ssrcs| >= |m.ssrcs| && HasSim(Groups(r))
  {
    FillWith(m, cache, RtxSkip(m))
  }

  // ---- _generateSourceData ----

  /** `numOfLayers - 1` new layers, none when the option asks for one layer or fewer. */
  function LayerCount(numOfLayers: int): nat {
    if numOfLayers > 1 then numOfLayers - 1 else 0
  }

  /** The lines `addAssociatedStream` pushes: a cname line and then an msid line per SSRC. */
  function AssociatedLines(ssrcs: seq<Ssrc>, cname: Option<string>, msid: Option<string>): (r: seq<SourceEntry>)
    ensures |r| == 2 * |ssrcs|
  {
    if ssrcs == [] then []
    else
      var n := |ssrcs| - 1;
      AssociatedLines(ssrcs[..n], cname, msid) + [SourceEntry(ssrcs[n], CNAME, cname), SourceEntry(ssrcs[n], MSID, msid)]
  }

  /** One `FID` group per layer, pairing it with its retransmission SSRC. */
  function FidGroups(sims: seq<Ssrc>, rtxs: seq<Ssrc>): (r: seq<SourceGroup>)
    requires |sims| == |rtxs|
    ensures |r| == |sims|
  {
    if sims == [] then []
    else
      var n := |sims| - 1;
      FidGroups(sims[..n], rtxs[..n]) + [SourceGroup(FID, [sims[n], rtxs[n]])]
  }

  /**
    `_generateSourceData` (lib/index.js:323-372) with the drawn layer SSRCs `sims` and, when
    `doingRtx`, the drawn retransmission SSRCs `rtxs`, one per layer.
   */
  function GenerateSpec(m: MediaSources, primary: Ssrc, doingRtx: bool, sims: seq<Ssrc>, rtxs: seq<Ssrc>): (r: MediaSources)
    requires |rtxs| == if doingRtx then |sims| else 0
    ensures |r.ssrcs| >= |m.ssrcs| && HasSim(Groups(r))
  {
    var msid := GetSsrcAttribute(m.ssrcs, primary, MSID);
    var cname := GetSsrcAttribute(m.ssrcs, primary, CNAME);
    var groups := Groups(m) + [SourceGroup(SIM, [primary] + sims)] + (if doingRtx then FidGroups(sims, rtxs) else []);
    assert IsSim(groups[|Groups(m)|]);
    MediaSources(m.ssrcs + AssociatedLines(sims, cname, msid) + AssociatedLines(rtxs, cname, msid), Some(groups))
  }

  // ---- _restoreSimulcast ----

  /** What `_restoreSimulcast` makes of a section before it touches it. */
  datatype Topology =
    | Unsupported                         // left as it is
    | Primary(ssrc: Ssrc, doingRtx: bool) // simulcast is restored around `ssrc`
    | Crash                               // the source raises a TypeError

  /** The number of distinct SSRCs with a line (lib/index.js:395-400). */
  function NumSsrcs(m: MediaSources): nat {
    |Dedup(Ids(m.ssrcs))|
  }

  /** `mLine.ssrcGroups.filter(... "FID")[0]` (lib/index.js:418). */
  function FirstFid(groups: seq<SourceGroup>): (r: Option<SourceGroup>)
    ensures r.Some? ==> r.value in groups && r.value.semantics == FID
  {
    if groups == [] then None
    else if groups[0].semantics == FID then Some(groups[0])
    else FirstFid(groups[1..])
  }

  /**
    The topology check of lib/index.js:392-424 as written: with two SSRCs, some groups and no
    `FID` group among them, `fidGroup` is undefined and line 419 raises a TypeError.
   */
  function TopologyAsWritten(m: MediaSources): Topology {
    var n := NumSsrcs(m);
    if n == 0 || n > 2 then Unsupported
    else if n == 2 && |Groups(m)| == 0 then Unsupported
    else if n == 1 then Primary(m.ssrcs[0].id, false)
    else match FirstFid(Groups(m))
      case None => Crash
      case Some(g) => if g.members == [] then Unsupported else Primary(g.members[0], true)
  }

  /**
    The topology check the rest of the model uses: a two-SSRC section without an `FID` group is
    one more unsupported scenario, left as it is like the others.
   */
  function RestoreTopology(m: MediaSources): (r: Topology)
    ensures r.Primary? ==> m.ssrcs != []
  {
    var n := NumSsrcs(m);
    if n == 0 || n > 2 then Unsupported
    else if n == 2 && |Groups(m)| == 0 then Unsupported
    else if n == 1 then Primary(m.ssrcs[0].id, false)
    else match FirstFid(Groups(m))
      case None => Unsupported
      case Some(g) => if g.members == [] then Unsupported else Primary(g.members[0], true)
  }

  /** A section `_restoreSimulcast` crashes on: two SSRCs tied by a `SIM` group instead of an `FID` group. */
  const CrashingSection := MediaSources(
    [SourceEntry(1, CNAME, Some("c")), SourceEntry(2, CNAME, Some("c"))],
    Some([SourceGroup(SIM, [1, 2])]))

  lemma TopologyCrashes()
    ensures TopologyAsWritten(CrashingSection) == Crash
    ensures RestoreTopology(CrashingSection) == Unsupported
  {
    var ids := Ids(CrashingSection.ssrcs);
    assert ids == [1, 2];
    assert ids[..1] == [1] && [1][..0] == [];
    assert Dedup(ids) == [1, 2];
  }

  /**
    The corrected check never crashes and agrees with the source wherever the source does not
    crash; an RTX primary is the first member of the first `FID` group.
   */
  lemma RestoreTopologyAgrees(m: MediaSources)
    ensures RestoreTopology(m) != Crash
    ensures TopologyAsWritten(m) != Crash ==> RestoreTopology(m) == TopologyAsWritten(m)
    ensures TopologyAsWritten(m) == Crash ==> RestoreTopology(m) == Unsupported
    ensures RestoreTopology(m).Primary? && RestoreTopology(m).doingRtx ==>
      && FirstFid(Groups(m)).Some? && FirstFid(Groups(m)).value.members != []
      && FirstFid(Groups(m)).value.members[0] == RestoreTopology(m).ssrc
    ensures RestoreTopology(m).Primary? && RestoreTopology(m).doingRtx ==>
      exists g :: g in Groups(m) && g.semantics == FID && g.members != [] && g.members[0] == RestoreTopology(m).ssrc
  {
    if RestoreTopology(m).Primary? && RestoreTopology(m).doingRtx {
      var g := FirstFid(Groups(m)).value;
      assert g in Groups(m);
    }
  }

  /** The number of SSRCs `_restoreSimulcast` draws: none on a cache hit or an unsupported section. */
  function Draws(m: MediaSources, cache: seq<Ssrc>, numOfLayers: int): nat {
    match RestoreTopology(m)
    case Primary(p, doingRtx) => if p in cache then 0 else (if doingRtx then 2 else 1) * LayerCount(numOfLayers)
    case _ => 0
  }

  /** A section after `_restoreSimulcast`, with the cache it leaves behind. */
  datatype Restored = Restored(media: MediaSources, cache: seq<Ssrc>)

  /**
    `_restoreSimulcast` (lib/index.js:391-434): an unsupported section is left alone; otherwise the
    cached layers are put back when the primary SSRC is cached and drawn ones are made up from
    `drawn` when it is not, and the cache becomes the layers of the result.
   */
  function RestoreSpec(m: MediaSources, cache: seq<Ssrc>, numOfLayers: int, drawn: seq<Ssrc>): Restored
    requires |drawn| == Draws(m, cache, numOfLayers)
  {
    match RestoreTopology(m)
    case Primary(p, doingRtx) =>
      var out :=
        if p in cache then FillSpec(m, cache)
        else
          var k := LayerCount(numOfLayers);
          GenerateSpec(m, p, doingRtx, drawn[..k], drawn[k..]);
      Restored(out, ParseSimLayers(out))
    case _ => Restored(m, cache)
  }

  // ---- properties ----

  /**
    The unsupported scenarios of lib/index.js:402-409 (no line, more than two SSRCs, or two
    SSRCs and no group) leave the section and the cache as they are and draw nothing.
   */
  lemma RestoreSkips(m: MediaSources, cache: seq<Ssrc>, numOfLayers: int)
    requires NumSsrcs(m) == 0 || NumSsrcs(m) > 2 || (NumSsrcs(m) == 2 && m.ssrcGroups.GetOr([]) == [])
    ensures Draws(m, cache, numOfLayers) == 0
    ensures RestoreSpec(m, cache, numOfLayers, []) == Restored(m, cache)
  {
  }

  /** The lines of `CachedLines`, position by position. */
  lemma {:induction false} CachedLinesAt(ssrcs: seq<Ssrc>, msid: Option<string>, cname: Option<string>, k: nat)
    requires k < |ssrcs|
    ensures CachedLines(ssrcs, msid, cname)[2 * k] == SourceEntry(ssrcs[k], MSID, msid)
    ensures CachedLines(ssrcs, msid, cname)[2 * k + 1] == SourceEntry(ssrcs[k], CNAME, cname)
  {
    var n := |ssrcs| - 1;
    if k < n {
      CachedLinesAt(ssrcs[..n], msid, cname, k);
    }
  }

  /** The lines of `AssociatedLines`, position by position. */
  lemma {:induction false} AssociatedLinesAt(ssrcs: seq<Ssrc>, cname: Option<string>, msid: Option<string>, k: nat)
    requires k < |ssrcs|
    ensures AssociatedLines(ssrcs, cname, msid)[2 * k] == SourceEntry(ssrcs[k], CNAME, cname)
    ensures AssociatedLines(ssrcs, cname, msid)[2 * k + 1] == SourceEntry(ssrcs[k], MSID, msid)
  {
    var n := |ssrcs| - 1;
    if k < n {
      AssociatedLinesAt(ssrcs[..n], cname, msid, k);
    }
  }

  /** The groups of `FidGroups`, position by position. */
  lemma {:induction false} FidGroupsAt(sims: seq<Ssrc>, rtxs: seq<Ssrc>, k: nat)
    requires |sims| == |rtxs| && k < |sims|
    ensures FidGroups(sims, rtxs)[k] == SourceGroup(FID, [sims[k], rtxs[k]])
  {
    var n := |sims| - 1;
    if k < n {
      FidGroupsAt(sims[..n], rtxs[..n], k);
    }
  }

  /**
    Generating keeps every line of the section and adds, for each drawn layer `k`, a cname line
    and an msid line carrying the primary's identity; with RTX, the same follows for each
    retransmission SSRC.
   */
  lemma GenerateLines(m: MediaSources, p: Ssrc, doingRtx: bool, sims: seq<Ssrc>, rtxs: seq<Ssrc>, k: nat)
    requires |rtxs| == (if doingRtx then |sims| else 0) && k < |sims|
    ensures var r, msid, cname := GenerateSpec(m, p, doingRtx, sims, rtxs),
        GetSsrcAttribute(m.ssrcs, p, MSID), GetSsrcAttribute(m.ssrcs, p, CNAME);
      && |r.ssrcs| == |m.ssrcs| + 2 * |sims| + 2 * |rtxs|
      && r.ssrcs[..|m.ssrcs|] == m.ssrcs
      && r.ssrcs[|m.ssrcs| + 2 * k] == SourceEntry(sims[k], CNAME, cname)
      && r.ssrcs[|m.ssrcs| + 2 * k + 1] == SourceEntry(sims[k], MSID, msid)
      && (doingRtx ==> r.ssrcs[|m.ssrcs| + 2 * |sims| + 2 * k] == SourceEntry(rtxs[k], CNAME, cname))
      && (doingRtx ==> r.ssrcs[|m.ssrcs| + 2 * |sims| + 2 * k + 1] == SourceEntry(rtxs[k], MSID, msid))
  {
    var msid, cname := GetSsrcAttribute(m.ssrcs, p, MSID), GetSsrcAttribute(m.ssrcs, p, CNAME);
    var a, b := AssociatedLines(sims, cname, msid), AssociatedLines(rtxs, cname, msid);
    var lines := m.ssrcs + a + b;
    assert GenerateSpec(m, p, doingRtx, sims, rtxs).ssrcs == lines;
    AssociatedLinesAt(sims, cname, msid, k);
    assert lines[|m.ssrcs| + 2 * k] == a[2 * k];
    assert lines[|m.ssrcs| + 2 * k + 1] == a[2 * k + 1];
    assert lines[..|m.ssrcs|] == m.ssrcs;
    if doingRtx {
      AssociatedLinesAt(rtxs, cname, msid, k);
      assert lines[|m.ssrcs| + 2 * |sims| + 2 * k] == b[2 * k];
      assert lines[|m.ssrcs| + 2 * |sims| + 2 * k + 1] == b[2 * k + 1];
    }
  }

  /**
    Generating keeps every group of the section, then appends a `SIM` group listing the primary
    and the layers in drawing order and, with RTX, one more group per layer.
   */
  lemma GenerateGroups(m: MediaSources, p: Ssrc, doingRtx: bool, sims: seq<Ssrc>, rtxs: seq<Ssrc>)
    requires |rtxs| == (if doingRtx then |sims| else 0)
    ensures var r := GenerateSpec(m, p, doingRtx, sims, rtxs);
      && r.ssrcGroups.Some? && r.ssrcGroups.value[..|Groups(m)|] == Groups(m)
      && r.ssrcGroups.value[|Groups(m)|] == SourceGroup(SIM, [p] + sims)
      && |r.ssrcGroups.value| == |Groups(m)| + 1 + |rtxs|
  {
    var sim := SourceGroup(SIM, [p] + sims);
    var fids := if doingRtx then FidGroups(sims, rtxs) else [];
    var groups := Groups(m) + [sim] + fids;
    assert GenerateSpec(m, p, doingRtx, sims, rtxs).ssrcGroups == Some(groups);
    assert groups[..|Groups(m)|] == Groups(m);
  }

  /** With RTX, the group after the `SIM` group at offset `k` pairs layer `k` with its retransmission SSRC. */
  lemma GenerateFids(m: MediaSources, p: Ssrc, sims: seq<Ssrc>, rtxs: seq<Ssrc>, k: nat)
    requires |rtxs| == |sims| && k < |sims|
    ensures var r := GenerateSpec(m, p, true, sims, rtxs);
      && r.ssrcGroups.Some? && |Groups(m)| + 1 + k < |r.ssrcGroups.value|
      && r.ssrcGroups.value[|Groups(m)| + 1 + k] == SourceGroup(FID, [sims[k], rtxs[k]])
  {
    var fids := FidGroups(sims, rtxs);
    var groups := Groups(m) + [SourceGroup(SIM, [p] + sims)] + fids;
    assert GenerateSpec(m, p, true, sims, rtxs).ssrcGroups == Some(groups);
    FidGroupsAt(sims, rtxs, k);
    assert groups[|Groups(m)| + 1 + k] == fids[k];
  }

  /** Without an earlier `SIM` group, the cache after generating is the primary and then the layers. */
  lemma GenerateCache(m: MediaSources, p: Ssrc, doingRtx: bool, sims: seq<Ssrc>, rtxs: seq<Ssrc>)
    requires |rtxs| == (if doingRtx then |sims| else 0) && !HasSim(Groups(m))
    ensures ParseSimLayers(GenerateSpec(m, p, doingRtx, sims, rtxs)) == [p] + sims
  {
    var sim := SourceGroup(SIM, [p] + sims);
    var fids := if doingRtx then FidGroups(sims, rtxs) else [];
    FirstSimAfterAppend(Groups(m), sim, fids);
    assert Groups(GenerateSpec(m, p, doingRtx, sims, rtxs)) == Groups(m) + [sim] + fids;
  }

  lemma ToAddMembers(cache: seq<Ssrc>, ssrcMap: map<Ssrc, Option<Ssrc>>)
    ensures forall x :: x in ToAdd(cache, ssrcMap) <==> x in cache && x !in Replacements(ssrcMap)
  {
    FilterMembers(cache, Untaken(Replacements(ssrcMap)));
  }

  /** The collected SSRCs are exactly the SSRCs of the renamed lines outside `skip`. */
  lemma CollectedMembers(renamed: seq<SourceEntry>, skip: set<Ssrc>)
    ensures forall x :: x in Collected(renamed, skip) <==> x in Ids(renamed) && x !in skip
  {
    FilterMembers(Ids(renamed), Untaken(skip));
  }

  /**
    Restoring from the cache renames each line whose SSRC is a new layer mapped to a cached
    SSRC, and appends, for every cached SSRC no layer was renamed to, an msid line and a cname
    line carrying the first layer's identity. The one group it appends is a `SIM` group listing
    the distinct SSRCs of the renamed lines in order of first appearance, the retransmission SSRC
    left out, then those cached SSRCs.
   */
  lemma FillLayers(m: MediaSources, cache: seq<Ssrc>, k: nat)
    requires m.ssrcs != [] || HasSim(Groups(m))
    ensures var layers := ParseSimLayers(m);
      var ssrcMap, r := NewToOld(layers, cache), FillSpec(m, cache);
      var adds, renamed := ToAdd(cache, ssrcMap), RenameAll(m.ssrcs, ssrcMap);
      var collected := Collected(renamed, RtxSkip(m));
      && |r.ssrcs| == |m.ssrcs| + 2 * |adds|
      && (k < |m.ssrcs| ==> r.ssrcs[k] == Renamed(m.ssrcs[k], ssrcMap))
      && (k < |adds| ==> r.ssrcs[|m.ssrcs| + 2 * k] == SourceEntry(adds[k], MSID, LayerIdentity(m.ssrcs, layers, MSID)))
      && (k < |adds| ==> r.ssrcs[|m.ssrcs| + 2 * k + 1] == SourceEntry(adds[k], CNAME, LayerIdentity(m.ssrcs, layers, CNAME)))
      && (forall x :: x in adds <==> x in cache && x !in Replacements(ssrcMap))
      && (forall x :: x in collected <==> x in Ids(renamed) && x !in RtxSkip(m))
      && r.ssrcGroups == Some(Groups(m) + [SourceGroup(SIM, collected + adds)])
      && (!HasSim(Groups(m)) ==> ParseSimLayers(r) == collected + adds)
  {
    var layers := ParseSimLayers(m);
    var ssrcMap := NewToOld(layers, cache);
    var adds := ToAdd(cache, ssrcMap);
    var msid, cname := LayerIdentity(m.ssrcs, layers, MSID), LayerIdentity(m.ssrcs, layers, CNAME);
    var r := FillSpec(m, cache);
    assert r == FillWith(m, cache, RtxSkip(m));
    var c := CachedLines(adds, msid, cname);
    if k < |adds| {
      CachedLinesAt(adds, msid, cname, k);
      assert r.ssrcs[|m.ssrcs| + 2 * k] == c[2 * k];
      assert r.ssrcs[|m.ssrcs| + 2 * k + 1] == c[2 * k + 1];
    }
    ToAddMembers(cache, ssrcMap);
    var collected := Collected(RenameAll(m.ssrcs, ssrcMap), RtxSkip(m));
    CollectedMembers(RenameAll(m.ssrcs, ssrcMap), RtxSkip(m));
    if !HasSim(Groups(m)) {
      var sim := SourceGroup(SIM, collected + adds);
      FirstSimAfterAppend(Groups(m), sim, []);
      assert Groups(m) + [sim] + [] == Groups(m) + [sim];
    }
  }

  /**
    With one new layer `p`, the map sends `p` to the head of the cache, and every other cached
    SSRC is left to be added, provided the head is not 0 (which `|| null` at lib/index.js:271
    reads as missing) and does not recur.
   */
  lemma HeadMap(p: Ssrc, cache: seq<Ssrc>)
    requires cache != [] && cache[0] != 0 && cache[0] !in cache[1..]
    ensures NewToOld([p], cache) == map[p := Some(cache[0])]
    ensures ToAdd(cache, map[p := Some(cache[0])]) == cache[1..]
  {
    assert [p][..0] == [];
    var ssrcMap := map[p := Some(cache[0])];
    assert p in ssrcMap && ssrcMap[p] == Some(cache[0]);
    assert cache[0] in Replacements(ssrcMap);
    assert Replacements(ssrcMap) == {cache[0]};
    assert !Untaken({cache[0]})(cache[0]);
    FilterKeepsAll(cache[1..], Untaken({cache[0]}));
  }

  /** A section whose every line belongs to one SSRC `p`, with no `SIM` group. */
  predicate SingleSource(m: MediaSources, p: Ssrc) {
    && m.ssrcs != []
    && (forall k :: 0 <= k < |m.ssrcs| ==> m.ssrcs[k].id == p)
    && !HasSim(Groups(m))
  }

  lemma SingleSourceTopology(m: MediaSources, p: Ssrc)
    requires SingleSource(m, p)
    ensures Dedup(Ids(m.ssrcs)) == [p]
    ensures RestoreTopology(m) == Primary(p, false)
    ensures ParseSimLayers(m) == [p]
  {
    DedupConstant(Ids(m.ssrcs), p);
    FirstSimSpec(Groups(m));
  }

  /** Renaming through `{p: c}` moves every line of a single-stream section to `c`. */
  lemma RenameTo(m: MediaSources, p: Ssrc, c: Ssrc)
    requires SingleSource(m, p)
    ensures forall k :: 0 <= k < |m.ssrcs| ==> RenameAll(m.ssrcs, map[p := Some(c)])[k] == m.ssrcs[k].(id := c)
    ensures Collected(RenameAll(m.ssrcs, map[p := Some(c)]), {}) == [c]
  {
    var r := RenameAll(m.ssrcs, map[p := Some(c)]);
    forall k | 0 <= k < |m.ssrcs|
      ensures r[k] == m.ssrcs[k].(id := c)
    {
      assert m.ssrcs[k].id == p;
    }
    FilterKeepsAll(Ids(r), Untaken({}));
    DedupConstant(Ids(r), c);
  }

  /** Renaming through `{p: p}` changes nothing. */
  lemma RenameSelf(entries: seq<SourceEntry>, p: Ssrc)
    ensures RenameAll(entries, map[p := Some(p)]) == entries
  {
    var r := RenameAll(entries, map[p := Some(p)]);
    forall k | 0 <= k < |entries|
      ensures r[k] == entries[k]
    {
    }
  }

  /**
    A single-stream section whose primary SSRC is not cached gets the drawn layers: one `SIM`
    group of the primary followed by them, and the cache becomes that list.
   */
  lemma RestoreGenerates(m: MediaSources, p: Ssrc, cache: seq<Ssrc>, numOfLayers: int, drawn: seq<Ssrc>)
    requires SingleSource(m, p) && p !in cache && |drawn| == LayerCount(numOfLayers)
    ensures |drawn| == Draws(m, cache, numOfLayers)
    ensures var r := RestoreSpec(m, cache, numOfLayers, drawn);
      && r.cache == [p] + drawn
      && r.media.ssrcGroups == Some(Groups(m) + [SourceGroup(SIM, [p] + drawn)])
  {
    SingleSourceTopology(m, p);
    var k := LayerCount(numOfLayers);
    assert drawn[..k] == drawn && drawn[k..] == [];
    var out := GenerateSpec(m, p, false, drawn, []);
    assert RestoreSpec(m, cache, numOfLayers, drawn) == Restored(out, ParseSimLayers(out));
    GenerateCache(m, p, false, drawn, []);
    assert Groups(m) + [SourceGroup(SIM, [p] + drawn)] + [] == Groups(m) + [SourceGroup(SIM, [p] + drawn)];
  }

  /**
    A single-stream section whose primary SSRC is cached gets the cached layers back: its lines
    move to the head of the cache, one `SIM` group lists the cache, which stays as it is, and
    nothing is drawn. After the lines, each other cached SSRC gets, in cache order, an msid line
    and then a cname line carrying the primary's values. The cached SSRCs must differ from each
    other, and the head must not be 0, which `|| null` (lib/index.js:271) treats as missing.
   */
  lemma RestoreRefills(m: MediaSources, p: Ssrc, cache: seq<Ssrc>, numOfLayers: int)
    requires SingleSource(m, p) && p in cache && Distinct(cache) && cache[0] != 0
    ensures Draws(m, cache, numOfLayers) == 0
    ensures var r := RestoreSpec(m, cache, numOfLayers, []);
      && r.cache == cache
      && r.media.ssrcGroups == Some(Groups(m) + [SourceGroup(SIM, cache)])
      && |r.media.ssrcs| == |m.ssrcs| + 2 * (|cache| - 1)
      && (forall k :: 0 <= k < |m.ssrcs| ==> r.media.ssrcs[k] == m.ssrcs[k].(id := cache[0]))
      && (forall k :: 1 <= k < |cache| ==>
            && r.media.ssrcs[|m.ssrcs| + 2 * k - 2] == SourceEntry(cache[k], MSID, LayerIdentity(m.ssrcs, [p], MSID))
            && r.media.ssrcs[|m.ssrcs| + 2 * k - 1] == SourceEntry(cache[k], CNAME, LayerIdentity(m.ssrcs, [p], CNAME)))
  {
    SingleSourceTopology(m, p);
    var c0 := cache[0];
    assert c0 !in cache[1..] by {
      forall j | 0 <= j < |cache| - 1
        ensures cache[1..][j] != c0
      {
        assert cache[1..][j] == cache[j + 1];
      }
    }
    HeadMap(p, cache);
    RenameTo(m, p, c0);
    assert RtxSkip(m) == {};
    var renamed := RenameAll(m.ssrcs, map[p := Some(c0)]);
    var out := FillSpec(m, cache);
    assert out == FillWith(m, cache, {});
    assert [c0] + cache[1..] == cache;
    var sim := SourceGroup(SIM, cache);
    assert out.ssrcGroups == Some(Groups(m) + [sim]);
    assert out.ssrcs[..|m.ssrcs|] == renamed;
    assert RestoreSpec(m, cache, numOfLayers, []) == Restored(out, ParseSimLayers(out));
    FirstSimAfterAppend(Groups(m), sim, []);
    assert Groups(m) + [sim] + [] == Groups(m) + [sim];
    forall k | 1 <= k < |cache|
      ensures out.ssrcs[|m.ssrcs| + 2 * k - 2] == SourceEntry(cache[k], MSID, LayerIdentity(m.ssrcs, [p], MSID))
      ensures out.ssrcs[|m.ssrcs| + 2 * k - 1] == SourceEntry(cache[k], CNAME, LayerIdentity(m.ssrcs, [p], CNAME))
    {
      RefillLines(m, p, cache, k);
    }
  }

  /** The msid and cname lines `FillSpec` appends for the `k`-th cached SSRC on a hit for `p`. */
  lemma RefillLines(m: MediaSources, p: Ssrc, cache: seq<Ssrc>, k: nat)
    requires SingleSource(m, p) && cache != [] && cache[0] != 0 && cache[0] !in cache[1..]
    requires 1 <= k < |cache|
    ensures |FillSpec(m, cache).ssrcs| == |m.ssrcs| + 2 * (|cache| - 1)
    ensures FillSpec(m, cache).ssrcs[|m.ssrcs| + 2 * k - 2] == SourceEntry(cache[k], MSID, LayerIdentity(m.ssrcs, [p], MSID))
    ensures FillSpec(m, cache).ssrcs[|m.ssrcs| + 2 * k - 1] == SourceEntry(cache[k], CNAME, LayerIdentity(m.ssrcs, [p], CNAME))
  {
    SingleSourceTopology(m, p);
    HeadMap(p, cache);
    FillLayers(m, cache, k - 1);
    assert cache[1..][k - 1] == cache[k];
  }

  /**
    The stability guarantee of lib/index.js:384-386. A single-stream section whose primary SSRC is
    not cached gets drawn layers, and the cache becomes the primary followed by them. Handing the
    same section in again draws nothing: the cached layers come back as the same `SIM` group and
    the cache stays as it is. The drawn SSRCs must differ from each other and from the primary, and
    the primary must not be 0, which `|| null` (lib/index.js:271) treats as missing.
   */
  lemma RestoreStable(m: MediaSources, p: Ssrc, cache: seq<Ssrc>, numOfLayers: int, drawn: seq<Ssrc>)
    requires SingleSource(m, p) && p != 0 && p !in cache
    requires |drawn| == LayerCount(numOfLayers) && Distinct([p] + drawn)
    ensures |drawn| == Draws(m, cache, numOfLayers)
    ensures var first := RestoreSpec(m, cache, numOfLayers, drawn);
      && first.cache == [p] + drawn
      && Draws(m, first.cache, numOfLayers) == 0
      && RestoreSpec(m, first.cache, numOfLayers, []).cache == first.cache
      && RestoreSpec(m, first.cache, numOfLayers, []).media.ssrcGroups == first.media.ssrcGroups
  {
    RestoreGenerates(m, p, cache, numOfLayers, drawn);
    RestoreRefills(m, p, [p] + drawn, numOfLayers);
  }

  /**
    A section with an RTX stream, as assumption 2 of lib/index.js:379 allows: lines for the
    SSRCs `p` and `rtx` only, the first of them for `p`, tied by the one group `FID p rtx`.
   */
  predicate RtxSource(m: MediaSources, p: Ssrc, rtx: Ssrc) {
    && m.ssrcs != []
    && m.ssrcs[0].id == p
    && Dedup(Ids(m.ssrcs)) == [p, rtx]
    && Groups(m) == [SourceGroup(FID, [p, rtx])]
  }

  lemma RtxSourceTopology(m: MediaSources, p: Ssrc, rtx: Ssrc)
    requires RtxSource(m, p, rtx)
    ensures p != rtx && !HasSim(Groups(m)) && ParseSimLayers(m) == [p]
    ensures RestoreTopology(m) == Primary(p, true) && TopologyAsWritten(m) == Primary(p, true)
    ensures RtxSkip(m) == {rtx}
  {
    assert Distinct(Dedup(Ids(m.ssrcs)));
    assert [p, rtx][0] != [p, rtx][1];
    assert FirstFid(Groups(m)) == Some(SourceGroup(FID, [p, rtx]));
    FirstSimSpec(Groups(m));
  }

  /**
    The renaming pass over an RTX section collects `p` and `rtx` as written, and `p` alone when
    `rtx` is passed over.
   */
  lemma RtxCollected(m: MediaSources, p: Ssrc, rtx: Ssrc)
    requires RtxSource(m, p, rtx) && p != rtx
    ensures Collected(m.ssrcs, {}) == [p, rtx]
    ensures Collected(m.ssrcs, {rtx}) == [p]
  {
    var ids := Ids(m.ssrcs);
    FilterKeepsAll(ids, Untaken({}));
    var f := Filter(ids, Untaken({rtx}));
    FilterMembers(ids, Untaken({rtx}));
    assert ids[0] == p && p in ids && Untaken({rtx})(p);
    assert p in f;
    forall k | 0 <= k < |f|
      ensures f[k] == p
    {
      assert f[k] in f;
      assert f[k] in ids && f[k] != rtx;
      assert f[k] in Dedup(ids);
    }
    DedupConstant(f, p);
  }

  /** As written, one cache hit on an RTX section inserts `rtx` behind the primary. */
  lemma HitAsWritten(m: MediaSources, p: Ssrc, rtx: Ssrc, rest: seq<Ssrc>)
    requires RtxSource(m, p, rtx) && p != 0 && p !in rest
    ensures ParseSimLayers(FillAsWritten(m, [p] + rest)) == [p, rtx] + rest
  {
    RtxSourceTopology(m, p, rtx);
    RtxCollected(m, p, rtx);
    var cache := [p] + rest;
    assert cache[1..] == rest;
    HeadMap(p, cache);
    RenameSelf(m.ssrcs, p);
    var sim := SourceGroup(SIM, [p, rtx] + rest);
    var out := FillAsWritten(m, cache);
    assert out == FillWith(m, cache, {});
    assert out.ssrcGroups == Some(Groups(m) + [sim]);
    FirstSimAfterAppend(Groups(m), sim, []);
    assert Groups(m) + [sim] + [] == Groups(m) + [sim];
  }

  /**
    As written, a cache hit on a section with an RTX stream lists the retransmission SSRC among
    the simulcast layers (lib/index.js:291-298): from the cache `[p] + rest`, the new `SIM` group,
    and so the cache `_restoreSimulcast` keeps (lib/index.js:432), reads `p`, `rtx`, then `rest`.
    Since `p` still heads that cache, the next hit on the same section inserts `rtx` once more:
    the cache grows by one on every hit.
   */
  lemma RestoreHitWithRtx(m: MediaSources, p: Ssrc, rtx: Ssrc, rest: seq<Ssrc>)
    requires RtxSource(m, p, rtx) && p != 0 && p !in rest
    ensures TopologyAsWritten(m) == Primary(p, true)
    ensures ParseSimLayers(FillAsWritten(m, [p] + rest)) == [p, rtx] + rest
    ensures ParseSimLayers(FillAsWritten(m, [p, rtx] + rest)) == [p, rtx, rtx] + rest
  {
    assert p != rtx && TopologyAsWritten(m) == Primary(p, true) by {
      RtxSourceTopology(m, p, rtx);
    }
    var again := [rtx] + rest;
    assert [p] + again == [p, rtx] + rest;
    assert [p, rtx] + again == [p, rtx, rtx] + rest;
    HitAsWritten(m, p, rtx, rest);
    HitAsWritten(m, p, rtx, again);
  }

  /**
    With the retransmission SSRC left out of the collected members, a cache hit on a section with
    an RTX stream puts back exactly the cached layers: the lines and the `FID` group stay, one
    `SIM` group lists the cache, and the cache is unchanged, so repeated hits agree.
   */
  lemma RtxHitStable(m: MediaSources, p: Ssrc, rtx: Ssrc, layers: seq<Ssrc>, numOfLayers: int)
    requires RtxSource(m, p, rtx) && p != 0 && p !in layers
    ensures Draws(m, [p] + layers, numOfLayers) == 0
    ensures var r := RestoreSpec(m, [p] + layers, numOfLayers, []);
      && r.cache == [p] + layers
      && r.media.ssrcGroups == Some([SourceGroup(FID, [p, rtx]), SourceGroup(SIM, [p] + layers)])
      && |r.media.ssrcs| >= |m.ssrcs| && r.media.ssrcs[..|m.ssrcs|] == m.ssrcs
  {
    RtxSourceTopology(m, p, rtx);
    RtxCollected(m, p, rtx);
    var cache := [p] + layers;
    assert cache[0] == p && cache[1..] == layers;
    HeadMap(p, cache);
    RenameSelf(m.ssrcs, p);
    assert NewToOld(ParseSimLayers(m), cache) == map[p := Some(p)];
    assert Collected(RenameAll(m.ssrcs, map[p := Some(p)]), {rtx}) + layers == cache;
    var sim := SourceGroup(SIM, cache);
    var out := FillSpec(m, cache);
    assert out == FillWith(m, cache, {rtx});
    assert out.ssrcGroups == Some(Groups(m) + [sim]);
    assert out.ssrcs[..|m.ssrcs|] == m.ssrcs;
    assert RestoreSpec(m, cache, numOfLayers, []) == Restored(out, ParseSimLayers(out));
    FirstSimAfterAppend(Groups(m), sim, []);
    assert Groups(m) + [sim] + [] == Groups(m) + [sim];
    assert Groups(m) + [sim] == [SourceGroup(FID, [p, rtx]), sim];
    assert RestoreSpec(m, cache, numOfLayers, []).media.ssrcGroups == Some([SourceGroup(FID, [p, rtx]), sim]);
  }

  /**
    Guarantee 2 of lib/index.js:384-386 for a section with an RTX stream: a first restore, with
    the primary uncached, draws the layers and their retransmission SSRCs, and the cache becomes
    the primary followed by the layers. Handing the same section in again draws nothing and
    keeps that cache and that `SIM` group.
   */
  lemma RestoreStableRtx(m: MediaSources, p: Ssrc, rtx: Ssrc, cache: seq<Ssrc>, numOfLayers: int, drawn: seq<Ssrc>)
    requires RtxSource(m, p, rtx) && p != 0 && p !in cache
    requires |drawn| == 2 * LayerCount(numOfLayers) && p !in drawn[..LayerCount(numOfLayers)]
    ensures |drawn| == Draws(m, cache, numOfLayers)
    ensures var first, sims := RestoreSpec(m, cache, numOfLayers, drawn), drawn[..LayerCount(numOfLayers)];
      && first.cache == [p] + sims
      && first.media.ssrcGroups.Some? && |first.media.ssrcGroups.value| >= 2
      && first.media.ssrcGroups.value[1] == SourceGroup(SIM, [p] + sims)
      && Draws(m, first.cache, numOfLayers) == 0
      && RestoreSpec(m, first.cache, numOfLayers, []).cache == first.cache
      && RestoreSpec(m, first.cache, numOfLayers, []).media.ssrcGroups.value[1] == SourceGroup(SIM, [p] + sims)
  {
    RtxSourceTopology(m, p, rtx);
    var k := LayerCount(numOfLayers);
    var sims, rtxs := drawn[..k], drawn[k..];
    var out := GenerateSpec(m, p, true, sims, rtxs);
    assert RestoreSpec(m, cache, numOfLayers, drawn) == Restored(out, ParseSimLayers(out));
    GenerateCache(m, p, true, sims, rtxs);
    GenerateGroups(m, p, true, sims, rtxs);
    RtxHitStable(m, p, rtx, sims, numOfLayers);
  }
}
