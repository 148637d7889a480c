/**
  The remote normaliser: rewrites the `SIM` grouping of a received video section either into
  independent per-layer streams (explode, lib/index.js:82-137) or into its primary layer alone
  (implode, lib/index.js:139-200).

  Both work in place on the media section. Each is a method that does what the source's loops
  do, proved equal to a specification function of the section it started from; the lemmas
  below state what that specification guarantees.
 */
module RemoteNormalizer {
  import opened Sdp
  import opened SourceStore

  // ======================================================================
  // Explode
  // ======================================================================

  /** The state an explode pass accumulates: the keyed sources and the emission order. */
  datatype Walk = Walk(sources: map<Ssrc, Source>, order: seq<Ssrc>)

  /** What explode leaves: the section, the pass's final state, and `false` if it raised a TypeError. */
  datatype Exploded = Exploded(media: MediaSources, walk: Walk, ok: bool)

  /**
    The msid of layer `i` (lines 106-107): "s t" becomes "s/i t/i". Only the first two tokens
    are kept; a msid with a single token has no second one, which JavaScript's `join` writes
    as the empty string.
   */
  function LayerMsid(msid: string, i: nat): string {
    var parts := SplitOnSpace(msid);
    var tag := "/" + NatToString(i);
    parts[0] + tag + " " + (if |parts| > 1 then parts[1] else "") + tag
  }

  /** The cname of layer `i` (line 108); a missing cname is joined as the empty string. */
  function LayerCname(cname: Option<string>, i: nat): string {
    cname.GetOr("") + "/" + NatToString(i)
  }

  function Layered(src: Source, i: nat): Source
    requires src.msid.Some?
  {
    Source(Some(LayerMsid(src.msid.value, i)), Some(LayerCname(src.cname, i)))
  }

  /**
    Lines 122-128: each member of one related group takes the layer's identity, and each
    member other than the layer joins the emission order. A member without a source raises a
    TypeError (`None`).
   */
  function CopyIdentity(w: Walk, layer: Ssrc, related: seq<Ssrc>): (r: Option<Walk>)
    requires layer in w.sources
    ensures r.Some? ==> r.value.sources.Keys == w.sources.Keys
    decreases |related|
  {
    if related == [] then Some(w)
    else
      var x := related[0];
      if x !in w.sources then None
      else
        CopyIdentity(
          Walk(w.sources[x := w.sources[layer]], if x != layer then w.order + [x] else w.order),
          layer, related[1..])
  }

  /** Lines 111-131: the related groups are the non-`SIM` groups that contain the layer. */
  function CopyToRelated(w: Walk, layer: Ssrc, groups: seq<SourceGroup>): (r: Option<Walk>)
    requires layer in w.sources
    ensures r.Some? ==> r.value.sources.Keys == w.sources.Keys
    decreases |groups|
  {
    if groups == [] then Some(w)
    else if IsSim(groups[0]) || layer !in groups[0].members then CopyToRelated(w, layer, groups[1..])
    else
      match CopyIdentity(w, layer, groups[0].members)
      case None => None
      case Some(w') => CopyToRelated(w', layer, groups[1..])
  }

  /**
    Lines 103-131 for layer `i` of a `SIM` group: the layer joins the order, takes its
    layered identity and hands it to its related groups. A layer without a source or without
    a msid raises a TypeError at line 106.
   */
  function ExplodeLayer(w: Walk, groups: seq<SourceGroup>, layer: Ssrc, i: nat): Option<Walk> {
    if layer !in w.sources || w.sources[layer].msid.None? then None
    else
      CopyToRelated(
        Walk(w.sources[layer := Layered(w.sources[layer], i)], w.order + [layer]), layer, groups)
  }

  /** Lines 101-132: the layers of one `SIM` group from position `i` on. */
  function ExplodeMembers(w: Walk, groups: seq<SourceGroup>, members: seq<Ssrc>, i: nat): Option<Walk>
    requires i <= |members|
    decreases |members| - i
  {
    if i == |members| then Some(w)
    else
      match ExplodeLayer(w, groups, members[i], i)
      case None => None
      case Some(w') => ExplodeMembers(w', groups, members, i + 1)
  }

  /**
    Lines 92-136: the groups below index `j` are still to be scanned, from the end. After each
    `SIM` group the lines are rewritten from the accumulated state and the group is removed.
   */
  function ExplodeFrom(ssrcs: seq<SourceEntry>, groups: seq<SourceGroup>, w: Walk, j: nat): Exploded
    requires j <= |groups|
    decreases j
  {
    if j == 0 then Exploded(MediaSources(ssrcs, Some(groups)), w, true)
    else if !IsSim(groups[j - 1]) then ExplodeFrom(ssrcs, groups, w, j - 1)
    else
      match ExplodeMembers(w, groups, groups[j - 1].members, 0)
      case None => Exploded(MediaSources(ssrcs, Some(groups)), w, false)
      case Some(w') =>
        ExplodeFrom(WriteSsrcs(w'.sources, w'.order), groups[..j - 1] + groups[j..], w', j - 1)
  }

  /** `explodeRemoteSimulcast` (lines 82-137) as a function of the section it is given. */
  function Explode(m: MediaSources): Exploded {
    match m.ssrcGroups
    case None => Exploded(m, Walk(map[], []), true)
    case Some(groups) => ExplodeFrom(m.ssrcs, groups, Walk(ParseSsrcs(m.ssrcs), []), |groups|)
  }

  // ---- explode: what it guarantees ----

  /** Scanning groups none of which is a `SIM` group changes nothing. */
  lemma {:induction false} ExplodeFromNoSim(ssrcs: seq<SourceEntry>, groups: seq<SourceGroup>, w: Walk, j: nat)
    requires j <= |groups|
    requires forall k :: 0 <= k < j ==> !IsSim(groups[k])
    ensures ExplodeFrom(ssrcs, groups, w, j) == Exploded(MediaSources(ssrcs, Some(groups)), w, true)
    decreases j
  {
    if j > 0 {
      ExplodeFromNoSim(ssrcs, groups, w, j - 1);
    }
  }

  /** A section without `SIM` groups is returned as it is. */
  lemma ExplodeWithoutSim(m: MediaSources)
    requires m.ssrcGroups.None? || !HasSim(m.ssrcGroups.value)
    ensures Explode(m).media == m && Explode(m).ok
  {
    if m.ssrcGroups.Some? {
      var groups := m.ssrcGroups.value;
      ExplodeFromNoSim(m.ssrcs, groups, Walk(ParseSsrcs(m.ssrcs), []), |groups|);
    }
  }

  lemma {:induction false} ExplodeFromGroups(ssrcs: seq<SourceEntry>, groups: seq<SourceGroup>, w: Walk, j: nat)
    requires j <= |groups|
    ensures var r := ExplodeFrom(ssrcs, groups, w, j);
      r.ok ==> r.media.ssrcGroups == Some(NonSim(groups[..j]) + groups[j..])
    decreases j
  {
    var r := ExplodeFrom(ssrcs, groups, w, j);
    if j == 0 {
      assert groups[..0] == [] && groups[0..] == groups && NonSim([]) == [];
      assert NonSim(groups[..0]) + groups[0..] == groups;
    } else {
      var pre, g := groups[..j - 1], groups[j - 1];
      assert groups[..j] == pre + [g];
      NonSimAppend(pre, [g]);
      if !IsSim(g) {
        assert r == ExplodeFrom(ssrcs, groups, w, j - 1);
        ExplodeFromGroups(ssrcs, groups, w, j - 1);
        assert NonSim([g]) == [g];
        assert groups[j - 1..] == [g] + groups[j..];
        assert NonSim(pre) + [g] + groups[j..] == NonSim(pre) + groups[j - 1..];
      } else {
        var res := ExplodeMembers(w, groups, g.members, 0);
        if res.Some? {
          var w' := res.value;
          var rest := pre + groups[j..];
          assert r == ExplodeFrom(WriteSsrcs(w'.sources, w'.order), rest, w', j - 1);
          assert rest[..j - 1] == pre && rest[j - 1..] == groups[j..];
          ExplodeFromGroups(WriteSsrcs(w'.sources, w'.order), rest, w', j - 1);
          assert NonSim([g]) == [];
          assert NonSim(groups[..j]) == NonSim(pre) + [];
          assert NonSim(groups[..j]) + groups[j..] == NonSim(rest[..j - 1]) + rest[j - 1..];
        } else {
          assert !r.ok;
        }
      }
    }
  }

  /** A successful explode leaves exactly the non-`SIM` groups, in their order. */
  lemma ExplodeRemovesSim(m: MediaSources)
    requires m.ssrcGroups.Some? && Explode(m).ok
    ensures Explode(m).media.ssrcGroups == Some(NonSim(m.ssrcGroups.value))
    ensures Explode(m).media.ssrcGroups.Some? && !HasSim(Explode(m).media.ssrcGroups.value)
  {
    var groups := m.ssrcGroups.value;
    ExplodeFromGroups(m.ssrcs, groups, Walk(ParseSsrcs(m.ssrcs), []), |groups|);
    assert groups[..|groups|] == groups && groups[|groups|..] == [];
    assert NonSim(groups) + [] == NonSim(groups);
    NonSimMembers(groups);
  }

  /** Exploding an exploded section changes nothing. */
  lemma ExplodeIdempotent(m: MediaSources)
    requires Explode(m).ok
    ensures Explode(Explode(m).media).media == Explode(m).media
    ensures Explode(Explode(m).media).ok
  {
    if m.ssrcGroups.Some? {
      ExplodeRemovesSim(m);
    }
    ExplodeWithoutSim(Explode(m).media);
  }

  // ---- explode: the emission order ----

  /** The members of `related` other than `layer`, in order. */
  function Others(related: seq<Ssrc>, layer: Ssrc): seq<Ssrc> {
    if related == [] then []
    else (if related[0] != layer then [related[0]] else []) + Others(related[1..], layer)
  }

  lemma {:induction false} OthersMembers(related: seq<Ssrc>, layer: Ssrc)
    ensures forall x :: x in Others(related, layer) <==> x in related && x != layer
  {
    if related != [] {
      OthersMembers(related[1..], layer);
      assert forall x :: x in related <==> x == related[0] || x in related[1..];
    }
  }

  /** The SSRCs the related groups of `layer` add to the order, group by group. */
  function Siblings(layer: Ssrc, related: seq<SourceGroup>): seq<Ssrc> {
    if related == [] then []
    else
      (if layer in related[0].members then Others(related[0].members, layer) else []) +
      Siblings(layer, related[1..])
  }

  /** The order one `SIM` group contributes: each layer followed by its siblings. */
  function LayerOrder(members: seq<Ssrc>, related: seq<SourceGroup>): seq<Ssrc> {
    if members == [] then []
    else [members[0]] + Siblings(members[0], related) + LayerOrder(members[1..], related)
  }

  /** The order the `SIM` groups of `prefix` contribute, the last group first. */
  function SimOrder(prefix: seq<SourceGroup>, related: seq<SourceGroup>): seq<Ssrc> {
    if prefix == [] then []
    else
      var g := prefix[|prefix| - 1];
      (if IsSim(g) then LayerOrder(g.members, related) else []) + SimOrder(prefix[..|prefix| - 1], related)
  }

  /** The order in which a successful explode writes the SSRCs of `groups`. */
  function EmissionOrder(groups: seq<SourceGroup>): seq<Ssrc> {
    SimOrder(groups, NonSim(groups))
  }

  lemma {:induction false} CopyIdentityOrder(w: Walk, layer: Ssrc, related: seq<Ssrc>)
    requires layer in w.sources && CopyIdentity(w, layer, related).Some?
    ensures CopyIdentity(w, layer, related).value.order == w.order + Others(related, layer)
    decreases |related|
  {
    if related != [] {
      var x := related[0];
      var w1 := Walk(w.sources[x := w.sources[layer]], if x != layer then w.order + [x] else w.order);
      CopyIdentityOrder(w1, layer, related[1..]);
    }
  }

  lemma SiblingsCons(layer: Ssrc, g: SourceGroup, rest: seq<SourceGroup>)
    ensures Siblings(layer, [g] + rest) ==
      (if layer in g.members then Others(g.members, layer) else []) + Siblings(layer, rest)
  {
    assert ([g] + rest)[0] == g && ([g] + rest)[1..] == rest;
  }

  /** The SSRCs `CopyToRelated` adds to the order, scanning the groups as it does. */
  function RelatedOrder(layer: Ssrc, groups: seq<SourceGroup>): seq<Ssrc> {
    if groups == [] then []
    else if IsSim(groups[0]) || layer !in groups[0].members then RelatedOrder(layer, groups[1..])
    else Others(groups[0].members, layer) + RelatedOrder(layer, groups[1..])
  }

  lemma {:induction false} RelatedOrderSiblings(layer: Ssrc, groups: seq<SourceGroup>)
    ensures RelatedOrder(layer, groups) == Siblings(layer, NonSim(groups))
  {
    if groups != [] {
      var g, rest := groups[0], groups[1..];
      RelatedOrderSiblings(layer, rest);
      if !IsSim(g) {
        assert NonSim(groups) == [g] + NonSim(rest);
        SiblingsCons(layer, g, NonSim(rest));
      }
    }
  }

  lemma {:induction false} CopyToRelatedRelatedOrder(w: Walk, layer: Ssrc, groups: seq<SourceGroup>)
    requires layer in w.sources && CopyToRelated(w, layer, groups).Some?
    ensures CopyToRelated(w, layer, groups).value.order == w.order + RelatedOrder(layer, groups)
    decreases |groups|
  {
    if groups != [] {
      var g, rest := groups[0], groups[1..];
      if IsSim(g) || layer !in g.members {
        CopyToRelatedRelatedOrder(w, layer, rest);
      } else {
        var w1 := CopyIdentity(w, layer, g.members).value;
        CopyIdentityOrder(w, layer, g.members);
        CopyToRelatedRelatedOrder(w1, layer, rest);
        assert w.order + Others(g.members, layer) + RelatedOrder(layer, rest)
          == w.order + (Others(g.members, layer) + RelatedOrder(layer, rest));
      }
    }
  }

  /** The related groups of `layer` append their other members to the order, group by group. */
  lemma CopyToRelatedOrder(w: Walk, layer: Ssrc, groups: seq<SourceGroup>)
    requires layer in w.sources && CopyToRelated(w, layer, groups).Some?
    ensures CopyToRelated(w, layer, groups).value.order == w.order + Siblings(layer, NonSim(groups))
  {
    CopyToRelatedRelatedOrder(w, layer, groups);
    RelatedOrderSiblings(layer, groups);
  }

  lemma ExplodeLayerOrder(w: Walk, groups: seq<SourceGroup>, layer: Ssrc, i: nat)
    requires ExplodeLayer(w, groups, layer, i).Some?
    ensures ExplodeLayer(w, groups, layer, i).value.order == w.order + [layer] + Siblings(layer, NonSim(groups))
  {
    var w0 := Walk(w.sources[layer := Layered(w.sources[layer], i)], w.order + [layer]);
    CopyToRelatedOrder(w0, layer, groups);
  }

  lemma {:induction false} ExplodeMembersOrder(w: Walk, groups: seq<SourceGroup>, members: seq<Ssrc>, i: nat)
    requires i <= |members| && ExplodeMembers(w, groups, members, i).Some?
    ensures ExplodeMembers(w, groups, members, i).value.order == w.order + LayerOrder(members[i..], NonSim(groups))
    decreases |members| - i
  {
    if i < |members| {
      var layer, ns := members[i], NonSim(groups);
      var w1 := ExplodeLayer(w, groups, layer, i).value;
      assert ExplodeMembers(w, groups, members, i) == ExplodeMembers(w1, groups, members, i + 1);
      ExplodeLayerOrder(w, groups, layer, i);
      ExplodeMembersOrder(w1, groups, members, i + 1);
      assert members[i..] == [layer] + members[i + 1..];
      assert LayerOrder(members[i..], ns) == [layer] + Siblings(layer, ns) + LayerOrder(members[i + 1..], ns);
    } else {
      assert members[i..] == [];
    }
  }

  lemma SimOrderStep(groups: seq<SourceGroup>, j: nat, related: seq<SourceGroup>)
    requires 0 < j <= |groups|
    ensures SimOrder(groups[..j], related) ==
      (if IsSim(groups[j - 1]) then LayerOrder(groups[j - 1].members, related) else []) +
      SimOrder(groups[..j - 1], related)
  {
    assert groups[..j][..j - 1] == groups[..j - 1] && groups[..j][j - 1] == groups[j - 1];
  }

  lemma {:induction false} ExplodeFromOrder(ssrcs: seq<SourceEntry>, groups: seq<SourceGroup>, w: Walk, j: nat)
    requires j <= |groups| && ExplodeFrom(ssrcs, groups, w, j).ok
    ensures ExplodeFrom(ssrcs, groups, w, j).walk.order == w.order + SimOrder(groups[..j], NonSim(groups))
    decreases j, 1
  {
    if j == 0 {
      assert groups[..0] == [];
    } else if IsSim(groups[j - 1]) {
      ExplodeFromOrderSim(ssrcs, groups, w, j);
    } else {
      SimOrderStep(groups, j, NonSim(groups));
      assert ExplodeFrom(ssrcs, groups, w, j) == ExplodeFrom(ssrcs, groups, w, j - 1);
      ExplodeFromOrder(ssrcs, groups, w, j - 1);
    }
  }

  /** The step of `ExplodeFromOrder` at a `SIM` group. */
  lemma {:induction false} ExplodeFromOrderSim(ssrcs: seq<SourceEntry>, groups: seq<SourceGroup>, w: Walk, j: nat)
    requires 0 < j <= |groups| && IsSim(groups[j - 1]) && ExplodeFrom(ssrcs, groups, w, j).ok
    ensures ExplodeFrom(ssrcs, groups, w, j).walk.order == w.order + SimOrder(groups[..j], NonSim(groups))
    decreases j, 0
  {
    var r := ExplodeFrom(ssrcs, groups, w, j);
    var pre, g := groups[..j - 1], groups[j - 1];
    SimOrderStep(groups, j, NonSim(groups));
    var w' := ExplodeMembers(w, groups, g.members, 0).value;
    var rest := pre + groups[j..];
    assert r == ExplodeFrom(WriteSsrcs(w'.sources, w'.order), rest, w', j - 1);
    ExplodeMembersOrder(w, groups, g.members, 0);
    assert g.members[0..] == g.members;
    assert rest[..j - 1] == pre;
    NonSimDropSim(groups, j - 1);
    ExplodeFromOrder(WriteSsrcs(w'.sources, w'.order), rest, w', j - 1);
    var layers, earlier := LayerOrder(g.members, NonSim(groups)), SimOrder(pre, NonSim(groups));
    assert r.walk.order == w.order + layers + earlier;
    assert w.order + layers + earlier == w.order + (layers + earlier);
  }

  lemma {:induction false} ExplodeFromWrites(ssrcs: seq<SourceEntry>, groups: seq<SourceGroup>, w: Walk, j: nat)
    requires j <= |groups| && ExplodeFrom(ssrcs, groups, w, j).ok
    requires exists k :: 0 <= k < j && IsSim(groups[k])
    ensures var r := ExplodeFrom(ssrcs, groups, w, j);
      r.media.ssrcs == WriteSsrcs(r.walk.sources, r.walk.order)
    decreases j
  {
    var r := ExplodeFrom(ssrcs, groups, w, j);
    var pre, g := groups[..j - 1], groups[j - 1];
    if !IsSim(g) {
      assert r == ExplodeFrom(ssrcs, groups, w, j - 1);
      ExplodeFromWrites(ssrcs, groups, w, j - 1);
    } else {
      var w' := ExplodeMembers(w, groups, g.members, 0).value;
      var rest := pre + groups[j..];
      assert r == ExplodeFrom(WriteSsrcs(w'.sources, w'.order), rest, w', j - 1);
      if exists k :: 0 <= k < j - 1 && IsSim(rest[k]) {
        ExplodeFromWrites(WriteSsrcs(w'.sources, w'.order), rest, w', j - 1);
      } else {
        ExplodeFromNoSim(WriteSsrcs(w'.sources, w'.order), rest, w', j - 1);
      }
    }
  }

  /**
    A successful explode rewrites the lines of a section with `SIM` groups in emission order:
    each layer of the last `SIM` group followed by the SSRCs of its related groups, then the
    same for the `SIM` groups before it.
   */
  lemma ExplodeOrder(m: MediaSources)
    requires m.ssrcGroups.Some? && HasSim(m.ssrcGroups.value) && Explode(m).ok
    ensures Explode(m).walk.order == EmissionOrder(m.ssrcGroups.value)
    ensures Explode(m).media.ssrcs == WriteSsrcs(Explode(m).walk.sources, EmissionOrder(m.ssrcGroups.value))
  {
    var groups := m.ssrcGroups.value;
    assert groups[..|groups|] == groups;
    ExplodeFromOrder(m.ssrcs, groups, Walk(ParseSsrcs(m.ssrcs), []), |groups|);
    ExplodeFromWrites(m.ssrcs, groups, Walk(ParseSsrcs(m.ssrcs), []), |groups|);
  }

  // ---- explode: the identity each layer hands out ----

  /**
    `x` takes the identity of `layer` when explode reaches it: `x` is the layer itself or shares
    a non-`SIM` group with it.
   */
  predicate Touches(layer: Ssrc, groups: seq<SourceGroup>, x: Ssrc) {
    x == layer || exists g :: g in groups && !IsSim(g) && layer in g.members && x in g.members
  }

  /** No SSRC is related to two layers of `members` (which are therefore distinct). */
  predicate SeparateLayers(members: seq<Ssrc>, groups: seq<SourceGroup>) {
    forall a, b, x :: 0 <= a < b < |members| ==>
      !(Touches(members[a], groups, x) && Touches(members[b], groups, x))
  }

  /** Exactly one group, the one at `s`, is a `SIM` group. */
  predicate OnlySimAt(groups: seq<SourceGroup>, s: nat) {
    s < |groups| && IsSim(groups[s]) && forall k :: 0 <= k < |groups| && k != s ==> !IsSim(groups[k])
  }

  lemma TouchesCons(layer: Ssrc, groups: seq<SourceGroup>)
    requires groups != []
    ensures forall x :: Touches(layer, groups, x) <==>
      Touches(layer, groups[1..], x) ||
      (!IsSim(groups[0]) && layer in groups[0].members && x in groups[0].members)
  {
    assert forall g :: g in groups <==> g == groups[0] || g in groups[1..];
  }

  lemma {:induction false} CopyIdentityFrame(w: Walk, layer: Ssrc, related: seq<Ssrc>)
    requires layer in w.sources && CopyIdentity(w, layer, related).Some?
    ensures var w' := CopyIdentity(w, layer, related).value;
      && (forall x :: x in related ==> x in w.sources && w'.sources[x] == w.sources[layer])
      && (forall x :: x in w.sources && x !in related ==> w'.sources[x] == w.sources[x])
    decreases |related|
  {
    if related != [] {
      var x0 := related[0];
      var w1 := Walk(w.sources[x0 := w.sources[layer]], if x0 != layer then w.order + [x0] else w.order);
      CopyIdentityFrame(w1, layer, related[1..]);
      assert forall x :: x in related <==> x == x0 || x in related[1..];
    }
  }

  lemma {:induction false} CopyToRelatedFrame(w: Walk, layer: Ssrc, groups: seq<SourceGroup>)
    requires layer in w.sources && CopyToRelated(w, layer, groups).Some?
    ensures var w' := CopyToRelated(w, layer, groups).value;
      && (forall x :: Touches(layer, groups, x) ==> x in w.sources && w'.sources[x] == w.sources[layer])
      && (forall x :: x in w.sources && !Touches(layer, groups, x) ==> w'.sources[x] == w.sources[x])
    decreases |groups|
  {
    if groups != [] {
      TouchesCons(layer, groups);
      if IsSim(groups[0]) || layer !in groups[0].members {
        CopyToRelatedFrame(w, layer, groups[1..]);
      } else {
        var w1 := CopyIdentity(w, layer, groups[0].members).value;
        CopyIdentityFrame(w, layer, groups[0].members);
        CopyToRelatedFrame(w1, layer, groups[1..]);
      }
    }
  }

  lemma ExplodeLayerFrame(w: Walk, groups: seq<SourceGroup>, layer: Ssrc, i: nat)
    requires ExplodeLayer(w, groups, layer, i).Some?
    ensures layer in w.sources && w.sources[layer].msid.Some?
    ensures var w' := ExplodeLayer(w, groups, layer, i).value;
      && w'.sources.Keys == w.sources.Keys
      && (forall x :: Touches(layer, groups, x) ==>
            x in w.sources && w'.sources[x] == Layered(w.sources[layer], i))
      && (forall x :: x in w.sources && !Touches(layer, groups, x) ==> w'.sources[x] == w.sources[x])
  {
    var w0 := Walk(w.sources[layer := Layered(w.sources[layer], i)], w.order + [layer]);
    CopyToRelatedFrame(w0, layer, groups);
  }

  lemma {:induction false} ExplodeMembersUntouched(w: Walk, groups: seq<SourceGroup>, members: seq<Ssrc>, i: nat)
    requires i <= |members| && ExplodeMembers(w, groups, members, i).Some?
    ensures var w' := ExplodeMembers(w, groups, members, i).value;
      && w'.sources.Keys == w.sources.Keys
      && (forall x :: x in w.sources && (forall a :: i <= a < |members| ==> !Touches(members[a], groups, x)) ==>
            w'.sources[x] == w.sources[x])
    decreases |members| - i
  {
    if i < |members| {
      var w1 := ExplodeLayer(w, groups, members[i], i).value;
      assert ExplodeMembers(w, groups, members, i) == ExplodeMembers(w1, groups, members, i + 1);
      ExplodeLayerFrame(w, groups, members[i], i);
      ExplodeMembersUntouched(w1, groups, members, i + 1);
    }
  }

  lemma {:induction false} ExplodeMembersLayered(w: Walk, groups: seq<SourceGroup>, members: seq<Ssrc>, i: nat, a: nat, x: Ssrc)
    requires i <= a < |members| && SeparateLayers(members, groups) && Touches(members[a], groups, x)
    requires ExplodeMembers(w, groups, members, i).Some?
    ensures members[a] in w.sources && w.sources[members[a]].msid.Some? && x in w.sources
    ensures var w' := ExplodeMembers(w, groups, members, i).value;
      x in w'.sources && w'.sources[x] == Layered(w.sources[members[a]], a)
    decreases |members| - i
  {
    var layer := members[i];
    var w1 := ExplodeLayer(w, groups, layer, i).value;
    assert ExplodeMembers(w, groups, members, i) == ExplodeMembers(w1, groups, members, i + 1);
    ExplodeLayerFrame(w, groups, layer, i);
    ExplodeMembersUntouched(w1, groups, members, i + 1);
    if a == i {
      assert forall b :: i < b < |members| ==> !Touches(members[b], groups, x);
    } else {
      ExplodeMembersLayered(w1, groups, members, i + 1, a, x);
      assert Touches(members[a], groups, members[a]);
      assert !Touches(layer, groups, members[a]);
    }
  }

  lemma {:induction false} ExplodeFromSkip(ssrcs: seq<SourceEntry>, groups: seq<SourceGroup>, w: Walk, j0: nat, j: nat)
    requires j0 <= j <= |groups|
    requires forall k :: j0 <= k < j ==> !IsSim(groups[k])
    ensures ExplodeFrom(ssrcs, groups, w, j) == ExplodeFrom(ssrcs, groups, w, j0)
    decreases j
  {
    if j > j0 {
      ExplodeFromSkip(ssrcs, groups, w, j0, j - 1);
    }
  }

  /** With a single `SIM` group, explode's final state is that group's pass over the parsed lines. */
  lemma ExplodeSingleSim(m: MediaSources, s: nat)
    requires m.ssrcGroups.Some? && OnlySimAt(m.ssrcGroups.value, s) && Explode(m).ok
    ensures var groups := m.ssrcGroups.value;
      var res := ExplodeMembers(Walk(ParseSsrcs(m.ssrcs), []), groups, groups[s].members, 0);
      res.Some? && Explode(m).walk == res.value
  {
    var groups := m.ssrcGroups.value;
    var w0 := Walk(ParseSsrcs(m.ssrcs), []);
    ExplodeFromSkip(m.ssrcs, groups, w0, s + 1, |groups|);
    var res := ExplodeMembers(w0, groups, groups[s].members, 0);
    if res.Some? {
      var w' := res.value;
      var rest := groups[..s] + groups[s + 1..];
      ExplodeFromNoSim(WriteSsrcs(w'.sources, w'.order), rest, w', s);
    }
  }

  /** The SSRCs of `Siblings` are exactly those sharing a related group with the layer. */
  lemma {:induction false} SiblingsMembers(layer: Ssrc, related: seq<SourceGroup>)
    ensures forall x :: x in Siblings(layer, related) <==>
      x != layer && exists g :: g in related && layer in g.members && x in g.members
  {
    if related != [] {
      SiblingsMembers(layer, related[1..]);
      OthersMembers(related[0].members, layer);
      assert forall g :: g in related <==> g == related[0] || g in related[1..];
    }
  }

  lemma {:induction false} LayerOrderMembers(members: seq<Ssrc>, related: seq<SourceGroup>, a: nat, x: Ssrc)
    requires a < |members| && (x == members[a] || x in Siblings(members[a], related))
    ensures x in LayerOrder(members, related)
  {
    if a > 0 {
      LayerOrderMembers(members[1..], related, a - 1, x);
    }
  }

  lemma {:induction false} SimOrderMembers(prefix: seq<SourceGroup>, related: seq<SourceGroup>, k: nat, x: Ssrc)
    requires k < |prefix| && IsSim(prefix[k]) && x in LayerOrder(prefix[k].members, related)
    ensures x in SimOrder(prefix, related)
  {
    var n := |prefix| - 1;
    if k < n {
      assert prefix[..n][k] == prefix[k];
      SimOrderMembers(prefix[..n], related, k, x);
    }
  }

  /** Explode's final state gives `x` the layered identity of layer `a`. */
  lemma ExplodeLayerState(m: MediaSources, s: nat, a: nat, x: Ssrc)
    requires m.ssrcGroups.Some? && OnlySimAt(m.ssrcGroups.value, s) && Explode(m).ok
    requires SeparateLayers(m.ssrcGroups.value[s].members, m.ssrcGroups.value)
    requires a < |m.ssrcGroups.value[s].members|
    requires Touches(m.ssrcGroups.value[s].members[a], m.ssrcGroups.value, x)
    ensures var layer := m.ssrcGroups.value[s].members[a];
      && layer in ParseSsrcs(m.ssrcs) && ParseSsrcs(m.ssrcs)[layer].msid.Some?
      && x in Explode(m).walk.sources
      && Explode(m).walk.sources[x] == Layered(ParseSsrcs(m.ssrcs)[layer], a)
  {
    var groups := m.ssrcGroups.value;
    ExplodeSingleSim(m, s);
    ExplodeMembersLayered(Walk(ParseSsrcs(m.ssrcs), []), groups, groups[s].members, 0, a, x);
  }

  /** Explode writes every SSRC that layer `a` hands its identity to. */
  lemma ExplodeLayerWritten(m: MediaSources, s: nat, a: nat, x: Ssrc)
    requires m.ssrcGroups.Some? && OnlySimAt(m.ssrcGroups.value, s) && Explode(m).ok
    requires a < |m.ssrcGroups.value[s].members|
    requires Touches(m.ssrcGroups.value[s].members[a], m.ssrcGroups.value, x)
    ensures x in Explode(m).walk.order
    ensures Explode(m).media.ssrcs == WriteSsrcs(Explode(m).walk.sources, Explode(m).walk.order)
  {
    var groups := m.ssrcGroups.value;
    var layer := groups[s].members[a];
    assert HasSim(groups) by { assert IsSim(groups[s]); }
    ExplodeOrder(m);
    NonSimMembers(groups);
    SiblingsMembers(layer, NonSim(groups));
    LayerOrderMembers(groups[s].members, NonSim(groups), a, x);
    SimOrderMembers(groups, NonSim(groups), s, x);
  }

  /**
    The identity explode gives each layer: with one `SIM` group whose layers relate to disjoint
    sets of SSRCs, layer `a` and every SSRC sharing a group with it are written with exactly one
    msid line carrying the layer's msid tagged "/a" and one cname line carrying its cname tagged
    "/a" (lines 106-108 and 123-124).
   */
  lemma ExplodeLayerIdentity(m: MediaSources, s: nat, a: nat, x: Ssrc)
    requires m.ssrcGroups.Some? && OnlySimAt(m.ssrcGroups.value, s) && Explode(m).ok
    requires SeparateLayers(m.ssrcGroups.value[s].members, m.ssrcGroups.value)
    requires a < |m.ssrcGroups.value[s].members|
    requires Touches(m.ssrcGroups.value[s].members[a], m.ssrcGroups.value, x)
    ensures GetSsrcAttribute(m.ssrcs, m.ssrcGroups.value[s].members[a], MSID).Some?
    ensures var layer := m.ssrcGroups.value[s].members[a];
      var msid := Some(LayerMsid(GetSsrcAttribute(m.ssrcs, layer, MSID).value, a));
      var cname := Some(LayerCname(GetSsrcAttribute(m.ssrcs, layer, CNAME), a));
      var lines := Explode(m).media.ssrcs;
      && SourceEntry(x, MSID, msid) in lines
      && SourceEntry(x, CNAME, cname) in lines
      && forall e :: e in lines && e.id == x ==> e == SourceEntry(x, MSID, msid) || e == SourceEntry(x, CNAME, cname)
  {
    var w := Explode(m).walk;
    ExplodeLayerState(m, s, a, x);
    ExplodeLayerWritten(m, s, a, x);
    WriteSsrcsEmits(w.sources, w.order, x);
    WriteSsrcsLines(w.sources, w.order);
  }

  /** The callback of lines 122-128 over one related group. */
  method CopyIdentityInto(sources: map<Ssrc, Source>, order: seq<Ssrc>, ssrc: Ssrc, relatedSsrcs: seq<Ssrc>)
    returns (sources': map<Ssrc, Source>, order': seq<Ssrc>, ok: bool)
    requires ssrc in sources
    ensures ok <==> CopyIdentity(Walk(sources, order), ssrc, relatedSsrcs).Some?
    ensures ok ==> CopyIdentity(Walk(sources, order), ssrc, relatedSsrcs) == Some(Walk(sources', order'))
  {
    sources', order' := sources, order;
    var n := 0;
    while n < |relatedSsrcs|
      invariant n <= |relatedSsrcs| && ssrc in sources'
      invariant CopyIdentity(Walk(sources', order'), ssrc, relatedSsrcs[n..]) ==
                CopyIdentity(Walk(sources, order), ssrc, relatedSsrcs)
    {
      var relatedSsrc := relatedSsrcs[n];
      assert relatedSsrcs[n..][1..] == relatedSsrcs[n + 1..];
      if relatedSsrc !in sources' {
        // TypeError: setting `msid` of undefined
        return sources', order', false;
      }
      sources' := sources'[relatedSsrc := sources'[ssrc]];
      if relatedSsrc != ssrc {
        order' := order' + [relatedSsrc];
      }
      n := n + 1;
    }
    ok := true;
  }

  /** The `forEach` of lines 111-131 over every group of the section. */
  method CopyToRelatedGroups(sources: map<Ssrc, Source>, order: seq<Ssrc>, ssrc: Ssrc, groups: seq<SourceGroup>)
    returns (sources': map<Ssrc, Source>, order': seq<Ssrc>, ok: bool)
    requires ssrc in sources
    ensures ok <==> CopyToRelated(Walk(sources, order), ssrc, groups).Some?
    ensures ok ==> CopyToRelated(Walk(sources, order), ssrc, groups) == Some(Walk(sources', order'))
  {
    sources', order' := sources, order;
    var k := 0;
    while k < |groups|
      invariant k <= |groups| && ssrc in sources'
      invariant CopyToRelated(Walk(sources', order'), ssrc, groups[k..]) ==
                CopyToRelated(Walk(sources, order), ssrc, groups)
    {
      var relatedGroup := groups[k];
      assert groups[k..][1..] == groups[k + 1..];
      if relatedGroup.semantics == SIM || ssrc !in relatedGroup.members {
        k := k + 1;
        continue;
      }
      sources', order', ok := CopyIdentityInto(sources', order', ssrc, relatedGroup.members);
      if !ok {
        return;
      }
      k := k + 1;
    }
    ok := true;
  }

  /** Lines 101-132: the layers of one `SIM` group, in order. */
  method ExplodeGroup(sources: map<Ssrc, Source>, order: seq<Ssrc>, groups: seq<SourceGroup>, simulcastSsrcs: seq<Ssrc>)
    returns (sources': map<Ssrc, Source>, order': seq<Ssrc>, ok: bool)
    ensures ok <==> ExplodeMembers(Walk(sources, order), groups, simulcastSsrcs, 0).Some?
    ensures ok ==> ExplodeMembers(Walk(sources, order), groups, simulcastSsrcs, 0) == Some(Walk(sources', order'))
  {
    sources', order' := sources, order;
    var i := 0;
    while i < |simulcastSsrcs|
      invariant i <= |simulcastSsrcs|
      invariant ExplodeMembers(Walk(sources', order'), groups, simulcastSsrcs, i) ==
                ExplodeMembers(Walk(sources, order), groups, simulcastSsrcs, 0)
    {
      var ssrc := simulcastSsrcs[i];
      order' := order' + [ssrc];
      if ssrc !in sources' || sources'[ssrc].msid.None? {
        // TypeError: reading `msid` of undefined, or calling `split` on undefined
        return sources', order', false;
      }
      sources' := sources'[ssrc := Layered(sources'[ssrc], i)];
      sources', order', ok := CopyToRelatedGroups(sources', order', ssrc, groups);
      if !ok {
        return;
      }
      i := i + 1;
    }
    ok := true;
  }

  /**
    `explodeRemoteSimulcast`. Returns `false` where the source raises a TypeError (a `SIM`
    member without a source or msid, or a related member without a source); the section then
    keeps what the completed `SIM` groups wrote.
   */
  method ExplodeRemoteSimulcast(mLine: MediaLine) returns (ok: bool)
    modifies mLine
    ensures mLine.Sources() == Explode(old(mLine.Sources())).media
    ensures ok == Explode(old(mLine.Sources())).ok
    ensures mLine.mediaType == old(mLine.mediaType) && mLine.direction == old(mLine.direction)
    ensures mLine.invalid == old(mLine.invalid)
  {
    if mLine.ssrcGroups.None? {
      return true;
    }
    ghost var goal := Explode(mLine.Sources());
    var sources := ParseSsrcs(mLine.ssrcs);
    var order: seq<Ssrc> := [];
    var j := |mLine.ssrcGroups.value|;
    while j > 0
      invariant mLine.ssrcGroups.Some? && 0 <= j <= |mLine.ssrcGroups.value|
      invariant ExplodeFrom(mLine.ssrcs, mLine.ssrcGroups.value, Walk(sources, order), j) == goal
      invariant mLine.mediaType == old(mLine.mediaType) && mLine.direction == old(mLine.direction)
      invariant mLine.invalid == old(mLine.invalid)
    {
      j := j - 1;
      var groups := mLine.ssrcGroups.value;
      if groups[j].semantics != SIM {
        continue;
      }
      sources, order, ok := ExplodeGroup(sources, order, groups, groups[j].members);
      if !ok {
        return;
      }
      mLine.ssrcs := WriteSsrcs(sources, order);
      mLine.ssrcGroups := Some(groups[..j] + groups[j + 1..]);
    }
    return true;
  }

  // ======================================================================
  // Implode
  // ======================================================================

  /** The entries at positions 1 to `i - 1` of a `SIM` group's member list. */
  function UpperTo(members: seq<Ssrc>, i: nat): set<Ssrc>
    requires i <= |members|
  {
    set j | 1 <= j < i :: members[j]
  }

  /** The SSRCs at positions 1 onwards of the `SIM` groups: the layers above each primary. */
  function HigherLayers(groups: seq<SourceGroup>): set<Ssrc> {
    if groups == [] then {}
    else
      var g := groups[|groups| - 1];
      HigherLayers(groups[..|groups| - 1]) + (if IsSim(g) then UpperTo(g.members, |g.members|) else {})
  }

  /** Group `g` has a member in `higher`. */
  predicate Touching(g: SourceGroup, higher: set<Ssrc>) {
    exists x :: x in g.members && x in higher
  }

  /** The groups implode removes: every `SIM` group, and every group with a higher layer in it. */
  predicate Marked(g: SourceGroup, higher: set<Ssrc>) {
    IsSim(g) || Touching(g, higher)
  }

  function Keeps(higher: set<Ssrc>): SourceGroup -> bool {
    g => !Marked(g, higher)
  }

  /** The members of the non-`SIM` groups that contain `ssrc`. */
  function Related(groups: seq<SourceGroup>, ssrc: Ssrc): set<Ssrc> {
    set g, x | g in groups && !IsSim(g) && ssrc in g.members && x in g.members :: x
  }

  /** The SSRCs implode deletes: the higher layers and every member of a non-`SIM` group they touch. */
  function Doomed(groups: seq<SourceGroup>, higher: set<Ssrc>): set<Ssrc> {
    higher + set g, x | g in groups && !IsSim(g) && Touching(g, higher) && x in g.members :: x
  }

  /** `implodeRemoteSimulcast` (lines 139-200) as a function of the section it is given. */
  function Implode(m: MediaSources): MediaSources {
    match m.ssrcGroups
    case None => m
    case Some(groups) =>
      var higher := HigherLayers(groups);
      MediaSources(
        WriteAllSsrcs(ParseSsrcs(m.ssrcs) - Doomed(groups, higher)),
        Some(Filter(groups, Keeps(higher))))
  }

  /** Adding one SSRC to the deleted layers deletes it and the members of its related groups. */
  lemma DoomedAdd(groups: seq<SourceGroup>, higher: set<Ssrc>, ssrc: Ssrc)
    ensures Doomed(groups, higher + {ssrc}) == Doomed(groups, higher) + {ssrc} + Related(groups, ssrc)
  {
    forall g | g in groups
      ensures Touching(g, higher + {ssrc}) <==> Touching(g, higher) || ssrc in g.members
    {
      if ssrc in g.members {
        assert ssrc in higher + {ssrc};
      }
    }
  }

  // ---- implode: what it guarantees ----

  lemma {:induction false} HigherLayersNoSim(groups: seq<SourceGroup>)
    requires !HasSim(groups)
    ensures HigherLayers(groups) == {}
  {
    if groups != [] {
      var n := |groups| - 1;
      assert !IsSim(groups[n]);
      assert !HasSim(groups[..n]) by {
        assert forall k :: 0 <= k < n ==> groups[..n][k] == groups[k];
      }
      HigherLayersNoSim(groups[..n]);
    }
  }

  /** Without `SIM` groups implode keeps every group and rewrites the lines from the store alone. */
  lemma ImplodeWithoutSim(m: MediaSources)
    requires m.ssrcGroups.Some? && !HasSim(m.ssrcGroups.value)
    ensures Implode(m) == MediaSources(WriteAllSsrcs(ParseSsrcs(m.ssrcs)), m.ssrcGroups)
  {
    var groups := m.ssrcGroups.value;
    HigherLayersNoSim(groups);
    assert Doomed(groups, {}) == {};
    assert ParseSsrcs(m.ssrcs) - {} == ParseSsrcs(m.ssrcs);
    forall g | g in groups
      ensures Keeps({})(g)
    {
      var k :| 0 <= k < |groups| && groups[k] == g;
      assert !IsSim(groups[k]);
    }
    FilterKeepsAll(groups, Keeps({}));
  }

  /**
    Implode keeps exactly the groups that are not `SIM` groups and contain no higher layer, in
    their order; no `SIM` group remains.
   */
  lemma ImplodeGroups(m: MediaSources)
    requires m.ssrcGroups.Some?
    ensures var groups := m.ssrcGroups.value;
      && Implode(m).ssrcGroups.Some?
      && (forall g :: g in Implode(m).ssrcGroups.value <==>
            g in groups && !IsSim(g) && !Touching(g, HigherLayers(groups)))
      && !HasSim(Implode(m).ssrcGroups.value)
  {
    var groups := m.ssrcGroups.value;
    var r := Implode(m).ssrcGroups.value;
    FilterMembers(groups, Keeps(HigherLayers(groups)));
    assert forall k :: 0 <= k < |r| ==> r[k] in r;
  }

  lemma NoLineWithoutId(entries: seq<SourceEntry>, x: Ssrc, attribute: string)
    requires x !in IdSet(entries)
    ensures NoLine(entries, x, attribute)
  {
    assert forall k :: 0 <= k < |entries| ==> entries[k] in entries;
  }

  /**
    Implode deletes every line of the higher layers and of the SSRCs related to them, and keeps
    the msid and cname of every other SSRC as they were.
   */
  lemma ImplodeLines(m: MediaSources, x: Ssrc)
    requires m.ssrcGroups.Some?
    ensures var groups := m.ssrcGroups.value;
      var lines := Implode(m).ssrcs;
      if x in Doomed(groups, HigherLayers(groups)) then
        forall attribute :: NoLine(lines, x, attribute)
      else
        && GetSsrcAttribute(lines, x, MSID) == GetSsrcAttribute(m.ssrcs, x, MSID)
        && GetSsrcAttribute(lines, x, CNAME) == GetSsrcAttribute(m.ssrcs, x, CNAME)
  {
    var groups := m.ssrcGroups.value;
    var kept := ParseSsrcs(m.ssrcs) - Doomed(groups, HigherLayers(groups));
    var order := SortedKeys(kept.Keys);
    assert Distinct(order);
    if x in kept {
      WriteThenGet(kept, order, x);
    } else {
      forall attribute
        ensures NoLine(Implode(m).ssrcs, x, attribute)
      {
        WriteSsrcsNoLine(kept, order, x, attribute);
      }
      if x !in Doomed(groups, HigherLayers(groups)) {
        NoLineWithoutId(m.ssrcs, x, MSID);
        NoLineWithoutId(m.ssrcs, x, CNAME);
        GetSsrcAttributeSpec(m.ssrcs, x, MSID);
        GetSsrcAttributeSpec(m.ssrcs, x, CNAME);
        GetSsrcAttributeSpec(Implode(m).ssrcs, x, MSID);
        GetSsrcAttributeSpec(Implode(m).ssrcs, x, CNAME);
      }
    }
  }

  /** Imploding an imploded section changes nothing. */
  lemma ImplodeIdempotent(m: MediaSources)
    ensures Implode(Implode(m)) == Implode(m)
  {
    if m.ssrcGroups.Some? {
      var groups := m.ssrcGroups.value;
      ImplodeGroups(m);
      ImplodeWithoutSim(Implode(m));
      WriteParseWrite(ParseSsrcs(m.ssrcs) - Doomed(groups, HigherLayers(groups)));
    }
  }

  /** After implode there is nothing left to explode. */
  lemma ImplodeThenExplode(m: MediaSources)
    ensures Explode(Implode(m)).media == Implode(m) && Explode(Implode(m)).ok
  {
    if m.ssrcGroups.Some? {
      ImplodeGroups(m);
    }
    ExplodeWithoutSim(Implode(m));
  }

  lemma MapMinusUnion(m: map<Ssrc, Source>, a: set<Ssrc>, b: set<Ssrc>)
    ensures m - a - b == m - (a + b)
  {
  }

  /** The members of group `groups[y]` if it is a group related to `ssrc`. */
  lemma RelatedStep(groups: seq<SourceGroup>, y: nat, ssrc: Ssrc)
    requires y < |groups|
    ensures Related(groups[..y + 1], ssrc) == Related(groups[..y], ssrc) +
      (if !IsSim(groups[y]) && ssrc in groups[y].members then set x | x in groups[y].members else {})
  {
    assert groups[..y + 1] == groups[..y] + [groups[y]];
  }

  /** Line 180: deletes each SSRC of `ssrcs` from the store. */
  method DeleteSources(sources: map<Ssrc, Source>, ssrcs: seq<Ssrc>) returns (sources': map<Ssrc, Source>)
    ensures sources' == sources - set x | x in ssrcs
  {
    sources' := sources;
    var n := 0;
    while n < |ssrcs|
      invariant n <= |ssrcs|
      invariant sources' == sources - set x | x in ssrcs[..n]
    {
      assert ssrcs[..n + 1] == ssrcs[..n] + [ssrcs[n]];
      sources' := sources' - {ssrcs[n]};
      n := n + 1;
    }
    assert ssrcs[..n] == ssrcs;
  }

  /** Lines 168-185 for one higher-layer SSRC (after its own deletion at line 165). */
  method NukeRelated(sources: map<Ssrc, Source>, nuke: seq<bool>, groups: seq<SourceGroup>, ssrc: Ssrc)
    returns (sources': map<Ssrc, Source>, nuke': seq<bool>)
    requires |nuke| == |groups|
    ensures sources' == sources - Related(groups, ssrc)
    ensures |nuke'| == |groups|
    ensures forall y :: 0 <= y < |groups| ==>
      nuke'[y] == (nuke[y] || (!IsSim(groups[y]) && ssrc in groups[y].members))
  {
    sources', nuke' := sources, nuke;
    var y := 0;
    while y < |groups|
      invariant y <= |groups| && |nuke'| == |groups|
      invariant sources' == sources - Related(groups[..y], ssrc)
      invariant forall z :: 0 <= z < |groups| ==>
        nuke'[z] == (nuke[z] || (z < y && !IsSim(groups[z]) && ssrc in groups[z].members))
    {
      var relatedGroup := groups[y];
      RelatedStep(groups, y, ssrc);
      if relatedGroup.semantics != SIM && ssrc in relatedGroup.members {
        ghost var before := sources';
        sources' := DeleteSources(sources', relatedGroup.members);
        MapMinusUnion(sources, Related(groups[..y], ssrc), set x | x in relatedGroup.members);
        nuke' := nuke'[y := true];
      }
      y := y + 1;
    }
    assert groups[..y] == groups;
  }

  lemma TouchingUnion(g: SourceGroup, a: set<Ssrc>, b: set<Ssrc>)
    ensures Touching(g, a + b) <==> Touching(g, a) || Touching(g, b)
  {
  }

  lemma DoomedStep(base: map<Ssrc, Source>, groups: seq<SourceGroup>, higher: set<Ssrc>, ssrc: Ssrc)
    ensures base - Doomed(groups, higher) - {ssrc} - Related(groups, ssrc) == base - Doomed(groups, higher + {ssrc})
  {
    DoomedAdd(groups, higher, ssrc);
    MapMinusUnion(base, Doomed(groups, higher), {ssrc});
    MapMinusUnion(base, Doomed(groups, higher) + {ssrc}, Related(groups, ssrc));
  }

  /** Lines 159-186: deletes the layers above the primary of one `SIM` group and what relates to them. */
  method NukeHigherLayers(sources: map<Ssrc, Source>, nuke: seq<bool>, groups: seq<SourceGroup>,
                          simulcastSsrcs: seq<Ssrc>, ghost base: map<Ssrc, Source>, ghost seen: set<Ssrc>)
    returns (sources': map<Ssrc, Source>, nuke': seq<bool>)
    requires |nuke| == |groups|
    requires sources == base - Doomed(groups, seen)
    ensures sources' == base - Doomed(groups, seen + UpperTo(simulcastSsrcs, |simulcastSsrcs|))
    ensures |nuke'| == |groups|
    ensures forall y :: 0 <= y < |groups| ==>
      nuke'[y] == (nuke[y] || (!IsSim(groups[y]) && Touching(groups[y], UpperTo(simulcastSsrcs, |simulcastSsrcs|))))
  {
    sources', nuke' := sources, nuke;
    if |simulcastSsrcs| == 0 {
      assert seen + UpperTo(simulcastSsrcs, 0) == seen;
      return;
    }
    var i := 1;
    while i < |simulcastSsrcs|
      invariant 1 <= i <= |simulcastSsrcs| && |nuke'| == |groups|
      invariant sources' == base - Doomed(groups, seen + UpperTo(simulcastSsrcs, i))
      invariant forall y :: 0 <= y < |groups| ==>
        nuke'[y] == (nuke[y] || (!IsSim(groups[y]) && Touching(groups[y], UpperTo(simulcastSsrcs, i))))
    {
      var ssrc := simulcastSsrcs[i];
      ghost var upper := UpperTo(simulcastSsrcs, i);
      assert UpperTo(simulcastSsrcs, i + 1) == upper + {ssrc};
      sources' := sources' - {ssrc};
      sources', nuke' := NukeRelated(sources', nuke', groups, ssrc);
      DoomedStep(base, groups, seen + upper, ssrc);
      assert seen + upper + {ssrc} == seen + UpperTo(simulcastSsrcs, i + 1);
      forall y | 0 <= y < |groups|
        ensures Touching(groups[y], upper + {ssrc}) <==> Touching(groups[y], upper) || ssrc in groups[y].members
      {
        TouchingUnion(groups[y], upper, {ssrc});
      }
      i := i + 1;
    }
  }

  /**
    The `forEach` of lines 150-189: deletes the higher layers of every `SIM` group and what
    relates to them, and marks the groups to remove.
   */
  method MarkSimGroups(sources: map<Ssrc, Source>, groups: seq<SourceGroup>)
    returns (sources': map<Ssrc, Source>, nuke: seq<bool>)
    ensures sources' == sources - Doomed(groups, HigherLayers(groups))
    ensures |nuke| == |groups|
    ensures forall y :: 0 <= y < |groups| ==> nuke[y] == Marked(groups[y], HigherLayers(groups))
  {
    sources' := sources;
    nuke := seq(|groups|, _ => false);
    ghost var seen: set<Ssrc> := {};
    var k := 0;
    while k < |groups|
      invariant k <= |groups| && |nuke| == |groups|
      invariant seen == HigherLayers(groups[..k])
      invariant sources' == sources - Doomed(groups, seen)
      invariant forall y :: 0 <= y < |groups| ==>
        nuke[y] == ((y < k && IsSim(groups[y])) || (!IsSim(groups[y]) && Touching(groups[y], seen)))
    {
      var simulcastGroup := groups[k];
      assert groups[..k + 1][..k] == groups[..k] && groups[..k + 1][k] == simulcastGroup;
      if simulcastGroup.semantics == SIM {
        nuke := nuke[k := true];
        ghost var upper := UpperTo(simulcastGroup.members, |simulcastGroup.members|);
        sources', nuke := NukeHigherLayers(sources', nuke, groups, simulcastGroup.members, sources, seen);
        forall y | 0 <= y < |groups|
          ensures Touching(groups[y], seen + upper) <==> Touching(groups[y], seen) || Touching(groups[y], upper)
        {
          TouchingUnion(groups[y], seen, upper);
        }
        seen := seen + upper;
      }
      k := k + 1;
    }
    assert groups[..k] == groups;
  }

  /** One step of the removal loop: group `i` is dropped exactly when it is not kept. */
  lemma SpliceStep(groups: seq<SourceGroup>, i: nat, keep: SourceGroup -> bool, current: seq<SourceGroup>)
    requires i < |groups| && current == groups[..i + 1] + Filter(groups[i + 1..], keep)
    ensures keep(groups[i]) ==> current == groups[..i] + Filter(groups[i..], keep)
    ensures !keep(groups[i]) ==> current[..i] + current[i + 1..] == groups[..i] + Filter(groups[i..], keep)
  {
    var tail := Filter(groups[i + 1..], keep);
    var suffix := groups[i..];
    assert suffix[0] == groups[i] && suffix[1..] == groups[i + 1..];
    assert groups[..i + 1] == groups[..i] + [groups[i]];
    if !keep(groups[i]) {
      assert current[..i] == groups[..i] && current[i + 1..] == tail;
    }
  }

  /** Lines 194-199: removes the marked groups, from the end. */
  method RemoveMarked(mLine: MediaLine, nuke: seq<bool>, ghost keep: SourceGroup -> bool)
    requires mLine.ssrcGroups.Some? && |nuke| == |mLine.ssrcGroups.value|
    requires forall y :: 0 <= y < |nuke| ==> nuke[y] == !keep(mLine.ssrcGroups.value[y])
    modifies mLine
    ensures mLine.ssrcGroups == Some(Filter(old(mLine.ssrcGroups.value), keep))
    ensures mLine.ssrcs == old(mLine.ssrcs) && mLine.invalid == old(mLine.invalid)
    ensures mLine.mediaType == old(mLine.mediaType) && mLine.direction == old(mLine.direction)
  {
    ghost var groups := mLine.ssrcGroups.value;
    var i := |nuke|;
    assert groups[..i] + Filter(groups[i..], keep) == groups;
    while i > 0
      invariant 0 <= i <= |groups|
      invariant mLine.ssrcGroups == Some(groups[..i] + Filter(groups[i..], keep))
      invariant mLine.ssrcs == old(mLine.ssrcs) && mLine.invalid == old(mLine.invalid)
      invariant mLine.mediaType == old(mLine.mediaType) && mLine.direction == old(mLine.direction)
    {
      i := i - 1;
      var current := mLine.ssrcGroups.value;
      SpliceStep(groups, i, keep, current);
      if nuke[i] {
        mLine.ssrcGroups := Some(current[..i] + current[i + 1..]);
      }
    }
    assert groups[..0] + Filter(groups[0..], keep) == Filter(groups, keep);
  }

  /** `implodeRemoteSimulcast`: keeps each `SIM` group's primary layer and nothing that relates to the others. */
  method ImplodeRemoteSimulcast(mLine: MediaLine)
    modifies mLine
    ensures mLine.Sources() == Implode(old(mLine.Sources()))
    ensures mLine.mediaType == old(mLine.mediaType) && mLine.direction == old(mLine.direction)
    ensures mLine.invalid == old(mLine.invalid)
  {
    if mLine.ssrcGroups.None? {
      return;
    }
    var groups := mLine.ssrcGroups.value;
    var sources, nuke := MarkSimGroups(ParseSsrcs(mLine.ssrcs), groups);
    mLine.ssrcs := WriteAllSsrcs(sources);
    RemoveMarked(mLine, nuke, Keeps(HigherLayers(groups)));
  }
}
