/**
  The keyed view of a media section's `a=ssrc` lines.

  `GetSsrcAttribute` models `getSsrcAttribute` (lib/index.js:27-33). `ParseSsrcs` and
  `WriteSsrcs` stand for `parseSsrcs`/`writeSsrcs` of the transform utilities
  (lib/index.js:17-19), whose file is not part of this model; they are given the contract the
  engine relies on and nothing more:
  - `ParseSsrcs` maps every SSRC that has a line to the msid and cname of its first such lines;
  - `WriteSsrcs(sources, order)` emits, for each SSRC of `order` in turn, its cname line and
    then its msid line (each only when present);
  - `WriteAllSsrcs(sources)`, the call without an order, follows the key order of a JavaScript
    object whose keys are integers, which is ascending numeric order.
  What the store does not keep: `WriteSsrcs` writes nothing for an SSRC outside `order`, and a
  line of any attribute other than msid and cname does not survive a rewrite through the store.
  Explode (lib/index.js:134, for a section with a `SIM` group) and implode (lib/index.js:191,
  for a section with groups) both rewrite the lines this way, so a section they rewrite is left
  with msid and cname lines only, and explode keeps lines only for the SSRCs of its order.
 */
module SourceStore {
  import opened Sdp

  /** The identity a source carries; `None` when it has no such line (or no value on it). */
  datatype Source = Source(msid: Option<string>, cname: Option<string>)

  const MSID := "msid"
  const CNAME := "cname"

  predicate Names(e: SourceEntry, ssrc: Ssrc, attribute: string) {
    e.id == ssrc && e.attribute == attribute
  }

  predicate NoLine(entries: seq<SourceEntry>, ssrc: Ssrc, attribute: string) {
    forall k :: 0 <= k < |entries| ==> !Names(entries[k], ssrc, attribute)
  }

  /** Line `k` is the first line of `ssrc` named `attribute`. */
  predicate FirstLine(entries: seq<SourceEntry>, k: int, ssrc: Ssrc, attribute: string) {
    && 0 <= k < |entries|
    && Names(entries[k], ssrc, attribute)
    && forall j :: 0 <= j < k ==> !Names(entries[j], ssrc, attribute)
  }

  /**
    The value of the first line of `ssrc` named `attribute`, `None` when there is none.
    As written, the two `filter` callbacks at lib/index.js:30-31 have braces and no `return`,
    so they keep nothing and the source always yields `undefined`; the model follows the
    evident intent, each callback returning its comparison.
   */
  function GetSsrcAttribute(entries: seq<SourceEntry>, ssrc: Ssrc, attribute: string): Option<string> {
    if entries == [] then None
    else if Names(entries[0], ssrc, attribute) then entries[0].value
    else GetSsrcAttribute(entries[1..], ssrc, attribute)
  }

  /** The lookup yields the value of the first line of `ssrc` named `attribute`, and `None` when there is none. */
  lemma {:induction false} GetSsrcAttributeSpec(entries: seq<SourceEntry>, ssrc: Ssrc, attribute: string)
    ensures NoLine(entries, ssrc, attribute) ==> GetSsrcAttribute(entries, ssrc, attribute) == None
    ensures forall k :: FirstLine(entries, k, ssrc, attribute) ==>
      GetSsrcAttribute(entries, ssrc, attribute) == entries[k].value
  {
    if entries != [] && !Names(entries[0], ssrc, attribute) {
      GetSsrcAttributeSpec(entries[1..], ssrc, attribute);
      assert forall k :: FirstLine(entries, k, ssrc, attribute) ==>
        FirstLine(entries[1..], k - 1, ssrc, attribute);
    }
  }

  lemma {:induction false} GetSsrcAttributeAppend(a: seq<SourceEntry>, b: seq<SourceEntry>, ssrc: Ssrc, attribute: string)
    ensures GetSsrcAttribute(a + b, ssrc, attribute) ==
      if NoLine(a, ssrc, attribute) then GetSsrcAttribute(b, ssrc, attribute)
      else GetSsrcAttribute(a, ssrc, attribute)
  {
    if a == [] {
      assert a + b == b;
    } else {
      assert (a + b)[0] == a[0];
      assert (a + b)[1..] == a[1..] + b;
      GetSsrcAttributeAppend(a[1..], b, ssrc, attribute);
      if !Names(a[0], ssrc, attribute) {
        assert NoLine(a, ssrc, attribute) <==> NoLine(a[1..], ssrc, attribute) by {
          assert forall k :: 1 <= k < |a| ==> a[k] == a[1..][k - 1];
        }
      }
    }
  }

  /** The SSRCs that have at least one line. */
  function IdSet(entries: seq<SourceEntry>): set<Ssrc> {
    set e | e in entries :: e.id
  }

  /** `parseSsrcs`: every SSRC with a line, mapped to the msid and cname of its first lines. */
  function ParseSsrcs(entries: seq<SourceEntry>): map<Ssrc, Source> {
    map id | id in IdSet(entries) ::
      Source(GetSsrcAttribute(entries, id, MSID), GetSsrcAttribute(entries, id, CNAME))
  }

  /** Whether a source has any line to emit. */
  predicate Emits(src: Source) {
    src.msid.Some? || src.cname.Some?
  }

  /** The lines `writeSsrcs` emits for one source: its cname, then its msid. */
  function SourceLines(id: Ssrc, src: Source): seq<SourceEntry> {
    (if src.cname.Some? then [SourceEntry(id, CNAME, src.cname)] else []) +
    (if src.msid.Some? then [SourceEntry(id, MSID, src.msid)] else [])
  }

  /** `writeSsrcs(sources, order)`: the lines of every source of `order`, in that order. */
  function WriteSsrcs(sources: map<Ssrc, Source>, order: seq<Ssrc>): seq<SourceEntry> {
    if order == [] then []
    else
      (if order[0] in sources then SourceLines(order[0], sources[order[0]]) else []) +
      WriteSsrcs(sources, order[1..])
  }

  /** Every written line belongs to a source of the order and carries that source's msid or cname. */
  lemma {:induction false} WriteSsrcsLines(sources: map<Ssrc, Source>, order: seq<Ssrc>)
    ensures forall e :: e in WriteSsrcs(sources, order) ==>
      && e.id in order && e.id in sources && e.value.Some?
      && ((e.attribute == MSID && e.value == sources[e.id].msid) ||
          (e.attribute == CNAME && e.value == sources[e.id].cname))
  {
    if order != [] {
      WriteSsrcsLines(sources, order[1..]);
    }
  }

  lemma {:induction false} WriteSsrcsAppend(sources: map<Ssrc, Source>, a: seq<Ssrc>, b: seq<Ssrc>)
    ensures WriteSsrcs(sources, a + b) == WriteSsrcs(sources, a) + WriteSsrcs(sources, b)
  {
    if a == [] {
      assert a + b == b;
    } else {
      assert (a + b)[0] == a[0];
      assert (a + b)[1..] == a[1..] + b;
      WriteSsrcsAppend(sources, a[1..], b);
    }
  }

  predicate Increasing(s: seq<Ssrc>) {
    forall i, j :: 0 <= i < j < |s| ==> s[i] < s[j]
  }

  lemma {:induction false} MinExists(keys: set<int>)
    requires exists k :: k in keys
    ensures exists m :: m in keys && forall x :: x in keys ==> m <= x
    decreases |keys|
  {
    var y :| y in keys;
    var others := keys - {y};
    if exists z :: z in others {
      MinExists(others);
      var m :| m in others && forall x :: x in others ==> m <= x;
      var least := if y < m then y else m;
      assert least in keys;
      forall x | x in keys
        ensures least <= x
      {
        if x != y { assert x in others; }
      }
    } else {
      forall x | x in keys
        ensures y <= x
      {
        assert x in others || x == y;
      }
    }
  }

  /** The least key. */
  function MinKey(keys: set<Ssrc>): (m: Ssrc)
    requires exists k :: k in keys
    ensures m in keys && forall x :: x in keys ==> m <= x
  {
    MinExists(keys);
    var m :| m in keys && forall x :: x in keys ==> m <= x;
    m
  }

  /** The keys in ascending order: the order JavaScript gives integer keys of an object. */
  function SortedKeys(keys: set<Ssrc>): (r: seq<Ssrc>)
    ensures forall x :: x in r <==> x in keys
    ensures Increasing(r)
    decreases |keys|
  {
    if exists k :: k in keys then
      var m := MinKey(keys);
      var rest := SortedKeys(keys - {m});
      assert forall x :: x in rest ==> m < x;
      PrependIncreasing(m, rest);
      [m] + rest
    else []
  }

  lemma PrependIncreasing(m: Ssrc, s: seq<Ssrc>)
    requires Increasing(s) && forall x :: x in s ==> m < x
    ensures Increasing([m] + s)
  {
    assert forall k :: 0 <= k < |s| ==> s[k] in s;
  }

  /** `writeSsrcs(sources)` without an order. */
  function WriteAllSsrcs(sources: map<Ssrc, Source>): seq<SourceEntry> {
    WriteSsrcs(sources, SortedKeys(sources.Keys))
  }

  // ---- the store's round trip ----

  lemma SourceLinesGet(id: Ssrc, src: Source)
    ensures GetSsrcAttribute(SourceLines(id, src), id, MSID) == src.msid
    ensures GetSsrcAttribute(SourceLines(id, src), id, CNAME) == src.cname
    ensures forall other, attribute :: other != id ==> NoLine(SourceLines(id, src), other, attribute)
  {
  }

  lemma {:induction false} WriteSsrcsNoLine(sources: map<Ssrc, Source>, order: seq<Ssrc>, id: Ssrc, attribute: string)
    requires id !in order
    ensures NoLine(WriteSsrcs(sources, order), id, attribute)
  {
    var lines := WriteSsrcs(sources, order);
    WriteSsrcsLines(sources, order);
    assert forall k :: 0 <= k < |lines| ==> lines[k] in lines;
  }

  /** Every source named by the order emits its msid and cname lines. */
  lemma {:induction false} WriteSsrcsEmits(sources: map<Ssrc, Source>, order: seq<Ssrc>, id: Ssrc)
    requires id in order && id in sources
    ensures sources[id].msid.Some? ==> SourceEntry(id, MSID, sources[id].msid) in WriteSsrcs(sources, order)
    ensures sources[id].cname.Some? ==> SourceEntry(id, CNAME, sources[id].cname) in WriteSsrcs(sources, order)
  {
    var head := if order[0] in sources then SourceLines(order[0], sources[order[0]]) else [];
    assert WriteSsrcs(sources, order) == head + WriteSsrcs(sources, order[1..]);
    if order[0] != id {
      WriteSsrcsEmits(sources, order[1..], id);
    }
  }

  /** Reading back a written store finds, for each written SSRC, the values it was written with. */
  lemma {:induction false} WriteThenGet(sources: map<Ssrc, Source>, order: seq<Ssrc>, id: Ssrc)
    requires Distinct(order) && id in order && id in sources
    ensures GetSsrcAttribute(WriteSsrcs(sources, order), id, MSID) == sources[id].msid
    ensures GetSsrcAttribute(WriteSsrcs(sources, order), id, CNAME) == sources[id].cname
  {
    var head := if order[0] in sources then SourceLines(order[0], sources[order[0]]) else [];
    var rest := WriteSsrcs(sources, order[1..]);
    assert WriteSsrcs(sources, order) == head + rest;
    GetSsrcAttributeAppend(head, rest, id, MSID);
    GetSsrcAttributeAppend(head, rest, id, CNAME);
    if order[0] == id {
      assert id !in order[1..] by {
        assert forall k :: 1 <= k < |order| ==> order[k] != order[0];
      }
      SourceLinesGet(id, sources[id]);
      WriteSsrcsNoLine(sources, order[1..], id, MSID);
      WriteSsrcsNoLine(sources, order[1..], id, CNAME);
      GetSsrcAttributeSpec(rest, id, MSID);
      GetSsrcAttributeSpec(rest, id, CNAME);
    } else {
      if order[0] in sources {
        SourceLinesGet(order[0], sources[order[0]]);
      }
      assert NoLine(head, id, MSID) && NoLine(head, id, CNAME);
      assert Distinct(order[1..]);
      WriteThenGet(sources, order[1..], id);
    }
  }

  /** The SSRCs of `order` whose sources emit at least one line. */
  function Emitting(sources: map<Ssrc, Source>): Ssrc -> bool {
    id => id in sources && Emits(sources[id])
  }

  lemma {:induction false} WriteSsrcsIds(sources: map<Ssrc, Source>, order: seq<Ssrc>)
    ensures forall id :: id in IdSet(WriteSsrcs(sources, order)) <==> id in order && Emitting(sources)(id)
  {
    if order != [] {
      WriteSsrcsIds(sources, order[1..]);
      var head := if order[0] in sources then SourceLines(order[0], sources[order[0]]) else [];
      var rest := WriteSsrcs(sources, order[1..]);
      assert WriteSsrcs(sources, order) == head + rest;
      forall id
        ensures id in IdSet(head + rest) <==> id in IdSet(head) || id in IdSet(rest)
      {
        if id in IdSet(head + rest) {
          var e: SourceEntry :| e in head + rest && e.id == id;
          assert e in head || e in rest;
        }
      }
      assert forall id :: id in IdSet(head) <==> id == order[0] && Emitting(sources)(order[0]) by {
        if Emitting(sources)(order[0]) {
          assert head[0].id == order[0];
        }
      }
    }
  }

  /** SSRCs whose sources emit nothing can be left out of the order without changing the output. */
  lemma {:induction false} WriteSsrcsSkipsSilent(sources: map<Ssrc, Source>, order: seq<Ssrc>)
    ensures WriteSsrcs(sources, order) == WriteSsrcs(sources, Filter(order, Emitting(sources)))
  {
    if order != [] {
      WriteSsrcsSkipsSilent(sources, order[1..]);
      if Emitting(sources)(order[0]) {
        var f := Filter(order, Emitting(sources));
        assert f[0] == order[0] && f[1..] == Filter(order[1..], Emitting(sources));
      }
    }
  }

  /** Two stores that agree on every SSRC of `order` write the same lines. */
  lemma {:induction false} WriteSsrcsAgree(s1: map<Ssrc, Source>, s2: map<Ssrc, Source>, order: seq<Ssrc>)
    requires forall id :: id in order ==> (id in s1 <==> id in s2) && (id in s1 ==> s1[id] == s2[id])
    ensures WriteSsrcs(s1, order) == WriteSsrcs(s2, order)
  {
    if order != [] {
      WriteSsrcsAgree(s1, s2, order[1..]);
    }
  }

  lemma {:induction false} FilterIncreasing(s: seq<Ssrc>, keep: Ssrc -> bool)
    requires Increasing(s)
    ensures Increasing(Filter(s, keep))
  {
    if s != [] {
      FilterIncreasing(s[1..], keep);
      var f := Filter(s[1..], keep);
      FilterMembers(s[1..], keep);
      assert forall k :: 0 <= k < |f| ==> f[k] in s[1..];
      assert forall x :: x in s[1..] ==> s[0] < x;
    }
  }

  /** An increasing sequence is determined by its elements. */
  lemma {:induction false} IncreasingUnique(a: seq<Ssrc>, b: seq<Ssrc>)
    requires Increasing(a) && Increasing(b)
    requires forall x :: x in a <==> x in b
    ensures a == b
  {
    assert |a| > 0 ==> a[0] in b;
    assert |b| > 0 ==> b[0] in a;
    if a != [] && b != [] {
      assert a[0] == b[0];
      forall x ensures x in a[1..] <==> x in b[1..] {
        assert x in a[1..] <==> x in a && x != a[0];
        assert x in b[1..] <==> x in b && x != b[0];
      }
      IncreasingUnique(a[1..], b[1..]);
      assert a == [a[0]] + a[1..] && b == [b[0]] + b[1..];
    }
  }

  /**
    Writing a store without an order, parsing the lines back and writing again gives the same
    lines: the store is a faithful view of what it writes.
   */
  lemma WriteParseWrite(sources: map<Ssrc, Source>)
    ensures WriteAllSsrcs(ParseSsrcs(WriteAllSsrcs(sources))) == WriteAllSsrcs(sources)
  {
    var keys := SortedKeys(sources.Keys);
    var lines := WriteSsrcs(sources, keys);
    var parsed := ParseSsrcs(lines);
    var live := set id | id in keys && Emitting(sources)(id);
    assert Distinct(keys);
    WriteSsrcsIds(sources, keys);
    assert parsed.Keys == IdSet(lines) == live;
    forall id | id in live
      ensures parsed[id] == sources[id]
    {
      WriteThenGet(sources, keys, id);
    }
    var liveKeys := Filter(keys, Emitting(sources));
    FilterMembers(keys, Emitting(sources));
    FilterIncreasing(keys, Emitting(sources));
    IncreasingUnique(SortedKeys(parsed.Keys), liveKeys);
    WriteSsrcsAgree(parsed, sources, liveKeys);
    WriteSsrcsSkipsSilent(sources, keys);
  }
}
