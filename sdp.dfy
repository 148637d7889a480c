/**
  The parsed form of one SDP media section ("mLine") as the simulcast engine sees it, together
  with the small sequence and string helpers that every component shares.
 */
module Sdp {

  datatype Option<+T> = None | Some(value: T) {
    /** The value, or `default` when there is none. */
    function GetOr(default: T): T {
      match this
      case Some(v) => v
      case None => default
    }
  }

  /** An RTP synchronisation source identifier: an unsigned 32-bit value. */
  type Ssrc = x: int | 0 <= x < 0x1_0000_0000

  /** One `a=ssrc:<id> <attribute>:<value>` line; an absent value is `None`. */
  datatype SourceEntry = SourceEntry(id: Ssrc, attribute: string, value: Option<string>)

  /**
    One `a=ssrc-group:<semantics> <id> ...` line. The member text is modelled already split on
    spaces and read as SSRCs.
   */
  datatype SourceGroup = SourceGroup(semantics: string, members: seq<Ssrc>)

  /** An entry of the media section's `invalid` list: an `a=` line the parser did not recognise. */
  datatype Attribute = Attribute(value: string)

  /** The part of a media section that the simulcast transforms read and rewrite. */
  datatype MediaSources = MediaSources(ssrcs: seq<SourceEntry>, ssrcGroups: Option<seq<SourceGroup>>)

  /** A whole media section as a value. */
  datatype MediaValue = MediaValue(
    mediaType: string,
    direction: string,
    sources: MediaSources,
    invalid: Option<seq<Attribute>>)

  /**
    A parsed media section. The engine rewrites these objects in place, so the model keeps
    them as objects whose fields the transforms reassign.
   */
  class MediaLine {
    var mediaType: string
    var direction: string
    var ssrcs: seq<SourceEntry>
    var ssrcGroups: Option<seq<SourceGroup>>
    var invalid: Option<seq<Attribute>>

    constructor (mediaType: string, direction: string, ssrcs: seq<SourceEntry>,
                 ssrcGroups: Option<seq<SourceGroup>>, invalid: Option<seq<Attribute>>)
      ensures Value() == MediaValue(mediaType, direction, MediaSources(ssrcs, ssrcGroups), invalid)
    {
      this.mediaType := mediaType;
      this.direction := direction;
      this.ssrcs := ssrcs;
      this.ssrcGroups := ssrcGroups;
      this.invalid := invalid;
    }

    function Sources(): MediaSources
      reads this
    {
      MediaSources(ssrcs, ssrcGroups)
    }

    function Value(): MediaValue
      reads this
    {
      MediaValue(mediaType, direction, Sources(), invalid)
    }
  }

  const SIM := "SIM"
  const FID := "FID"

  predicate IsSim(g: SourceGroup) {
    g.semantics == SIM
  }

  predicate HasSim(groups: seq<SourceGroup>) {
    exists k :: 0 <= k < |groups| && IsSim(groups[k])
  }

  /** The groups that are not `SIM` groups, in their original order. */
  function NonSim(groups: seq<SourceGroup>): (r: seq<SourceGroup>)
    ensures |r| <= |groups|
  {
    if groups == [] then []
    else if IsSim(groups[0]) then NonSim(groups[1..])
    else [groups[0]] + NonSim(groups[1..])
  }

  /** `NonSim` keeps exactly the groups that are not `SIM` groups. */
  lemma {:induction false} NonSimMembers(groups: seq<SourceGroup>)
    ensures forall g :: g in NonSim(groups) <==> g in groups && !IsSim(g)
    ensures !HasSim(NonSim(groups))
  {
    if groups != [] {
      NonSimMembers(groups[1..]);
      assert forall g :: g in groups <==> g == groups[0] || g in groups[1..];
    }
    var r := NonSim(groups);
    assert forall k :: 0 <= k < |r| ==> r[k] in r;
  }

  lemma {:induction false} NonSimAppend(a: seq<SourceGroup>, b: seq<SourceGroup>)
    ensures NonSim(a + b) == NonSim(a) + NonSim(b)
  {
    if a == [] {
      assert a + b == b;
    } else {
      assert (a + b)[0] == a[0];
      assert (a + b)[1..] == a[1..] + b;
      NonSimAppend(a[1..], b);
    }
  }

  /** Removing a `SIM` group leaves the non-`SIM` groups as they were. */
  lemma {:induction false} NonSimDropSim(groups: seq<SourceGroup>, j: nat)
    requires j < |groups| && IsSim(groups[j])
    ensures NonSim(groups[..j] + groups[j + 1..]) == NonSim(groups)
  {
    var pre, rest := groups[..j], [groups[j]] + groups[j + 1..];
    assert groups == pre + rest;
    assert rest[0] == groups[j] && rest[1..] == groups[j + 1..];
    assert NonSim(rest) == NonSim(groups[j + 1..]);
    calc {
      NonSim(groups);
      { NonSimAppend(pre, rest); }
      NonSim(pre) + NonSim(rest);
      NonSim(pre) + NonSim(groups[j + 1..]);
      { NonSimAppend(pre, groups[j + 1..]); }
      NonSim(pre + groups[j + 1..]);
    }
  }

  /** The SSRC of every entry, entry by entry. */
  function Ids(entries: seq<SourceEntry>): (r: seq<Ssrc>)
    ensures |r| == |entries|
    ensures forall k :: 0 <= k < |entries| ==> r[k] == entries[k].id
  {
    seq(|entries|, k requires 0 <= k < |entries| => entries[k].id)
  }

  predicate Distinct<T(==)>(s: seq<T>) {
    forall i, j :: 0 <= i < j < |s| ==> s[i] != s[j]
  }

  /** The distinct elements of `s` in order of first appearance. */
  function Dedup(s: seq<Ssrc>): (r: seq<Ssrc>)
    ensures forall x :: x in r <==> x in s
    ensures Distinct(r)
    ensures |r| <= |s|
  {
    if s == [] then []
    else
      var d := Dedup(s[..|s| - 1]);
      if s[|s| - 1] in d then d else d + [s[|s| - 1]]
  }

  /** A sequence whose elements are all `x` reduces to `[x]`. */
  lemma DedupConstant(s: seq<Ssrc>, x: Ssrc)
    requires |s| > 0 && forall k :: 0 <= k < |s| ==> s[k] == x
    ensures Dedup(s) == [x]
  {
    var d := Dedup(s);
    assert s[0] == x && x in d;
    forall i | 0 <= i < |d|
      ensures d[i] == x
    {
      assert d[i] in s;
    }
  }

  /** The elements of `s` that satisfy `keep`, in order. */
  function Filter<T>(s: seq<T>, keep: T -> bool): (r: seq<T>)
    ensures |r| <= |s|
  {
    if s == [] then []
    else if keep(s[0]) then [s[0]] + Filter(s[1..], keep)
    else Filter(s[1..], keep)
  }

  /** `Filter` keeps exactly the elements that satisfy `keep`. */
  lemma {:induction false} FilterMembers<T(!new)>(s: seq<T>, keep: T -> bool)
    ensures forall x :: x in Filter(s, keep) <==> x in s && keep(x)
  {
    if s != [] {
      FilterMembers(s[1..], keep);
      assert forall x :: x in s <==> x == s[0] || x in s[1..];
    }
  }

  /** `Filter` returns its input when every element is kept. */
  lemma {:induction false} FilterKeepsAll<T(!new)>(s: seq<T>, keep: T -> bool)
    requires forall x :: x in s ==> keep(x)
    ensures Filter(s, keep) == s
  {
    if s != [] {
      assert s[0] in s;
      assert forall x :: x in s[1..] ==> x in s;
      FilterKeepsAll(s[1..], keep);
    }
  }

  lemma {:induction false} FilterAppend<T>(a: seq<T>, b: seq<T>, keep: T -> bool)
    ensures Filter(a + b, keep) == Filter(a, keep) + Filter(b, keep)
  {
    if a == [] {
      assert a + b == b;
    } else {
      assert (a + b)[0] == a[0];
      assert (a + b)[1..] == a[1..] + b;
      FilterAppend(a[1..], b, keep);
    }
  }

  /** Number of elements of `s` equal to `x`. */
  function Count<T(==)>(s: seq<T>, x: T): nat {
    if s == [] then 0 else (if s[0] == x then 1 else 0) + Count(s[1..], x)
  }

  lemma {:induction false} CountAppend<T>(a: seq<T>, b: seq<T>, x: T)
    ensures Count(a + b, x) == Count(a, x) + Count(b, x)
  {
    if a == [] {
      assert a + b == b;
    } else {
      assert (a + b)[0] == a[0];
      assert (a + b)[1..] == a[1..] + b;
      CountAppend(a[1..], b, x);
    }
  }

  lemma CountZero<T>(s: seq<T>, x: T)
    ensures Count(s, x) == 0 <==> x !in s
  {
    if s != [] {
      CountZero(s[1..], x);
    }
  }

  // ---- strings ----

  /** Index of the first space of `s`, or `|s|` when there is none. */
  function SpaceAt(s: string): (k: nat)
    ensures k <= |s|
    ensures k < |s| ==> s[k] == ' '
    ensures forall i :: 0 <= i < k ==> s[i] != ' '
  {
    if s == [] then 0
    else if s[0] == ' ' then 0
    else 1 + SpaceAt(s[1..])
  }

  /** JavaScript's `s.split(' ')`: every space separates two (possibly empty) tokens. */
  function SplitOnSpace(s: string): (r: seq<string>)
    ensures |r| >= 1
    ensures forall k :: 0 <= k < |r| ==> ' ' !in r[k]
    decreases |s|
  {
    var k := SpaceAt(s);
    if k == |s| then [s]
    else [s[..k]] + SplitOnSpace(s[k + 1..])
  }

  /** JavaScript's `tokens.join(' ')`. */
  function JoinWithSpace(tokens: seq<string>): string {
    if tokens == [] then ""
    else if |tokens| == 1 then tokens[0]
    else tokens[0] + " " + JoinWithSpace(tokens[1..])
  }

  /** Splitting a space-joined list of space-free tokens gives the tokens back. */
  lemma {:induction false} SplitJoin(tokens: seq<string>)
    requires |tokens| >= 1
    requires forall k :: 0 <= k < |tokens| ==> ' ' !in tokens[k]
    ensures SplitOnSpace(JoinWithSpace(tokens)) == tokens
  {
    var t := tokens[0];
    assert SpaceAt(t) == |t| by { NoSpaceAt(t); }
    if |tokens| > 1 {
      var s := t + " " + JoinWithSpace(tokens[1..]);
      assert SpaceAt(s) == |t| by { SpaceAfterPrefix(t, JoinWithSpace(tokens[1..])); }
      assert s[..|t|] == t;
      assert s[|t| + 1..] == JoinWithSpace(tokens[1..]);
      SplitJoin(tokens[1..]);
    }
  }

  lemma NoSpaceAt(t: string)
    requires ' ' !in t
    ensures SpaceAt(t) == |t|
  {
    assert forall i :: 0 <= i < |t| ==> t[i] in t;
  }

  lemma SpaceAfterPrefix(t: string, rest: string)
    requires ' ' !in t
    ensures SpaceAt(t + " " + rest) == |t|
  {
    var s := t + " " + rest;
    assert forall i :: 0 <= i < |t| ==> s[i] == t[i] && t[i] in t;
    assert s[|t|] == ' ';
  }

  function DigitChar(d: nat): (c: char)
    requires d < 10
  {
    "0123456789"[d]
  }

  /** The decimal text of `n`, as JavaScript prints a non-negative integer. */
  function NatToString(n: nat): (s: string)
    ensures |s| >= 1
    ensures ' ' !in s
  {
    if n < 10 then [DigitChar(n)]
    else NatToString(n / 10) + [DigitChar(n % 10)]
  }
}
