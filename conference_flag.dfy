/**
  The conference marker of a media section: the `a=x-google-flag:conference` line, which the SDP
  parser leaves in the section's `invalid` list. `removeGoogConference` (lib/index.js:202-213)
  strips every copy of it; `assertGoogConference` (lib/index.js:215-228) makes sure there is one.
 */
module ConferenceFlag {
  import opened Sdp

  const CONFERENCE_FLAG := "x-google-flag:conference"

  /** The marker entry itself; an entry is the marker exactly when its value is the flag text. */
  const FLAG := Attribute(CONFERENCE_FLAG)

  predicate IsFlag(a: Attribute) {
    a.value == CONFERENCE_FLAG
  }

  predicate NotFlag(a: Attribute) {
    !IsFlag(a)
  }

  /** `invalid.some(...)` at lib/index.js:224-225. */
  predicate HasFlag(invalid: seq<Attribute>) {
    exists k :: 0 <= k < |invalid| && IsFlag(invalid[k])
  }

  /** The `invalid` list after `removeGoogConference`; an absent list stays absent. */
  function WithoutFlag(invalid: Option<seq<Attribute>>): Option<seq<Attribute>> {
    match invalid
    case None => None
    case Some(l) => Some(Filter(l, NotFlag))
  }

  /** The `invalid` list after `assertGoogConference`; it is always present afterwards. */
  function WithFlag(invalid: Option<seq<Attribute>>): seq<Attribute> {
    var l := invalid.GetOr([]);
    if HasFlag(l) then l else l + [FLAG]
  }

  lemma FlagIsUnique(a: Attribute)
    ensures IsFlag(a) <==> a == FLAG
  {
  }

  lemma HasFlagCount(l: seq<Attribute>)
    ensures HasFlag(l) <==> Count(l, FLAG) > 0
  {
    CountZero(l, FLAG);
    if HasFlag(l) {
      var k :| 0 <= k < |l| && IsFlag(l[k]);
      assert l[k] == FLAG;
    }
  }

  /** Dropping the marker entries shortens the list by exactly their number. */
  lemma {:induction false} FilterFlagLength(l: seq<Attribute>)
    ensures |Filter(l, NotFlag)| == |l| - Count(l, FLAG)
  {
    if l != [] {
      FilterFlagLength(l[1..]);
    }
  }

  /**
    After `removeGoogConference` no marker is left, every other entry is still there, nothing
    else is added, and the list shrinks by exactly the number of markers it held.
   */
  lemma RemoveFlagSpec(l: seq<Attribute>)
    ensures var r := WithoutFlag(Some(l)).value;
      && Count(r, FLAG) == 0
      && (forall a :: a in r <==> a in l && a != FLAG)
      && |r| == |l| - Count(l, FLAG)
  {
    var r := Filter(l, NotFlag);
    FilterMembers(l, NotFlag);
    CountZero(r, FLAG);
    FilterFlagLength(l);
  }

  /** A list without a marker is left exactly as it was, so removal is idempotent. */
  lemma {:induction false} RemoveWithoutFlag(l: seq<Attribute>)
    requires !HasFlag(l)
    ensures WithoutFlag(Some(l)) == Some(l)
  {
    if l != [] {
      assert forall k :: 0 <= k < |l[1..]| ==> l[1..][k] == l[k + 1];
      RemoveWithoutFlag(l[1..]);
      assert l == [l[0]] + l[1..];
    }
  }

  lemma RemoveIdempotent(invalid: Option<seq<Attribute>>)
    ensures WithoutFlag(WithoutFlag(invalid)) == WithoutFlag(invalid)
  {
    if invalid.Some? {
      var r := WithoutFlag(invalid).value;
      RemoveFlagSpec(invalid.value);
      HasFlagCount(r);
      RemoveWithoutFlag(r);
    }
  }

  /**
    After `assertGoogConference` the list keeps every earlier entry in place and holds at least
    one marker; it gains a marker, at its end, only when it had none, so a list with at most one
    marker ends with exactly one.
   */
  lemma AssertFlagSpec(invalid: Option<seq<Attribute>>)
    ensures var l, r := invalid.GetOr([]), WithFlag(invalid);
      && r[..|l|] == l
      && Count(r, FLAG) == (if Count(l, FLAG) == 0 then 1 else Count(l, FLAG))
      && (Count(l, FLAG) == 0 ==> r == l + [FLAG])
  {
    var l := invalid.GetOr([]);
    HasFlagCount(l);
    CountAppend(l, [FLAG], FLAG);
    assert (l + [FLAG])[..|l|] == l;
  }

  /** Asserting the marker twice is the same as asserting it once. */
  lemma AssertIdempotent(invalid: Option<seq<Attribute>>)
    ensures WithFlag(Some(WithFlag(invalid))) == WithFlag(invalid)
  {
    var l := invalid.GetOr([]);
    if !HasFlag(l) {
      var r := l + [FLAG];
      assert IsFlag(r[|l|]);
    }
  }

  /** Whatever the section held before, removing and then asserting leaves exactly one marker, last. */
  lemma RemoveThenAssert(invalid: Option<seq<Attribute>>)
    ensures var r := WithFlag(WithoutFlag(invalid));
      Count(r, FLAG) == 1 && r[|r| - 1] == FLAG
  {
    var l := WithoutFlag(invalid).GetOr([]);
    if invalid.Some? {
      RemoveFlagSpec(invalid.value);
    }
    HasFlagCount(l);
    CountAppend(l, [FLAG], FLAG);
  }

  lemma SpliceFlagStep(l: seq<Attribute>, i: nat, current: seq<Attribute>)
    requires i < |l| && current == l[..i + 1] + Filter(l[i + 1..], NotFlag)
    ensures IsFlag(current[i]) ==> current[..i] + current[i + 1..] == l[..i] + Filter(l[i..], NotFlag)
    ensures !IsFlag(current[i]) ==> current == l[..i] + Filter(l[i..], NotFlag)
  {
    assert current[i] == l[i];
    assert l[i..][0] == l[i] && l[i..][1..] == l[i + 1..];
    assert current[..i] == l[..i];
    assert current[i + 1..] == Filter(l[i + 1..], NotFlag);
    assert l[..i + 1] == l[..i] + [l[i]];
  }

  /** `removeGoogConference`: splices the markers out of `invalid`, scanning from the end. */
  method RemoveGoogConference(mLine: MediaLine?)
    modifies mLine
    ensures mLine != null ==> mLine.invalid == WithoutFlag(old(mLine.invalid))
    ensures mLine != null ==> mLine.Sources() == old(mLine.Sources())
    ensures mLine != null ==> mLine.mediaType == old(mLine.mediaType) && mLine.direction == old(mLine.direction)
  {
    if mLine == null || mLine.invalid.None? {
      return;
    }
    ghost var l := mLine.invalid.value;
    var i := |mLine.invalid.value|;
    assert l[..i] + Filter(l[i..], NotFlag) == l;
    while i > 0
      invariant 0 <= i <= |l|
      invariant mLine.invalid == Some(l[..i] + Filter(l[i..], NotFlag))
      invariant mLine.Sources() == old(mLine.Sources())
      invariant mLine.mediaType == old(mLine.mediaType) && mLine.direction == old(mLine.direction)
    {
      i := i - 1;
      var invalid := mLine.invalid.value;
      SpliceFlagStep(l, i, invalid);
      if invalid[i].value == CONFERENCE_FLAG {
        mLine.invalid := Some(invalid[..i] + invalid[i + 1..]);
      }
    }
    assert l[..0] + Filter(l[0..], NotFlag) == Filter(l, NotFlag);
  }

  /** `assertGoogConference`: creates `invalid` when missing and appends a marker when it has none. */
  method AssertGoogConference(mLine: MediaLine?)
    modifies mLine
    ensures mLine != null ==> mLine.invalid == Some(WithFlag(old(mLine.invalid)))
    ensures mLine != null ==> mLine.Sources() == old(mLine.Sources())
    ensures mLine != null ==> mLine.mediaType == old(mLine.mediaType) && mLine.direction == old(mLine.direction)
  {
    if mLine == null {
      return;
    }
    if mLine.invalid.None? {
      mLine.invalid := Some([]);
    }
    var invalid := mLine.invalid.value;
    if !HasFlag(invalid) {
      mLine.invalid := Some(invalid + [FLAG]);
    }
  }
}
