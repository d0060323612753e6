/** Dotted versions (libs/core/src/version.cpp). */
module Versions {
  import opened Base
  import opened Text
  import opened Json

  datatype Version = Version(parts: seq<int32>)

  datatype ComparisonOp = Equal | NotEqual | Less_ | LessEqual | Greater | GreaterEqual

  datatype VersionConstraint = VersionConstraint(op: ComparisonOp, value: Version)

  const INT_MAX: int := 0x7fff_ffff

  // ----- parsing and printing -----

  function ReadPart(part: string): Option<int32> {
    if part == "" || !AllDigits(part) || ValueOf(part) > INT_MAX then None else Some(ValueOf(part))
  }

  function ReadParts(s: string): Option<seq<int32>>
    decreases |s|
  {
    var dot := Find(s, '.', 0);
    var part := ReadPart(s[..dot]);
    if part.None? then None
    else if dot == |s| then Some([part.value])
    else Behind([part.value], ReadParts(s[dot + 1..]))
  }

  function Behind(parts: seq<int32>, rest: Option<seq<int32>>): Option<seq<int32>> {
    if rest.None? then None else Some(parts + rest.value)
  }

  lemma BehindTwice(a: seq<int32>, b: seq<int32>, rest: Option<seq<int32>>)
    ensures Behind(a, Behind(b, rest)) == Behind(a + b, rest)
  {
    if rest.Some? {
      assert a + (b + rest.value) == a + b + rest.value;
    }
  }

  /** Reading on from `start`, where the next dot is known. */
  lemma ReadOn(text: string, start: nat, dot: nat)
    requires start <= |text| && dot == Find(text, '.', start)
    ensures ReadPart(text[start..dot]) == None ==> ReadParts(text[start..]) == None
    ensures ReadPart(text[start..dot]).Some? && dot == |text| ==>
      ReadParts(text[start..]) == Some([ReadPart(text[start..dot]).value])
    ensures ReadPart(text[start..dot]).Some? && dot < |text| ==>
      ReadParts(text[start..]) == Behind([ReadPart(text[start..dot]).value], ReadParts(text[dot + 1..]))
  {
    FindInSuffix(text, '.', start);
    assert text[start..][..dot - start] == text[start..dot];
    if dot < |text| {
      assert text[start..][dot - start + 1..] == text[dot + 1..];
    }
  }

  lemma BehindNothing(rest: Option<seq<int32>>)
    ensures Behind([], rest) == rest
  {
    if rest.Some? {
      assert [] + rest.value == rest.value;
    }
  }

  function ParseVersion(text: string): Option<Version> {
    if text == "" then None
    else
      var parts := ReadParts(text);
      if parts.None? then None else Some(Version(parts.value))
  }

  /** Reading from `start` on, in the text's own positions. */
  function ReadFrom(text: string, start: nat): Option<seq<int32>>
    requires start <= |text|
    decreases |text| - start
  {
    var dot := Find(text, '.', start);
    var part := ReadPart(text[start..dot]);
    if part.None? then None
    else if dot == |text| then Some([part.value])
    else Behind([part.value], ReadFrom(text, dot + 1))
  }

  lemma {:induction false} ReadFromReads(text: string, start: nat)
    requires start <= |text|
    ensures ReadFrom(text, start) == ReadParts(text[start..])
    decreases |text| - start
  {
    var dot := Find(text, '.', start);
    ReadOn(text, start, dot);
    if dot < |text| {
      ReadFromReads(text, dot + 1);
    }
  }

  method ScanParts(text: string) returns (found: Option<seq<int32>>)
    ensures found == ReadFrom(text, 0)
  {
    var parts: seq<int32> := [];
    var start := 0;
    BehindNothing(ReadFrom(text, 0));
    while true
      invariant start <= |text|
      invariant ReadFrom(text, 0) == Behind(parts, ReadFrom(text, start))
      decreases |text| - start
    {
      var dot := Find(text, '.', start);
      var part := ReadPart(text[start..dot]);
      if part.None? {
        return None;
      }
      if dot < |text| {
        BehindTwice(parts, [part.value], ReadFrom(text, dot + 1));
      }
      parts := parts + [part.value];
      if dot == |text| {
        break;
      }
      start := dot + 1;
    }
    return Some(parts);
  }

  method ScanVersion(text: string) returns (version: Option<Version>)
    ensures version == ParseVersion(text)
  {
    if text == "" {
      return None;
    }
    var parts := ScanParts(text);
    ReadFromReads(text, 0);
    assert text[0..] == text;
    return if parts.None? then None else Some(Version(parts.value));
  }

  function PartText(part: int32): string {
    if part >= 0 then Decimal(part) else "-" + Decimal(-(part as int))
  }

  function VersionText(version: Version): string {
    Joined(version.parts)
  }

  function Joined(parts: seq<int32>): string {
    if parts == [] then ""
    else if |parts| == 1 then PartText(parts[0])
    else PartText(parts[0]) + "." + Joined(parts[1..])
  }

  lemma PartReadsBack(part: int32, rest: string)
    requires rest == "" || rest[0] == '.'
    ensures Find(PartText(part) + rest, '.', 0) == |PartText(part)|
    ensures (PartText(part) + rest)[..|PartText(part)|] == PartText(part)
    ensures (PartText(part) + rest)[|PartText(part)|..] == rest
    ensures ReadPart(PartText(part)) == if part >= 0 then Some(part) else None
  {
    var s := PartText(part) + rest;
    forall j | 0 <= j < |PartText(part)|
      ensures s[j] != '.'
    {
      assert s[j] == PartText(part)[j];
    }
    FindIs(s, '.', 0, |PartText(part)|);
    if part < 0 {
      assert !IsDigit(PartText(part)[0]);
    }
  }

  lemma LastPartReads(part: int32)
    ensures ReadParts(PartText(part)) == if part >= 0 then Some([part]) else None
  {
    PartReadsBack(part, "");
    assert PartText(part) + "" == PartText(part);
  }

  lemma FirstPartReads(part: int32, rest: string)
    ensures ReadParts(PartText(part) + "." + rest) == if part >= 0 then Behind([part], ReadParts(rest)) else None
  {
    PartReadsBack(part, "." + rest);
    var s := PartText(part) + "." + rest;
    assert s == PartText(part) + ("." + rest);
    assert s[|PartText(part)| + 1..] == rest;
  }

  predicate NoneNegative(parts: seq<int32>) {
    forall i | 0 <= i < |parts| :: parts[i] >= 0
  }

  lemma {:induction false} JoinedReadsBack(parts: seq<int32>)
    requires parts != []
    ensures ReadParts(Joined(parts)) == if NoneNegative(parts) then Some(parts) else None
  {
    assert parts == [parts[0]] + parts[1..];
    if |parts| == 1 {
      LastPartReads(parts[0]);
      assert parts == [parts[0]];
    } else {
      FirstPartReads(parts[0], Joined(parts[1..]));
      JoinedReadsBack(parts[1..]);
      assert NoneNegative(parts) <==> parts[0] >= 0 && NoneNegative(parts[1..]);
    }
  }

  /** A version reads back from its text exactly when it has parts and none is negative. */
  lemma VersionRoundTrip(v: Version)
    ensures ParseVersion(VersionText(v)) == Some(v) <==> v.parts != [] && NoneNegative(v.parts)
    ensures ParseVersion(VersionText(v)) == Some(v) || ParseVersion(VersionText(v)) == None
  {
    if v.parts != [] {
      JoinedReadsBack(v.parts);
      assert Joined(v.parts) != "" by {
        PartReadsBack(v.parts[0], "");
        assert PartText(v.parts[0]) != "";
      }
    }
  }

  /** A component too large for an int makes the whole text unreadable. */
  lemma LargeComponentRejected(before: string, digits: string, after: string)
    requires digits != "" && AllDigits(digits) && ValueOf(digits) > INT_MAX
    requires before == "" || before[|before| - 1] == '.'
    requires after == "" || after[0] == '.'
    ensures ParseVersion(before + (digits + after)) == None
  {
    var s := digits + after;
    assert forall j | 0 <= j < |digits| :: s[j] == digits[j];
    FindIs(s, '.', 0, |digits|);
    assert s[..|digits|] == digits;
    UnreadableTail(before, s);
  }

  lemma {:induction false} UnreadableTail(before: string, tail: string)
    requires ReadParts(tail) == None
    requires before == "" || before[|before| - 1] == '.'
    ensures ReadParts(before + tail) == None
    decreases |before|
  {
    if before == "" {
      assert before + tail == tail;
    } else {
      var dot := Find(before, '.', 0);
      assert dot < |before| by {
        assert before[|before| - 1] == '.';
      }
      assert forall j | 0 <= j < dot :: (before + tail)[j] == before[j];
      FindIs(before + tail, '.', 0, dot);
      assert (before + tail)[dot + 1..] == before[dot + 1..] + tail;
      UnreadableTail(before[dot + 1..], tail);
    }
  }

  // ----- comparison -----

  function ComponentAt(v: Version, i: nat): int {
    if i < |v.parts| then v.parts[i] else 0
  }

  function Longest(a: Version, b: Version): nat {
    if |a.parts| > |b.parts| then |a.parts| else |b.parts|
  }

  /** Versions agree on every component, missing ones counting as zero. */
  ghost predicate SameComponents(a: Version, b: Version) {
    forall i: nat :: ComponentAt(a, i) == ComponentAt(b, i)
  }

  ghost predicate DiffersFirstAt(a: Version, b: Version, i: nat) {
    ComponentAt(a, i) < ComponentAt(b, i) && forall j: nat | j < i :: ComponentAt(a, j) == ComponentAt(b, j)
  }

  /** The first difference, if any, is in b's favour. */
  ghost predicate Precedes(a: Version, b: Version) {
    exists i: nat :: DiffersFirstAt(a, b, i)
  }

  function CompareFrom(a: Version, b: Version, i: nat): int
    decreases Longest(a, b) - i
  {
    if i >= Longest(a, b) then 0
    else if ComponentAt(a, i) != ComponentAt(b, i) then if ComponentAt(a, i) < ComponentAt(b, i) then -1 else 1
    else CompareFrom(a, b, i + 1)
  }

  method Compare(a: Version, b: Version) returns (result: int)
    ensures result == CompareFrom(a, b, 0)
  {
    var i: nat := 0;
    var count := Longest(a, b);
    while i < count
      invariant i <= count
      invariant CompareFrom(a, b, 0) == CompareFrom(a, b, i)
    {
      var x, y := ComponentAt(a, i), ComponentAt(b, i);
      if x != y {
        return if x < y then -1 else 1;
      }
      i := i + 1;
    }
    return 0;
  }

  lemma {:induction false} CompareMeans(a: Version, b: Version, i: nat)
    requires i <= Longest(a, b) && forall j: nat | j < i :: ComponentAt(a, j) == ComponentAt(b, j)
    ensures CompareFrom(a, b, i) == 0 <==> SameComponents(a, b)
    ensures CompareFrom(a, b, i) == -1 <==> Precedes(a, b)
    ensures CompareFrom(a, b, i) == 1 <==> Precedes(b, a)
    decreases Longest(a, b) - i
  {
    OneOrder(a, b);
    OneOrder(b, a);
    if i == Longest(a, b) {
      assert SameComponents(a, b);
    } else if ComponentAt(a, i) == ComponentAt(b, i) {
      CompareMeans(a, b, i + 1);
    } else if ComponentAt(a, i) < ComponentAt(b, i) {
      assert DiffersFirstAt(a, b, i);
    } else {
      assert DiffersFirstAt(b, a, i);
    }
  }

  lemma OneOrder(a: Version, b: Version)
    ensures Precedes(a, b) ==> !Precedes(b, a) && !SameComponents(a, b)
  {
    if i: nat :| DiffersFirstAt(a, b, i) {
      assert ComponentAt(a, i) != ComponentAt(b, i);
      forall k: nat
        ensures !DiffersFirstAt(b, a, k)
      {
        assert i < k ==> ComponentAt(a, i) != ComponentAt(b, i);
      }
    }
  }

  lemma FirstOfTwo(a: Version, b: Version, c: Version, i: nat, k: nat)
    requires DiffersFirstAt(a, b, i) && DiffersFirstAt(b, c, k)
    ensures DiffersFirstAt(a, c, if i < k then i else k)
  {
  }

  lemma MoveAlong(a: Version, b: Version, a': Version, b': Version)
    requires SameComponents(a, a') && SameComponents(b, b') && Precedes(a, b)
    ensures Precedes(a', b')
  {
    var i: nat :| DiffersFirstAt(a, b, i);
    assert DiffersFirstAt(a', b', i) by {
      assert ComponentAt(a', i) == ComponentAt(a, i) && ComponentAt(b', i) == ComponentAt(b, i);
    }
  }

  /** compare is a total preorder: any two versions are ordered one way, the other, or alike; swapping
      them flips the answer; and "not after" is transitive, strictly when either step is. */
  lemma CompareIsATotalPreorder(a: Version, b: Version, c: Version)
    ensures -1 <= CompareFrom(a, b, 0) <= 1
    ensures CompareFrom(b, a, 0) == -CompareFrom(a, b, 0)
    ensures CompareFrom(a, b, 0) <= 0 && CompareFrom(b, c, 0) <= 0 ==>
      (CompareFrom(a, c, 0) < 0 <==> CompareFrom(a, b, 0) < 0 || CompareFrom(b, c, 0) < 0) && CompareFrom(a, c, 0) <= 0
  {
    CompareInRange(a, b, 0);
    CompareInRange(b, c, 0);
    CompareInRange(a, c, 0);
    CompareInRange(b, a, 0);
    CompareMeans(a, b, 0);
    CompareMeans(b, a, 0);
    CompareMeans(b, c, 0);
    CompareMeans(a, c, 0);
    SameIsSymmetric(a, b);
    if Precedes(a, b) && Precedes(b, c) {
      var i: nat :| DiffersFirstAt(a, b, i);
      var k: nat :| DiffersFirstAt(b, c, k);
      FirstOfTwo(a, b, c, i, k);
    } else if Precedes(a, b) && SameComponents(b, c) {
      MoveAlong(a, b, a, c);
    } else if SameComponents(a, b) && Precedes(b, c) {
      MoveAlong(b, c, a, c);
    } else if SameComponents(a, b) && SameComponents(b, c) {
      SameIsTransitive(a, b, c);
    }
  }

  lemma SameIsSymmetric(a: Version, b: Version)
    ensures SameComponents(a, b) <==> SameComponents(b, a)
  {
  }

  lemma SameIsTransitive(a: Version, b: Version, c: Version)
    requires SameComponents(a, b) && SameComponents(b, c)
    ensures SameComponents(a, c)
  {
    forall i: nat
      ensures ComponentAt(a, i) == ComponentAt(c, i)
    {
      assert ComponentAt(a, i) == ComponentAt(b, i);
    }
  }

  lemma {:induction false} CompareInRange(a: Version, b: Version, i: nat)
    ensures CompareFrom(a, b, i) == 0 || CompareFrom(a, b, i) == 1 || CompareFrom(a, b, i) == -1
    decreases Longest(a, b) - i
  {
    if i < Longest(a, b) {
      CompareInRange(a, b, i + 1);
    }
  }

  function Stripped(parts: seq<int32>): seq<int32> {
    if parts != [] && parts[|parts| - 1] == 0 then Stripped(parts[..|parts| - 1]) else parts
  }

  lemma {:induction false} StrippedSame(parts: seq<int32>)
    ensures SameComponents(Version(parts), Version(Stripped(parts)))
    ensures Stripped(parts) == [] || Stripped(parts)[|Stripped(parts)| - 1] != 0
  {
    if parts != [] && parts[|parts| - 1] == 0 {
      StrippedSame(parts[..|parts| - 1]);
      forall i: nat
        ensures ComponentAt(Version(parts), i) == ComponentAt(Version(parts[..|parts| - 1]), i)
      {
      }
    }
  }

  /** Two versions compare equal exactly when they are the same up to trailing zero components. */
  lemma EqualUpToTrailingZeros(a: Version, b: Version)
    ensures CompareFrom(a, b, 0) == 0 <==> Stripped(a.parts) == Stripped(b.parts)
  {
    CompareMeans(a, b, 0);
    SameUpToTrailingZeros(a, b);
  }

  lemma SameUpToTrailingZeros(a: Version, b: Version)
    ensures SameComponents(a, b) <==> Stripped(a.parts) == Stripped(b.parts)
  {
    var x, y := Version(Stripped(a.parts)), Version(Stripped(b.parts));
    StrippedSame(a.parts);
    StrippedSame(b.parts);
    assert forall i: nat :: ComponentAt(a, i) == ComponentAt(x, i) && ComponentAt(b, i) == ComponentAt(y, i);
    if SameComponents(a, b) {
      assert forall i: nat :: ComponentAt(x, i) == ComponentAt(y, i);
      assert |x.parts| > 0 ==> ComponentAt(x, |x.parts| - 1) == ComponentAt(y, |x.parts| - 1);
      assert |y.parts| > 0 ==> ComponentAt(x, |y.parts| - 1) == ComponentAt(y, |y.parts| - 1);
      forall i | 0 <= i < |x.parts|
        ensures x.parts[i] == y.parts[i]
      {
        assert ComponentAt(x, i) == ComponentAt(y, i);
      }
    }
  }

  /** A constraint on an ordering result. */
  predicate Satisfies(result: int, op: ComparisonOp) {
    match op
    case Equal => result == 0
    case NotEqual => result != 0
    case Less_ => result < 0
    case LessEqual => result <= 0
    case Greater => result > 0
    case GreaterEqual => result >= 0
  }
}
