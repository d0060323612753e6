/** Walking a parsed path through a document (libs/core/src/json_path.cpp). A `[*]` forks the walk; the
    values found are listed here together with the concrete indices that lead to them. */
module JsonWalk {
  import opened Base
  import opened Text
  import opened Json
  import opened JsonPath

  // ----- one value: paths without [*] -----

  /** `.length`, or the node itself. */
  function Leaf(node: Json, lengthProjection: bool): Option<Json> {
    if !lengthProjection then Some(node)
    else match node
      case JString(text) => Some(JInt(ByteCount(text)))
      case JArray(items) => Some(JInt(|items|))
      case JObject(members) => Some(JInt(|members|))
      case _ => None
  }

  /** The node one concrete step away. */
  function Child(node: Json, segment: Segment): Option<Json> {
    match segment
    case Field(name) => if node.JObject? && name in node.members then Some(node.members[name]) else None
    case Index(index) => if node.JArray? && index < |node.items| then Some(node.items[index]) else None
    case AnyIndex => None
  }

  function Descend(node: Json, segments: seq<Segment>): Option<Json> {
    if segments == [] then Some(node)
    else
      var child := Child(node, segments[0]);
      if child.None? then None else Descend(child.value, segments[1..])
  }

  /** The single value a path without [*] addresses. */
  function Lookup(node: Json, segments: seq<Segment>, lengthProjection: bool): Option<Json> {
    var end := Descend(node, segments);
    if end.None? then None else Leaf(end.value, lengthProjection)
  }

  function Wildcards(segments: seq<Segment>): nat {
    if segments == [] then 0 else (if segments[0].AnyIndex? then 1 else 0) + Wildcards(segments[1..])
  }

  /** Each [*] replaced by the next index. */
  function Instantiate(segments: seq<Segment>, indices: seq<nat>): (r: seq<Segment>)
    requires |indices| == Wildcards(segments)
    ensures |r| == |segments| && Wildcards(r) == 0
  {
    if segments == [] then []
    else if segments[0].AnyIndex? then [Index(indices[0])] + Instantiate(segments[1..], indices[1..])
    else [segments[0]] + Instantiate(segments[1..], indices)
  }

  // ----- all values -----

  /** A value found, with the index taken at each [*]. */
  datatype Hit = Hit(indices: seq<nat>, value: Json)

  function Under(k: nat, hits: seq<Hit>): seq<Hit> {
    seq(|hits|, i requires 0 <= i < |hits| => Hit([k] + hits[i].indices, hits[i].value))
  }

  function Hits(node: Json, segments: seq<Segment>, lengthProjection: bool): seq<Hit>
    decreases |segments|, 0
  {
    if segments == [] then
      var leaf := Leaf(node, lengthProjection);
      if leaf.Some? then [Hit([], leaf.value)] else []
    else if segments[0].AnyIndex? then
      if node.JArray? then ElementHits(node.items, segments[1..], lengthProjection) else []
    else
      var child := Child(node, segments[0]);
      if child.Some? then Hits(child.value, segments[1..], lengthProjection) else []
  }

  function ElementHits(items: seq<Json>, rest: seq<Segment>, lengthProjection: bool): seq<Hit>
    decreases |rest|, 1, |items|
  {
    if items == [] then []
    else
      var k := |items| - 1;
      ElementHits(items[..k], rest, lengthProjection) + Under(k, Hits(items[k], rest, lengthProjection))
  }

  /** Some branch of the walk cannot go on. */
  ghost predicate Breaks(node: Json, segments: seq<Segment>, lengthProjection: bool)
    decreases |segments|
  {
    if segments == [] then Leaf(node, lengthProjection).None?
    else if segments[0].AnyIndex? then
      !node.JArray? || exists k | 0 <= k < |node.items| :: Breaks(node.items[k], segments[1..], lengthProjection)
    else
      var child := Child(node, segments[0]);
      child.None? || Breaks(child.value, segments[1..], lengthProjection)
  }

  /** The walk as a whole fails when it finds nothing and some branch could not go on. */
  ghost predicate Fails(node: Json, segments: seq<Segment>, lengthProjection: bool) {
    Hits(node, segments, lengthProjection) == [] && Breaks(node, segments, lengthProjection)
  }

  function ValuesOf(hits: seq<Hit>): seq<Json> {
    seq(|hits|, i requires 0 <= i < |hits| => hits[i].value)
  }

  // ----- the walk -----

  /** The vector the walk appends to. */
  class Output {
    var items: seq<Json>

    constructor ()
      ensures items == []
    {
      items := [];
    }
  }

  method AppendLeaf(node: Json, parsed: Parsed, out: Output) returns (failure: Option<PathError>)
    modifies out
    ensures failure.Some? <==> Leaf(node, parsed.lengthProjection).None?
    ensures failure.Some? ==> failure.value == NoSuchField && out.items == old(out.items)
    ensures failure.None? ==> out.items == old(out.items) + [Leaf(node, parsed.lengthProjection).value]
  {
    if !parsed.lengthProjection {
      out.items := out.items + [node];
      return None;
    }
    if node.JString? {
      out.items := out.items + [JInt(ByteCount(node.text))];
      return None;
    }
    if !node.JArray? && !node.JObject? {
      return Some(NoSuchField);
    }
    out.items := out.items + [JInt(if node.JArray? then |node.items| else |node.members|)];
    return None;
  }

  lemma ElementStep(items: seq<Json>, k: nat, rest: seq<Segment>, lengthProjection: bool)
    requires k < |items|
    ensures ElementHits(items[..k + 1], rest, lengthProjection)
      == ElementHits(items[..k], rest, lengthProjection) + Under(k, Hits(items[k], rest, lengthProjection))
    ensures ValuesOf(ElementHits(items[..k + 1], rest, lengthProjection))
      == ValuesOf(ElementHits(items[..k], rest, lengthProjection)) + ValuesOf(Hits(items[k], rest, lengthProjection))
  {
    assert items[..k + 1][..k] == items[..k];
  }

  ghost predicate NoHits(items: seq<Json>, rest: seq<Segment>, lengthProjection: bool) {
    forall j | 0 <= j < |items| :: Hits(items[j], rest, lengthProjection) == []
  }

  lemma NoHitsStep(items: seq<Json>, rest: seq<Segment>, lengthProjection: bool)
    requires items != []
    ensures NoHits(items, rest, lengthProjection) <==>
      NoHits(items[..|items| - 1], rest, lengthProjection) && Hits(items[|items| - 1], rest, lengthProjection) == []
  {
    assert items == items[..|items| - 1] + [items[|items| - 1]];
  }

  lemma {:induction false} ElementHitsEmpty(items: seq<Json>, rest: seq<Segment>, lengthProjection: bool)
    ensures ElementHits(items, rest, lengthProjection) == [] <==> NoHits(items, rest, lengthProjection)
    decreases |items|
  {
    if items != [] {
      var k := |items| - 1;
      ElementHitsEmpty(items[..k], rest, lengthProjection);
      NoHitsStep(items, rest, lengthProjection);
      var front, last := ElementHits(items[..k], rest, lengthProjection), Hits(items[k], rest, lengthProjection);
      assert |front + Under(k, last)| == |front| + |last|;
    }
  }

  lemma ForkFails(items: seq<Json>, segments: seq<Segment>, lengthProjection: bool)
    requires segments != [] && segments[0].AnyIndex?
    ensures Fails(JArray(items), segments, lengthProjection) <==>
      && ElementHits(items, segments[1..], lengthProjection) == []
      && exists j | 0 <= j < |items| :: Fails(items[j], segments[1..], lengthProjection)
  {
    ElementHitsEmpty(items, segments[1..], lengthProjection);
    if Fails(JArray(items), segments, lengthProjection) {
      var j :| 0 <= j < |items| && Breaks(items[j], segments[1..], lengthProjection);
      assert Fails(items[j], segments[1..], lengthProjection);
    }
  }

  /** The fork at a [*]: one branch per element. */
  method Fork(items: seq<Json>, parsed: Parsed, from: nat, out: Output) returns (failure: Option<PathError>)
    requires from < |parsed.segments| && parsed.segments[from].AnyIndex?
    modifies out
    ensures failure.Some? <==> Fails(JArray(items), parsed.segments[from..], parsed.lengthProjection)
    ensures failure.Some? ==> failure.value == NoSuchField && out.items == old(out.items)
    ensures failure.None? ==>
      out.items == old(out.items) + ValuesOf(Hits(JArray(items), parsed.segments[from..], parsed.lengthProjection))
    decreases |parsed.segments| - from, 0
  {
    ghost var rest := parsed.segments[from + 1..];
    assert parsed.segments[from..][1..] == rest;
    var firstFailure: Option<PathError> := None;
    var before := |out.items|;
    for k := 0 to |items|
      invariant out.items == old(out.items) + ValuesOf(ElementHits(items[..k], rest, parsed.lengthProjection))
      invariant firstFailure.Some? <==> exists j | 0 <= j < k :: Fails(items[j], rest, parsed.lengthProjection)
      invariant firstFailure.Some? ==> firstFailure.value == NoSuchField
    {
      ElementStep(items, k, rest, parsed.lengthProjection);
      var stepped := Walk(items[k], parsed, from + 1, out);
      if stepped.Some? && firstFailure.None? {
        firstFailure := stepped;
      }
    }
    assert items[..|items|] == items;
    ForkFails(items, parsed.segments[from..], parsed.lengthProjection);
    if |out.items| == before && firstFailure.Some? {
      return firstFailure;
    }
    return None;
  }

  /** Appends exactly the values the rest of the path addresses, or fails and appends nothing. */
  method Walk(node: Json, parsed: Parsed, from: nat, out: Output) returns (failure: Option<PathError>)
    requires from <= |parsed.segments|
    modifies out
    ensures failure.Some? <==> Fails(node, parsed.segments[from..], parsed.lengthProjection)
    ensures failure.Some? ==> failure.value == NoSuchField && out.items == old(out.items)
    ensures failure.None? ==>
      out.items == old(out.items) + ValuesOf(Hits(node, parsed.segments[from..], parsed.lengthProjection))
    decreases |parsed.segments| - from, 1
  {
    var current := node;
    var i := from;
    while i < |parsed.segments|
      invariant from <= i <= |parsed.segments| && out.items == old(out.items)
      invariant Hits(node, parsed.segments[from..], parsed.lengthProjection)
        == Hits(current, parsed.segments[i..], parsed.lengthProjection)
      invariant Breaks(node, parsed.segments[from..], parsed.lengthProjection)
        <==> Breaks(current, parsed.segments[i..], parsed.lengthProjection)
      decreases |parsed.segments| - i
    {
      var segment := parsed.segments[i];
      assert parsed.segments[i..][1..] == parsed.segments[i + 1..];
      match segment {
        case Field(name) =>
          if !current.JObject? {
            return Some(NoSuchField);
          }
          if name !in current.members {
            return Some(NoSuchField);
          }
          current := current.members[name];
        case Index(index) =>
          if !current.JArray? {
            return Some(NoSuchField);
          }
          if index >= |current.items| {
            return Some(NoSuchField);
          }
          current := current.items[index];
        case AnyIndex =>
          if !current.JArray? {
            return Some(NoSuchField);
          }
          failure := Fork(current.items, parsed, i, out);
          return failure;
      }
      i := i + 1;
    }
    failure := AppendLeaf(current, parsed, out);
  }

  // ----- resolving a path -----

  ghost function ResolvedAll(document: Json, path: string): Result<seq<Json>, PathError> {
    if path == "" then Success([document])
    else
      var parsed :- Parse(path);
      if Fails(document, parsed.segments, parsed.lengthProjection) then Failure(NoSuchField)
      else Success(ValuesOf(Hits(document, parsed.segments, parsed.lengthProjection)))
  }

  method ResolveAll(document: Json, path: string) returns (values: Result<seq<Json>, PathError>)
    ensures values == ResolvedAll(document, path)
  {
    if path == "" {
      return Success([document]);
    }
    var parsed := ParsePath(path);
    if parsed.Failure? {
      return Failure(parsed.error);
    }
    var out := new Output();
    assert parsed.value.segments[0..] == parsed.value.segments;
    var failure := Walk(document, parsed.value, 0, out);
    if failure.Some? {
      return Failure(failure.value);
    }
    ghost var found := ValuesOf(Hits(document, parsed.value.segments, parsed.value.lengthProjection));
    assert [] + found == found;
    return Success(out.items);
  }

  /** The one value a path addresses, or why there is not exactly one. */
  method ResolvePath(document: Json, path: string) returns (value: Result<Json, PathError>)
    ensures value.Success? <==> ResolvedAll(document, path).Success? && |ResolvedAll(document, path).value| == 1
    ensures value.Success? ==> ResolvedAll(document, path) == Success([value.value])
    ensures value == Failure(Malformed) <==>
      ResolvedAll(document, path) == Failure(Malformed)
      || (ResolvedAll(document, path).Success? && |ResolvedAll(document, path).value| > 1)
  {
    var values := ResolveAll(document, path);
    if values.Failure? {
      return Failure(values.error);
    }
    if values.value == [] {
      return Failure(NoSuchField);
    }
    if |values.value| > 1 {
      return Failure(Malformed);
    }
    assert values.value == [values.value[0]];
    return Success(values.value[0]);
  }

  // ----- what the hits are -----

  /** Index lists compared from the front. */
  predicate IndexLess(a: seq<nat>, b: seq<nat>) {
    a != [] && b != [] && (a[0] < b[0] || (a[0] == b[0] && IndexLess(a[1..], b[1..])))
  }

  ghost predicate Increasing(hits: seq<Hit>) {
    forall i, j | 0 <= i < j < |hits| :: IndexLess(hits[i].indices, hits[j].indices)
  }

  /** The values come in lexicographic order of their indices, so no combination comes twice. */
  lemma {:induction false} HitsIncrease(node: Json, segments: seq<Segment>, lengthProjection: bool)
    ensures Increasing(Hits(node, segments, lengthProjection))
    decreases |segments|, 0
  {
    if segments != [] {
      if segments[0].AnyIndex? {
        if node.JArray? {
          ElementHitsIncrease(node.items, segments[1..], lengthProjection);
        }
      } else {
        var child := Child(node, segments[0]);
        if child.Some? {
          HitsIncrease(child.value, segments[1..], lengthProjection);
        }
      }
    }
  }

  lemma {:induction false} ElementHitsIncrease(items: seq<Json>, rest: seq<Segment>, lengthProjection: bool)
    ensures Increasing(ElementHits(items, rest, lengthProjection))
    ensures forall h | h in ElementHits(items, rest, lengthProjection) :: h.indices != [] && h.indices[0] < |items|
    decreases |rest|, 1, |items|
  {
    if items != [] {
      var k := |items| - 1;
      ElementHitsIncrease(items[..k], rest, lengthProjection);
      HitsIncrease(items[k], rest, lengthProjection);
      var front, last := ElementHits(items[..k], rest, lengthProjection), Hits(items[k], rest, lengthProjection);
      var all := front + Under(k, last);
      forall i, j | 0 <= i < j < |all|
        ensures IndexLess(all[i].indices, all[j].indices)
      {
        if i < |front| <= j {
          assert front[i] in front;
        } else if |front| <= i {
          assert all[i].indices[1..] == last[i - |front|].indices && all[j].indices[1..] == last[j - |front|].indices;
        }
      }
    }
  }

  lemma {:induction false} ElementHitIn(items: seq<Json>, rest: seq<Segment>, lengthProjection: bool, h: Hit)
    ensures h in ElementHits(items, rest, lengthProjection) <==>
      && h.indices != [] && h.indices[0] < |items|
      && Hit(h.indices[1..], h.value) in Hits(items[h.indices[0]], rest, lengthProjection)
    decreases |items|
  {
    if items != [] {
      var k := |items| - 1;
      ElementHitIn(items[..k], rest, lengthProjection, h);
      var last := Hits(items[k], rest, lengthProjection);
      assert h in Under(k, last) <==> h.indices != [] && h.indices[0] == k && Hit(h.indices[1..], h.value) in last by {
        if h.indices != [] && h.indices[0] == k && Hit(h.indices[1..], h.value) in last {
          var i :| 0 <= i < |last| && last[i] == Hit(h.indices[1..], h.value);
          assert h.indices == [k] + last[i].indices;
          assert Under(k, last)[i] == h;
        }
        if h in Under(k, last) {
          var i :| 0 <= i < |last| && Under(k, last)[i] == h;
          assert h.indices[1..] == last[i].indices;
          assert last[i] in last;
        }
      }
    }
  }

  /** A value is found by the walk exactly when it is what the path addresses with every [*] replaced
      by the value's indices. */
  lemma {:induction false} HitIsLookup(node: Json, segments: seq<Segment>, lengthProjection: bool, h: Hit)
    ensures h in Hits(node, segments, lengthProjection) <==>
      && |h.indices| == Wildcards(segments)
      && Lookup(node, Instantiate(segments, h.indices), lengthProjection) == Some(h.value)
    decreases |segments|
  {
    if segments == [] {
      assert h.indices == [] <==> |h.indices| == 0;
    } else if segments[0].AnyIndex? {
      if node.JArray? {
        ElementHitIn(node.items, segments[1..], lengthProjection, h);
        if h.indices != [] && h.indices[0] < |node.items| {
          HitIsLookup(node.items[h.indices[0]], segments[1..], lengthProjection, Hit(h.indices[1..], h.value));
        }
      }
      if |h.indices| == Wildcards(segments) {
        assert Instantiate(segments, h.indices)[1..] == Instantiate(segments[1..], h.indices[1..]);
      }
    } else {
      var child := Child(node, segments[0]);
      if child.Some? {
        HitIsLookup(child.value, segments[1..], lengthProjection, h);
      }
      if |h.indices| == Wildcards(segments) {
        assert Instantiate(segments, h.indices)[1..] == Instantiate(segments[1..], h.indices);
      }
    }
  }

  /** The first k steps, with concrete indices for the [*] among them, lead to a node from which the
      next step, or the final projection, is impossible. */
  ghost predicate StuckAt(node: Json, segments: seq<Segment>, lengthProjection: bool, k: nat, indices: seq<nat>) {
    && k <= |segments| && |indices| == Wildcards(segments[..k])
    && var reached := Descend(node, Instantiate(segments[..k], indices));
       && reached.Some?
       && (if k == |segments| then Leaf(reached.value, lengthProjection).None?
           else if segments[k].AnyIndex? then !reached.value.JArray?
           else Child(reached.value, segments[k]).None?)
  }

  lemma StuckBelow(node: Json, segments: seq<Segment>, lengthProjection: bool, child: Json, k: nat, indices: seq<nat>,
                   taken: seq<nat>)
    requires segments != [] && |taken| == (if segments[0].AnyIndex? then 1 else 0)
    requires Child(node, if segments[0].AnyIndex? then Index(taken[0]) else segments[0]) == Some(child)
    ensures StuckAt(child, segments[1..], lengthProjection, k, indices)
      <==> StuckAt(node, segments, lengthProjection, k + 1, taken + indices)
  {
    if k + 1 <= |segments| {
      assert segments[..k + 1][1..] == segments[1..][..k];
      if |indices| == Wildcards(segments[1..][..k]) {
        if segments[0].AnyIndex? {
          assert (taken + indices)[1..] == indices;
        } else {
          assert taken + indices == indices;
        }
        assert Instantiate(segments[..k + 1], taken + indices)[1..] == Instantiate(segments[1..][..k], indices);
      }
    }
  }

  /** A walk breaks exactly when some concrete branch of it is stuck somewhere. */
  lemma {:induction false} BreaksMeansStuck(node: Json, segments: seq<Segment>, lengthProjection: bool)
    returns (k: nat, indices: seq<nat>)
    requires Breaks(node, segments, lengthProjection)
    ensures StuckAt(node, segments, lengthProjection, k, indices)
    decreases |segments|
  {
    k, indices := 0, [];
    assert segments[..0] == [];
    if segments != [] {
      if segments[0].AnyIndex? {
        if node.JArray? {
          var e :| 0 <= e < |node.items| && Breaks(node.items[e], segments[1..], lengthProjection);
          k, indices := BreaksMeansStuck(node.items[e], segments[1..], lengthProjection);
          StuckBelow(node, segments, lengthProjection, node.items[e], k, indices, [e]);
          k, indices := k + 1, [e] + indices;
        }
      } else if Child(node, segments[0]).Some? {
        var child := Child(node, segments[0]).value;
        k, indices := BreaksMeansStuck(child, segments[1..], lengthProjection);
        StuckBelow(node, segments, lengthProjection, child, k, indices, []);
        assert [] + indices == indices;
        k := k + 1;
      }
    }
  }

  lemma {:induction false} StuckMeansBreaks(node: Json, segments: seq<Segment>, lengthProjection: bool, k: nat,
                                            indices: seq<nat>)
    requires StuckAt(node, segments, lengthProjection, k, indices)
    ensures Breaks(node, segments, lengthProjection)
    decreases |segments|
  {
    if k == 0 {
      assert Instantiate(segments[..0], indices) == [];
    } else {
      var prefix := segments[..k];
      assert prefix[0] == segments[0] && prefix[1..] == segments[1..][..k - 1];
      if segments[0].AnyIndex? {
        var e := indices[0];
        assert Instantiate(prefix, indices)[0] == Index(e);
        assert indices == [e] + indices[1..];
        StuckBelow(node, segments, lengthProjection, node.items[e], k - 1, indices[1..], [e]);
        StuckMeansBreaks(node.items[e], segments[1..], lengthProjection, k - 1, indices[1..]);
      } else {
        assert Instantiate(prefix, indices)[0] == segments[0];
        var child := Child(node, segments[0]).value;
        assert [] + indices == indices;
        StuckBelow(node, segments, lengthProjection, child, k - 1, indices, []);
        StuckMeansBreaks(child, segments[1..], lengthProjection, k - 1, indices);
      }
    }
  }

  /** A well-formed path fails to resolve exactly when no replacement of its [*] addresses a value and
      some branch of it gets stuck. */
  lemma FailsExactlyWhen(document: Json, parsed: Parsed)
    ensures Fails(document, parsed.segments, parsed.lengthProjection) <==>
      && (forall indices | |indices| == Wildcards(parsed.segments) ::
            Lookup(document, Instantiate(parsed.segments, indices), parsed.lengthProjection) == None)
      && (exists k, indices :: StuckAt(document, parsed.segments, parsed.lengthProjection, k, indices))
  {
    var hits := Hits(document, parsed.segments, parsed.lengthProjection);
    if hits == [] {
      forall indices | |indices| == Wildcards(parsed.segments)
        ensures Lookup(document, Instantiate(parsed.segments, indices), parsed.lengthProjection) == None
      {
        var found := Lookup(document, Instantiate(parsed.segments, indices), parsed.lengthProjection);
        if found.Some? {
          HitIsLookup(document, parsed.segments, parsed.lengthProjection, Hit(indices, found.value));
        }
      }
    } else {
      HitIsLookup(document, parsed.segments, parsed.lengthProjection, hits[0]);
    }
    if Breaks(document, parsed.segments, parsed.lengthProjection) {
      var k, indices := BreaksMeansStuck(document, parsed.segments, parsed.lengthProjection);
    }
    forall k, indices | StuckAt(document, parsed.segments, parsed.lengthProjection, k, indices)
      ensures Breaks(document, parsed.segments, parsed.lengthProjection)
    {
      StuckMeansBreaks(document, parsed.segments, parsed.lengthProjection, k, indices);
    }
  }

  /** A path without [*] addresses exactly one value or fails. */
  lemma {:induction false} WithoutWildcards(node: Json, segments: seq<Segment>, lengthProjection: bool)
    requires Wildcards(segments) == 0
    ensures var found := Lookup(node, segments, lengthProjection);
      && (found.Some? ==> Hits(node, segments, lengthProjection) == [Hit([], found.value)])
      && (found.None? <==> Fails(node, segments, lengthProjection))
    decreases |segments|
  {
    if segments != [] && Child(node, segments[0]).Some? {
      WithoutWildcards(Child(node, segments[0]).value, segments[1..], lengthProjection);
    }
  }
}
