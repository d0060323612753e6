/** A JSON document as a tree, and the typed reads `at(...).get<T>()` that fail on a missing
    member or a value of another type. Text parsing and dumping are not part of this model. */
module Json {
  import opened Base

  datatype Json =
    | JNull
    | JBool(flag: bool)
    | JInt(number: int)
    | JReal(fraction: real)
    | JString(text: string)
    | JArray(items: seq<Json>)
    | JObject(members: map<string, Json>)

  /** Why a typed read failed. */
  datatype ReadError = MissingMember | WrongType | UnknownName | MissingRunId | MissingTargets

  function At(j: Json, key: string): Result<Json, ReadError> {
    if !j.JObject? then Failure(WrongType)
    else if key !in j.members then Failure(MissingMember)
    else Success(j.members[key])
  }

  function AsString(j: Json): Result<string, ReadError> {
    if j.JString? then Success(j.text) else Failure(WrongType)
  }

  function AsBool(j: Json): Result<bool, ReadError> {
    if j.JBool? then Success(j.flag) else Failure(WrongType)
  }

  function AsArray(j: Json): Result<seq<Json>, ReadError> {
    if j.JArray? then Success(j.items) else Failure(WrongType)
  }

  function StringAt(j: Json, key: string): Result<string, ReadError> {
    var member :- At(j, key);
    AsString(member)
  }

  function BoolAt(j: Json, key: string): Result<bool, ReadError> {
    var member :- At(j, key);
    AsBool(member)
  }

  type int32 = x: int | -0x8000_0000 <= x < 0x8000_0000
  type int64 = x: int | -0x8000_0000_0000_0000 <= x < 0x8000_0000_0000_0000
  type uint32 = x: int | 0 <= x < 0x1_0000_0000
  type uint64 = x: int | 0 <= x < 0x1_0000_0000_0000_0000

  // A stored integer read into a fixed-width field wraps.

  function ToInt32(n: int): int32 {
    (n + 0x8000_0000) % 0x1_0000_0000 - 0x8000_0000
  }

  function ToInt64(n: int): int64 {
    (n + 0x8000_0000_0000_0000) % 0x1_0000_0000_0000_0000 - 0x8000_0000_0000_0000
  }

  function ToUint32(n: int): uint32 {
    n % 0x1_0000_0000
  }

  function ToUint64(n: int): uint64 {
    n % 0x1_0000_0000_0000_0000
  }

  function Int32At(j: Json, key: string): Result<int32, ReadError> {
    var member :- At(j, key);
    if member.JInt? then Success(ToInt32(member.number)) else Failure(WrongType)
  }

  function Int64At(j: Json, key: string): Result<int64, ReadError> {
    var member :- At(j, key);
    if member.JInt? then Success(ToInt64(member.number)) else Failure(WrongType)
  }

  function Uint32At(j: Json, key: string): Result<uint32, ReadError> {
    var member :- At(j, key);
    if member.JInt? then Success(ToUint32(member.number)) else Failure(WrongType)
  }

  function Uint64At(j: Json, key: string): Result<uint64, ReadError> {
    var member :- At(j, key);
    if member.JInt? then Success(ToUint64(member.number)) else Failure(WrongType)
  }

  // ----- arrays are read element by element, stopping at the first that fails -----

  function Traverse<A, B, E>(read: A -> Result<B, E>, items: seq<A>): Result<seq<B>, E> {
    if items == [] then Success([])
    else
      var front :- Traverse(read, items[..|items| - 1]);
      var last :- read(items[|items| - 1]);
      Success(front + [last])
  }

  lemma {:induction false} TraverseSucceeds<A, B, E>(read: A -> Result<B, E>, items: seq<A>, values: seq<B>)
    requires |items| == |values|
    requires forall i | 0 <= i < |items| :: read(items[i]) == Success(values[i])
    ensures Traverse(read, items) == Success(values)
  {
    if items != [] {
      TraverseSucceeds(read, items[..|items| - 1], values[..|values| - 1]);
      assert values == values[..|values| - 1] + [values[|values| - 1]];
    }
  }

  lemma {:induction false} TraverseFails<A, B, E>(read: A -> Result<B, E>, items: seq<A>, k: nat)
    requires k < |items|
    requires Traverse(read, items[..k]).Success? && read(items[k]).Failure?
    ensures Traverse(read, items) == Failure(read(items[k]).error)
  {
    var front := items[..|items| - 1];
    if k < |front| {
      assert front[..k] == items[..k];
      TraverseFails(read, front, k);
    }
  }

  lemma {:induction false} TraverseFailsSomewhere<A, B, E>(read: A -> Result<B, E>, items: seq<A>, k: nat)
    requires k < |items| && read(items[k]).Failure?
    ensures Traverse(read, items).Failure?
  {
    if k < |items| - 1 {
      TraverseFailsSomewhere(read, items[..|items| - 1], k);
    }
  }

  /** The loop that fills a vector while reading an array. */
  method ReadAll<A, B, E>(read: A -> Result<B, E>, items: seq<A>) returns (r: Result<seq<B>, E>)
    ensures r == Traverse(read, items)
  {
    var values: seq<B> := [];
    for i := 0 to |items|
      invariant Traverse(read, items[..i]) == Success(values)
    {
      assert items[..i + 1][..i] == items[..i];
      var value := read(items[i]);
      if value.Failure? {
        TraverseFails(read, items, i);
        return Failure(value.error);
      }
      values := values + [value.value];
    }
    assert items[..|items|] == items;
    return Success(values);
  }
}
