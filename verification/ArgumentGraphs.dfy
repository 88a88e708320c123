/**
 * `canonicalize` on an object graph: a walk that keeps the enclosing objects on a stack, writes a reference
 * back to one of them as a distance, and rejects deep nesting and values that have no stable key.
 */
module ArgumentGraphs {
  import opened Wrappers
  import opened Decimal
  import opened Sorting
  import opened JsValues
  import opened ObjectGraphs
  import opened Canonical

  datatype KeyError = TooDeep | Unsupported

  predicate Rejected(v: Value) {
    v.Symbol? || v.Function? || v.ErrorObject? || v.Instance?
  }

  // ----- The walk as a function of the stack

  function LastIndexOf(stack: seq<nat>, id: nat): (i: nat)
    requires id in stack
    ensures i < |stack| && stack[i] == id && id !in stack[i + 1..]
  {
    if stack[|stack| - 1] == id then |stack| - 1
    else
      var i := LastIndexOf(stack[..|stack| - 1], id);
      assert stack[i + 1..] == stack[..|stack| - 1][i + 1..] + [stack[|stack| - 1]];
      i
  }

  /** An empty container of the kind of a node. */
  function Kind(n: Node): (v: Value)
    ensures IsContainer(v)
  {
    match n
    case MapNode(_) => MapObject([])
    case SetNode(_) => SetObject([])
    case ArrayNode(_) => ArrayObject([])
    case PlainNode(_) => Plain([])
  }

  function Encoded(g: Graph, stack: seq<nat>, r: Ref, depth: nat): Result<string, KeyError>
    requires Closed(g) && RefOk(g, r) && depth <= MAX_DEPTH + 1
    decreases MAX_DEPTH + 1 - depth, 2, 0
  {
    if depth > MAX_DEPTH then Err(TooDeep)
    else match r
      case Leaf(v) => if Rejected(v) then Err(Unsupported) else Ok(TextOf(v))
      case Object(id) =>
        if id in stack then Ok("c:" + NatToString(|stack| - LastIndexOf(stack, id)))
        else EncodedNode(g, stack + [id], g[id], depth)
  }

  function EncodedNode(g: Graph, stack: seq<nat>, n: Node, depth: nat): Result<string, KeyError>
    requires Closed(g) && NodeOk(g, n) && depth <= MAX_DEPTH
    decreases MAX_DEPTH + 1 - depth, 1, 0
  {
    match EncodedParts(g, stack, n, depth)
    case Err(e) => Err(e)
    case Ok(parts) => Ok(Wrapped(Kind(n), if n.MapNode? || n.SetNode? then Sort(parts) else parts))
  }

  function EncodedParts(g: Graph, stack: seq<nat>, n: Node, depth: nat): Result<seq<string>, KeyError>
    requires Closed(g) && NodeOk(g, n) && depth <= MAX_DEPTH
    decreases MAX_DEPTH + 1 - depth, 0, 1
  {
    match n
    case MapNode(pairs) => EncodedPairs(g, stack, pairs, depth + 1)
    case SetNode(items) => EncodedAll(g, stack, items, depth + 1)
    case ArrayNode(items) => EncodedAll(g, stack, items, depth + 1)
    case PlainNode(members) =>
      SortPermutes(Names(members));
      EncodedMembers(g, stack, members, Sort(Names(members)), depth + 1)
  }

  function EncodedAll(g: Graph, stack: seq<nat>, items: seq<Ref>, depth: nat): Result<seq<string>, KeyError>
    requires Closed(g) && RefsOk(g, items) && depth <= MAX_DEPTH + 1
    decreases MAX_DEPTH + 1 - depth, 3, |items|
  {
    if items == [] then Ok([])
    else Cons(Encoded(g, stack, items[0], depth), EncodedAll(g, stack, items[1..], depth))
  }

  function EncodedPair(g: Graph, stack: seq<nat>, p: Pair, depth: nat): Result<string, KeyError>
    requires Closed(g) && RefOk(g, p.key) && RefOk(g, p.val) && depth <= MAX_DEPTH + 1
    decreases MAX_DEPTH + 1 - depth, 2, 1
  {
    var k := Encoded(g, stack, p.key, depth);
    var v := Encoded(g, stack, p.val, depth);
    if k.Err? then k else if v.Err? then v else Ok(k.value + "=" + v.value)
  }

  function EncodedPairs(g: Graph, stack: seq<nat>, pairs: seq<Pair>, depth: nat): Result<seq<string>, KeyError>
    requires Closed(g) && PairsOk(g, pairs) && depth <= MAX_DEPTH + 1
    decreases MAX_DEPTH + 1 - depth, 3, |pairs|
  {
    if pairs == [] then Ok([])
    else Cons(EncodedPair(g, stack, pairs[0], depth), EncodedPairs(g, stack, pairs[1..], depth))
  }

  /** The members in the given order of names, skipping those that are `undefined`. */
  function EncodedMembers(g: Graph, stack: seq<nat>, members: seq<Member>, names: seq<string>,
      depth: nat): Result<seq<string>, KeyError>
    requires Closed(g) && MembersOk(g, members) && depth <= MAX_DEPTH + 1
    requires forall n :: n in names ==> n in Names(members)
    decreases MAX_DEPTH + 1 - depth, 3, |names|
  {
    if names == [] then Ok([])
    else
      var rest := EncodedMembers(g, stack, members, names[1..], depth);
      var m := MemberOf(members, names[0]);
      if m.val == Leaf(Undefined) then rest else Cons(EncodedMember(g, stack, m, depth), rest)
  }

  function EncodedMember(g: Graph, stack: seq<nat>, m: Member, depth: nat): Result<string, KeyError>
    requires Closed(g) && RefOk(g, m.val) && depth <= MAX_DEPTH + 1
    decreases MAX_DEPTH + 1 - depth, 2, 1
  {
    match Encoded(g, stack, m.val, depth)
    case Err(e) => Err(e)
    case Ok(t) => Ok(m.name + "=" + t)
  }

  // ----- The walk as the code runs it

  class Encoder {
    const graph: Graph
    var stack: seq<nat>

    constructor (g: Graph)
      ensures graph == g && stack == []
    {
      graph := g;
      stack := [];
    }

    method Canonicalize(r: Ref) returns (res: Result<string, KeyError>)
      requires Closed(graph) && RefOk(graph, r) && stack == []
      modifies this
      ensures stack == []
      ensures res == Encoded(graph, [], r, 0)
    {
      res := Encode(r, 0);
    }

    method Encode(r: Ref, depth: nat) returns (res: Result<string, KeyError>)
      requires Closed(graph) && RefOk(graph, r) && depth <= MAX_DEPTH + 1
      modifies this
      ensures stack == old(stack)
      ensures res == Encoded(graph, stack, r, depth)
      decreases MAX_DEPTH + 1 - depth, 2
    {
      hide TextOf, EncodedNode;
      if depth > MAX_DEPTH {
        return Err(TooDeep);
      }
      match r
      case Leaf(v) =>
        res := if Rejected(v) then Err(Unsupported) else Ok(TextOf(v));
      case Object(id) =>
        if id in stack {
          return Ok("c:" + NatToString(|stack| - LastIndexOf(stack, id)));
        }
        stack := stack + [id];
        res := EncodeObject(graph[id], depth);
        stack := stack[..|stack| - 1];
    }

    method EncodeObject(n: Node, depth: nat) returns (res: Result<string, KeyError>)
      requires Closed(graph) && NodeOk(graph, n) && depth <= MAX_DEPTH
      modifies this
      ensures stack == old(stack)
      ensures res == EncodedNode(graph, stack, n, depth)
      decreases MAX_DEPTH + 1 - depth, 1
    {
      hide TextOf, Wrapped, Encoded;
      var parts: Result<seq<string>, KeyError>;
      match n
      case MapNode(pairs) =>
        parts := EncodePairs(pairs, depth + 1);
        res := if parts.Err? then Err(parts.error) else Ok(Wrapped(Kind(n), Sort(parts.value)));
      case SetNode(items) =>
        parts := EncodeAll(items, depth + 1);
        res := if parts.Err? then Err(parts.error) else Ok(Wrapped(Kind(n), Sort(parts.value)));
      case ArrayNode(items) =>
        parts := EncodeAll(items, depth + 1);
        res := if parts.Err? then Err(parts.error) else Ok(Wrapped(Kind(n), parts.value));
      case PlainNode(members) =>
        parts := EncodeMembers(members, depth + 1);
        res := if parts.Err? then Err(parts.error) else Ok(Wrapped(Kind(n), parts.value));
    }

    method EncodeAll(items: seq<Ref>, depth: nat) returns (res: Result<seq<string>, KeyError>)
      requires Closed(graph) && RefsOk(graph, items) && depth <= MAX_DEPTH + 1
      modifies this
      ensures stack == old(stack)
      ensures res == EncodedAll(graph, stack, items, depth)
      decreases MAX_DEPTH + 1 - depth, 3
    {
      hide TextOf, Encoded;
      var parts, i := [], 0;
      assert items[0..] == items;
      PrependNothing([], EncodedAll(graph, stack, items, depth));
      while i < |items|
        invariant i <= |items| && stack == old(stack)
        invariant EncodedAll(graph, stack, items, depth) == Prepend(parts, EncodedAll(graph, stack, items[i..], depth))
      {
        var item := Encode(items[i], depth);
        assert items[i..][1..] == items[i + 1..];
        PrependStep(parts, item, EncodedAll(graph, stack, items[i + 1..], depth));
        if item.Err? {
          return Err(item.error);
        }
        parts := parts + [item.value];
        i := i + 1;
      }
      PrependNothing<string, KeyError>(parts, Ok([]));
      res := Ok(parts);
    }

    method EncodePairs(pairs: seq<Pair>, depth: nat) returns (res: Result<seq<string>, KeyError>)
      requires Closed(graph) && PairsOk(graph, pairs) && depth <= MAX_DEPTH + 1
      modifies this
      ensures stack == old(stack)
      ensures res == EncodedPairs(graph, stack, pairs, depth)
      decreases MAX_DEPTH + 1 - depth, 3
    {
      hide TextOf, Encoded;
      var parts, i := [], 0;
      assert pairs[0..] == pairs;
      PrependNothing([], EncodedPairs(graph, stack, pairs, depth));
      while i < |pairs|
        invariant i <= |pairs| && stack == old(stack)
        invariant EncodedPairs(graph, stack, pairs, depth)
                  == Prepend(parts, EncodedPairs(graph, stack, pairs[i..], depth))
      {
        var key := Encode(pairs[i].key, depth);
        assert pairs[i..][1..] == pairs[i + 1..];
        PrependStep(parts, EncodedPair(graph, stack, pairs[i], depth),
            EncodedPairs(graph, stack, pairs[i + 1..], depth));
        if key.Err? {
          return Err(key.error);
        }
        var val := Encode(pairs[i].val, depth);
        if val.Err? {
          return Err(val.error);
        }
        parts := parts + [key.value + "=" + val.value];
        i := i + 1;
      }
      PrependNothing<string, KeyError>(parts, Ok([]));
      res := Ok(parts);
    }

    method EncodeMembers(members: seq<Member>, depth: nat) returns (res: Result<seq<string>, KeyError>)
      requires Closed(graph) && MembersOk(graph, members) && depth <= MAX_DEPTH + 1
      modifies this
      ensures stack == old(stack)
      ensures forall n :: n in Sort(Names(members)) ==> n in Names(members)
      ensures res == EncodedMembers(graph, stack, members, Sort(Names(members)), depth)
      decreases MAX_DEPTH + 1 - depth, 3
    {
      hide TextOf, Encoded, Sort;
      SortPermutes(Names(members));
      var keys := Sort(Names(members));
      var parts, i := [], 0;
      assert keys[0..] == keys;
      PrependNothing([], EncodedMembers(graph, stack, members, keys, depth));
      while i < |keys|
        invariant i <= |keys| && stack == old(stack)
        invariant EncodedMembers(graph, stack, members, keys, depth)
                  == Prepend(parts, EncodedMembers(graph, stack, members, keys[i..], depth))
      {
        var m := MemberOf(members, keys[i]);
        assert keys[i..][1..] == keys[i + 1..];
        if m.val != Leaf(Undefined) {
          var t := Encode(m.val, depth);
          PrependStep(parts, EncodedMember(graph, stack, m, depth),
              EncodedMembers(graph, stack, members, keys[i + 1..], depth));
          if t.Err? {
            return Err(t.error);
          }
          parts := parts + [m.name + "=" + t.value];
        }
        i := i + 1;
      }
      PrependNothing<string, KeyError>(parts, Ok([]));
      res := Ok(parts);
    }
  }
}
