/**
 * Encoding an object graph: the objects being written are remembered, so that a cycle is rejected, while an
 * object that is merely shared is written wherever it occurs.
 */
module SerializerGraphs {
  import opened Wrappers
  import opened Sorting
  import opened JsValues
  import opened ObjectGraphs
  import opened Serializer
  import opened SerializerProofs

  function Below(n: nat): (s: set<nat>)
    ensures forall i :: i in s <==> 0 <= i < n
  {
    if n == 0 then {} else Below(n - 1) + {n - 1}
  }

  function Ids(g: Graph): set<nat> {
    Below(|g|)
  }

  // ----- The walk as a function of the objects being written

  function JsonOf(g: Graph, seen: set<nat>, r: Ref): Result<Json, Failure>
    requires Closed(g) && RefOk(g, r)
    decreases Ids(g) - seen, 1, 0
  {
    match r
    case Leaf(v) => AtomJson(v)
    case Object(id) => if id in seen then Err(Circular) else NodeJson(g, seen + {id}, g[id])
  }

  function NodeJson(g: Graph, seen: set<nat>, n: Node): Result<Json, Failure>
    requires Closed(g) && NodeOk(g, n)
    decreases Ids(g) - seen, 4, 0
  {
    match n
    case MapNode(pairs) => BoxedList("map", PairsJson(g, seen, pairs))
    case SetNode(items) => BoxedList("set", RefsJson(g, seen, items))
    case ArrayNode(items) =>
      (match RefsJson(g, seen, items)
       case Err(e) => Err(e)
       case Ok(list) => Ok(JArr(list)))
    case PlainNode(members) =>
      SortPermutes(Names(members));
      PlainJson(NamedJson(g, seen, members, Sort(Names(members))))
  }

  function RefsJson(g: Graph, seen: set<nat>, items: seq<Ref>): Result<seq<Json>, Failure>
    requires Closed(g) && RefsOk(g, items)
    decreases Ids(g) - seen, 3, |items|
  {
    if items == [] then Ok([]) else Cons(JsonOf(g, seen, items[0]), RefsJson(g, seen, items[1..]))
  }

  function PairsJson(g: Graph, seen: set<nat>, pairs: seq<Pair>): Result<seq<Json>, Failure>
    requires Closed(g) && PairsOk(g, pairs)
    decreases Ids(g) - seen, 3, |pairs|
  {
    if pairs == [] then Ok([])
    else Cons(PairJson(JsonOf(g, seen, pairs[0].key), JsonOf(g, seen, pairs[0].val)), PairsJson(g, seen, pairs[1..]))
  }

  function NamedJson(g: Graph, seen: set<nat>, members: seq<Member>, names: seq<string>): Result<seq<JMember>, Failure>
    requires Closed(g) && MembersOk(g, members)
    requires forall n :: n in names ==> n in Names(members)
    decreases Ids(g) - seen, 3, |names|
  {
    if names == [] then Ok([])
    else
      var rest := NamedJson(g, seen, members, names[1..]);
      var m := MemberOf(members, names[0]);
      if Unread(m) then rest else Named(m.name, JsonOf(g, seen, m.val), rest)
  }

  predicate Unread(m: Member) {
    m.name == TAG || m.val == Leaf(Undefined)
  }

  lemma NamedStep(g: Graph, seen: set<nat>, members: seq<Member>, names: seq<string>, i: nat, out: seq<JMember>)
    requires Closed(g) && MembersOk(g, members) && i < |names| && forall n :: n in names ==> n in Names(members)
    ensures var m := MemberOf(members, names[i]);
            var rest := NamedJson(g, seen, members, names[i + 1..]);
            Prepend(out, NamedJson(g, seen, members, names[i..])) ==
            if Unread(m) then Prepend(out, rest)
            else match JsonOf(g, seen, m.val)
              case Err(e) => Err(e)
              case Ok(j) => if m.name == PROTO then Prepend(out, rest) else Prepend(out + [JMember(m.name, j)], rest)
  {
    hide JsonOf;
    assert names[i..][1..] == names[i + 1..];
    var m := MemberOf(members, names[i]);
    if !Unread(m) && JsonOf(g, seen, m.val).Ok? {
      PrependStep(out, Ok(JMember(m.name, JsonOf(g, seen, m.val).value)), NamedJson(g, seen, members, names[i + 1..]));
    }
  }

  lemma NamedEnd(g: Graph, seen: set<nat>, members: seq<Member>)
    requires Closed(g) && MembersOk(g, members)
    ensures NamedJson(g, seen, members, []) == Ok([])
  {
  }

  // ----- The walk as the code runs it

  class JsonWriter {
    const graph: Graph
    var seen: set<nat>

    constructor (g: Graph)
      ensures graph == g && seen == {}
    {
      graph := g;
      seen := {};
    }

    method ToJsonSafe(r: Ref) returns (res: Result<Json, Failure>)
      requires Closed(graph) && RefOk(graph, r)
      modifies this
      ensures seen == old(seen)
      ensures res == JsonOf(graph, seen, r)
      decreases Ids(graph) - seen, 1
    {
      match r
      case Leaf(v) =>
        res := AtomJson(v);
      case Object(id) =>
        if id in seen {
          return Err(Circular);
        }
        ghost var before := seen;
        seen := seen + {id};
        res := WriteObject(graph[id]);
        seen := seen - {id};
        assert seen == before;
    }

    method WriteObject(n: Node) returns (res: Result<Json, Failure>)
      requires Closed(graph) && NodeOk(graph, n)
      modifies this
      ensures seen == old(seen)
      ensures res == NodeJson(graph, seen, n)
      decreases Ids(graph) - seen, 4
    {
      hide PairsJson, RefsJson, NamedJson, Sort;
      match n
      case MapNode(pairs) =>
        var entries := WritePairs(pairs);
        res := BoxedList("map", entries);
      case SetNode(items) =>
        var list := WriteAll(items);
        res := BoxedList("set", list);
      case ArrayNode(items) =>
        var list := WriteAll(items);
        res := if list.Err? then Err(list.error) else Ok(JArr(list.value));
      case PlainNode(members) =>
        var out := SerializePlainObject(members);
        res := PlainJson(out);
    }

    method WriteAll(items: seq<Ref>) returns (res: Result<seq<Json>, Failure>)
      requires Closed(graph) && RefsOk(graph, items)
      modifies this
      ensures seen == old(seen)
      ensures res == RefsJson(graph, seen, items)
      decreases Ids(graph) - seen, 3
    {
      hide JsonOf;
      var out, i := [], 0;
      assert items[0..] == items;
      PrependNothing([], RefsJson(graph, seen, items));
      while i < |items|
        invariant i <= |items| && seen == old(seen)
        invariant RefsJson(graph, seen, items) == Prepend(out, RefsJson(graph, seen, items[i..]))
      {
        var item := ToJsonSafe(items[i]);
        assert items[i..][1..] == items[i + 1..];
        PrependStep(out, item, RefsJson(graph, seen, items[i + 1..]));
        if item.Err? {
          return Err(item.error);
        }
        out := out + [item.value];
        i := i + 1;
      }
      PrependNothing<Json, Failure>(out, Ok([]));
      res := Ok(out);
    }

    method WritePairs(pairs: seq<Pair>) returns (res: Result<seq<Json>, Failure>)
      requires Closed(graph) && PairsOk(graph, pairs)
      modifies this
      ensures seen == old(seen)
      ensures res == PairsJson(graph, seen, pairs)
      decreases Ids(graph) - seen, 3
    {
      hide JsonOf;
      var out, i := [], 0;
      assert pairs[0..] == pairs;
      PrependNothing([], PairsJson(graph, seen, pairs));
      while i < |pairs|
        invariant i <= |pairs| && seen == old(seen)
        invariant PairsJson(graph, seen, pairs) == Prepend(out, PairsJson(graph, seen, pairs[i..]))
      {
        assert pairs[i..][1..] == pairs[i + 1..];
        PrependStep(out, PairJson(JsonOf(graph, seen, pairs[i].key), JsonOf(graph, seen, pairs[i].val)),
            PairsJson(graph, seen, pairs[i + 1..]));
        var key := ToJsonSafe(pairs[i].key);
        if key.Err? {
          return Err(key.error);
        }
        var val := ToJsonSafe(pairs[i].val);
        if val.Err? {
          return Err(val.error);
        }
        out := out + [JArr([key.value, val.value])];
        i := i + 1;
      }
      PrependNothing<Json, Failure>(out, Ok([]));
      res := Ok(out);
    }

    method SerializePlainObject(members: seq<Member>) returns (res: Result<seq<JMember>, Failure>)
      requires Closed(graph) && MembersOk(graph, members)
      modifies this
      ensures seen == old(seen)
      ensures forall n :: n in Sort(Names(members)) ==> n in Names(members)
      ensures res == NamedJson(graph, seen, members, Sort(Names(members)))
      decreases Ids(graph) - seen, 3
    {
      hide JsonOf, Sort, NamedJson;
      SortPermutes(Names(members));
      var keys := Sort(Names(members));
      var out, i := [], 0;
      assert keys[0..] == keys;
      PrependNothing([], NamedJson(graph, seen, members, keys));
      while i < |keys|
        invariant i <= |keys| && seen == old(seen)
        invariant NamedJson(graph, seen, members, keys) == Prepend(out, NamedJson(graph, seen, members, keys[i..]))
      {
        var m := MemberOf(members, keys[i]);
        NamedStep(graph, seen, members, keys, i, out);
        if m.name != TAG && m.val != Leaf(Undefined) {
          var json := ToJsonSafe(m.val);
          if json.Err? {
            return Err(json.error);
          }
          if m.name != PROTO {
            out := out + [JMember(m.name, json.value)];
          }
        }
        i := i + 1;
      }
      assert keys[i..] == [];
      NamedEnd(graph, seen, members);
      PrependNothing<JMember, Failure>(out, Ok([]));
      res := Ok(out);
    }
  }

  // ----- Trees and cycles

  ghost predicate PathAbove(g: Graph, seen: set<nat>, h: nat) {
    forall id :: id in seen ==> Above(g, {TAG}, id, h)
  }

  lemma PathGrows(g: Graph, seen: set<nat>, id: nat, v: Value, h: nat)
    requires PathAbove(g, seen, Height(v)) && Unfolds(g, {TAG}, Object(id), v) && h < Height(v)
    ensures PathAbove(g, seen + {id}, h)
  {
    hide Unfolds, Height;
    forall w | Unfolds(g, {TAG}, Object(id), w) ensures Height(w) > h {
      UnfoldsUnique(g, {TAG}, Object(id), v, w);
    }
    assert Above(g, {TAG}, id, h);
    forall x | x in seen + {id} ensures Above(g, {TAG}, x, h) {
      if x in seen { assert Above(g, {TAG}, x, Height(v)); }
    }
  }

  lemma PathShrinks(g: Graph, seen: set<nat>, h: nat, h': nat)
    requires PathAbove(g, seen, h) && h' <= h
    ensures PathAbove(g, seen, h')
  {
    hide Unfolds;
    forall id | id in seen ensures Above(g, {TAG}, id, h') {
      assert Above(g, {TAG}, id, h);
    }
  }

  /** The walk over a graph that stands for a tree encodes the tree, shared objects and all. */
  lemma {:induction false} EncodesTree(g: Graph, seen: set<nat>, r: Ref, v: Value)
    requires Closed(g) && RefOk(g, r) && Unfolds(g, {TAG}, r, v) && PathAbove(g, seen, Height(v))
    ensures JsonOf(g, seen, r) == ToJson(v)
    decreases v, 2
  {
    match r
    case Leaf(_) =>
    case Object(id) =>
      hide ToJson, NodeJson;
      NotBeingWritten(g, seen, id, v);
      PathGrows(g, seen, id, v, Height(v) - 1);
      EncodesNode(g, seen + {id}, id, v);
  }

  lemma NotBeingWritten(g: Graph, seen: set<nat>, id: nat, v: Value)
    requires PathAbove(g, seen, Height(v)) && Unfolds(g, {TAG}, Object(id), v)
    ensures id !in seen && Height(v) > 0
  {
    forall x | x in seen ensures x != id { assert Above(g, {TAG}, x, Height(v)); }
  }

  lemma {:induction false} EncodesNode(g: Graph, seen: set<nat>, id: nat, v: Value)
    requires Closed(g) && id < |g| && Unfolds(g, {TAG}, Object(id), v) && Height(v) > 0
             && PathAbove(g, seen, Height(v) - 1)
    ensures NodeOk(g, g[id]) && NodeJson(g, seen, g[id]) == ToJson(v)
    decreases v, 1
  {
    hide PairsJson, RefsJson, NamedJson, ItemsJson, EntriesJson, MembersJson, ItemsHeight, EntriesHeight, PropsHeight,
        PathAbove, Sort;
    assert NodeOk(g, g[id]);
    match g[id]
    case MapNode(pairs) => EncodesEntries(g, seen, pairs, v.entries);
    case SetNode(items) => EncodesItems(g, seen, items, v.items);
    case ArrayNode(items) => EncodesItems(g, seen, items, v.elements);
    case PlainNode(members) => EncodesProps(g, seen, members, v.props);
  }

  lemma {:induction false} EncodesItems(g: Graph, seen: set<nat>, items: seq<Ref>, vs: seq<Value>)
    requires Closed(g) && RefsOk(g, items) && |items| == |vs| && PathAbove(g, seen, ItemsHeight(vs))
    requires forall i :: 0 <= i < |vs| ==> Unfolds(g, {TAG}, items[i], vs[i])
    ensures RefsJson(g, seen, items) == ItemsJson(vs)
    decreases vs, 0
  {
    hide JsonOf, ToJson, Unfolds, Height, PathAbove;
    if vs != [] {
      PathShrinks(g, seen, ItemsHeight(vs), Height(vs[0]));
      EncodesTree(g, seen, items[0], vs[0]);
      PathShrinks(g, seen, ItemsHeight(vs), ItemsHeight(vs[1..]));
      EncodesItems(g, seen, items[1..], vs[1..]);
    }
  }

  lemma {:induction false} EncodesEntry(g: Graph, seen: set<nat>, p: Pair, e: MapEntry)
    requires Closed(g) && RefOk(g, p.key) && RefOk(g, p.val) && UnfoldsEntry(g, {TAG}, p, e)
             && PathAbove(g, seen, EntryHeight(e))
    ensures PairJson(JsonOf(g, seen, p.key), JsonOf(g, seen, p.val)) == EntryJson(e)
    decreases e, 0
  {
    hide JsonOf, ToJson, Unfolds, Height, PathAbove;
    PathShrinks(g, seen, EntryHeight(e), Height(e.key));
    PathShrinks(g, seen, EntryHeight(e), Height(e.val));
    EncodesTree(g, seen, p.key, e.key);
    EncodesTree(g, seen, p.val, e.val);
  }

  lemma {:induction false} EncodesEntries(g: Graph, seen: set<nat>, pairs: seq<Pair>, es: seq<MapEntry>)
    requires Closed(g) && PairsOk(g, pairs) && |pairs| == |es| && PathAbove(g, seen, EntriesHeight(es))
    requires forall i :: 0 <= i < |es| ==> UnfoldsEntry(g, {TAG}, pairs[i], es[i])
    ensures PairsJson(g, seen, pairs) == EntriesJson(es)
    decreases es, 0
  {
    hide JsonOf, EntryJson, PairJson, UnfoldsEntry, EntryHeight, PathAbove;
    if es != [] {
      PathShrinks(g, seen, EntriesHeight(es), EntryHeight(es[0]));
      EncodesEntry(g, seen, pairs[0], es[0]);
      PathShrinks(g, seen, EntriesHeight(es), EntriesHeight(es[1..]));
      EncodesEntries(g, seen, pairs[1..], es[1..]);
    }
  }

  predicate UnfoldsProps(g: Graph, members: seq<Member>, props: seq<Prop>) {
    |members| == |props| && forall i :: 0 <= i < |props| ==> UnfoldsProp(g, {TAG}, members[i], props[i])
  }

  lemma {:induction false} EncodesProps(g: Graph, seen: set<nat>, members: seq<Member>, props: seq<Prop>)
    requires Closed(g) && MembersOk(g, members) && UnfoldsProps(g, members, props)
             && PathAbove(g, seen, PropsHeight(props))
    ensures Sort(Names(members)) == Sort(PropNames(props))
    ensures forall n :: n in Sort(Names(members)) ==> n in Names(members)
    ensures forall n :: n in Sort(PropNames(props)) ==> HasName(props, n)
    ensures NamedJson(g, seen, members, Sort(Names(members))) == MembersJson(props, Sort(PropNames(props)))
    decreases props, 2
  {
    hide Sort, NamedJson, MembersJson, PathAbove, Unfolds;
    SortPermutes(Names(members));
    assert Names(members) == PropNames(props) by {
      forall i | 0 <= i < |props| ensures Names(members)[i] == PropNames(props)[i] {
        assert UnfoldsProp(g, {TAG}, members[i], props[i]);
      }
    }
    EncodesNamed(g, seen, members, props, Sort(Names(members)));
  }

  lemma {:induction false} EncodesNamed(g: Graph, seen: set<nat>, members: seq<Member>, props: seq<Prop>,
      names: seq<string>)
    requires Closed(g) && MembersOk(g, members) && UnfoldsProps(g, members, props)
             && PathAbove(g, seen, PropsHeight(props))
    requires forall n :: n in names ==> n in Names(members)
    ensures forall n :: n in names ==> HasName(props, n)
    ensures NamedJson(g, seen, members, names) == MembersJson(props, names)
    decreases props, 1, |names|
  {
    hide JsonOf, PropJson, PathAbove, UnfoldsProp, HasName, IndexOfName, PropHeight;
    forall n | n in names ensures HasName(props, n) { MemberFound(g, {TAG}, members, props, n); }
    if names != [] {
      EncodesNamed(g, seen, members, props, names[1..]);
      EncodesMember(g, seen, members, props, names[0]);
    }
  }

  lemma {:induction false} EncodesMember(g: Graph, seen: set<nat>, members: seq<Member>, props: seq<Prop>, n: string)
    requires Closed(g) && MembersOk(g, members) && UnfoldsProps(g, members, props)
             && PathAbove(g, seen, PropsHeight(props))
    requires n in Names(members)
    ensures var m := MemberOf(members, n);
            HasName(props, n) && RefOk(g, m.val) &&
            var p := props[IndexOfName(props, n)];
            p.name == n && (Skipped(p) <==> m.name == TAG || m.val == Leaf(Undefined))
            && (!Skipped(p) ==> JsonOf(g, seen, m.val) == PropJson(p))
    decreases props, 0
  {
    hide JsonOf, ToJson, PathAbove, PropHeight;
    MemberFound(g, {TAG}, members, props, n);
    var m, p := MemberOf(members, n), props[IndexOfName(props, n)];
    var i :| 0 <= i < |members| && members[i] == m;
    if !Skipped(p) {
      PathShrinks(g, seen, PropsHeight(props), PropHeight(p));
      EncodesProp(g, seen, m, p);
    }
  }

  lemma {:induction false} EncodesProp(g: Graph, seen: set<nat>, m: Member, p: Prop)
    requires Closed(g) && RefOk(g, m.val) && UnfoldsProp(g, {TAG}, m, p) && p.name != TAG
             && PathAbove(g, seen, PropHeight(p))
    ensures JsonOf(g, seen, m.val) == PropJson(p)
    decreases p, 0
  {
    hide JsonOf, ToJson, Unfolds, Height, PathAbove;
    EncodesTree(g, seen, m.val, p.val);
  }

  // ----- What is accepted is a tree

  predicate NamesDiffer(members: seq<Member>) {
    forall i, j :: 0 <= i < j < |members| ==> members[i].name != members[j].name
  }

  /** Member names are different in every object. */
  predicate ProperNames(g: Graph) {
    forall i :: 0 <= i < |g| && g[i].PlainNode? ==> NamesDiffer(g[i].members)
  }

  /** Whatever is encoded without error unfolds to a tree. */
  lemma {:induction false} Untangle(g: Graph, seen: set<nat>, r: Ref) returns (v: Value)
    requires Closed(g) && ProperNames(g) && RefOk(g, r) && JsonOf(g, seen, r).Ok?
    ensures Unfolds(g, {TAG}, r, v)
    decreases Ids(g) - seen, 1
  {
    match r
    case Leaf(w) => v := w;
    case Object(id) =>
      v := UntangleNode(g, seen + {id}, id);
  }

  lemma {:induction false} UntangleNode(g: Graph, seen: set<nat>, id: nat) returns (v: Value)
    requires Closed(g) && ProperNames(g) && id < |g| && NodeOk(g, g[id]) && NodeJson(g, seen, g[id]).Ok?
    ensures Unfolds(g, {TAG}, Object(id), v)
    decreases Ids(g) - seen, 4
  {
    hide PairsJson, RefsJson, NamedJson, Sort, JsonOf;
    match g[id]
    case MapNode(pairs) =>
      var es := UntanglePairs(g, seen, pairs);
      v := MapObject(es);
    case SetNode(items) =>
      var vs := UntangleAll(g, seen, items);
      v := SetObject(vs);
    case ArrayNode(items) =>
      var vs := UntangleAll(g, seen, items);
      v := ArrayObject(vs);
    case PlainNode(members) =>
      SortPermutes(Names(members));
      NamedOk(g, seen, members, Sort(Names(members)));
      forall i | 0 <= i < |members| ensures Readable(g, seen, members[i]) {
        assert Names(members)[i] == members[i].name;
        MemberIs(members, i);
      }
      var ps := UntangleMembers(g, seen, members);
      v := Plain(ps);
  }

  lemma {:induction false} UntangleAll(g: Graph, seen: set<nat>, items: seq<Ref>) returns (vs: seq<Value>)
    requires Closed(g) && ProperNames(g) && RefsOk(g, items) && RefsJson(g, seen, items).Ok?
    ensures |vs| == |items| && forall i :: 0 <= i < |vs| ==> Unfolds(g, {TAG}, items[i], vs[i])
    decreases Ids(g) - seen, 3, |items|
  {
    hide JsonOf, Unfolds;
    vs := [];
    if items != [] {
      var v := Untangle(g, seen, items[0]);
      var rest := UntangleAll(g, seen, items[1..]);
      vs := [v] + rest;
    }
  }

  lemma {:induction false} UntanglePairs(g: Graph, seen: set<nat>, pairs: seq<Pair>) returns (es: seq<MapEntry>)
    requires Closed(g) && ProperNames(g) && PairsOk(g, pairs) && PairsJson(g, seen, pairs).Ok?
    ensures |es| == |pairs| && forall i :: 0 <= i < |es| ==> UnfoldsEntry(g, {TAG}, pairs[i], es[i])
    decreases Ids(g) - seen, 3, |pairs|
  {
    hide JsonOf, Unfolds;
    es := [];
    if pairs != [] {
      var k := Untangle(g, seen, pairs[0].key);
      var v := Untangle(g, seen, pairs[0].val);
      var rest := UntanglePairs(g, seen, pairs[1..]);
      es := [MapEntry(k, v)] + rest;
    }
  }

  /** A member that is not looked at, or that encodes without error. */
  predicate Readable(g: Graph, seen: set<nat>, m: Member)
    requires Closed(g)
  {
    RefOk(g, m.val) && (m.name == TAG || m.val == Leaf(Undefined) || JsonOf(g, seen, m.val).Ok?)
  }

  lemma {:induction false} NamedOk(g: Graph, seen: set<nat>, members: seq<Member>, names: seq<string>)
    requires Closed(g) && MembersOk(g, members) && (forall n :: n in names ==> n in Names(members))
    requires NamedJson(g, seen, members, names).Ok?
    ensures forall n :: n in names ==> Readable(g, seen, MemberOf(members, n))
    decreases |names|
  {
    hide JsonOf;
    if names != [] {
      NamedOk(g, seen, members, names[1..]);
      assert names == [names[0]] + names[1..];
      var m := MemberOf(members, names[0]);
      var i :| 0 <= i < |members| && members[i] == m;
    }
  }

  lemma {:induction false} MemberIs(members: seq<Member>, i: nat)
    requires NamesDiffer(members) && i < |members|
    ensures members[i].name in Names(members) && MemberOf(members, members[i].name) == members[i]
  {
    assert Names(members)[i] == members[i].name;
    if i > 0 {
      assert members[0].name != members[i].name;
      MemberIs(members[1..], i - 1);
    }
  }

  lemma {:induction false} UntangleMembers(g: Graph, seen: set<nat>, members: seq<Member>) returns (ps: seq<Prop>)
    requires Closed(g) && ProperNames(g) && forall i :: 0 <= i < |members| ==> Readable(g, seen, members[i])
    ensures |ps| == |members| && forall i :: 0 <= i < |ps| ==> UnfoldsProp(g, {TAG}, members[i], ps[i])
    decreases Ids(g) - seen, 3, |members|
  {
    hide JsonOf;
    ps := [];
    if members != [] {
      var m := members[0];
      var v := Null;
      assert Readable(g, seen, m);
      if m.name != TAG {
        if m.val == Leaf(Undefined) { v := Undefined; } else { v := Untangle(g, seen, m.val); }
      }
      var rest := UntangleMembers(g, seen, members[1..]);
      ps := [Prop(m.name, v)] + rest;
    }
  }

  /**
   * A value is accepted exactly when it stands for a finite tree of supported values, however many objects are
   * shared; members under the tag key are not followed. A cycle in the rest is always rejected.
   */
  lemma AcceptedIffTree(g: Graph, r: Ref)
    requires Closed(g) && ProperNames(g) && RefOk(g, r)
    ensures JsonOf(g, {}, r).Ok? <==> exists v :: Unfolds(g, {TAG}, r, v) && ToJson(v).Ok?
    ensures forall v :: Unfolds(g, {TAG}, r, v) ==> JsonOf(g, {}, r) == ToJson(v)
  {
    hide JsonOf, ToJson, Unfolds, Height;
    forall v | Unfolds(g, {TAG}, r, v) ensures JsonOf(g, {}, r) == ToJson(v) { EncodesTree(g, {}, r, v); }
    if JsonOf(g, {}, r).Ok? {
      var v := Untangle(g, {}, r);
      assert Unfolds(g, {TAG}, r, v);
    }
  }

  /** A value is reported as circular only when no tree describes it. */
  lemma CircularIsNoTree(g: Graph, r: Ref, v: Value)
    requires Closed(g) && RefOk(g, r) && JsonOf(g, {}, r) == Err(Circular) && Sound(v)
    ensures !Unfolds(g, {TAG}, r, v)
  {
    hide JsonOf, ToJson, Unfolds, Height;
    if Unfolds(g, {TAG}, r, v) {
      EncodesTree(g, {}, r, v);
      EncodesIffSupported(v);
    }
  }
}
