/** Object graphs as a program holds them, and the finite trees they stand for. */
module ObjectGraphs {
  import opened JsValues

  /** A value as a program holds it: in place, or a reference to a container. */
  datatype Ref = Leaf(v: Value) | Object(id: nat)
  datatype Pair = Pair(key: Ref, val: Ref)
  datatype Member = Member(name: string, val: Ref)
  datatype Node =
    | MapNode(pairs: seq<Pair>) | SetNode(items: seq<Ref>) | ArrayNode(items: seq<Ref>)
    | PlainNode(members: seq<Member>)

  type Graph = seq<Node>

  predicate RefOk(g: Graph, r: Ref) {
    match r
    case Leaf(v) => !IsContainer(v)
    case Object(id) => id < |g|
  }

  predicate NodeOk(g: Graph, n: Node) {
    match n
    case MapNode(pairs) => forall i :: 0 <= i < |pairs| ==> RefOk(g, pairs[i].key) && RefOk(g, pairs[i].val)
    case SetNode(items) => forall i :: 0 <= i < |items| ==> RefOk(g, items[i])
    case ArrayNode(items) => forall i :: 0 <= i < |items| ==> RefOk(g, items[i])
    case PlainNode(members) => forall i :: 0 <= i < |members| ==> RefOk(g, members[i].val)
  }

  /** No reference dangles. */
  predicate Closed(g: Graph) {
    forall i :: 0 <= i < |g| ==> NodeOk(g, g[i])
  }

  predicate RefsOk(g: Graph, items: seq<Ref>) {
    forall i :: 0 <= i < |items| ==> RefOk(g, items[i])
  }

  predicate PairsOk(g: Graph, pairs: seq<Pair>) {
    forall i :: 0 <= i < |pairs| ==> RefOk(g, pairs[i].key) && RefOk(g, pairs[i].val)
  }

  predicate MembersOk(g: Graph, members: seq<Member>) {
    forall i :: 0 <= i < |members| ==> RefOk(g, members[i].val)
  }

  function Names(members: seq<Member>): (r: seq<string>)
    ensures |r| == |members| && forall i :: 0 <= i < |r| ==> r[i] == members[i].name
  {
    if members == [] then [] else [members[0].name] + Names(members[1..])
  }

  /** `record[key]` for one of the record's own keys. */
  function MemberOf(members: seq<Member>, name: string): (m: Member)
    requires name in Names(members)
    ensures m in members && m.name == name
  {
    if members[0].name == name then members[0]
    else
      assert name in Names(members[1..]);
      MemberOf(members[1..], name)
  }

  // ----- Graphs as trees

  /** Following references from `r` spells out the finite tree `v`; members with a blank name are not followed. */
  predicate Unfolds(g: Graph, blank: set<string>, r: Ref, v: Value)
    decreases v
  {
    match r
    case Leaf(w) => v == w && !IsContainer(w)
    case Object(id) =>
      id < |g| &&
      match g[id]
      case MapNode(pairs) =>
        v.MapObject? && |pairs| == |v.entries| &&
        forall i :: 0 <= i < |pairs| ==> UnfoldsEntry(g, blank, pairs[i], v.entries[i])
      case SetNode(items) =>
        v.SetObject? && |items| == |v.items| && forall i :: 0 <= i < |items| ==> Unfolds(g, blank, items[i], v.items[i])
      case ArrayNode(items) =>
        v.ArrayObject? && |items| == |v.elements| &&
        forall i :: 0 <= i < |items| ==> Unfolds(g, blank, items[i], v.elements[i])
      case PlainNode(members) =>
        v.Plain? && |members| == |v.props| &&
        forall i :: 0 <= i < |members| ==> UnfoldsProp(g, blank, members[i], v.props[i])
  }

  predicate UnfoldsEntry(g: Graph, blank: set<string>, p: Pair, e: MapEntry)
    decreases e
  {
    Unfolds(g, blank, p.key, e.key) && Unfolds(g, blank, p.val, e.val)
  }

  predicate UnfoldsProp(g: Graph, blank: set<string>, m: Member, p: Prop)
    decreases p
  {
    m.name == p.name && if m.name in blank then p.val == Null else Unfolds(g, blank, m.val, p.val)
  }

  lemma {:induction false} UnfoldsUnique(g: Graph, blank: set<string>, r: Ref, v: Value, w: Value)
    requires Unfolds(g, blank, r, v) && Unfolds(g, blank, r, w)
    ensures v == w
    decreases v
  {
    match r
    case Leaf(_) =>
    case Object(id) =>
      match g[id]
      case MapNode(pairs) =>
        forall i | 0 <= i < |pairs| ensures v.entries[i] == w.entries[i] {
          assert UnfoldsEntry(g, blank, pairs[i], v.entries[i]) && UnfoldsEntry(g, blank, pairs[i], w.entries[i]);
          UnfoldsUnique(g, blank, pairs[i].key, v.entries[i].key, w.entries[i].key);
          UnfoldsUnique(g, blank, pairs[i].val, v.entries[i].val, w.entries[i].val);
        }
      case SetNode(items) =>
        forall i | 0 <= i < |items| ensures v.items[i] == w.items[i] {
          UnfoldsUnique(g, blank, items[i], v.items[i], w.items[i]);
        }
      case ArrayNode(items) =>
        forall i | 0 <= i < |items| ensures v.elements[i] == w.elements[i] {
          UnfoldsUnique(g, blank, items[i], v.elements[i], w.elements[i]);
        }
      case PlainNode(members) =>
        forall i | 0 <= i < |members| ensures v.props[i] == w.props[i] {
          assert UnfoldsProp(g, blank, members[i], v.props[i]) && UnfoldsProp(g, blank, members[i], w.props[i]);
          if members[i].name !in blank { UnfoldsUnique(g, blank, members[i].val, v.props[i].val, w.props[i].val); }
        }
  }

  // ----- Height

  function Max(a: nat, b: nat): nat {
    if a < b then b else a
  }

  function Height(v: Value): nat {
    match v
    case MapObject(entries) => 1 + EntriesHeight(entries)
    case SetObject(items) => 1 + ItemsHeight(items)
    case ArrayObject(elements) => 1 + ItemsHeight(elements)
    case Plain(props) => 1 + PropsHeight(props)
    case _ => 0
  }

  function ItemsHeight(items: seq<Value>): (h: nat)
    ensures forall i :: 0 <= i < |items| ==> Height(items[i]) <= h
  {
    if items == [] then 0
    else
      var h := Max(Height(items[0]), ItemsHeight(items[1..]));
      assert forall i :: 0 < i < |items| ==> items[i] == items[1..][i - 1];
      h
  }

  function EntryHeight(e: MapEntry): nat {
    Max(Height(e.key), Height(e.val))
  }

  function EntriesHeight(entries: seq<MapEntry>): (h: nat)
    ensures forall i :: 0 <= i < |entries| ==> EntryHeight(entries[i]) <= h
  {
    if entries == [] then 0
    else
      var h := Max(EntryHeight(entries[0]), EntriesHeight(entries[1..]));
      assert forall i :: 0 < i < |entries| ==> entries[i] == entries[1..][i - 1];
      h
  }

  function PropHeight(p: Prop): nat {
    Height(p.val)
  }

  function PropsHeight(props: seq<Prop>): (h: nat)
    ensures forall i :: 0 <= i < |props| ==> PropHeight(props[i]) <= h
  {
    if props == [] then 0
    else
      var h := Max(PropHeight(props[0]), PropsHeight(props[1..]));
      assert forall i :: 0 < i < |props| ==> props[i] == props[1..][i - 1];
      h
  }

  /** The object unfolds to nothing of height `h` or less. */
  ghost predicate Above(g: Graph, blank: set<string>, id: nat, h: nat) {
    forall w :: Unfolds(g, blank, Object(id), w) ==> Height(w) > h
  }

  lemma {:induction false} MemberFound(g: Graph, blank: set<string>, members: seq<Member>, props: seq<Prop>, n: string)
    requires |members| == |props| && forall i :: 0 <= i < |members| ==> UnfoldsProp(g, blank, members[i], props[i])
    requires n in Names(members)
    ensures HasName(props, n) && UnfoldsProp(g, blank, MemberOf(members, n), props[IndexOfName(props, n)])
  {
    hide Unfolds;
    assert UnfoldsProp(g, blank, members[0], props[0]);
    if members[0].name == n {
      assert props[0].name == n;
    } else {
      assert n in Names(members[1..]);
      MemberFound(g, blank, members[1..], props[1..], n);
      var k := IndexOfName(props[1..], n);
      assert props[k + 1].name == n;
    }
  }
}
