/**
 * The walk over an argument graph computes the canonical text of the tree the graph unfolds to: it succeeds
 * exactly when the tree is keyable, and sharing of objects does not show.
 */
module ArgumentTrees {
  import opened Wrappers
  import opened Decimal
  import opened Sorting
  import opened Strings
  import opened JsValues
  import opened Canonical
  import opened ObjectGraphs
  import opened ArgumentGraphs
  import E = CanonicalEquality
  import P = CanonicalProofs

  // ----- What can be keyed

  /** Nothing rejected inside, and no member that is looked at sits deeper than the limit. */
  predicate Keyable(v: Value, depth: nat)
    decreases v
  {
    depth <= MAX_DEPTH && !Rejected(v) &&
    match v
    case MapObject(entries) => forall i :: 0 <= i < |entries| ==> KeyableEntry(entries[i], depth + 1)
    case SetObject(items) => forall i :: 0 <= i < |items| ==> Keyable(items[i], depth + 1)
    case ArrayObject(elements) => forall i :: 0 <= i < |elements| ==> Keyable(elements[i], depth + 1)
    case Plain(props) => forall i :: 0 <= i < |props| ==> KeyableProp(props[i], depth + 1)
    case _ => true
  }

  predicate KeyableEntry(e: MapEntry, depth: nat)
    decreases e
  {
    Keyable(e.key, depth) && Keyable(e.val, depth)
  }

  /** A member that is `undefined` is skipped before its depth is looked at. */
  predicate KeyableProp(p: Prop, depth: nat)
    decreases p
  {
    p.val == Undefined || Keyable(p.val, depth)
  }

  // ----- The walk and the tree

  ghost predicate PathAbove(g: Graph, stack: seq<nat>, h: nat) {
    forall i :: 0 <= i < |stack| ==> Above(g, {}, stack[i], h)
  }

  lemma PathGrows(g: Graph, stack: seq<nat>, id: nat, v: Value, h: nat)
    requires PathAbove(g, stack, Height(v)) && Unfolds(g, {}, Object(id), v) && h < Height(v)
    ensures PathAbove(g, stack + [id], h)
  {
    hide Unfolds, Height;
    forall w | Unfolds(g, {}, Object(id), w) ensures Height(w) > h {
      UnfoldsUnique(g, {}, Object(id), v, w);
    }
    var path := stack + [id];
    forall i | 0 <= i < |path| ensures Above(g, {}, path[i], h) {
      if i < |stack| {
        assert Above(g, {}, stack[i], Height(v));
      }
    }
  }

  lemma PathShrinks(g: Graph, stack: seq<nat>, h: nat, h': nat)
    requires PathAbove(g, stack, h) && h' <= h
    ensures PathAbove(g, stack, h')
  {
    forall i | 0 <= i < |stack| ensures Above(g, {}, stack[i], h') {
      assert Above(g, {}, stack[i], h);
    }
  }

  /** What the walk returns for a tree: its text when it is keyable, an error when not. */
  predicate Reads(res: Result<string, KeyError>, keyable: bool, text: string) {
    if keyable then res == Ok(text) else res.Err?
  }

  predicate ReadsAll(res: Result<seq<string>, KeyError>, keyable: bool, texts: seq<string>) {
    if keyable then res == Ok(texts) else res.Err?
  }

  lemma {:induction false} EncodesTree(g: Graph, stack: seq<nat>, r: Ref, v: Value, depth: nat)
    requires Closed(g) && RefOk(g, r) && depth <= MAX_DEPTH + 1
    requires Unfolds(g, {}, r, v) && E.WellFormed(v) && PathAbove(g, stack, Height(v))
    ensures Reads(Encoded(g, stack, r, depth), Keyable(v, depth), TextOf(v))
    decreases v, 3
  {
    if depth <= MAX_DEPTH && r.Object? {
      hide TextOf, E.WellFormed, EncodedNode;
      NotOnPath(g, stack, r.id, v);
      EncodesNode(g, stack, r.id, v, depth);
    }
  }

  lemma NotOnPath(g: Graph, stack: seq<nat>, id: nat, v: Value)
    requires PathAbove(g, stack, Height(v)) && Unfolds(g, {}, Object(id), v)
    ensures id !in stack
  {
    forall i | 0 <= i < |stack| ensures stack[i] != id {
      assert Above(g, {}, stack[i], Height(v));
    }
  }

  /** The texts of the parts before sets and maps sort them. */
  function RawParts(v: Value): seq<string>
    requires IsContainer(v)
  {
    match v
    case MapObject(entries) => EntryTexts(entries)
    case SetObject(items) => Texts(items)
    case _ => P.Parts(v)
  }

  lemma {:induction false} EncodesNode(g: Graph, stack: seq<nat>, id: nat, v: Value, depth: nat)
    requires Closed(g) && id < |g| && depth <= MAX_DEPTH
    requires Unfolds(g, {}, Object(id), v) && E.WellFormed(v) && PathAbove(g, stack, Height(v))
    ensures Reads(EncodedNode(g, stack + [id], g[id], depth), Keyable(v, depth), TextOf(v))
    decreases v, 2
  {
    hide TextOf, PathAbove, Sort, Join, NatToString, EncodedParts, Keyable, E.WellFormed;
    PathGrows(g, stack, id, v, Height(v) - 1);
    EncodesParts(g, stack + [id], g[id], id, v, depth);
    P.ContainerText(v);
    assert P.Parts(v) == if v.MapObject? || v.SetObject? then Sort(RawParts(v)) else RawParts(v);
  }

  lemma {:induction false} EncodesParts(g: Graph, path: seq<nat>, n: Node, id: nat, v: Value, depth: nat)
    requires Closed(g) && id < |g| && depth <= MAX_DEPTH && n == g[id] && NodeOk(g, n)
    requires Unfolds(g, {}, Object(id), v) && E.WellFormed(v) && Height(v) > 0 && PathAbove(g, path, Height(v) - 1)
    ensures IsContainer(v) && ReadsAll(EncodedParts(g, path, n, depth), Keyable(v, depth), RawParts(v))
    decreases v, 1
  {
    hide Unfolds, E.WellFormed, Height, PathAbove, EncodedParts, Keyable, RawParts, ReadsAll, Closed;
    match n
    case MapNode(_) => EncodesMap(g, path, id, v, depth);
    case SetNode(_) => EncodesSet(g, path, id, v, depth);
    case ArrayNode(_) => EncodesArray(g, path, id, v, depth);
    case PlainNode(_) => EncodesPlain(g, path, id, v, depth);
  }

  lemma {:induction false} EncodesMap(g: Graph, path: seq<nat>, id: nat, v: Value, depth: nat)
    requires Closed(g) && id < |g| && depth <= MAX_DEPTH && g[id].MapNode? && NodeOk(g, g[id])
    requires Unfolds(g, {}, Object(id), v) && E.WellFormed(v) && Height(v) > 0 && PathAbove(g, path, Height(v) - 1)
    ensures v.MapObject? && ReadsAll(EncodedParts(g, path, g[id], depth), Keyable(v, depth), RawParts(v))
    decreases v, 0
  {
    hide TextOf, PathAbove, Sort, Texts, EntryTexts, EncodedAll, EncodedPairs, EncodedMembers, PropTexts, ItemsHeight,
        EntriesHeight, PropsHeight, Kept;
    EncodesEntries(g, path, g[id].pairs, v.entries, depth + 1);
  }

  lemma {:induction false} EncodesSet(g: Graph, path: seq<nat>, id: nat, v: Value, depth: nat)
    requires Closed(g) && id < |g| && depth <= MAX_DEPTH && g[id].SetNode? && NodeOk(g, g[id])
    requires Unfolds(g, {}, Object(id), v) && E.WellFormed(v) && Height(v) > 0 && PathAbove(g, path, Height(v) - 1)
    ensures v.SetObject? && ReadsAll(EncodedParts(g, path, g[id], depth), Keyable(v, depth), RawParts(v))
    decreases v, 0
  {
    hide TextOf, PathAbove, Sort, Texts, EntryTexts, EncodedAll, EncodedPairs, EncodedMembers, PropTexts, ItemsHeight,
        EntriesHeight, PropsHeight, Kept;
    EncodesItems(g, path, g[id].items, v.items, depth + 1);
  }

  lemma {:induction false} EncodesArray(g: Graph, path: seq<nat>, id: nat, v: Value, depth: nat)
    requires Closed(g) && id < |g| && depth <= MAX_DEPTH && g[id].ArrayNode? && NodeOk(g, g[id])
    requires Unfolds(g, {}, Object(id), v) && E.WellFormed(v) && Height(v) > 0 && PathAbove(g, path, Height(v) - 1)
    ensures v.ArrayObject? && ReadsAll(EncodedParts(g, path, g[id], depth), Keyable(v, depth), RawParts(v))
    decreases v, 0
  {
    hide TextOf, PathAbove, Sort, Texts, EntryTexts, EncodedAll, EncodedPairs, EncodedMembers, PropTexts, ItemsHeight,
        EntriesHeight, PropsHeight, Kept;
    EncodesItems(g, path, g[id].items, v.elements, depth + 1);
  }

  lemma {:induction false} EncodesPlain(g: Graph, path: seq<nat>, id: nat, v: Value, depth: nat)
    requires Closed(g) && id < |g| && depth <= MAX_DEPTH && g[id].PlainNode? && NodeOk(g, g[id])
    requires Unfolds(g, {}, Object(id), v) && E.WellFormed(v) && Height(v) > 0 && PathAbove(g, path, Height(v) - 1)
    ensures v.Plain? && ReadsAll(EncodedParts(g, path, g[id], depth), Keyable(v, depth), RawParts(v))
    decreases v, 0
  {
    hide TextOf, PathAbove, Sort, EncodedMembers, PropTexts, PropsHeight, Kept, Unfolds, E.WellFormed, PropsReady,
        KeyableProp;
    PlainReady(g, id, v);
    EncodesProps(g, path, g[id].members, v.props, depth + 1);
  }

  lemma PlainReady(g: Graph, id: nat, v: Value)
    requires id < |g| && g[id].PlainNode? && NodeOk(g, g[id])
    requires Unfolds(g, {}, Object(id), v) && E.WellFormed(v)
    ensures v.Plain? && PropsReady(g, g[id].members, v.props)
  {
    hide UnfoldsProp, E.WellFormedProp, DistinctNames;
  }

  lemma {:induction false} EncodesItems(g: Graph, stack: seq<nat>, items: seq<Ref>, vs: seq<Value>, depth: nat)
    requires Closed(g) && RefsOk(g, items) && depth <= MAX_DEPTH + 1 && |items| == |vs|
    requires forall i :: 0 <= i < |vs| ==> Unfolds(g, {}, items[i], vs[i]) && E.WellFormed(vs[i])
    requires PathAbove(g, stack, ItemsHeight(vs))
    ensures ReadsAll(EncodedAll(g, stack, items, depth), forall i :: 0 <= i < |vs| ==> Keyable(vs[i], depth), Texts(vs))
    decreases vs, 0
  {
    hide TextOf, Encoded, Unfolds, E.WellFormed, Keyable, Height, PathAbove;
    if vs != [] {
      PathShrinks(g, stack, ItemsHeight(vs), Height(vs[0]));
      EncodesTree(g, stack, items[0], vs[0], depth);
      PathShrinks(g, stack, ItemsHeight(vs), ItemsHeight(vs[1..]));
      EncodesItems(g, stack, items[1..], vs[1..], depth);
      assert (forall i :: 0 <= i < |vs| ==> Keyable(vs[i], depth))
        <==> Keyable(vs[0], depth) && forall i :: 0 <= i < |vs[1..]| ==> Keyable(vs[1..][i], depth) by {
        assert forall i :: 0 < i < |vs| ==> vs[i] == vs[1..][i - 1];
      }
    }
  }

  lemma {:induction false} EncodesEntry(g: Graph, stack: seq<nat>, p: Pair, e: MapEntry, depth: nat)
    requires Closed(g) && RefOk(g, p.key) && RefOk(g, p.val) && depth <= MAX_DEPTH + 1
    requires UnfoldsEntry(g, {}, p, e) && E.WellFormedEntry(e) && PathAbove(g, stack, EntryHeight(e))
    ensures Reads(EncodedPair(g, stack, p, depth), KeyableEntry(e, depth), EntryText(e))
    decreases e, 0
  {
    hide TextOf, Encoded, Unfolds, Keyable, Height, PathAbove, E.WellFormed;
    PathShrinks(g, stack, EntryHeight(e), Height(e.key));
    PathShrinks(g, stack, EntryHeight(e), Height(e.val));
    EncodesTree(g, stack, p.key, e.key, depth);
    EncodesTree(g, stack, p.val, e.val, depth);
  }

  lemma {:induction false} EncodesEntries(g: Graph, stack: seq<nat>, pairs: seq<Pair>, es: seq<MapEntry>, depth: nat)
    requires Closed(g) && PairsOk(g, pairs) && depth <= MAX_DEPTH + 1 && |pairs| == |es|
    requires forall i :: 0 <= i < |es| ==> UnfoldsEntry(g, {}, pairs[i], es[i]) && E.WellFormedEntry(es[i])
    requires PathAbove(g, stack, EntriesHeight(es))
    ensures ReadsAll(EncodedPairs(g, stack, pairs, depth),
            forall i :: 0 <= i < |es| ==> KeyableEntry(es[i], depth), EntryTexts(es))
    decreases es, 0
  {
    hide EncodedPair, EntryText, UnfoldsEntry, E.WellFormedEntry, KeyableEntry, EntryHeight, PathAbove;
    if es != [] {
      PathShrinks(g, stack, EntriesHeight(es), EntryHeight(es[0]));
      EncodesEntry(g, stack, pairs[0], es[0], depth);
      PathShrinks(g, stack, EntriesHeight(es), EntriesHeight(es[1..]));
      EncodesEntries(g, stack, pairs[1..], es[1..], depth);
      assert (forall i :: 0 <= i < |es| ==> KeyableEntry(es[i], depth))
        <==> KeyableEntry(es[0], depth) && forall i :: 0 <= i < |es[1..]| ==> KeyableEntry(es[1..][i], depth) by {
        assert forall i :: 0 < i < |es| ==> es[i] == es[1..][i - 1];
      }
    }
  }

  // ----- Members of plain objects

  /** Names of members other than `undefined`, in the given order. */
  function Filter(props: seq<Prop>, names: seq<string>): (r: seq<string>)
    ensures forall n :: n in r ==> n in names && n in Kept(props)
  {
    if names == [] then [] else (if names[0] in Kept(props) then [names[0]] else []) + Filter(props, names[1..])
  }

  lemma {:induction false} FilterBag(props: seq<Prop>, names: seq<string>, n: string)
    ensures multiset(Filter(props, names))[n] == if n in Kept(props) then multiset(names)[n] else 0
  {
    hide Kept;
    if names != [] {
      FilterBag(props, names[1..], n);
      assert names == [names[0]] + names[1..];
    }
  }

  lemma {:induction false} FilterSorted(props: seq<Prop>, names: seq<string>)
    requires IsSorted(names)
    ensures IsSorted(Filter(props, names))
  {
    hide Kept, Le;
    if names != [] {
      FilterSorted(props, names[1..]);
      var rest := Filter(props, names[1..]);
      if names[0] in Kept(props) {
        if rest != [] {
          assert rest[0] in names[1..] && rest[0] in names;
          HeadIsLeast(names, rest[0]);
        }
        assert ([names[0]] + rest)[1..] == rest;
      } else {
        assert [] + rest == rest;
      }
    }
  }

  lemma {:induction false} NamesOnce(members: seq<Member>, props: seq<Prop>, n: string)
    requires |members| == |props| && forall i :: 0 <= i < |members| ==> members[i].name == props[i].name
    requires DistinctNames(props)
    ensures multiset(Names(members))[n] == if n in Names(members) then 1 else 0
  {
    if members != [] {
      NamesOnce(members[1..], props[1..], n);
      var rest := Names(members[1..]);
      assert Names(members) == [members[0].name] + rest;
      forall i | 0 <= i < |members[1..]| ensures members[1..][i].name != members[0].name {
        assert members[1..][i].name == props[i + 1].name != props[0].name;
      }
      assert members[0].name !in rest;
    }
  }

  /** Dropping `undefined` members before or after sorting is the same. */
  lemma FilterOfSorted(members: seq<Member>, props: seq<Prop>)
    requires |members| == |props| && forall i :: 0 <= i < |members| ==> members[i].name == props[i].name
    requires DistinctNames(props)
    ensures Filter(props, Sort(Names(members))) == Sort(Kept(props))
  {
    hide Kept, Sort, Filter, Names, DistinctNames;
    var names := Sort(Names(members));
    SortPermutes(Names(members));
    SortSorts(Names(members));
    SortPermutes(Kept(props));
    SortSorts(Kept(props));
    FilterSorted(props, names);
    forall n ensures multiset(Filter(props, names))[n] == multiset(Kept(props))[n] {
      FilterBag(props, names, n);
      NamesOnce(members, props, n);
      E.KeptOnce(props, n);
      if n in Kept(props) { KeptIsNamed(members, props, n); }
    }
    assert multiset(Filter(props, names)) == multiset(Sort(Kept(props)));
    SortedUnique(Filter(props, names), Sort(Kept(props)));
  }

  lemma KeptIsNamed(members: seq<Member>, props: seq<Prop>, n: string)
    requires |members| == |props| && forall i :: 0 <= i < |members| ==> members[i].name == props[i].name
    requires n in Kept(props)
    ensures n in Names(members)
  {
    var i :| 0 <= i < |props| && props[i].name == n;
    assert Names(members)[i] == n;
  }

  predicate PropsReady(g: Graph, members: seq<Member>, props: seq<Prop>) {
    |members| == |props| && MembersOk(g, members)
    && (forall i :: 0 <= i < |props| ==> UnfoldsProp(g, {}, members[i], props[i]))
    && (forall i :: 0 <= i < |props| ==> E.WellFormedProp(props[i]))
    && DistinctNames(props)
  }

  predicate NamedKeyable(props: seq<Prop>, names: seq<string>, depth: nat)
    requires forall n :: n in names ==> HasName(props, n)
  {
    forall n :: n in names ==> KeyableProp(props[IndexOfName(props, n)], depth)
  }

  lemma {:induction false} EncodesProp(g: Graph, stack: seq<nat>, m: Member, p: Prop, depth: nat)
    requires Closed(g) && RefOk(g, m.val) && depth <= MAX_DEPTH + 1
    requires UnfoldsProp(g, {}, m, p) && E.WellFormedProp(p) && PathAbove(g, stack, PropHeight(p)) && p.val != Undefined
    ensures Reads(EncodedMember(g, stack, m, depth), KeyableProp(p, depth), PropText(p))
    decreases p, 0
  {
    hide TextOf, Encoded, Unfolds, Keyable, Height, PathAbove, E.WellFormed;
    EncodesTree(g, stack, m.val, p.val, depth);
  }

  lemma {:induction false} EncodesNamed(g: Graph, stack: seq<nat>, members: seq<Member>, props: seq<Prop>,
      names: seq<string>, depth: nat)
    requires Closed(g) && depth <= MAX_DEPTH + 1 && PropsReady(g, members, props)
    requires PathAbove(g, stack, PropsHeight(props))
    requires forall n :: n in names ==> n in Names(members)
    ensures forall n :: n in names ==> HasName(props, n)
    ensures forall n :: n in Filter(props, names) ==> HasName(props, n)
    ensures ReadsAll(EncodedMembers(g, stack, members, names, depth), NamedKeyable(props, names, depth),
            PropTexts(props, Filter(props, names)))
    decreases props, 1, |names|
  {
    hide TextOf, Encoded, UnfoldsProp, KeyableProp, PropHeight, PathAbove, EncodedMember, PropText, Kept,
        E.WellFormedProp, HasName, IndexOfName, DistinctNames;
    forall n | n in names ensures HasName(props, n) { MemberFound(g, {}, members, props, n); }
    if names != [] {
      EncodesNamed(g, stack, members, props, names[1..], depth);
      FirstKeyable(props, names, depth);
      FirstMember(g, stack, members, props, names[0], depth);
      var rest := Filter(props, names[1..]);
      if names[0] in Kept(props) {
        TakeText(props, names[0], rest);
      } else {
        assert [] + rest == rest;
      }
    }
  }

  lemma FirstKeyable(props: seq<Prop>, names: seq<string>, depth: nat)
    requires names != [] && forall n :: n in names ==> HasName(props, n)
    ensures NamedKeyable(props, names, depth)
      <==> KeyableProp(props[IndexOfName(props, names[0])], depth) && NamedKeyable(props, names[1..], depth)
  {
    hide KeyableProp;
    assert names == [names[0]] + names[1..];
  }

  lemma TakeText(props: seq<Prop>, n: string, rest: seq<string>)
    requires HasName(props, n) && forall x :: x in rest ==> HasName(props, x)
    ensures PropTexts(props, [n] + rest) == [PropText(props[IndexOfName(props, n)])] + PropTexts(props, rest)
  {
    hide PropText;
    assert ([n] + rest)[1..] == rest;
  }

  lemma {:induction false} FirstMember(g: Graph, stack: seq<nat>, members: seq<Member>, props: seq<Prop>, n: string,
      depth: nat)
    requires Closed(g) && depth <= MAX_DEPTH + 1 && PropsReady(g, members, props)
    requires PathAbove(g, stack, PropsHeight(props))
    requires n in Names(members) && HasName(props, n)
    ensures RefOk(g, MemberOf(members, n).val)
    ensures n in Kept(props) <==> MemberOf(members, n).val != Leaf(Undefined)
    ensures n !in Kept(props) ==> KeyableProp(props[IndexOfName(props, n)], depth)
    ensures n in Kept(props) ==>
              Reads(EncodedMember(g, stack, MemberOf(members, n), depth),
                  KeyableProp(props[IndexOfName(props, n)], depth),
                    PropText(props[IndexOfName(props, n)]))
    decreases props, 0
  {
    hide TextOf, Encoded, Keyable, PropHeight, PathAbove, EncodedMember, PropText, Kept, E.WellFormedProp;
    MemberFound(g, {}, members, props, n);
    E.KeptIff(props, n);
    var m, p := MemberOf(members, n), props[IndexOfName(props, n)];
    assert RefOk(g, m.val) by {
      var i :| 0 <= i < |members| && members[i] == m;
    }
    if n in Kept(props) {
      PathShrinks(g, stack, PropsHeight(props), PropHeight(p));
      assert E.WellFormedProp(p);
      EncodesProp(g, stack, m, p, depth);
    }
  }

  lemma {:induction false} EncodesProps(g: Graph, stack: seq<nat>, members: seq<Member>, props: seq<Prop>, depth: nat)
    requires Closed(g) && depth <= MAX_DEPTH + 1 && PropsReady(g, members, props)
    requires PathAbove(g, stack, PropsHeight(props))
    ensures forall n :: n in Sort(Names(members)) ==> n in Names(members)
    ensures forall n :: n in Sort(Kept(props)) ==> HasName(props, n)
    ensures ReadsAll(EncodedMembers(g, stack, members, Sort(Names(members)), depth),
                     forall i :: 0 <= i < |props| ==> KeyableProp(props[i], depth), PropTexts(props, Sort(Kept(props))))
    decreases props, 2
  {
    hide TextOf, EncodedMembers, UnfoldsProp, KeyableProp, PathAbove, PropTexts, Kept, Sort, Filter, E.WellFormedProp;
    var names := Sort(Names(members));
    SortPermutes(Names(members));
    EncodesNamed(g, stack, members, props, names, depth);
    assert forall i :: 0 <= i < |props| ==> members[i].name == props[i].name by { SameNames(g, members, props); }
    FilterOfSorted(members, props);
    AllNamed(members, props, names, depth);
  }

  lemma SameNames(g: Graph, members: seq<Member>, props: seq<Prop>)
    requires PropsReady(g, members, props)
    ensures forall i :: 0 <= i < |props| ==> members[i].name == props[i].name
  {
    hide Unfolds;
    forall i | 0 <= i < |props| ensures members[i].name == props[i].name {
      assert UnfoldsProp(g, {}, members[i], props[i]);
    }
  }

  lemma AllNamed(members: seq<Member>, props: seq<Prop>, names: seq<string>, depth: nat)
    requires |members| == |props| && forall i :: 0 <= i < |members| ==> members[i].name == props[i].name
    requires DistinctNames(props)
    requires forall n :: n in names <==> n in Names(members)
    requires forall n :: n in names ==> HasName(props, n)
    ensures NamedKeyable(props, names, depth) <==> forall i :: 0 <= i < |props| ==> KeyableProp(props[i], depth)
  {
    hide KeyableProp, DistinctNames;
    forall i | 0 <= i < |props| ensures props[i].name in names && IndexOfName(props, props[i].name) == i {
      assert Names(members)[i] == props[i].name;
      SameName(props, i, IndexOfName(props, props[i].name));
    }
    if NamedKeyable(props, names, depth) {
      forall i | 0 <= i < |props| ensures KeyableProp(props[i], depth) {
        assert props[i].name in names;
      }
    }
  }

  // ----- The theorem

  /**
   * For an argument without cycles: a key is derived exactly when the argument holds nothing that is rejected
   * and is not nested deeper than the limit, and the key is the canonical text of the argument as a tree.
   */
  lemma KeyOfTree(g: Graph, r: Ref, v: Value)
    requires Closed(g) && RefOk(g, r) && Unfolds(g, {}, r, v) && E.WellFormed(v)
    ensures Encoded(g, [], r, 0).Ok? <==> Keyable(v, 0)
    ensures Keyable(v, 0) ==> Encoded(g, [], r, 0) == Ok(TextOf(v))
  {
    EncodesTree(g, [], r, v, 0);
  }

  /** Keys of two arguments agree exactly when the arguments are structurally equal, shared objects or not. */
  lemma SameKeyIffSameStructure(g: Graph, r: Ref, a: Value, h: Graph, s: Ref, b: Value, names: P.NameSet)
    requires Closed(g) && RefOk(g, r) && Unfolds(g, {}, r, a) && P.Eligible(a, names) && Keyable(a, 0)
    requires Closed(h) && RefOk(h, s) && Unfolds(h, {}, s, b) && P.Eligible(b, names) && Keyable(b, 0)
    ensures Encoded(g, [], r, 0) == Encoded(h, [], s, 0) <==> P.NormOf(a) == P.NormOf(b)
  {
    E.EligibleIsWellFormed(a, names);
    E.EligibleIsWellFormed(b, names);
    KeyOfTree(g, r, a);
    KeyOfTree(h, s, b);
    E.SameTextIffSameStructure(a, b, names);
  }

  /** An argument that contains itself gets a key: the way back is written as a distance. */
  lemma CycleIsKeyed(g: Graph)
    requires g == [ArrayNode([Object(0)])]
    ensures Closed(g) && Encoded(g, [], Object(0), 0) == Ok("A:1[c:1]")
  {
    var top, path := [], [0];
    var items, parts := [Object(0)], ["c:1"];
    assert g[0] == ArrayNode(items) && NodeOk(g, g[0]);
    assert top + [0] == path && LastIndexOf(path, 0) == 0;
    assert NatToString(1) == "1" && "c:" + "1" == "c:1";
    assert Encoded(g, path, Object(0), 1) == Ok("c:1");
    assert items[1..] == [] && parts + [] == parts;
    assert EncodedAll(g, path, items[1..], 1) == Ok([]);
    assert EncodedAll(g, path, items, 1) == Cons(Ok("c:1"), Ok([]));
    assert Join(parts, ',') == parts[0];
    assert ['A', ':'] + "1" + ['['] == "A:1[";
    assert Wrapped(ArrayObject([]), ["c:1"]) == "A:1[c:1]";
    assert EncodedNode(g, top + [0], g[0], 0) == Ok("A:1[c:1]");
  }

  // ----- What is keyable

  /** Of values that contain no others exactly symbols, functions, errors and instances of classes cannot be keyed. */
  lemma KeyableAtoms(v: Value)
    requires !IsContainer(v)
    ensures Keyable(v, 0) <==> !v.Symbol? && !v.Function? && !v.ErrorObject? && !v.Instance?
  {
  }

  /** An array in an array, `n` times. */
  function Nested(n: nat): Value {
    if n == 0 then Null else ArrayObject([Nested(n - 1)])
  }

  lemma {:induction false} NestedKeyable(n: nat, depth: nat)
    ensures Keyable(Nested(n), depth) <==> depth + n <= 32
  {
    if n > 0 {
      NestedKeyable(n - 1, depth + 1);
      var v := Nested(n);
      assert v.elements == [Nested(n - 1)] && !Rejected(v) && v.elements[0] == Nested(n - 1);
      if depth + n <= 32 {
        forall i | 0 <= i < |v.elements| ensures Keyable(v.elements[i], depth + 1) {}
      }
    }
  }

  /** Arguments may be nested 32 deep, not deeper. */
  lemma DepthLimit(n: nat)
    ensures Keyable(Nested(n), 0) <==> n <= 32
  {
    NestedKeyable(n, 0);
  }
}
