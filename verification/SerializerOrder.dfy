/** The order in which properties were added never reaches the output, at any depth. */
module SerializerOrder {
  import opened Sorting
  import opened JsValues
  import opened Serializer

  /** The value with the properties of every object in it listed in sorted order. */
  function Ordered(v: Value): Value
    decreases v, 1
  {
    match v
    case MapObject(entries) => MapObject(OrderedEntries(entries))
    case SetObject(items) => SetObject(OrderedItems(items))
    case ArrayObject(elements) => ArrayObject(OrderedItems(elements))
    case Plain(props) =>
      NamesFound(props);
      Plain(OrderedProps(props, Sort(PropNames(props))))
    case _ => v
  }

  function OrderedItems(items: seq<Value>): seq<Value>
    decreases items, 0
  {
    if items == [] then [] else [Ordered(items[0])] + OrderedItems(items[1..])
  }

  function OrderedEntry(e: MapEntry): MapEntry
    decreases e, 0
  {
    MapEntry(Ordered(e.key), Ordered(e.val))
  }

  function OrderedEntries(entries: seq<MapEntry>): seq<MapEntry>
    decreases entries, 0
  {
    if entries == [] then [] else [OrderedEntry(entries[0])] + OrderedEntries(entries[1..])
  }

  function OrderedProp(p: Prop): (q: Prop)
    ensures q.name == p.name
    decreases p, 0
  {
    Prop(p.name, Ordered(p.val))
  }

  function OrderedProps(props: seq<Prop>, names: seq<string>): (r: seq<Prop>)
    requires forall n :: n in names ==> HasName(props, n)
    ensures |r| == |names| && forall i :: 0 <= i < |r| ==> r[i].name == names[i]
    decreases props, 1, |names|
  {
    if names == [] then [] else [OrderedProp(props[IndexOfName(props, names[0])])] + OrderedProps(props, names[1..])
  }

  /** Encoding sees a value only up to the order of properties. */
  lemma {:induction false} OrderIrrelevant(v: Value)
    requires Sound(v)
    ensures ToJson(Ordered(v)) == ToJson(v)
    decreases v, 1
  {
    match v
    case MapObject(entries) => OrderIrrelevantEntries(entries);
    case SetObject(items) => OrderIrrelevantItems(items);
    case ArrayObject(elements) => OrderIrrelevantItems(elements);
    case Plain(props) => OrderIrrelevantPlain(props);
    case _ =>
  }

  /** Values that differ in the order of properties only have the same output. */
  lemma SameOutput(v: Value, w: Value)
    requires Sound(v) && Sound(w) && Ordered(v) == Ordered(w)
    ensures ToJson(v) == ToJson(w)
  {
    OrderIrrelevant(v);
    OrderIrrelevant(w);
  }

  lemma {:induction false} OrderIrrelevantItems(items: seq<Value>)
    requires forall i :: 0 <= i < |items| ==> Sound(items[i])
    ensures ItemsJson(OrderedItems(items)) == ItemsJson(items)
    decreases items, 0
  {
    hide ToJson, Sound, Ordered;
    if items != [] {
      OrderIrrelevant(items[0]);
      OrderIrrelevantItems(items[1..]);
      var rest := OrderedItems(items[1..]);
      assert ([Ordered(items[0])] + rest)[1..] == rest;
    }
  }

  lemma {:induction false} OrderIrrelevantEntries(entries: seq<MapEntry>)
    requires forall i :: 0 <= i < |entries| ==> SoundEntry(entries[i])
    ensures EntriesJson(OrderedEntries(entries)) == EntriesJson(entries)
    decreases entries, 0
  {
    hide EntryJson, SoundEntry, OrderedEntry;
    if entries != [] {
      OrderIrrelevantEntry(entries[0]);
      OrderIrrelevantEntries(entries[1..]);
      var rest := OrderedEntries(entries[1..]);
      assert ([OrderedEntry(entries[0])] + rest)[1..] == rest;
    }
  }

  lemma {:induction false} OrderIrrelevantEntry(e: MapEntry)
    requires SoundEntry(e)
    ensures EntryJson(OrderedEntry(e)) == EntryJson(e)
    decreases e, 0
  {
    hide ToJson, Sound, Ordered;
    OrderIrrelevant(e.key);
    OrderIrrelevant(e.val);
  }

  lemma {:induction false} OrderIrrelevantPlain(props: seq<Prop>)
    requires DistinctNames(props) && forall i :: 0 <= i < |props| ==> SoundProp(props[i])
    ensures ToJson(Ordered(Plain(props))) == ToJson(Plain(props))
    decreases props, 2
  {
    hide MembersJson, Sort, SoundProp, OrderedProps;
    var names := Sort(PropNames(props));
    NamesFound(props);
    var sorted := OrderedProps(props, names);
    assert PropNames(sorted) == names;
    SortTwice(PropNames(props));
    NamesFound(sorted);
    NamesDistinct(props, names);
    OrderIrrelevantMembers(props, names, names);
  }

  lemma SortTwice(names: seq<string>)
    ensures Sort(Sort(names)) == Sort(names)
  {
    hide Sort;
    SortPermutes(names);
    SortIgnoresOrder(Sort(names), names);
  }

  predicate Distinct(names: seq<string>) {
    forall i, j :: 0 <= i < j < |names| ==> names[i] != names[j]
  }

  /** Sorting distinct names gives distinct names. */
  lemma NamesDistinct(props: seq<Prop>, names: seq<string>)
    requires DistinctNames(props) && names == Sort(PropNames(props))
    ensures Distinct(names)
  {
    hide Sort;
    var all := PropNames(props);
    SortPermutes(all);
    forall i, j | 0 <= i < j < |names| ensures names[i] != names[j] {
      if names[i] == names[j] {
        TwiceInBag(names, i, j);
        OnceInBag(all, names[i]);
      }
    }
  }

  lemma TwiceInBag(names: seq<string>, i: nat, j: nat)
    requires i < j < |names| && names[i] == names[j]
    ensures multiset(names)[names[i]] >= 2
  {
    assert names == names[..i] + [names[i]] + names[i + 1..j] + [names[j]] + names[j + 1..];
  }

  lemma {:induction false} OnceInBag(names: seq<string>, n: string)
    requires Distinct(names)
    ensures multiset(names)[n] <= 1
  {
    if names != [] {
      OnceInBag(names[1..], n);
      assert names == [names[0]] + names[1..];
      if n == names[0] {
        forall i | 0 <= i < |names[1..]| ensures names[1..][i] != n { assert names[1..][i] == names[i + 1]; }
        assert n !in names[1..];
      }
    }
  }

  lemma {:induction false} OrderedPropsAt(props: seq<Prop>, names: seq<string>, i: nat)
    requires i < |names| && forall n :: n in names ==> HasName(props, n)
    ensures names[i] in names && OrderedProps(props, names)[i] == OrderedProp(props[IndexOfName(props, names[i])])
    decreases i
  {
    hide OrderedProp;
    if i > 0 { OrderedPropsAt(props, names[1..], i - 1); }
  }

  /** Looking a name up in the ordered list finds the ordered member. */
  lemma FoundInOrder(props: seq<Prop>, names: seq<string>, n: string)
    requires (forall x :: x in names ==> HasName(props, x)) && Distinct(names) && n in names
    ensures var sorted := OrderedProps(props, names);
            HasName(sorted, n) && sorted[IndexOfName(sorted, n)] == OrderedProp(props[IndexOfName(props, n)])
  {
    hide OrderedProps, OrderedProp;
    var sorted := OrderedProps(props, names);
    var i :| 0 <= i < |names| && names[i] == n;
    assert sorted[i].name == n;
    var k := IndexOfName(sorted, n);
    assert names[k] == n;
    OrderedPropsAt(props, names, k);
  }

  lemma {:induction false} OrderIrrelevantMembers(props: seq<Prop>, all: seq<string>, names: seq<string>)
    requires (forall n :: n in all ==> HasName(props, n)) && Distinct(all) && forall n :: n in names ==> n in all
    requires forall i :: 0 <= i < |props| ==> SoundProp(props[i])
    ensures forall n :: n in names ==> HasName(OrderedProps(props, all), n)
    ensures MembersJson(OrderedProps(props, all), names) == MembersJson(props, names)
    decreases props, 1, |names|
  {
    hide PropJson, OrderedProps, OrderedProp, SoundProp, IndexOfName, Distinct;
    forall n | n in names ensures HasName(OrderedProps(props, all), n) { FoundInOrder(props, all, n); }
    if names != [] {
      FoundInOrder(props, all, names[0]);
      OrderIrrelevantMembers(props, all, names[1..]);
      OrderIrrelevantProp(props[IndexOfName(props, names[0])]);
    }
  }

  lemma {:induction false} OrderIrrelevantProp(p: Prop)
    requires SoundProp(p)
    ensures PropJson(OrderedProp(p)) == PropJson(p) && Skipped(OrderedProp(p)) == Skipped(p)
    decreases p, 0
  {
    hide ToJson, Sound;
    OrderIrrelevant(p.val);
  }

  /** Listing the same properties in another order changes nothing. */
  lemma Reordered(p: seq<Prop>, q: seq<Prop>)
    requires DistinctNames(p) && DistinctNames(q) && multiset(p) == multiset(q)
    ensures Ordered(Plain(p)) == Ordered(Plain(q))
  {
    hide Sort, OrderedProps, DistinctNames, HasName;
    SameNames(p, q);
    SortIgnoresOrder(PropNames(p), PropNames(q));
    NamesFound(p);
    NamesFound(q);
    SameOrderedProps(p, q, Sort(PropNames(p)));
  }

  lemma SameOrderedProps(p: seq<Prop>, q: seq<Prop>, names: seq<string>)
    requires DistinctNames(q) && multiset(p) == multiset(q)
    requires forall n :: n in names ==> HasName(p, n) && HasName(q, n)
    ensures OrderedProps(p, names) == OrderedProps(q, names)
  {
    hide OrderedProps, OrderedProp, DistinctNames, HasName, IndexOfName;
    forall i | 0 <= i < |names| ensures OrderedProps(p, names)[i] == OrderedProps(q, names)[i] {
      OrderedPropsAt(p, names, i);
      OrderedPropsAt(q, names, i);
      FindAlike(p, q, names[i]);
    }
  }

  lemma SameNames(p: seq<Prop>, q: seq<Prop>)
    requires DistinctNames(p) && DistinctNames(q) && multiset(p) == multiset(q)
    ensures multiset(PropNames(p)) == multiset(PropNames(q))
  {
    var m, n := PropNames(p), PropNames(q);
    forall x ensures multiset(m)[x] == multiset(n)[x] {
      OnceInBag(m, x);
      OnceInBag(n, x);
      if HasName(p, x) { FindAlike(p, q, x); }
      if HasName(q, x) { FindAlike(q, p, x); }
      assert x in m <==> x in n;
      assert (x in m <==> multiset(m)[x] > 0) && (x in n <==> multiset(n)[x] > 0);
    }
  }

  // ----- What the round trip changes

  /**
   * Nothing that cannot be written back: buffers are byte arrays, errors have a stack, and no member is `undefined`
   * or bears one of the two names that are not kept.
   */
  predicate Lossless(v: Value) {
    match v
    case Binary(kind, _) => kind.Uint8Array?
    case ErrorObject(_, _, stack) => stack.Some?
    case MapObject(entries) => forall i :: 0 <= i < |entries| ==> LosslessEntry(entries[i])
    case SetObject(items) => forall i :: 0 <= i < |items| ==> Lossless(items[i])
    case ArrayObject(elements) => forall i :: 0 <= i < |elements| ==> Lossless(elements[i])
    case Plain(props) => forall i :: 0 <= i < |props| ==> LosslessProp(props[i])
    case _ => true
  }

  predicate LosslessEntry(e: MapEntry) {
    Lossless(e.key) && Lossless(e.val)
  }

  predicate LosslessProp(p: Prop) {
    p.val != Undefined && p.name != "~rsc" && p.name != "__proto__" && Lossless(p.val)
  }

  /** Of such a value the normal form differs in the order of properties only: nothing is lost and nothing changed. */
  lemma {:induction false} NormalIsOrdered(v: Value, trace: string)
    requires Lossless(v)
    ensures Normal(v, trace) == Ordered(v)
    decreases v, 1
  {
    match v
    case MapObject(entries) => NormalEntriesOrdered(entries, trace);
    case SetObject(items) => NormalItemsOrdered(items, trace);
    case ArrayObject(elements) => NormalItemsOrdered(elements, trace);
    case Plain(props) =>
      NamesFound(props);
      NormalPropsOrdered(props, Sort(PropNames(props)), trace);
    case _ =>
  }

  lemma {:induction false} NormalItemsOrdered(items: seq<Value>, trace: string)
    requires forall i :: 0 <= i < |items| ==> Lossless(items[i])
    ensures NormalItems(items, trace) == OrderedItems(items)
    decreases items, 0
  {
    if items != [] {
      NormalIsOrdered(items[0], trace);
      assert forall i :: 0 <= i < |items[1..]| ==> items[1..][i] == items[i + 1];
      NormalItemsOrdered(items[1..], trace);
    }
  }

  lemma {:induction false} NormalEntriesOrdered(entries: seq<MapEntry>, trace: string)
    requires forall i :: 0 <= i < |entries| ==> LosslessEntry(entries[i])
    ensures NormalEntries(entries, trace) == OrderedEntries(entries)
    decreases entries, 0
  {
    if entries != [] {
      var e := entries[0];
      assert LosslessEntry(e);
      NormalEntryOrdered(e, trace);
      assert forall i :: 0 <= i < |entries[1..]| ==> entries[1..][i] == entries[i + 1];
      NormalEntriesOrdered(entries[1..], trace);
    }
  }

  lemma {:induction false} NormalEntryOrdered(e: MapEntry, trace: string)
    requires LosslessEntry(e)
    ensures NormalEntry(e, trace) == OrderedEntry(e)
    decreases e, 0
  {
    NormalIsOrdered(e.key, trace);
    NormalIsOrdered(e.val, trace);
  }

  lemma {:induction false} NormalPropsOrdered(props: seq<Prop>, names: seq<string>, trace: string)
    requires forall i :: 0 <= i < |props| ==> LosslessProp(props[i])
    requires forall n :: n in names ==> HasName(props, n)
    ensures NormalProps(props, names, trace) == OrderedProps(props, names)
    decreases props, 1, |names|
  {
    if names != [] {
      var p := props[IndexOfName(props, names[0])];
      assert LosslessProp(p);
      NormalPropOrdered(p, trace);
      NormalPropsOrdered(props, names[1..], trace);
    }
  }

  lemma {:induction false} NormalPropOrdered(p: Prop, trace: string)
    requires LosslessProp(p)
    ensures NormalProp(p, trace) == OrderedProp(p)
    decreases p, 0
  {
    NormalIsOrdered(p.val, trace);
  }
}
