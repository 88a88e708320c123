/** Decoding what was encoded gives the value back; what can be encoded; and property order does not matter. */
module SerializerProofs {
  import opened Wrappers
  import opened Decimal
  import opened Sorting
  import opened JsValues
  import opened Serializer
  import Base64

  // ----- Reading tagged objects

  lemma BoxFinds(tag: string, j: Json)
    ensures var ms := [JMember(TAG, JStr(tag)), JMember("v", j)];
            Boxed(tag, j) == JObj(ms) && Find(ms, TAG) == Some(0) && Find(ms, "v") == Some(1) && Find(ms, "f") == None
  {
    var ms := [JMember(TAG, JStr(tag)), JMember("v", j)];
    assert ms[1..] == [JMember("v", j)] && ms[1..][1..] == [];
    assert "v" != "f" && TAG != "v" && TAG != "f";
  }

  lemma ReadBox(tag: string, j: Json, trace: string)
    requires tag != "undefined" && tag != "map" && tag != "set"
    ensures FromJson(Boxed(tag, j), trace) == FromBox(tag, Some(j), None, trace)
  {
    hide FromBox, Boxed;
    BoxFinds(tag, j);
  }

  lemma ReadListBox(tag: string, items: seq<Json>, trace: string)
    ensures tag == "map" ==> FromJson(Boxed(tag, JArr(items)), trace) == AsMap(FromEntries([], items, trace))
    ensures tag == "set" ==> FromJson(Boxed(tag, JArr(items)), trace) == AsSet(FromSet([], items, trace))
  {
    hide FromBox, Boxed, FromEntries, FromSet;
    BoxFinds(tag, JArr(items));
    assert "map" != "undefined" && "set" != "undefined" && "set" != "map";
  }

  lemma ReadPattern(source: string, flags: string, trace: string)
    ensures FromJson(Tagged("regexp", [JMember("v", JStr(source)), JMember("f", JStr(flags))]), trace)
            == Ok(RegExp(source, flags))
  {
    var ms := [JMember(TAG, JStr("regexp")), JMember("v", JStr(source)), JMember("f", JStr(flags))];
    assert ms[1..][0].key == "v" && ms[1..][1..][0].key == "f";
    assert Find(ms, TAG) == Some(0) && Find(ms, "v") == Some(1) && Find(ms, "f") == Some(2);
    assert Tagged("regexp", [JMember("v", JStr(source)), JMember("f", JStr(flags))]) == JObj(ms);
  }

  lemma ReadError(name: string, message: string, stack: Option<string>, trace: string)
    ensures FromError(ErrorJson(name, message, stack).members, trace)
         == Ok(ErrorObject(name, message, if stack.Some? then stack else Some(trace)))
  {
    var ms := ErrorJson(name, message, stack).members;
    assert ms[0] == JMember("name", JStr(name)) && ms[1..][0] == JMember("message", JStr(message));
    assert "name" != "message" && "name" != "stack" && "message" != "stack";
    assert Find(ms, "name") == Some(0) && Find(ms, "message") == Some(1);
    if stack.Some? {
      assert ms[1..][1..][0] == JMember("stack", JStr(stack.value));
      assert Find(ms, "stack") == Some(2);
    } else {
      assert ms[1..][1..] == [];
      assert Find(ms, "stack") == None;
    }
  }

  lemma NumberRoundTrip(n: Num, trace: string)
    ensures FromJson(NumberJson(n), trace) == Ok(Number(n))
  {
    hide Boxed, FromTagged, FromItems, FromMembers;
    match n
    case NotANumber => ReadBox("number", JStr("NaN"), trace);
    case NegativeZero => ReadBox("number", JStr("-0"), trace);
    case PositiveInfinity => ReadBox("number", JStr("Infinity"), trace);
    case NegativeInfinity => ReadBox("number", JStr("-Infinity"), trace);
    case Finite(_) =>
  }

  lemma UndefinedRoundTrip(trace: string)
    ensures FromJson(Tagged("undefined", []), trace) == Ok(Undefined)
  {
    var ms := [JMember(TAG, JStr("undefined"))];
    assert Tagged("undefined", []) == JObj(ms);
    assert Find(ms, TAG) == Some(0);
  }

  lemma AtomRoundTrip(v: Value, trace: string)
    requires !IsContainer(v) && AtomJson(v).Ok?
    ensures FromJson(AtomJson(v).value, trace) == Ok(Normal(v, trace))
  {
    hide Boxed, Tagged, FromJson, Base64.EncodeText, Base64.DecodeText, IntToString, StringToInt, FromError,
        ErrorJson, NumberJson;
    match v
    case Undefined => UndefinedRoundTrip(trace);
    case Number(n) => NumberRoundTrip(n, trace);
    case BigInt(i) =>
      ReadBox("bigint", JStr(IntToString(i)), trace);
      IntRoundTrip(i);
    case Date(iso) => ReadBox("date", if iso.Some? then JStr(iso.value) else JNull, trace);
    case Url(href) => ReadBox("url", JStr(href), trace);
    case RegExp(source, flags) => ReadPattern(source, flags, trace);
    case Binary(_, bytes) =>
      ReadBox("bytes", JStr(Base64.EncodeText(bytes)), trace);
      Base64.RoundTrip(bytes);
    case ErrorObject(name, message, stack) =>
      ReadBox("error", ErrorJson(name, message, stack), trace);
      ErrorIsObject(name, message, stack);
      ReadError(name, message, stack, trace);
    case _ => PlainAtom(v, trace);
  }

  lemma ErrorIsObject(name: string, message: string, stack: Option<string>)
    ensures ErrorJson(name, message, stack).JObj?
  {
  }

  lemma PlainAtom(v: Value, trace: string)
    requires v.Null? || v.Bool? || v.Text?
    ensures AtomJson(v).Ok? && FromJson(AtomJson(v).value, trace) == Ok(v)
  {
  }

  // ----- Lists

  lemma {:induction false} ItemsAt(items: seq<Value>, i: nat)
    requires ItemsJson(items).Ok? && i < |items|
    ensures |ItemsJson(items).value| == |items| && ToJson(items[i]) == Ok(ItemsJson(items).value[i])
  {
    hide ToJson;
    ItemsLength(items);
    if i > 0 { ItemsAt(items[1..], i - 1); }
  }

  lemma {:induction false} ItemsLength(items: seq<Value>)
    requires ItemsJson(items).Ok?
    ensures |ItemsJson(items).value| == |items|
  {
    hide ToJson;
    if items != [] { ItemsLength(items[1..]); }
  }

  lemma {:induction false} EntriesAt(entries: seq<MapEntry>, i: nat)
    requires EntriesJson(entries).Ok? && i < |entries|
    ensures |EntriesJson(entries).value| == |entries| && EntryJson(entries[i]) == Ok(EntriesJson(entries).value[i])
  {
    hide EntryJson;
    EntriesLength(entries);
    if i > 0 { EntriesAt(entries[1..], i - 1); }
  }

  lemma {:induction false} EntriesLength(entries: seq<MapEntry>)
    requires EntriesJson(entries).Ok?
    ensures |EntriesJson(entries).value| == |entries|
  {
    hide EntryJson;
    if entries != [] { EntriesLength(entries[1..]); }
  }

  lemma {:induction false} NormalItemsAt(items: seq<Value>, trace: string)
    ensures |NormalItems(items, trace)| == |items|
    ensures forall i :: 0 <= i < |items| ==> NormalItems(items, trace)[i] == Normal(items[i], trace)
  {
    hide Normal;
    if items != [] {
      NormalItemsAt(items[1..], trace);
      assert forall i :: 0 < i < |items| ==> items[i] == items[1..][i - 1];
    }
  }

  lemma {:induction false} NormalEntriesAt(entries: seq<MapEntry>, trace: string)
    ensures |NormalEntries(entries, trace)| == |entries|
    ensures forall i :: 0 <= i < |entries| ==> NormalEntries(entries, trace)[i] == NormalEntry(entries[i], trace)
  {
    hide NormalEntry;
    if entries != [] {
      NormalEntriesAt(entries[1..], trace);
      assert forall i :: 0 < i < |entries| ==> entries[i] == entries[1..][i - 1];
    }
  }

  /** Keys are told apart after the round trip exactly as before. */
  lemma NormalKeys(a: Value, b: Value, trace: string)
    ensures SameKey(Normal(a, trace), Normal(b, trace)) == SameKey(a, b)
    ensures a != Number(NegativeZero) ==> MapKey(Normal(a, trace)) == Normal(a, trace)
  {
    NormalKind(a, trace);
    NormalKind(b, trace);
  }

  lemma NormalKind(a: Value, trace: string)
    ensures IsPrimitive(Normal(a, trace)) == IsPrimitive(a) && (IsPrimitive(a) ==> Normal(a, trace) == a)
  {
  }

  lemma {:induction false} MapSetNew(entries: seq<MapEntry>, k: Value, v: Value)
    requires MapKey(k) == k && forall i :: 0 <= i < |entries| ==> !SameKey(entries[i].key, k)
    ensures MapSet(entries, k, v) == entries + [MapEntry(k, v)]
  {
    hide SameKey, MapKey;
    if entries != [] {
      MapSetNew(entries[1..], k, v);
      assert entries == [entries[0]] + entries[1..];
    }
  }

  // ----- The round trip

  /** Decoding the encoding of a value gives the value in its normal form. */
  lemma {:induction false} RoundTrip(v: Value, trace: string)
    requires Sound(v) && ToJson(v).Ok?
    ensures FromJson(ToJson(v).value, trace) == Ok(Normal(v, trace))
    decreases v, 1
  {
    hide FromJson, Normal;
    match v
    case MapObject(entries) => MapRoundTrip(entries, trace);
    case SetObject(items) => SetRoundTrip(items, trace);
    case ArrayObject(elements) => ArrayRoundTrip(elements, trace);
    case Plain(props) => PlainRoundTrip(props, trace);
    case _ => AtomRoundTrip(v, trace);
  }

  lemma {:induction false} ArrayRoundTrip(elements: seq<Value>, trace: string)
    requires Sound(ArrayObject(elements)) && ToJson(ArrayObject(elements)).Ok?
    ensures FromJson(ToJson(ArrayObject(elements)).value, trace) == Ok(Normal(ArrayObject(elements), trace))
    decreases elements, 1
  {
    hide ItemsJson, NormalItems, FromItems;
    assert ItemsJson(elements).Ok?;
    ItemsRoundTrip(elements, trace);
  }

  lemma {:induction false} ItemsRoundTrip(items: seq<Value>, trace: string)
    requires ItemsJson(items).Ok? && forall i :: 0 <= i < |items| ==> Sound(items[i])
    ensures FromItems(ItemsJson(items).value, trace) == Ok(NormalItems(items, trace))
    decreases items, 0
  {
    hide ToJson, FromJson, Normal, Sound;
    if items != [] {
      RoundTrip(items[0], trace);
      ItemsRoundTrip(items[1..], trace);
      var rest := ItemsJson(items[1..]).value;
      assert ([ToJson(items[0]).value] + rest)[1..] == rest;
    }
  }

  lemma {:induction false} SetRoundTrip(items: seq<Value>, trace: string)
    requires Sound(SetObject(items)) && ToJson(SetObject(items)).Ok?
    ensures FromJson(ToJson(SetObject(items)).value, trace) == Ok(Normal(SetObject(items), trace))
    decreases items, 1
  {
    hide ItemsJson, NormalItems, FromSet, FromJson;
    var js := ItemsJson(items).value;
    ItemsLength(items);
    ReadListBox("set", js, trace);
    ItemsRebuilt(items, 0, trace);
    assert NormalItems(items[..0], trace) == [] by { NormalItemsAt(items[..0], trace); }
    assert js[0..] == js;
  }

  /** The set is rebuilt member by member. */
  lemma {:induction false} ItemsRebuilt(items: seq<Value>, i: nat, trace: string)
    requires ItemsJson(items).Ok? && i <= |items| == |ItemsJson(items).value|
    requires DistinctItems(items) && forall k :: 0 <= k < |items| ==> Sound(items[k])
    ensures FromSet(NormalItems(items[..i], trace), ItemsJson(items).value[i..], trace) == Ok(NormalItems(items, trace))
    decreases items, 0, |items| - i
  {
    hide ToJson, FromJson, Normal, Sound, ItemsJson, NormalItems, DistinctItems, SetAdd;
    var js := ItemsJson(items).value;
    if i < |items| {
      ItemsAt(items, i);
      RoundTrip(items[i], trace);
      ItemAdded(items, i, trace);
      ItemsRebuilt(items, i + 1, trace);
      assert js[i..][1..] == js[i + 1..];
    } else {
      assert items[..i] == items;
    }
  }

  lemma ItemAdded(items: seq<Value>, i: nat, trace: string)
    requires i < |items| && DistinctItems(items)
    ensures SetAdd(NormalItems(items[..i], trace), Normal(items[i], trace)) == NormalItems(items[..i + 1], trace)
  {
    hide Normal, SameKey, MapKey, NormalItems;
    var done := NormalItems(items[..i], trace);
    NormalItemsAt(items[..i], trace);
    NormalItemsAt(items[..i + 1], trace);
    NormalKeys(items[i], items[i], trace);
    forall k | 0 <= k < i ensures !SameKey(done[k], Normal(items[i], trace)) {
      NormalKeys(items[k], items[i], trace);
    }
    assert done + [Normal(items[i], trace)] == NormalItems(items[..i + 1], trace);
  }

  lemma {:induction false} MapRoundTrip(entries: seq<MapEntry>, trace: string)
    requires Sound(MapObject(entries)) && ToJson(MapObject(entries)).Ok?
    ensures FromJson(ToJson(MapObject(entries)).value, trace) == Ok(Normal(MapObject(entries), trace))
    decreases entries, 1
  {
    hide EntriesJson, NormalEntries, FromEntries, FromJson;
    var js := EntriesJson(entries).value;
    EntriesLength(entries);
    ReadListBox("map", js, trace);
    EntriesRebuilt(entries, 0, trace);
    assert NormalEntries(entries[..0], trace) == [] by { NormalEntriesAt(entries[..0], trace); }
    assert js[0..] == js;
  }

  /** The map is rebuilt entry by entry. */
  lemma {:induction false} EntriesRebuilt(entries: seq<MapEntry>, i: nat, trace: string)
    requires EntriesJson(entries).Ok? && i <= |entries| == |EntriesJson(entries).value|
    requires DistinctKeys(entries) && forall k :: 0 <= k < |entries| ==> SoundEntry(entries[k])
    ensures FromEntries(NormalEntries(entries[..i], trace), EntriesJson(entries).value[i..], trace)
            == Ok(NormalEntries(entries, trace))
    decreases entries, 0, |entries| - i
  {
    hide ToJson, FromJson, Normal, Sound, EntriesJson, NormalEntries, DistinctKeys, MapSet;
    var js := EntriesJson(entries).value;
    if i < |entries| {
      EntriesAt(entries, i);
      assert SoundEntry(entries[i]);
      EntryRoundTrip(entries[i], trace);
      EntryAdded(entries, i, trace);
      EntriesRebuilt(entries, i + 1, trace);
      assert js[i..][1..] == js[i + 1..];
    } else {
      assert entries[..i] == entries;
    }
  }

  lemma {:induction false} EntryRoundTrip(e: MapEntry, trace: string)
    requires SoundEntry(e) && EntryJson(e).Ok?
    ensures EntryJson(e).value.JArr? && |EntryJson(e).value.items| == 2
    ensures FromJson(EntryJson(e).value.items[0], trace) == Ok(Normal(e.key, trace))
    ensures FromJson(EntryJson(e).value.items[1], trace) == Ok(Normal(e.val, trace))
    decreases e, 0
  {
    hide ToJson, FromJson, Normal, Sound;
    RoundTrip(e.key, trace);
    RoundTrip(e.val, trace);
  }

  lemma EntryAdded(entries: seq<MapEntry>, i: nat, trace: string)
    requires i < |entries| && DistinctKeys(entries)
    ensures MapSet(NormalEntries(entries[..i], trace), Normal(entries[i].key, trace), Normal(entries[i].val, trace))
         == NormalEntries(entries[..i + 1], trace)
  {
    hide Normal, SameKey, MapKey, NormalEntries, MapSet;
    var done := NormalEntries(entries[..i], trace);
    var k, v := Normal(entries[i].key, trace), Normal(entries[i].val, trace);
    NormalEntriesAt(entries[..i], trace);
    NormalEntriesAt(entries[..i + 1], trace);
    NormalKeys(entries[i].key, entries[i].key, trace);
    forall l | 0 <= l < i ensures !SameKey(done[l].key, k) {
      NormalKeys(entries[l].key, entries[i].key, trace);
    }
    MapSetNew(done, k, v);
    assert done + [MapEntry(k, v)] == NormalEntries(entries[..i + 1], trace);
  }

  // ----- Plain objects

  predicate Untagged(members: seq<JMember>) {
    forall i :: 0 <= i < |members| ==> members[i].key != TAG && members[i].key != PROTO
  }

  /** No member carries the tag key or sets a prototype. */
  lemma {:induction false} MembersUntagged(props: seq<Prop>, names: seq<string>)
    requires forall n :: n in names ==> HasName(props, n)
    requires MembersJson(props, names).Ok?
    ensures Untagged(MembersJson(props, names).value)
    decreases |names|
  {
    hide PropJson, HasName, IndexOfName;
    if names != [] {
      var p := props[IndexOfName(props, names[0])];
      MembersUntaggedRest(props, names);
      if !Skipped(p) && p.name != PROTO {
        var rest := MembersJson(props, names[1..]).value;
        MembersUntagged(props, names[1..]);
        assert MembersJson(props, names).value == [JMember(p.name, PropJson(p).value)] + rest;
      } else {
        MembersUntagged(props, names[1..]);
      }
    }
  }

  lemma MembersUntaggedRest(props: seq<Prop>, names: seq<string>)
    requires names != [] && forall n :: n in names ==> HasName(props, n)
    requires MembersJson(props, names).Ok?
    ensures MembersJson(props, names[1..]).Ok?
    ensures !Skipped(props[IndexOfName(props, names[0])]) ==> PropJson(props[IndexOfName(props, names[0])]).Ok?
  {
    hide PropJson, HasName, IndexOfName;
  }

  /** A plain object is never written as a tagged one. */
  lemma PlainNeverTagged(props: seq<Prop>)
    requires ToJson(Plain(props)).Ok?
    ensures !IsTagged(ToJson(Plain(props)).value)
  {
    hide MembersJson, Sort;
    NamesFound(props);
    MembersUntagged(props, Sort(PropNames(props)));
  }

  lemma {:induction false} PlainRoundTrip(props: seq<Prop>, trace: string)
    requires Sound(Plain(props)) && ToJson(Plain(props)).Ok?
    ensures FromJson(ToJson(Plain(props)).value, trace) == Ok(Normal(Plain(props), trace))
    decreases props, 2
  {
    hide MembersJson, Sort, FromMembers, NormalProps, IsTagged;
    PlainNeverTagged(props);
    NamesFound(props);
    MembersRoundTrip(props, Sort(PropNames(props)), trace);
  }

  lemma {:induction false} MembersRoundTrip(props: seq<Prop>, names: seq<string>, trace: string)
    requires forall n :: n in names ==> HasName(props, n)
    requires MembersJson(props, names).Ok? && forall i :: 0 <= i < |props| ==> SoundProp(props[i])
    ensures FromMembers(MembersJson(props, names).value, trace) == Ok(NormalProps(props, names, trace))
    decreases props, 1, |names|
  {
    hide PropJson, HasName, IndexOfName, FromMember, NormalProp, SoundProp;
    if names != [] {
      var p := props[IndexOfName(props, names[0])];
      MembersUntaggedRest(props, names);
      MembersRoundTrip(props, names[1..], trace);
      if !Dropped(p) {
        var rest := MembersJson(props, names[1..]).value;
        var m := JMember(p.name, PropJson(p).value);
        PropRoundTrip(p, trace);
        assert MembersJson(props, names).value == [m] + rest && ([m] + rest)[1..] == rest;
      }
    }
  }

  lemma {:induction false} PropRoundTrip(p: Prop, trace: string)
    requires SoundProp(p) && PropJson(p).Ok?
    ensures FromMember(JMember(p.name, PropJson(p).value), trace) == Ok(NormalProp(p, trace))
    decreases p, 0
  {
    hide ToJson, FromJson, Normal, Sound;
    RoundTrip(p.val, trace);
  }

  // ----- What can be encoded

  /** Symbols, functions and class instances appear only where the encoder does not look. */
  predicate Supported(v: Value) {
    match v
    case Symbol => false
    case Function => false
    case Instance => false
    case MapObject(entries) => forall i :: 0 <= i < |entries| ==> SupportedEntry(entries[i])
    case SetObject(items) => forall i :: 0 <= i < |items| ==> Supported(items[i])
    case ArrayObject(elements) => forall i :: 0 <= i < |elements| ==> Supported(elements[i])
    case Plain(props) => forall i :: 0 <= i < |props| ==> SupportedProp(props[i])
    case _ => true
  }

  predicate SupportedEntry(e: MapEntry) {
    Supported(e.key) && Supported(e.val)
  }

  predicate SupportedProp(p: Prop) {
    Skipped(p) || Supported(p.val)
  }

  /** Encoding fails for unsupported values and for nothing else. */
  lemma {:induction false} EncodesIffSupported(v: Value)
    requires Sound(v)
    ensures if Supported(v) then ToJson(v).Ok? else ToJson(v) == Err(Unsupported)
    decreases v, 1
  {
    hide AtomJson;
    match v
    case MapObject(entries) => EntriesSupported(entries);
    case SetObject(items) => ItemsSupported(items);
    case ArrayObject(elements) => ItemsSupported(elements);
    case Plain(props) => PlainSupported(props);
    case _ => AtomSupported(v);
  }

  lemma AtomSupported(v: Value)
    requires !IsContainer(v)
    ensures if Supported(v) then AtomJson(v).Ok? else AtomJson(v) == Err(Unsupported)
  {
  }

  lemma {:induction false} ItemsSupported(items: seq<Value>)
    requires forall i :: 0 <= i < |items| ==> Sound(items[i])
    ensures if forall i :: 0 <= i < |items| ==> Supported(items[i]) then ItemsJson(items).Ok?
            else ItemsJson(items) == Err(Unsupported)
    decreases items, 0
  {
    hide ToJson, Supported, Sound;
    if items != [] {
      EncodesIffSupported(items[0]);
      ItemsSupported(items[1..]);
      assert (forall i :: 0 <= i < |items| ==> Supported(items[i]))
        <==> Supported(items[0]) && forall i :: 0 <= i < |items[1..]| ==> Supported(items[1..][i]) by {
        assert forall i :: 0 < i < |items| ==> items[i] == items[1..][i - 1];
      }
    }
  }

  lemma {:induction false} EntriesSupported(entries: seq<MapEntry>)
    requires forall i :: 0 <= i < |entries| ==> SoundEntry(entries[i])
    ensures if forall i :: 0 <= i < |entries| ==> SupportedEntry(entries[i]) then EntriesJson(entries).Ok?
            else EntriesJson(entries) == Err(Unsupported)
    decreases entries, 0
  {
    hide EntryJson, SupportedEntry, SoundEntry;
    if entries != [] {
      EntrySupported(entries[0]);
      EntriesSupported(entries[1..]);
      assert (forall i :: 0 <= i < |entries| ==> SupportedEntry(entries[i]))
        <==> SupportedEntry(entries[0]) && forall i :: 0 <= i < |entries[1..]| ==> SupportedEntry(entries[1..][i]) by {
        assert forall i :: 0 < i < |entries| ==> entries[i] == entries[1..][i - 1];
      }
    }
  }

  lemma {:induction false} EntrySupported(e: MapEntry)
    requires SoundEntry(e)
    ensures if SupportedEntry(e) then EntryJson(e).Ok? else EntryJson(e) == Err(Unsupported)
    decreases e, 0
  {
    hide ToJson, Supported, Sound;
    EncodesIffSupported(e.key);
    EncodesIffSupported(e.val);
  }

  lemma {:induction false} PlainSupported(props: seq<Prop>)
    requires DistinctNames(props) && forall i :: 0 <= i < |props| ==> SoundProp(props[i])
    ensures if forall i :: 0 <= i < |props| ==> SupportedProp(props[i])
            then ToJson(Plain(props)).Ok? else ToJson(Plain(props)) == Err(Unsupported)
    decreases props, 2
  {
    hide MembersJson, Sort, SupportedProp, SoundProp;
    var names := Sort(PropNames(props));
    NamesFound(props);
    MembersSupported(props, names);
    forall i | 0 <= i < |props| ensures props[i].name in names && IndexOfName(props, props[i].name) == i {
      assert HasName(props, props[i].name);
      SameName(props, i, IndexOfName(props, props[i].name));
    }
    if forall n :: n in names ==> SupportedProp(props[IndexOfName(props, n)]) {
      forall i | 0 <= i < |props| ensures SupportedProp(props[i]) { assert props[i].name in names; }
    }
  }

  lemma {:induction false} MembersSupported(props: seq<Prop>, names: seq<string>)
    requires (forall n :: n in names ==> HasName(props, n)) && forall i :: 0 <= i < |props| ==> SoundProp(props[i])
    ensures if forall n :: n in names ==> SupportedProp(props[IndexOfName(props, n)])
            then MembersJson(props, names).Ok? else MembersJson(props, names) == Err(Unsupported)
    decreases props, 1, |names|
  {
    hide PropJson, HasName, IndexOfName, Supported, SoundProp;
    if names != [] {
      var p := props[IndexOfName(props, names[0])];
      MembersSupported(props, names[1..]);
      assert names == [names[0]] + names[1..];
      if !Skipped(p) { PropSupported(p); }
    }
  }

  lemma {:induction false} PropSupported(p: Prop)
    requires SoundProp(p)
    ensures if Supported(p.val) then PropJson(p).Ok? else PropJson(p) == Err(Unsupported)
    decreases p, 0
  {
    hide ToJson, Supported, Sound;
    EncodesIffSupported(p.val);
  }
}
