/**
 * Typed JSON (src/serializer.ts): what a value becomes, what it comes back as, and why the two fit.
 */
module Serializer {
  import opened Wrappers
  import opened Decimal
  import opened Sorting
  import opened JsValues
  import Base64

  /** JSON data as parsing its text gives it back; the keys of an object are pairwise different. */
  datatype Json =
    | JNull | JBool(b: bool) | JNum(text: string) | JStr(s: string)
    | JArr(items: seq<Json>) | JObj(members: seq<JMember>)
  datatype JMember = JMember(key: string, val: Json)

  datatype Failure = Unsupported | Circular | UnknownTag | Malformed

  const TAG := "~rsc"
  const PROTO := "__proto__"

  function Tagged(tag: string, rest: seq<JMember>): Json {
    JObj([JMember(TAG, JStr(tag))] + rest)
  }

  function Boxed(tag: string, v: Json): Json {
    Tagged(tag, [JMember("v", v)])
  }

  // ----- Encoding

  /** A value that is not a container: its JSON, or the reason there is none. */
  function AtomJson(v: Value): Result<Json, Failure>
    requires !IsContainer(v)
  {
    match v
    case Undefined => Ok(Tagged("undefined", []))
    case Null => Ok(JNull)
    case Bool(b) => Ok(JBool(b))
    case Number(n) => Ok(NumberJson(n))
    case BigInt(i) => Ok(Boxed("bigint", JStr(IntToString(i))))
    case Text(s) => Ok(JStr(s))
    case Date(iso) => Ok(Boxed("date", if iso.Some? then JStr(iso.value) else JNull))
    case Url(href) => Ok(Boxed("url", JStr(href)))
    case RegExp(source, flags) => Ok(Tagged("regexp", [JMember("v", JStr(source)), JMember("f", JStr(flags))]))
    case Binary(_, bytes) => Ok(Boxed("bytes", JStr(Base64.EncodeText(bytes))))
    case ErrorObject(name, message, stack) => Ok(Boxed("error", ErrorJson(name, message, stack)))
    case _ => Err(Unsupported)
  }

  function NumberJson(n: Num): Json {
    match n
    case NotANumber => Boxed("number", JStr("NaN"))
    case NegativeZero => Boxed("number", JStr("-0"))
    case PositiveInfinity => Boxed("number", JStr("Infinity"))
    case NegativeInfinity => Boxed("number", JStr("-Infinity"))
    case Finite(text) => JNum(text)
  }

  /** A member that is `undefined` is left out of JSON text. */
  function ErrorJson(name: string, message: string, stack: Option<string>): Json {
    JObj([JMember("name", JStr(name)), JMember("message", JStr(message))]
         + if stack.Some? then [JMember("stack", JStr(stack.value))] else [])
  }

  function ToJson(v: Value): Result<Json, Failure>
    decreases v, 1
  {
    match v
    case MapObject(entries) => BoxedList("map", EntriesJson(entries))
    case SetObject(items) => BoxedList("set", ItemsJson(items))
    case ArrayObject(elements) =>
      (match ItemsJson(elements)
       case Err(e) => Err(e)
       case Ok(items) => Ok(JArr(items)))
    case Plain(props) =>
      NamesFound(props);
      PlainJson(MembersJson(props, Sort(PropNames(props))))
    case _ => AtomJson(v)
  }

  function BoxedList(tag: string, items: Result<seq<Json>, Failure>): Result<Json, Failure> {
    match items
    case Err(e) => Err(e)
    case Ok(list) => Ok(Boxed(tag, JArr(list)))
  }

  function PlainJson(members: Result<seq<JMember>, Failure>): Result<Json, Failure> {
    match members
    case Err(e) => Err(e)
    case Ok(list) => Ok(JObj(list))
  }

  function ItemsJson(items: seq<Value>): Result<seq<Json>, Failure>
    decreases items, 0
  {
    if items == [] then Ok([]) else Cons(ToJson(items[0]), ItemsJson(items[1..]))
  }

  function PairJson(key: Result<Json, Failure>, val: Result<Json, Failure>): Result<Json, Failure> {
    if key.Err? then key else if val.Err? then val else Ok(JArr([key.value, val.value]))
  }

  function EntryJson(e: MapEntry): Result<Json, Failure>
    decreases e, 0
  {
    PairJson(ToJson(e.key), ToJson(e.val))
  }

  function EntriesJson(entries: seq<MapEntry>): Result<seq<Json>, Failure>
    decreases entries, 0
  {
    if entries == [] then Ok([]) else Cons(EntryJson(entries[0]), EntriesJson(entries[1..]))
  }

  function PropJson(p: Prop): Result<Json, Failure>
    decreases p, 0
  {
    ToJson(p.val)
  }

  function PropNames(props: seq<Prop>): (names: seq<string>)
    ensures forall n :: n in names <==> HasName(props, n)
    ensures |names| == |props| && forall i :: 0 <= i < |props| ==> names[i] == props[i].name
  {
    if props == [] then []
    else
      assert props == [props[0]] + props[1..];
      [props[0].name] + PropNames(props[1..])
  }

  lemma NamesFound(props: seq<Prop>)
    ensures forall n :: n in Sort(PropNames(props)) <==> HasName(props, n)
  {
    SortPermutes(PropNames(props));
  }

  /** The tag key and members that are `undefined` are not looked at. */
  predicate Skipped(p: Prop) {
    p.name == TAG || p.val == Undefined
  }

  /** Setting `__proto__` on the output does not create a member, but its value is converted all the same. */
  function Named(name: string, json: Result<Json, Failure>, rest: Result<seq<JMember>, Failure>)
    : Result<seq<JMember>, Failure>
  {
    match json
    case Err(e) => Err(e)
    case Ok(j) => if name == PROTO then rest else Cons(Ok(JMember(name, j)), rest)
  }

  function MembersJson(props: seq<Prop>, names: seq<string>): Result<seq<JMember>, Failure>
    requires forall n :: n in names ==> HasName(props, n)
    decreases props, 1, |names|
  {
    if names == [] then Ok([])
    else
      var rest := MembersJson(props, names[1..]);
      var p := props[IndexOfName(props, names[0])];
      if Skipped(p) then rest else Named(p.name, PropJson(p), rest)
  }

  // ----- Decoding

  function Find(members: seq<JMember>, key: string): (i: Option<nat>)
    ensures i.Some? ==> i.value < |members| && members[i.value].key == key
    ensures i.None? ==> forall k :: 0 <= k < |members| ==> members[k].key != key
  {
    if members == [] then None
    else if members[0].key == key then Some(0)
    else
      match Find(members[1..], key)
      case None =>
        assert forall k :: 0 < k < |members| ==> members[k] == members[1..][k - 1];
        None
      case Some(i) => Some(i + 1)
  }

  function Get(members: seq<JMember>, key: string): Option<Json> {
    match Find(members, key)
    case None => None
    case Some(i) => Some(members[i].val)
  }

  predicate IsTagged(j: Json) {
    j.JObj? && Get(j.members, TAG).Some? && Get(j.members, TAG).value.JStr?
  }

  predicate IsPrimitive(v: Value) {
    v.Undefined? || v.Null? || v.Bool? || v.Number? || v.BigInt? || v.Text? || v.Symbol?
  }

  /** A map takes -0 for +0. */
  function MapKey(k: Value): Value {
    if k == Number(NegativeZero) then Number(Finite("0")) else k
  }

  /** Keys that a map does not tell apart; different objects are always different keys. */
  predicate SameKey(a: Value, b: Value) {
    IsPrimitive(a) && IsPrimitive(b) && MapKey(a) == MapKey(b)
  }

  /** `map.set(k, v)` */
  function MapSet(entries: seq<MapEntry>, k: Value, v: Value): seq<MapEntry> {
    if entries == [] then [MapEntry(MapKey(k), v)]
    else if SameKey(entries[0].key, k) then [MapEntry(entries[0].key, v)] + entries[1..]
    else [entries[0]] + MapSet(entries[1..], k, v)
  }

  /** `set.add(k)` */
  function SetAdd(items: seq<Value>, k: Value): seq<Value> {
    if exists i :: 0 <= i < |items| && SameKey(items[i], k) then items else items + [MapKey(k)]
  }

  /** Decoding; `trace` is the stack that a new error object gets. */
  function FromJson(j: Json, trace: string): Result<Value, Failure>
    decreases j, 2
  {
    match j
    case JNull => Ok(Null)
    case JBool(b) => Ok(Bool(b))
    case JNum(text) => Ok(Number(Finite(text)))
    case JStr(s) => Ok(Text(s))
    case JArr(items) =>
      (match FromItems(items, trace)
       case Err(e) => Err(e)
       case Ok(vs) => Ok(ArrayObject(vs)))
    case JObj(members) =>
      if IsTagged(j) then FromTagged(Get(members, TAG).value.s, members, trace)
      else
        match FromMembers(members, trace)
        case Err(e) => Err(e)
        case Ok(props) => Ok(Plain(props))
  }

  function AsMap(r: Result<seq<MapEntry>, Failure>): Result<Value, Failure> {
    match r
    case Err(e) => Err(e)
    case Ok(entries) => Ok(MapObject(entries))
  }

  function AsSet(r: Result<seq<Value>, Failure>): Result<Value, Failure> {
    match r
    case Err(e) => Err(e)
    case Ok(items) => Ok(SetObject(items))
  }

  function FromTagged(tag: string, members: seq<JMember>, trace: string): Result<Value, Failure>
    decreases members, 1
  {
    var v := Find(members, "v");
    if tag == "undefined" then Ok(Undefined)
    else if tag == "map" then
      if v.None? || !members[v.value].val.JArr? then Err(Malformed)
      else AsMap(FromEntries([], members[v.value].val.items, trace))
    else if tag == "set" then
      if v.None? || !members[v.value].val.JArr? then Err(Malformed)
      else AsSet(FromSet([], members[v.value].val.items, trace))
    else FromBox(tag, if v.Some? then Some(members[v.value].val) else None, Get(members, "f"), trace)
  }

  /** Tags whose member `v` holds no nested value; a member of another type than the encoder writes is malformed. */
  function FromBox(tag: string, v: Option<Json>, f: Option<Json>, trace: string): Result<Value, Failure> {
    if tag == "number" then if v.Some? && v.value.JStr? then FromNumber(v.value.s) else Err(Malformed)
    else if tag == "bigint" then if v.Some? && v.value.JStr? then FromBigInt(v.value.s) else Err(Malformed)
    else if tag == "date" then
      if v == Some(JNull) then Ok(Date(None))
      else if v.Some? && v.value.JStr? then Ok(Date(Some(v.value.s)))
      else Err(Malformed)
    else if tag == "url" then if v.Some? && v.value.JStr? then Ok(Url(v.value.s)) else Err(Malformed)
    else if tag == "regexp" then
      if v.Some? && v.value.JStr? then
        if f.None? || f == Some(JNull) then Ok(RegExp(v.value.s, ""))
        else if f.value.JStr? then Ok(RegExp(v.value.s, f.value.s))
        else Err(Malformed)
      else Err(Malformed)
    else if tag == "bytes" then if v.Some? && v.value.JStr? then FromBytes(v.value.s) else Err(Malformed)
    else if tag == "error" then if v.Some? && v.value.JObj? then FromError(v.value.members, trace) else Err(Malformed)
    else Err(UnknownTag)
  }

  function FromNumber(raw: string): Result<Value, Failure> {
    if raw == "NaN" then Ok(Number(NotANumber))
    else if raw == "Infinity" then Ok(Number(PositiveInfinity))
    else if raw == "-Infinity" then Ok(Number(NegativeInfinity))
    else if raw == "-0" then Ok(Number(NegativeZero))
    else Err(Malformed)
  }

  function FromBigInt(raw: string): Result<Value, Failure> {
    match StringToInt(raw)
    case None => Err(Malformed)
    case Some(i) => Ok(BigInt(i))
  }

  function FromBytes(raw: string): Result<Value, Failure> {
    match Base64.DecodeText(raw)
    case Err(_) => Err(Malformed)
    case Ok(bytes) => Ok(Binary(Uint8Array, bytes))
  }

  function TextOr(j: Option<Json>, otherwise: string): string {
    if j.Some? && j.value.JStr? then j.value.s else otherwise
  }

  function FromError(members: seq<JMember>, trace: string): Result<Value, Failure> {
    Ok(ErrorObject(TextOr(Get(members, "name"), "Error"), TextOr(Get(members, "message"), ""),
                   Some(TextOr(Get(members, "stack"), trace))))
  }

  function FromItems(items: seq<Json>, trace: string): Result<seq<Value>, Failure>
    decreases items, 0
  {
    if items == [] then Ok([]) else Cons(FromJson(items[0], trace), FromItems(items[1..], trace))
  }

  /** Entries are added to the map one after the other. */
  function FromEntries(done: seq<MapEntry>, items: seq<Json>, trace: string): Result<seq<MapEntry>, Failure>
    decreases items, 0
  {
    if items == [] then Ok(done)
    else if !items[0].JArr? || |items[0].items| < 2 then Err(Malformed)
    else
      var k := FromJson(items[0].items[0], trace);
      var v := FromJson(items[0].items[1], trace);
      if k.Err? then Err(k.error) else if v.Err? then Err(v.error)
      else FromEntries(MapSet(done, k.value, v.value), items[1..], trace)
  }

  function FromSet(done: seq<Value>, items: seq<Json>, trace: string): Result<seq<Value>, Failure>
    decreases items, 0
  {
    if items == [] then Ok(done)
    else
      match FromJson(items[0], trace)
      case Err(e) => Err(e)
      case Ok(v) => FromSet(SetAdd(done, v), items[1..], trace)
  }

  function FromMember(m: JMember, trace: string): Result<Prop, Failure>
    decreases m, 3
  {
    match FromJson(m.val, trace)
    case Err(e) => Err(e)
    case Ok(v) => Ok(Prop(m.key, v))
  }

  function FromMembers(members: seq<JMember>, trace: string): Result<seq<Prop>, Failure>
    decreases members, 0
  {
    if members == [] then Ok([])
    else if members[0].key == PROTO then FromMembers(members[1..], trace)
    else Cons(FromMember(members[0], trace), FromMembers(members[1..], trace))
  }

  // ----- What a value comes back as

  /**
   * The value after a round trip: buffers of any kind are byte arrays, an error without a stack gets a new
   * one, objects have lost the members that are not written and list the others in sorted order.
   */
  function Normal(v: Value, trace: string): Value
    decreases v, 1
  {
    match v
    case Binary(_, bytes) => Binary(Uint8Array, bytes)
    case ErrorObject(name, message, None) => ErrorObject(name, message, Some(trace))
    case MapObject(entries) => MapObject(NormalEntries(entries, trace))
    case SetObject(items) => SetObject(NormalItems(items, trace))
    case ArrayObject(elements) => ArrayObject(NormalItems(elements, trace))
    case Plain(props) =>
      NamesFound(props);
      Plain(NormalProps(props, Sort(PropNames(props)), trace))
    case _ => v
  }

  function NormalItems(items: seq<Value>, trace: string): seq<Value>
    decreases items, 0
  {
    if items == [] then [] else [Normal(items[0], trace)] + NormalItems(items[1..], trace)
  }

  function NormalEntry(e: MapEntry, trace: string): MapEntry
    decreases e, 0
  {
    MapEntry(Normal(e.key, trace), Normal(e.val, trace))
  }

  function NormalEntries(entries: seq<MapEntry>, trace: string): seq<MapEntry>
    decreases entries, 0
  {
    if entries == [] then [] else [NormalEntry(entries[0], trace)] + NormalEntries(entries[1..], trace)
  }

  function NormalProp(p: Prop, trace: string): Prop
    decreases p, 0
  {
    Prop(p.name, Normal(p.val, trace))
  }

  predicate Dropped(p: Prop) {
    Skipped(p) || p.name == PROTO
  }

  function NormalProps(props: seq<Prop>, names: seq<string>, trace: string): seq<Prop>
    requires forall n :: n in names ==> HasName(props, n)
    decreases props, 1, |names|
  {
    if names == [] then []
    else
      var rest := NormalProps(props, names[1..], trace);
      var p := props[IndexOfName(props, names[0])];
      if Dropped(p) then rest else [NormalProp(p, trace)] + rest
  }

  // ----- Values as the language can hold them

  /** Different names in objects, different keys in maps and different members in sets, none of them -0. */
  predicate Sound(v: Value) {
    match v
    case MapObject(entries) => DistinctKeys(entries) && forall i :: 0 <= i < |entries| ==> SoundEntry(entries[i])
    case SetObject(items) => DistinctItems(items) && forall i :: 0 <= i < |items| ==> Sound(items[i])
    case ArrayObject(elements) => forall i :: 0 <= i < |elements| ==> Sound(elements[i])
    case Plain(props) => DistinctNames(props) && forall i :: 0 <= i < |props| ==> SoundProp(props[i])
    case _ => true
  }

  predicate SoundEntry(e: MapEntry) {
    Sound(e.key) && Sound(e.val)
  }

  predicate SoundProp(p: Prop) {
    Sound(p.val)
  }

  predicate DistinctKeys(entries: seq<MapEntry>) {
    (forall i :: 0 <= i < |entries| ==> entries[i].key != Number(NegativeZero)) &&
    forall i, j :: 0 <= i < j < |entries| ==> !SameKey(entries[i].key, entries[j].key)
  }

  predicate DistinctItems(items: seq<Value>) {
    (forall i :: 0 <= i < |items| ==> items[i] != Number(NegativeZero)) &&
    forall i, j :: 0 <= i < j < |items| ==> !SameKey(items[i], items[j])
  }
}
