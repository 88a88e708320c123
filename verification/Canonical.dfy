/**
 * Canonical encoding of arguments (src/stable-stringify.ts): what it distinguishes and what it does not.
 */
module Canonical {
  import opened Wrappers
  import opened Decimal
  import opened Strings
  import opened Sorting
  import opened JsValues
  import Sha256

  // ----- The encoding

  function NumberText(n: Num): string {
    match n
    case NotANumber => "NaN"
    case NegativeZero => "-0"
    case PositiveInfinity => "Infinity"
    case NegativeInfinity => "-Infinity"
    case Finite(text) => text
  }

  /** `hashValue(bytes)`: the first 32 hex digits of SHA-256. */
  function HashOf(bytes: seq<bv8>): (h: string)
    ensures |h| == 32 && Sha256.IsHex(h)
  {
    Sha256.ToHex(Sha256.Digest(bytes))[..32]
  }

  const MAX_INLINE_BYTES := 256
  const MAX_DEPTH := 32

  function BinaryText(bytes: seq<bv8>): string {
    if |bytes| > MAX_INLINE_BYTES then "*" + NatToString(|bytes|) + ":" + HashOf(bytes) else Sha256.ToHex(bytes)
  }

  function Bracket(v: Value): (char, char, char) {
    if v.ArrayObject? then ('[', ',', ']') else ('{', ';', '}')
  }

  function Letter(v: Value): char {
    if v.MapObject? then 'M' else if v.SetObject? then 'S' else if v.ArrayObject? then 'A' else 'O'
  }

  function Wrapped(v: Value, parts: seq<string>): string {
    [Letter(v), ':'] + NatToString(|parts|) + [Bracket(v).0] + Join(parts, Bracket(v).1) + [Bracket(v).2]
  }

  /** Names of the members that are kept: those with a value other than `undefined`. */
  function Kept(props: seq<Prop>): (names: seq<string>)
    ensures forall n :: n in names <==> exists i :: 0 <= i < |props| && props[i].name == n && props[i].val != Undefined
  {
    if props == [] then []
    else
      assert props == [props[0]] + props[1..];
      (if props[0].val == Undefined then [] else [props[0].name]) + Kept(props[1..])
  }

  /** The text of a value without cycles; a value that cannot be keyed has none and gets the empty text. */
  function TextOf(v: Value): string
    decreases v, 1, 0
  {
    match v
    case Undefined => "u"
    case Null => "n"
    case Bool(b) => if b then "b1" else "b0"
    case Number(n) => "d:" + NumberText(n)
    case BigInt(i) => "i:" + IntToString(i)
    case Text(s) => "s:" + NatToString(|s|) + ":" + s
    case Symbol => ""
    case Function => ""
    case Date(iso) => "D:" + (if iso.Some? then iso.value else "invalid")
    case Url(href) => "U:" + href
    case RegExp(source, flags) => "R:" + source + "/" + flags
    case Binary(_, bytes) => "B:" + BinaryText(bytes)
    case ErrorObject(_, _, _) => ""
    case Instance => ""
    case MapObject(entries) => Wrapped(v, Sort(EntryTexts(entries)))
    case SetObject(items) => Wrapped(v, Sort(Texts(items)))
    case ArrayObject(elements) => Wrapped(v, Texts(elements))
    case Plain(props) =>
      SortPermutes(Kept(props));
      assert forall n :: n in Kept(props) ==> HasName(props, n);
      Wrapped(v, PropTexts(props, Sort(Kept(props))))
  }

  function Texts(items: seq<Value>): (r: seq<string>)
    ensures |r| == |items|
    decreases items, 0, 0
  {
    if items == [] then [] else [TextOf(items[0])] + Texts(items[1..])
  }

  function EntryText(e: MapEntry): string
    decreases e, 0, 0
  {
    TextOf(e.key) + "=" + TextOf(e.val)
  }

  function EntryTexts(entries: seq<MapEntry>): (r: seq<string>)
    ensures |r| == |entries|
    decreases entries, 0, 0
  {
    if entries == [] then [] else [EntryText(entries[0])] + EntryTexts(entries[1..])
  }

  function PropText(p: Prop): string
    decreases p, 0, 0
  {
    p.name + "=" + TextOf(p.val)
  }

  /** The members with the given names, in the order of the names. */
  function PropTexts(props: seq<Prop>, names: seq<string>): (r: seq<string>)
    requires forall n :: n in names ==> HasName(props, n)
    ensures |r| == |names|
    decreases props, 0, |names|
  {
    if names == [] then []
    else
      assert HasName(props, names[0]);
      [PropText(props[IndexOfName(props, names[0])])] + PropTexts(props, names[1..])
  }
}
