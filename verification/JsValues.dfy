/** JavaScript values as far as cache keys and cached payloads can contain them. */
module JsValues {
  import opened Wrappers

  /** A number; a finite one other than -0 is identified with its `String(n)`. */
  datatype Num = NotANumber | NegativeZero | PositiveInfinity | NegativeInfinity | Finite(text: string)

  datatype BinaryKind = Uint8Array | ArrayBuffer | OtherView

  /**
   * A value without cycles. Sets and maps list their members in insertion order, plain objects their own
   * enumerable properties; a valid date is identified with its ISO text, an invalid one has none.
   */
  datatype Value =
    | Undefined | Null | Bool(b: bool) | Number(n: Num) | BigInt(i: int) | Text(s: string)
    | Symbol | Function
    | Date(iso: Option<string>) | Url(href: string) | RegExp(source: string, flags: string)
    | Binary(kind: BinaryKind, bytes: seq<bv8>)
    | ErrorObject(name: string, message: string, stack: Option<string>)
    | Instance
    | MapObject(entries: seq<MapEntry>) | SetObject(items: seq<Value>) | ArrayObject(elements: seq<Value>)
    | Plain(props: seq<Prop>)

  datatype MapEntry = MapEntry(key: Value, val: Value)
  datatype Prop = Prop(name: string, val: Value)

  predicate IsContainer(v: Value) {
    v.MapObject? || v.SetObject? || v.ArrayObject? || v.Plain?
  }

  predicate IsNumberChar(c: char) {
    '0' <= c <= '9' || c == '.' || c == 'e' || c == '+' || c == '-'
  }

  predicate NumOk(n: Num) {
    n.Finite? ==> n.text != "" && n.text != "-0" && forall i :: 0 <= i < |n.text| ==> IsNumberChar(n.text[i])
  }

  /** Property names of an object are pairwise different. */
  predicate DistinctNames(props: seq<Prop>) {
    forall i, j :: 0 <= i < j < |props| ==> props[i].name != props[j].name
  }

  predicate HasName(props: seq<Prop>, name: string) {
    exists k :: 0 <= k < |props| && props[k].name == name
  }

  /** Where a property is found. */
  function IndexOfName(props: seq<Prop>, name: string): (i: nat)
    requires HasName(props, name)
    ensures i < |props| && props[i].name == name
  {
    assert props[0].name != name ==> HasName(props[1..], name) by {
      var k :| 0 <= k < |props| && props[k].name == name;
      assert props[0].name != name ==> props[1..][k - 1].name == name;
    }
    if props[0].name == name then 0 else 1 + IndexOfName(props[1..], name)
  }

  lemma SameName(props: seq<Prop>, i: nat, j: nat)
    requires DistinctNames(props) && i < |props| && j < |props| && props[i].name == props[j].name
    ensures i == j
  {
  }

  lemma BagMember<T>(x: T, s: seq<T>) returns (j: nat)
    requires x in multiset(s)
    ensures j < |s| && s[j] == x
  {
    assert x in s;
    j :| 0 <= j < |s| && s[j] == x;
  }

  lemma FindAlike(p: seq<Prop>, q: seq<Prop>, n: string)
    requires DistinctNames(q) && multiset(p) == multiset(q) && HasName(p, n)
    ensures HasName(q, n) && p[IndexOfName(p, n)] == q[IndexOfName(q, n)]
  {
    var e := p[IndexOfName(p, n)];
    assert e in multiset(q);
    var j := BagMember(e, q);
    assert q[j].name == n;
    var k := IndexOfName(q, n);
    SameName(q, j, k);
  }
}
