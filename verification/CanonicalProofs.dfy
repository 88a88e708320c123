/**
 * Two arguments get the same canonical text exactly when they are structurally equal: members equal to
 * `undefined` dropped, property order, set order and map order ignored, the kind of binary buffer ignored.
 */
module CanonicalProofs {
  import opened Wrappers
  import opened Decimal
  import opened Strings
  import opened Sorting
  import opened JsValues
  import opened Canonical
  import Sha256

  // ----- Structural equality

  /** A value up to structural equality; long buffers are only known by length and hash. */
  datatype Norm =
    | NAtom(v: Value)
    | NBytes(bytes: seq<bv8>) | NHashed(len: nat, hash: string)
    | NArray(items: seq<Norm>) | NSet(members: multiset<Norm>)
    | NMap(entries: multiset<NormEntry>) | NObject(props: map<string, Norm>)

  datatype NormEntry = NormEntry(key: Norm, val: Norm)

  function NormOf(v: Value): Norm
    decreases v, 1
  {
    match v
    case Binary(_, bytes) => if |bytes| > MAX_INLINE_BYTES then NHashed(|bytes|, HashOf(bytes)) else NBytes(bytes)
    case ArrayObject(elements) => NArray(Norms(elements))
    case SetObject(items) => NSet(multiset(Norms(items)))
    case MapObject(entries) => NMap(multiset(EntryNorms(entries)))
    case Plain(props) => NObject(Members(props))
    case _ => NAtom(v)
  }

  function Norms(items: seq<Value>): (r: seq<Norm>)
    ensures |r| == |items|
    decreases items, 0
  {
    if items == [] then [] else [NormOf(items[0])] + Norms(items[1..])
  }

  function EntryNorm(e: MapEntry): NormEntry
    decreases e, 0
  {
    NormEntry(NormOf(e.key), NormOf(e.val))
  }

  function EntryNorms(entries: seq<MapEntry>): (r: seq<NormEntry>)
    ensures |r| == |entries|
    decreases entries, 0
  {
    if entries == [] then [] else [EntryNorm(entries[0])] + EntryNorms(entries[1..])
  }

  function ValueNorm(p: Prop): Norm
    decreases p, 0
  {
    NormOf(p.val)
  }

  function Members(props: seq<Prop>): map<string, Norm>
    decreases props, 1
  {
    map n | n in Kept(props) :: PropNorm(props, n)
  }

  function PropNorm(props: seq<Prop>, name: string): Norm
    requires name in Kept(props)
    decreases props, 0
  {
    assert HasName(props, name);
    ValueNorm(props[IndexOfName(props, name)])
  }

  // ----- Values that can be keyed without ambiguity

  predicate IsDelim(c: char) {
    c == ',' || c == ';' || c == '=' || c == '}' || c == ']'
  }

  predicate Clean(s: string) {
    forall i :: 0 <= i < |s| ==> !IsDelim(s[i])
  }

  predicate Delimited(r: string) {
    r == "" || IsDelim(r[0])
  }

  /**
   * The text of a regular expression as the language writes it: a `/` only behind a backslash or inside a
   * character class, no open class and no lone backslash at the end.
   */
  predicate IsPattern(s: string, inClass: bool) {
    if s == "" then !inClass
    else if s[0] == '\\' then |s| > 1 && IsPattern(s[2..], inClass)
    else if s[0] == '/' && !inClass then false
    else IsPattern(s[1..], if s[0] == '[' then true else if s[0] == ']' then false else inClass)
  }

  /** A text that begins like the text of a value and goes on, if at all, where that may end. */
  predicate BeginsLikeValue(w: string) {
    w != "" &&
    match w[0]
    case 'u' | 'n' => |w| == 1 || IsDelim(w[1])
    case 'b' => |w| > 1 && (w[1] == '0' || w[1] == '1') && (|w| == 2 || IsDelim(w[2]))
    case 'd' | 'i' | 's' | 'D' | 'U' | 'R' | 'B' | 'M' | 'S' | 'A' | 'O' => |w| > 1 && w[1] == ':'
    case _ => false
  }

  /** A name goes on behind another one with `=` and what looks like the beginning of its value. */
  predicate Continues(m: string, n: string) {
    |m| < |n| && n[..|m|] == m && n[|m|] == '=' && BeginsLikeValue(n[|m| + 1..])
  }

  predicate Unambiguous(names: set<string>) {
    forall m, n :: m in names && n in names ==> !Continues(m, n)
  }

  /** Property names none of which goes on behind another one like a value, for instance names without `=`. */
  type NameSet = names: set<string> | Unambiguous(names) witness {}

  lemma NamesWithoutEquals(names: set<string>)
    requires forall n :: n in names ==> '=' !in n
    ensures Unambiguous(names)
  {
  }

  /** Nothing that is rejected, property names from an unambiguous set, no URL containing a delimiter. */
  predicate Eligible(v: Value, names: NameSet) {
    match v
    case Number(n) => NumOk(n)
    case Date(iso) => iso.Some? ==> Clean(iso.value) && iso.value != "invalid"
    case Symbol => false
    case Function => false
    case Url(href) => Clean(href)
    case RegExp(source, flags) => IsPattern(source, false) && Clean(flags)
    case ErrorObject(_, _, _) => false
    case Instance => false
    case MapObject(entries) => forall i :: 0 <= i < |entries| ==> EligibleEntry(entries[i], names)
    case SetObject(items) => forall i :: 0 <= i < |items| ==> Eligible(items[i], names)
    case ArrayObject(elements) => forall i :: 0 <= i < |elements| ==> Eligible(elements[i], names)
    case Plain(props) => DistinctNames(props) && forall i :: 0 <= i < |props| ==> EligibleProp(props[i], names)
    case _ => true
  }

  predicate EligibleEntry(e: MapEntry, names: NameSet) {
    Eligible(e.key, names) && Eligible(e.val, names)
  }

  predicate EligibleProp(p: Prop, names: NameSet) {
    p.name in names && Eligible(p.val, names)
  }

  // ----- Unique reading of texts

  predicate ExtendsBy(p: string, q: string) {
    |p| < |q| && q[..|p|] == p && IsDelim(q[|p|])
  }

  /** Neither text continues the other with a delimiter. */
  predicate Sep(p: string, q: string) {
    !ExtendsBy(p, q) && !ExtendsBy(q, p)
  }

  lemma ShorterExtends(p: string, q: string, r: string, s: string)
    requires p + r == q + s && |p| < |q| && Delimited(r)
    ensures ExtendsBy(p, q)
  {
    assert q == (q + s)[..|q|] && p == (p + r)[..|p|];
    assert q[|p|] == (p + r)[|p|] == r[0];
  }

  lemma SepSplit(p: string, q: string, r: string, s: string)
    requires Sep(p, q) && p + r == q + s && Delimited(r) && Delimited(s)
    ensures p == q && r == s
  {
    if |p| < |q| { ShorterExtends(p, q, r, s); }
    if |q| < |p| { ShorterExtends(q, p, s, r); }
    SameLengthSplit(p, r, q, s);
  }

  /** Texts that every delimited continuation tells apart are separated. */
  lemma CleanSep(p: string, q: string)
    requires Clean(p) && Clean(q)
    ensures Sep(p, q)
  {
  }

  /** What follows the first part of a joined list. */
  function AfterHead(parts: seq<string>, sep: char, close: char, r: string): string
    requires parts != []
  {
    if |parts| == 1 then [close] + r else [sep] + (Join(parts[1..], sep) + [close] + r)
  }

  lemma JoinStep(parts: seq<string>, sep: char, close: char, r: string)
    requires parts != []
    ensures Join(parts, sep) + [close] + r == parts[0] + AfterHead(parts, sep, close, r)
  {
  }

  lemma JoinHead(P: seq<string>, Q: seq<string>, sep: char, close: char, r: string, s: string)
    requires |P| == |Q| > 0 && IsDelim(sep) && IsDelim(close) && Sep(P[0], Q[0])
    requires Join(P, sep) + [close] + r == Join(Q, sep) + [close] + s
    ensures P[0] == Q[0]
    ensures |P| == 1 ==> r == s
    ensures |P| > 1 ==> Join(P[1..], sep) + [close] + r == Join(Q[1..], sep) + [close] + s
  {
    hide Join, Sep;
    JoinStep(P, sep, close, r);
    JoinStep(Q, sep, close, s);
    SepSplit(P[0], Q[0], AfterHead(P, sep, close, r), AfterHead(Q, sep, close, s));
    if |P| == 1 {
      SameLengthSplit([close], r, [close], s);
    } else {
      SameLengthSplit([sep], Join(P[1..], sep) + [close] + r, [sep], Join(Q[1..], sep) + [close] + s);
    }
  }

  /** Lists of equal length, joined and closed, can be read back part by part. */
  lemma {:induction false} JoinUnique(P: seq<string>, Q: seq<string>, sep: char, close: char, r: string, s: string)
    requires |P| == |Q| && IsDelim(sep) && IsDelim(close)
    requires forall i, j :: 0 <= i < |P| && 0 <= j < |Q| ==> Sep(P[i], Q[j])
    requires Join(P, sep) + [close] + r == Join(Q, sep) + [close] + s
    ensures P == Q && r == s
  {
    hide Sep, IsDelim;
    if P == [] {
      assert Join(P, sep) + [close] == [close] && Join(Q, sep) + [close] == [close];
      SameLengthSplit([close], r, [close], s);
    } else {
      JoinHead(P, Q, sep, close, r, s);
      assert P == [P[0]] + P[1..] && Q == [Q[0]] + Q[1..];
      if |P| > 1 { JoinUnique(P[1..], Q[1..], sep, close, r, s); }
    }
  }

  /** The parts of a container, in the order they are written. */
  function Parts(v: Value): seq<string>
    requires IsContainer(v)
  {
    match v
    case MapObject(entries) => Sort(EntryTexts(entries))
    case SetObject(items) => Sort(Texts(items))
    case ArrayObject(elements) => Texts(elements)
    case Plain(props) =>
      SortPermutes(Kept(props));
      assert forall n :: n in Kept(props) ==> HasName(props, n);
      PropTexts(props, Sort(Kept(props)))
  }

  lemma ContainerText(v: Value)
    requires IsContainer(v)
    ensures TextOf(v) == Wrapped(v, Parts(v))
  {
  }

  lemma WrappedUnique(a: Value, b: Value, P: seq<string>, Q: seq<string>, r: string, s: string)
    requires IsContainer(a) && IsContainer(b) && Letter(a) == Letter(b)
    requires forall i, j :: 0 <= i < |P| && 0 <= j < |Q| ==> Sep(P[i], Q[j])
    requires Wrapped(a, P) + r == Wrapped(b, Q) + s
    ensures P == Q && r == s && Wrapped(a, P) == Wrapped(b, Q)
  {
    var (open, sep, close) := Bracket(a);
    var m, n := NatToString(|P|), NatToString(|Q|);
    var x, y := Join(P, sep) + [close] + r, Join(Q, sep) + [close] + s;
    assert Wrapped(a, P) + r == [Letter(a), ':'] + (m + ([open] + x));
    assert Wrapped(b, Q) + s == [Letter(b), ':'] + (n + ([open] + y));
    SameLengthSplit([Letter(a), ':'], m + ([open] + x), [Letter(b), ':'], n + ([open] + y));
    SplitAtFirst(m, [open] + x, n, [open] + y, open);
    NatInjective(|P|, |Q|);
    assert ([open] + x)[1..] == x && ([open] + y)[1..] == y;
    JoinUnique(P, Q, sep, close, r, s);
  }

  // ----- Unique reading of values

  function Tag(v: Value): char {
    match v
    case Undefined => 'u'
    case Null => 'n'
    case Bool(_) => 'b'
    case Number(_) => 'd'
    case BigInt(_) => 'i'
    case Text(_) => 's'
    case Date(_) => 'D'
    case Url(_) => 'U'
    case RegExp(_, _) => 'R'
    case Binary(_, _) => 'B'
    case MapObject(_) => 'M'
    case SetObject(_) => 'S'
    case ArrayObject(_) => 'A'
    case Plain(_) => 'O'
    case _ => '?'
  }

  lemma FirstLetter(v: Value, names: NameSet)
    requires Eligible(v, names)
    ensures TextOf(v) != "" && TextOf(v)[0] == Tag(v)
  {
    hide BinaryText, NumberText;
    if IsContainer(v) {
      ContainerText(v);
    }
  }

  /** Values whose text is a letter and a run of characters other than delimiters. */
  predicate IsPlainText(v: Value) {
    v.Undefined? || v.Null? || v.Bool? || v.Number? || v.BigInt? || v.Date? || v.Url? || v.Binary?
  }

  lemma HexClean(s: string)
    requires Sha256.IsHex(s)
    ensures Clean(s)
  {
    forall i | 0 <= i < |s| ensures !IsDelim(s[i]) {
      assert s[i] in Sha256.HEX;
    }
  }

  lemma PlainTextClean(v: Value, names: NameSet)
    requires Eligible(v, names) && IsPlainText(v)
    ensures Clean(TextOf(v))
  {
    match v
    case Number(n) => NumberClean(n);
    case BigInt(i) => IntClean(i);
    case Binary(_, bytes) => BinaryClean(bytes);
    case _ =>
  }

  lemma NumberClean(n: Num)
    requires NumOk(n)
    ensures Clean(NumberText(n))
  {
  }

  lemma IntClean(i: int)
    ensures Clean(IntToString(i))
  {
    forall k | 0 <= k < |IntToString(i)| ensures !IsDelim(IntToString(i)[k]) {
      assert IntToString(i)[k] in IntToString(i);
    }
  }

  lemma BinaryClean(bytes: seq<bv8>)
    ensures Clean(BinaryText(bytes))
  {
    hide HashOf, Sha256.ToHex, Sha256.IsHex;
    HexClean(HashOf(bytes));
    HexClean(Sha256.ToHex(bytes));
  }

  lemma StringUnique(a: string, b: string, r: string, s: string)
    requires "s:" + NatToString(|a|) + ":" + a + r == "s:" + NatToString(|b|) + ":" + b + s
    ensures a == b && r == s
  {
    hide NatToString;
    var m, n := NatToString(|a|), NatToString(|b|);
    Reassociate("s:" + m, a, r);
    Reassociate("s:" + n, b, s);
    Shift("s:", m, ":" + (a + r));
    Shift("s:", n, ":" + (b + s));
    SameLengthSplit("s:", m + (":" + (a + r)), "s:", n + (":" + (b + s)));
    SplitAtFirst(m, ":" + (a + r), n, ":" + (b + s), ':');
    NatInjective(|a|, |b|);
    assert (":" + (a + r))[1..] == a + r && (":" + (b + s))[1..] == b + s;
    SameLengthSplit(a, r, b, s);
  }

  lemma Shift(x: string, y: string, z: string)
    ensures (x + y) + z == x + (y + z)
  {
  }

  lemma Reassociate(x: string, y: string, z: string)
    ensures x + ":" + y + z == x + (":" + (y + z))
    ensures x + "=" + y + z == x + ("=" + (y + z))
  {
  }

  lemma SameKind(a: Value, b: Value, names: NameSet)
    requires Eligible(a, names) && Eligible(b, names) && Tag(a) == Tag(b)
    ensures IsPlainText(a) == IsPlainText(b) && a.Text? == b.Text? && a.RegExp? == b.RegExp?
            && IsContainer(a) == IsContainer(b)
    ensures IsPlainText(a) || a.Text? || a.RegExp? || IsContainer(a)
    ensures IsContainer(a) ==> Letter(a) == Letter(b)
  {
  }

  /** The text of a value followed by a delimiter, or by nothing, determines the text and what follows. */
  lemma {:induction false} ReadBack(a: Value, b: Value, r: string, s: string, names: NameSet)
    requires Eligible(a, names) && Eligible(b, names) && Delimited(r) && Delimited(s)
    requires TextOf(a) + r == TextOf(b) + s
    ensures TextOf(a) == TextOf(b) && r == s
    decreases a, 2
  {
    hide TextOf, Eligible, Parts, Wrapped;
    FirstLetter(a, names);
    FirstLetter(b, names);
    assert (TextOf(a) + r)[0] == TextOf(a)[0] && (TextOf(b) + s)[0] == TextOf(b)[0];
    SameKind(a, b, names);
    if IsPlainText(a) {
      PlainTextClean(a, names);
      PlainTextClean(b, names);
      CleanSep(TextOf(a), TextOf(b));
      SepSplit(TextOf(a), TextOf(b), r, s);
    } else if a.Text? {
      StringText(a);
      StringText(b);
      StringUnique(a.s, b.s, r, s);
    } else if a.RegExp? {
      PatternText(a, names);
      PatternText(b, names);
      PatternUnique(a.source, a.flags, b.source, b.flags, r, s);
    } else {
      ContainerText(a);
      ContainerText(b);
      PartsSep(a, b, names);
      WrappedUnique(a, b, Parts(a), Parts(b), r, s);
    }
  }

  lemma StringText(v: Value)
    requires v.Text?
    ensures TextOf(v) == "s:" + NatToString(|v.s|) + ":" + v.s
  {
  }

  lemma PatternText(v: Value, names: NameSet)
    requires v.RegExp? && Eligible(v, names)
    ensures TextOf(v) == "R:" + v.source + "/" + v.flags
    ensures IsPattern(v.source, false) && Clean(v.flags)
  {
  }

  /** The length of the pattern that a text begins with: up to its first bare slash. */
  function PatternEnd(t: string, inClass: bool): nat {
    if t == "" then 0
    else if t[0] == '\\' then if |t| > 1 then 2 + PatternEnd(t[2..], inClass) else 1
    else if t[0] == '/' && !inClass then 0
    else 1 + PatternEnd(t[1..], if t[0] == '[' then true else if t[0] == ']' then false else inClass)
  }

  lemma {:induction false} PatternEnds(source: string, inClass: bool, x: string)
    requires IsPattern(source, inClass)
    ensures PatternEnd(source + ("/" + x), inClass) == |source|
    decreases |source|
  {
    var t := source + ("/" + x);
    if source == "" {
      assert t == "/" + x;
    } else if source[0] == '\\' {
      PatternEnds(source[2..], inClass, x);
      assert t[2..] == source[2..] + ("/" + x);
    } else {
      PatternEnds(source[1..], if source[0] == '[' then true else if source[0] == ']' then false else inClass, x);
      assert t[1..] == source[1..] + ("/" + x);
    }
  }

  lemma PatternUnique(p: string, f: string, q: string, g: string, r: string, s: string)
    requires IsPattern(p, false) && IsPattern(q, false) && Clean(f) && Clean(g) && Delimited(r) && Delimited(s)
    requires "R:" + p + "/" + f + r == "R:" + q + "/" + g + s
    ensures p == q && f == g && r == s
  {
    var x, y := f + r, g + s;
    assert "R:" + p + "/" + f + r == "R:" + (p + ("/" + x));
    assert "R:" + q + "/" + g + s == "R:" + (q + ("/" + y));
    SameLengthSplit("R:", p + ("/" + x), "R:", q + ("/" + y));
    PatternEnds(p, false, x);
    PatternEnds(q, false, y);
    SameLengthSplit(p, "/" + x, q, "/" + y);
    SameLengthSplit("/", x, "/", y);
    CleanSep(f, g);
    SepSplit(f, g, r, s);
  }

  lemma {:induction false} TextsSep(a: Value, b: Value, names: NameSet)
    requires Eligible(a, names) && Eligible(b, names)
    ensures Sep(TextOf(a), TextOf(b))
    decreases a, 3
  {
    hide TextOf;
    var p, q := TextOf(a), TextOf(b);
    if ExtendsBy(p, q) {
      assert p + q[|p|..] == q + "";
      ReadBack(a, b, q[|p|..], "", names);
    }
    if ExtendsBy(q, p) {
      assert p + "" == q + p[|q|..];
      ReadBack(a, b, "", p[|q|..], names);
    }
  }

  lemma {:induction false} EntriesSep(e: MapEntry, f: MapEntry, names: NameSet)
    requires EligibleEntry(e, names) && EligibleEntry(f, names)
    ensures Sep(EntryText(e), EntryText(f))
    decreases e, 0
  {
    hide TextOf;
    TextsSep(e.key, f.key, names);
    TextsSep(e.val, f.val, names);
    PairSep(TextOf(e.key), TextOf(e.val), TextOf(f.key), TextOf(f.val));
  }

  lemma PairSep(k: string, v: string, k': string, v': string)
    requires Sep(k, k') && Sep(v, v')
    ensures Sep(k + "=" + v, k' + "=" + v')
  {
    var p, q := k + "=" + v, k' + "=" + v';
    if ExtendsBy(p, q) {
      var t := q[|p|..];
      assert p + t == q;
      Reassociate(k, v, t);
      Reassociate(k', v', "");
      assert q + "" == q && v' + "" == v';
      SepSplit(k, k', "=" + (v + t), "=" + v');
      assert v + t == v' + "" by { SameLengthSplit("=", v + t, "=", v'); }
      SepSplit(v, v', t, "");
    }
    if ExtendsBy(q, p) {
      var t := p[|q|..];
      assert q + t == p;
      Reassociate(k, v, "");
      Reassociate(k', v', t);
      assert p + "" == p && v + "" == v;
      SepSplit(k, k', "=" + v, "=" + (v' + t));
      assert v + "" == v' + t by { SameLengthSplit("=", v, "=", v' + t); }
      SepSplit(v, v', "", t);
    }
  }

  lemma {:induction false} PropsSep(p: Prop, q: Prop, names: NameSet)
    requires EligibleProp(p, names) && EligibleProp(q, names)
    ensures Sep(PropText(p), PropText(q))
    decreases p, 0
  {
    hide TextOf, Sep, Continues;
    TextsSep(p.val, q.val, names);
    var x, y := PropText(p), PropText(q);
    if ExtendsBy(x, y) {
      assert x + y[|x|..] == y + "";
      SameNames(p, y[|x|..], q, "", names);
    }
    if ExtendsBy(y, x) {
      assert x + "" == y + x[|y|..];
      SameNames(p, "", q, x[|y|..], names);
    }
    NotExtending(p.name, p.name);
    if p.name == q.name { PairSep(p.name, TextOf(p.val), q.name, TextOf(q.val)); }
    assert p.name == q.name || (!ExtendsBy(x, y) && !ExtendsBy(y, x));
    NotExtending(x, y);
  }

  lemma NotExtending(x: string, y: string)
    ensures !ExtendsBy(x, y) && !ExtendsBy(y, x) ==> Sep(x, y)
  {
  }

  /** The second character of a text that has one. */
  lemma SecondLetter(v: Value, names: NameSet)
    requires Eligible(v, names)
    ensures v.Undefined? || v.Null? ==> |TextOf(v)| == 1
    ensures v.Bool? ==> |TextOf(v)| == 2 && (TextOf(v)[1] == '0' || TextOf(v)[1] == '1')
    ensures !(v.Undefined? || v.Null? || v.Bool?) ==> |TextOf(v)| > 1 && TextOf(v)[1] == ':'
  {
    hide BinaryText, NumberText, Parts;
    if IsContainer(v) { ContainerText(v); }
  }

  /** What stands in front of a `=` in or behind the text of a value begins like a value. */
  lemma ValueBegins(v: Value, r: string, w: string, z: string, names: NameSet)
    requires Eligible(v, names) && Delimited(r) && TextOf(v) + r == w + "=" + z
    ensures BeginsLikeValue(w)
  {
    hide TextOf, Eligible;
    FirstLetter(v, names);
    SecondLetter(v, names);
    var t, all := TextOf(v), w + "=" + z;
    assert all[0] == t[0] && (|t| > 1 ==> all[1] == t[1]);
    assert |r| > 0 ==> all[|t|] == r[0];
    assert forall k :: 0 <= k < |w| ==> all[k] == w[k];
    assert all[|w|] == '=' && |all| == |t| + |r|;
    Letters(v, names);
  }

  lemma Letters(v: Value, names: NameSet)
    requires Eligible(v, names)
    ensures Tag(v) in "unbdisDURBMSAO"
    ensures (Tag(v) == 'u' <==> v.Undefined?) && (Tag(v) == 'n' <==> v.Null?) && (Tag(v) == 'b' <==> v.Bool?)
  {
  }

  /** Of members with the same text, up to what may follow, the longer name continues the shorter. */
  lemma LongerContinues(p: Prop, r: string, q: Prop, s: string, names: NameSet)
    requires Eligible(p.val, names) && Delimited(r) && PropText(p) + r == PropText(q) + s && |p.name| < |q.name|
    ensures Continues(p.name, q.name)
  {
    hide TextOf, BeginsLikeValue, Delimited, Eligible;
    Reassociate(p.name, TextOf(p.val), r);
    Reassociate(q.name, TextOf(q.val), s);
    LongerName(p.name, TextOf(p.val) + r, q.name, TextOf(q.val) + s);
    ValueBegins(p.val, r, q.name[|p.name| + 1..], TextOf(q.val) + s, names);
  }

  lemma SameNames(p: Prop, r: string, q: Prop, s: string, names: NameSet)
    requires EligibleProp(p, names) && EligibleProp(q, names) && Delimited(r) && Delimited(s)
    requires PropText(p) + r == PropText(q) + s
    ensures p.name == q.name
  {
    hide TextOf, Delimited, Eligible, Continues;
    Reassociate(p.name, TextOf(p.val), r);
    Reassociate(q.name, TextOf(q.val), s);
    if |p.name| == |q.name| {
      SameLengthSplit(p.name, "=" + (TextOf(p.val) + r), q.name, "=" + (TextOf(q.val) + s));
    } else if |p.name| < |q.name| {
      LongerContinues(p, r, q, s, names);
    } else {
      LongerContinues(q, s, p, r, names);
    }
  }

  lemma LongerName(m: string, x: string, n: string, y: string)
    requires m + ("=" + x) == n + ("=" + y) && |m| < |n|
    ensures n[..|m|] == m && n[|m|] == '=' && x == n[|m| + 1..] + "=" + y
  {
    var all := m + ("=" + x);
    assert n == all[..|n|] && m == all[..|m|] && all[|m|] == '=';
    assert x == all[|m| + 1..];
    assert n[|m| + 1..] + "=" + y == (n + ("=" + y))[|m| + 1..];
  }

  lemma {:induction false} TextsAt(items: seq<Value>, i: nat)
    requires i < |items|
    ensures Texts(items)[i] == TextOf(items[i])
  {
    if i > 0 { TextsAt(items[1..], i - 1); }
  }

  lemma {:induction false} EntryTextsAt(entries: seq<MapEntry>, i: nat)
    requires i < |entries|
    ensures EntryTexts(entries)[i] == EntryText(entries[i])
  {
    if i > 0 { EntryTextsAt(entries[1..], i - 1); }
  }

  lemma {:induction false} PropTextsAt(props: seq<Prop>, names: seq<string>, i: nat)
    requires i < |names| && forall n :: n in names ==> HasName(props, n)
    ensures names[i] in names && PropTexts(props, names)[i] == PropText(props[IndexOfName(props, names[i])])
    decreases i
  {
    if i > 0 { PropTextsAt(props, names[1..], i - 1); }
  }

  lemma {:induction false} PartsSep(a: Value, b: Value, names: NameSet)
    requires Eligible(a, names) && Eligible(b, names) && IsContainer(a) && IsContainer(b) && Letter(a) == Letter(b)
    ensures forall i, j :: 0 <= i < |Parts(a)| && 0 <= j < |Parts(b)| ==> Sep(Parts(a)[i], Parts(b)[j])
    decreases a, 1
  {
    forall i, j | 0 <= i < |Parts(a)| && 0 <= j < |Parts(b)| ensures Sep(Parts(a)[i], Parts(b)[j]) {
      PartSep(a, b, i, j, names);
    }
  }

  /** Where a written part comes from. */
  lemma SortedOrigin(texts: seq<string>, i: nat) returns (k: nat)
    requires i < |texts|
    ensures |Sort(texts)| == |texts| && k < |texts| && Sort(texts)[i] == texts[k]
  {
    SortPermutes(texts);
    assert Sort(texts)[i] in texts;
    k :| 0 <= k < |texts| && texts[k] == Sort(texts)[i];
  }

  lemma PartOrigin(v: Value, i: nat) returns (k: nat)
    requires IsContainer(v) && i < |Parts(v)|
    ensures v.SetObject? ==> k < |v.items| && Parts(v)[i] == TextOf(v.items[k])
    ensures v.ArrayObject? ==> k < |v.elements| && Parts(v)[i] == TextOf(v.elements[k])
    ensures v.MapObject? ==> k < |v.entries| && Parts(v)[i] == EntryText(v.entries[k])
    ensures v.Plain? ==> k < |v.props| && Parts(v)[i] == PropText(v.props[k])
  {
    hide TextOf;
    match v
    case SetObject(items) =>
      SortPermutes(Texts(items));
      k := SortedOrigin(Texts(items), i);
      TextsAt(items, k);
    case ArrayObject(elements) =>
      TextsAt(elements, i);
      k := i;
    case MapObject(entries) =>
      SortPermutes(EntryTexts(entries));
      k := SortedOrigin(EntryTexts(entries), i);
      EntryTextsAt(entries, k);
    case Plain(props) =>
      var names := Sort(Kept(props));
      SortPermutes(Kept(props));
      assert forall n :: n in Kept(props) ==> HasName(props, n);
      PropTextsAt(props, names, i);
      k := IndexOfName(props, names[i]);
  }

  lemma {:induction false} PartSep(a: Value, b: Value, i: nat, j: nat, names: NameSet)
    requires Eligible(a, names) && Eligible(b, names) && IsContainer(a) && IsContainer(b) && Letter(a) == Letter(b)
    requires i < |Parts(a)| && j < |Parts(b)|
    ensures Sep(Parts(a)[i], Parts(b)[j])
    decreases a, 0
  {
    hide TextOf, Parts, Sep;
    var k := PartOrigin(a, i);
    var l := PartOrigin(b, j);
    match a
    case SetObject(items) => TextsSep(items[k], b.items[l], names);
    case ArrayObject(elements) => TextsSep(elements[k], b.elements[l], names);
    case MapObject(entries) => EntriesSep(entries[k], b.entries[l], names);
    case Plain(props) => PropsSep(props[k], b.props[l], names);
  }
}
