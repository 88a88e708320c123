/** Canonical texts are equal exactly when the values are structurally equal, and where this ends. */
module CanonicalEquality {
  import opened Wrappers
  import opened Decimal
  import opened Strings
  import opened Sorting
  import opened JsValues
  import opened Canonical
  import opened CanonicalProofs
  import Sha256

  // ----- Multisets of images

  function Omitting<T>(s: seq<T>, j: nat): (r: seq<T>)
    requires j < |s|
    ensures |r| == |s| - 1
    ensures forall k :: 0 <= k < |r| ==> r[k] == s[if k < j then k else k + 1]
  {
    s[..j] + s[j + 1..]
  }

  lemma OmittingBag<T>(s: seq<T>, j: nat)
    requires j < |s|
    ensures multiset(s) == multiset{s[j]} + multiset(Omitting(s, j))
  {
    assert s == s[..j] + [s[j]] + s[j + 1..];
  }

  predicate Agree<A(==), B(==)>(P: seq<A>, X: seq<B>, Q: seq<A>, Y: seq<B>) {
    |P| == |X| && |Q| == |Y| && forall i, j :: 0 <= i < |P| && 0 <= j < |Q| && P[i] == Q[j] ==> X[i] == Y[j]
  }

  lemma AgreeOmitting<A, B>(P: seq<A>, X: seq<B>, Q: seq<A>, Y: seq<B>, i: nat, j: nat)
    requires Agree(P, X, Q, Y) && i < |P| && j < |Q|
    ensures Agree(Omitting(P, i), Omitting(X, i), Omitting(Q, j), Omitting(Y, j))
  {
    hide Omitting;
    var P', X', Q', Y' := Omitting(P, i), Omitting(X, i), Omitting(Q, j), Omitting(Y, j);
    forall k, l | 0 <= k < |P'| && 0 <= l < |Q'| && P'[k] == Q'[l] ensures X'[k] == Y'[l] {
      var m, n := if k < i then k else k + 1, if l < j then l else l + 1;
      assert P[m] == Q[n];
    }
  }

  /**
   * Two lists of pairs: when equal first components force equal second components, equal bags of first
   * components force equal bags of second components.
   */
  lemma {:induction false} Transfer<A, B>(P: seq<A>, X: seq<B>, Q: seq<A>, Y: seq<B>)
    requires Agree(P, X, Q, Y) && multiset(P) == multiset(Q)
    ensures multiset(X) == multiset(Y)
    decreases |P|
  {
    hide Omitting;
    assert |P| == |multiset(P)| == |multiset(Q)| == |Q|;
    if P != [] {
      assert P[0] in multiset(Q);
      var j := BagMember(P[0], Q);
      AgreeOmitting(P, X, Q, Y, 0, j);
      OmittingBag(P, 0);
      OmittingBag(Q, j);
      OmittingBag(X, 0);
      OmittingBag(Y, j);
      SumCancels(P[0], multiset(Omitting(P, 0)), multiset(Omitting(Q, j)));
      Transfer(Omitting(P, 0), Omitting(X, 0), Omitting(Q, j), Omitting(Y, j));
    }
  }

  lemma SumCancels<T>(x: T, p: multiset<T>, q: multiset<T>)
    requires multiset{x} + p == multiset{x} + q
    ensures p == q
  {
    assert p == (multiset{x} + p) - multiset{x};
    assert q == (multiset{x} + q) - multiset{x};
  }

  // ----- From texts to structure

  lemma NumberInjective(m: Num, n: Num)
    requires NumOk(m) && NumOk(n) && NumberText(m) == NumberText(n)
    ensures m == n
  {
    assert !IsNumberChar('N') && !IsNumberChar('I');
    assert NumberText(m)[0] == NumberText(n)[0] && (|NumberText(m)| > 1 ==> NumberText(m)[1] == NumberText(n)[1]);
  }

  lemma NibbleInjective(i: nat, j: nat)
    requires i < 16 && j < 16 && Sha256.HEX[i] == Sha256.HEX[j]
    ensures i == j
  {
  }

  lemma SameBits(x: bv8, y: bv8)
    requires x as int == y as int
    ensures x == y
  {
    assert x as int as bv8 == x && y as int as bv8 == y;
  }

  lemma NibblesDetermine(x: bv8, y: bv8)
    requires x >> 4 == y >> 4 && x & 15 == y & 15
    ensures x == y
  {
    assert x == ((x >> 4) << 4) | (x & 15);
    assert y == ((y >> 4) << 4) | (y & 15);
  }

  lemma ByteInjective(x: bv8, y: bv8)
    requires Sha256.High(x) == Sha256.High(y) && Sha256.Low(x) == Sha256.Low(y)
    ensures x == y
  {
    SameBits(x >> 4, y >> 4);
    SameBits(x & 15, y & 15);
    NibblesDetermine(x, y);
  }

  lemma HexStep(b: seq<bv8>)
    requires b != []
    ensures Sha256.ToHex(b) == [Sha256.HEX[Sha256.High(b[0])], Sha256.HEX[Sha256.Low(b[0])]] + Sha256.ToHex(b[1..])
  {
    hide Sha256.High, Sha256.Low;
  }

  lemma {:induction false} HexInjective(a: seq<bv8>, b: seq<bv8>)
    requires Sha256.ToHex(a) == Sha256.ToHex(b)
    ensures a == b
    decreases |a|
  {
    hide Sha256.ToHex, Sha256.High, Sha256.Low;
    assert |a| == |b|;
    if a != [] {
      HexStep(a);
      HexStep(b);
      var s, t := [Sha256.HEX[Sha256.High(a[0])], Sha256.HEX[Sha256.Low(a[0])]],
          [Sha256.HEX[Sha256.High(b[0])], Sha256.HEX[Sha256.Low(b[0])]];
      SameLengthSplit(s, Sha256.ToHex(a[1..]), t, Sha256.ToHex(b[1..]));
      assert s[0] == t[0] && s[1] == t[1];
      HexInjective(a[1..], b[1..]);
      NibbleInjective(Sha256.High(a[0]), Sha256.High(b[0]));
      NibbleInjective(Sha256.Low(a[0]), Sha256.Low(b[0]));
      ByteInjective(a[0], b[0]);
      assert a == [a[0]] + a[1..] && b == [b[0]] + b[1..];
    }
  }

  lemma BinaryInjective(a: seq<bv8>, b: seq<bv8>)
    requires BinaryText(a) == BinaryText(b)
    ensures |a| > MAX_INLINE_BYTES <==> |b| > MAX_INLINE_BYTES
    ensures |a| > MAX_INLINE_BYTES ==> |a| == |b| && HashOf(a) == HashOf(b)
    ensures |a| <= MAX_INLINE_BYTES ==> a == b
  {
    hide HashOf, Sha256.ToHex, NatToString;
    NotHex(a);
    NotHex(b);
    if |a| > MAX_INLINE_BYTES {
      HashedInjective(|a|, HashOf(a), |b|, HashOf(b));
    } else {
      HexInjective(a, b);
    }
  }

  lemma HashedInjective(m: nat, g: string, n: nat, h: string)
    requires "*" + NatToString(m) + ":" + g == "*" + NatToString(n) + ":" + h
    ensures m == n && g == h
  {
    hide NatToString;
    var p, q := NatToString(m), NatToString(n);
    Shift("*", p, ":" + g);
    Shift("*", q, ":" + h);
    Shift("*" + p, ":", g);
    Shift("*" + q, ":", h);
    SameLengthSplit("*", p + (":" + g), "*", q + (":" + h));
    SplitAtFirst(p, ":" + g, q, ":" + h, ':');
    NatInjective(m, n);
    SameLengthSplit(":", g, ":", h);
  }

  lemma NotHex(bytes: seq<bv8>)
    ensures |bytes| > MAX_INLINE_BYTES <==> BinaryText(bytes) != "" && BinaryText(bytes)[0] == '*'
  {
    hide HashOf;
    var h := Sha256.ToHex(bytes);
    assert h != "" ==> h[0] in Sha256.HEX;
  }

  lemma AtomToNorm(a: Value, b: Value, names: NameSet)
    requires Eligible(a, names) && Eligible(b, names) && !IsContainer(a) && TextOf(a) == TextOf(b)
    ensures !IsContainer(b) && NormOf(a) == NormOf(b)
  {
    hide TextOf, NormOf, Eligible;
    FirstLetter(a, names);
    FirstLetter(b, names);
    SameAtom(a, b, names);
    if a.RegExp? { PatternToNorm(a, b, names); }
    else if a.Number? || a.BigInt? { NumberToNorm(a, b, names); }
    else if a.Binary? { BinaryToNorm(a, b); }
    else { ShortToNorm(a, b, names); }
  }

  lemma SameAtom(a: Value, b: Value, names: NameSet)
    requires Eligible(a, names) && Eligible(b, names) && !IsContainer(a) && Tag(a) == Tag(b)
    ensures !IsContainer(b) && a.RegExp? == b.RegExp? && a.Number? == b.Number? && a.BigInt? == b.BigInt?
    ensures a.Binary? == b.Binary? && a.Undefined? == b.Undefined? && a.Null? == b.Null? && a.Bool? == b.Bool?
    ensures a.Text? == b.Text? && a.Date? == b.Date? && a.Url? == b.Url?
    ensures a.RegExp? || a.Number? || a.BigInt? || a.Binary? || a.Undefined? || a.Null? || a.Bool? || a.Text?
            || a.Date? || a.Url?
  {
  }

  lemma PatternToNorm(a: Value, b: Value, names: NameSet)
    requires Eligible(a, names) && Eligible(b, names) && a.RegExp? && b.RegExp? && TextOf(a) == TextOf(b)
    ensures NormOf(a) == NormOf(b)
  {
    hide TextOf, Eligible, IsPattern, Clean;
    PatternText(a, names);
    PatternText(b, names);
    assert TextOf(a) + "" == TextOf(b) + "";
    PatternUnique(a.source, a.flags, b.source, b.flags, "", "");
  }

  lemma NumberToNorm(a: Value, b: Value, names: NameSet)
    requires Eligible(a, names) && Eligible(b, names) && TextOf(a) == TextOf(b)
    requires (a.Number? && b.Number?) || (a.BigInt? && b.BigInt?)
    ensures NormOf(a) == NormOf(b)
  {
    hide NumberText, IntToString;
    if a.Number? {
      SameLengthSplit("d:", NumberText(a.n), "d:", NumberText(b.n));
      NumberInjective(a.n, b.n);
    } else {
      SameLengthSplit("i:", IntToString(a.i), "i:", IntToString(b.i));
      IntInjective(a.i, b.i);
    }
  }

  lemma BinaryToNorm(a: Value, b: Value)
    requires a.Binary? && b.Binary? && TextOf(a) == TextOf(b)
    ensures NormOf(a) == NormOf(b)
  {
    hide BinaryText, HashOf;
    SameLengthSplit("B:", BinaryText(a.bytes), "B:", BinaryText(b.bytes));
    BinaryInjective(a.bytes, b.bytes);
  }

  lemma ShortToNorm(a: Value, b: Value, names: NameSet)
    requires Eligible(a, names) && Eligible(b, names) && TextOf(a) == TextOf(b)
    requires (a.Undefined? && b.Undefined?) || (a.Null? && b.Null?) || (a.Bool? && b.Bool?)
             || (a.Text? && b.Text?) || (a.Date? && b.Date?) || (a.Url? && b.Url?)
    ensures NormOf(a) == NormOf(b)
  {
    hide NatToString, Clean;
    match a
    case Text(s) =>
      assert TextOf(a) + "" == TextOf(b) + "";
      StringUnique(s, b.s, "", "");
    case Date(iso) =>
      SameLengthSplit("D:", if iso.Some? then iso.value else "invalid",
                      "D:", if b.iso.Some? then b.iso.value else "invalid");
    case Url(href) => SameLengthSplit("U:", href, "U:", b.href);
    case _ =>
  }

  lemma SameContainerText(a: Value, b: Value, names: NameSet)
    requires Eligible(a, names) && Eligible(b, names) && IsContainer(a) && TextOf(a) == TextOf(b)
    ensures IsContainer(b) && Letter(a) == Letter(b) && Parts(a) == Parts(b)
  {
    hide TextOf, Parts, Eligible, Wrapped;
    FirstLetter(a, names);
    FirstLetter(b, names);
    SameKind(a, b, names);
    ContainerText(a);
    ContainerText(b);
    PartsSep(a, b, names);
    assert Wrapped(a, Parts(a)) + "" == Wrapped(b, Parts(b)) + "" by {
      assert TextOf(a) + "" == TextOf(b) + "";
    }
    WrappedUnique(a, b, Parts(a), Parts(b), "", "");
  }

  lemma {:induction false} NormsAt(items: seq<Value>, i: nat)
    requires i < |items|
    ensures Norms(items)[i] == NormOf(items[i])
  {
    if i > 0 { NormsAt(items[1..], i - 1); }
  }

  lemma {:induction false} EntryNormsAt(entries: seq<MapEntry>, i: nat)
    requires i < |entries|
    ensures EntryNorms(entries)[i] == EntryNorm(entries[i])
  {
    if i > 0 { EntryNormsAt(entries[1..], i - 1); }
  }

  /** Equal texts come from structurally equal values. */
  lemma {:induction false} TextToNorm(a: Value, b: Value, names: NameSet)
    requires Eligible(a, names) && Eligible(b, names) && TextOf(a) == TextOf(b)
    ensures NormOf(a) == NormOf(b)
    decreases a, 1
  {
    hide TextOf, NormOf;
    if !IsContainer(a) {
      AtomToNorm(a, b, names);
    } else {
      SameContainerText(a, b, names);
      match a
      case ArrayObject(elements) => ArrayToNorm(a, b, names);
      case SetObject(items) => SetToNorm(a, b, names);
      case MapObject(entries) => MapToNorm(a, b, names);
      case Plain(props) => ObjectToNorm(a, b, names);
    }
  }

  lemma {:induction false} ArrayToNorm(a: Value, b: Value, names: NameSet)
    requires a.ArrayObject? && b.ArrayObject? && Eligible(a, names) && Eligible(b, names) && Parts(a) == Parts(b)
    ensures NormOf(a) == NormOf(b)
    decreases a, 0
  {
    hide TextOf;
    var p, q := a.elements, b.elements;
    forall i | 0 <= i < |p| ensures Norms(p)[i] == Norms(q)[i] {
      TextsAt(p, i);
      TextsAt(q, i);
      TextToNorm(p[i], q[i], names);
      NormsAt(p, i);
      NormsAt(q, i);
    }
    assert Norms(p) == Norms(q);
  }

  lemma {:induction false} SetToNorm(a: Value, b: Value, names: NameSet)
    requires a.SetObject? && b.SetObject? && Eligible(a, names) && Eligible(b, names) && Parts(a) == Parts(b)
    ensures NormOf(a) == NormOf(b)
    decreases a, 0
  {
    hide TextOf, Texts, Norms, Sort;
    var p, q := a.items, b.items;
    SortPermutes(Texts(p));
    SortPermutes(Texts(q));
    forall i, j | 0 <= i < |p| && 0 <= j < |q| && Texts(p)[i] == Texts(q)[j] ensures Norms(p)[i] == Norms(q)[j] {
      assert Eligible(p[i], names) && Eligible(q[j], names);
      ItemToNorm(p, q, i, j, names);
    }
    Transfer(Texts(p), Norms(p), Texts(q), Norms(q));
  }

  lemma {:induction false} ItemToNorm(p: seq<Value>, q: seq<Value>, i: nat, j: nat, names: NameSet)
    requires i < |p| && j < |q| && Eligible(p[i], names) && Eligible(q[j], names) && Texts(p)[i] == Texts(q)[j]
    ensures Norms(p)[i] == Norms(q)[j]
    decreases p, 0
  {
    hide TextOf, NormOf, Texts, Norms, Eligible;
    TextsAt(p, i);
    TextsAt(q, j);
    TextToNorm(p[i], q[j], names);
    NormsAt(p, i);
    NormsAt(q, j);
  }

  lemma {:induction false} EntryToNorm(e: MapEntry, f: MapEntry, names: NameSet)
    requires EligibleEntry(e, names) && EligibleEntry(f, names) && EntryText(e) == EntryText(f)
    ensures EntryNorm(e) == EntryNorm(f)
    decreases e, 0
  {
    hide TextOf;
    TextsSep(e.key, f.key, names);
    Reassociate(TextOf(e.key), TextOf(e.val), "");
    Reassociate(TextOf(f.key), TextOf(f.val), "");
    var x, y := "=" + (TextOf(e.val) + ""), "=" + (TextOf(f.val) + "");
    assert EntryText(e) + "" == EntryText(f) + "";
    SepSplit(TextOf(e.key), TextOf(f.key), x, y);
    SameLengthSplit("=", TextOf(e.val) + "", "=", TextOf(f.val) + "");
    assert TextOf(e.val) + "" == TextOf(e.val) && TextOf(f.val) + "" == TextOf(f.val);
    TextToNorm(e.key, f.key, names);
    TextToNorm(e.val, f.val, names);
  }

  lemma {:induction false} MapToNorm(a: Value, b: Value, names: NameSet)
    requires a.MapObject? && b.MapObject? && Eligible(a, names) && Eligible(b, names) && Parts(a) == Parts(b)
    ensures NormOf(a) == NormOf(b)
    decreases a, 0
  {
    hide TextOf;
    var p, q := a.entries, b.entries;
    SortPermutes(EntryTexts(p));
    SortPermutes(EntryTexts(q));
    forall i, j | 0 <= i < |p| && 0 <= j < |q| && EntryTexts(p)[i] == EntryTexts(q)[j]
      ensures EntryNorms(p)[i] == EntryNorms(q)[j]
    {
      EntryTextsAt(p, i);
      EntryTextsAt(q, j);
      EntryToNorm(p[i], q[j], names);
      EntryNormsAt(p, i);
      EntryNormsAt(q, j);
    }
    Transfer(EntryTexts(p), EntryNorms(p), EntryTexts(q), EntryNorms(q));
  }

  lemma {:induction false} PropToNorm(p: Prop, q: Prop, names: NameSet)
    requires EligibleProp(p, names) && EligibleProp(q, names) && PropText(p) == PropText(q)
    ensures p.name == q.name && ValueNorm(p) == ValueNorm(q)
    decreases p, 0
  {
    hide TextOf;
    Reassociate(p.name, TextOf(p.val), "");
    Reassociate(q.name, TextOf(q.val), "");
    var x, y := "=" + (TextOf(p.val) + ""), "=" + (TextOf(q.val) + "");
    assert PropText(p) + "" == PropText(q) + "";
    SameNames(p, "", q, "", names);
    SameLengthSplit(p.name, x, q.name, y);
    SameLengthSplit("=", TextOf(p.val) + "", "=", TextOf(q.val) + "");
    assert TextOf(p.val) + "" == TextOf(p.val) && TextOf(q.val) + "" == TextOf(q.val);
    TextToNorm(p.val, q.val, names);
  }

  lemma {:induction false} ObjectToNorm(a: Value, b: Value, names: NameSet)
    requires a.Plain? && b.Plain? && Eligible(a, names) && Eligible(b, names) && Parts(a) == Parts(b)
    ensures NormOf(a) == NormOf(b)
    decreases a, 0
  {
    hide TextOf, PropTexts, NormOf, PropNorm, Kept, Sort;
    var p, q := a.props, b.props;
    var m, n := Sort(Kept(p)), Sort(Kept(q));
    SortPermutes(Kept(p));
    SortPermutes(Kept(q));
    KeptNamed(p);
    KeptNamed(q);
    assert |m| == |Parts(a)| == |Parts(b)| == |n|;
    forall i | 0 <= i < |m|
      ensures m[i] == n[i] && m[i] in Kept(p) && n[i] in Kept(q) && PropNorm(p, m[i]) == PropNorm(q, n[i])
    {
      MemberToNorm(p, q, m, n, i, names);
    }
    assert m == n;
    SameObject(p, q, m);
  }

  lemma KeptNamed(props: seq<Prop>)
    ensures forall x :: x in Kept(props) ==> HasName(props, x)
  {
  }

  lemma {:induction false} MemberToNorm(p: seq<Prop>, q: seq<Prop>, m: seq<string>, n: seq<string>, i: nat,
      names: NameSet)
    requires forall k :: 0 <= k < |p| ==> EligibleProp(p[k], names)
    requires forall k :: 0 <= k < |q| ==> EligibleProp(q[k], names)
    requires forall x :: x in m ==> x in Kept(p) && HasName(p, x)
    requires forall x :: x in n ==> x in Kept(q) && HasName(q, x)
    requires i < |m| && i < |n| && PropTexts(p, m)[i] == PropTexts(q, n)[i]
    ensures m[i] == n[i] && m[i] in Kept(p) && n[i] in Kept(q) && PropNorm(p, m[i]) == PropNorm(q, n[i])
    decreases p, 0
  {
    hide TextOf, PropTexts;
    PropTextsAt(p, m, i);
    PropTextsAt(q, n, i);
    PropToNorm(p[IndexOfName(p, m[i])], q[IndexOfName(q, n[i])], names);
  }

  lemma SameObject(p: seq<Prop>, q: seq<Prop>, names: seq<string>)
    requires forall x :: x in names <==> x in Kept(p)
    requires forall x :: x in names <==> x in Kept(q)
    requires forall i :: 0 <= i < |names| ==> PropNorm(p, names[i]) == PropNorm(q, names[i])
    ensures NormOf(Plain(p)) == NormOf(Plain(q))
  {
    assert Members(p) == Members(q) by { MembersEqual(p, q, names); }
  }

  lemma MembersEqual(p: seq<Prop>, q: seq<Prop>, names: seq<string>)
    requires forall x :: x in names <==> x in Kept(p)
    requires forall x :: x in names <==> x in Kept(q)
    requires forall i :: 0 <= i < |names| ==> PropNorm(p, names[i]) == PropNorm(q, names[i])
    ensures Members(p) == Members(q)
  {
    hide PropNorm, Kept;
    forall x | x in Members(p) ensures x in Members(q) && Members(p)[x] == Members(q)[x] {
      assert x in names;
      var i :| 0 <= i < |names| && names[i] == x;
    }
  }

  // ----- From structure to texts

  /** Property names are pairwise different in every object of the value. */
  predicate WellFormed(v: Value) {
    match v
    case MapObject(entries) => forall i :: 0 <= i < |entries| ==> WellFormedEntry(entries[i])
    case SetObject(items) => forall i :: 0 <= i < |items| ==> WellFormed(items[i])
    case ArrayObject(elements) => forall i :: 0 <= i < |elements| ==> WellFormed(elements[i])
    case Plain(props) => DistinctNames(props) && forall i :: 0 <= i < |props| ==> WellFormedProp(props[i])
    case _ => true
  }

  predicate WellFormedEntry(e: MapEntry) {
    WellFormed(e.key) && WellFormed(e.val)
  }

  predicate WellFormedProp(p: Prop) {
    WellFormed(p.val)
  }

  lemma {:induction false} EligibleIsWellFormed(v: Value, names: NameSet)
    requires Eligible(v, names)
    ensures WellFormed(v)
  {
    match v
    case MapObject(entries) =>
      forall i | 0 <= i < |entries| ensures WellFormedEntry(entries[i]) {
        assert EligibleEntry(entries[i], names);
        EligibleIsWellFormed(entries[i].key, names);
        EligibleIsWellFormed(entries[i].val, names);
      }
    case SetObject(items) =>
      forall i | 0 <= i < |items| ensures WellFormed(items[i]) { EligibleIsWellFormed(items[i], names); }
    case ArrayObject(elements) =>
      forall i | 0 <= i < |elements| ensures WellFormed(elements[i]) { EligibleIsWellFormed(elements[i], names); }
    case Plain(props) =>
      forall i | 0 <= i < |props| ensures WellFormedProp(props[i]) {
        assert EligibleProp(props[i], names);
        EligibleIsWellFormed(props[i].val, names);
      }
    case _ =>
  }

  lemma AtomToText(a: Value, b: Value)
    requires !IsContainer(a) && NormOf(a) == NormOf(b)
    ensures !IsContainer(b) && TextOf(a) == TextOf(b)
  {
    hide HashOf, NumberText, Sha256.ToHex;
  }

  /** Structurally equal values have the same text. */
  lemma {:induction false} NormToText(a: Value, b: Value)
    requires WellFormed(a) && WellFormed(b) && NormOf(a) == NormOf(b)
    ensures TextOf(a) == TextOf(b)
    decreases a, 1
  {
    hide TextOf;
    match a
    case ArrayObject(elements) => ArrayToText(a, b);
    case SetObject(items) => SetToText(a, b);
    case MapObject(entries) => MapToText(a, b);
    case Plain(props) => ObjectToText(a, b);
    case _ => AtomToText(a, b);
  }

  lemma {:induction false} ArrayToText(a: Value, b: Value)
    requires a.ArrayObject? && WellFormed(a) && WellFormed(b) && NormOf(a) == NormOf(b)
    ensures TextOf(a) == TextOf(b)
    decreases a, 0
  {
    var p, q := a.elements, b.elements;
    assert Norms(p) == Norms(q);
    assert Texts(p) == Texts(q) by {
      hide TextOf, Norms, Texts;
      forall i | 0 <= i < |p| ensures Texts(p)[i] == Texts(q)[i] {
        NormsAt(p, i);
        NormsAt(q, i);
        NormToText(p[i], q[i]);
        TextsAt(p, i);
        TextsAt(q, i);
      }
    }
  }

  lemma {:induction false} SetToText(a: Value, b: Value)
    requires a.SetObject? && WellFormed(a) && WellFormed(b) && NormOf(a) == NormOf(b)
    ensures TextOf(a) == TextOf(b)
    decreases a, 0
  {
    var p, q := a.items, b.items;
    assert multiset(Norms(p)) == multiset(Norms(q));
    assert Sort(Texts(p)) == Sort(Texts(q)) by {
      hide TextOf, Norms, Texts, Sort;
      forall i, j | 0 <= i < |p| && 0 <= j < |q| && Norms(p)[i] == Norms(q)[j] ensures Texts(p)[i] == Texts(q)[j] {
        assert WellFormed(p[i]) && WellFormed(q[j]);
        ItemToText(p, q, i, j);
      }
      Transfer(Norms(p), Texts(p), Norms(q), Texts(q));
      SortIgnoresOrder(Texts(p), Texts(q));
    }
  }

  lemma {:induction false} ItemToText(p: seq<Value>, q: seq<Value>, i: nat, j: nat)
    requires i < |p| && j < |q| && WellFormed(p[i]) && WellFormed(q[j]) && Norms(p)[i] == Norms(q)[j]
    ensures Texts(p)[i] == Texts(q)[j]
    decreases p, 0
  {
    hide TextOf, Norms, Texts, WellFormed;
    NormsAt(p, i);
    NormsAt(q, j);
    NormToText(p[i], q[j]);
    TextsAt(p, i);
    TextsAt(q, j);
  }

  lemma {:induction false} MapToText(a: Value, b: Value)
    requires a.MapObject? && WellFormed(a) && WellFormed(b) && NormOf(a) == NormOf(b)
    ensures TextOf(a) == TextOf(b)
    decreases a, 0
  {
    var p, q := a.entries, b.entries;
    assert multiset(EntryNorms(p)) == multiset(EntryNorms(q));
    assert Sort(EntryTexts(p)) == Sort(EntryTexts(q)) by {
      hide TextOf, EntryNorms, EntryTexts, Sort;
      forall i, j | 0 <= i < |p| && 0 <= j < |q| && EntryNorms(p)[i] == EntryNorms(q)[j]
        ensures EntryTexts(p)[i] == EntryTexts(q)[j]
      {
        EntryNormsAt(p, i);
        EntryNormsAt(q, j);
        assert WellFormedEntry(p[i]) && WellFormedEntry(q[j]);
        NormToText(p[i].key, q[j].key);
        NormToText(p[i].val, q[j].val);
        EntryTextsAt(p, i);
        EntryTextsAt(q, j);
      }
      Transfer(EntryNorms(p), EntryTexts(p), EntryNorms(q), EntryTexts(q));
      SortIgnoresOrder(EntryTexts(p), EntryTexts(q));
    }
  }

  lemma FirstNameOnce(props: seq<Prop>)
    requires DistinctNames(props) && props != []
    ensures props[0].name !in Kept(props[1..])
  {
    forall i | 0 <= i < |props[1..]| ensures props[1..][i].name != props[0].name {
      assert props[1..][i] == props[i + 1];
    }
  }

  lemma {:induction false} KeptOnce(props: seq<Prop>, n: string)
    requires DistinctNames(props)
    ensures multiset(Kept(props))[n] == if n in Kept(props) then 1 else 0
  {
    if props != [] {
      KeptOnce(props[1..], n);
      if props[0].val != Undefined {
        assert Kept(props) == [props[0].name] + Kept(props[1..]);
        FirstNameOnce(props);
      }
    }
  }

  lemma SameKept(p: seq<Prop>, q: seq<Prop>)
    requires DistinctNames(p) && DistinctNames(q)
    requires forall n :: n in Kept(p) <==> n in Kept(q)
    ensures Sort(Kept(p)) == Sort(Kept(q))
  {
    hide Kept;
    forall n ensures multiset(Kept(p))[n] == multiset(Kept(q))[n] {
      KeptOnce(p, n);
      KeptOnce(q, n);
    }
    assert multiset(Kept(p)) == multiset(Kept(q));
    SortIgnoresOrder(Kept(p), Kept(q));
  }

  lemma SameMembers(p: seq<Prop>, q: seq<Prop>)
    requires NormOf(Plain(p)) == NormOf(Plain(q))
    ensures forall n :: n in Kept(p) <==> n in Kept(q)
    ensures forall n :: n in Kept(p) && n in Kept(q) ==> PropNorm(p, n) == PropNorm(q, n)
  {
    hide Kept, PropNorm;
    assert Members(p) == Members(q);
    MembersSame(p, q);
  }

  lemma MembersSame(p: seq<Prop>, q: seq<Prop>)
    requires Members(p) == Members(q)
    ensures forall n :: n in Kept(p) <==> n in Kept(q)
    ensures forall n :: n in Kept(p) && n in Kept(q) ==> PropNorm(p, n) == PropNorm(q, n)
  {
    hide Kept, PropNorm;
    assert forall n :: n in Kept(p) <==> n in Members(p);
    assert forall n :: n in Kept(q) <==> n in Members(q);
    assert forall n :: n in Kept(p) && n in Kept(q) ==>
                         Members(p)[n] == PropNorm(p, n) && Members(q)[n] == PropNorm(q, n);
  }

  lemma {:induction false} MemberToText(p: seq<Prop>, q: seq<Prop>, names: seq<string>, i: nat)
    requires forall k :: 0 <= k < |p| ==> WellFormedProp(p[k])
    requires forall k :: 0 <= k < |q| ==> WellFormedProp(q[k])
    requires i < |names| && forall n :: n in names ==> HasName(p, n) && HasName(q, n)
    requires names[i] in Kept(p) && names[i] in Kept(q) && PropNorm(p, names[i]) == PropNorm(q, names[i])
    ensures PropTexts(p, names)[i] == PropTexts(q, names)[i]
    decreases p, 0
  {
    hide TextOf, NormOf, PropTexts, Kept;
    PropTextsAt(p, names, i);
    PropTextsAt(q, names, i);
    var e, f := p[IndexOfName(p, names[i])], q[IndexOfName(q, names[i])];
    assert WellFormedProp(e) && WellFormedProp(f);
    NormToText(e.val, f.val);
  }

  lemma {:induction false} ObjectToText(a: Value, b: Value)
    requires a.Plain? && WellFormed(a) && WellFormed(b) && NormOf(a) == NormOf(b)
    ensures TextOf(a) == TextOf(b)
    decreases a, 0
  {
    hide NormOf, TextOf, Kept, Sort, PropTexts;
    PlainNorm(a, b);
    var p, q := a.props, b.props;
    SameMembers(p, q);
    SameKept(p, q);
    var names := Sort(Kept(p));
    SortPermutes(Kept(p));
    KeptNamed(p);
    KeptNamed(q);
    forall i | 0 <= i < |names| ensures PropTexts(p, names)[i] == PropTexts(q, names)[i] {
      assert names[i] in names;
      MemberToText(p, q, names, i);
    }
    assert PropTexts(p, names) == PropTexts(q, names);
    assert Parts(a) == Parts(b);
    ContainerText(a);
    ContainerText(b);
  }

  lemma PlainNorm(a: Value, b: Value)
    requires a.Plain? && NormOf(a) == NormOf(b)
    ensures b.Plain?
  {
  }

  // ----- The theorem and its limits

  /** Two arguments share a text exactly when they are structurally equal. */
  lemma SameTextIffSameStructure(a: Value, b: Value, names: NameSet)
    requires Eligible(a, names) && Eligible(b, names)
    ensures TextOf(a) == TextOf(b) <==> NormOf(a) == NormOf(b)
  {
    hide TextOf, NormOf, Eligible;
    if TextOf(a) == TextOf(b) { TextToNorm(a, b, names); }
    if NormOf(a) == NormOf(b) {
      EligibleIsWellFormed(a, names);
      EligibleIsWellFormed(b, names);
      NormToText(a, b);
    }
  }

  /** The order in which an object's properties were added does not show. */
  lemma PropertyOrderIgnored(p: seq<Prop>, q: seq<Prop>)
    requires DistinctNames(p) && DistinctNames(q) && multiset(p) == multiset(q)
    ensures TextOf(Plain(p)) == TextOf(Plain(q))
  {
    hide TextOf, Sort, PropTexts, Kept;
    forall n ensures HasName(p, n) <==> HasName(q, n)
      ensures HasName(p, n) && HasName(q, n) ==> p[IndexOfName(p, n)] == q[IndexOfName(q, n)]
    {
      if HasName(p, n) { FindAlike(p, q, n); }
      if HasName(q, n) { FindAlike(q, p, n); }
    }
    forall n ensures n in Kept(p) <==> n in Kept(q) {
      KeptIff(p, n);
      KeptIff(q, n);
    }
    SameKept(p, q);
    var names := Sort(Kept(p));
    SortPermutes(Kept(p));
    KeptNamed(p);
    KeptNamed(q);
    forall i | 0 <= i < |names| ensures PropTexts(p, names)[i] == PropTexts(q, names)[i] {
      PropTextsAt(p, names, i);
      PropTextsAt(q, names, i);
    }
    assert PropTexts(p, names) == PropTexts(q, names);
    assert Parts(Plain(p)) == Parts(Plain(q));
    ContainerText(Plain(p));
    ContainerText(Plain(q));
  }

  lemma KeptIff(props: seq<Prop>, n: string)
    requires DistinctNames(props)
    ensures n in Kept(props) <==> HasName(props, n) && props[IndexOfName(props, n)].val != Undefined
  {
    if HasName(props, n) {
      var k := IndexOfName(props, n);
      forall i | 0 <= i < |props| && props[i].name == n ensures i == k {
        SameName(props, i, k);
      }
    }
  }

  /**
   * Behind any name, a name that continues it with the opening of a string shares its text with another object,
   * for any value in any object.
   */
  lemma NameCollision(a: string, x: string, v: Value)
    requires v != Undefined
    ensures var inner := x + "=" + TextOf(v);
            var p, q := [Prop(a, Text(inner))], [Prop(a + "=s:" + NatToString(|inner|) + ":" + x, v)];
            TextOf(Plain(p)) == TextOf(Plain(q)) && NormOf(Plain(p)) != NormOf(Plain(q))
            && Continues(p[0].name, q[0].name)
  {
    hide NormOf, TextOf, Kept;
    var t := TextOf(v);
    var inner := x + "=" + t;
    var n := NatToString(|inner|);
    var name := a + "=s:" + n + ":" + x;
    OneMember(a, Text(inner));
    OneMember(name, v);
    StringText(Text(inner));
    SameWithin(a, n, x, t);
    var p, q := [Prop(a, Text(inner))], [Prop(name, v)];
    assert |a| != |name| && a in Kept(p) && a !in Kept(q);
    if NormOf(Plain(p)) == NormOf(Plain(q)) { SameMembers(p, q); }
  }

  lemma SameWithin(a: string, n: string, x: string, t: string)
    ensures a + "=" + ("s:" + n + ":" + (x + "=" + t)) == a + "=s:" + n + ":" + x + "=" + t
  {
  }

  lemma OneMember(name: string, v: Value)
    requires v != Undefined
    ensures TextOf(Plain([Prop(name, v)])) == "O:1{" + (name + "=" + TextOf(v)) + "}"
    ensures Kept([Prop(name, v)]) == [name]
  {
    hide TextOf;
    var props := [Prop(name, v)];
    assert Kept(props[1..]) == [];
    assert Sort([name]) == [name];
    assert HasName(props, name) by { assert props[0].name == name; }
    var names := [name];
    assert names[1..] == [];
    KeptNamed(props);
    assert Parts(Plain(props)) == [PropText(props[0])];
    ContainerText(Plain(props));
    assert NatToString(1) == "1";
  }

  /** Addresses containing a delimiter let two different arrays share a text, whatever the shorter address. */
  lemma UrlCollision(y: string)
    ensures var x := y + ",U:" + y;
            TextOf(ArrayObject([Url(x), Url(y)])) == TextOf(ArrayObject([Url(y), Url(x)]))
            && NormOf(ArrayObject([Url(x), Url(y)])) != NormOf(ArrayObject([Url(y), Url(x)]))
  {
    var x := y + ",U:" + y;
    TwoElements(Url(x), Url(y));
    TwoElements(Url(y), Url(x));
    SwapCollides(y);
    assert TextOf(Url(x)) == "U:" + x && TextOf(Url(y)) == "U:" + y;
    assert |x| != |y|;
    assert NormOf(Url(x)) == NAtom(Url(x)) && NormOf(Url(y)) == NAtom(Url(y));
    FirstDiffers([Url(x), Url(y)], [Url(y), Url(x)]);
  }

  lemma FirstDiffers(p: seq<Value>, q: seq<Value>)
    requires p != [] && q != [] && NormOf(p[0]) != NormOf(q[0])
    ensures NormOf(ArrayObject(p)) != NormOf(ArrayObject(q))
  {
    NormsAt(p, 0);
    NormsAt(q, 0);
    assert Norms(p) != Norms(q);
  }

  lemma SwapCollides(y: string)
    ensures var x := y + ",U:" + y; "U:" + x + "," + ("U:" + y) == "U:" + y + "," + ("U:" + x)
  {
  }

  lemma TwoElements(v: Value, w: Value)
    ensures TextOf(ArrayObject([v, w])) == "A:2[" + (TextOf(v) + "," + TextOf(w)) + "]"
  {
    hide TextOf;
    var t := [TextOf(v), TextOf(w)];
    assert [v, w][1..] == [w] && [w][1..] == [];
    assert Texts([v, w]) == t;
    ContainerText(ArrayObject([v, w]));
    assert t[1..] == [TextOf(w)];
    assert Join(t, ',') == TextOf(v) + "," + TextOf(w);
    assert NatToString(2) == "2";
    assert ['A', ':'] + "2" + ['['] == "A:2[";
  }

  // ----- Large buffers

  lemma {:induction false} HexHalf(a: seq<bv8>, n: nat)
    requires n <= |a|
    ensures Sha256.ToHex(a)[..2 * n] == Sha256.ToHex(a[..n])
  {
    hide Sha256.High, Sha256.Low;
    if n > 0 {
      HexHalf(a[1..], n - 1);
      assert a[..n][1..] == a[1..][..n - 1] && a[..n][0] == a[0];
      var head := [Sha256.HEX[Sha256.High(a[0])], Sha256.HEX[Sha256.Low(a[0])]];
      assert Sha256.ToHex(a) == head + Sha256.ToHex(a[1..]);
      assert Sha256.ToHex(a[..n]) == head + Sha256.ToHex(a[..n][1..]);
      assert (head + Sha256.ToHex(a[1..]))[..2 * n] == head + Sha256.ToHex(a[1..])[..2 * (n - 1)];
    }
  }

  /** Buffers have the same short hash exactly when the first half of their digests is the same. */
  lemma HashOfWholeBuffer(a: seq<bv8>, b: seq<bv8>)
    ensures HashOf(a) == HashOf(b) <==> Sha256.Digest(a)[..16] == Sha256.Digest(b)[..16]
  {
    hide Sha256.ToHex, Sha256.Digest;
    HexHalf(Sha256.Digest(a), 16);
    HexHalf(Sha256.Digest(b), 16);
    if HashOf(a) == HashOf(b) { HexInjective(Sha256.Digest(a)[..16], Sha256.Digest(b)[..16]); }
  }

  /**
   * Buffers above 256 bytes share a text exactly when their lengths and short hashes agree, others when they are
   * equal.
   */
  lemma BufferTexts(k: BinaryKind, a: seq<bv8>, l: BinaryKind, b: seq<bv8>)
    ensures TextOf(Binary(k, a)) == TextOf(Binary(l, b)) <==>
              if |a| > 256 then |b| > 256 && |a| == |b| && Sha256.Digest(a)[..16] == Sha256.Digest(b)[..16] else a == b
  {
    hide Sha256.ToHex, Sha256.Digest, HashOf, NatToString;
    HashOfWholeBuffer(a, b);
    if TextOf(Binary(k, a)) == TextOf(Binary(l, b)) {
      SameLengthSplit("B:", BinaryText(a), "B:", BinaryText(b));
      BinaryInjective(a, b);
    }
  }
}
