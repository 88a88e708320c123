/** Keys are bounded, keep to their namespace, and keys of different kinds never meet. */
module KeyProofs {
  import opened Wrappers
  import opened Strings
  import opened Keys
  import Sha256

  // ----- Lengths

  /** The SHA-256 of whatever bytes a text is written as has the shape that is assumed of the hash. */
  lemma ShaIsHex(utf8: string -> seq<bv8>)
    ensures HexHash(s => Sha256.ToHex(Sha256.Digest(utf8(s))))
  {
    hide Sha256.ToHex, Sha256.Digest;
    forall s ensures IsHexText(Sha256.ToHex(Sha256.Digest(utf8(s)))) {
      HexChars(Sha256.ToHex(Sha256.Digest(utf8(s))));
    }
  }

  lemma HexChars(s: string)
    requires Sha256.IsHex(s)
    ensures IsHexText(s)
  {
    forall i | 0 <= i < |s| ensures IsHexChar(s[i]) { assert s[i] in Sha256.HEX; }
  }

  /** No key is longer than its limit, whatever the limit. */
  lemma KeyBounded(h: Hash, c: Context, rest: string)
    ensures |Keyed(h, c, rest)| <= c.maxKeyLength
  {
    hide LastColon, HashValue, KeyBase;
  }

  lemma HashShape(h: Hash, value: string, length: nat)
    requires HexHash(h) && 4 <= length <= 64
    ensures |HashValue(h, value, length)| == length && IsHexText(HashValue(h, value, length))
  {
  }

  lemma BaseLength(h: Hash, c: Context)
    requires HexHash(h) && ValidContext(c)
    ensures |KeyBase(h, c)| == |c.prefix| + |c.namespace| + 13 <= 125
  {
    hide HexHash;
    HashShape(h, if c.version.Some? then c.version.value else "", 8);
  }

  /** Entry keys made from a default-length hash stay under the default limit, so they are never shortened. */
  lemma EntryKeyLength(h: Hash, c: Context, name: Option<string>, hash: string)
    requires HexHash(h) && ValidContext(c) && c.maxKeyLength == DEFAULT_MAX_KEY_LENGTH && |hash| <= DEFAULT_HASH_LENGTH
    ensures |BuildEntryKey(h, c, name, hash)| <= 199
    ensures BuildEntryKey(h, c, name, hash) == KeyBase(h, c) + (":" + EntryRest(name, hash))
  {
    hide HexHash, KeyBase, SanitizeLabel;
    BaseLength(h, c);
    LabelShape(name);
  }

  lemma ReservedKeyLength(h: Hash, c: Context, mark: string, value: string)
    requires HexHash(h) && ValidContext(c) && c.maxKeyLength == DEFAULT_MAX_KEY_LENGTH && |mark| == 7
    ensures Keyed(h, c, mark + HashValue(h, value, 24)) == KeyBase(h, c) + (":" + (mark + HashValue(h, value, 24)))
  {
    hide HexHash, KeyBase, HashValue;
    BaseLength(h, c);
    HashShape(h, value, 24);
  }

  // ----- Shortened keys

  /** A shortened key: as much of the head as fits, and a hash of the whole key. */
  lemma ShortenedForm(h: Hash, c: Context, rest: string)
    requires HexHash(h) && |KeyBase(h, c) + (":" + rest)| > c.maxKeyLength > 34
    ensures exists n, hash :: 0 <= n <= |KeyBase(h, c) + (":" + rest)| && |hash| == 32 && IsHexText(hash)
              && Keyed(h, c, rest) == (KeyBase(h, c) + (":" + rest))[..n] + (":h" + hash)
              && n <= c.maxKeyLength - 34 && (n == c.maxKeyLength - 34 || n >= |KeyBase(h, c)|)
  {
    hide HexHash, KeyBase, HashValue;
    var key := KeyBase(h, c) + (":" + rest);
    var hash := HashValue(h, key, 32);
    HashShape(h, key, 32);
    var last := LastColon(key);
    assert key[|KeyBase(h, c)|] == ':';
    assert last.Some? && last.value >= |KeyBase(h, c)|;
    var budget := c.maxKeyLength - 34;
    var n := if last.value <= budget then last.value else budget;
    assert Cut(key[..last.value], budget) == key[..n];
  }

  lemma NoColonInHex(s: string)
    requires IsHexText(s)
    ensures ':' !in s && '~' !in s && '-' !in s
  {
  }

  lemma NoColonInSafe(s: string)
    requires Safe(s)
    ensures ':' !in s && '~' !in s
  {
  }

  /** A custom key that is too long keeps its base at the default limit. */
  lemma CustomKeyForm(h: Hash, c: Context, name: Option<string>, custom: string)
    requires HexHash(h) && ValidContext(c) && c.maxKeyLength == DEFAULT_MAX_KEY_LENGTH
    ensures Keyed(h, c, CustomRest(name, custom)) == KeyBase(h, c) + (":" + CustomRest(name, custom))
            || exists hash ::
                 |hash| == 32 && IsHexText(hash)
                 && Keyed(h, c, CustomRest(name, custom)) == KeyBase(h, c) + (":h" + hash)
  {
    hide HexHash, KeyBase, CustomRest, HashValue;
    var base, rest := KeyBase(h, c), CustomRest(name, custom);
    var key := base + (":" + rest);
    if |key| > 200 {
      BaseLength(h, c);
      CustomHasNoColon(name, custom);
      var hash := HashValue(h, key, 32);
      HashShape(h, key, 32);
      OnlyLastColon(base, rest);
      assert key[..|base|] == base;
      assert Keyed(h, c, rest) == base + (":h" + hash);
    }
  }

  lemma OnlyLastColon(base: string, rest: string)
    requires ':' !in rest
    ensures LastColon(base + (":" + rest)) == Some(|base|)
  {
    hide LastColon;
    var key := base + (":" + rest);
    assert key[|base|] == ':';
    forall k | |base| < k < |key| ensures key[k] != ':' { assert key[k] == rest[k - |base| - 1]; }
    LastColonAt(key, |base|);
  }

  lemma LastColonAt(s: string, i: nat)
    requires i < |s| && s[i] == ':' && forall k :: i < k < |s| ==> s[k] != ':'
    ensures LastColon(s) == Some(i)
  {
    hide LastColon;
    var last := LastColon(s);
    assert last.Some?;
    assert last.value <= i;
  }

  lemma CustomHasNoColon(name: Option<string>, custom: string)
    ensures ':' !in CustomRest(name, custom)
  {
  }

  // ----- Namespaces

  /** Two keys with a home agree on prefix and namespace. */
  lemma HomeUnique(p: string, n: string, r: string, q: string, m: string, s: string)
    requires Safe(p) && Safe(n) && Safe(q) && Safe(m) && Home(p, n) + r == Home(q, m) + s
    ensures p == q && n == m && r == s
  {
    NoColonInSafe(p);
    NoColonInSafe(q);
    NoColonInSafe(n);
    NoColonInSafe(m);
    HomeApart(p, n, r);
    HomeApart(q, m, s);
    SplitAtFirst(p, VERSION_PART + (n + (":" + r)), q, VERSION_PART + (m + (":" + s)), ':');
    SameLengthSplit(VERSION_PART, n + (":" + r), VERSION_PART, m + (":" + s));
    SplitAtFirst(n, ":" + r, m, ":" + s, ':');
    SameLengthSplit(":", r, ":", s);
  }

  lemma HomeApart(p: string, n: string, r: string)
    ensures Home(p, n) + r == p + (VERSION_PART + (n + (":" + r)))
  {
  }

  /** A key keeps its home when it is short enough, or when the limit leaves room for it. */
  predicate RoomForHome(h: Hash, c: Context, rest: string) {
    |KeyBase(h, c) + (":" + rest)| <= c.maxKeyLength || c.maxKeyLength >= |c.prefix| + |c.namespace| + 38
  }

  lemma HomeKept(h: Hash, c: Context, rest: string)
    requires HexHash(h) && ValidContext(c) && RoomForHome(h, c, rest)
    ensures StartsWith(Keyed(h, c, rest), Home(c.prefix, c.namespace))
  {
    hide HexHash, EnforceMaxLength, HashValue;
    var key := KeyBase(h, c) + (":" + rest);
    var home := Home(c.prefix, c.namespace);
    assert key[..|home|] == home;
    if |key| <= c.maxKeyLength {
      NotShortened(h, c, rest);
    } else {
      ShortenedForm(h, c, rest);
      var n, hash :| 0 <= n <= |key| && |hash| == 32 && Keyed(h, c, rest) == key[..n] + (":h" + hash)
        && n <= c.maxKeyLength - 34 && (n == c.maxKeyLength - 34 || n >= |KeyBase(h, c)|);
      assert n >= |home| - 1;
      HeadKeepsHome(key, home, n, hash);
    }
  }

  lemma NotShortened(h: Hash, c: Context, rest: string)
    requires |KeyBase(h, c) + (":" + rest)| <= c.maxKeyLength
    ensures Keyed(h, c, rest) == KeyBase(h, c) + (":" + rest)
  {
  }

  lemma HeadKeepsHome(key: string, home: string, n: nat, hash: string)
    requires |home| <= |key| && key[..|home|] == home && home != "" && home[|home| - 1] == ':'
             && |home| - 1 <= n <= |key|
    ensures StartsWith(key[..n] + (":h" + hash), home)
  {
    var out := key[..n] + (":h" + hash);
    forall i | 0 <= i < |home| ensures out[i] == home[i] {
      if i < n { assert out[i] == key[i] == key[..|home|][i]; }
    }
    assert out[..|home|] == home;
  }

  /** Without that room the key leaves its namespace: clearing the namespace does not find it. */
  lemma HomeLost(h: Hash, c: Context, rest: string)
    requires HexHash(h) && ValidContext(c) && !RoomForHome(h, c, rest)
    ensures !StartsWith(Keyed(h, c, rest), Home(c.prefix, c.namespace))
  {
    hide HexHash, EnforceMaxLength, HashValue;
    var key := KeyBase(h, c) + (":" + rest);
    var home := Home(c.prefix, c.namespace);
    if c.maxKeyLength <= 34 {
      BareHash(h, c, rest);
      HomeHasColon(c);
    } else {
      ShortenedForm(h, c, rest);
      BaseLength(h, c);
      var n, hash :| 0 <= n <= |key| && |hash| == 32 && IsHexText(hash) && Keyed(h, c, rest) == key[..n] + (":h" + hash)
        && n <= c.maxKeyLength - 34 && (n == c.maxKeyLength - 34 || n >= |KeyBase(h, c)|);
      assert n == c.maxKeyLength - 34 < |home| - 1;
      HeadLosesHome(c, key[..n] + (":h" + hash), n, hash);
    }
  }

  lemma BareHash(h: Hash, c: Context, rest: string)
    requires HexHash(h) && |KeyBase(h, c) + (":" + rest)| > c.maxKeyLength && c.maxKeyLength <= 34
    ensures ':' !in Keyed(h, c, rest)
  {
    hide HexHash, KeyBase, HashValue, LastColon;
    var key := KeyBase(h, c) + (":" + rest);
    HashShape(h, key, 32);
    var n := if c.maxKeyLength < 5 then 4 else c.maxKeyLength - 1;
    HashShape(h, key, n);
    NoColonInHex(HashValue(h, key, n));
  }

  lemma HomeHasColon(c: Context)
    requires ValidContext(c)
    ensures ':' in Home(c.prefix, c.namespace)
  {
    assert Home(c.prefix, c.namespace)[|c.prefix|] == ':';
  }

  /** A head cut inside the home is followed by `:h` and digits, which no home continues with. */
  lemma HeadLosesHome(c: Context, out: string, n: nat, hash: string)
    requires ValidContext(c) && n < |Home(c.prefix, c.namespace)| - 1 && IsHexText(hash)
    requires |out| == n + 2 + |hash| && out[n..] == ":h" + hash
    ensures !StartsWith(out, Home(c.prefix, c.namespace))
  {
    var home := Home(c.prefix, c.namespace);
    var tail := out[n..];
    assert tail[0] == ':' && tail[1] == 'h' && tail[0] == out[n] && tail[1] == out[n + 1];
    NoColonInHex(hash);
    NoColonInSafe(c.prefix);
    NoColonInSafe(c.namespace);
    var p, last := |c.prefix|, |home| - 1;
    assert home[p] == ':' && home[p + 1] == 'v' && home[p + 2] == '1' && home[p + 3] == ':' && home[last] == ':';
    assert forall i :: 0 <= i < p ==> home[i] == c.prefix[i];
    assert forall i :: 0 <= i < |c.namespace| ==> home[p + 4 + i] == c.namespace[i];
    if home[n] != ':' {
      Differ(out, home, n);
    } else if n == p {
      Differ(out, home, n + 1);
    } else {
      assert n == p + 3;
      if last < |out| {
        assert out[last] == tail[last - n] == hash[last - n - 2];
        Differ(out, home, last);
      }
    }
  }

  lemma Differ(s: string, t: string, i: nat)
    requires i < |s| && i < |t| && s[i] != t[i]
    ensures !StartsWith(s, t)
  {
  }

  /** Clearing a namespace finds a key of the namespace exactly when the key kept its home. */
  lemma ClearedIff(h: Hash, c: Context, rest: string)
    requires HexHash(h) && ValidContext(c)
    ensures StartsWith(Keyed(h, c, rest), Home(c.prefix, c.namespace)) <==> RoomForHome(h, c, rest)
  {
    hide HexHash, Keyed, Home, RoomForHome, StartsWith;
    if RoomForHome(h, c, rest) { HomeKept(h, c, rest); } else { HomeLost(h, c, rest); }
  }

  /** With room for their home, keys are found by clearing their own namespace and by no other. */
  lemma ClearedOnlyByOwn(h: Hash, c: Context, rest: string, prefix: string, namespace: string)
    requires HexHash(h) && ValidContext(c) && RoomForHome(h, c, rest) && Safe(prefix) && Safe(namespace)
    ensures StartsWith(Keyed(h, c, rest), Home(prefix, namespace)) <==> c.prefix == prefix && c.namespace == namespace
  {
    hide HexHash, Keyed, Home, RoomForHome;
    HomeKept(h, c, rest);
    var key, own, other := Keyed(h, c, rest), Home(c.prefix, c.namespace), Home(prefix, namespace);
    if StartsWith(key, other) {
      assert own + key[|own|..] == key == other + key[|other|..];
      HomeUnique(c.prefix, c.namespace, key[|own|..], prefix, namespace, key[|other|..]);
    }
  }

  /** The default limit always leaves room. */
  lemma DefaultHasRoom(h: Hash, c: Context, rest: string)
    requires ValidContext(c) && c.maxKeyLength == DEFAULT_MAX_KEY_LENGTH
    ensures RoomForHome(h, c, rest)
  {
    hide KeyBase;
  }

  /** A smaller limit can cut a key inside its namespace; then clearing a shorter namespace deletes it. */
  lemma CutIntoOther(h: Hash, c: Context, rest: string, t: nat)
    requires HexHash(h) && ValidContext(c) && 0 < t < |c.namespace| && c.maxKeyLength == |c.prefix| + 38 + t
    requires |KeyBase(h, c) + (":" + rest)| > c.maxKeyLength
    ensures StartsWith(Keyed(h, c, rest), Home(c.prefix, c.namespace[..t]))
  {
    hide HexHash, EnforceMaxLength, HashValue;
    var key := KeyBase(h, c) + (":" + rest);
    ShortenedForm(h, c, rest);
    BaseLength(h, c);
    var n, hash :| 0 <= n <= |key| && |hash| == 32 && IsHexText(hash) && Keyed(h, c, rest) == key[..n] + (":h" + hash)
      && n <= c.maxKeyLength - 34 && (n == c.maxKeyLength - 34 || n >= |KeyBase(h, c)|);
    var other := Home(c.prefix, c.namespace[..t]);
    var home := Home(c.prefix, c.namespace);
    assert n == |other| - 1;
    assert key[..|home|] == home;
    assert home[..n] == other[..n];
    assert key[..n] == other[..n];
    assert (key[..n] + (":h" + hash))[..|other|] == other;
  }

  /** Some other prefix or namespace claims the key: clearing it deletes the key. */
  ghost predicate ClearedByOther(c: Context, key: string) {
    exists prefix, namespace ::
      ValidContext(Context(prefix, namespace, None, 0)) && (prefix != c.prefix || namespace != c.namespace)
      && StartsWith(key, Home(prefix, namespace))
  }

  /** The key is shortened, by a limit that ends inside its namespace. */
  predicate NamespaceCut(h: Hash, c: Context, rest: string) {
    |KeyBase(h, c) + (":" + rest)| > c.maxKeyLength
    && |c.prefix| + 38 < c.maxKeyLength < |c.prefix| + |c.namespace| + 38
  }

  /** A head cut in front of the namespace, with its hash behind it, begins with no home at all. */
  lemma HeadWithoutNamespace(c: Context, prefix: string, namespace: string, n: nat, hash: string)
    requires ValidContext(c) && Safe(prefix) && Safe(namespace) && namespace != "" && n <= |c.prefix| + 4
             && IsHexText(hash)
    ensures !StartsWith(Home(c.prefix, c.namespace)[..n] + (":h" + hash), Home(prefix, namespace))
  {
    var home, other := Home(c.prefix, c.namespace), Home(prefix, namespace);
    var out := home[..n] + (":h" + hash);
    NoColonInHex(hash);
    NoColonInSafe(c.prefix);
    NoColonInSafe(prefix);
    NoColonInSafe(namespace);
    var p, q, last := |c.prefix|, |prefix|, |other| - 1;
    assert other[q] == ':' && other[q + 1] == 'v' && other[q + 2] == '1' && other[q + 4] == namespace[0]
           && other[last] == ':';
    assert forall i :: 0 <= i < q ==> other[i] == prefix[i];
    assert home[p] == ':' && forall i :: 0 <= i < p && i < n ==> out[i] == c.prefix[i];
    assert out[n] == ':' && out[n + 1] == 'h';
    var first := if n <= p then n else p;
    assert out[first] == ':';
    if q != first {
      Differ(out, other, if q < first then q else first);
    } else if n <= p {
      Differ(out, other, n + 1);
    } else if n != p + 3 {
      Differ(out, other, n);
    } else if last < |out| {
      assert out[last] == (":h" + hash)[last - n];
      Differ(out, other, last);
    }
  }

  lemma NoHomeWithoutColon(key: string, prefix: string, namespace: string)
    requires ':' !in key
    ensures !StartsWith(key, Home(prefix, namespace))
  {
    var home := Home(prefix, namespace);
    assert home[|prefix|] == ':';
    if |prefix| < |key| { Differ(key, home, |prefix|); }
  }

  lemma NotClaimed(h: Hash, c: Context, rest: string, prefix: string, namespace: string)
    requires HexHash(h) && ValidContext(c) && ValidContext(Context(prefix, namespace, None, 0))
    requires (prefix != c.prefix || namespace != c.namespace) && !NamespaceCut(h, c, rest)
    ensures !StartsWith(Keyed(h, c, rest), Home(prefix, namespace))
  {
    hide HexHash, EnforceMaxLength, HashValue, StartsWith;
    var key := KeyBase(h, c) + (":" + rest);
    if RoomForHome(h, c, rest) {
      ClearedOnlyByOwn(h, c, rest, prefix, namespace);
    } else if c.maxKeyLength <= 34 {
      BareHash(h, c, rest);
      NoHomeWithoutColon(Keyed(h, c, rest), prefix, namespace);
    } else {
      ShortenedForm(h, c, rest);
      BaseLength(h, c);
      var n, hash :| 0 <= n <= |key| && |hash| == 32 && IsHexText(hash) && Keyed(h, c, rest) == key[..n] + (":h" + hash)
        && n <= c.maxKeyLength - 34 && (n == c.maxKeyLength - 34 || n >= |KeyBase(h, c)|);
      assert key[..n] == Home(c.prefix, c.namespace)[..n];
      HeadWithoutNamespace(c, prefix, namespace, n, hash);
    }
  }

  /**
   * Clearing some other prefix or namespace deletes the key exactly when the key is shortened and its limit
   * ends inside the namespace.
   */
  lemma ClearedByOtherIff(h: Hash, c: Context, rest: string)
    requires HexHash(h) && ValidContext(c)
    ensures ClearedByOther(c, Keyed(h, c, rest)) <==> NamespaceCut(h, c, rest)
  {
    hide HexHash, Keyed, Home, StartsWith, KeyBase;
    if NamespaceCut(h, c, rest) {
      var t := c.maxKeyLength - |c.prefix| - 38;
      CutIntoOther(h, c, rest, t);
      assert ValidContext(Context(c.prefix, c.namespace[..t], None, 0));
    } else {
      forall prefix, namespace | ValidContext(Context(prefix, namespace, None, 0))
          && (prefix != c.prefix || namespace != c.namespace)
        ensures !StartsWith(Keyed(h, c, rest), Home(prefix, namespace))
      {
        NotClaimed(h, c, rest, prefix, namespace);
      }
    }
  }

  // ----- Kinds

  /** Keys with a base agree on what follows it. */
  lemma RestUnique(h: Hash, a: Context, b: Context, r: string, s: string)
    requires HexHash(h) && ValidContext(a) && ValidContext(b) && KeyBase(h, a) + (":" + r) == KeyBase(h, b) + (":" + s)
    ensures r == s && a.prefix == b.prefix && a.namespace == b.namespace && VersionToken(h, a) == VersionToken(h, b)
  {
    hide HexHash, Home, HashValue;
    var x, y := VersionToken(h, a), VersionToken(h, b);
    HashShape(h, if a.version.Some? then a.version.value else "", 8);
    HashShape(h, if b.version.Some? then b.version.value else "", 8);
    Regroup(Home(a.prefix, a.namespace), x, ":" + r);
    Regroup(Home(b.prefix, b.namespace), y, ":" + s);
    HomeUnique(a.prefix, a.namespace, x + (":" + r), b.prefix, b.namespace, y + (":" + s));
    SameLengthSplit(x, ":" + r, y, ":" + s);
    SameLengthSplit(":", r, ":", s);
  }

  lemma Regroup(x: string, y: string, z: string)
    ensures (x + y) + z == x + (y + z)
  {
  }

  datatype Kind =
    | EntryKind(name: Option<string>, hash: string) | CustomKind(name: Option<string>, custom: string)
    | TagKind(tag: string) | TombstoneKind(tag: string) | LockKind(entryKey: string)

  function KeyOf(h: Hash, c: Context, k: Kind): Result<string, string> {
    match k
    case EntryKind(name, hash) => Ok(BuildEntryKey(h, c, name, hash))
    case CustomKind(name, custom) => BuildCustomEntryKey(h, c, name, custom)
    case TagKind(tag) => Ok(BuildTagIndexKey(h, c, tag))
    case TombstoneKind(tag) => Ok(BuildTagTombstoneKey(h, c, tag))
    case LockKind(entryKey) => Ok(BuildLockKey(h, c, entryKey))
  }

  /** Marks by which the kinds differ behind the base: a reserved word, or a separator after the label. */
  predicate Marked(k: Kind, rest: string) {
    rest != "" &&
    match k
    case EntryKind(name, hash) => rest[0] != '~' && ':' in rest && rest == EntryRest(name, hash)
    case CustomKind(_, _) => rest[0] != '~' && ':' !in rest
    case TagKind(_) => |rest| > 3 && rest[0] == '~' && rest[1] == 't' && rest[2] == 'a'
    case TombstoneKind(_) => |rest| > 3 && rest[0] == '~' && rest[1] == 't' && rest[2] == 'o'
    case LockKind(_) => |rest| > 3 && rest[0] == '~' && rest[1] == 'l'
  }

  /** A key at the default limit keeps its base, and its mark behind it. */
  lemma DefaultForm(h: Hash, c: Context, k: Kind) returns (rest: string)
    requires HexHash(h) && ValidContext(c) && c.maxKeyLength == DEFAULT_MAX_KEY_LENGTH && KeyOf(h, c, k).Ok?
    requires k.EntryKind? ==> |k.hash| <= DEFAULT_HASH_LENGTH
    ensures KeyOf(h, c, k) == Ok(KeyBase(h, c) + (":" + rest)) && Marked(k, rest)
  {
    hide HexHash, KeyBase, EnforceMaxLength, HashValue, SanitizeLabel;
    match k
    case EntryKind(name, hash) =>
      EntryKeyLength(h, c, name, hash);
      rest := EntryRest(name, hash);
      LabelShape(name);
      assert SafeChar(rest[0]);
      assert rest[|SanitizeLabel(name)|] == ':';
    case CustomKind(name, custom) => rest := CustomForm(h, c, name, custom);
    case TagKind(tag) =>
      ReservedKeyLength(h, c, "~tags~:", tag);
      rest := "~tags~:" + HashValue(h, tag, 24);
    case TombstoneKind(tag) =>
      ReservedKeyLength(h, c, "~tomb~:", tag);
      rest := "~tomb~:" + HashValue(h, tag, 24);
    case LockKind(entryKey) =>
      ReservedKeyLength(h, c, "~lock~:", entryKey);
      rest := "~lock~:" + HashValue(h, entryKey, 24);
  }

  lemma CustomForm(h: Hash, c: Context, name: Option<string>, custom: string) returns (rest: string)
    requires HexHash(h) && ValidContext(c) && c.maxKeyLength == DEFAULT_MAX_KEY_LENGTH && custom != ""
    ensures BuildCustomEntryKey(h, c, name, custom) == Ok(KeyBase(h, c) + (":" + rest))
    ensures rest != "" && rest[0] != '~' && ':' !in rest
  {
    hide HexHash, KeyBase, EnforceMaxLength, HashValue, SanitizeLabel;
    rest := CustomRest(name, custom);
    CustomKeyForm(h, c, name, custom);
    LabelShape(name);
    if Keyed(h, c, rest) == KeyBase(h, c) + (":" + rest) {
      assert SafeChar((SanitizeLabel(name) + (":" + custom))[0]);
    } else {
      var hash :| |hash| == 32 && IsHexText(hash) && Keyed(h, c, rest) == KeyBase(h, c) + (":h" + hash);
      rest := "h" + hash;
      assert ":" + rest == ":h" + hash;
      NoColonInHex(hash);
    }
  }

  predicate SameKind(j: Kind, k: Kind) {
    j.EntryKind? == k.EntryKind? && j.CustomKind? == k.CustomKind? && j.TagKind? == k.TagKind?
    && j.TombstoneKind? == k.TombstoneKind? && j.LockKind? == k.LockKind?
  }

  /**
   * At the default limit keys of different kinds differ, in whatever namespaces and versions; and entries share
   * a key only when their labels and hashes are the same.
   */
  lemma KindsDisjoint(h: Hash, a: Context, j: Kind, b: Context, k: Kind)
    requires HexHash(h) && ValidContext(a) && ValidContext(b)
    requires a.maxKeyLength == DEFAULT_MAX_KEY_LENGTH && b.maxKeyLength == DEFAULT_MAX_KEY_LENGTH
    requires j.EntryKind? ==> |j.hash| <= DEFAULT_HASH_LENGTH
    requires k.EntryKind? ==> |k.hash| <= DEFAULT_HASH_LENGTH
    requires KeyOf(h, a, j).Ok? && KeyOf(h, a, j) == KeyOf(h, b, k)
    ensures SameKind(j, k) && a.prefix == b.prefix && a.namespace == b.namespace
    ensures j.EntryKind? && k.EntryKind? ==> SanitizeLabel(j.name) == SanitizeLabel(k.name) && j.hash == k.hash
  {
    hide HexHash, KeyBase, KeyOf, SanitizeLabel;
    var r := DefaultForm(h, a, j);
    var s := DefaultForm(h, b, k);
    RestUnique(h, a, b, r, s);
    if j.EntryKind? && k.EntryKind? { EntriesSame(j.name, j.hash, k.name, k.hash); }
  }

  lemma EntriesSame(m: Option<string>, x: string, n: Option<string>, y: string)
    requires EntryRest(m, x) == EntryRest(n, y)
    ensures SanitizeLabel(m) == SanitizeLabel(n) && x == y
  {
    hide SanitizeLabel;
    LabelShape(m);
    LabelShape(n);
    NoColonInSafe(SanitizeLabel(m));
    NoColonInSafe(SanitizeLabel(n));
    SplitAtFirst(SanitizeLabel(m), ":" + x, SanitizeLabel(n), ":" + y, ':');
    SameLengthSplit(":", x, ":", y);
  }

  // ----- Tombstones

  /** The key under which an invalidation in a namespace stores its tombstone: default limit, no version. */
  function WrittenTombstoneKey(h: Hash, prefix: string, target: string, tag: string): string {
    BuildTagTombstoneKey(h, Context(prefix, target, None, DEFAULT_MAX_KEY_LENGTH), tag)
  }

  /** The namespace invalidated is the function's own, its version does not show, and its limit leaves room. */
  predicate MeetsTombstones(h: Hash, c: Context, target: string) {
    target == c.namespace && VersionToken(h, c) == HashValue(h, "", 8)
    && c.maxKeyLength >= |c.prefix| + |c.namespace| + 45
  }

  /** Exactly then a function reads, for a tag, what is written for a tag with the same hash. */
  lemma TombstoneKeysMeetIff(h: Hash, c: Context, target: string, tag: string, other: string)
    requires HexHash(h) && ValidContext(c) && ValidContext(Context(c.prefix, target, None, DEFAULT_MAX_KEY_LENGTH))
    ensures BuildTagTombstoneKey(h, c, tag) == WrittenTombstoneKey(h, c.prefix, target, other)
            <==> MeetsTombstones(h, c, target) && HashValue(h, tag, 24) == HashValue(h, other, 24)
  {
    hide HexHash, KeyBase, HashValue, EnforceMaxLength, VersionToken;
    var w := Context(c.prefix, target, None, DEFAULT_MAX_KEY_LENGTH);
    var r, s := "~tomb~:" + HashValue(h, tag, 24), "~tomb~:" + HashValue(h, other, 24);
    ReservedKeyLength(h, w, "~tomb~:", other);
    BaseLength(h, c);
    HashShape(h, tag, 24);
    assert |KeyBase(h, c) + (":" + r)| == |c.prefix| + |c.namespace| + 45;
    if |KeyBase(h, c) + (":" + r)| <= c.maxKeyLength {
      NotShortened(h, c, r);
      TombstonesSame(h, c, w, tag, other);
    } else {
      ShortenedIsNoTombstone(h, c, r, w, other);
    }
  }

  lemma TombstonesSame(h: Hash, c: Context, w: Context, tag: string, other: string)
    requires HexHash(h) && ValidContext(c) && ValidContext(w) && w.prefix == c.prefix && w.version == None
    ensures KeyBase(h, c) + (":" + ("~tomb~:" + HashValue(h, tag, 24)))
            == KeyBase(h, w) + (":" + ("~tomb~:" + HashValue(h, other, 24)))
            <==>
            w.namespace == c.namespace && VersionToken(h, c) == HashValue(h, "", 8)
            && HashValue(h, tag, 24) == HashValue(h, other, 24)
  {
    hide HexHash, HashValue, Home;
    var r, s := "~tomb~:" + HashValue(h, tag, 24), "~tomb~:" + HashValue(h, other, 24);
    if KeyBase(h, c) + (":" + r) == KeyBase(h, w) + (":" + s) {
      RestUnique(h, c, w, r, s);
      SameLengthSplit("~tomb~:", HashValue(h, tag, 24), "~tomb~:", HashValue(h, other, 24));
    }
  }

  /** A shortened key ends in 34 characters without a colon after its last one, a tombstone key in 24. */
  lemma ShortenedIsNoTombstone(h: Hash, c: Context, rest: string, w: Context, tag: string)
    requires HexHash(h) && |KeyBase(h, c) + (":" + rest)| > c.maxKeyLength
    ensures Keyed(h, c, rest) != KeyBase(h, w) + (":" + ("~tomb~:" + HashValue(h, tag, 24)))
  {
    hide HexHash, KeyBase, HashValue, EnforceMaxLength;
    var key, written := Keyed(h, c, rest), KeyBase(h, w) + (":" + ("~tomb~:" + HashValue(h, tag, 24)));
    HashShape(h, tag, 24);
    var colon := |written| - 25;
    assert written[colon] == ':';
    if c.maxKeyLength <= 34 {
      BareHash(h, c, rest);
    } else {
      ShortenedForm(h, c, rest);
      var n, hash :| 0 <= n <= |KeyBase(h, c) + (":" + rest)| && |hash| == 32 && IsHexText(hash)
        && key == (KeyBase(h, c) + (":" + rest))[..n] + (":h" + hash)
        && n <= c.maxKeyLength - 34 && (n == c.maxKeyLength - 34 || n >= |KeyBase(h, c)|);
      NoColonInHex(hash);
      assert |key| == |written| ==> key[colon] == (":h" + hash)[colon - n];
    }
  }

  /** With the default limit, its own namespace and no version a function finds its tombstones. */
  lemma DefaultMeetsTombstones(h: Hash, c: Context)
    requires ValidContext(c) && c.version.None? && c.maxKeyLength == DEFAULT_MAX_KEY_LENGTH
    ensures MeetsTombstones(h, c, c.namespace)
  {
  }

  /** A limit of 60 characters, which the configuration allows, hides every tombstone of the default namespace. */
  lemma ShortLimitHidesTombstones(h: Hash, tag: string, other: string)
    requires HexHash(h)
    ensures BuildTagTombstoneKey(h, Context("rsc-cache", "default", None, 60), tag)
            != WrittenTombstoneKey(h, "rsc-cache", "default", other)
  {
    hide HexHash;
    TombstoneKeysMeetIff(h, Context("rsc-cache", "default", None, 60), "default", tag, other);
  }

  // ----- What keys tell apart

  /** A hash of a given length is the beginning of the full one. */
  lemma HashIsPrefix(h: Hash, value: string, length: nat)
    requires HexHash(h) && 4 <= length <= 64
    ensures HashValue(h, value, length) == h(value)[..length]
  {
  }

  /**
   * At the default limit, keys in one namespace differ when the versions do, of the function, or of what is read and
   * written, up to the first eight digits of their hashes: a new version never reads what an old one has written.
   */
  lemma VersionsApart(h: Hash, a: Context, j: Kind, b: Context, k: Kind)
    requires HexHash(h) && ValidContext(a) && ValidContext(b)
    requires a.maxKeyLength == DEFAULT_MAX_KEY_LENGTH && b.maxKeyLength == DEFAULT_MAX_KEY_LENGTH
    requires j.EntryKind? ==> |j.hash| <= DEFAULT_HASH_LENGTH
    requires k.EntryKind? ==> |k.hash| <= DEFAULT_HASH_LENGTH
    requires KeyOf(h, a, j).Ok? && KeyOf(h, a, j) == KeyOf(h, b, k)
    ensures h(if a.version.Some? then a.version.value else "")[..8]
            == h(if b.version.Some? then b.version.value else "")[..8]
  {
    hide HexHash, KeyBase, KeyOf, HashValue;
    var r := DefaultForm(h, a, j);
    var s := DefaultForm(h, b, k);
    RestUnique(h, a, b, r, s);
    HashIsPrefix(h, if a.version.Some? then a.version.value else "", 8);
    HashIsPrefix(h, if b.version.Some? then b.version.value else "", 8);
  }

  /**
   * At the default limit, tags share index and tombstone, and entries share a lock, exactly when their hashes begin
   * alike.
   */
  lemma ReservedKeysApart(h: Hash, c: Context, x: string, y: string)
    requires HexHash(h) && ValidContext(c) && c.maxKeyLength == DEFAULT_MAX_KEY_LENGTH
    ensures BuildTagIndexKey(h, c, x) == BuildTagIndexKey(h, c, y) <==> h(x)[..24] == h(y)[..24]
    ensures BuildTagTombstoneKey(h, c, x) == BuildTagTombstoneKey(h, c, y) <==> h(x)[..24] == h(y)[..24]
    ensures BuildLockKey(h, c, x) == BuildLockKey(h, c, y) <==> h(x)[..24] == h(y)[..24]
  {
    hide HexHash, KeyBase, HashValue, EnforceMaxLength, Keyed;
    HashIsPrefix(h, x, 24);
    HashIsPrefix(h, y, 24);
    ReservedApart(h, c, "~tags~:", x, y);
    ReservedApart(h, c, "~tomb~:", x, y);
    ReservedApart(h, c, "~lock~:", x, y);
  }

  lemma ReservedApart(h: Hash, c: Context, mark: string, x: string, y: string)
    requires HexHash(h) && ValidContext(c) && c.maxKeyLength == DEFAULT_MAX_KEY_LENGTH && |mark| == 7
    ensures Keyed(h, c, mark + HashValue(h, x, 24)) == Keyed(h, c, mark + HashValue(h, y, 24))
            <==> HashValue(h, x, 24) == HashValue(h, y, 24)
  {
    hide HexHash, KeyBase, HashValue, Keyed;
    ReservedKeyLength(h, c, mark, x);
    ReservedKeyLength(h, c, mark, y);
    var r, s := mark + HashValue(h, x, 24), mark + HashValue(h, y, 24);
    if KeyBase(h, c) + (":" + r) == KeyBase(h, c) + (":" + s) {
      SameLengthSplit(KeyBase(h, c), ":" + r, KeyBase(h, c), ":" + s);
      SameLengthSplit(":", r, ":", s);
      SameLengthSplit(mark, HashValue(h, x, 24), mark, HashValue(h, y, 24));
    }
  }

  /** Texts that differ in nothing but colons against dashes. */
  predicate SameButColons(a: string, b: string) {
    |a| == |b| && forall i :: 0 <= i < |a| ==> a[i] == b[i] || (a[i] in ":-" && b[i] in ":-")
  }

  /**
   * Custom keys of one function that are short enough are the same exactly when the texts differ in nothing but colons
   * against dashes.
   */
  lemma CustomKeysApart(h: Hash, c: Context, name: Option<string>, x: string, y: string)
    requires x != "" && y != ""
    requires |KeyBase(h, c)| + |SanitizeLabel(name)| + |x| + 2 <= c.maxKeyLength
    requires |KeyBase(h, c)| + |SanitizeLabel(name)| + |y| + 2 <= c.maxKeyLength
    ensures BuildCustomEntryKey(h, c, name, x) == BuildCustomEntryKey(h, c, name, y) <==> SameButColons(x, y)
  {
    hide KeyBase, SanitizeLabel;
    var l := SanitizeLabel(name);
    var r, s := Dashed(l + (":" + x)), Dashed(l + (":" + y));
    if Keyed(h, c, r) == Keyed(h, c, s) {
      SameLengthSplit(KeyBase(h, c), ":" + r, KeyBase(h, c), ":" + s);
      SameLengthSplit(":", r, ":", s);
      forall i | 0 <= i < |x| ensures x[i] == y[i] || (x[i] in ":-" && y[i] in ":-") {
        assert (l + (":" + x))[|l| + 1 + i] == x[i] && (l + (":" + y))[|l| + 1 + i] == y[i];
        assert r[|l| + 1 + i] == s[|l| + 1 + i];
      }
    }
    if SameButColons(x, y) {
      forall i | 0 <= i < |r| ensures r[i] == s[i] {
        if i > |l| { assert (l + (":" + x))[i] == x[i - |l| - 1] && (l + (":" + y))[i] == y[i - |l| - 1]; }
        else { assert (l + (":" + x))[i] == (l + (":" + y))[i]; }
      }
      assert r == s;
    }
  }

  // ----- Labels

  lemma {:induction false} SafeKept(s: string, inRun: bool)
    requires Safe(s)
    ensures ReplaceRuns(s, inRun) == s
  {
    if s != "" { SafeKept(s[1..], false); }
  }

  lemma SafeIsNoSpace(s: string)
    requires Safe(s)
    ensures Trim(s) == s
  {
    TrimNoSpace(s);
  }

  /** A name of at most 40 safe characters, with no dash at its ends, is its own label; without a name it is `fn`. */
  lemma LabelOfSafeName(name: string)
    requires Safe(name) && 0 < |name| <= 40 && name[0] != '-' && name[|name| - 1] != '-'
    ensures SanitizeLabel(Some(name)) == name
    ensures SanitizeLabel(None) == "fn"
  {
    SafeIsNoSpace(name);
    SafeKept(name, false);
  }

  lemma {:induction false} RunDropped(u: string, b: string)
    requires (forall i :: 0 <= i < |u| ==> !SafeChar(u[i])) && (b != "" ==> SafeChar(b[0]))
    ensures ReplaceRuns(u + b, true) == ReplaceRuns(b, false)
  {
    if u != "" {
      RunDropped(u[1..], b);
      assert (u + b)[1..] == u[1..] + b;
    } else {
      assert u + b == b;
    }
  }

  /** A run of other characters between safe ones becomes one dash. */
  lemma {:induction false} RunBecomesDash(a: string, u: string, b: string)
    requires Safe(a) && u != "" && (forall i :: 0 <= i < |u| ==> !SafeChar(u[i])) && (b != "" ==> SafeChar(b[0]))
    ensures ReplaceRuns(a + u + b, false) == a + "-" + ReplaceRuns(b, false)
  {
    var s := a + u + b;
    if a != "" {
      RunBecomesDash(a[1..], u, b);
      assert s[1..] == a[1..] + u + b;
    } else {
      assert s[1..] == u[1..] + b;
      RunDropped(u[1..], b);
    }
  }

  // ----- Keys that are too long

  /**
   * Keys that are cut still tell apart what is cut off: they agree only when the hashes of the whole keys begin
   * alike.
   */
  lemma LongKeysApart(h: Hash, a: Context, r: string, b: Context, s: string)
    requires HexHash(h) && a.maxKeyLength == b.maxKeyLength >= 35
    requires |KeyBase(h, a) + (":" + r)| > a.maxKeyLength && |KeyBase(h, b) + (":" + s)| > b.maxKeyLength
    requires Keyed(h, a, r) == Keyed(h, b, s)
    ensures h(KeyBase(h, a) + (":" + r))[..32] == h(KeyBase(h, b) + (":" + s))[..32]
  {
    hide HexHash, KeyBase, HashValue, EnforceMaxLength;
    var x, y := KeyBase(h, a) + (":" + r), KeyBase(h, b) + (":" + s);
    EndsInHash(h, x, a.maxKeyLength);
    EndsInHash(h, y, b.maxKeyLength);
    HashIsPrefix(h, x, 32);
    HashIsPrefix(h, y, 32);
  }

  lemma EndsInHash(h: Hash, key: string, max: nat)
    requires HexHash(h) && |key| > max >= 35
    ensures var out := EnforceMaxLength(h, key, max);
            |out| >= 32 && out[|out| - 32..] == HashValue(h, key, 32)
  {
    hide HexHash, HashValue;
    HashShape(h, key, 32);
    var last := LastColon(key);
    var head := if last.None? then "" else key[..last.value];
    var front := Cut(head, max - 34);
    var out := front + (":h" + HashValue(h, key, 32));
    assert |front| <= max - 34 && Cut(out, max) == out;
    assert out[|out| - 32..] == HashValue(h, key, 32);
  }

  /** Under limits that only leave room for a hash, keys agree only when the hashes of the whole keys begin alike. */
  lemma BareKeysApart(h: Hash, a: Context, r: string, b: Context, s: string)
    requires HexHash(h) && 5 <= a.maxKeyLength == b.maxKeyLength <= 34
    requires |KeyBase(h, a) + (":" + r)| > a.maxKeyLength && |KeyBase(h, b) + (":" + s)| > b.maxKeyLength
    requires Keyed(h, a, r) == Keyed(h, b, s)
    ensures var n := a.maxKeyLength - 1;
            h(KeyBase(h, a) + (":" + r))[..n] == h(KeyBase(h, b) + (":" + s))[..n]
  {
    hide HexHash, KeyBase, HashValue, EnforceMaxLength;
    var x, y, n := KeyBase(h, a) + (":" + r), KeyBase(h, b) + (":" + s), a.maxKeyLength - 1;
    IsHash(h, x, a.maxKeyLength);
    IsHash(h, y, b.maxKeyLength);
    HashIsPrefix(h, x, n);
    HashIsPrefix(h, y, n);
    SameLengthSplit("h", HashValue(h, x, n), "h", HashValue(h, y, n));
  }

  lemma IsHash(h: Hash, key: string, max: nat)
    requires HexHash(h) && 5 <= max <= 34 && |key| > max
    ensures EnforceMaxLength(h, key, max) == "h" + HashValue(h, key, max - 1)
  {
    hide HexHash, HashValue;
    HashShape(h, key, 32);
    HashShape(h, key, max - 1);
  }
}
