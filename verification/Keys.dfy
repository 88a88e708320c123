/**
 * Storage keys (src/keys.ts, src/hash.ts). The hash is a parameter of which only the shape of its output is
 * used.
 */
module Keys {
  import opened Wrappers
  import opened Strings

  const MAX_NAMESPACE_LENGTH := 64
  const MAX_PREFIX_LENGTH := 48
  const DEFAULT_MAX_KEY_LENGTH := 200
  const DEFAULT_HASH_LENGTH := 32
  const VERSION_PART := ":v1:"

  type Hash = string -> string

  predicate IsHexChar(c: char) {
    '0' <= c <= '9' || 'a' <= c <= 'f'
  }

  predicate IsHexText(s: string) {
    forall i :: 0 <= i < |s| ==> IsHexChar(s[i])
  }

  /** The full hash is 64 hexadecimal digits. */
  ghost predicate HexHash(h: Hash) {
    forall s :: |h(s)| == 64 && IsHexText(h(s))
  }

  function HashValue(h: Hash, value: string, length: nat): string {
    var full := h(value);
    var n := if length < 4 then 4 else length;
    if length >= |full| || n >= |full| then full else full[..n]
  }

  predicate SafeChar(c: char) {
    'a' <= c <= 'z' || 'A' <= c <= 'Z' || '0' <= c <= '9' || c == '_' || c == '.' || c == '-'
  }

  predicate Safe(s: string) {
    forall i :: 0 <= i < |s| ==> SafeChar(s[i])
  }

  datatype Context = Context(prefix: string, namespace: string, version: Option<string>, maxKeyLength: nat)

  /** Prefix and namespace as their validation leaves them. */
  predicate ValidContext(c: Context) {
    0 < |c.prefix| <= MAX_PREFIX_LENGTH && Safe(c.prefix) && 0 < |c.namespace| <= MAX_NAMESPACE_LENGTH
    && Safe(c.namespace)
  }

  // ----- Labels

  /** Every run of other characters becomes a dash. */
  function ReplaceRuns(s: string, inRun: bool): (r: string)
    ensures Safe(r)
  {
    if s == "" then ""
    else if SafeChar(s[0]) then [s[0]] + ReplaceRuns(s[1..], false)
    else (if inRun then "" else "-") + ReplaceRuns(s[1..], true)
  }

  function StripLeft(s: string): (r: string)
    ensures Safe(s) ==> Safe(r)
  {
    if s != "" && s[0] == '-' then StripLeft(s[1..]) else s
  }

  function StripRight(s: string): (r: string)
    ensures Safe(s) ==> Safe(r)
  {
    if s != "" && s[|s| - 1] == '-' then StripRight(s[..|s| - 1]) else s
  }

  function Cut(s: string, n: nat): string {
    if |s| <= n then s else s[..n]
  }

  function SanitizeLabel(name: Option<string>): string {
    var base := Trim(if name.Some? then name.value else "");
    if base == "" then "fn"
    else
      var sanitized := StripRight(StripLeft(ReplaceRuns(base, false)));
      if sanitized == "" then "fn" else Cut(sanitized, 40)
  }

  /** A label is never empty, short, and free of separators. */
  lemma LabelShape(name: Option<string>)
    ensures 0 < |SanitizeLabel(name)| <= 40 && Safe(SanitizeLabel(name))
  {
  }

  // ----- Keys

  /** What every key of a namespace begins with, and what clearing the namespace deletes. */
  function Home(prefix: string, namespace: string): string {
    prefix + (VERSION_PART + (namespace + ":"))
  }

  /** A missing version counts as an empty one. */
  function VersionToken(h: Hash, c: Context): string {
    HashValue(h, if c.version.Some? then c.version.value else "", 8)
  }

  function KeyBase(h: Hash, c: Context): string {
    Home(c.prefix, c.namespace) + VersionToken(h, c)
  }

  function LastColon(s: string): (i: Option<nat>)
    ensures i.Some? ==> i.value < |s| && s[i.value] == ':' && forall k :: i.value < k < |s| ==> s[k] != ':'
    ensures i.None? ==> ':' !in s
  {
    if s == "" then None
    else if s[|s| - 1] == ':' then Some(|s| - 1)
    else
      assert s == s[..|s| - 1] + [s[|s| - 1]];
      LastColon(s[..|s| - 1])
  }

  function EnforceMaxLength(h: Hash, key: string, max: nat): string {
    if |key| <= max then key
    else
      var hash := HashValue(h, key, DEFAULT_HASH_LENGTH);
      if |hash| + 2 >= max then Cut("h" + HashValue(h, key, if max < 5 then 4 else max - 1), max)
      else
        var last := LastColon(key);
        var head := if last.None? then "" else key[..last.value];
        Cut(Cut(head, max - (|hash| + 2)) + (":h" + hash), max)
  }

  function Keyed(h: Hash, c: Context, rest: string): string {
    EnforceMaxLength(h, KeyBase(h, c) + (":" + rest), c.maxKeyLength)
  }

  function EntryRest(name: Option<string>, hash: string): string {
    SanitizeLabel(name) + (":" + hash)
  }

  function Dashed(s: string): (r: string)
    ensures |r| == |s| && ':' !in r && forall i :: 0 <= i < |r| ==> r[i] == if s[i] == ':' then '-' else s[i]
  {
    if s == "" then "" else [if s[0] == ':' then '-' else s[0]] + Dashed(s[1..])
  }

  function CustomRest(name: Option<string>, custom: string): string {
    Dashed(SanitizeLabel(name) + (":" + custom))
  }

  function BuildEntryKey(h: Hash, c: Context, name: Option<string>, hash: string): string {
    Keyed(h, c, EntryRest(name, hash))
  }

  function BuildCustomEntryKey(h: Hash, c: Context, name: Option<string>, custom: string): Result<string, string> {
    if custom == "" then Err("key resolvers must return a non-empty string")
        else Ok(Keyed(h, c, CustomRest(name, custom)))
  }

  function BuildTagIndexKey(h: Hash, c: Context, tag: string): string {
    Keyed(h, c, "~tags~:" + HashValue(h, tag, 24))
  }

  function BuildTagTombstoneKey(h: Hash, c: Context, tag: string): string {
    Keyed(h, c, "~tomb~:" + HashValue(h, tag, 24))
  }

  function BuildLockKey(h: Hash, c: Context, entryKey: string): string {
    Keyed(h, c, "~lock~:" + HashValue(h, entryKey, 24))
  }
}
