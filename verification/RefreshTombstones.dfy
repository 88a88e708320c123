/**
 * Strict invalidation in terms of what a caller configures: the prefix, namespace, version and key limit of the
 * cached function (src/cache-function.ts:138-143) and the namespace that is invalidated (src/runtime.ts:1288-1294).
 */
module RefreshTombstones {
  import opened Refresh
  import opened Keys
  import opened KeyProofs
  import opened RefreshStrictLimits

  /** The function in its key context, with its tags invalidated in a namespace: where it looks for tombstones. */
  ghost function InContext(cfg: Config, h: Hash, c: Context, target: string): Config {
    cfg.(findsTombstones :=
      forall t :: t in cfg.tags ==> BuildTagTombstoneKey(h, c, t) == WrittenTombstoneKey(h, c.prefix, target, t))
  }

  /**
   * In its context a function finds the tombstones of its tags, or none of them: the keys of all its tags meet,
   * or no key that it reads is one under which a tombstone of any tag is written.
   */
  lemma AllOrNone(cfg: Config, h: Hash, c: Context, target: string, t: Tag, other: Tag)
    requires HexHash(h) && ValidContext(c) && ValidContext(c.(namespace := target)) && t in cfg.tags
    ensures InContext(cfg, h, c, target).findsTombstones <==> MeetsTombstones(h, c, target)
    ensures !InContext(cfg, h, c, target).findsTombstones ==>
              BuildTagTombstoneKey(h, c, t) != WrittenTombstoneKey(h, c.prefix, target, other)
  {
    hide HexHash, BuildTagTombstoneKey, WrittenTombstoneKey, MeetsTombstones;
    forall u ensures BuildTagTombstoneKey(h, c, u) == WrittenTombstoneKey(h, c.prefix, target, u)
                 <==> MeetsTombstones(h, c, target)
    {
      TombstoneKeysMeetIff(h, c, target, u, u);
    }
    TombstoneKeysMeetIff(h, c, target, t, other);
  }

  /**
   * Strict invalidation keeps its promise in every run, for any number of processes, exactly when the invalidated
   * namespace is the function's own, its version has the token of no version, and its key limit leaves 45
   * characters behind prefix and namespace.
   */
  lemma ProtectedIff(cfg: Config, h: Hash, c: Context, target: string)
    requires HexHash(h) && ValidContext(c) && ValidContext(c.(namespace := target)) && cfg.strict && cfg.tags != {}
    ensures (forall n: nat, run :: CanRun(InContext(cfg, h, c, target), Start(n), run)
               ==> Protected(After(InContext(cfg, h, c, target), Start(n), run)))
            <==> target == c.namespace && VersionToken(h, c) == HashValue(h, "", 8)
                 && c.maxKeyLength >= |c.prefix| + |c.namespace| + 45
  {
    hide HexHash, ValidContext, InContext, CanRun, After, Protected;
    var t :| t in cfg.tags;
    AllOrNone(cfg, h, c, target, t, t);
    SameOptions(cfg, h, c, target);
    ProtectedIffFinds(InContext(cfg, h, c, target));
  }

  lemma SameOptions(cfg: Config, h: Hash, c: Context, target: string)
    ensures InContext(cfg, h, c, target).strict == cfg.strict && InContext(cfg, h, c, target).tags == cfg.tags
  {
  }
}
