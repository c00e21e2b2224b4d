/** A retention pass: list, select, delete ciphertexts, then manifests, then dangling
    manifests. Interrupted passes converge to what one uninterrupted pass leaves. */
module Prune {
  import opened Wrappers
  import opened Backups
  import opened Text
  import opened Store
  import opened Listing
  import opened Retention

  /** The parameters of a pass. */
  datatype Pass = Pass(scope: string, owner: Option<Owner>, policy: Policy)

  // --------------------------------------------------- what a pass removes

  ghost function WithState(bucket: Bucket, p: Pass, state: State): set<BackupInfo>
    requires IsScope(p.scope)
  {
    set b | b in Entries(bucket, p.scope, p.owner) && b.state == state
  }

  ghost function Dropped(bucket: Bucket, p: Pass): set<BackupInfo>
    requires IsScope(p.scope)
  {
    WithState(bucket, p, State.Valid) - KeepSet(WithState(bucket, p, State.Valid), p.policy)
  }

  /** A dangling manifest is deleted only if it is verifiably one of ours. */
  predicate OursToDelete(o: Obj, owner: Option<Owner>) {
    o.size <= MAX_MANIFEST_BYTES && o.parsed.Some? && o.parsed.value.keySchema == KEY_SCHEMA
    && Matches(owner, o.parsed.value)
  }

  ghost function DroppedCiphers(bucket: Bucket, p: Pass): set<string>
    requires IsScope(p.scope)
  {
    set b | b in Dropped(bucket, p) :: b.key
  }

  ghost function DroppedManifests(bucket: Bucket, p: Pass): set<string>
    requires IsScope(p.scope)
  {
    set b | b in Dropped(bucket, p) :: b.manifestKey
  }

  ghost function DanglingManifests(bucket: Bucket, p: Pass): set<string>
    requires IsScope(p.scope)
  {
    set b | b in WithState(bucket, p, Dangling) && b.manifestKey in bucket
            && OursToDelete(bucket[b.manifestKey], p.owner) :: b.manifestKey
  }

  ghost function RemovedBy(bucket: Bucket, p: Pass): set<string>
    requires IsScope(p.scope)
  {
    DroppedCiphers(bucket, p) + DroppedManifests(bucket, p) + DanglingManifests(bucket, p)
  }

  /** An artifact named like the bare suffix directly under the scope is one the pass is to
      remove: the guard stops the pass. */
  ghost predicate Refuses(bucket: Bucket, p: Pass)
    requires IsScope(p.scope)
  {
    CipherKey(p.scope) in RemovedBy(bucket, p) || ManifestKey(p.scope) in RemovedBy(bucket, p)
  }

  /** The bucket an uninterrupted pass leaves. */
  ghost function AfterPass(bucket: Bucket, p: Pass): Bucket
    requires IsScope(p.scope)
  {
    bucket - RemovedBy(bucket, p)
  }

  /** What a pass may have removed when it stops anywhere: no manifest before its ciphertext. */
  ghost predicate Interruptible(bucket: Bucket, p: Pass, gone: set<string>)
    requires IsScope(p.scope)
  {
    && gone <= RemovedBy(bucket, p)
    && forall b :: b in Dropped(bucket, p) && b.manifestKey in gone ==> b.key in gone
  }

  ghost predicate Interrupted(before: Bucket, after: Bucket, p: Pass)
    requires IsScope(p.scope)
  {
    exists gone: set<string> :: Interruptible(before, p, gone) && after == before - gone
  }

  // ----------------------------------------------------------- the code

  predicate GuardOk(scope: string, suffix: string, k: string) {
    scope <= k && HasSuffix(k, suffix) && |k| > |scope| + |suffix|
  }

  /** A key passes when something stands between the scope and the suffix. */
  lemma GuardMeans(scope: string, suffix: string, k: string)
    ensures GuardOk(scope, suffix, k) <==> exists name: string :: name != "" && k == scope + name + suffix
  {
    if GuardOk(scope, suffix, k) {
      assert k == scope + k[|scope|..|k| - |suffix|] + suffix;
    }
    forall name: string | name != "" && k == scope + name + suffix
      ensures GuardOk(scope, suffix, k)
    {
      assert k == scope + (name + suffix);
    }
  }

  method GuardKeys(scope: string, suffix: string, keys: seq<string>) returns (err: Option<Error>)
    ensures err.None? <==> forall k :: k in keys ==> GuardOk(scope, suffix, k)
    ensures err.Some? ==> err.value.Refused? && err.value.key in keys && !GuardOk(scope, suffix, err.value.key)
  {
    for i := 0 to |keys|
      invariant forall j :: 0 <= j < i ==> GuardOk(scope, suffix, keys[j])
    {
      var k := keys[i];
      if !(scope <= k) || !HasSuffix(k, suffix) || |k| <= |scope| + |suffix| {
        assert k in keys;
        return Some(Refused(k));
      }
    }
    return None;
  }

  ghost function KeySet(keys: seq<string>): set<string> {
    set k | k in keys
  }

  method DeleteBatches(store: ObjectStore, keys: seq<string>)
    returns (err: Option<Error>, ghost gone: set<string>)
    modifies store
    ensures gone <= KeySet(keys) && store.objects == old(store.objects) - gone
    ensures err.None? ==> gone == KeySet(keys)
    ensures old(store.faults) <= store.faults && (err.Some? ==> old(store.faults) < store.faults)
  {
    gone := {};
    var start := 0;
    while start < |keys|
      invariant 0 <= start <= |keys|
      invariant gone == KeySet(keys[..start])
      invariant old(store.faults) <= store.faults
      invariant store.objects == old(store.objects) - gone
    {
      var end := if start + DELETE_BATCH < |keys| then start + DELETE_BATCH else |keys|;
      var out, batchGone := store.DeleteObjects(keys[start..end]);
      assert keys[..end] == keys[..start] + keys[start..end];
      gone := gone + batchGone;
      if out.Failure? {
        return Some(out.error), gone;
      }
      if |out.value| > 0 {
        return Some(Refused(out.value[0])), gone;
      }
      start := end;
    }
    assert keys[..|keys|] == keys;
    return None, gone;
  }

  function CipherKeys(backups: seq<BackupInfo>): (keys: seq<string>)
    ensures |keys| == |backups| && forall i :: 0 <= i < |backups| ==> keys[i] == backups[i].key
  {
    seq(|backups|, i requires 0 <= i < |backups| => backups[i].key)
  }

  function ManifestKeys(backups: seq<BackupInfo>): (keys: seq<string>)
    ensures |keys| == |backups| && forall i :: 0 <= i < |backups| ==> keys[i] == backups[i].manifestKey
  {
    seq(|backups|, i requires 0 <= i < |backups| => backups[i].manifestKey)
  }

  ghost predicate AllGuarded(scope: string, backups: seq<BackupInfo>) {
    forall b :: b in backups ==>
      GuardOk(scope, CIPHERTEXT_SUFFIX, b.key) && GuardOk(scope, MANIFEST_SUFFIX, b.manifestKey)
  }

  lemma GuardedKeys(scope: string, backups: seq<BackupInfo>)
    ensures AllGuarded(scope, backups)
       <==> (forall k :: k in CipherKeys(backups) ==> GuardOk(scope, CIPHERTEXT_SUFFIX, k))
            && (forall k :: k in ManifestKeys(backups) ==> GuardOk(scope, MANIFEST_SUFFIX, k))
  {
    hide GuardOk;
    forall b | b in backups
      ensures b.key in CipherKeys(backups) && b.manifestKey in ManifestKeys(backups)
    {
      var i :| 0 <= i < |backups| && backups[i] == b;
      assert CipherKeys(backups)[i] == b.key && ManifestKeys(backups)[i] == b.manifestKey;
    }
  }

  /** Ciphertexts before manifests; one foreign key stops everything before it starts. */
  method DeleteBackups(store: ObjectStore, scope: string, backups: seq<BackupInfo>)
    returns (err: Option<Error>, ghost gone: set<string>)
    modifies store
    ensures store.objects == old(store.objects) - gone
    ensures gone <= KeySet(CipherKeys(backups)) + KeySet(ManifestKeys(backups))
    ensures gone <= KeySet(CipherKeys(backups)) || KeySet(CipherKeys(backups)) <= gone
    ensures !AllGuarded(scope, backups) ==> err.Some? && err.value.Refused? && gone == {}
    ensures err.None? ==> gone == KeySet(CipherKeys(backups)) + KeySet(ManifestKeys(backups))
    ensures old(store.faults) <= store.faults
    ensures err.Some? && AllGuarded(scope, backups) ==> old(store.faults) < store.faults
  {
    hide GuardOk;
    var ciphers: seq<string> := [];
    var manifests: seq<string> := [];
    for i := 0 to |backups|
      invariant ciphers == CipherKeys(backups)[..i] && manifests == ManifestKeys(backups)[..i]
    {
      ciphers := ciphers + [backups[i].key];
      manifests := manifests + [backups[i].manifestKey];
    }
    assert ciphers == CipherKeys(backups) && manifests == ManifestKeys(backups);
    gone := {};
    err := GuardKeys(scope, CIPHERTEXT_SUFFIX, ciphers);
    GuardedKeys(scope, backups);
    if err.Some? {
      return;
    }
    err := GuardKeys(scope, MANIFEST_SUFFIX, manifests);
    if err.Some? {
      return;
    }
    err, gone := DeleteBatches(store, ciphers);
    if err.Some? {
      return;
    }
    ghost var more;
    err, more := DeleteBatches(store, manifests);
    gone := gone + more;
  }

  method DeleteKeys(store: ObjectStore, scope: string, suffix: string, keys: seq<string>)
    returns (err: Option<Error>, ghost gone: set<string>)
    modifies store
    ensures gone <= KeySet(keys) && store.objects == old(store.objects) - gone
    ensures err.None? ==> gone == KeySet(keys)
    ensures !(forall k :: k in keys ==> GuardOk(scope, suffix, k)) ==> err.Some? && gone == {}
    ensures old(store.faults) <= store.faults
    ensures err.Some? && (forall k :: k in keys ==> GuardOk(scope, suffix, k)) ==> old(store.faults) < store.faults
  {
    gone := {};
    err := GuardKeys(scope, suffix, keys);
    if err.Some? {
      return;
    }
    err, gone := DeleteBatches(store, keys);
  }

  /** The dangling manifests this build may delete; a read that fails fails the pass. */
  method DeletableDangling(store: ObjectStore, owner: Option<Owner>, keys: seq<string>)
    returns (r: Result<seq<string>, Error>)
    modifies store`faults
    ensures old(store.faults) <= store.faults
    ensures r.Failure? && (forall k :: k in keys ==> k in store.objects) ==> old(store.faults) < store.faults
    ensures r.Success? ==>
              && (forall k :: k in keys ==> k in store.objects)
              && KeySet(r.value) == set k | k in keys && k in store.objects && OursToDelete(store.objects[k], owner)
    ensures r.Success? ==>
              forall k | k in keys :: k in store.objects &&
                (k in r.value <==>
                  && store.objects[k].size <= 1048576 && store.objects[k].parsed.Some?
                  && var m := store.objects[k].parsed.value;
                  && m.keySchema == 1
                  && (owner.Some? ==> m.engine == owner.value.engine && m.cluster == owner.value.cluster
                                      && m.database == owner.value.database))
  {
    var out: seq<string> := [];
    for i := 0 to |keys|
      invariant forall k :: k in KeySet(keys[..i]) ==> k in store.objects
      invariant old(store.faults) <= store.faults
      invariant KeySet(out)
             == set k | k in KeySet(keys[..i]) && k in store.objects && OursToDelete(store.objects[k], owner)
    {
      assert KeySet(keys[..i + 1]) == KeySet(keys[..i]) + {keys[i]} by {
        assert keys[..i + 1] == keys[..i] + [keys[i]];
      }
      var obj :- store.GetObject(keys[i]);
      if obj.size > MAX_MANIFEST_BYTES {
        continue;
      }
      if obj.parsed.None? || obj.parsed.value.keySchema != KEY_SCHEMA || !Matches(owner, obj.parsed.value) {
        continue;
      }
      assert KeySet(out + [keys[i]]) == KeySet(out) + {keys[i]};
      out := out + [keys[i]];
    }
    assert keys[..|keys|] == keys;
    assert forall k :: k in out <==> k in KeySet(out);
    return Success(out);
  }

  datatype PruneResult = PruneResult(
    kept: seq<BackupInfo>,
    deleted: seq<BackupInfo>,
    danglingDeleted: seq<string>,
    orphans: seq<BackupInfo>)

  method SortOut(listing: seq<BackupInfo>)
    returns (orphans: seq<BackupInfo>, danglingKeys: seq<string>)
    ensures Elements(orphans) == set b | b in Elements(listing) && b.state == Orphan
    ensures KeySet(danglingKeys) == set b | b in Elements(listing) && b.state == Dangling :: b.manifestKey
  {
    orphans, danglingKeys := [], [];
    for i := 0 to |listing|
      invariant Elements(orphans) == set b | b in Elements(listing[..i]) && b.state == Orphan
      invariant KeySet(danglingKeys) == set b | b in Elements(listing[..i]) && b.state == Dangling :: b.manifestKey
    {
      var b := listing[i];
      assert Elements(listing[..i + 1]) == Elements(listing[..i]) + {b} by {
        assert listing[..i + 1] == listing[..i] + [b];
      }
      match b.state {
        case Orphan =>
          assert Elements(orphans + [b]) == Elements(orphans) + {b};
          orphans := orphans + [b];
        case Dangling =>
          assert KeySet(danglingKeys + [b.manifestKey]) == KeySet(danglingKeys) + {b.manifestKey};
          danglingKeys := danglingKeys + [b.manifestKey];
        case _ =>
      }
    }
    assert listing[..|listing|] == listing;
  }

  /** List, read what dangles, select. */
  method SelectPass(store: ObjectStore, p: Pass)
    returns (res: PruneResult, dangling: seq<string>, err: Option<Error>)
    requires IsScope(p.scope)
    modifies store`faults
    ensures old(store.faults) <= store.faults && (err.Some? ==> old(store.faults) < store.faults)
    ensures res.danglingDeleted == []
    ensures err.None? ==>
              && Elements(res.kept) == KeepSet(WithState(store.objects, p, State.Valid), p.policy)
              && Elements(res.deleted) == Dropped(store.objects, p)
              && Elements(res.orphans) == WithState(store.objects, p, Orphan)
              && KeySet(CipherKeys(res.deleted)) == DroppedCiphers(store.objects, p)
              && KeySet(ManifestKeys(res.deleted)) == DroppedManifests(store.objects, p)
              && KeySet(dangling) == DanglingManifests(store.objects, p)
  {
    hide Entries, KeepSet, DistinctKeys, DroppedCiphers, DroppedManifests, DanglingManifests, Dropped,
      NewestFirst, Stems, OursToDelete;
    res := PruneResult([], [], [], []);
    dangling := [];
    var r := ListBackups(store, p.scope, p.owner);
    if r.Failure? {
      return res, dangling, Some(r.error);
    }
    var listing := r.value;
    var orphans, danglingKeys := SortOut(listing);
    res := res.(orphans := orphans);
    DanglingKeysExist(store.objects, p, listing, danglingKeys);
    var d := DeletableDangling(store, p.owner, danglingKeys);
    if d.Failure? {
      return res, dangling, Some(d.error);
    }
    dangling := d.value;
    var kept, deleted := SelectRetention(listing, p.policy);
    SelectedFromListing(store.objects, p, listing, kept, deleted);
    DanglingFromListing(store.objects, p, listing, danglingKeys, dangling);
    return res.(kept := kept, deleted := deleted), dangling, None;
  }

  /** The pass. Wherever it stops, what it removed is Interruptible; if it finishes, the
      bucket is AfterPass; a dry run removes nothing and reports the same selection. The
      backups it selects from, the manifests it takes for dangling and whatever it removes
      are told by the manifest beside each key, of exactly schema 1 and of this owner. */
  method PruneWith(store: ObjectStore, p: Pass, dryRun: bool)
    returns (res: PruneResult, err: Option<Error>, ghost gone: set<string>)
    requires IsScope(p.scope)
    modifies store
    ensures store.objects == old(store.objects) - gone
    ensures Interruptible(old(store.objects), p, gone)
    ensures dryRun ==> gone == {}
    ensures err.None? && !dryRun ==> gone == RemovedBy(old(store.objects), p)
    ensures err.None? ==>
              && Elements(res.kept) == KeepSet(WithState(old(store.objects), p, State.Valid), p.policy)
              && Elements(res.deleted) == Dropped(old(store.objects), p)
              && KeySet(res.danglingDeleted) == DanglingManifests(old(store.objects), p)
              && Elements(res.orphans) == WithState(old(store.objects), p, Orphan)
    ensures err.Some? ==> res.danglingDeleted == []
    ensures old(store.faults) <= store.faults
    ensures store.faults == old(store.faults) ==> (err.Some? <==> !dryRun && Refuses(old(store.objects), p))
    ensures err.None? && !dryRun ==> !Refuses(old(store.objects), p)
    ensures var objects := old(store.objects);
            forall stem: string | stem + ".dump.zst.age" in gone || stem + ".manifest.json" in gone ::
              && p.scope <= stem && stem + ".manifest.json" in objects
              && objects[stem + ".manifest.json"].size <= 1048576 && objects[stem + ".manifest.json"].parsed.Some?
              && var m := objects[stem + ".manifest.json"].parsed.value;
              && m.keySchema == 1
              && (p.owner.Some? ==> m.engine == p.owner.value.engine && m.cluster == p.owner.value.cluster
                                    && m.database == p.owner.value.database)
              && (stem + ".dump.zst.age" in objects ==>
                    m.object_ == stem + ".dump.zst.age" && m.backupId != "" && m.createdAt.Some?)
    ensures forall k :: k in gone ==> HasSuffix(k, ".dump.zst.age") || HasSuffix(k, ".manifest.json")
    ensures err.None? ==>
              var objects := old(store.objects);
              && (forall k :: k in res.danglingDeleted ==> HasSuffix(k, ".manifest.json"))
              && (forall stem: string | stem + ".manifest.json" in objects ::
                    stem + ".manifest.json" in res.danglingDeleted <==>
                      && p.scope <= stem && stem + ".dump.zst.age" !in objects
                      && objects[stem + ".manifest.json"].size <= 1048576
                      && objects[stem + ".manifest.json"].parsed.Some?
                      && var m := objects[stem + ".manifest.json"].parsed.value;
                      && m.keySchema == 1
                      && (p.owner.Some? ==> m.engine == p.owner.value.engine && m.cluster == p.owner.value.cluster
                                            && m.database == p.owner.value.database))
              && (forall stem: string | stem + ".dump.zst.age" in objects && stem + ".manifest.json" in objects ::
                    Entry(objects, stem, p.owner) in res.kept + res.deleted <==>
                      && p.scope <= stem && objects[stem + ".manifest.json"].size <= 1048576
                      && objects[stem + ".manifest.json"].parsed.Some?
                      && var m := objects[stem + ".manifest.json"].parsed.value;
                      && m.keySchema == 1 && m.object_ == stem + ".dump.zst.age" && m.backupId != ""
                      && m.createdAt.Some?
                      && (p.owner.Some? ==> m.engine == p.owner.value.engine && m.cluster == p.owner.value.cluster
                                            && m.database == p.owner.value.database))
  {
    hide WithState, KeepSet, DroppedCiphers, DroppedManifests, DanglingManifests, Dropped, AllGuarded, GuardOk, Refuses;
    hide RemovedBy, Interruptible, Entry, Entries;
    ghost var bucket := store.objects;
    gone := {};
    RemovedIs(bucket, p);
    RemovedMean(bucket, p);
    DanglingMean(bucket, p);
    ValidMean(bucket, p);
    var dangling;
    res, dangling, err := SelectPass(store, p);
    if err.Some? {
      return;
    }
    SelectedMean(bucket, p, res.kept, res.deleted, dangling);
    if dryRun {
      res := res.(danglingDeleted := dangling);
      return;
    }
    GuardedUnlessRefused(bucket, p, res.deleted, dangling);
    err, gone := DeleteBackups(store, p.scope, res.deleted);
    DeletedIsInterruptible(bucket, p, res.deleted, gone);
    if err.Some? {
      return;
    }
    ghost var more;
    err, more := DeleteKeys(store, p.scope, MANIFEST_SUFFIX, dangling);
    DanglingIsInterruptible(bucket, p, gone, more);
    gone := gone + more;
    if err.Some? {
      return;
    }
    res := res.(danglingDeleted := dangling);
  }

  // ----------------------------------------------------- entries and keys

  lemma EntryStem(bucket: Bucket, p: Pass, e: BackupInfo) returns (stem: string)
    requires IsScope(p.scope) && e in Entries(bucket, p.scope, p.owner)
    ensures p.scope <= stem && (CipherKey(stem) in bucket || ManifestKey(stem) in bucket)
    ensures e == Entry(bucket, stem, p.owner)
    ensures e.state == Dangling <==> CipherKey(stem) !in bucket
    ensures e.state == Dangling ==> e.manifestKey == ManifestKey(stem) && ManifestKey(stem) in bucket
    ensures e.state != Dangling ==> e.key == CipherKey(stem)
    ensures e.state == State.Valid ==> e.manifestKey == ManifestKey(stem) && ManifestKey(stem) in bucket
  {
    hide StemOf, CipherKey, ManifestKey;
    stem :| stem in Stems(bucket, p.scope)
            && (StemsAreInScope(bucket, p.scope, stem); Entry(bucket, stem, p.owner) == e);
    StemsAreInScope(bucket, p.scope, stem);
  }

  lemma StemEntry(bucket: Bucket, p: Pass, stem: string)
    requires IsScope(p.scope) && p.scope <= stem
    requires CipherKey(stem) in bucket || ManifestKey(stem) in bucket
    ensures Entry(bucket, stem, p.owner) in Entries(bucket, p.scope, p.owner)
  {
    StemsAreInScope(bucket, p.scope, stem);
  }

  lemma CipherIsNotManifest(s: string, t: string)
    ensures CipherKey(s) != ManifestKey(t)
  {
    StemOfArtifacts(s);
    StemOfArtifacts(t);
    SuffixesDiffer(CipherKey(s));
  }

  lemma ValidKeysDistinct(bucket: Bucket, p: Pass)
    requires IsScope(p.scope)
    ensures DistinctKeys(WithState(bucket, p, State.Valid))
  {
    hide CipherKey, ManifestKey, Entry;
    forall a, b | a in WithState(bucket, p, State.Valid) && b in WithState(bucket, p, State.Valid) && a.key == b.key
      ensures a == b
    {
      var s := EntryStem(bucket, p, a);
      var t := EntryStem(bucket, p, b);
      CipherKeyInjective(s, t);
    }
  }

  // ------------------------------------------------------ PruneWith's steps

  lemma RemovedIs(bucket: Bucket, p: Pass)
    requires IsScope(p.scope)
    ensures RemovedBy(bucket, p)
         == DroppedCiphers(bucket, p) + DroppedManifests(bucket, p) + DanglingManifests(bucket, p)
    ensures forall gone: set<string> :: Interruptible(bucket, p, gone) ==> gone <= RemovedBy(bucket, p)
    ensures Interruptible(bucket, p, {})
  {
    hide Dropped, WithState, DroppedCiphers, DroppedManifests, DanglingManifests;
    assert {} <= RemovedBy(bucket, p);
  }

  lemma SelectedFromListing(bucket: Bucket, p: Pass, listing: seq<BackupInfo>,
                            kept: seq<BackupInfo>, deleted: seq<BackupInfo>)
    requires IsScope(p.scope) && Elements(listing) == Entries(bucket, p.scope, p.owner)
    requires var valid := Elements(ValidOf(listing));
             DistinctKeys(valid) ==>
               Elements(kept) == KeepSet(valid, p.policy) && Elements(deleted) == valid - KeepSet(valid, p.policy)
    ensures Elements(kept) == KeepSet(WithState(bucket, p, State.Valid), p.policy)
    ensures Elements(deleted) == Dropped(bucket, p)
    ensures KeySet(CipherKeys(deleted)) == DroppedCiphers(bucket, p)
    ensures KeySet(ManifestKeys(deleted)) == DroppedManifests(bucket, p)
  {
    hide Entries, KeepSet, DistinctKeys;
    ValidOfElements(listing);
    ValidKeysDistinct(bucket, p);
    forall b
      ensures b in ValidOf(listing) <==> b in WithState(bucket, p, State.Valid)
    {
      assert b in listing <==> b in Elements(listing);
    }
    assert Elements(ValidOf(listing)) == WithState(bucket, p, State.Valid);
    KeysOfElements(deleted);
  }

  lemma KeysOfElements(backups: seq<BackupInfo>)
    ensures KeySet(CipherKeys(backups)) == set b | b in Elements(backups) :: b.key
    ensures KeySet(ManifestKeys(backups)) == set b | b in Elements(backups) :: b.manifestKey
  {
    forall b | b in Elements(backups)
      ensures b.key in CipherKeys(backups) && b.manifestKey in ManifestKeys(backups)
    {
      var i :| 0 <= i < |backups| && backups[i] == b;
      assert CipherKeys(backups)[i] == b.key && ManifestKeys(backups)[i] == b.manifestKey;
    }
    forall k | k in CipherKeys(backups)
      ensures exists b :: b in Elements(backups) && b.key == k
    {
      var i :| 0 <= i < |backups| && CipherKeys(backups)[i] == k;
      assert backups[i] in Elements(backups);
    }
    forall k | k in ManifestKeys(backups)
      ensures exists b :: b in Elements(backups) && b.manifestKey == k
    {
      var i :| 0 <= i < |backups| && ManifestKeys(backups)[i] == k;
      assert backups[i] in Elements(backups);
    }
  }

  lemma DanglingFromListing(bucket: Bucket, p: Pass, listing: seq<BackupInfo>,
                            danglingKeys: seq<string>, dangling: seq<string>)
    requires IsScope(p.scope) && Elements(listing) == Entries(bucket, p.scope, p.owner)
    requires KeySet(danglingKeys) == set b | b in Elements(listing) && b.state == Dangling :: b.manifestKey
    requires KeySet(dangling)
          == set k | k in danglingKeys && k in bucket && OursToDelete(bucket[k], p.owner)
    ensures KeySet(dangling) == DanglingManifests(bucket, p)
  {
    hide Entries, OursToDelete;
    forall k
      ensures k in KeySet(danglingKeys) <==> exists b :: b in WithState(bucket, p, Dangling) && b.manifestKey == k
    {
    }
    forall k
      ensures k in danglingKeys <==> k in KeySet(danglingKeys)
    {
    }
  }

  lemma DanglingKeysExist(bucket: Bucket, p: Pass, listing: seq<BackupInfo>, danglingKeys: seq<string>)
    requires IsScope(p.scope) && Elements(listing) == Entries(bucket, p.scope, p.owner)
    requires KeySet(danglingKeys) == set b | b in Elements(listing) && b.state == Dangling :: b.manifestKey
    ensures forall k :: k in danglingKeys ==> k in bucket
  {
    hide Entries;
    forall k | k in danglingKeys
      ensures k in bucket
    {
      assert k in KeySet(danglingKeys);
      var b :| b in Elements(listing) && b.state == Dangling && b.manifestKey == k;
      var stem := EntryStem(bucket, p, b);
    }
  }

  /** An artifact under the scope passes the guard unless it is named like the bare suffix. */
  lemma ArtifactIsGuarded(scope: string, stem: string)
    requires scope <= stem
    ensures GuardOk(scope, CIPHERTEXT_SUFFIX, CipherKey(stem)) <==> CipherKey(stem) != scope + CIPHERTEXT_SUFFIX
    ensures GuardOk(scope, MANIFEST_SUFFIX, ManifestKey(stem)) <==> ManifestKey(stem) != scope + MANIFEST_SUFFIX
  {
    StemOfArtifacts(stem);
    if |stem| == |scope| {
      assert stem == scope;
    }
  }

  /** What a pass removes of a stem: its keys belong to a dropped backup or are dangling. */
  lemma RemovedOfStem(bucket: Bucket, p: Pass, stem: string)
    requires IsScope(p.scope)
    ensures CipherKey(stem) in RemovedBy(bucket, p)
       <==> exists b :: b in Dropped(bucket, p) && b.key == CipherKey(stem)
    ensures ManifestKey(stem) in RemovedBy(bucket, p)
       <==> (exists b :: b in Dropped(bucket, p) && b.manifestKey == ManifestKey(stem))
            || ManifestKey(stem) in DanglingManifests(bucket, p)
  {
    hide CipherKey, ManifestKey, Entries, Entry, KeepSet, OursToDelete;
    forall b | b in Dropped(bucket, p) || b in WithState(bucket, p, Dangling)
      ensures b.manifestKey != CipherKey(stem) && (b in Dropped(bucket, p) ==> b.key != ManifestKey(stem))
    {
      var other := EntryStem(bucket, p, b);
      DifferentStems(stem, other);
    }
  }

  /** The guard passes everything a pass is to remove unless the pass refuses. */
  lemma GuardedUnlessRefused(bucket: Bucket, p: Pass, deleted: seq<BackupInfo>, dangling: seq<string>)
    requires IsScope(p.scope)
    requires Elements(deleted) == Dropped(bucket, p) && KeySet(dangling) == DanglingManifests(bucket, p)
    ensures Refuses(bucket, p)
       <==> !AllGuarded(p.scope, deleted) || exists k :: k in dangling && !GuardOk(p.scope, MANIFEST_SUFFIX, k)
  {
    hide Entries, KeepSet, GuardOk, CipherKey, ManifestKey, Entry, OursToDelete, RemovedBy, WithState,
      DanglingManifests;
    RemovedOfStem(bucket, p, p.scope);
    forall b | b in deleted
      ensures GuardOk(p.scope, CIPHERTEXT_SUFFIX, b.key) <==> b.key != CipherKey(p.scope)
      ensures GuardOk(p.scope, MANIFEST_SUFFIX, b.manifestKey) <==> b.manifestKey != ManifestKey(p.scope)
    {
      assert b in Elements(deleted);
      DroppedIsGuarded(bucket, p, b);
    }
    forall k | k in dangling
      ensures GuardOk(p.scope, MANIFEST_SUFFIX, k) <==> k != ManifestKey(p.scope)
    {
      assert k in KeySet(dangling);
      DanglingIsGuarded(bucket, p, k);
    }
    assert forall b :: b in deleted <==> b in Dropped(bucket, p) by {
      assert forall b :: b in Elements(deleted) <==> b in deleted;
    }
    assert ManifestKey(p.scope) in KeySet(dangling) <==> ManifestKey(p.scope) in dangling;
  }

  lemma DroppedIsGuarded(bucket: Bucket, p: Pass, b: BackupInfo)
    requires IsScope(p.scope) && b in Dropped(bucket, p)
    ensures GuardOk(p.scope, CIPHERTEXT_SUFFIX, b.key) <==> b.key != CipherKey(p.scope)
    ensures GuardOk(p.scope, MANIFEST_SUFFIX, b.manifestKey) <==> b.manifestKey != ManifestKey(p.scope)
  {
    hide Entries, KeepSet, GuardOk, Entry;
    var stem := EntryStem(bucket, p, b);
    ArtifactIsGuarded(p.scope, stem);
  }

  lemma DanglingIsGuarded(bucket: Bucket, p: Pass, k: string)
    requires IsScope(p.scope) && k in DanglingManifests(bucket, p)
    ensures GuardOk(p.scope, MANIFEST_SUFFIX, k) <==> k != ManifestKey(p.scope)
  {
    hide Entries, GuardOk, Entry, OursToDelete;
    var b :| b in WithState(bucket, p, Dangling) && b.manifestKey == k;
    var stem := EntryStem(bucket, p, b);
    ArtifactIsGuarded(p.scope, stem);
  }

  lemma ManifestsAreNotDroppedCiphers(bucket: Bucket, p: Pass, b: BackupInfo, d: BackupInfo)
    requires IsScope(p.scope)
    requires b in WithState(bucket, p, State.Valid) && d in WithState(bucket, p, State.Valid)
    ensures b.manifestKey != d.key
  {
    hide CipherKey, ManifestKey, Entry;
    var s := EntryStem(bucket, p, b);
    var t := EntryStem(bucket, p, d);
    CipherIsNotManifest(t, s);
  }

  // ------------------------------------------- the pass in fields of objects

  /** Of the manifest beside any key a pass removes. */
  lemma RemovedMeans(bucket: Bucket, p: Pass, stem: string)
    requires IsScope(p.scope)
    requires stem + ".dump.zst.age" in RemovedBy(bucket, p) || stem + ".manifest.json" in RemovedBy(bucket, p)
    ensures p.scope <= stem && stem + ".manifest.json" in bucket
    ensures bucket[stem + ".manifest.json"].size <= 1048576 && bucket[stem + ".manifest.json"].parsed.Some?
    ensures var m := bucket[stem + ".manifest.json"].parsed.value;
            && m.keySchema == 1
            && (p.owner.Some? ==> m.engine == p.owner.value.engine && m.cluster == p.owner.value.cluster
                                  && m.database == p.owner.value.database)
            && (stem + ".dump.zst.age" in bucket ==>
                  m.object_ == stem + ".dump.zst.age" && m.backupId != "" && m.createdAt.Some?)
  {
    hide Entries, Entry, KeepSet, RemovedBy;
    var k := if stem + ".dump.zst.age" in RemovedBy(bucket, p) then stem + ".dump.zst.age" else stem + ".manifest.json";
    RemovedCases(bucket, p, k);
    if b :| b in Dropped(bucket, p) && (b.key == k || b.manifestKey == k) {
      var other := EntryStem(bucket, p, b);
      DifferentStems(stem, other);
      EntryMeans(bucket, stem, p.owner);
    } else {
      var b :| b in WithState(bucket, p, Dangling) && b.manifestKey == k
               && k in bucket && OursToDelete(bucket[k], p.owner);
      var other := EntryStem(bucket, p, b);
      DifferentStems(stem, other);
    }
  }

  lemma RemovedMean(bucket: Bucket, p: Pass)
    requires IsScope(p.scope)
    ensures forall stem: string ::
              stem + ".dump.zst.age" in RemovedBy(bucket, p) || stem + ".manifest.json" in RemovedBy(bucket, p) ==>
                && p.scope <= stem && stem + ".manifest.json" in bucket
                && bucket[stem + ".manifest.json"].size <= 1048576 && bucket[stem + ".manifest.json"].parsed.Some?
                && var m := bucket[stem + ".manifest.json"].parsed.value;
                && m.keySchema == 1
                && (p.owner.Some? ==> m.engine == p.owner.value.engine && m.cluster == p.owner.value.cluster
                                      && m.database == p.owner.value.database)
                && (stem + ".dump.zst.age" in bucket ==>
                      m.object_ == stem + ".dump.zst.age" && m.backupId != "" && m.createdAt.Some?)
    ensures forall k :: k in RemovedBy(bucket, p) ==> HasSuffix(k, ".dump.zst.age") || HasSuffix(k, ".manifest.json")
  {
    hide RemovedBy;
    forall stem: string |
      stem + ".dump.zst.age" in RemovedBy(bucket, p) || stem + ".manifest.json" in RemovedBy(bucket, p)
      ensures p.scope <= stem && stem + ".manifest.json" in bucket
      ensures bucket[stem + ".manifest.json"].size <= 1048576 && bucket[stem + ".manifest.json"].parsed.Some?
      ensures var m := bucket[stem + ".manifest.json"].parsed.value;
              && m.keySchema == 1
              && (p.owner.Some? ==> m.engine == p.owner.value.engine && m.cluster == p.owner.value.cluster
                                    && m.database == p.owner.value.database)
              && (stem + ".dump.zst.age" in bucket ==>
                    m.object_ == stem + ".dump.zst.age" && m.backupId != "" && m.createdAt.Some?)
    {
      RemovedMeans(bucket, p, stem);
    }
    forall k | k in RemovedBy(bucket, p)
      ensures HasSuffix(k, ".dump.zst.age") || HasSuffix(k, ".manifest.json")
    {
      RemovedIsInScope(bucket, p, k);
    }
  }

  /** Which manifests dangle and may go. */
  lemma DanglingMean(bucket: Bucket, p: Pass)
    requires IsScope(p.scope)
    ensures forall stem: string | stem + ".manifest.json" in bucket ::
              stem + ".manifest.json" in DanglingManifests(bucket, p) <==>
                && p.scope <= stem && stem + ".dump.zst.age" !in bucket
                && bucket[stem + ".manifest.json"].size <= 1048576 && bucket[stem + ".manifest.json"].parsed.Some?
                && var m := bucket[stem + ".manifest.json"].parsed.value;
                && m.keySchema == 1
                && (p.owner.Some? ==> m.engine == p.owner.value.engine && m.cluster == p.owner.value.cluster
                                      && m.database == p.owner.value.database)
    ensures forall k :: k in DanglingManifests(bucket, p) ==> HasSuffix(k, ".manifest.json")
  {
    hide Entries, Entry;
    forall stem: string | stem + ".manifest.json" in bucket
      ensures (exists b :: b in WithState(bucket, p, Dangling) && b.manifestKey == stem + ".manifest.json")
         <==> p.scope <= stem && stem + ".dump.zst.age" !in bucket
    {
      if b :| b in WithState(bucket, p, Dangling) && b.manifestKey == stem + ".manifest.json" {
        var other := EntryStem(bucket, p, b);
        DifferentStems(stem, other);
      }
      if p.scope <= stem && stem + ".dump.zst.age" !in bucket {
        DanglingEntry(bucket, p, stem);
      }
    }
    forall k | k in DanglingManifests(bucket, p)
      ensures HasSuffix(k, ".manifest.json")
    {
      var b :| b in WithState(bucket, p, Dangling) && b.manifestKey == k;
      var stem := EntryStem(bucket, p, b);
      StemOfArtifacts(stem);
    }
  }

  /** Which backups the policy is applied to. */
  lemma ValidMean(bucket: Bucket, p: Pass)
    requires IsScope(p.scope)
    ensures forall stem: string | stem + ".dump.zst.age" in bucket && stem + ".manifest.json" in bucket ::
              Entry(bucket, stem, p.owner) in WithState(bucket, p, State.Valid) <==>
                && p.scope <= stem && bucket[stem + ".manifest.json"].size <= 1048576
                && bucket[stem + ".manifest.json"].parsed.Some?
                && var m := bucket[stem + ".manifest.json"].parsed.value;
                && m.keySchema == 1 && m.object_ == stem + ".dump.zst.age" && m.backupId != "" && m.createdAt.Some?
                && (p.owner.Some? ==> m.engine == p.owner.value.engine && m.cluster == p.owner.value.cluster
                                      && m.database == p.owner.value.database)
  {
    forall stem: string | stem + ".dump.zst.age" in bucket && stem + ".manifest.json" in bucket
      ensures Entry(bucket, stem, p.owner) in Entries(bucket, p.scope, p.owner) <==> p.scope <= stem
    {
      if Entry(bucket, stem, p.owner) in Entries(bucket, p.scope, p.owner) {
        var other := EntryStem(bucket, p, Entry(bucket, stem, p.owner));
        EntryMeans(bucket, stem, p.owner);
        EntryInjective(bucket, stem, other, p.owner);
      }
      if p.scope <= stem {
        StemEntry(bucket, p, stem);
      }
    }
    forall stem: string | stem + ".dump.zst.age" in bucket && stem + ".manifest.json" in bucket
      ensures Entry(bucket, stem, p.owner).state == State.Valid <==>
                && bucket[stem + ".manifest.json"].size <= 1048576
                && bucket[stem + ".manifest.json"].parsed.Some?
                && var m := bucket[stem + ".manifest.json"].parsed.value;
                && m.keySchema == 1 && m.object_ == stem + ".dump.zst.age" && m.backupId != "" && m.createdAt.Some?
                && (p.owner.Some? ==> m.engine == p.owner.value.engine && m.cluster == p.owner.value.cluster
                                      && m.database == p.owner.value.database)
    {
      EntryMeans(bucket, stem, p.owner);
    }
  }

  /** What is kept or deleted is what is valid. */
  lemma SelectedMean(bucket: Bucket, p: Pass, kept: seq<BackupInfo>, deleted: seq<BackupInfo>, dangling: seq<string>)
    requires IsScope(p.scope)
    requires Elements(kept) == KeepSet(WithState(bucket, p, State.Valid), p.policy)
    requires Elements(deleted) == Dropped(bucket, p) && KeySet(dangling) == DanglingManifests(bucket, p)
    ensures forall b :: b in kept + deleted <==> b in WithState(bucket, p, State.Valid)
    ensures forall k :: k in dangling <==> k in DanglingManifests(bucket, p)
  {
    hide Entries, Kept, DanglingManifests;
    assert forall b :: b in kept <==> b in Elements(kept);
    assert forall b :: b in deleted <==> b in Elements(deleted);
    assert forall k :: k in dangling <==> k in KeySet(dangling);
  }

  lemma DeletedIsInterruptible(bucket: Bucket, p: Pass, deleted: seq<BackupInfo>, gone: set<string>)
    requires IsScope(p.scope)
    requires KeySet(CipherKeys(deleted)) == DroppedCiphers(bucket, p)
    requires KeySet(ManifestKeys(deleted)) == DroppedManifests(bucket, p)
    requires gone <= DroppedCiphers(bucket, p) + DroppedManifests(bucket, p)
    requires gone <= DroppedCiphers(bucket, p) || DroppedCiphers(bucket, p) <= gone
    ensures Interruptible(bucket, p, gone)
  {
    hide Entries, KeepSet;
    forall b | b in Dropped(bucket, p) && b.manifestKey in gone
      ensures b.key in gone
    {
      assert b.key in DroppedCiphers(bucket, p);
      if gone <= DroppedCiphers(bucket, p) {
        var d :| d in Dropped(bucket, p) && d.key == b.manifestKey;
        ManifestsAreNotDroppedCiphers(bucket, p, b, d);
      }
    }
  }

  lemma DanglingIsInterruptible(bucket: Bucket, p: Pass, gone: set<string>, more: set<string>)
    requires IsScope(p.scope) && Interruptible(bucket, p, gone)
    requires DroppedCiphers(bucket, p) <= gone
    requires more <= DanglingManifests(bucket, p)
    ensures Interruptible(bucket, p, gone + more)
  {
    hide Entries, KeepSet;
    forall b | b in Dropped(bucket, p)
      ensures b.key in gone
    {
      assert b.key in DroppedCiphers(bucket, p);
    }
  }

  // -------------------------------------------------------- convergence

  /** The entry of a stem depends on its two objects only. */
  lemma EntryLocal(before: Bucket, after: Bucket, stem: string, owner: Option<Owner>)
    requires CipherKey(stem) in before || ManifestKey(stem) in before
    requires CipherKey(stem) in after <==> CipherKey(stem) in before
    requires ManifestKey(stem) in after <==> ManifestKey(stem) in before
    requires CipherKey(stem) in after ==> after[CipherKey(stem)] == before[CipherKey(stem)]
    requires ManifestKey(stem) in after ==> after[ManifestKey(stem)] == before[ManifestKey(stem)]
    ensures Entry(after, stem, owner) == Entry(before, stem, owner)
  {
  }

  lemma ValidSurvives(bucket: Bucket, gone: set<string>, p: Pass, b: BackupInfo)
    requires IsScope(p.scope)
    ensures b in WithState(bucket - gone, p, State.Valid)
       <==> b in WithState(bucket, p, State.Valid) && b.key !in gone && b.manifestKey !in gone
  {
    hide CipherKey, ManifestKey, Entries, Entry;
    var after := bucket - gone;
    if b in WithState(after, p, State.Valid) {
      var stem := EntryStem(after, p, b);
      EntryLocal(bucket, after, stem, p.owner);
      StemEntry(bucket, p, stem);
    }
    if b in WithState(bucket, p, State.Valid) && b.key !in gone && b.manifestKey !in gone {
      var stem := EntryStem(bucket, p, b);
      EntryLocal(bucket, after, stem, p.owner);
      StemEntry(after, p, stem);
    }
  }

  lemma KeptIsUntouched(bucket: Bucket, p: Pass, b: BackupInfo)
    requires IsScope(p.scope)
    requires b in WithState(bucket, p, State.Valid) && b !in Dropped(bucket, p)
    ensures b.key !in RemovedBy(bucket, p) && b.manifestKey !in RemovedBy(bucket, p)
  {
    hide CipherKey, ManifestKey, Entries, Entry, KeepSet;
    var stem := EntryStem(bucket, p, b);
    forall d | d in Dropped(bucket, p)
      ensures d.key != b.key && d.manifestKey != b.manifestKey && d.key != b.manifestKey && d.manifestKey != b.key
    {
      var other := EntryStem(bucket, p, d);
      DifferentStems(stem, other);
    }
    forall d | d in WithState(bucket, p, Dangling)
      ensures d.manifestKey != b.key && d.manifestKey != b.manifestKey
    {
      var other := EntryStem(bucket, p, d);
      DifferentStems(stem, other);
    }
  }

  lemma DifferentStems(s: string, t: string)
    ensures CipherKey(s) != ManifestKey(t) && ManifestKey(s) != CipherKey(t)
    ensures s != t ==> CipherKey(s) != CipherKey(t) && ManifestKey(s) != ManifestKey(t)
  {
    CipherIsNotManifest(s, t);
    CipherIsNotManifest(t, s);
    if CipherKey(s) == CipherKey(t) || ManifestKey(s) == ManifestKey(t) {
      CipherKeyInjective(s, t);
    }
  }

  /** An interrupted pass leaves a set of valid backups that holds everything kept, so the
      next pass drops exactly what is left to drop. */
  lemma SelectionAfterInterruption(bucket: Bucket, p: Pass, gone: set<string>)
    requires IsScope(p.scope) && gone <= RemovedBy(bucket, p)
    ensures var valid := WithState(bucket, p, State.Valid); var left := WithState(bucket - gone, p, State.Valid);
            && KeepSet(valid, p.policy) <= left <= valid
            && KeepSet(left, p.policy) == KeepSet(valid, p.policy)
  {
    hide Entries, Kept, DistinctKeys;
    var valid, left := WithState(bucket, p, State.Valid), WithState(bucket - gone, p, State.Valid);
    forall b
      ensures b in left ==> b in valid
      ensures b in KeepSet(valid, p.policy) ==> b in left
    {
      ValidSurvives(bucket, gone, p, b);
      if b in KeepSet(valid, p.policy) {
        KeptIsUntouched(bucket, p, b);
      }
    }
    ValidKeysDistinct(bucket, p);
    SelectionStable(valid, left, p.policy);
  }

  lemma RemovedCases(bucket: Bucket, p: Pass, k: string)
    requires IsScope(p.scope)
    ensures k in RemovedBy(bucket, p)
       <==> (exists b :: b in Dropped(bucket, p) && (b.key == k || b.manifestKey == k))
            || (exists b :: b in WithState(bucket, p, Dangling) && b.manifestKey == k
                            && k in bucket && OursToDelete(bucket[k], p.owner))
  {
    hide Entries, KeepSet, OursToDelete;
  }

  /** Nothing a later pass removes is new. */
  lemma LaterRemovesNoMore(bucket: Bucket, p: Pass, gone: set<string>, k: string)
    requires IsScope(p.scope) && gone <= RemovedBy(bucket, p)
    requires k in RemovedBy(bucket - gone, p)
    ensures k in RemovedBy(bucket, p) - gone
  {
    hide CipherKey, ManifestKey, Entries, Entry, KeepSet, OursToDelete, RemovedBy;
    var after := bucket - gone;
    RemovedCases(after, p, k);
    RemovedCases(bucket, p, k);
    if b :| b in Dropped(after, p) && (b.key == k || b.manifestKey == k) {
      SelectionAfterInterruption(bucket, p, gone);
      ValidSurvives(bucket, gone, p, b);
    } else {
      var b :| b in WithState(after, p, Dangling) && b.manifestKey == k
               && k in after && OursToDelete(after[k], p.owner);
      var stem := EntryStem(after, p, b);
      StemEntry(bucket, p, stem);
      if CipherKey(stem) in bucket {
        GoneCipherWasDropped(bucket, p, stem);
      } else {
        DanglingEntry(bucket, p, stem);
      }
    }
  }

  lemma DanglingEntry(bucket: Bucket, p: Pass, stem: string)
    requires IsScope(p.scope) && p.scope <= stem
    requires CipherKey(stem) !in bucket && ManifestKey(stem) in bucket
    ensures exists b :: b in WithState(bucket, p, Dangling) && b.manifestKey == ManifestKey(stem)
  {
    StemEntry(bucket, p, stem);
    assert Entry(bucket, stem, p.owner) in WithState(bucket, p, Dangling);
  }

  /** A ciphertext a pass removes belongs to a dropped backup. */
  lemma GoneCipherWasDropped(bucket: Bucket, p: Pass, stem: string)
    requires IsScope(p.scope) && CipherKey(stem) in RemovedBy(bucket, p)
    ensures exists b :: b in Dropped(bucket, p) && b.key == CipherKey(stem) && b.manifestKey == ManifestKey(stem)
  {
    hide CipherKey, ManifestKey, Entries, Entry, KeepSet, OursToDelete, RemovedBy;
    RemovedCases(bucket, p, CipherKey(stem));
    if b :| b in Dropped(bucket, p) && (b.key == CipherKey(stem) || b.manifestKey == CipherKey(stem)) {
      var other := EntryStem(bucket, p, b);
      DifferentStems(stem, other);
    } else {
      var b :| b in WithState(bucket, p, Dangling) && b.manifestKey == CipherKey(stem);
      var other := EntryStem(bucket, p, b);
      DifferentStems(stem, other);
    }
  }

  /** What is left to remove, a later pass removes. */
  lemma LaterRemovesTheRest(bucket: Bucket, p: Pass, gone: set<string>, k: string)
    requires IsScope(p.scope) && Interruptible(bucket, p, gone)
    requires k in RemovedBy(bucket, p) - gone
    ensures k in RemovedBy(bucket - gone, p)
  {
    hide CipherKey, ManifestKey, Entries, Entry, KeepSet, RemovedBy;
    var after := bucket - gone;
    RemovedCases(bucket, p, k);
    RemovedCases(after, p, k);
    if b :| b in Dropped(bucket, p) && (b.key == k || b.manifestKey == k) {
      SelectionAfterInterruption(bucket, p, gone);
      ValidSurvives(bucket, gone, p, b);
      if b.key in gone {
        var stem := EntryStem(bucket, p, b);
        DanglingEntry(after, p, stem);
        ValidIsOurs(bucket, p, b);
      }
    } else {
      var b :| b in WithState(bucket, p, Dangling) && b.manifestKey == k
               && k in bucket && OursToDelete(bucket[k], p.owner);
      var stem := EntryStem(bucket, p, b);
      DanglingEntry(after, p, stem);
    }
  }

  /** A valid backup's manifest passes the test for dangling ones. */
  lemma ValidIsOurs(bucket: Bucket, p: Pass, b: BackupInfo)
    requires IsScope(p.scope) && b in WithState(bucket, p, State.Valid)
    ensures b.manifestKey in bucket && OursToDelete(bucket[b.manifestKey], p.owner)
  {
    var stem := EntryStem(bucket, p, b);
  }

  /** A pass over what an interrupted pass left ends where an uninterrupted one ends. */
  lemma PassAfterInterruption(before: Bucket, after: Bucket, p: Pass)
    requires IsScope(p.scope) && Interrupted(before, after, p)
    ensures AfterPass(after, p) == AfterPass(before, p)
    ensures RemovedBy(after, p) <= RemovedBy(before, p)
  {
    hide RemovedBy;
    var gone :| Interruptible(before, p, gone) && after == before - gone;
    forall k
      ensures k in RemovedBy(after, p) <==> k in RemovedBy(before, p) - gone
    {
      if k in RemovedBy(after, p) {
        LaterRemovesNoMore(before, p, gone, k);
      } else if k in RemovedBy(before, p) - gone {
        LaterRemovesTheRest(before, p, gone, k);
      }
    }
  }

  /** Each bucket is what some interrupted pass left of the one before. */
  ghost predicate InterruptedRun(run: seq<Bucket>, p: Pass)
    requires IsScope(p.scope)
  {
    run != [] && forall i :: 0 <= i < |run| - 1 ==> Interrupted(run[i], run[i + 1], p)
  }

  /** Any number of interrupted passes and one full one leave what one full one leaves. */
  lemma {:induction false} CrashConfluence(run: seq<Bucket>, p: Pass)
    requires IsScope(p.scope) && InterruptedRun(run, p)
    ensures AfterPass(run[|run| - 1], p) == AfterPass(run[0], p)
  {
    if |run| <= 1 {
    } else {
      CrashConfluence(run[1..], p);
      PassAfterInterruption(run[0], run[1], p);
    }
  }

  /** A finished pass leaves a following one nothing to do. */
  lemma PassIdempotent(bucket: Bucket, p: Pass)
    requires IsScope(p.scope)
    ensures RemovedBy(AfterPass(bucket, p), p) == {}
    ensures AfterPass(AfterPass(bucket, p), p) == AfterPass(bucket, p)
  {
    var gone := RemovedBy(bucket, p);
    forall b | b in Dropped(bucket, p)
      ensures b.key in gone
    {
      assert b.key in DroppedCiphers(bucket, p);
    }
    assert Interruptible(bucket, p, gone);
    assert Interrupted(bucket, AfterPass(bucket, p), p);
    forall k
      ensures k !in RemovedBy(AfterPass(bucket, p), p)
    {
      hide RemovedBy;
      if k in RemovedBy(bucket - gone, p) {
        LaterRemovesNoMore(bucket, p, gone, k);
      }
    }
  }

  /** No pass makes an orphan, wherever it stops. */
  lemma NoOrphanMade(bucket: Bucket, p: Pass, gone: set<string>, b: BackupInfo)
    requires IsScope(p.scope) && Interruptible(bucket, p, gone)
    requires b in WithState(bucket - gone, p, Orphan)
    ensures b in WithState(bucket, p, Orphan)
  {
    hide CipherKey, ManifestKey, Entries, KeepSet, RemovedBy;
    var after := bucket - gone;
    var stem := EntryStem(after, p, b);
    StemEntry(bucket, p, stem);
    if ManifestKey(stem) in bucket {
      GoneManifestCases(bucket, p, stem);
    } else {
      EntryLocal(bucket, after, stem, p.owner);
    }
  }

  lemma GoneManifestCases(bucket: Bucket, p: Pass, stem: string)
    requires IsScope(p.scope) && ManifestKey(stem) in RemovedBy(bucket, p)
    ensures CipherKey(stem) !in bucket
         || exists b :: b in Dropped(bucket, p) && b.key == CipherKey(stem) && b.manifestKey == ManifestKey(stem)
  {
    hide CipherKey, ManifestKey, Entries, Entry, KeepSet, OursToDelete, RemovedBy;
    RemovedCases(bucket, p, ManifestKey(stem));
    if b :| b in Dropped(bucket, p) && (b.key == ManifestKey(stem) || b.manifestKey == ManifestKey(stem)) {
      var other := EntryStem(bucket, p, b);
      DifferentStems(stem, other);
    } else {
      var b :| b in WithState(bucket, p, Dangling) && b.manifestKey == ManifestKey(stem);
      var other := EntryStem(bucket, p, b);
      DifferentStems(stem, other);
    }
  }

  /** All a pass removes are artifacts under its scope. */
  lemma RemovedIsInScope(bucket: Bucket, p: Pass, k: string)
    requires IsScope(p.scope) && k in RemovedBy(bucket, p)
    ensures p.scope <= k && IsArtifact(k) && k in bucket
  {
    hide Entries, KeepSet, RemovedBy;
    RemovedCases(bucket, p, k);
    if b :| b in Dropped(bucket, p) && (b.key == k || b.manifestKey == k) {
      var stem := EntryStem(bucket, p, b);
      StemOfArtifacts(stem);
    } else {
      var b :| b in WithState(bucket, p, Dangling) && b.manifestKey == k;
      var stem := EntryStem(bucket, p, b);
      StemOfArtifacts(stem);
    }
  }

  /** A manifest of ours named like the bare suffix, its ciphertext gone, makes every pass over
      the scope refuse; a ciphertext alone under such a name is an orphan and makes none. */
  lemma BareSuffixExample(p: Pass, m: Manifest)
    requires IsScope(p.scope) && m.keySchema == KEY_SCHEMA && Matches(p.owner, m)
    ensures Refuses(map[ManifestKey(p.scope) := Obj(0, Some(m))], p)
    ensures !Refuses(map[CipherKey(p.scope) := Obj(0, None)], p)
  {
    hide CipherKey, ManifestKey, Entries, Entry, KeepSet, RemovedBy;
    var stem := p.scope;
    var dangling, orphan := map[ManifestKey(stem) := Obj(0, Some(m))], map[CipherKey(stem) := Obj(0, None)];
    DifferentStems(stem, stem);
    DanglingEntry(dangling, p, stem);
    RemovedCases(dangling, p, ManifestKey(stem));
    RemovedOfStem(orphan, p, stem);
    forall b | b in WithState(orphan, p, State.Valid)
      ensures false
    {
      var s := EntryStem(orphan, p, b);
      DifferentStems(s, stem);
    }
    forall b | b in WithState(orphan, p, Dangling)
      ensures b.manifestKey != ManifestKey(stem)
    {
      var s := EntryStem(orphan, p, b);
    }
  }
}
