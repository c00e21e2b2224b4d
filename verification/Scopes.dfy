/** Retention passes of different databases under one destination do not meet. */
module Scopes {
  import opened Wrappers
  import opened Text
  import opened Backups
  import opened Store
  import opened Listing
  import opened Prune
  import opened Paths
  import opened Keys
  import opened Retention

  /** The identity the manifests of a database must claim. */
  function OwnerOf(src: Source): Option<Owner> {
    Some(Owner(EngineName(src.engine), src.cluster, src.database))
  }

  /** The pass a configuration resolves to. */
  function PassFor(prefix: string, src: Source, policy: Policy): Pass {
    Pass(Scope(prefix, src), OwnerOf(src), policy)
  }

  lemma ScopeIsScope(prefix: string, src: Source)
    ensures IsScope(Scope(prefix, src))
  {
  }

  /** The guard lets nothing of another database through. */
  lemma GuardSeparates(prefix: string, src: Source, other: Source, suffix: string, key: string)
    requires Safe(src.cluster) && Safe(other.cluster) && src != other
    requires GuardOk(Scope(prefix, src), suffix, key)
    ensures !(Scope(prefix, other) <= key)
  {
    hide Scope;
    if Scope(prefix, other) <= key {
      KeysSeparate(prefix, src, other, key);
    }
  }

  /** Two buckets hold the same under a scope. */
  ghost predicate SameUnder(a: Bucket, b: Bucket, scope: string) {
    && (forall k :: scope <= k ==> (k in a <==> k in b))
    && (forall k :: scope <= k && k in a && k in b ==> a[k] == b[k])
  }

  lemma EntriesUnder(a: Bucket, b: Bucket, scope: string, owner: Option<Owner>, e: BackupInfo)
    requires IsScope(scope) && SameUnder(a, b, scope) && e in Entries(a, scope, owner)
    ensures e in Entries(b, scope, owner)
  {
    hide CipherKey, ManifestKey, Stems, Entry, SameUnder;
    var stem :| stem in Stems(a, scope) && (StemsAreInScope(a, scope, stem); Entry(a, stem, owner) == e);
    StemsAreInScope(a, scope, stem);
    StemsAreInScope(b, scope, stem);
    SameArtifacts(a, b, scope, stem);
    EntryLocal(a, b, stem, owner);
  }

  lemma SameArtifacts(a: Bucket, b: Bucket, scope: string, stem: string)
    requires SameUnder(a, b, scope) && scope <= stem
    ensures CipherKey(stem) in a <==> CipherKey(stem) in b
    ensures ManifestKey(stem) in a <==> ManifestKey(stem) in b
    ensures CipherKey(stem) in a ==> a[CipherKey(stem)] == b[CipherKey(stem)]
    ensures ManifestKey(stem) in a ==> a[ManifestKey(stem)] == b[ManifestKey(stem)]
  {
    assert scope <= CipherKey(stem) && scope <= ManifestKey(stem);
  }

  /** What a pass removes depends on its own scope only. */
  lemma RemovedUnder(a: Bucket, b: Bucket, p: Pass)
    requires IsScope(p.scope) && SameUnder(a, b, p.scope)
    ensures RemovedBy(a, p) == RemovedBy(b, p)
  {
    hide Entries, KeepSet, OursToDelete, SameUnder;
    forall e
      ensures e in Entries(a, p.scope, p.owner) <==> e in Entries(b, p.scope, p.owner)
    {
      if e in Entries(a, p.scope, p.owner) {
        EntriesUnder(a, b, p.scope, p.owner, e);
      }
      if e in Entries(b, p.scope, p.owner) {
        SameUnderBack(a, b, p.scope);
        EntriesUnder(b, a, p.scope, p.owner, e);
      }
    }
    forall state
      ensures WithState(a, p, state) == WithState(b, p, state)
    {
    }
    assert DanglingManifests(a, p) <= DanglingManifests(b, p) by { DanglingUnder(a, b, p); }
    SameUnderBack(a, b, p.scope);
    assert DanglingManifests(b, p) <= DanglingManifests(a, p) by { DanglingUnder(b, a, p); }
  }

  lemma DanglingUnder(a: Bucket, b: Bucket, p: Pass)
    requires IsScope(p.scope) && SameUnder(a, b, p.scope) && WithState(a, p, Dangling) == WithState(b, p, Dangling)
    ensures DanglingManifests(a, p) <= DanglingManifests(b, p)
  {
    hide Entries, OursToDelete, SameUnder, Entry, CipherKey, ManifestKey;
    forall k | k in DanglingManifests(a, p)
      ensures k in DanglingManifests(b, p)
    {
      var e :| e in WithState(a, p, Dangling) && e.manifestKey == k && k in a && OursToDelete(a[k], p.owner);
      var stem := EntryStem(a, p, e);
      SameArtifacts(a, b, p.scope, stem);
    }
  }

  lemma SameUnderBack(a: Bucket, b: Bucket, scope: string)
    requires SameUnder(a, b, scope)
    ensures SameUnder(b, a, scope)
  {
  }

  /** A pass leaves every other database's objects as they are. */
  lemma OthersUntouched(prefix: string, src: Source, other: Source, policy: Policy, bucket: Bucket)
    requires Safe(src.cluster) && Safe(other.cluster) && src != other
    ensures IsScope(Scope(prefix, src))
    ensures SameUnder(AfterPass(bucket, PassFor(prefix, src, policy)), bucket, Scope(prefix, other))
  {
    hide Scope, RemovedBy;
    ScopeIsScope(prefix, src);
    var p := PassFor(prefix, src, policy);
    forall k | Scope(prefix, other) <= k
      ensures k !in RemovedBy(bucket, p)
    {
      if k in RemovedBy(bucket, p) {
        RemovedIsInScope(bucket, p, k);
        KeysSeparate(prefix, src, other, k);
      }
    }
  }

  /** Passes of two databases commute. */
  lemma PassesCommute(prefix: string, src: Source, other: Source, p: Policy, q: Policy, bucket: Bucket)
    requires Safe(src.cluster) && Safe(other.cluster) && src != other
    ensures IsScope(Scope(prefix, src)) && IsScope(Scope(prefix, other))
    ensures var a, b := PassFor(prefix, src, p), PassFor(prefix, other, q);
            AfterPass(AfterPass(bucket, a), b) == AfterPass(AfterPass(bucket, b), a)
  {
    hide Scope, RemovedBy, SameUnder;
    ScopeIsScope(prefix, src);
    ScopeIsScope(prefix, other);
    var a, b := PassFor(prefix, src, p), PassFor(prefix, other, q);
    OthersUntouched(prefix, src, other, p, bucket);
    OthersUntouched(prefix, other, src, q, bucket);
    RemovedUnder(AfterPass(bucket, a), bucket, b);
    RemovedUnder(AfterPass(bucket, b), bucket, a);
  }

  // ------------------------------------------------------- the entry points

  datatype Problem = BadPolicy(policy: PolicyError) | ScopeMismatch | NotOurs(key: string) | Stopped(cause: Error)

  /** Keys a guard let through leave every other database's objects alone. */
  lemma GuardedLeavesOthers(prefix: string, src: Source, other: Source, bucket: Bucket, gone: set<string>)
    requires Safe(src.cluster) && Safe(other.cluster) && src != other
    requires forall k :: k in gone ==> Scope(prefix, src) <= k
    ensures SameUnder(bucket - gone, bucket, Scope(prefix, other))
  {
    hide Scope;
    forall k | Scope(prefix, other) <= k
      ensures k !in gone
    {
      if k in gone {
        KeysSeparate(prefix, src, other, k);
      }
    }
  }

  lemma InterruptedInScope(bucket: Bucket, p: Pass, gone: set<string>)
    requires IsScope(p.scope) && Interruptible(bucket, p, gone)
    ensures forall k :: k in gone ==> p.scope <= k
  {
    hide RemovedBy;
    forall k | k in gone
      ensures p.scope <= k
    {
      RemovedIsInScope(bucket, p, k);
    }
  }

  /** Prune for a configuration: a bad policy or an unexpected scope stops it before it
      touches anything, and however it ends it leaves other databases alone. */
  method PruneFor(store: ObjectStore, prefix: string, src: Source, policy: Policy, requireScope: string, dryRun: bool,
                  ghost other: Source)
    returns (res: Result<PruneResult, Problem>, ghost gone: set<string>)
    requires Safe(src.cluster) && Safe(other.cluster)
    modifies store
    ensures IsScope(Scope(prefix, src))
    ensures store.objects == old(store.objects) - gone
    ensures res.Failure? && res.error.BadPolicy? <==> !policy.Valid()
    ensures res == Failure(ScopeMismatch) <==>
        policy.Valid() && requireScope != "" && requireScope != Scope(prefix, src)
    ensures store.faults == old(store.faults) ==>
              (res.Success? <==> && policy.Valid() && (requireScope == "" || requireScope == Scope(prefix, src))
                                 && (dryRun || !Refuses(old(store.objects), PassFor(prefix, src, policy))))
    ensures res.Failure? && !res.error.Stopped? ==> gone == {}
    ensures Interruptible(old(store.objects), PassFor(prefix, src, policy), gone)
    ensures res.Success? && !dryRun ==> gone == RemovedBy(old(store.objects), PassFor(prefix, src, policy))
    ensures dryRun ==> gone == {}
    ensures other != src ==> SameUnder(store.objects, old(store.objects), Scope(prefix, other))
  {
    hide Scope, RemovedBy, Dropped, SameUnder, DanglingManifests, WithState, KeepSet, Refuses;
    gone := {};
    ScopeIsScope(prefix, src);
    var p := PassFor(prefix, src, policy);
    ghost var bucket := store.objects;
    if other != src {
      GuardedLeavesOthers(prefix, src, other, bucket, gone);
    }
    assert bucket - gone == bucket;
    var valid := Validate(policy);
    if valid.Failure? {
      return Failure(BadPolicy(valid.error)), gone;
    }
    if requireScope != "" && requireScope != p.scope {
      return Failure(ScopeMismatch), gone;
    }
    var result, err;
    result, err, gone := PruneWith(store, p, dryRun);
    InterruptedInScope(bucket, p, gone);
    if other != src {
      GuardedLeavesOthers(prefix, src, other, bucket, gone);
    }
    return if err.Some? then Failure(Stopped(err.value)) else Success(result), gone;
  }

  /** A listed backup that is valid and claims this database. */
  predicate IsOurs(src: Source, b: BackupInfo) {
    b.state == State.Valid && b.manifest.Some? && Matches(OwnerOf(src), b.manifest.value)
  }

  /** The exported DeleteBackups: every entry must be a valid backup whose manifest claims
      this database, and every key guarded, or nothing is deleted at all. */
  method DeleteGiven(store: ObjectStore, prefix: string, src: Source, backups: seq<BackupInfo>, ghost other: Source)
    returns (err: Option<Problem>, ghost gone: set<string>)
    requires Safe(src.cluster) && Safe(other.cluster)
    modifies store
    ensures store.objects == old(store.objects) - gone
    ensures gone != {} ==> forall b :: b in backups ==> IsOurs(src, b)
    ensures gone != {} ==> AllGuarded(Scope(prefix, src), backups)
    ensures gone != {} || err.None? ==>
              forall b :: b in backups ==>
                && b.state == State.Valid && b.manifest.Some?
                && b.manifest.value.engine == (if src.engine.Postgres? then "postgres" else "mysql")
                && b.manifest.value.cluster == src.cluster && b.manifest.value.database == src.database
                && Scope(prefix, src) <= b.key && Scope(prefix, src) <= b.manifestKey
                && |Scope(prefix, src)| + 13 < |b.key| && b.key[|b.key| - 13..] == ".dump.zst.age"
                && |Scope(prefix, src)| + 14 < |b.manifestKey|
                && b.manifestKey[|b.manifestKey| - 14..] == ".manifest.json"
    ensures err.None? ==> gone == KeySet(CipherKeys(backups)) + KeySet(ManifestKeys(backups))
    ensures store.faults == old(store.faults) ==>
              (err.None? <==> (forall b :: b in backups ==> IsOurs(src, b)) && AllGuarded(Scope(prefix, src), backups))
    ensures gone <= KeySet(CipherKeys(backups)) || KeySet(CipherKeys(backups)) <= gone
    ensures other != src ==> SameUnder(store.objects, old(store.objects), Scope(prefix, other))
  {
    hide Scope, SameUnder, AllGuarded, GuardOk;
    gone := {};
    ghost var bucket := store.objects;
    if other != src {
      GuardedLeavesOthers(prefix, src, other, bucket, gone);
    }
    assert bucket - gone == bucket;
    var owner := OwnerOf(src);
    for i := 0 to |backups|
      invariant forall j :: 0 <= j < i ==> IsOurs(src, backups[j])
    {
      var b := backups[i];
      if b.state != State.Valid || b.manifest.None? || !Matches(owner, b.manifest.value) {
        assert b in backups && !IsOurs(src, b);
        return Some(NotOurs(b.key)), gone;
      }
    }
    var stopped;
    stopped, gone := DeleteBackups(store, Scope(prefix, src), backups);
    if gone != {} {
      DeletedInScope(Scope(prefix, src), backups, gone);
    }
    if gone != {} || stopped.None? {
      DeletableMeans(Scope(prefix, src), src, backups);
    }
    if other != src {
      GuardedLeavesOthers(prefix, src, other, bucket, gone);
    }
    return if stopped.Some? then Some(Problem.Stopped(stopped.value)) else None, gone;
  }

  lemma DeletableMeans(scope: string, src: Source, backups: seq<BackupInfo>)
    requires AllGuarded(scope, backups) && forall b :: b in backups ==> IsOurs(src, b)
    ensures forall b :: b in backups ==>
              && b.state == State.Valid && b.manifest.Some?
              && b.manifest.value.engine == (if src.engine.Postgres? then "postgres" else "mysql")
              && b.manifest.value.cluster == src.cluster && b.manifest.value.database == src.database
              && scope <= b.key && scope <= b.manifestKey
              && |scope| + 13 < |b.key| && b.key[|b.key| - 13..] == ".dump.zst.age"
              && |scope| + 14 < |b.manifestKey| && b.manifestKey[|b.manifestKey| - 14..] == ".manifest.json"
  {
    assert |".dump.zst.age"| == 13 && |".manifest.json"| == 14;
  }

  lemma DeletedInScope(scope: string, backups: seq<BackupInfo>, gone: set<string>)
    requires AllGuarded(scope, backups) && gone <= KeySet(CipherKeys(backups)) + KeySet(ManifestKeys(backups))
    ensures forall k :: k in gone ==> scope <= k
  {
    GuardedKeys(scope, backups);
  }

  /** The manifest Run writes beside its object. */
  function RunManifest(prefix: string, src: Source, year: string, month: string, id: string, createdAt: int,
                       bytes: nat, sha: string): Manifest {
    Manifest(KEY_SCHEMA, id, Some(createdAt), EngineName(src.engine), src.cluster, src.database,
             ObjectKey(prefix, src, year, month, id), bytes, sha)
  }

  /** What Run stores is what a pass over the configuration's scope takes for a valid backup:
      the two keys are the artifacts of one stem in the scope, and the manifest is trusted. */
  lemma RunIsListed(prefix: string, src: Source, year: string, month: string, id: string, createdAt: int,
                    bytes: nat, sha: string, policy: Policy)
    requires Safe(src.cluster) && Safe(year) && Safe(month) && '/' !in id && id != ""
    ensures var p, key := PassFor(prefix, src, policy), ObjectKey(prefix, src, year, month, id);
            var stem := p.scope + year + "/" + month + "/" + id;
            && p.scope <= stem && key == CipherKey(stem) && ManifestKeyOf(key) == ManifestKey(stem)
            && Trusted(key, RunManifest(prefix, src, year, month, id, createdAt, bytes, sha), p.owner)
            && forall bucket: Bucket, size: nat ::
                  key in bucket && ManifestKeyOf(key) in bucket && size <= 1048576
                  && bucket[ManifestKeyOf(key)]
                     == Obj(size, Some(RunManifest(prefix, src, year, month, id, createdAt, bytes, sha))) ==>
                    var e := Entry(bucket, stem, p.owner);
                    && e.state == State.Valid && e.key == key && e.manifestKey == ManifestKeyOf(key)
                    && e.createdAt == createdAt && e.bytes == bucket[key].size
  {
    hide Scope, ObjectKey, Sanitized, Safe, ManifestKeyOf, BackupScope, HasSuffix;
    ScopeRoundTrip(prefix, src, year, month, id);
    ManifestSharesScope(prefix, src, year, month, id);
    var scope := Scope(prefix, src);
    assert scope + year + "/" + month + "/" + id == scope + (year + "/" + month + "/" + id);
  }
}
