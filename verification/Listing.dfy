/** Listing one database's backups: pairing ciphertexts with manifests page by page, and
    classifying each pair. */
module Listing {
  import opened Wrappers
  import opened Backups
  import opened Text
  import opened Store
  import opened Sets
  import Calendar

  const MAX_MANIFEST_BYTES := 1048576

  /** The identity a scope's manifests must claim; None trusts every manifest. */
  datatype Owner = Owner(engine: string, cluster: string, database: string)

  predicate Matches(owner: Option<Owner>, m: Manifest) {
    owner.None? || (m.engine == owner.value.engine && m.cluster == owner.value.cluster
                    && m.database == owner.value.database)
  }

  // ------------------------------------------------------ artifacts and stems

  predicate IsArtifact(key: string) {
    HasSuffix(key, CIPHERTEXT_SUFFIX) || HasSuffix(key, MANIFEST_SUFFIX)
  }

  function StemOf(key: string): string {
    if HasSuffix(key, CIPHERTEXT_SUFFIX) then TrimSuffix(key, CIPHERTEXT_SUFFIX)
    else TrimSuffix(key, MANIFEST_SUFFIX)
  }

  function CipherKey(stem: string): string {
    stem + CIPHERTEXT_SUFFIX
  }

  function ManifestKey(stem: string): string {
    stem + MANIFEST_SUFFIX
  }

  lemma LastOfSuffix(key: string, suffix: string)
    requires HasSuffix(key, suffix) && suffix != []
    ensures key != [] && key[|key| - 1] == suffix[|suffix| - 1]
  {
    assert key[|key| - |suffix|..][|suffix| - 1] == key[|key| - 1];
  }

  lemma SuffixesDiffer(key: string)
    ensures !(HasSuffix(key, CIPHERTEXT_SUFFIX) && HasSuffix(key, MANIFEST_SUFFIX))
  {
    if HasSuffix(key, CIPHERTEXT_SUFFIX) {
      LastOfSuffix(key, CIPHERTEXT_SUFFIX);
      if HasSuffix(key, MANIFEST_SUFFIX) {
        LastOfSuffix(key, MANIFEST_SUFFIX);
      }
    }
  }

  lemma StemOfArtifacts(stem: string)
    ensures HasSuffix(CipherKey(stem), CIPHERTEXT_SUFFIX) && StemOf(CipherKey(stem)) == stem
    ensures HasSuffix(ManifestKey(stem), MANIFEST_SUFFIX) && StemOf(ManifestKey(stem)) == stem
    ensures CipherKey(stem) != ManifestKey(stem)
  {
    TrimSuffixOfConcat(stem, CIPHERTEXT_SUFFIX);
    TrimSuffixOfConcat(stem, MANIFEST_SUFFIX);
    SuffixesDiffer(CipherKey(stem));
    SuffixesDiffer(ManifestKey(stem));
  }

  lemma ArtifactOfStem(key: string)
    requires IsArtifact(key)
    ensures key == CipherKey(StemOf(key)) || key == ManifestKey(StemOf(key))
    ensures HasSuffix(key, CIPHERTEXT_SUFFIX) <==> key == CipherKey(StemOf(key))
  {
    SuffixesDiffer(key);
    StemOfArtifacts(StemOf(key));
    if HasSuffix(key, CIPHERTEXT_SUFFIX) {
      SuffixSplit(key, CIPHERTEXT_SUFFIX);
    } else {
      SuffixSplit(key, MANIFEST_SUFFIX);
    }
  }

  lemma CipherKeyInjective(s: string, t: string)
    requires CipherKey(s) == CipherKey(t) || ManifestKey(s) == ManifestKey(t)
    ensures s == t
  {
    StemOfArtifacts(s);
    StemOfArtifacts(t);
  }

  // ------------------------------------------------- timestamps from key names

  predicate IsDigits(s: string, i: nat, j: nat)
    requires i <= j <= |s|
  {
    forall k :: i <= k < j ==> '0' <= s[k] <= '9'
  }

  function DigitsValue(s: string, i: nat, j: nat): int
    requires i <= j <= |s| && IsDigits(s, i, j)
  {
    if i == j then 0 else 10 * DigitsValue(s, i, j - 1) + (s[j - 1] - '0') as int
  }

  function AfterLast(s: string, c: char): string {
    if s == [] then [] else if s[|s| - 1] == c then [] else AfterLast(s[..|s| - 1], c) + [s[|s| - 1]]
  }

  function Cut(s: string, c: char): Option<string> {
    if s == [] then None else if s[0] == c then Some([])
    else match Cut(s[1..], c) case None => None case Some(rest) => Some([s[0]] + rest)
  }

  /** The last piece of a path, as path.Base has it, but for paths without any. */
  function LastPiece(s: string): string {
    if s != [] && s[|s| - 1] == '/' then LastPiece(s[..|s| - 1]) else AfterLast(s, '/')
  }

  /** Where the digits from i on end. */
  function DigitsEnd(s: string, i: nat): (j: nat)
    requires i <= |s|
    ensures i <= j <= |s| && IsDigits(s, i, j)
    decreases |s| - i
  {
    if i < |s| && '0' <= s[i] <= '9' then DigitsEnd(s, i + 1) else i
  }

  function PowerOfTen(n: nat): nat {
    if n == 0 then 1 else 10 * PowerOfTen(n - 1)
  }

  /** The nanoseconds of the fraction whose digits lie between i and j; more than nine digits
      are cut off. */
  function Nanos(s: string, i: nat, j: nat): int
    requires i <= j <= |s| && IsDigits(s, i, j)
  {
    var end := if j - i > 9 then i + 9 else j;
    DigitsValue(s, i, end) * PowerOfTen(9 - (end - i))
  }

  /** What follows the seconds: a Z, or a fraction, which the parser accepts unasked, and a Z. */
  function Fraction(s: string): Option<int> {
    if |s| >= 2 && (s[0] == '.' || s[0] == ',') && '0' <= s[1] <= '9' then
      var end := DigitsEnd(s, 1);
      if s[end..] == "Z" then Some(Nanos(s, 1, end)) else None
    else if s == "Z" then Some(0)
    else None
  }

  /** The instant in the backup id `<YYYYMMDD>T<hhmmss>Z-...` of a stem; 0 if it has none. */
  function CreatedAtFromStem(stem: string): int {
    match Cut(LastPiece(stem), '-')
    case None => 0
    case Some(ts) =>
      if |ts| >= 15 && ts[8] == 'T' && IsDigits(ts, 0, 8) && IsDigits(ts, 9, 15) && Fraction(ts[15..]).Some? then
        var d := Calendar.Date(DigitsValue(ts, 0, 4), DigitsValue(ts, 4, 6), DigitsValue(ts, 6, 8));
        var h, m, s := DigitsValue(ts, 9, 11), DigitsValue(ts, 11, 13), DigitsValue(ts, 13, 15);
        if Calendar.RealDate(d) && h < 24 && m < 60 && s < 60 then
          Calendar.DayOfDate(d) * Calendar.NANOS_PER_DAY + (3600 * h + 60 * m + s) * 1_000_000_000
          + Fraction(ts[15..]).value
        else 0
      else 0
  }

  // -------------------------------------------------------- classification

  /** A manifest trusted to make its ciphertext deletable: exactly this schema, fully
      populated, about that ciphertext, and claiming the owner. */
  predicate Trusted(cipherKey: string, m: Manifest, owner: Option<Owner>) {
    m.keySchema == KEY_SCHEMA && m.object_ == cipherKey && m.backupId != "" && m.createdAt.Some?
    && Matches(owner, m)
  }

  /** What a ciphertext is taken for, given the manifest object beside it. */
  function ManifestEntry(cipherKey: string, manifestKey: string, manifest: Obj, owner: Option<Owner>): (b: BackupInfo)
    ensures b.key == cipherKey && b.manifestKey == manifestKey
    ensures b.state == State.Valid
       <==> manifest.size <= MAX_MANIFEST_BYTES && manifest.parsed.Some?
            && Trusted(cipherKey, manifest.parsed.value, owner)
    ensures b.state == State.Valid ==>
              b.manifest == manifest.parsed && Some(b.createdAt) == manifest.parsed.value.createdAt
    ensures b.state in {State.Valid, Corrupt, Unsupported}
  {
    var info := BackupInfo(cipherKey, manifestKey, Corrupt,
                           CreatedAtFromStem(TrimSuffix(cipherKey, CIPHERTEXT_SUFFIX)), 0, None);
    if manifest.size > MAX_MANIFEST_BYTES || manifest.parsed.None? then info
    else
      var m := manifest.parsed.value;
      if m.keySchema > KEY_SCHEMA then info.(state := Unsupported)
      else if !Trusted(cipherKey, m, owner) then info
      else info.(state := State.Valid, createdAt := m.createdAt.value, manifest := Some(m))
  }

  function Entry(bucket: Bucket, stem: string, owner: Option<Owner>): BackupInfo
    requires CipherKey(stem) in bucket || ManifestKey(stem) in bucket
  {
    if CipherKey(stem) !in bucket then
      BackupInfo("", ManifestKey(stem), Dangling, CreatedAtFromStem(stem), 0, None)
    else if ManifestKey(stem) !in bucket then
      BackupInfo(CipherKey(stem), "", Orphan, CreatedAtFromStem(stem), bucket[CipherKey(stem)].size, None)
    else
      ManifestEntry(CipherKey(stem), ManifestKey(stem), bucket[ManifestKey(stem)], owner)
        .(bytes := bucket[CipherKey(stem)].size)
  }

  /** What a listing reports of a stem, in the fields of its two objects: which pairs are
      valid, which unsupported and which corrupt, and where each time comes from. */
  lemma EntryMeans(bucket: Bucket, stem: string, owner: Option<Owner>)
    requires stem + ".dump.zst.age" in bucket || stem + ".manifest.json" in bucket
    ensures var cipher, manifest, e := stem + ".dump.zst.age", stem + ".manifest.json", Entry(bucket, stem, owner);
            && e.key == (if cipher in bucket then cipher else "")
            && e.manifestKey == (if manifest in bucket then manifest else "")
            && e.bytes == (if cipher in bucket then bucket[cipher].size else 0)
            && (e.state == Dangling <==> cipher !in bucket)
            && (e.state == Orphan <==> manifest !in bucket)
            && (cipher in bucket && manifest in bucket && bucket[manifest].parsed.Some? ==>
                  var size, m := bucket[manifest].size, bucket[manifest].parsed.value;
                  && (e.state == State.Valid <==>
                        && size <= 1048576 && m.keySchema == 1 && m.object_ == cipher
                        && m.backupId != "" && m.createdAt.Some?
                        && (owner.Some? ==> m.engine == owner.value.engine && m.cluster == owner.value.cluster
                                            && m.database == owner.value.database))
                  && (e.state == Unsupported <==> size <= 1048576 && m.keySchema > 1)
                  && (e.state == State.Valid ==> e.manifest == Some(m) && m.createdAt == Some(e.createdAt)))
            && (cipher in bucket && manifest in bucket && bucket[manifest].parsed.None? ==> e.state == Corrupt)
            && (e.state != State.Valid ==> e.manifest == None && e.createdAt == CreatedAtFromStem(stem))
  {
    hide CreatedAtFromStem, HasSuffix, TrimSuffix;
    TrimSuffixOfConcat(stem, ".dump.zst.age");
  }

  /** The stems with an artifact under the scope. */
  ghost function Stems(bucket: Bucket, scope: string): set<string> {
    set k | k in bucket && scope <= k && IsArtifact(k) :: StemOf(k)
  }

  predicate IsScope(scope: string) {
    scope != "" && scope[|scope| - 1] == '/'
  }

  lemma SlashInSuffix(scope: string, stem: string, suffix: string)
    requires IsScope(scope) && scope <= stem + suffix && |stem| < |scope|
    ensures '/' in suffix
  {
    assert (stem + suffix)[|scope| - 1] == suffix[|scope| - 1 - |stem|];
  }

  lemma SuffixHasNoSlash(scope: string, stem: string, suffix: string)
    requires IsScope(scope) && scope <= stem + suffix && '/' !in suffix
    ensures scope <= stem
  {
    if |stem| < |scope| {
      SlashInSuffix(scope, stem, suffix);
    } else {
      assert (stem + suffix)[..|scope|] == stem[..|scope|];
    }
  }

  /** An artifact under the scope has its stem, and so its sibling, under the scope. */
  lemma StemInScope(scope: string, key: string)
    requires IsScope(scope) && IsArtifact(key) && scope <= key
    ensures scope <= StemOf(key)
    ensures scope <= CipherKey(StemOf(key)) && scope <= ManifestKey(StemOf(key))
  {
    ArtifactOfStem(key);
    if key == CipherKey(StemOf(key)) {
      SuffixHasNoSlash(scope, StemOf(key), CIPHERTEXT_SUFFIX);
    } else {
      SuffixHasNoSlash(scope, StemOf(key), MANIFEST_SUFFIX);
    }
  }

  lemma StemsAreInScope(bucket: Bucket, scope: string, stem: string)
    requires IsScope(scope)
    ensures stem in Stems(bucket, scope)
       <==> scope <= stem && (CipherKey(stem) in bucket || ManifestKey(stem) in bucket)
  {
    StemOfArtifacts(stem);
    if stem in Stems(bucket, scope) {
      var k :| k in bucket && scope <= k && IsArtifact(k) && StemOf(k) == stem;
      StemInScope(scope, k);
      ArtifactOfStem(k);
    }
    if scope <= stem && CipherKey(stem) in bucket {
      assert scope <= CipherKey(stem);
    } else if scope <= stem && ManifestKey(stem) in bucket {
      assert scope <= ManifestKey(stem);
    }
  }

  /** Everything a listing reports. */
  ghost function Entries(bucket: Bucket, scope: string, owner: Option<Owner>): set<BackupInfo>
    requires IsScope(scope)
  {
    set stem | stem in Stems(bucket, scope) ::
      (StemsAreInScope(bucket, scope, stem); Entry(bucket, stem, owner))
  }

  lemma EntriesMean(bucket: Bucket, scope: string, owner: Option<Owner>)
    requires IsScope(scope)
    ensures forall stem: string | stem + ".dump.zst.age" in bucket || stem + ".manifest.json" in bucket ::
              scope <= stem ==> Entry(bucket, stem, owner) in Entries(bucket, scope, owner)
    ensures forall b :: b in Entries(bucket, scope, owner) ==>
              exists stem: string ::
                && scope <= stem && (stem + ".dump.zst.age" in bucket || stem + ".manifest.json" in bucket)
                && b == Entry(bucket, stem, owner)
  {
    hide Entry;
    forall stem: string | stem + ".dump.zst.age" in bucket || stem + ".manifest.json" in bucket
      ensures scope <= stem ==> Entry(bucket, stem, owner) in Entries(bucket, scope, owner)
    {
      StemsAreInScope(bucket, scope, stem);
    }
    forall b | b in Entries(bucket, scope, owner)
      ensures exists stem: string ::
                && scope <= stem && (stem + ".dump.zst.age" in bucket || stem + ".manifest.json" in bucket)
                && b == Entry(bucket, stem, owner)
    {
      var stem :| stem in Stems(bucket, scope)
                  && (StemsAreInScope(bucket, scope, stem); Entry(bucket, stem, owner) == b);
      StemsAreInScope(bucket, scope, stem);
    }
  }

  // ---------------------------------------------------------------- pairing

  datatype Artifacts = Artifacts(cipherKey: string, cipherBytes: nat, manifestKey: string, manifestLen: nat)

  ghost predicate PairOf(bucket: Bucket, seen: set<string>, stem: string, p: Artifacts) {
    && p.cipherKey == (if CipherKey(stem) in seen then CipherKey(stem) else "")
    && p.manifestKey == (if ManifestKey(stem) in seen then ManifestKey(stem) else "")
    && (CipherKey(stem) in seen && CipherKey(stem) in bucket ==> p.cipherBytes == bucket[CipherKey(stem)].size)
    && (ManifestKey(stem) in seen && ManifestKey(stem) in bucket ==> p.manifestLen == bucket[ManifestKey(stem)].size)
  }

  /** The table of pairs, and its stems in the order met, after the given keys. */
  ghost predicate Paired(bucket: Bucket, seen: set<string>, pairs: map<string, Artifacts>, order: seq<string>) {
    && (forall stem :: stem in pairs <==> CipherKey(stem) in seen || ManifestKey(stem) in seen)
    && (forall stem :: stem in pairs ==> PairOf(bucket, seen, stem, pairs[stem]))
    && (forall stem :: stem in order <==> stem in pairs)
    && (forall i, j :: 0 <= i < j < |order| ==> order[i] != order[j])
  }

  lemma OtherStemKeys(key: string, other: string)
    requires IsArtifact(key) ==> other != StemOf(key)
    ensures CipherKey(other) != key && ManifestKey(other) != key
  {
    StemOfArtifacts(other);
  }

  lemma OtherPairKept(bucket: Bucket, seen: set<string>, key: string, other: string, p: Artifacts)
    requires PairOf(bucket, seen, other, p)
    requires IsArtifact(key) ==> other != StemOf(key)
    ensures PairOf(bucket, seen + {key}, other, p)
    ensures CipherKey(other) in seen + {key} <==> CipherKey(other) in seen
    ensures ManifestKey(other) in seen + {key} <==> ManifestKey(other) in seen
  {
    hide CipherKey, ManifestKey, StemOf, IsArtifact;
    OtherStemKeys(key, other);
  }

  lemma OwnPairUpdated(bucket: Bucket, seen: set<string>, item: Item, p: Artifacts)
    requires IsArtifact(item.key) && PairOf(bucket, seen, StemOf(item.key), p)
    requires item.key in bucket && item.size == bucket[item.key].size
    ensures PairOf(bucket, seen + {item.key}, StemOf(item.key),
                   if HasSuffix(item.key, CIPHERTEXT_SUFFIX) then p.(cipherKey := item.key, cipherBytes := item.size)
                   else p.(manifestKey := item.key, manifestLen := item.size))
    ensures CipherKey(StemOf(item.key)) in seen + {item.key} || ManifestKey(StemOf(item.key)) in seen + {item.key}
  {
    hide CipherKey, ManifestKey, StemOf, HasSuffix;
    ArtifactOfStem(item.key);
    StemOfArtifacts(StemOf(item.key));
  }

  /** One listed object is added to the pairs. */
  method Observe(ghost bucket: Bucket, ghost seen: set<string>,
                 pairs: map<string, Artifacts>, order: seq<string>, item: Item)
    returns (pairs': map<string, Artifacts>, order': seq<string>)
    requires Paired(bucket, seen, pairs, order)
    requires item.key in bucket && item.size == bucket[item.key].size
    ensures Paired(bucket, seen + {item.key}, pairs', order')
  {
    hide CipherKey, ManifestKey, StemOf, HasSuffix, PairOf;
    pairs', order' := pairs, order;
    forall other | other in pairs && (IsArtifact(item.key) ==> other != StemOf(item.key))
      ensures PairOf(bucket, seen + {item.key}, other, pairs[other])
    {
      OtherPairKept(bucket, seen, item.key, other, pairs[other]);
    }
    forall other | IsArtifact(item.key) ==> other != StemOf(item.key)
      ensures CipherKey(other) in seen + {item.key} <==> CipherKey(other) in seen
      ensures ManifestKey(other) in seen + {item.key} <==> ManifestKey(other) in seen
    {
      OtherStemKeys(item.key, other);
    }
    if !IsArtifact(item.key) {
      return;
    }
    var stem := StemOf(item.key);
    if stem !in pairs' {
      pairs' := pairs'[stem := Artifacts("", 0, "", 0)];
      order' := order' + [stem];
      EmptyPair(bucket, seen, stem);
    }
    var p := pairs'[stem];
    OwnPairUpdated(bucket, seen, item, p);
    if HasSuffix(item.key, CIPHERTEXT_SUFFIX) {
      pairs' := pairs'[stem := p.(cipherKey := item.key, cipherBytes := item.size)];
    } else {
      pairs' := pairs'[stem := p.(manifestKey := item.key, manifestLen := item.size)];
    }
  }

  lemma EmptyPair(bucket: Bucket, seen: set<string>, stem: string)
    requires CipherKey(stem) !in seen && ManifestKey(stem) !in seen
    ensures PairOf(bucket, seen, stem, Artifacts("", 0, "", 0))
  {
  }

  /** The keys under the scope up to the token. */
  ghost function SeenUpTo(bucket: Bucket, scope: string, token: string): set<string> {
    set k | k in bucket && scope <= k && !Below(token, k)
  }

  ghost function InScope(bucket: Bucket, scope: string): set<string> {
    set k | k in bucket && scope <= k
  }

  method PairPage(ghost bucket: Bucket, ghost seen: set<string>,
                  pairs: map<string, Artifacts>, order: seq<string>, page: Page)
    returns (pairs': map<string, Artifacts>, order': seq<string>)
    requires Paired(bucket, seen, pairs, order)
    requires forall i :: 0 <= i < |page.items| ==>
      page.items[i].key in bucket && page.items[i].size == bucket[page.items[i].key].size
    ensures Paired(bucket, seen + PageKeys(page), pairs', order')
  {
    pairs', order' := pairs, order;
    ghost var got: set<string> := {};
    for n := 0 to |page.items|
      invariant got == set i | 0 <= i < n :: page.items[i].key
      invariant Paired(bucket, seen + got, pairs', order')
    {
      var item := page.items[n];
      pairs', order' := Observe(bucket, seen + got, pairs', order', item);
      assert seen + got + {item.key} == seen + (got + {item.key});
      got := got + {item.key};
    }
  }

  lemma PageAdvances(bucket: Bucket, scope: string, after: string, page: Page)
    requires PageOf(bucket, scope, after, page)
    ensures !page.more ==> SeenUpTo(bucket, scope, after) + PageKeys(page) == InScope(bucket, scope)
    ensures page.more ==>
              var last := page.items[|page.items| - 1].key;
              && SeenUpTo(bucket, scope, after) + PageKeys(page) == SeenUpTo(bucket, scope, last)
              && Remaining(bucket, scope, last) < Remaining(bucket, scope, after)
  {
    var seen := SeenUpTo(bucket, scope, after);
    if page.more {
      var last := page.items[|page.items| - 1].key;
      assert last in PageKeys(page);
      BelowIrreflexive(last);
      forall k | k in bucket && scope <= k
        ensures Below(last, k) ==> Below(after, k)
        ensures k in seen + PageKeys(page) <==> !Below(last, k)
      {
        if Below(last, k) {
          BelowTransitive(after, last, k);
          if k in PageKeys(page) {
            PageBelowLast(page, k);
            BelowAsymmetric(last, k);
          }
        }
      }
      assert last in Remaining(bucket, scope, after) && last !in Remaining(bucket, scope, last);
    }
  }

  lemma PageBelowLast(page: Page, k: string)
    requires forall i, j :: 0 <= i < j < |page.items| ==> Below(page.items[i].key, page.items[j].key)
    requires k in PageKeys(page)
    ensures var last := page.items[|page.items| - 1].key; k == last || Below(k, last)
  {
    var i :| 0 <= i < |page.items| && page.items[i].key == k;
  }

  datatype Pairs = Pairs(table: map<string, Artifacts>, order: seq<string>)

  /** All pages in turn. */
  method ListPairs(store: ObjectStore, scope: string) returns (r: Result<Pairs, Error>)
    requires IsScope(scope)
    modifies store`faults
    ensures old(store.faults) <= store.faults && (r.Failure? ==> old(store.faults) < store.faults)
    ensures r.Success? ==>
              Paired(store.objects, InScope(store.objects, scope), r.value.table, r.value.order)
  {
    var pairs: map<string, Artifacts> := map[];
    var order: seq<string> := [];
    var after := "";
    var more := true;
    ghost var seen := SeenUpTo(store.objects, scope, "");
    assert seen == {};
    while more
      invariant Paired(store.objects, seen, pairs, order)
      invariant old(store.faults) <= store.faults
      invariant seen == if more then SeenUpTo(store.objects, scope, after) else InScope(store.objects, scope)
      decreases more, |Remaining(store.objects, scope, after)|
    {
      var page :- store.ListPage(scope, after);
      pairs, order := PairPage(store.objects, seen, pairs, order, page);
      PageAdvances(store.objects, scope, after, page);
      seen := seen + PageKeys(page);
      more := page.more;
      if more {
        var last := page.items[|page.items| - 1].key;
        ProperSubset(Remaining(store.objects, scope, last), Remaining(store.objects, scope, after));
        after := last;
      }
    }
    return Success(Pairs(pairs, order));
  }

  method ReadManifest(store: ObjectStore, cipherKey: string, manifestKey: string, size: nat, owner: Option<Owner>)
    returns (r: Result<BackupInfo, Error>)
    requires manifestKey in store.objects && size == store.objects[manifestKey].size
    modifies store`faults
    ensures old(store.faults) <= store.faults && (r.Failure? ==> old(store.faults) < store.faults)
    ensures r.Success? ==> r.value == ManifestEntry(cipherKey, manifestKey, store.objects[manifestKey], owner)
  {
    var info := BackupInfo(cipherKey, manifestKey, Corrupt,
                           CreatedAtFromStem(TrimSuffix(cipherKey, CIPHERTEXT_SUFFIX)), 0, None);
    if size > MAX_MANIFEST_BYTES {
      return Success(info);
    }
    var out :- store.GetObject(manifestKey);
    if out.parsed.None? {
      return Success(info);
    }
    var m := out.parsed.value;
    if m.keySchema > KEY_SCHEMA {
      return Success(info.(state := Unsupported));
    }
    if m.keySchema != KEY_SCHEMA || m.object_ != cipherKey || m.backupId == "" || m.createdAt.None?
       || !Matches(owner, m) {
      return Success(info);
    }
    return Success(info.(state := State.Valid, createdAt := m.createdAt.value, manifest := Some(m)));
  }

  method EntryOf(store: ObjectStore, stem: string, p: Artifacts, owner: Option<Owner>)
    returns (r: Result<BackupInfo, Error>)
    requires CipherKey(stem) in store.objects || ManifestKey(stem) in store.objects
    requires PairOf(store.objects, store.objects.Keys, stem, p)
    modifies store`faults
    ensures old(store.faults) <= store.faults && (r.Failure? ==> old(store.faults) < store.faults)
    ensures r.Success? ==> r.value == Entry(store.objects, stem, owner)
  {
    if p.cipherKey == "" {
      return Success(BackupInfo("", p.manifestKey, Dangling, CreatedAtFromStem(stem), 0, None));
    }
    if p.manifestKey == "" {
      return Success(BackupInfo(p.cipherKey, "", Orphan, CreatedAtFromStem(stem), p.cipherBytes, None));
    }
    var info :- ReadManifest(store, p.cipherKey, p.manifestKey, p.manifestLen, owner);
    return Success(info.(bytes := p.cipherBytes));
  }

  /** Two listed entries differ unless their stems are equal. */
  lemma EntryInjective(bucket: Bucket, s: string, t: string, owner: Option<Owner>)
    requires CipherKey(s) in bucket || ManifestKey(s) in bucket
    requires CipherKey(t) in bucket || ManifestKey(t) in bucket
    requires Entry(bucket, s, owner) == Entry(bucket, t, owner)
    ensures s == t
  {
    if CipherKey(s) == CipherKey(t) || ManifestKey(s) == ManifestKey(t) {
      CipherKeyInjective(s, t);
    }
  }

  method ReadEntries(store: ObjectStore, pairs: Pairs, owner: Option<Owner>)
    returns (r: Result<seq<BackupInfo>, Error>)
    requires forall stem :: stem in pairs.order ==>
      && stem in pairs.table
      && (CipherKey(stem) in store.objects || ManifestKey(stem) in store.objects)
      && PairOf(store.objects, store.objects.Keys, stem, pairs.table[stem])
    modifies store`faults
    ensures old(store.faults) <= store.faults && (r.Failure? ==> old(store.faults) < store.faults)
    ensures r.Success? ==>
              && |r.value| == |pairs.order|
              && forall j :: 0 <= j < |pairs.order| ==> r.value[j] == Entry(store.objects, pairs.order[j], owner)
  {
    hide Entry, PairOf;
    var backups: seq<BackupInfo> := [];
    for i := 0 to |pairs.order|
      invariant |backups| == i
      invariant old(store.faults) <= store.faults
      invariant forall j :: 0 <= j < i ==> backups[j] == Entry(store.objects, pairs.order[j], owner)
    {
      var stem := pairs.order[i];
      var info :- EntryOf(store, stem, pairs.table[stem], owner);
      backups := backups + [info];
    }
    return Success(backups);
  }

  /** The listing: every entry of the scope exactly once, newest first. */
  method ListBackups(store: ObjectStore, scope: string, owner: Option<Owner>)
    returns (r: Result<seq<BackupInfo>, Error>)
    requires IsScope(scope)
    modifies store`faults
    ensures old(store.faults) <= store.faults && (r.Failure? ==> old(store.faults) < store.faults)
    ensures r.Success? ==>
              && Elements(r.value) == Entries(store.objects, scope, owner)
              && |r.value| == |Stems(store.objects, scope)|
              && NewestFirst(r.value)
    ensures r.Success? ==>
              && (forall stem: string |
                      stem + ".dump.zst.age" in store.objects || stem + ".manifest.json" in store.objects ::
                    scope <= stem ==> Entry(store.objects, stem, owner) in r.value)
              && (forall b :: b in r.value ==>
                    exists stem: string ::
                      && scope <= stem
                      && (stem + ".dump.zst.age" in store.objects || stem + ".manifest.json" in store.objects)
                      && b == Entry(store.objects, stem, owner))
    ensures r.Success? ==>
              forall i, j :: 0 <= i < j < |r.value| ==>
                var a, b := r.value[i], r.value[j];
                || a.createdAt > b.createdAt
                || (a.createdAt == b.createdAt && (a.key == b.key || Below(b.key, a.key)))
  {
    hide Entry, PairOf, Entries, Stems, NewestFirst;
    var pairs :- ListPairs(store, scope);
    ListedStems(store.objects, scope, pairs);
    var backups :- ReadEntries(store, pairs, owner);
    ListedEntries(store.objects, scope, owner, pairs.order, backups);
    var sorted := SortedCopy(backups);
    SameElements(sorted, backups);
    NewestFirstMeans(sorted);
    EntriesMean(store.objects, scope, owner);
    assert forall b :: b in Elements(sorted) <==> b in sorted;
    return Success(sorted);
  }

  lemma ListedStems(bucket: Bucket, scope: string, pairs: Pairs)
    requires IsScope(scope) && Paired(bucket, InScope(bucket, scope), pairs.table, pairs.order)
    ensures forall stem :: stem in pairs.order <==> stem in Stems(bucket, scope)
    ensures forall stem :: stem in pairs.order ==>
              && (CipherKey(stem) in bucket || ManifestKey(stem) in bucket)
              && PairOf(bucket, bucket.Keys, stem, pairs.table[stem])
    ensures |pairs.order| == |Stems(bucket, scope)|
  {
    forall stem
      ensures stem in pairs.order <==> stem in Stems(bucket, scope)
    {
      StemsAreInScope(bucket, scope, stem);
      if stem in pairs.order {
        StemOfArtifacts(stem);
        var k := if CipherKey(stem) in InScope(bucket, scope) then CipherKey(stem) else ManifestKey(stem);
        StemInScope(scope, k);
      }
    }
    forall stem | stem in pairs.order
      ensures (CipherKey(stem) in bucket || ManifestKey(stem) in bucket)
      ensures PairOf(bucket, bucket.Keys, stem, pairs.table[stem])
    {
      StemsAreInScope(bucket, scope, stem);
      assert scope <= CipherKey(stem) && scope <= ManifestKey(stem);
    }
    DistinctLength(pairs.order, Stems(bucket, scope));
  }

  lemma {:induction false} DistinctLength<T>(s: seq<T>, elements: set<T>)
    requires forall i, j :: 0 <= i < j < |s| ==> s[i] != s[j]
    requires forall x :: x in s <==> x in elements
    ensures |s| == |elements|
  {
    if s == [] {
      assert elements == {};
    } else {
      var last := s[|s| - 1];
      assert s == s[..|s| - 1] + [last];
      DistinctLength(s[..|s| - 1], elements - {last});
    }
  }

  lemma ListedEntries(bucket: Bucket, scope: string, owner: Option<Owner>, order: seq<string>, backups: seq<BackupInfo>)
    requires IsScope(scope) && |order| == |backups|
    requires forall stem :: stem in order <==> stem in Stems(bucket, scope)
    requires forall stem :: stem in order ==> CipherKey(stem) in bucket || ManifestKey(stem) in bucket
    requires forall j :: 0 <= j < |order| ==> backups[j] == Entry(bucket, order[j], owner)
    ensures Elements(backups) == Entries(bucket, scope, owner)
  {
    forall b | b in Elements(backups)
      ensures b in Entries(bucket, scope, owner)
    {
      var j :| 0 <= j < |backups| && backups[j] == b;
      assert order[j] in order;
    }
    forall b | b in Entries(bucket, scope, owner)
      ensures b in Elements(backups)
    {
      var stem :| stem in Stems(bucket, scope) && Entry(bucket, stem, owner) == b;
      var j :| 0 <= j < |order| && order[j] == stem;
      assert backups[j] == b;
    }
  }
}
