/** The records listing and retention work on, and the order backups are sorted in. */
module Backups {
  import opened Wrappers
  import Text

  const CIPHERTEXT_SUFFIX := ".dump.zst.age"
  const MANIFEST_SUFFIX := ".manifest.json"
  const KEY_SCHEMA := 1

  /** The fields of a manifest the protocol reads; `createdAt` is the parsed RFC 3339
      timestamp, None if it does not parse. */
  datatype Manifest = Manifest(
    keySchema: int,
    backupId: string,
    createdAt: Option<int>,
    engine: string,
    cluster: string,
    database: string,
    object_: string,
    ciphertextBytes: nat,
    ciphertextSha: seq<char>)

  datatype State = Valid | Orphan | Dangling | Corrupt | Unsupported

  datatype BackupInfo = BackupInfo(
    key: string,
    manifestKey: string,
    state: State,
    createdAt: int,
    bytes: nat,
    manifest: Option<Manifest>)

  /** Newest first, the key as tie-break. */
  predicate Newer(a: BackupInfo, b: BackupInfo) {
    a.createdAt > b.createdAt || (a.createdAt == b.createdAt && Text.Below(b.key, a.key))
  }

  lemma NewerTransitive(a: BackupInfo, b: BackupInfo, c: BackupInfo)
    requires Newer(a, b) && Newer(b, c)
    ensures Newer(a, c)
  {
    if a.createdAt == b.createdAt == c.createdAt {
      Text.BelowTransitive(c.key, b.key, a.key);
    }
  }

  lemma NewerAsymmetric(a: BackupInfo, b: BackupInfo)
    requires Newer(a, b)
    ensures !Newer(b, a) && a != b
  {
    if a.createdAt == b.createdAt {
      Text.BelowAsymmetric(b.key, a.key);
      Text.BelowIrreflexive(a.key);
    }
  }

  lemma NewerTotal(a: BackupInfo, b: BackupInfo)
    ensures Newer(a, b) || Newer(b, a) || (a.createdAt == b.createdAt && a.key == b.key)
  {
    Text.BelowTotal(a.key, b.key);
  }

  lemma NotNewerTransitive(a: BackupInfo, b: BackupInfo, c: BackupInfo)
    requires !Newer(b, a) && !Newer(c, b)
    ensures !Newer(c, a)
  {
    NewerTotal(a, b);
    NewerTotal(b, c);
    if Newer(c, a) {
      if Newer(a, b) {
        NewerTransitive(c, a, b);
      }
    }
  }

  /** Sorted newest first. */
  ghost predicate NewestFirst(s: seq<BackupInfo>) {
    forall i, j :: 0 <= i < j < |s| ==> !Newer(s[j], s[i])
  }

  /** Sorted: no later instant comes after an earlier one, and of equal instants the greater
      key comes first. */
  lemma NewestFirstMeans(s: seq<BackupInfo>)
    requires NewestFirst(s)
    ensures forall i, j :: 0 <= i < j < |s| ==>
              || s[i].createdAt > s[j].createdAt
              || (s[i].createdAt == s[j].createdAt && (s[i].key == s[j].key || Text.Below(s[j].key, s[i].key)))
  {
    forall i, j | 0 <= i < j < |s|
      ensures Newer(s[i], s[j]) || (s[i].createdAt == s[j].createdAt && s[i].key == s[j].key)
    {
      NewerTotal(s[i], s[j]);
    }
  }

  ghost predicate DistinctKeys(s: set<BackupInfo>) {
    forall a, b :: a in s && b in s && a.key == b.key ==> a == b
  }

  ghost function Elements(s: seq<BackupInfo>): set<BackupInfo> {
    set b | b in s
  }

  /** The sort both the listing and the selection use, in place. */
  method SortNewestFirst(a: array<BackupInfo>)
    modifies a
    ensures NewestFirst(a[..])
    ensures forall i, j :: 0 <= i < j < a.Length ==>
              || a[i].createdAt > a[j].createdAt
              || (a[i].createdAt == a[j].createdAt && (a[i].key == a[j].key || Text.Below(a[j].key, a[i].key)))
    ensures multiset(a[..]) == multiset(old(a[..]))
  {
    for i := 0 to a.Length
      invariant NewestFirst(a[..i])
      invariant multiset(a[..]) == multiset(old(a[..]))
    {
      SiftUp(a, i);
    }
    assert a[..a.Length] == a[..];
    NewestFirstMeans(a[..]);
  }

  /** The element that was at i is at j; all others up to i are in order, and it is newer
      than all it has passed. */
  ghost predicate Sifted(s: seq<BackupInfo>, i: nat, j: nat)
    requires j <= i < |s|
  {
    && (forall k, m :: 0 <= k < m <= i && k != j && m != j ==> !Newer(s[m], s[k]))
    && (forall m :: j < m <= i ==> !Newer(s[m], s[j]))
  }

  /** The sequence with the elements at j - 1 and j exchanged. */
  ghost function Exchanged(s: seq<BackupInfo>, j: nat): seq<BackupInfo>
    requires 0 < j < |s|
  {
    s[j - 1 := s[j]][j := s[j - 1]]
  }

  lemma SiftStarts(s: seq<BackupInfo>, i: nat)
    requires i < |s| && NewestFirst(s[..i])
    ensures Sifted(s, i, i)
  {
    hide Newer;
    forall k, m | 0 <= k < m < i
      ensures !Newer(s[m], s[k])
    {
      assert s[..i][k] == s[k] && s[..i][m] == s[m];
    }
  }

  lemma SiftMoves(s: seq<BackupInfo>, i: nat, j: nat)
    requires 0 < j <= i < |s| && Sifted(s, i, j) && Newer(s[j], s[j - 1])
    ensures Sifted(Exchanged(s, j), i, j - 1)
  {
    NewerAsymmetric(s[j], s[j - 1]);
    hide Newer;
    var t := Exchanged(s, j);
    forall k, m | 0 <= k < m <= i && k != j - 1 && m != j - 1
      ensures !Newer(t[m], t[k])
    {
      assert t[m] == s[if m == j then j - 1 else m] && t[k] == s[if k == j then j - 1 else k];
    }
  }

  lemma SiftEnds(s: seq<BackupInfo>, i: nat, j: nat)
    requires j <= i < |s| && Sifted(s, i, j) && (j > 0 ==> !Newer(s[j], s[j - 1]))
    ensures NewestFirst(s[..i + 1])
  {
    hide Newer;
    forall k | 0 <= k < j
      ensures !Newer(s[j], s[k])
    {
      if k < j - 1 {
        NotNewerTransitive(s[k], s[j - 1], s[j]);
      }
    }
  }

  lemma ExchangeKeeps(s: seq<BackupInfo>, j: nat)
    requires 0 < j < |s|
    ensures multiset(Exchanged(s, j)) == multiset(s)
  {
  }

  method Exchange(a: array<BackupInfo>, j: nat)
    requires 0 < j < a.Length
    modifies a
    ensures a[..] == Exchanged(old(a[..]), j)
    ensures multiset(a[..]) == multiset(old(a[..]))
  {
    ExchangeKeeps(a[..], j);
    a[j], a[j - 1] := a[j - 1], a[j];
  }

  /** Moves element i left past every element it is newer than. */
  method SiftUp(a: array<BackupInfo>, i: nat)
    requires i < a.Length && NewestFirst(a[..i])
    modifies a
    ensures NewestFirst(a[..i + 1])
    ensures multiset(a[..]) == multiset(old(a[..]))
  {
    hide Newer, Sifted, NewestFirst, Exchanged;
    var j := i;
    assert a[..][..i] == a[..i];
    SiftStarts(a[..], i);
    while 0 < j && Newer(a[j], a[j - 1])
      invariant 0 <= j <= i && Sifted(a[..], i, j)
      invariant multiset(a[..]) == multiset(old(a[..]))
    {
      SiftMoves(a[..], i, j);
      Exchange(a, j);
      j := j - 1;
    }
    SiftEnds(a[..], i, j);
    assert a[..][..i + 1] == a[..i + 1];
  }

  method SortedCopy(s: seq<BackupInfo>) returns (r: seq<BackupInfo>)
    ensures NewestFirst(r)
    ensures multiset(r) == multiset(s)
  {
    var a := new BackupInfo[|s|](i requires 0 <= i < |s| => s[i]);
    assert a[..] == s;
    SortNewestFirst(a);
    r := a[..];
  }

  lemma SameElements(s: seq<BackupInfo>, t: seq<BackupInfo>)
    requires multiset(s) == multiset(t)
    ensures Elements(s) == Elements(t)
    ensures |s| == |t|
  {
    forall b
      ensures b in s <==> b in t
    {
      assert b in s <==> b in multiset(s);
      assert b in t <==> b in multiset(t);
    }
    assert |multiset(s)| == |s| && |multiset(t)| == |t|;
  }
}
