/** The grandfather-father-son selection: what it keeps as a property of the set of valid
    backups, the marking loops that compute it, and the laws retention relies on. */
module Retention {
  import opened Wrappers
  import opened Backups
  import opened Calendar
  import opened Sets
  import Text

  const MAX_KEEP := 3650

  datatype Policy = Policy(daily: int, weekly: int, monthly: int) {
    function Counter(p: Period): int {
      match p
      case Daily => daily
      case Weekly => weekly
      case Monthly => monthly
    }

    predicate AllZero() {
      daily == 0 && weekly == 0 && monthly == 0
    }

    predicate Valid() {
      0 <= daily <= MAX_KEEP && 0 <= weekly <= MAX_KEEP && 0 <= monthly <= MAX_KEEP && !AllZero()
    }
  }

  datatype PolicyError = OutOfBounds(period: Period, n: int) | KeepsNothing

  predicate InBounds(n: int) {
    0 <= n <= MAX_KEEP
  }

  /** Accepts exactly the valid policies; otherwise names a counter out of bounds, if there is one. */
  method Validate(policy: Policy) returns (err: Result<(), PolicyError>)
    ensures err.Success? <==> policy.Valid()
    ensures err.Success? <==>
              && 0 <= policy.daily <= 3650 && 0 <= policy.weekly <= 3650 && 0 <= policy.monthly <= 3650
              && (policy.daily != 0 || policy.weekly != 0 || policy.monthly != 0)
    ensures err == Failure(KeepsNothing) <==> policy.daily == 0 && policy.weekly == 0 && policy.monthly == 0
    ensures err.Failure? && err.error.OutOfBounds? ==>
              && !(0 <= err.error.n <= 3650)
              && err.error.n == (match err.error.period
                                 case Daily => policy.daily
                                 case Weekly => policy.weekly
                                 case Monthly => policy.monthly)
  {
    var counters := [(Daily, policy.daily), (Weekly, policy.weekly), (Monthly, policy.monthly)];
    for i := 0 to |counters|
      invariant forall j :: 0 <= j < i ==> InBounds(counters[j].1)
    {
      if counters[i].1 < 0 || counters[i].1 > MAX_KEEP {
        return Failure(OutOfBounds(counters[i].0, counters[i].1));
      }
    }
    assert InBounds(counters[0].1) && InBounds(counters[1].1) && InBounds(counters[2].1);
    if policy.daily == 0 && policy.weekly == 0 && policy.monthly == 0 {
      return Failure(KeepsNothing);
    }
    return Success(());
  }

  // ------------------------------------------------------ what is kept

  ghost predicate Newest(valid: set<BackupInfo>, b: BackupInfo) {
    b in valid && forall c :: c in valid && c != b ==> Newer(b, c)
  }

  ghost predicate NewestOfBucket(valid: set<BackupInfo>, p: Period, b: BackupInfo) {
    b in valid &&
    forall c :: c in valid && c != b && Label(p, c.createdAt) == Label(p, b.createdAt) ==> Newer(b, c)
  }

  /** The buckets that have backups. */
  ghost function Labels(valid: set<BackupInfo>, p: Period): set<int> {
    set b | b in valid :: Label(p, b.createdAt)
  }

  ghost function Above(labels: set<int>, x: int): set<int> {
    set y | y in labels && x < y
  }

  /** The newest backup of one of the n latest buckets that have backups. */
  ghost predicate KeptFor(valid: set<BackupInfo>, p: Period, n: int, b: BackupInfo) {
    NewestOfBucket(valid, p, b) && |Above(Labels(valid, p), Label(p, b.createdAt))| < n
  }

  ghost predicate Kept(valid: set<BackupInfo>, policy: Policy, b: BackupInfo) {
    b in valid &&
    (policy.AllZero() || Newest(valid, b) || exists p :: KeptFor(valid, p, policy.Counter(p), b))
  }

  ghost function KeepSet(valid: set<BackupInfo>, policy: Policy): set<BackupInfo> {
    set b | b in valid && Kept(valid, policy, b)
  }

  /** Kept for a period: of those with its label the newest, the greater key if two are of
      one instant, and its label is among the n latest there are. */
  lemma KeptForMeans(valid: set<BackupInfo>, p: Period, n: int, b: BackupInfo)
    ensures KeptFor(valid, p, n, b)
       <==> && b in valid
            && (forall c :: c in valid && c != b && Label(p, c.createdAt) == Label(p, b.createdAt) ==>
                  || b.createdAt > c.createdAt
                  || (b.createdAt == c.createdAt && Text.Below(c.key, b.key)))
            && |set c | c in valid && Label(p, c.createdAt) > Label(p, b.createdAt) :: Label(p, c.createdAt)| < n
  {
    hide Label;
    assert Above(Labels(valid, p), Label(p, b.createdAt))
        == set c | c in valid && Label(p, c.createdAt) > Label(p, b.createdAt) :: Label(p, c.createdAt);
  }

  // ------------------------------------------------ the marking loops

  function ValidOf(s: seq<BackupInfo>): seq<BackupInfo> {
    if s == [] then []
    else
      var last := s[|s| - 1];
      ValidOf(s[..|s| - 1]) + if last.state == State.Valid then [last] else []
  }

  lemma {:induction false} ValidOfElements(s: seq<BackupInfo>)
    ensures forall b :: b in ValidOf(s) <==> b in s && b.state == State.Valid
  {
    if s == [] {
    } else {
      ValidOfElements(s[..|s| - 1]);
      assert s == s[..|s| - 1] + [s[|s| - 1]];
    }
  }

  method SortedValid(backups: seq<BackupInfo>) returns (valid: seq<BackupInfo>)
    ensures NewestFirst(valid)
    ensures multiset(valid) == multiset(ValidOf(backups))
  {
    valid := [];
    for i := 0 to |backups|
      invariant valid == ValidOf(backups[..i])
    {
      assert backups[..i + 1][..i] == backups[..i];
      if backups[i].state == State.Valid {
        valid := valid + [backups[i]];
      }
    }
    assert backups[..|backups|] == backups;
    valid := SortedCopy(valid);
  }

  ghost predicate FirstOfBucket(valid: seq<BackupInfo>, p: Period, j: int)
    requires 0 <= j < |valid|
  {
    forall i :: 0 <= i < j ==> Label(p, valid[i].createdAt) != Label(p, valid[j].createdAt)
  }

  /** The buckets met in the first i backups. */
  ghost function LabelsUpTo(s: seq<BackupInfo>, p: Period, i: nat): set<int>
    requires i <= |s|
  {
    set b | b in s[..i] :: Label(p, b.createdAt)
  }

  /** The elements one marking loop keeps: first of their bucket, with fewer than n
      buckets met before. */
  ghost predicate Marked(valid: seq<BackupInfo>, p: Period, n: int, j: int) {
    0 <= j < |valid| && FirstOfBucket(valid, p, j) && |LabelsUpTo(valid, p, j)| < n
  }

  /** The keys one marking loop has added after i backups. */
  ghost function MarkedUpTo(valid: seq<BackupInfo>, p: Period, n: int, i: nat): set<string>
    requires i <= |valid|
  {
    set j | 0 <= j < i && Marked(valid, p, n, j) :: valid[j].key
  }

  ghost function MarkedKeys(valid: seq<BackupInfo>, p: Period, n: int): set<string> {
    MarkedUpTo(valid, p, n, |valid|)
  }

  lemma FirstIffUnseen(valid: seq<BackupInfo>, p: Period, i: nat)
    requires i < |valid|
    ensures FirstOfBucket(valid, p, i) <==> Label(p, valid[i].createdAt) !in LabelsUpTo(valid, p, i)
  {
    hide Label;
    if !FirstOfBucket(valid, p, i) {
      var k :| 0 <= k < i && Label(p, valid[k].createdAt) == Label(p, valid[i].createdAt);
      assert valid[k] in valid[..i];
    }
  }

  lemma LabelsUpToStep(valid: seq<BackupInfo>, p: Period, i: nat)
    requires i < |valid|
    ensures LabelsUpTo(valid, p, i + 1) == LabelsUpTo(valid, p, i) + {Label(p, valid[i].createdAt)}
  {
    hide Label;
    assert valid[..i + 1] == valid[..i] + [valid[i]];
  }

  lemma UpToStep(valid: seq<BackupInfo>, p: Period, n: int, i: nat)
    requires i < |valid|
    ensures MarkedUpTo(valid, p, n, i + 1)
         == MarkedUpTo(valid, p, n, i) + if Marked(valid, p, n, i) then {valid[i].key} else {}
  {
    hide Label, Marked;
  }

  lemma MarkedSeen(valid: seq<BackupInfo>, p: Period, n: int, i: nat)
    requires i < |valid| && Label(p, valid[i].createdAt) in LabelsUpTo(valid, p, i)
    ensures LabelsUpTo(valid, p, i + 1) == LabelsUpTo(valid, p, i)
    ensures MarkedUpTo(valid, p, n, i + 1) == MarkedUpTo(valid, p, n, i)
  {
    hide Label, LabelsUpTo, FirstOfBucket, MarkedUpTo;
    FirstIffUnseen(valid, p, i);
    LabelsUpToStep(valid, p, i);
    UpToStep(valid, p, n, i);
  }

  lemma MarkedUnseen(valid: seq<BackupInfo>, p: Period, n: int, i: nat)
    requires i < |valid| && Label(p, valid[i].createdAt) !in LabelsUpTo(valid, p, i)
    requires |LabelsUpTo(valid, p, i)| < n
    ensures LabelsUpTo(valid, p, i + 1) == LabelsUpTo(valid, p, i) + {Label(p, valid[i].createdAt)}
    ensures |LabelsUpTo(valid, p, i + 1)| == |LabelsUpTo(valid, p, i)| + 1
    ensures MarkedUpTo(valid, p, n, i + 1) == MarkedUpTo(valid, p, n, i) + {valid[i].key}
  {
    hide Label, LabelsUpTo, FirstOfBucket, MarkedUpTo;
    FirstIffUnseen(valid, p, i);
    LabelsUpToStep(valid, p, i);
    UpToStep(valid, p, n, i);
  }

  lemma NothingYet(valid: seq<BackupInfo>, p: Period, n: int)
    ensures LabelsUpTo(valid, p, 0) == {} && MarkedUpTo(valid, p, n, 0) == {}
  {
    hide Label;
  }

  /** Once n buckets have been met, nothing further is marked. */
  lemma NothingMarkedAfter(valid: seq<BackupInfo>, p: Period, n: int, i: nat)
    requires i <= |valid| && n <= |LabelsUpTo(valid, p, i)|
    ensures MarkedKeys(valid, p, n) == MarkedUpTo(valid, p, n, i)
  {
    hide Label;
    forall j | i <= j < |valid|
      ensures !Marked(valid, p, n, j)
    {
      LabelsUpToGrow(valid, p, i, j);
    }
  }

  lemma LabelsUpToGrow(s: seq<BackupInfo>, p: Period, i: int, j: int)
    requires 0 <= i <= j <= |s|
    ensures LabelsUpTo(s, p, i) <= LabelsUpTo(s, p, j)
    ensures |LabelsUpTo(s, p, i)| <= |LabelsUpTo(s, p, j)|
  {
    forall b | b in s[..i]
      ensures b in s[..j]
    {
      var k :| 0 <= k < i && s[..i][k] == b;
      assert s[..j][k] == b;
    }
    SubsetSize(LabelsUpTo(s, p, i), LabelsUpTo(s, p, j));
  }

  /** One marking loop: newest first, so the newest of each bucket wins; stops at the
      n-th bucket. */
  method Mark(valid: seq<BackupInfo>, p: Period, n: int, keepSet: set<string>)
    returns (r: set<string>)
    ensures r == keepSet + MarkedKeys(valid, p, n)
  {
    hide Label, LabelsUpTo, MarkedUpTo, FirstOfBucket, Marked;
    r := keepSet;
    NothingYet(valid, p, n);
    if n <= 0 {
      NothingMarkedAfter(valid, p, n, 0);
      return;
    }
    var seen: set<int> := {};
    for i := 0 to |valid|
      invariant seen == LabelsUpTo(valid, p, i)
      invariant |seen| < n
      invariant r == keepSet + MarkedUpTo(valid, p, n, i)
    {
      var b := valid[i];
      var k := Label(p, b.createdAt);
      if k in seen {
        MarkedSeen(valid, p, n, i);
        continue;
      }
      MarkedUnseen(valid, p, n, i);
      UnionAssociative(keepSet, MarkedUpTo(valid, p, n, i), {b.key});
      seen := seen + {k};
      r := r + {b.key};
      if |seen| == n {
        NothingMarkedAfter(valid, p, n, i + 1);
        return;
      }
    }
  }

  function WithKeys(s: seq<BackupInfo>, keys: set<string>, inside: bool): seq<BackupInfo> {
    if s == [] then []
    else
      var last := s[|s| - 1];
      WithKeys(s[..|s| - 1], keys, inside) + if (last.key in keys) == inside then [last] else []
  }

  lemma {:induction false} WithKeysElements(s: seq<BackupInfo>, keys: set<string>, inside: bool)
    ensures forall b :: b in WithKeys(s, keys, inside) <==> b in s && (b.key in keys) == inside
  {
    if s == [] {
    } else {
      WithKeysElements(s[..|s| - 1], keys, inside);
      assert s == s[..|s| - 1] + [s[|s| - 1]];
    }
  }

  lemma {:induction false} WithKeysSorted(s: seq<BackupInfo>, keys: set<string>, inside: bool)
    requires NewestFirst(s)
    ensures NewestFirst(WithKeys(s, keys, inside))
  {
    if s == [] {
    } else {
      var front := s[..|s| - 1];
      WithKeysSorted(front, keys, inside);
      WithKeysElements(front, keys, inside);
      forall b | b in WithKeys(front, keys, inside)
        ensures !Newer(s[|s| - 1], b)
      {
      }
    }
  }

  lemma WithKeysStep(s: seq<BackupInfo>, keys: set<string>, inside: bool)
    requires s != []
    ensures var front, last := WithKeys(s[..|s| - 1], keys, inside), s[|s| - 1];
            WithKeys(s, keys, inside) == if (last.key in keys) == inside then front + [last] else front
  {
  }

  lemma OneMore(s: seq<BackupInfo>, b: BackupInfo)
    ensures multiset(s + [b]) == multiset(s) + multiset{b}
  {
  }

  lemma {:induction false} WithKeysPartition(s: seq<BackupInfo>, keys: set<string>)
    ensures multiset(WithKeys(s, keys, true)) + multiset(WithKeys(s, keys, false)) == multiset(s)
  {
    if s == [] {
    } else {
      hide WithKeys;
      var front, last := s[..|s| - 1], s[|s| - 1];
      WithKeysPartition(front, keys);
      WithKeysStep(s, keys, true);
      WithKeysStep(s, keys, false);
      OneMore(front, last);
      OneMore(WithKeys(front, keys, true), last);
      OneMore(WithKeys(front, keys, false), last);
      assert s == front + [last];
    }
  }

  /** Splits the valid backups into those whose key is kept and the rest, in order. */
  method Split(valid: seq<BackupInfo>, keepSet: set<string>)
    returns (keep: seq<BackupInfo>, drop: seq<BackupInfo>)
    requires NewestFirst(valid)
    ensures NewestFirst(keep) && NewestFirst(drop)
    ensures multiset(keep) + multiset(drop) == multiset(valid)
    ensures forall b :: b in keep <==> b in valid && b.key in keepSet
    ensures forall b :: b in drop <==> b in valid && b.key !in keepSet
  {
    keep, drop := [], [];
    for i := 0 to |valid|
      invariant keep == WithKeys(valid[..i], keepSet, true)
      invariant drop == WithKeys(valid[..i], keepSet, false)
    {
      assert valid[..i + 1][..i] == valid[..i];
      if valid[i].key in keepSet {
        keep := keep + [valid[i]];
      } else {
        drop := drop + [valid[i]];
      }
    }
    assert valid[..|valid|] == valid;
    WithKeysSorted(valid, keepSet, true);
    WithKeysSorted(valid, keepSet, false);
    WithKeysElements(valid, keepSet, true);
    WithKeysElements(valid, keepSet, false);
    WithKeysPartition(valid, keepSet);
  }

  lemma KeepSetMeans(valid: set<BackupInfo>, policy: Policy)
    ensures forall b :: b in KeepSet(valid, policy) <==>
              b in valid &&
              (|| (policy.daily == 0 && policy.weekly == 0 && policy.monthly == 0)
               || (forall c :: c in valid && c != b ==>
                     b.createdAt > c.createdAt || (b.createdAt == c.createdAt && Text.Below(c.key, b.key)))
               || KeptFor(valid, Daily, policy.daily, b)
               || KeptFor(valid, Weekly, policy.weekly, b)
               || KeptFor(valid, Monthly, policy.monthly, b))
  {
    hide KeptFor;
    assert policy.Counter(Daily) == policy.daily && policy.Counter(Weekly) == policy.weekly;
    assert policy.Counter(Monthly) == policy.monthly;
    forall b, p | KeptFor(valid, p, policy.Counter(p), b)
      ensures p == Daily || p == Weekly || p == Monthly
    {
    }
  }

  /** The selection. On every input it splits the valid backups by key into two lists, newest
      first; when keys are distinct the kept ones are exactly KeepSet: the newest of all, and
      what each counter keeps. */
  method SelectRetention(backups: seq<BackupInfo>, policy: Policy)
    returns (keep: seq<BackupInfo>, drop: seq<BackupInfo>)
    ensures NewestFirst(keep) && NewestFirst(drop)
    ensures multiset(keep) + multiset(drop) == multiset(ValidOf(backups))
    ensures forall k, d :: k in keep && d in drop ==> k.key != d.key
    ensures var valid := Elements(ValidOf(backups));
            DistinctKeys(valid) ==>
              Elements(keep) == KeepSet(valid, policy) &&
              Elements(drop) == valid - KeepSet(valid, policy)
    ensures forall b :: b in keep + drop <==> b in backups && b.state == State.Valid
    ensures forall i, j :: 0 <= i < j < |keep| ==>
              || keep[i].createdAt > keep[j].createdAt
              || (keep[i].createdAt == keep[j].createdAt
                  && (keep[i].key == keep[j].key || Text.Below(keep[j].key, keep[i].key)))
    ensures forall i, j :: 0 <= i < j < |drop| ==>
              || drop[i].createdAt > drop[j].createdAt
              || (drop[i].createdAt == drop[j].createdAt
                  && (drop[i].key == drop[j].key || Text.Below(drop[j].key, drop[i].key)))
    ensures var valid := set b | b in backups && b.state == State.Valid;
            DistinctKeys(valid) ==>
              forall b :: b in valid ==>
                (b in keep <==>
                  || (policy.daily == 0 && policy.weekly == 0 && policy.monthly == 0)
                  || (forall c :: c in valid && c != b ==>
                        b.createdAt > c.createdAt || (b.createdAt == c.createdAt && Text.Below(c.key, b.key)))
                  || KeptFor(valid, Daily, policy.daily, b)
                  || KeptFor(valid, Weekly, policy.weekly, b)
                  || KeptFor(valid, Monthly, policy.monthly, b))
  {
    hide KeptFor, Newest, ValidOf, NewestFirst, MarkedKeys;
    var valid := SortedValid(backups);
    SameElements(valid, ValidOf(backups));
    ghost var all := Elements(ValidOf(backups));
    NewestFirstEmpty();
    if |valid| == 0 {
      keep, drop := [], [];
      SelectedMeans(backups, policy, keep, drop);
      return;
    }
    if policy.daily == 0 && policy.weekly == 0 && policy.monthly == 0 {
      keep, drop := valid, [];
      SelectedMeans(backups, policy, keep, drop);
      return;
    }
    var keepSet := {valid[0].key};
    keepSet := Mark(valid, Daily, policy.daily, keepSet);
    keepSet := Mark(valid, Weekly, policy.weekly, keepSet);
    keepSet := Mark(valid, Monthly, policy.monthly, keepSet);
    keep, drop := Split(valid, keepSet);
    if DistinctKeys(all) {
      forall b | b in all
        ensures b.key in keepSet <==> Kept(all, policy, b)
      {
        MarkingIsKeeping(valid, policy, b);
      }
    }
    SelectedMeans(backups, policy, keep, drop);
  }

  lemma NewestFirstEmpty()
    ensures NewestFirst([])
  {
  }

  /** What a selection says of its input's fields. */
  lemma SelectedMeans(backups: seq<BackupInfo>, policy: Policy, keep: seq<BackupInfo>, drop: seq<BackupInfo>)
    requires NewestFirst(keep) && NewestFirst(drop)
    requires multiset(keep) + multiset(drop) == multiset(ValidOf(backups))
    requires var valid := Elements(ValidOf(backups)); DistinctKeys(valid) ==> Elements(keep) == KeepSet(valid, policy)
    ensures forall b :: b in keep + drop <==> b in backups && b.state == State.Valid
    ensures forall i, j :: 0 <= i < j < |keep| ==>
              || keep[i].createdAt > keep[j].createdAt
              || (keep[i].createdAt == keep[j].createdAt
                  && (keep[i].key == keep[j].key || Text.Below(keep[j].key, keep[i].key)))
    ensures forall i, j :: 0 <= i < j < |drop| ==>
              || drop[i].createdAt > drop[j].createdAt
              || (drop[i].createdAt == drop[j].createdAt
                  && (drop[i].key == drop[j].key || Text.Below(drop[j].key, drop[i].key)))
    ensures var valid := set b | b in backups && b.state == State.Valid;
            DistinctKeys(valid) ==>
              forall b :: b in valid ==>
                (b in keep <==>
                  || (policy.daily == 0 && policy.weekly == 0 && policy.monthly == 0)
                  || (forall c :: c in valid && c != b ==>
                        b.createdAt > c.createdAt || (b.createdAt == c.createdAt && Text.Below(c.key, b.key)))
                  || KeptFor(valid, Daily, policy.daily, b)
                  || KeptFor(valid, Weekly, policy.weekly, b)
                  || KeptFor(valid, Monthly, policy.monthly, b))
  {
    hide KeptFor, KeepSet, ValidOf, NewestFirst, DistinctKeys;
    ValidOfElements(backups);
    var valid := set b | b in backups && b.state == State.Valid;
    assert Elements(ValidOf(backups)) == valid;
    assert forall b :: b in keep + drop <==> b in multiset(keep) + multiset(drop);
    assert forall b :: b in multiset(ValidOf(backups)) <==> b in ValidOf(backups);
    assert forall b :: b in keep <==> b in Elements(keep);
    NewestFirstMeans(keep);
    NewestFirstMeans(drop);
    KeepSetMeans(valid, policy);
  }

  // -------------------------- the marking loops compute the declaration

  lemma SortedMeansNewer(valid: seq<BackupInfo>, i: int, j: int)
    requires NewestFirst(valid) && DistinctKeys(Elements(valid))
    requires 0 <= i < j < |valid| && valid[i] != valid[j]
    ensures Newer(valid[i], valid[j])
  {
    assert valid[i] in Elements(valid) && valid[j] in Elements(valid);
    NewerTotal(valid[i], valid[j]);
  }

  /** Met newest first, the buckets met before a bucket's first backup are the later ones. */
  lemma LabelsBeforeAreAbove(valid: seq<BackupInfo>, p: Period, j: int)
    requires NewestFirst(valid) && 0 <= j < |valid| && FirstOfBucket(valid, p, j)
    ensures LabelsUpTo(valid, p, j) == Above(Labels(Elements(valid), p), Label(p, valid[j].createdAt))
  {
    hide Label;
    var k := Label(p, valid[j].createdAt);
    var before, above := LabelsUpTo(valid, p, j), Above(Labels(Elements(valid), p), k);
    forall x | x in before
      ensures x in above
    {
      var b :| b in valid[..j] && Label(p, b.createdAt) == x;
      var i :| 0 <= i < j && valid[i] == b;
      LabelMonotone(p, valid[j].createdAt, b.createdAt);
      assert b in Elements(valid);
    }
    forall x | x in above
      ensures x in before
    {
      var b :| b in Elements(valid) && Label(p, b.createdAt) == x;
      var i :| 0 <= i < |valid| && valid[i] == b;
      if b.createdAt <= valid[j].createdAt {
        LabelMonotone(p, b.createdAt, valid[j].createdAt);
      }
      assert Newer(valid[i], valid[j]);
      NewerAsymmetric(valid[i], valid[j]);
      assert i < j && valid[..j][i] == b;
    }
  }

  lemma FirstIsNewest(valid: seq<BackupInfo>, p: Period, j: int)
    requires NewestFirst(valid) && DistinctKeys(Elements(valid))
    requires 0 <= j < |valid| && FirstOfBucket(valid, p, j)
    ensures NewestOfBucket(Elements(valid), p, valid[j])
  {
    hide Label;
    forall c | c in Elements(valid) && c != valid[j] && Label(p, c.createdAt) == Label(p, valid[j].createdAt)
      ensures Newer(valid[j], c)
    {
      var i :| 0 <= i < |valid| && valid[i] == c;
      SortedMeansNewer(valid, j, i);
    }
  }

  ghost function FirstIndex(valid: seq<BackupInfo>, p: Period, i: int): (j: int)
    requires 0 <= i < |valid|
    ensures 0 <= j <= i && Label(p, valid[j].createdAt) == Label(p, valid[i].createdAt)
    ensures FirstOfBucket(valid, p, j)
  {
    if k :| 0 <= k < i && Label(p, valid[k].createdAt) == Label(p, valid[i].createdAt)
    then FirstIndex(valid, p, k) else i
  }

  lemma NewestOfBucketIsFirst(valid: seq<BackupInfo>, p: Period, i: int)
    requires NewestFirst(valid) && 0 <= i < |valid|
    requires NewestOfBucket(Elements(valid), p, valid[i])
    ensures valid[FirstIndex(valid, p, i)] == valid[i]
  {
    hide Label;
    var j := FirstIndex(valid, p, i);
    assert valid[j] in Elements(valid);
  }

  lemma MarkedIffKeptFor(valid: seq<BackupInfo>, p: Period, n: int, b: BackupInfo)
    requires NewestFirst(valid) && DistinctKeys(Elements(valid)) && b in valid
    ensures b.key in MarkedKeys(valid, p, n) <==> KeptFor(Elements(valid), p, n, b)
  {
    hide Label;
    if b.key in MarkedKeys(valid, p, n) {
      var j :| 0 <= j < |valid| && Marked(valid, p, n, j) && valid[j].key == b.key;
      assert valid[j] in Elements(valid) && b in Elements(valid);
      FirstIsNewest(valid, p, j);
      LabelsBeforeAreAbove(valid, p, j);
    }
    if KeptFor(Elements(valid), p, n, b) {
      var i :| 0 <= i < |valid| && valid[i] == b;
      var j := FirstIndex(valid, p, i);
      NewestOfBucketIsFirst(valid, p, i);
      LabelsBeforeAreAbove(valid, p, j);
      assert Marked(valid, p, n, j);
    }
  }

  lemma FirstIffNewest(valid: seq<BackupInfo>, b: BackupInfo)
    requires NewestFirst(valid) && DistinctKeys(Elements(valid)) && b in valid
    ensures b.key == valid[0].key <==> Newest(Elements(valid), b)
  {
    assert valid[0] in Elements(valid) && b in Elements(valid);
    if b.key == valid[0].key {
      forall c | c in Elements(valid) && c != b
        ensures Newer(b, c)
      {
        var i :| 0 <= i < |valid| && valid[i] == c;
        SortedMeansNewer(valid, 0, i);
      }
    } else {
      var i :| 0 <= i < |valid| && valid[i] == b;
      SortedMeansNewer(valid, 0, i);
      NewerAsymmetric(valid[0], b);
    }
  }

  lemma MarkingIsKeeping(valid: seq<BackupInfo>, policy: Policy, b: BackupInfo)
    requires NewestFirst(valid) && DistinctKeys(Elements(valid)) && b in valid && !policy.AllZero()
    ensures b.key in {valid[0].key} + MarkedKeys(valid, Daily, policy.daily)
                     + MarkedKeys(valid, Weekly, policy.weekly) + MarkedKeys(valid, Monthly, policy.monthly)
       <==> Kept(Elements(valid), policy, b)
  {
    hide Label;
    hide MarkedKeys, KeptFor, Newest, NewestFirst, DistinctKeys;
    FirstIffNewest(valid, b);
    MarkedIffKeptFor(valid, Daily, policy.daily, b);
    MarkedIffKeptFor(valid, Weekly, policy.weekly, b);
    MarkedIffKeptFor(valid, Monthly, policy.monthly, b);
    assert policy.Counter(Daily) == policy.daily && policy.Counter(Weekly) == policy.weekly
        && policy.Counter(Monthly) == policy.monthly;
  }

  // -------------------------------------------------- laws of the selection

  ghost function Top(labels: set<int>, n: int): set<int> {
    set x | x in labels && |Above(labels, x)| < n
  }

  lemma {:induction false} LeastExists(labels: set<int>) returns (m: int)
    requires labels != {}
    ensures m in labels && forall x :: x in labels ==> m <= x
  {
    m := Pick(labels);
    var rest := labels - {m};
    assert forall x :: x in labels ==> x == m || x in rest;
    if rest == {} {
    } else {
      var l := LeastExists(rest);
      m := if l < m then l else m;
    }
  }

  /** As many labels have fewer than n above them as there are, up to n. */
  lemma {:induction false} TopSize(labels: set<int>, n: nat)
    ensures |Top(labels, n)| == if |labels| < n then |labels| else n
    decreases |labels|
  {
    if labels == {} {
      assert Top(labels, n) == {};
    } else {
      var m := LeastExists(labels);
      var rest := labels - {m};
      TopSize(rest, n);
      assert Above(labels, m) == rest;
      forall x | x in rest
        ensures Above(labels, x) == Above(rest, x)
      {
      }
      if |rest| < n {
        assert Top(labels, n) == Top(rest, n) + {m};
      } else {
        assert Top(labels, n) == Top(rest, n);
      }
    }
  }

  lemma {:induction false} NewestExists(valid: set<BackupInfo>) returns (b: BackupInfo)
    requires valid != {} && DistinctKeys(valid)
    ensures Newest(valid, b)
    decreases |valid|
  {
    b :| b in valid;
    if valid == {b} {
    } else {
      var rest := valid - {b};
      assert rest != {} by { assert exists c :: c in valid && c != b; }
      var c := NewestExists(rest);
      NewerTotal(b, c);
      if Newer(c, b) {
        b := c;
      } else {
        forall d | d in valid && d != b
          ensures Newer(b, d)
        {
          if d != c {
            NewerTransitive(b, c, d);
          }
        }
      }
    }
  }

  /** The last valid backup is never dropped. */
  lemma NewestIsKept(valid: set<BackupInfo>, policy: Policy)
    requires valid != {} && DistinctKeys(valid)
    ensures exists b :: Newest(valid, b) && b in KeepSet(valid, policy)
  {
    var b := NewestExists(valid);
    assert Kept(valid, policy, b);
  }

  lemma {:induction false} BucketNewestExists(valid: set<BackupInfo>, p: Period, k: int) returns (b: BackupInfo)
    requires DistinctKeys(valid) && k in Labels(valid, p)
    ensures NewestOfBucket(valid, p, b) && Label(p, b.createdAt) == k
  {
    hide Label;
    var bucket := set c | c in valid && Label(p, c.createdAt) == k;
    assert exists c :: c in bucket by {
      var c :| c in valid && Label(p, c.createdAt) == k;
      assert c in bucket;
    }
    b := NewestExists(bucket);
  }

  lemma NewestOfBucketUnique(valid: set<BackupInfo>, p: Period, a: BackupInfo, b: BackupInfo)
    requires NewestOfBucket(valid, p, a) && NewestOfBucket(valid, p, b)
    requires Label(p, a.createdAt) == Label(p, b.createdAt)
    ensures a == b
  {
    hide Label;
    if a != b {
      NewerAsymmetric(a, b);
    }
  }

  /** What a set keeps, every subset holding it keeps. */
  lemma KeptInSubset(valid: set<BackupInfo>, part: set<BackupInfo>, policy: Policy, b: BackupInfo)
    requires part <= valid && b in part && Kept(valid, policy, b)
    ensures Kept(part, policy, b)
  {
    if !policy.AllZero() && !Newest(valid, b) {
      var p :| KeptFor(valid, p, policy.Counter(p), b);
      KeptForInSubset(valid, part, p, policy.Counter(p), b);
    }
  }

  lemma KeptForInSubset(valid: set<BackupInfo>, part: set<BackupInfo>, p: Period, n: int, b: BackupInfo)
    requires part <= valid && b in part && KeptFor(valid, p, n, b)
    ensures KeptFor(part, p, n, b)
  {
    var k := Label(p, b.createdAt);
    SubsetSize(Above(Labels(part, p), k), Above(Labels(valid, p), k));
  }

  /** A bucket's count of later buckets is the same, or at least n in both, once the part
      holds everything kept. */
  lemma KeptForFromSubset(valid: set<BackupInfo>, part: set<BackupInfo>, p: Period, n: int, b: BackupInfo)
    requires DistinctKeys(valid) && part <= valid && KeptFor(part, p, n, b)
    requires forall c :: KeptFor(valid, p, n, c) ==> c in part
    ensures KeptFor(valid, p, n, b)
  {
    hide Label;
    var k := Label(p, b.createdAt);
    var all := Labels(valid, p);
    var above := Above(all, k);
    assert b in valid;
    if n <= |above| {
      TopSize(above, n);
      forall x | x in Top(above, n)
        ensures x in Above(Labels(part, p), k)
      {
        assert Above(all, x) == Above(above, x);
        var c := BucketNewestExists(valid, p, x);
        assert KeptFor(valid, p, n, c);
      }
      SubsetSize(Top(above, n), Above(Labels(part, p), k));
      assert false;
    }
    var c := BucketNewestExists(valid, p, k);
    assert KeptFor(valid, p, n, c);
    if c != b {
      NewerAsymmetric(b, c);
    }
  }

  /** Removing dropped backups never changes what is kept. */
  lemma SelectionStable(valid: set<BackupInfo>, part: set<BackupInfo>, policy: Policy)
    requires DistinctKeys(valid)
    requires KeepSet(valid, policy) <= part <= valid
    ensures KeepSet(part, policy) == KeepSet(valid, policy)
  {
    hide Label;
    forall b | b in part
      ensures Kept(part, policy, b) <==> Kept(valid, policy, b)
    {
      if Kept(valid, policy, b) {
        KeptInSubset(valid, part, policy, b);
      } else if Kept(part, policy, b) {
        assert !policy.AllZero();
        var newest := NewestExists(valid);
        assert newest in KeepSet(valid, policy);
        if Newest(part, b) {
          if b != newest {
            NewerAsymmetric(b, newest);
          }
        } else {
          var p :| KeptFor(part, p, policy.Counter(p), b);
          forall c | KeptFor(valid, p, policy.Counter(p), c)
            ensures c in part
          {
            assert c in KeepSet(valid, policy);
          }
          KeptForFromSubset(valid, part, p, policy.Counter(p), b);
        }
      }
    }
  }

  /** Pruning before new backups arrive changes nothing about what is kept after. */
  lemma PruneThenAdd(valid: set<BackupInfo>, more: set<BackupInfo>, policy: Policy)
    requires DistinctKeys(valid + more)
    ensures KeepSet(KeepSet(valid, policy) + more, policy) == KeepSet(valid + more, policy)
  {
    var all := valid + more;
    var part := KeepSet(valid, policy) + more;
    forall b | b in KeepSet(all, policy)
      ensures b in part
    {
      if b in valid {
        KeptInSubset(all, valid, policy, b);
      }
    }
    SelectionStable(all, part, policy);
  }

  /** A prune after each batch of new backups, as opposed to one prune at the end. */
  ghost function PruneAfterEach(kept: set<BackupInfo>, batches: seq<set<BackupInfo>>, policy: Policy): set<BackupInfo>
    decreases |batches|
  {
    if batches == [] then kept
    else PruneAfterEach(KeepSet(kept + batches[0], policy), batches[1..], policy)
  }

  ghost function Union(batches: seq<set<BackupInfo>>): set<BackupInfo> {
    if batches == [] then {} else batches[0] + Union(batches[1..])
  }

  /** How often retention runs does not matter: pruning after every batch ends where one
      prune over everything ever backed up ends. */
  lemma {:induction false} PruneFrequencyIrrelevant(
    valid: set<BackupInfo>, batches: seq<set<BackupInfo>>, policy: Policy)
    requires DistinctKeys(valid + Union(batches))
    ensures PruneAfterEach(KeepSet(valid, policy), batches, policy)
         == KeepSet(valid + Union(batches), policy)
    decreases |batches|
  {
    if batches == [] {
      assert valid + Union(batches) == valid;
    } else {
      var next := valid + batches[0];
      assert next + Union(batches[1..]) == valid + Union(batches);
      assert DistinctKeys(next);
      PruneThenAdd(valid, batches[0], policy);
      PruneFrequencyIrrelevant(next, batches[1..], policy);
    }
  }

  // ------------------------------------------------------------- how many

  ghost function KeptForSet(valid: set<BackupInfo>, p: Period, n: int): set<BackupInfo> {
    set b | b in valid && KeptFor(valid, p, n, b)
  }

  function AtLeastZero(n: int): nat {
    if n < 0 then 0 else n
  }

  /** A counter of n keeps n backups, or one for each bucket there is. */
  lemma KeptForSize(valid: set<BackupInfo>, p: Period, n: int)
    requires DistinctKeys(valid)
    ensures |KeptForSet(valid, p, n)|
         == if |Labels(valid, p)| < AtLeastZero(n) then |Labels(valid, p)| else AtLeastZero(n)
  {
    hide Label;
    var top := Top(Labels(valid, p), AtLeastZero(n));
    TopSize(Labels(valid, p), AtLeastZero(n));
    forall b | b in KeptForSet(valid, p, n)
      ensures Label(p, b.createdAt) in top
    {
    }
    forall x | x in top
      ensures exists b :: b in KeptForSet(valid, p, n) && Label(p, b.createdAt) == x
    {
      var b := BucketNewestExists(valid, p, x);
      assert b in KeptForSet(valid, p, n);
    }
    forall a, b | a in KeptForSet(valid, p, n) && b in KeptForSet(valid, p, n)
      && Label(p, a.createdAt) == Label(p, b.createdAt)
      ensures a == b
    {
      NewestOfBucketUnique(valid, p, a, b);
    }
    OnePerLabel(KeptForSet(valid, p, n), p, top);
  }

  lemma {:induction false} OnePerLabel(s: set<BackupInfo>, p: Period, labels: set<int>)
    requires forall b :: b in s ==> Label(p, b.createdAt) in labels
    requires forall x :: x in labels ==> exists b :: b in s && Label(p, b.createdAt) == x
    requires forall a, b :: a in s && b in s && Label(p, a.createdAt) == Label(p, b.createdAt) ==> a == b
    ensures |s| == |labels|
    decreases |s|
  {
    hide Label;
    if s == {} {
      if labels != {} {
        var x := Pick(labels);
        assert false;
      }
    } else {
      var b :| b in s;
      var k := Label(p, b.createdAt);
      forall x | x in labels - {k}
        ensures exists c :: c in s - {b} && Label(p, c.createdAt) == x
      {
        var c :| c in s && Label(p, c.createdAt) == x;
        assert c in s - {b};
      }
      OnePerLabel(s - {b}, p, labels - {k});
    }
  }

  /** At most daily + weekly + monthly backups are kept (the newest alone if no counter
      is positive). */
  lemma KeepSetSize(valid: set<BackupInfo>, policy: Policy)
    requires DistinctKeys(valid) && !policy.AllZero()
    ensures |KeepSet(valid, policy)| <=
      var n := AtLeastZero(policy.daily) + AtLeastZero(policy.weekly) + AtLeastZero(policy.monthly);
      if n == 0 then 1 else n
  {
    if SomePositive(policy) {
      KeepSetIsUnion(valid, policy);
      KeptForSize(valid, Daily, policy.daily);
      KeptForSize(valid, Weekly, policy.weekly);
      KeptForSize(valid, Monthly, policy.monthly);
      UnionSize(KeptForSet(valid, Daily, policy.daily), KeptForSet(valid, Weekly, policy.weekly),
                KeptForSet(valid, Monthly, policy.monthly));
    } else if KeepSet(valid, policy) != {} {
      hide Label;
      var b := Pick(KeepSet(valid, policy));
      forall c | c in KeepSet(valid, policy)
        ensures c == b
      {
        NewestUnique(valid, b, c);
      }
      assert KeepSet(valid, policy) == {b};
    }
  }

  predicate SomePositive(policy: Policy) {
    0 < policy.daily || 0 < policy.weekly || 0 < policy.monthly
  }

  lemma NewestUnique(valid: set<BackupInfo>, a: BackupInfo, b: BackupInfo)
    requires Newest(valid, a) && Newest(valid, b)
    ensures a == b
  {
    if a != b {
      NewerAsymmetric(a, b);
    }
  }

  /** With a positive counter, each kept backup is kept for some period. */
  lemma KeepSetIsUnion(valid: set<BackupInfo>, policy: Policy)
    requires SomePositive(policy)
    ensures KeepSet(valid, policy) == KeptForSet(valid, Daily, policy.daily)
              + KeptForSet(valid, Weekly, policy.weekly) + KeptForSet(valid, Monthly, policy.monthly)
  {
    hide Label, KeptFor, Newest;
    assert policy.Counter(Daily) == policy.daily && policy.Counter(Weekly) == policy.weekly
        && policy.Counter(Monthly) == policy.monthly;
    forall b | b in KeepSet(valid, policy)
      ensures exists p :: KeptFor(valid, p, policy.Counter(p), b)
    {
      var p := KeptForSome(valid, policy, b);
    }
  }

  lemma NewestIsKeptFor(valid: set<BackupInfo>, p: Period, n: int, b: BackupInfo)
    requires Newest(valid, b) && 0 < n
    ensures KeptFor(valid, p, n, b)
  {
    hide Label;
    forall c | c in valid
      ensures Label(p, c.createdAt) <= Label(p, b.createdAt)
    {
      LabelMonotone(p, c.createdAt, b.createdAt);
    }
    assert Above(Labels(valid, p), Label(p, b.createdAt)) == {};
  }

  /** Raising counters never drops a backup that was kept. */
  lemma RaisingKeeps(valid: set<BackupInfo>, low: Policy, high: Policy)
    requires !low.AllZero()
    requires low.daily <= high.daily && low.weekly <= high.weekly && low.monthly <= high.monthly
    ensures KeepSet(valid, low) <= KeepSet(valid, high)
  {
    hide Newest, NewestOfBucket, Above;
    forall b | b in KeepSet(valid, low) && !Newest(valid, b) && !high.AllZero()
      ensures Kept(valid, high, b)
    {
      var p :| KeptFor(valid, p, low.Counter(p), b);
      assert KeptFor(valid, p, high.Counter(p), b);
    }
  }

  // ------------------------------------------- one more backup, pruned set

  /** What counter p kept before x came and no longer keeps. */
  ghost function Displaced(kept: set<BackupInfo>, x: BackupInfo, p: Period, n: int): set<BackupInfo> {
    set b | b in kept && KeptFor(kept, p, n, b) && !KeptFor(kept + {x}, p, n, b)
  }

  /** A newer backup displaces at most one backup per counter: the newest of its own
      bucket if that bucket had backups, otherwise the newest of the n-th bucket. */
  lemma DisplacedAtMostOne(kept: set<BackupInfo>, x: BackupInfo, p: Period, n: int)
    requires forall b :: b in kept ==> Newer(x, b)
    ensures |Displaced(kept, x, p, n)| <= if 0 < n then 1 else 0
  {
    hide Label;
    var d := Displaced(kept, x, p, n);
    if n <= 0 {
      assert d == {};
      return;
    }
    forall a, b | a in d && b in d
      ensures a == b
    {
      DisplacedSameBucket(kept, x, p, n, a, b);
      NewestOfBucketUnique(kept, p, a, b);
    }
    if d != {} {
      var a :| a in d;
      assert d == {a};
    }
  }

  lemma DisplacedSameBucket(kept: set<BackupInfo>, x: BackupInfo, p: Period, n: int, a: BackupInfo, b: BackupInfo)
    requires forall c :: c in kept ==> Newer(x, c)
    requires a in Displaced(kept, x, p, n) && b in Displaced(kept, x, p, n)
    ensures Label(p, a.createdAt) == Label(p, b.createdAt)
  {
    hide Label;
    DisplacedBecause(kept, x, p, n, a);
    DisplacedBecause(kept, x, p, n, b);
    var ka, kb := Label(p, a.createdAt), Label(p, b.createdAt);
    var labels := Labels(kept, p);
    if Label(p, x.createdAt) !in labels && ka != kb {
      if ka < kb {
        ProperSubsetSize(Above(labels, kb), Above(labels, ka), kb);
      } else {
        ProperSubsetSize(Above(labels, ka), Above(labels, kb), ka);
      }
    }
  }

  lemma DisplacedBecause(kept: set<BackupInfo>, x: BackupInfo, p: Period, n: int, a: BackupInfo)
    requires forall c :: c in kept ==> Newer(x, c)
    requires a in Displaced(kept, x, p, n)
    ensures var k := Label(p, x.createdAt);
            if k in Labels(kept, p) then Label(p, a.createdAt) == k
            else |Above(Labels(kept, p), Label(p, a.createdAt))| == n - 1
  {
    hide Label, Newer;
    var k, ka := Label(p, x.createdAt), Label(p, a.createdAt);
    assert Labels(kept + {x}, p) == Labels(kept, p) + {k};
    if ka != k {
      OtherBucketStays(kept, x, p, a);
      AboveOneMore(Labels(kept, p), k, ka) by {
        AtMostNewest(p, x, a);
        assert ka in Labels(kept, p);
      }
    }
  }

  lemma AtMostNewest(p: Period, x: BackupInfo, a: BackupInfo)
    requires Newer(x, a)
    ensures Label(p, a.createdAt) <= Label(p, x.createdAt)
  {
    LabelMonotone(p, a.createdAt, x.createdAt);
  }

  lemma OtherBucketStays(kept: set<BackupInfo>, x: BackupInfo, p: Period, a: BackupInfo)
    requires NewestOfBucket(kept, p, a) && Label(p, a.createdAt) != Label(p, x.createdAt)
    ensures NewestOfBucket(kept + {x}, p, a)
  {
    hide Label;
  }

  lemma AboveOneMore(labels: set<int>, k: int, ka: int)
    requires ka < k
    ensures k in labels ==> Above(labels + {k}, ka) == Above(labels, ka)
    ensures k !in labels ==> |Above(labels + {k}, ka)| == |Above(labels, ka)| + 1
  {
    if k in labels {
      assert labels + {k} == labels;
    } else {
      assert Above(labels + {k}, ka) == Above(labels, ka) + {k};
    }
  }

  /** One newer backup on an already pruned set drops at most one backup per positive
      counter. */
  lemma OneMoreDropsFew(kept: set<BackupInfo>, x: BackupInfo, policy: Policy)
    requires policy.Valid() && DistinctKeys(kept + {x})
    requires KeepSet(kept, policy) == kept
    requires forall b :: b in kept ==> Newer(x, b)
    ensures |kept + {x} - KeepSet(kept + {x}, policy)|
         <= (if 0 < policy.daily then 1 else 0) + (if 0 < policy.weekly then 1 else 0)
            + (if 0 < policy.monthly then 1 else 0)
  {
    hide Label, KeptFor, Newest, DistinctKeys;
    var all := kept + {x};
    var d, w, m := Displaced(kept, x, Daily, policy.daily), Displaced(kept, x, Weekly, policy.weekly),
                   Displaced(kept, x, Monthly, policy.monthly);
    DisplacedAtMostOne(kept, x, Daily, policy.daily);
    DisplacedAtMostOne(kept, x, Weekly, policy.weekly);
    DisplacedAtMostOne(kept, x, Monthly, policy.monthly);
    NewerIsNewest(kept, x);
    forall b | b in all - KeepSet(all, policy)
      ensures b in d + w + m
    {
      assert b in KeepSet(kept, policy);
      var p := KeptForSome(kept, policy, b);
      match p case Daily => case Weekly => case Monthly =>
    }
    SubsetSize(all - KeepSet(all, policy), d + w + m);
    UnionSize(d, w, m);
  }

  lemma NewerIsNewest(kept: set<BackupInfo>, x: BackupInfo)
    requires forall b :: b in kept ==> Newer(x, b)
    ensures Newest(kept + {x}, x)
  {
  }

  lemma KeptForSome(valid: set<BackupInfo>, policy: Policy, b: BackupInfo) returns (p: Period)
    requires SomePositive(policy) && Kept(valid, policy, b)
    ensures KeptFor(valid, p, policy.Counter(p), b)
  {
    if Newest(valid, b) {
      p := if 0 < policy.daily then Daily else if 0 < policy.weekly then Weekly else Monthly;
      NewestIsKeptFor(valid, p, policy.Counter(p), b);
    } else {
      p :| KeptFor(valid, p, policy.Counter(p), b);
    }
  }
}
