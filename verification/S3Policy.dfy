/** The generated bucket policy against the keys a run writes. */
module S3Policy {
  import opened Wrappers
  import opened Text
  import opened Paths
  import opened Keys

  // --------------------------------------------------------- the prefix

  datatype PrefixProblem = Wildcard | Percent | Variable | Control | EmptySegment | Navigation

  predicate OccursAt(s: string, part: string, i: nat) {
    i + |part| <= |s| && s[i..i + |part|] == part
  }

  predicate Contains(s: string, part: string) {
    exists i :: 0 <= i <= |s| && OccursAt(s, part, i)
  }

  predicate HasControl(s: string) {
    exists i :: 0 <= i < |s| && (s[i] < 0x20 as char || s[i] == 0x7f as char)
  }

  predicate Navigates(parts: seq<string>) {
    exists i :: 0 <= i < |parts| && (parts[i] == "." || parts[i] == "..")
  }

  /** The first complaint about a trimmed prefix. */
  function Problem(p: string): Option<PrefixProblem> {
    if p == "" then None
    else if '*' in p || '?' in p then Some(Wildcard)
    else if '%' in p then Some(Percent)
    else if Contains(p, "${") then Some(Variable)
    else if HasControl(p) then Some(Control)
    else if Contains(p, "//") then Some(EmptySegment)
    else if Navigates(Parts(p)) then Some(Navigation)
    else None
  }

  /** What is accepted: no wildcard, no percent sign, no policy variable, no control
      character, no empty piece and no piece that navigates. */
  lemma AcceptedMeans(p: string)
    ensures Problem(p).None?
       <==> && '*' !in p && '?' !in p && '%' !in p
            && (forall i :: 0 <= i < |p| ==> p[i] >= 32 as char && p[i] != 127 as char)
            && (forall i, j :: 0 <= i < j < |p| && j == i + 1 ==>
                  !(p[i] == '$' && p[j] == '{') && !(p[i] == '/' && p[j] == '/'))
            && "." !in Parts(p) && ".." !in Parts(p)
  {
    hide Parts;
    PairMeans(p, '$', '{');
    PairMeans(p, '/', '/');
    assert ['$', '{'] == "${" && ['/', '/'] == "//";
    PartsOfEmpty();
    if p == "" {
      assert Parts(p) == [""];
    }
  }

  lemma PairMeans(p: string, c: char, d: char)
    ensures Contains(p, [c, d]) <==> exists i, j :: 0 <= i < j < |p| && j == i + 1 && p[i] == c && p[j] == d
  {
    forall i | 0 <= i <= |p|
      ensures OccursAt(p, [c, d], i) <==> i + 1 < |p| && p[i] == c && p[i + 1] == d
    {
      if i + 1 < |p| {
        assert p[i..i + 2] == [p[i], p[i + 1]];
      }
    }
    if Contains(p, [c, d]) {
      var i :| 0 <= i <= |p| && OccursAt(p, [c, d], i);
      var j := i + 1;
      assert p[i] == c && p[j] == d;
    }
  }

  method ValidatePrefix(prefix: string) returns (r: Result<string, PrefixProblem>)
    ensures match Problem(TrimSlashes(prefix))
            case Some(e) => r == Failure(e)
            case None => r == Success(TrimSlashes(prefix))
    ensures var p := TrimSlashes(prefix);
            r.Success? <==>
              && '*' !in p && '?' !in p && '%' !in p
              && (forall i :: 0 <= i < |p| ==> p[i] >= 32 as char && p[i] != 127 as char)
              && (forall i, j :: 0 <= i < j < |p| && j == i + 1 ==>
                    !(p[i] == '$' && p[j] == '{') && !(p[i] == '/' && p[j] == '/'))
              && "." !in Parts(p) && ".." !in Parts(p)
  {
    var p := TrimSlashes(prefix);
    AcceptedMeans(p);
    if p == "" {
      return Success("");
    }
    if '*' in p || '?' in p {
      return Failure(Wildcard);
    }
    if '%' in p {
      return Failure(Percent);
    }
    if Contains(p, "${") {
      return Failure(Variable);
    }
    for i := 0 to |p|
      invariant forall j :: 0 <= j < i ==> !(p[j] < 0x20 as char || p[j] == 0x7f as char)
    {
      if p[i] < 0x20 as char || p[i] == 0x7f as char {
        return Failure(Control);
      }
    }
    if Contains(p, "//") {
      return Failure(EmptySegment);
    }
    var parts := Parts(p);
    for i := 0 to |parts|
      invariant forall j :: 0 <= j < i ==> parts[j] != "." && parts[j] != ".."
    {
      if parts[i] == "." || parts[i] == ".." {
        return Failure(Navigation);
      }
    }
    return Success(p);
  }

  // --------------------------------------------------------- the policy

  datatype Policy = Policy(actions: seq<string>, resource: string, bucketResource: string, listPrefix: string)

  datatype PolicyError = BadBucket | BadPrefix(problem: PrefixProblem)

  const ARN := "arn:aws:s3:::"

  predicate PlainBucket(bucket: string) {
    bucket != "" && '*' !in bucket && '?' !in bucket && '/' !in bucket && '%' !in bucket
  }

  /** Writing, aborting with its check, and reading back are always granted, deleting only
      when asked for, all on the objects under the prefix and nothing else. */
  method Generate(bucket: string, prefix: string, withDelete: bool) returns (r: Result<Policy, PolicyError>)
    ensures r.Success? <==> PlainBucket(bucket) && Problem(TrimSlashes(prefix)).None?
    ensures r.Success? ==> r.value == PolicyFor(bucket, TrimSlashes(prefix), withDelete)
    ensures r == Failure(BadBucket)
       <==> bucket == "" || '*' in bucket || '?' in bucket || '/' in bucket || '%' in bucket
    ensures PlainBucket(bucket) && Problem(TrimSlashes(prefix)).Some? ==>
              r == Failure(BadPrefix(Problem(TrimSlashes(prefix)).value))
    ensures r.Success? ==>
              && |r.value.actions| == (if withDelete then 5 else 4)
              && (forall a :: a in r.value.actions <==>
                    || a == "s3:PutObject" || a == "s3:AbortMultipartUpload" || a == "s3:ListMultipartUploadParts"
                    || a == "s3:GetObject" || (a == "s3:DeleteObject" && withDelete))
              && r.value.bucketResource == "arn:aws:s3:::" + bucket
              && (if TrimSlashes(prefix) == ""
                  then r.value.resource == "arn:aws:s3:::" + bucket + "/*" && r.value.listPrefix == "*"
                  else r.value.resource == "arn:aws:s3:::" + bucket + "/" + TrimSlashes(prefix) + "/*"
                       && r.value.listPrefix == TrimSlashes(prefix) + "/*")
  {
    hide Problem, TrimSlashes, PolicyFor;
    PolicyText(bucket, TrimSlashes(prefix), withDelete);
    PolicyActions(bucket, TrimSlashes(prefix), withDelete);
    if !PlainBucket(bucket) {
      return Failure(BadBucket);
    }
    var valid := ValidatePrefix(prefix);
    if valid.Failure? {
      return Failure(BadPrefix(valid.error));
    }
    var p := valid.value;
    var actions := ["s3:PutObject", "s3:AbortMultipartUpload", "s3:ListMultipartUploadParts", "s3:GetObject"];
    if withDelete {
      actions := actions + ["s3:DeleteObject"];
    }
    var resource, listPrefix := ARN + bucket + "/*", "*";
    if p != "" {
      resource, listPrefix := ARN + bucket + "/" + p + "/*", p + "/*";
    }
    return Success(Policy(actions, resource, ARN + bucket, listPrefix));
  }

  lemma PolicyText(bucket: string, p: string, withDelete: bool)
    ensures var policy := PolicyFor(bucket, p, withDelete);
            && policy.bucketResource == "arn:aws:s3:::" + bucket
            && (if p == "" then policy.resource == "arn:aws:s3:::" + bucket + "/*" && policy.listPrefix == "*"
                else policy.resource == "arn:aws:s3:::" + bucket + "/" + p + "/*" && policy.listPrefix == p + "/*")
  {
    var start := ARN + bucket + "/";
    if p == "" {
      assert start + "" + "*" == ARN + bucket + "/*";
      assert "" + "*" == "*";
    } else {
      assert start + (p + "/") + "*" == start + p + "/*";
      assert (p + "/") + "*" == p + "/*";
    }
  }

  lemma PolicyActions(bucket: string, p: string, withDelete: bool)
    ensures var policy := PolicyFor(bucket, p, withDelete);
            && policy.actions
               == (["s3:PutObject", "s3:AbortMultipartUpload", "s3:ListMultipartUploadParts", "s3:GetObject"]
                   + if withDelete then ["s3:DeleteObject"] else [])
            && (forall a :: a in policy.actions <==>
                  || a == "s3:PutObject" || a == "s3:AbortMultipartUpload" || a == "s3:ListMultipartUploadParts"
                  || a == "s3:GetObject" || (a == "s3:DeleteObject" && withDelete))
  {
  }

  function PolicyFor(bucket: string, p: string, withDelete: bool): Policy {
    var under := Under(p);
    Policy(["s3:PutObject", "s3:AbortMultipartUpload", "s3:ListMultipartUploadParts", "s3:GetObject"]
             + (if withDelete then ["s3:DeleteObject"] else []),
           ARN + bucket + "/" + under + "*", ARN + bucket, under + "*")
  }

  /** What every key under a prefix starts with. */
  function Under(p: string): string {
    if p == "" then "" else p + "/"
  }

  /** The resource of an object. */
  function ObjectArn(bucket: string, key: string): string {
    ARN + bucket + "/" + key
  }

  /** IAM's matching: a star stands for any text, a question mark for one character. */
  predicate Glob(p: string, s: string)
    decreases |p| + |s|
  {
    if p == "" then s == ""
    else if p[0] == '*' then Glob(p[1..], s) || (s != "" && Glob(p, s[1..]))
    else s != "" && (p[0] == '?' || p[0] == s[0]) && Glob(p[1..], s[1..])
  }

  lemma {:induction false} StarMatchesAll(s: string)
    ensures Glob("*", s)
  {
    assert "*"[1..] == "";
    if s == "" {
    } else {
      StarMatchesAll(s[1..]);
    }
  }

  /** Literal text and a star match what starts with the text. */
  lemma {:induction false} GlobPrefix(lit: string, s: string)
    requires '*' !in lit && '?' !in lit
    ensures Glob(lit + "*", s) <==> lit <= s
  {
    if lit == "" {
      assert lit + "*" == "*";
      StarMatchesAll(s);
    } else {
      assert (lit + "*")[1..] == lit[1..] + "*" && lit[0] in lit;
      if s != "" {
        GlobPrefix(lit[1..], s[1..]);
        assert lit == [lit[0]] + lit[1..] && s == [s[0]] + s[1..];
        if lit[0] == s[0] && lit[1..] <= s[1..] {
          assert forall i :: 0 < i < |lit| ==> lit[i] == lit[1..][i - 1] == s[1..][i - 1] == s[i];
        }
      }
    }
  }

  // ------------------------------------------------ literal prefixes

  lemma ContainsGrows(s: string, c: char, part: string)
    requires Contains(s, part)
    ensures Contains(s + [c], part)
  {
    var i :| 0 <= i <= |s| && OccursAt(s, part, i);
    assert OccursAt(s + [c], part, i);
  }

  lemma TwoSlashes(s: string)
    requires s != "" && s[|s| - 1] == '/'
    ensures Contains(s + "/", "//")
  {
    assert OccursAt(s + "/", "//", |s| - 1);
  }

  /** An empty piece means a slash at an end or two in a row. */
  lemma {:induction false} EmptyPieces(s: string)
    ensures Parts(s)[|Parts(s)| - 1] == "" <==> s == "" || s[|s| - 1] == '/'
    ensures forall i :: 0 <= i < |Parts(s)| - 1 && Parts(s)[i] == "" ==> Rooted(s) || Contains(s, "//")
  {
    hide Parts, Contains;
    PartsOfEmpty();
    if s == "" {
    } else {
      var front, last := s[..|s| - 1], s[|s| - 1];
      EmptyPieces(front);
      PartsStep(front, last);
      assert front + [last] == s;
      if Contains(front, "//") {
        ContainsGrows(front, last, "//");
      }
      if last == '/' && front != "" && front[|front| - 1] == '/' {
        TwoSlashes(front);
      }
    }
  }

  lemma SlashedStep(parts: seq<string>, part: string)
    ensures Slashed(parts + [part]) == Slashed(parts) + part + "/"
  {
    assert (parts + [part])[..|parts|] == parts;
  }

  lemma {:induction false} SlashedParts(s: string)
    ensures Slashed(Parts(s)) == s + "/"
  {
    hide Parts, Slashed;
    PartsOfEmpty();
    SlashedStep([], "");
    assert Slashed([]) == "" by { SlashedEnd([]); }
    if s == "" {
      assert [] + [""] == [""];
    } else {
      var front, last := s[..|s| - 1], s[|s| - 1];
      var parts := Parts(front);
      var most, piece := parts[..|parts| - 1], parts[|parts| - 1];
      SlashedParts(front);
      PartsStep(front, last);
      assert front + [last] == s && parts == most + [piece];
      SlashedStep(most, piece);
      if last == '/' {
        SlashedStep(parts, "");
      } else {
        SlashedStep(most, piece + [last]);
        assert Slashed(most) + piece + "/" == front + "/";
        assert (Slashed(most) + piece + "/")[..|front|] == front;
        assert Slashed(most) + piece == front;
        assert Slashed(most) + (piece + [last]) + "/" == front + [last] + "/";
      }
    }
  }

  /** Path cleaning takes an accepted prefix as it is. */
  lemma PrefixIsLiteral(p: string)
    requires Problem(p).None? && p != "" && p[0] != '/' && p[|p| - 1] != '/'
    ensures Base(p) == p + "/" && Clean(p) == p
  {
    EmptyPieces(p);
    PartsHaveNoSlash(p);
    var parts := Parts(p);
    forall i | 0 <= i < |parts|
      ensures parts[i] != "" && parts[i] != "." && parts[i] != ".." && '/' !in parts[i]
    {
      assert parts[i] in parts;
    }
    ReduceNormal(false, parts);
    SlashedParts(p);
  }

  // ------------------------------------------------------- main results

  /** The object statement covers exactly the keys of this bucket under the prefix. */
  lemma ObjectsCovered(bucket: string, p: string, withDelete: bool, other: string, key: string)
    requires PlainBucket(bucket) && Problem(p).None? && '/' !in other
    ensures Glob(PolicyFor(bucket, p, withDelete).resource, ObjectArn(other, key)) <==>
        other == bucket && Under(p) <= key
  {
    hide Glob, PlainBucket, Problem, Under;
    var under := Under(p);
    var lit := ARN + bucket + "/" + under;
    NoWildcards(bucket, p);
    GlobPrefix(lit, ObjectArn(other, key));
    assert '/' !in bucket by { BucketHasNoSlash(bucket); }
    ArnsCompare(bucket, under, other, key);
  }

  lemma BucketHasNoSlash(bucket: string)
    requires PlainBucket(bucket)
    ensures '/' !in bucket
  {
  }

  lemma ArnsCompare(bucket: string, under: string, other: string, key: string)
    requires '/' !in bucket && '/' !in other
    ensures ARN + bucket + "/" + under <= ARN + other + "/" + key <==> other == bucket && under <= key
  {
    var x, y := bucket + "/" + under, other + "/" + key;
    assert ARN + bucket + "/" + under == ARN + x && ARN + other + "/" + key == ARN + y;
    if ARN + x <= ARN + y {
      PrefixCancel(ARN, x, y);
      SegmentsCompare(bucket, under, other, key);
    }
    if other == bucket && under <= key {
      var rest := key[|under|..];
      assert key == under + rest;
      assert ARN + y == (ARN + x) + rest;
    }
  }

  lemma NoWildcards(bucket: string, p: string)
    requires PlainBucket(bucket) && Problem(p).None?
    ensures '*' !in Under(p) && '?' !in Under(p)
    ensures var lit := ARN + bucket + "/" + Under(p); '*' !in lit && '?' !in lit
  {
  }

  /** The list statement allows exactly the listings within the prefix. */
  lemma ListingsCovered(bucket: string, p: string, withDelete: bool, requested: string)
    requires PlainBucket(bucket) && Problem(p).None?
    ensures Glob(PolicyFor(bucket, p, withDelete).listPrefix, requested) <==> Under(p) <= requested
  {
    NoWildcards(bucket, p);
    GlobPrefix(Under(p), requested);
  }

  /** The calls of a run and of a pass on one object. */
  datatype Call = Create | UploadPart | Complete | Abort | ListParts | Put | Head | Get | Delete

  /** What each call needs to be granted; S3 has the whole of a multipart upload under
      PutObject, and HEAD under GetObject. */
  function Needs(call: Call): string {
    match call
    case Abort => "s3:AbortMultipartUpload"
    case ListParts => "s3:ListMultipartUploadParts"
    case Head => "s3:GetObject"
    case Get => "s3:GetObject"
    case Delete => "s3:DeleteObject"
    case _ => "s3:PutObject"
  }

  /** The policy allows a run its calls, and a pass its deletions if and only if that was
      asked for, on exactly the objects of this bucket under the prefix. */
  lemma CallsAllowed(bucket: string, p: string, withDelete: bool, other: string, key: string, call: Call)
    requires PlainBucket(bucket) && Problem(p).None? && '/' !in other
    ensures var policy := PolicyFor(bucket, p, withDelete);
            Needs(call) in policy.actions && Glob(policy.resource, ObjectArn(other, key)) <==>
              && other == bucket && (if p == "" then "" else p + "/") <= key
              && (call == Delete ==> withDelete)
  {
    hide Glob, PlainBucket, Problem, ObjectArn;
    ObjectsCovered(bucket, p, withDelete, other, key);
    DeleteDiffers();
  }

  lemma DeleteDiffers()
    ensures "s3:DeleteObject" !in
            ["s3:PutObject", "s3:AbortMultipartUpload", "s3:ListMultipartUploadParts", "s3:GetObject"]
  {
    assert "s3:DeleteObject"[3] == 'D' && "s3:PutObject"[3] == 'P' && "s3:AbortMultipartUpload"[3] == 'A';
    assert "s3:ListMultipartUploadParts"[3] == 'L' && "s3:GetObject"[3] == 'G';
  }

  /** Under an accepted prefix the root of all scopes is the prefix itself. */
  lemma RootIsLiteral(prefix: string)
    requires Problem(TrimSlashes(prefix)).None?
    ensures Root(TrimSlashes(prefix)) == Under(TrimSlashes(prefix))
  {
    hide Base, Problem, TrimSlashes;
    var i, j := TrimmedPrefix(prefix);
    if TrimSlashes(prefix) != "" {
      PrefixIsLiteral(TrimSlashes(prefix));
    }
  }

  /** Everything a run writes and a retention pass lists under an accepted prefix is covered. */
  lemma RunIsCovered(bucket: string, prefix: string, withDelete: bool, src: Source, year: string, month: string,
                     id: string)
    requires PlainBucket(bucket) && Problem(TrimSlashes(prefix)).None?
    requires Safe(src.cluster) && Safe(year) && Safe(month) && '/' !in id
    ensures var p := TrimSlashes(prefix);
            var policy, key := PolicyFor(bucket, p, withDelete), ObjectKey(p, src, year, month, id);
            && Glob(policy.resource, ObjectArn(bucket, key))
            && Glob(policy.resource, ObjectArn(bucket, ManifestKeyOf(key)))
            && Glob(policy.listPrefix, Scope(p, src))
  {
    hide Glob, PolicyFor, ObjectKey, Scope, Problem, Safe, ManifestKeyOf, Sanitized, TrimSlashes, Under, Root,
      EngineName, BackupScope, ObjectArn, PlainBucket, HasSuffix;
    var p := TrimSlashes(prefix);
    var key, scope := ObjectKey(p, src, year, month, id), Scope(p, src);
    RootIsLiteral(prefix);
    ScopeUnder(p, src);
    ScopeRoundTrip(p, src, year, month, id);
    ManifestSharesScope(p, src, year, month, id);
    BucketHasNoSlash(bucket);
    ObjectsCovered(bucket, p, withDelete, bucket, key);
    ObjectsCovered(bucket, p, withDelete, bucket, ManifestKeyOf(key));
    ListingsCovered(bucket, p, withDelete, scope);
  }

  lemma ScopeUnder(p: string, src: Source)
    requires Safe(src.cluster) && Root(p) == Under(p)
    ensures Under(p) <= Scope(p, src)
  {
    hide Scope, Safe, Sanitized, Under, Root, EngineName;
    ScopeShape(p, src);
    var tail := EngineName(src.engine) + "/" + src.cluster + "/" + Sanitized(src.database) + "/";
    assert Scope(p, src) == Under(p) + tail;
  }
}
