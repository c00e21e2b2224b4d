/** Object keys and the scopes they belong to. */
module Keys {
  import opened Text
  import opened Paths
  import opened Backups

  // ------------------------------------------------------ percent-encoding

  /** Bytes that never appear bare in a key segment. */
  predicate Escaped(c: char) {
    c == '/' || c == '\\' || c == ' ' || c == '%' || c < 0x20 as char || c == 0x7f as char
  }

  function Digit(n: nat): char
    requires n < 16
  {
    if n < 10 then ('0' as nat + n) as char else ('A' as nat + n - 10) as char
  }

  function EncodeChar(c: char): string {
    if Escaped(c) then ['%', Digit(c as nat / 16), Digit(c as nat % 16)] else [c]
  }

  function Encode(s: string): string {
    if s == "" then "" else EncodeChar(s[0]) + Encode(s[1..])
  }

  function Sanitized(s: string): string {
    if s == "." then "%2E"
    else if s == ".." then "%2E%2E"
    else if s == "" then "%"
    else Encode(s)
  }

  /** Strings one after the other. */
  function Flat(pieces: seq<string>): string {
    if pieces == [] then "" else Flat(pieces[..|pieces| - 1]) + pieces[|pieces| - 1]
  }

  lemma FlatAppend(pieces: seq<string>, piece: string)
    ensures Flat(pieces + [piece]) == Flat(pieces) + piece
  {
    assert (pieces + [piece])[..|pieces|] == pieces;
  }

  lemma {:induction false} EncodeOfPlain(s: string)
    requires '/' !in s && '\\' !in s && ' ' !in s && '%' !in s && 127 as char !in s
    requires forall i :: 0 <= i < |s| ==> s[i] >= 32 as char
    ensures Encode(s) == s
  {
    if s == "" {
    } else {
      assert s[0] in s;
      EncodedChar(s[0]);
      EncodeOfPlain(s[1..]);
    }
  }

  /** Encodes a name byte by byte: a slash, a backslash, a space, a percent sign or a control
      byte as a percent sign and its two digits in upper-case hexadecimal, any other as it is.
      A name without any such byte stays as it is. */
  method SanitizeKeySegment(s: string) returns (r: string, ghost pieces: seq<string>)
    ensures r == Sanitized(s)
    ensures s == "." ==> r == "%2E"
    ensures s == ".." ==> r == "%2E%2E"
    ensures s == "" ==> r == "%"
    ensures s != "." && s != ".." && s != "" ==>
              && r == Flat(pieces) && |pieces| == |s|
              && forall i :: 0 <= i < |s| ==>
                    pieces[i] == if s[i] == '/' || s[i] == '\\' || s[i] == ' ' || s[i] == '%' || s[i] < 32 as char
                                    || s[i] == 127 as char
                                 then ['%', "0123456789ABCDEF"[s[i] as nat / 16], "0123456789ABCDEF"[s[i] as nat % 16]]
                                 else [s[i]]
    ensures s != "." && s != ".." && s != "" && '/' !in s && '\\' !in s && ' ' !in s && '%' !in s && 127 as char !in s
            && (forall i :: 0 <= i < |s| ==> s[i] >= 32 as char) ==>
              r == s
  {
    hide EncodeChar;
    pieces := [];
    if s == "." {
      return "%2E", pieces;
    } else if s == ".." {
      return "%2E%2E", pieces;
    } else if s == "" {
      return "%", pieces;
    }
    r := "";
    for i := 0 to |s|
      invariant r + Encode(s[i..]) == Encode(s)
      invariant r == Flat(pieces) && |pieces| == i
      invariant forall j :: 0 <= j < i ==> pieces[j] == EncodeChar(s[j])
    {
      assert s[i..][1..] == s[i + 1..];
      FlatAppend(pieces, EncodeChar(s[i]));
      r := r + EncodeChar(s[i]);
      pieces := pieces + [EncodeChar(s[i])];
    }
    assert s[|s|..] == "";
    forall i | 0 <= i < |s|
      ensures pieces[i] ==
              if s[i] == '/' || s[i] == '\\' || s[i] == ' ' || s[i] == '%' || s[i] < 32 as char || s[i] == 127 as char
              then ['%', "0123456789ABCDEF"[s[i] as nat / 16], "0123456789ABCDEF"[s[i] as nat % 16]]
              else [s[i]]
    {
      EncodedChar(s[i]);
    }
    if '/' !in s && '\\' !in s && ' ' !in s && '%' !in s && 127 as char !in s
       && (forall i :: 0 <= i < |s| ==> s[i] >= 32 as char) {
      EncodeOfPlain(s);
    }
  }

  lemma EncodedChar(c: char)
    ensures EncodeChar(c) ==
            if c == '/' || c == '\\' || c == ' ' || c == '%' || c < 32 as char || c == 127 as char
            then ['%', "0123456789ABCDEF"[c as nat / 16], "0123456789ABCDEF"[c as nat % 16]]
            else [c]
    ensures EncodeChar(c) != "" && (!Escaped(c) ==> EncodeChar(c) == [c])
  {
    if Escaped(c) {
      HexDigit(c as nat / 16);
      HexDigit(c as nat % 16);
    }
  }

  lemma HexDigit(n: nat)
    requires n < 16
    ensures Digit(n) == "0123456789ABCDEF"[n]
  {
    assert n in {0, 1, 2, 3, 4, 5, 6, 7, 8, 9, 10, 11, 12, 13, 14, 15};
  }

  function DigitValue(c: char): nat {
    if '0' <= c <= '9' then c as nat - '0' as nat
    else if 'A' <= c <= 'F' then c as nat - 'A' as nat + 10
    else 0
  }

  function Decode(s: string): string {
    if s == "" then ""
    else if s[0] == '%' && |s| >= 3 then [(DigitValue(s[1]) * 16 + DigitValue(s[2])) as char] + Decode(s[3..])
    else [s[0]] + Decode(s[1..])
  }

  function Desanitized(s: string): string {
    if s == "%" then "" else Decode(s)
  }

  lemma DigitValueOfDigit(n: nat)
    requires n < 16
    ensures DigitValue(Digit(n)) == n && Digit(n) != '/' && Digit(n) != '.' && Digit(n) != '%'
  {
  }

  lemma DecodeEncodedChar(c: char, rest: string)
    ensures Decode(EncodeChar(c) + rest) == [c] + Decode(rest)
  {
    var s := EncodeChar(c) + rest;
    if Escaped(c) {
      var hi, lo := c as nat / 16, c as nat % 16;
      DigitValueOfDigit(hi);
      DigitValueOfDigit(lo);
      assert s[3..] == rest;
    } else {
      assert s[1..] == rest;
    }
  }

  lemma {:induction false} DecodeEncode(s: string)
    ensures Decode(Encode(s)) == s
  {
    if s == "" {
    } else {
      DecodeEncode(s[1..]);
      DecodeEncodedChar(s[0], Encode(s[1..]));
      assert [s[0]] + s[1..] == s;
    }
  }

  /** No two names share a segment: the encoding can be read back. */
  lemma SanitizeReadsBack(s: string)
    ensures Desanitized(Sanitized(s)) == s
  {
    if s == "." {
      assert "%2E"[3..] == "";
    } else if s == ".." {
      assert "%2E%2E"[3..] == "%2E" && "%2E"[3..] == "";
    } else if s != "" {
      DecodeEncode(s);
      if Encode(s) == "%" {
        EncodeLength(s);
      }
    }
  }

  lemma EncodeLength(s: string)
    requires s != ""
    ensures Encode(s) != "%"
  {
    assert Encode(s)[0] == EncodeChar(s[0])[0];
  }

  /** A byte fit for a key segment. */
  predicate Plain(c: char) {
    c != '/' && c != '\\' && c != ' ' && c >= 0x20 as char && c != 0x7f as char
  }

  lemma EncodeCharIsPlain(c: char)
    ensures EncodeChar(c) != "" && forall d :: d in EncodeChar(c) ==> Plain(d)
  {
  }

  lemma {:induction false} EncodeIsPlain(s: string)
    ensures forall c :: c in Encode(s) ==> Plain(c)
    ensures s != "" ==> Encode(s) != ""
  {
    if s == "" {
    } else {
      hide Plain, EncodeChar;
      EncodeIsPlain(s[1..]);
      EncodeCharIsPlain(s[0]);
    }
  }

  /** A segment survives path cleaning, whatever the name was. */
  lemma SanitizeIsSafe(s: string)
    ensures Safe(Sanitized(s)) && forall c :: c in Sanitized(s) ==> Plain(c)
  {
    EncodeIsPlain(s);
    SanitizeReadsBack(s);
    assert Decode(".") == "." by { assert "."[1..] == ""; }
    assert Decode("..") == ".." by { assert ".."[1..] == "."; }
  }

  // ----------------------------------------------------------------- labels

  /** The cluster label: the host, with a port that is not the engine's default. */
  function ClusterName(host: string, port: string, usual: string): string {
    if port == usual then host else host + "_" + port
  }

  function ClusterLabel(host: string, port: string, usual: string): string {
    Sanitized(ClusterName(host, port, usual))
  }

  /** Two servers share a label exactly when they are the same, or one uses the default port
      and its host is spelt like the other's host and port. */
  lemma LabelsShared(h: string, p: string, h': string, p': string, usual: string)
    requires '_' !in p && '_' !in p'
    ensures ClusterLabel(h, p, usual) == ClusterLabel(h', p', usual)
       <==> (h == h' && p == p')
            || (p == usual != p' && h == h' + "_" + p')
            || (p' == usual != p && h' == h + "_" + p)
  {
    SanitizeReadsBack(ClusterName(h, p, usual));
    SanitizeReadsBack(ClusterName(h', p', usual));
    if p != usual && p' != usual && h + "_" + p == h' + "_" + p' {
      SameTail(h, p, h', p');
    }
  }

  lemma AfterUnderscore(h: string, p: string)
    requires '_' !in p
    ensures var s := h + "_" + p; s[|h|] == '_' && forall i :: |h| < i < |s| ==> s[i] != '_'
  {
    var s := h + "_" + p;
    forall i | |h| < i < |s|
      ensures s[i] != '_'
    {
      assert s[i] == p[i - |h| - 1];
    }
  }

  lemma SameTail(h: string, p: string, h': string, p': string)
    requires h + "_" + p == h' + "_" + p' && '_' !in p && '_' !in p'
    ensures h == h' && p == p'
  {
    var s := h + "_" + p;
    AfterUnderscore(h, p);
    AfterUnderscore(h', p');
    assert |h| == |h'|;
    assert h == s[..|h|] && p == s[|h| + 1..];
    assert h' == s[..|h|] && p' == s[|h| + 1..];
  }

  // ------------------------------------------------------- keys and scopes

  datatype Engine = Postgres | MySQL

  function EngineName(e: Engine): string {
    match e
    case Postgres => "postgres"
    case MySQL => "mysql"
  }

  /** A database as a destination sees it; the cluster is a label. */
  datatype Source = Source(engine: Engine, cluster: string, database: string)

  function ScopeSegments(prefix: string, src: Source): seq<string> {
    (if prefix == "" then [] else [prefix]) + [EngineName(src.engine), src.cluster, Sanitized(src.database)]
  }

  /** The scope derived from a configuration. */
  function Scope(prefix: string, src: Source): string {
    Join(ScopeSegments(prefix, src)) + "/"
  }

  function ObjectKey(prefix: string, src: Source, year: string, month: string, id: string): string {
    Join(ScopeSegments(prefix, src) + [year, month, id + CIPHERTEXT_SUFFIX])
  }

  function ManifestKeyOf(key: string): string {
    TrimSuffix(key, CIPHERTEXT_SUFFIX) + MANIFEST_SUFFIX
  }

  /** The scope read off a key. */
  function BackupScope(key: string): string {
    Dir(Dir(Dir(key))) + "/"
  }

  /** strings.Trim(s, "/"), as a destination's prefix is taken from its URL path. */
  function TrimSlashes(s: string): string {
    if s == "" then ""
    else if s[0] == '/' then TrimSlashes(s[1..])
    else if s[|s| - 1] == '/' then TrimSlashes(s[..|s| - 1])
    else s
  }

  lemma ConcatStep(elems: seq<string>, e: string)
    ensures Concat(elems) != "" ==> Concat(elems + [e]) == Concat(elems) + "/" + e
    ensures Concat(elems) == "" ==> Concat(elems + [e]) == e
  {
    assert (elems + [e])[..|elems|] == elems;
  }

  lemma EngineIsSafe(e: Engine)
    ensures Safe(EngineName(e))
  {
  }

  /** What every key under a destination begins with. */
  function Root(prefix: string): string {
    if prefix == "" then "" else Base(prefix)
  }

  lemma BaseOfSegment(e: string)
    requires Safe(e)
    ensures Base(e) == e + "/"
  {
    PartsOfSegment(e);
    assert Reduce(false, [e]) == [e];
    assert e[0] in e;
    assert Slashed([e]) == e + "/";
  }

  /** The path of the engine under a prefix, of a cluster under it, and of a database. */
  function EnginePath(prefix: string, e: Engine): string {
    if prefix == "" then EngineName(e) else prefix + "/" + EngineName(e)
  }

  function ScopePath(prefix: string, src: Source): string {
    EnginePath(prefix, src.engine) + "/" + src.cluster + "/" + Sanitized(src.database)
  }

  lemma ConcatOfScope(prefix: string, src: Source)
    ensures Concat(ScopeSegments(prefix, src)) == ScopePath(prefix, src) != ""
  {
    var e, c, d := EngineName(src.engine), src.cluster, Sanitized(src.database);
    var front := if prefix == "" then [] else [prefix];
    assert Concat(front) == prefix;
    ConcatStep(front, e);
    ConcatStep(front + [e], c);
    ConcatStep(front + [e] + [c], d);
    assert ScopeSegments(prefix, src) == front + [e] + [c] + [d];
  }

  /** A scope is the root, then engine, cluster and database, each followed by a slash. */
  lemma ScopeShape(prefix: string, src: Source)
    requires Safe(src.cluster)
    ensures Scope(prefix, src) == Base(ScopePath(prefix, src))
    ensures Scope(prefix, src) == Root(prefix) + EngineName(src.engine) + "/" + src.cluster + "/"
        + Sanitized(src.database) + "/"
  {
    hide Clean, Base, Sanitized, EngineName;
    var e, c, d := EngineName(src.engine), src.cluster, Sanitized(src.database);
    EngineIsSafe(src.engine);
    SanitizeIsSafe(src.database);
    var path := EnginePath(prefix, src.engine);
    if prefix == "" {
      BaseOfSegment(e);
    } else {
      CleanOfChild(prefix, e);
    }
    assert Base(path) == Root(prefix) + e + "/";
    CleanOfChild(path, c);
    CleanOfChild(path + "/" + c, d);
    ConcatOfScope(prefix, src);
  }

  lemma FileIsSafe(id: string)
    requires '/' !in id
    ensures Safe(id + CIPHERTEXT_SUFFIX) && Safe(id + MANIFEST_SUFFIX)
  {
  }

  function FilePath(prefix: string, src: Source, year: string, month: string, file: string): string {
    ScopePath(prefix, src) + "/" + year + "/" + month + "/" + file
  }

  /** A file two safe levels below a scope: where it is, and what scope it reads back to. */
  lemma FileShape(prefix: string, src: Source, year: string, month: string, file: string)
    requires Safe(src.cluster) && Safe(year) && Safe(month) && Safe(file)
    ensures var key := Clean(FilePath(prefix, src, year, month, file));
            key == Scope(prefix, src) + year + "/" + month + "/" + file && BackupScope(key) == Scope(prefix, src)
  {
    hide Clean, Base, Sanitized, EngineName, Dir;
    var path := ScopePath(prefix, src);
    ConcatOfScope(prefix, src);
    ScopeShape(prefix, src);
    CleanOfChild(path, year);
    CleanOfChild(path + "/" + year, month);
    CleanOfChild(path + "/" + year + "/" + month, file);
    DirOfCleanChild(path + "/" + year + "/" + month, file);
    DirOfCleanChild(path + "/" + year, month);
    DirOfCleanChild(path, year);
  }

  lemma KeyIsFile(prefix: string, src: Source, year: string, month: string, id: string)
    ensures ObjectKey(prefix, src, year, month, id) == Clean(FilePath(prefix, src, year, month, id + CIPHERTEXT_SUFFIX))
  {
    hide Clean, Sanitized, EngineName;
    var file := id + CIPHERTEXT_SUFFIX;
    var segs := ScopeSegments(prefix, src);
    ConcatOfScope(prefix, src);
    ConcatStep(segs, year);
    ConcatStep(segs + [year], month);
    ConcatStep(segs + [year] + [month], file);
    assert segs + [year, month, file] == segs + [year] + [month] + [file];
  }

  /** Reading the scope off a key gives the scope the configuration derives, for every
      prefix, whatever cleaning does to it; and the key is a file of that scope. */
  lemma ScopeRoundTrip(prefix: string, src: Source, year: string, month: string, id: string)
    requires Safe(src.cluster) && Safe(year) && Safe(month) && '/' !in id
    ensures var key, scope := ObjectKey(prefix, src, year, month, id), Scope(prefix, src);
            && BackupScope(key) == scope
            && key == scope + year + "/" + month + "/" + id + ".dump.zst.age"
            && scope <= key
  {
    hide Clean, Scope, ObjectKey, BackupScope, Safe;
    var scope, file := Scope(prefix, src), id + CIPHERTEXT_SUFFIX;
    FileIsSafe(id);
    FileShape(prefix, src, year, month, file);
    KeyIsFile(prefix, src, year, month, id);
    assert scope + year + "/" + month + "/" + file == scope + (year + "/" + month + "/" + file);
    assert scope + year + "/" + month + "/" + file == scope + year + "/" + month + "/" + id + CIPHERTEXT_SUFFIX;
  }

  /** The schema of keys, with a prefix of one piece and without any. */
  lemma KeySchema(prefix: string, src: Source, year: string, month: string, id: string)
    requires Safe(src.cluster) && Safe(year) && Safe(month) && '/' !in id && (prefix == "" || Safe(prefix))
    ensures ObjectKey(prefix, src, year, month, id)
         == (if prefix == "" then "" else prefix + "/") + EngineName(src.engine) + "/" + src.cluster + "/"
            + Sanitized(src.database) + "/" + year + "/" + month + "/" + id + ".dump.zst.age"
  {
    hide Clean, Scope, ObjectKey, BackupScope, Sanitized, EngineName;
    ScopeRoundTrip(prefix, src, year, month, id);
    ScopeShape(prefix, src);
    if prefix != "" {
      BaseOfSegment(prefix);
    }
  }

  lemma ExampleLabels()
    ensures ClusterLabel("localhost", "5417", "5432") == "localhost_5417"
  {
    hide Encode;
    var name := "localhost_5417";
    assert "localhost" + "_" + "5417" == name;
    EncodeOfPlain(name);
  }

  lemma ExampleNames()
    ensures EngineName(Postgres) == "postgres" && EngineName(MySQL) == "mysql" && Sanitized("src") == "src"
    ensures ClusterLabel("localhost", "5432", "5432") == "localhost"
  {
    hide Encode;
    EncodeOfPlain("src");
    EncodeOfPlain("localhost");
  }

  /** The schema as published. */
  lemma KeyExample(id: string)
    requires '/' !in id
    ensures var server := ClusterLabel("localhost", "5417", "5432");
            && ObjectKey("e2e", Source(Postgres, server, "src"), "2026", "07", id)
               == "e2e/" + "postgres" + "/localhost_5417/src/2026/07/" + id + ".dump.zst.age"
            && ObjectKey("", Source(MySQL, server, "src"), "2026", "07", id)
               == "mysql" + "/localhost_5417/src/2026/07/" + id + ".dump.zst.age"
  {
    hide Clean, Scope, ObjectKey, BackupScope, Sanitized, EngineName, ClusterLabel;
    ExampleLabels();
    ExampleNames();
    KeySchema("e2e", Source(Postgres, "localhost_5417", "src"), "2026", "07", id);
    KeySchema("", Source(MySQL, "localhost_5417", "src"), "2026", "07", id);
    assert "e2e" + "/" == "e2e/" && "" + "mysql" == "mysql";
    ExampleText("e2e/", "postgres");
    ExampleText("", "mysql");
  }

  lemma ExampleText(root: string, engine: string)
    ensures root + engine + "/" + "localhost_5417" + "/" + "src" + "/" + "2026" + "/" + "07" + "/"
         == root + engine + "/localhost_5417/src/2026/07/"
  {
    var x := root + engine;
    assert x + "/" + "localhost_5417" + "/" == x + "/localhost_5417/";
    assert x + "/localhost_5417/" + "src" + "/" == x + "/localhost_5417/src/";
    assert x + "/localhost_5417/src/" + "2026" + "/" == x + "/localhost_5417/src/2026/";
    assert x + "/localhost_5417/src/2026/" + "07" + "/" == x + "/localhost_5417/src/2026/07/";
  }

  /** The manifest of a key is its sibling: same scope, same stem, the other suffix. */
  lemma ManifestSharesScope(prefix: string, src: Source, year: string, month: string, id: string)
    requires Safe(src.cluster) && Safe(year) && Safe(month) && '/' !in id
    ensures var manifest, scope := ManifestKeyOf(ObjectKey(prefix, src, year, month, id)), Scope(prefix, src);
            && BackupScope(manifest) == scope
            && manifest == scope + year + "/" + month + "/" + id + ".manifest.json"
            && scope <= manifest
  {
    hide Clean, Scope, ObjectKey, BackupScope, Safe;
    var scope, file := Scope(prefix, src), id + MANIFEST_SUFFIX;
    var stem := scope + year + "/" + month + "/" + id;
    ScopeRoundTrip(prefix, src, year, month, id);
    TrimSuffixOfConcat(stem, CIPHERTEXT_SUFFIX);
    FileIsSafe(id);
    FileShape(prefix, src, year, month, file);
    assert scope + year + "/" + month + "/" + file == stem + MANIFEST_SUFFIX;
    assert stem + MANIFEST_SUFFIX == scope + (year + "/" + month + "/" + file);
  }

  // ------------------------------------------------------------ separation

  lemma FirstSlash(a: string, x: string)
    requires '/' !in a
    ensures var s := a + "/" + x; s[|a|] == '/' && forall i :: 0 <= i < |a| ==> s[i] != '/'
  {
  }

  /** Segments followed by slashes compare segment by segment. */
  lemma SegmentsCompare(a: string, x: string, b: string, y: string)
    requires '/' !in a && '/' !in b && a + "/" + x <= b + "/" + y
    ensures a == b && x <= y
  {
    var s, t := a + "/" + x, b + "/" + y;
    FirstSlash(a, x);
    FirstSlash(b, y);
    assert forall i :: 0 <= i < |s| ==> s[i] == t[i];
    assert |a| == |b|;
    assert a == s[..|a|] && b == t[..|a|];
    assert x == s[|a| + 1..] && y == t[|a| + 1..];
  }

  lemma PrefixCancel(p: string, s: string, t: string)
    requires p + s <= p + t
    ensures s <= t
  {
    assert s == (p + s)[|p|..] && t == (p + t)[|p|..];
  }

  lemma ThreeCompare(root: string, e: string, c: string, d: string, e': string, c': string, d': string)
    requires '/' !in e && '/' !in c && '/' !in d && '/' !in e' && '/' !in c' && '/' !in d'
    requires root + e + "/" + c + "/" + d + "/" <= root + e' + "/" + c' + "/" + d' + "/"
    ensures e == e' && c == c' && d == d'
  {
    var x, x' := d + "/" + "", d' + "/" + "";
    var y, y' := c + "/" + x, c' + "/" + x';
    assert root + e + "/" + c + "/" + d + "/" == root + (e + "/" + y);
    assert root + e' + "/" + c' + "/" + d' + "/" == root + (e' + "/" + y');
    PrefixCancel(root, e + "/" + y, e' + "/" + y');
    SegmentsCompare(e, y, e', y');
    SegmentsCompare(c, x, c', x');
    SegmentsCompare(d, "", d', "");
  }

  /** For a fixed prefix, no scope of one database is a prefix of another's. */
  lemma ScopesSeparate(prefix: string, src: Source, other: Source)
    requires Safe(src.cluster) && Safe(other.cluster) && Scope(prefix, src) <= Scope(prefix, other)
    ensures src == other
  {
    hide Scope, Sanitized, EngineName, Root;
    ScopeShape(prefix, src);
    ScopeShape(prefix, other);
    EngineIsSafe(src.engine);
    EngineIsSafe(other.engine);
    SanitizeIsSafe(src.database);
    SanitizeIsSafe(other.database);
    ThreeCompare(Root(prefix), EngineName(src.engine), src.cluster, Sanitized(src.database),
                 EngineName(other.engine), other.cluster, Sanitized(other.database));
    SanitizeReadsBack(src.database);
    SanitizeReadsBack(other.database);
    EngineNamesDiffer(src.engine, other.engine);
  }

  lemma EngineNamesDiffer(e: Engine, f: Engine)
    requires EngineName(e) == EngineName(f)
    ensures e == f
  {
    assert EngineName(Postgres)[0] == 'p' && EngineName(MySQL)[0] == 'm';
  }

  /** No key lies in the scopes of two databases. */
  lemma KeysSeparate(prefix: string, src: Source, other: Source, key: string)
    requires Safe(src.cluster) && Safe(other.cluster)
    requires Scope(prefix, src) <= key && Scope(prefix, other) <= key
    ensures src == other
  {
    hide Scope;
    var s, t := Scope(prefix, src), Scope(prefix, other);
    if |s| <= |t| {
      assert s == key[..|s|] && t[..|s|] == key[..|s|];
      ScopesSeparate(prefix, src, other);
    } else {
      assert t == key[..|t|] && s[..|t|] == key[..|t|];
      ScopesSeparate(prefix, other, src);
    }
  }

  // ------------------------------------------------------------- the prefix

  /** t is s without the slashes before i and from j on. */
  predicate Outer(s: string, i: nat, j: nat) {
    i <= j <= |s| && forall k :: 0 <= k < |s| && (k < i || j <= k) ==> s[k] == '/'
  }

  lemma OuterOfTail(s: string, i: nat, j: nat)
    requires s != "" && s[0] == '/' && Outer(s[1..], i, j)
    ensures Outer(s, i + 1, j + 1) && s[i + 1..j + 1] == s[1..][i..j]
  {
    assert forall k :: 0 < k < |s| ==> s[k] == s[1..][k - 1];
  }

  lemma OuterOfFront(s: string, i: nat, j: nat)
    requires s != "" && s[|s| - 1] == '/' && Outer(s[..|s| - 1], i, j)
    ensures Outer(s, i, j) && s[i..j] == s[..|s| - 1][i..j]
  {
    assert forall k :: 0 <= k < |s| - 1 ==> s[k] == s[..|s| - 1][k];
  }

  /** The prefix of a destination is its path without the outer slashes. */
  lemma {:induction false} TrimmedPrefix(s: string) returns (i: nat, j: nat)
    ensures Outer(s, i, j) && TrimSlashes(s) == s[i..j]
    ensures TrimSlashes(s) != "" ==> TrimSlashes(s)[0] != '/' && TrimSlashes(s)[|TrimSlashes(s)| - 1] != '/'
  {
    hide Outer;
    if s == "" || (s[0] != '/' && s[|s| - 1] != '/') {
      i, j := 0, |s|;
      WholeIsOuter(s);
    } else if s[0] == '/' {
      i, j := TrimmedPrefix(s[1..]);
      OuterOfTail(s, i, j);
      i, j := i + 1, j + 1;
    } else {
      i, j := TrimmedPrefix(s[..|s| - 1]);
      OuterOfFront(s, i, j);
    }
  }

  lemma WholeIsOuter(s: string)
    ensures Outer(s, 0, |s|) && s[0..|s|] == s
  {
  }

  /** So no key under a destination starts with a slash. */
  lemma KeysAreRelative(path: string, src: Source, key: string)
    requires Safe(src.cluster) && Scope(TrimSlashes(path), src) <= key
    ensures !Rooted(key)
  {
    hide Sanitized, EngineName, Scope, TrimSlashes, Slashed, Reduced;
    var prefix := TrimSlashes(path);
    var i, j := TrimmedPrefix(path);
    ScopeShape(prefix, src);
    EngineIsSafe(src.engine);
    var e := EngineName(src.engine);
    assert e[0] in e;
    ReducedIsNormal(prefix);
    NormalIsRelative(Reduced(prefix));
    var scope := Scope(prefix, src);
    assert scope[0] == key[0];
    assert Root(prefix) != "" ==> scope[0] == Root(prefix)[0];
    assert Root(prefix) == "" ==> scope[0] == e[0];
  }
}
