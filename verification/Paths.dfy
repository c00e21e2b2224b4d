/** Slash-separated paths as Go's package path joins, cleans and splits them. */
module Paths {

  /** The pieces between slashes, empty ones included. */
  function Parts(s: string): (parts: seq<string>)
    ensures parts != []
  {
    if s == "" then [""]
    else
      var parts, last := Parts(s[..|s| - 1]), s[|s| - 1];
      if last == '/' then parts + [""]
      else parts[..|parts| - 1] + [parts[|parts| - 1] + [last]]
  }

  /** One piece on top of those already cleaned: empty and dot pieces vanish, a double dot
      takes the piece before it away, or nothing at the root. */
  function Push(rooted: bool, stack: seq<string>, part: string): seq<string> {
    if part == "" || part == "." then stack
    else if part != ".." then stack + [part]
    else if stack != [] && stack[|stack| - 1] != ".." then stack[..|stack| - 1]
    else if rooted then stack
    else stack + [part]
  }

  function Reduce(rooted: bool, parts: seq<string>): seq<string> {
    if parts == [] then [] else Push(rooted, Reduce(rooted, parts[..|parts| - 1]), parts[|parts| - 1])
  }

  predicate Rooted(s: string) {
    s != "" && s[0] == '/'
  }

  /** The pieces that remain of a path. */
  function Reduced(s: string): seq<string> {
    Reduce(Rooted(s), Parts(s))
  }

  function Slashed(parts: seq<string>): string {
    if parts == [] then "" else Slashed(parts[..|parts| - 1]) + parts[|parts| - 1] + "/"
  }

  /** The pieces with slashes in between. */
  function Render(rooted: bool, parts: seq<string>): string {
    var text := (if rooted then "/" else "") + Slashed(parts);
    if text == "" then "." else if parts == [] then text else text[..|text| - 1]
  }

  function Clean(s: string): string {
    Render(Rooted(s), Reduced(s))
  }

  /** The elements with slashes in between; leading empty elements are skipped. */
  function Concat(elems: seq<string>): string {
    if elems == [] then ""
    else
      var front, last := Concat(elems[..|elems| - 1]), elems[|elems| - 1];
      if front == "" then last else front + "/" + last
  }

  function Join(elems: seq<string>): string {
    if Concat(elems) == "" then "" else Clean(Concat(elems))
  }

  /** Everything up to and including the last slash. */
  function DirPart(s: string): string {
    if s == "" || s[|s| - 1] == '/' then s else DirPart(s[..|s| - 1])
  }

  function Dir(s: string): string {
    Clean(DirPart(s))
  }

  /** A piece that survives cleaning. */
  predicate Safe(s: string) {
    s != "" && s != "." && s != ".." && '/' !in s
  }

  // ----------------------------------------------------------------- parts

  lemma {:induction false} PartsOfChild(a: string, b: string)
    requires '/' !in b
    ensures Parts(a + "/" + b) == Parts(a) + [b]
  {
    if b == "" {
      assert (a + "/" + b)[..|a|] == a;
    } else {
      var front, last := b[..|b| - 1], b[|b| - 1];
      assert (a + "/" + b)[..|a| + |b|] == a + "/" + front;
      assert last in b;
      PartsOfChild(a, front);
      assert front + [last] == b;
    }
  }

  lemma {:induction false} PartsOfSegment(b: string)
    requires '/' !in b
    ensures Parts(b) == [b]
  {
    if b == "" {
    } else {
      var front, last := b[..|b| - 1], b[|b| - 1];
      assert last in b;
      PartsOfSegment(front);
      assert front + [last] == b;
    }
  }

  lemma {:induction false} DirOfChild(a: string, b: string)
    requires '/' !in b
    ensures DirPart(a + "/" + b) == a + "/"
  {
    if b == "" {
      assert a + "/" + b == a + "/";
    } else {
      assert b[|b| - 1] in b;
      assert (a + "/" + b)[..|a| + |b|] == a + "/" + b[..|b| - 1];
      DirOfChild(a, b[..|b| - 1]);
    }
  }

  lemma {:induction false} DirOfSegment(b: string)
    requires '/' !in b
    ensures DirPart(b) == ""
  {
    if b == "" {
    } else {
      assert b[|b| - 1] in b;
      DirOfSegment(b[..|b| - 1]);
    }
  }

  // ------------------------------------------------------ cleaning is stable

  /** Pieces that cleaning leaves alone: double dots only at the front of a relative path. */
  predicate Normal(rooted: bool, parts: seq<string>) {
    && (forall i :: 0 <= i < |parts| ==> parts[i] != "" && parts[i] != "." && '/' !in parts[i])
    && (forall i :: 0 <= i < |parts| && parts[i] == ".." ==>
          !rooted && forall j :: 0 <= j < i ==> parts[j] == "..")
  }

  lemma {:induction false} PartsHaveNoSlash(s: string)
    ensures forall p :: p in Parts(s) ==> '/' !in p
  {
    if s == "" {
    } else {
      PartsHaveNoSlash(s[..|s| - 1]);
    }
  }

  lemma {:induction false} ReduceIsNormal(rooted: bool, parts: seq<string>)
    requires forall p :: p in parts ==> '/' !in p
    ensures Normal(rooted, Reduce(rooted, parts))
  {
    if parts == [] {
    } else {
      ReduceIsNormal(rooted, parts[..|parts| - 1]);
      PushIsNormal(rooted, Reduce(rooted, parts[..|parts| - 1]), parts[|parts| - 1]);
    }
  }

  lemma PushIsNormal(rooted: bool, stack: seq<string>, part: string)
    requires Normal(rooted, stack) && '/' !in part
    ensures Normal(rooted, Push(rooted, stack, part))
  {
    if part == ".." && !rooted && (stack == [] || stack[|stack| - 1] == "..") {
      assert forall j :: 0 <= j < |stack| ==> stack[j] == "..";
    }
  }

  lemma {:induction false} ReduceNormal(rooted: bool, parts: seq<string>)
    requires Normal(rooted, parts)
    ensures Reduce(rooted, parts) == parts
  {
    if parts == [] {
    } else {
      ReduceNormal(rooted, parts[..|parts| - 1]);
      assert parts[..|parts| - 1] + [parts[|parts| - 1]] == parts;
    }
  }

  /** A leading empty piece changes nothing. */
  lemma {:induction false} ReduceLeadingEmpty(rooted: bool, parts: seq<string>)
    ensures Reduce(rooted, [""] + parts) == Reduce(rooted, parts)
  {
    if parts == [] {
      assert [""] + parts == [""];
    } else {
      assert ([""] + parts)[..|parts|] == [""] + parts[..|parts| - 1];
      ReduceLeadingEmpty(rooted, parts[..|parts| - 1]);
    }
  }

  lemma {:induction false} PartsOfSlashed(parts: seq<string>)
    requires forall i :: 0 <= i < |parts| ==> '/' !in parts[i]
    ensures Parts(Slashed(parts)) == parts + [""]
  {
    hide Parts;
    if parts == [] {
      PartsOfEmpty();
    } else {
      var n := |parts| - 1;
      var front, last := parts[..n], parts[n];
      PartsOfSlashed(front);
      SlashedEnd(front);
      PartsAfterSlash(Slashed(front), last);
      assert (front + [""])[..n] == front;
      PartsOfChild(Slashed(front) + last, "");
      assert (Slashed(front) + last) + "/" + "" == Slashed(parts);
      assert front + [last] == parts;
    }
  }

  /** Text after a trailing slash replaces the last, empty piece. */
  lemma {:induction false} PartsAfterSlash(a: string, b: string)
    requires '/' !in b && (a == "" || a[|a| - 1] == '/')
    ensures Parts(a + b) == Parts(a)[..|Parts(a)| - 1] + [b]
  {
    if a == "" {
      assert a + b == b;
      PartsOfSegment(b);
    } else {
      var front := a[..|a| - 1];
      assert a + b == front + "/" + b;
      PartsOfChild(front, b);
    }
  }

  lemma SlashedEnd(parts: seq<string>)
    ensures parts != [] ==> Slashed(parts) != "" && Slashed(parts)[|Slashed(parts)| - 1] == '/'
    ensures parts == [] ==> Slashed(parts) == ""
  {
  }

  /** What a path was cleaned to reads back as the same pieces. */
  lemma ReducedOfRender(rooted: bool, parts: seq<string>)
    requires Normal(rooted, parts)
    ensures var s := (if rooted then "/" else "") + Slashed(parts);
            s != "" ==> Rooted(s) == rooted && Reduced(s) == parts
  {
    var s := (if rooted then "/" else "") + Slashed(parts);
    PartsOfSlashed(parts);
    ReduceNormal(rooted, parts);
    assert (parts + [""])[..|parts|] == parts;
    if rooted {
      PartsOfRooted(Slashed(parts));
      ReduceLeadingEmpty(true, parts + [""]);
    } else {
      assert s == Slashed(parts);
      NormalIsRelative(parts);
    }
  }

  /** One step of splitting. */
  function AddChar(parts: seq<string>, c: char): seq<string>
    requires parts != []
  {
    if c == '/' then parts + [""] else parts[..|parts| - 1] + [parts[|parts| - 1] + [c]]
  }

  lemma PartsStep(s: string, c: char)
    ensures Parts(s + [c]) == AddChar(Parts(s), c)
  {
    assert (s + [c])[..|s|] == s;
  }

  lemma AddCharLeading(parts: seq<string>, c: char)
    requires parts != []
    ensures AddChar([""] + parts, c) == [""] + AddChar(parts, c)
  {
    var n := |parts| - 1;
    assert ([""] + parts)[..n + 1] == [""] + parts[..n];
  }

  lemma PartsOfEmpty()
    ensures Parts("") == [""]
    ensures AddChar([""], '/') == [""] + [""]
  {
  }

  lemma {:induction false} PartsOfRooted(s: string)
    ensures Parts("/" + s) == [""] + Parts(s)
  {
    hide Parts, AddChar;
    PartsOfEmpty();
    if s == "" {
      PartsStep("", '/');
      assert "" + ['/'] == "/" + s;
    } else {
      var front, last := s[..|s| - 1], s[|s| - 1];
      PartsOfRooted(front);
      PartsStep("/" + front, last);
      PartsStep(front, last);
      AddCharLeading(Parts(front), last);
      assert ("/" + front) + [last] == "/" + s;
      assert front + [last] == s;
    }
  }

  lemma {:induction false} NormalIsRelative(parts: seq<string>)
    requires forall i :: 0 <= i < |parts| ==> parts[i] != "" && '/' !in parts[i]
    ensures !Rooted(Slashed(parts))
  {
    if parts == [] {
    } else {
      var n := |parts| - 1;
      NormalIsRelative(parts[..n]);
      SlashedEnd(parts[..n]);
      if n == 0 {
        assert Slashed(parts[..n]) == "";
        assert Slashed(parts)[0] == parts[0][0];
        assert parts[0][0] in parts[0];
      }
    }
  }

  // ------------------------------------------------------------ main results

  /** Cleaning adds a safe piece to whatever the path before it was cleaned to. */
  lemma ReducedOfChild(a: string, b: string)
    requires a != "" && Safe(b)
    ensures Rooted(a + "/" + b) == Rooted(a) && Reduced(a + "/" + b) == Reduced(a) + [b]
  {
    PartsOfChild(a, b);
    assert (Parts(a) + [b])[..|Parts(a)|] == Parts(a);
  }

  lemma ReducedIsNormal(s: string)
    ensures Normal(Rooted(s), Reduced(s))
  {
    PartsHaveNoSlash(s);
    ReduceIsNormal(Rooted(s), Parts(s));
  }

  /** What every cleaned child of a path begins with. */
  function Base(s: string): string {
    (if Rooted(s) then "/" else "") + Slashed(Reduced(s))
  }

  lemma CleanOfChild(a: string, b: string)
    requires a != "" && Safe(b)
    ensures Clean(a + "/" + b) == Base(a) + b && Base(a + "/" + b) == Base(a) + b + "/"
  {
    hide Reduced;
    ReducedOfChild(a, b);
    var parts := Reduced(a);
    assert (parts + [b])[..|parts|] == parts;
    assert Slashed(parts + [b]) == Slashed(parts) + b + "/";
    var root := if Rooted(a) then "/" else "";
    assert root + (Slashed(parts) + b + "/") == (root + Slashed(parts) + b) + "/";
  }

  lemma BaseEnd(a: string)
    ensures Base(a) == "" || Base(a)[|Base(a)| - 1] == '/'
    ensures Clean(Base(a)) == Clean(a)
  {
    SlashedEnd(Reduced(a));
    ReducedIsNormal(a);
    ReducedOfRender(Rooted(a), Reduced(a));
  }

  /** Empty pieces and dots vanish, and a double dot undoes the piece before it. */
  lemma CleanLaws(a: string, b: string)
    requires a != "" && Safe(b)
    ensures Clean(a + "/") == Clean(a) == Clean(a + "/.")
    ensures Clean(a + "/" + b + "/..") == Clean(a)
  {
    hide Reduced, Parts, Push, Render, Rooted;
    PushOneMore(a, "");
    PushOneMore(a, ".");
    PushMeans(Rooted(a), Reduced(a), b);
    ReducedOfChild(a, b);
    PushOneMore(a + "/" + b, "..");
    assert a + "/" == a + "/" + "";
    assert a + "/." == a + "/" + ".";
    assert a + "/" + b + "/.." == a + "/" + b + "/" + "..";
  }

  lemma PushMeans(rooted: bool, stack: seq<string>, b: string)
    requires Safe(b)
    ensures Push(rooted, stack, "") == stack == Push(rooted, stack, ".")
    ensures Push(rooted, stack + [b], "..") == stack
  {
    assert (stack + [b])[..|stack|] == stack;
  }

  lemma PushOneMore(a: string, part: string)
    requires a != "" && '/' !in part
    ensures Rooted(a + "/" + part) == Rooted(a)
    ensures Reduced(a + "/" + part) == Push(Rooted(a), Reduced(a), part)
  {
    hide Push;
    PartsOfChild(a, part);
    assert (Parts(a) + [part])[..|Parts(a)|] == Parts(a);
  }

  /** A double dot stays at the front of a relative path and goes at the root. */
  lemma CleanDots()
    ensures Clean("..") == ".." && Clean("/..") == "/" && Clean("") == "."
  {
    hide Parts;
    PartsOfSegment("..");
    PartsOfRooted("..");
    PartsOfSegment("");
    ReduceOne(false, "..");
    ReduceOne(true, "..");
    ReduceLeadingEmpty(true, [".."]);
    ReduceOne(false, "");
    assert "/.." == "/" + "..";
    assert Slashed([".."]) == ".." + "/" by { assert [".."][..0] == []; }
    assert (".." + "/")[..2] == "..";
  }

  lemma ReduceOne(rooted: bool, part: string)
    ensures Reduce(rooted, [part]) == Push(rooted, [], part)
  {
    assert [part][..0] == [];
  }

  /** The directory of a cleaned child is the cleaned path. */
  lemma DirOfCleanChild(a: string, b: string)
    requires a != "" && Safe(b)
    ensures Dir(Clean(a + "/" + b)) == Clean(a)
  {
    hide Clean, Base, DirPart;
    CleanOfChild(a, b);
    BaseEnd(a);
    var base := Base(a);
    if base == "" {
      assert base + b == b;
      DirOfSegment(b);
    } else {
      var front := base[..|base| - 1];
      assert base + b == front + "/" + b;
      DirOfChild(front, b);
      assert front + "/" == base;
    }
  }
}
