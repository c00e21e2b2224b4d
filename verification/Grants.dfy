/** The generated MySQL and PostgreSQL grants, read back the way the servers read them. */
module Grants {
  import opened Wrappers

  // ------------------------------------------------------------- quoting

  /** strings.ReplaceAll of one byte by two of it. */
  function Doubled(q: char, s: string): string {
    if s == "" then "" else (if s[0] == q then [q, q] else [s[0]]) + Doubled(q, s[1..])
  }

  /** An identifier in its quotes: q is a double quote for PostgreSQL, a backtick for MySQL. */
  function Quoted(q: char, s: string): string {
    [q] + Doubled(q, s) + [q]
  }

  /** Reading a quoted identifier, its opening quote already read: the name and what follows. */
  function ReadBody(q: char, s: string): Option<(string, string)> {
    if s == "" then None
    else if s[0] != q then
      match ReadBody(q, s[1..])
      case None => None
      case Some((name, rest)) => Some(([s[0]] + name, rest))
    else if |s| > 1 && s[1] == q then
      match ReadBody(q, s[2..])
      case None => None
      case Some((name, rest)) => Some(([q] + name, rest))
    else Some(("", s[1..]))
  }

  function ReadQuoted(q: char, s: string): Option<(string, string)> {
    if s != "" && s[0] == q then ReadBody(q, s[1..]) else None
  }

  predicate StartsWith(s: string, c: char) {
    s != "" && s[0] == c
  }

  lemma {:induction false} BodyReadsBack(q: char, s: string, rest: string)
    requires !StartsWith(rest, q)
    ensures ReadBody(q, Doubled(q, s) + [q] + rest) == Some((s, rest))
  {
    var text := Doubled(q, s) + [q] + rest;
    if s == "" {
      assert text == [q] + rest;
    } else {
      BodyReadsBack(q, s[1..], rest);
      var tail := Doubled(q, s[1..]) + [q] + rest;
      if s[0] == q {
        assert text[2..] == tail;
      } else {
        assert text[1..] == tail;
      }
      assert [s[0]] + s[1..] == s;
    }
  }

  /** Whatever the name, its quoted form reads back to it with nothing left over. */
  lemma QuotedReadsBack(q: char, s: string, rest: string)
    requires !StartsWith(rest, q)
    ensures ReadQuoted(q, Quoted(q, s) + rest) == Some((s, rest))
  {
    BodyReadsBack(q, s, rest);
    assert (Quoted(q, s) + rest)[1..] == Doubled(q, s) + [q] + rest;
  }

  // -------------------------------------------------------- string literals

  /** The text of a MySQL string literal, quotes not included. */
  function MyString(s: string): string {
    Doubled('\'', Doubled('\\', s))
  }

  /** What a backslash and this character stand for in a literal, in the default sql_mode. */
  function Unescaped(c: char): string {
    match c
    case '0' => [0 as char]
    case 'b' => [8 as char]
    case 'n' => "\n"
    case 'r' => "\r"
    case 't' => "\t"
    case 'Z' => [26 as char]
    case '%' => "\\%"
    case '_' => "\\_"
    case _ => [c]
  }

  /** Reading a literal, its opening quote already read. */
  function ReadLiteral(escapes: bool, s: string): Option<(string, string)> {
    if s == "" then None
    else if escapes && s[0] == '\\' then
      if |s| == 1 then None
      else match ReadLiteral(escapes, s[2..])
        case None => None
        case Some((text, rest)) => Some((Unescaped(s[1]) + text, rest))
    else if s[0] != '\'' then
      match ReadLiteral(escapes, s[1..])
      case None => None
      case Some((text, rest)) => Some(([s[0]] + text, rest))
    else if |s| > 1 && s[1] == '\'' then
      match ReadLiteral(escapes, s[2..])
      case None => None
      case Some((text, rest)) => Some((['\''] + text, rest))
    else Some(("", s[1..]))
  }

  function ReadString(escapes: bool, s: string): Option<(string, string)> {
    if StartsWith(s, '\'') then ReadLiteral(escapes, s[1..]) else None
  }

  /** The text read before what was read already. */
  function Before(text: string, read: Option<(string, string)>): Option<(string, string)> {
    match read
    case None => None
    case Some((more, rest)) => Some((text + more, rest))
  }

  lemma PlainChar(escapes: bool, c: char, tail: string)
    requires c != '\'' && (escapes ==> c != '\\')
    ensures ReadLiteral(escapes, [c] + tail) == Before([c], ReadLiteral(escapes, tail))
  {
    assert ([c] + tail)[1..] == tail;
  }

  lemma CharPair(escapes: bool, c: char, tail: string)
    requires c == '\'' || (escapes && c == '\\')
    ensures ReadLiteral(escapes, [c, c] + tail) == Before([c], ReadLiteral(escapes, tail))
  {
    assert ([c, c] + tail)[2..] == tail;
  }

  lemma LiteralEnd(escapes: bool, rest: string)
    requires !StartsWith(rest, '\'')
    ensures ReadLiteral(escapes, MyString("") + "'" + rest) == Some(("", rest))
  {
    assert MyString("") + "'" + rest == "'" + rest && ("'" + rest)[1..] == rest;
  }

  lemma {:induction false} LiteralReadsBack(s: string, rest: string)
    requires !StartsWith(rest, '\'')
    ensures ReadLiteral(true, MyString(s) + "'" + rest) == Some((s, rest))
  {
    hide ReadLiteral, MyString;
    if s == "" {
      LiteralEnd(true, rest);
    } else {
      var tail := MyString(s[1..]) + "'" + rest;
      LiteralReadsBack(s[1..], rest);
      MyStringStep(s);
      if s[0] == '\\' || s[0] == '\'' {
        CharPair(true, s[0], tail);
        assert MyString(s) + "'" + rest == [s[0], s[0]] + tail;
      } else {
        PlainChar(true, s[0], tail);
        assert MyString(s) + "'" + rest == [s[0]] + tail;
      }
      assert [s[0]] + s[1..] == s;
    }
  }

  lemma MyStringStep(s: string)
    requires s != ""
    ensures MyString(s) == (if s[0] == '\\' || s[0] == '\'' then [s[0], s[0]] else [s[0]]) + MyString(s[1..])
  {
    var inner := Doubled('\\', s);
    var rest := Doubled('\\', s[1..]);
    if s[0] == '\\' {
      var one := ['\\'] + rest;
      assert inner == ['\\'] + one && inner[1..] == one && one[1..] == rest;
      assert Doubled('\'', one) == ['\\'] + Doubled('\'', rest);
    } else {
      assert inner[1..] == rest;
    }
  }

  /** Whatever the user name, its literal reads back to it in the default sql_mode. */
  lemma StringReadsBack(s: string, rest: string)
    requires !StartsWith(rest, '\'')
    ensures ReadString(true, "'" + MyString(s) + "'" + rest) == Some((s, rest))
  {
    LiteralReadsBack(s, rest);
    assert ("'" + MyString(s) + "'" + rest)[1..] == MyString(s) + "'" + rest;
  }

  /** Without backslash escapes the server reads every backslash twice. */
  lemma {:induction false} LiteralWithoutEscapes(s: string, rest: string)
    requires !StartsWith(rest, '\'')
    ensures ReadLiteral(false, MyString(s) + "'" + rest) == Some((Doubled('\\', s), rest))
  {
    hide ReadLiteral, MyString;
    if s == "" {
      LiteralEnd(false, rest);
    } else {
      var tail := MyString(s[1..]) + "'" + rest;
      LiteralWithoutEscapes(s[1..], rest);
      MyStringStep(s);
      if s[0] == '\\' {
        PlainChar(false, s[0], [s[0]] + tail);
        PlainChar(false, s[0], tail);
        assert MyString(s) + "'" + rest == [s[0]] + ([s[0]] + tail);
        assert [s[0]] + ([s[0]] + Doubled('\\', s[1..])) == Doubled('\\', s);
      } else if s[0] == '\'' {
        CharPair(false, s[0], tail);
        assert MyString(s) + "'" + rest == [s[0], s[0]] + tail;
      } else {
        PlainChar(false, s[0], tail);
        assert MyString(s) + "'" + rest == [s[0]] + tail;
      }
    }
  }

  lemma {:induction false} DoubledUnchanged(q: char, s: string)
    ensures |Doubled(q, s)| >= |s|
    ensures Doubled(q, s) == s <==> q !in s
  {
    if s == "" {
    } else {
      DoubledUnchanged(q, s[1..]);
      assert s == [s[0]] + s[1..];
      if s[0] == q {
        assert |Doubled(q, s)| > |s|;
      } else {
        assert Doubled(q, s)[1..] == Doubled(q, s[1..]);
      }
    }
  }

  /** With NO_BACKSLASH_ESCAPES the literal is right exactly for names without a backslash. */
  lemma StringWithoutEscapes(s: string, rest: string)
    requires !StartsWith(rest, '\'')
    ensures ReadString(false, "'" + MyString(s) + "'" + rest) == Some((s, rest)) <==> '\\' !in s
  {
    LiteralWithoutEscapes(s, rest);
    DoubledUnchanged('\\', s);
    assert ("'" + MyString(s) + "'" + rest)[1..] == MyString(s) + "'" + rest;
  }

  // --------------------------------------------------------- wildcard names

  /** LIKE as a database-level GRANT applies it: a percent sign stands for any text, an
      underscore for one character, and a backslash takes the meaning off the next one. */
  predicate Like(p: string, t: string)
    decreases |p| + |t|
  {
    if p == "" then t == ""
    else if p[0] == '%' then Like(p[1..], t) || (t != "" && Like(p, t[1..]))
    else if p[0] == '_' then t != "" && Like(p[1..], t[1..])
    else if p[0] == '\\' && |p| > 1 then t != "" && t[0] == p[1] && Like(p[2..], t[1..])
    else t != "" && t[0] == p[0] && Like(p[1..], t[1..])
  }

  predicate Special(c: char) {
    c == '_' || c == '%' || c == '\\'
  }

  predicate NeedsEscape(s: string) {
    exists i :: 0 <= i < |s| && Special(s[i])
  }

  /** The one-pass replacer. */
  function EscapeLike(s: string): string {
    if s == "" then "" else (if Special(s[0]) then ['\\', s[0]] else [s[0]]) + EscapeLike(s[1..])
  }

  function MyGrantDB(s: string): string {
    Quoted('`', EscapeLike(s))
  }

  /** Where wildcards are active the escaped name is the one database. */
  lemma {:induction false} EscapedIsExact(s: string, t: string)
    ensures Like(EscapeLike(s), t) <==> t == s
  {
    if s == "" {
    } else {
      var p := EscapeLike(s);
      if Special(s[0]) {
        assert p[2..] == EscapeLike(s[1..]);
      } else {
        assert p[1..] == EscapeLike(s[1..]);
      }
      if t != "" {
        EscapedIsExact(s[1..], t[1..]);
        assert t == [t[0]] + t[1..] && s == [s[0]] + s[1..];
      }
    }
  }

  /** The escaped form is the plain one exactly for names that need no escape. */
  lemma {:induction false} EscapeUnchanged(s: string)
    ensures |EscapeLike(s)| >= |s|
    ensures EscapeLike(s) == s <==> !NeedsEscape(s)
  {
    if s == "" {
    } else {
      EscapeUnchanged(s[1..]);
      assert s == [s[0]] + s[1..];
      if Special(s[0]) {
        assert |EscapeLike(s)| > |s|;
      } else {
        assert EscapeLike(s)[1..] == EscapeLike(s[1..]);
        assert forall i :: 0 < i < |s| ==> s[i] == s[1..][i - 1];
        assert forall i :: 0 <= i < |s| - 1 ==> s[1..][i] == s[i + 1];
      }
    }
  }

  /** The database a name in a GRANT covers: with partial_revokes names are literal. */
  predicate Covers(partialRevokes: bool, name: string, db: string) {
    if partialRevokes then name == db else Like(name, db)
  }

  /** A plain name covers itself only, and an escaped one does so only with wildcards
      active, in both server modes. */
  lemma NamesAreExact(partialRevokes: bool, s: string, t: string)
    ensures !NeedsEscape(s) ==> (Covers(partialRevokes, s, t) <==> t == s)
    ensures Covers(partialRevokes, if partialRevokes then s else EscapeLike(s), t) <==> t == s
    ensures Covers(true, EscapeLike(s), s) <==> !NeedsEscape(s)
  {
    EscapeUnchanged(s);
    EscapedIsExact(s, t);
  }

  // ------------------------------------------------------------ the scripts

  datatype GrantError = EmptyName | ControlCharacter | NoDatabase

  predicate HasControl(s: string) {
    exists i :: 0 <= i < |s| && (s[i] < 0x20 as char || s[i] == 0x7f as char)
  }

  function NameError(s: string): Option<GrantError> {
    if s == "" then Some(EmptyName) else if HasControl(s) then Some(ControlCharacter) else None
  }

  /** The first complaint about a user and databases. */
  function RequestError(user: string, dbs: seq<string>): Option<GrantError> {
    if NameError(user).Some? then NameError(user)
    else if dbs == [] then Some(NoDatabase)
    else FirstError(dbs)
  }

  function FirstError(dbs: seq<string>): Option<GrantError> {
    if dbs == [] then None
    else if FirstError(dbs[..|dbs| - 1]).Some? then FirstError(dbs[..|dbs| - 1])
    else NameError(dbs[|dbs| - 1])
  }

  const GRANT_ON := "GRANT SELECT, SHOW VIEW, EVENT, TRIGGER ON "
  const IF_OFF := "-- if 0 (default): "
  const IF_ON := "-- if 1:           "

  function GrantLine(name: string, user: string): string {
    GRANT_ON + name + ".* TO '" + MyString(user) + "'@'%';"
  }

  /** The grants that run as they stand, for the names that need no escape. */
  function PlainGrants(user: string, dbs: seq<string>): seq<string> {
    if dbs == [] then []
    else
      var front, d := PlainGrants(user, dbs[..|dbs| - 1]), dbs[|dbs| - 1];
      if NeedsEscape(d) then front else front + [GrantLine(MyGrantDB(d), user)]
  }

  /** For every other name one line for each server mode, both commented out. */
  function ChoiceGrants(user: string, dbs: seq<string>): seq<string> {
    if dbs == [] then []
    else
      var front, d := ChoiceGrants(user, dbs[..|dbs| - 1]), dbs[|dbs| - 1];
      if NeedsEscape(d) then
        front + [IF_OFF + GrantLine(MyGrantDB(d), user), IF_ON + GrantLine(Quoted('`', d), user)]
      else front
  }

  function CreateUser(user: string): string {
    "CREATE USER '" + MyString(user) + "'@'%' IDENTIFIED BY RANDOM PASSWORD;"
  }

  function GrantRoutines(user: string): string {
    "GRANT SHOW_ROUTINE ON *.* TO '" + MyString(user) + "'@'%';"
  }

  const OLDER := "-- (on older servers use instead: "
  const ON_PROC := "GRANT SELECT ON mysql.proc TO '"

  function OlderServers(user: string): string {
    OLDER + ON_PROC + MyString(user) + "'@'%';)"
  }

  const FLUSH := "FLUSH PRIVILEGES;"

  /** The statements of the script, and its commented choices. */
  function MySQLScript(user: string, dbs: seq<string>): seq<string> {
    [CreateUser(user)] + PlainGrants(user, dbs) + ChoiceGrants(user, dbs)
        + [GrantRoutines(user), OlderServers(user), FLUSH]
  }

  /** Names the first unfit name, or the absence of databases. */
  method CheckRequest(user: string, dbs: seq<string>) returns (bad: Option<GrantError>)
    ensures bad == RequestError(user, dbs)
  {
    hide NameError;
    bad := NameError(user);
    if bad.Some? {
      return;
    }
    if dbs == [] {
      return Some(NoDatabase);
    }
    assert dbs[..|dbs|] == dbs;
    for i := 0 to |dbs|
      invariant FirstError(dbs[..i]).None?
    {
      assert dbs[..i + 1][..i] == dbs[..i];
      bad := NameError(dbs[i]);
      if bad.Some? {
        FirstErrorStays(dbs, i + 1);
        return;
      }
    }
    return None;
  }

  /** The script for names fit for one. */
  method MySQLLines(user: string, dbs: seq<string>) returns (lines: seq<string>)
    ensures lines == MySQLScript(user, dbs)
  {
    hide GrantLine, MyString, MyGrantDB, NeedsEscape, CreateUser, GrantRoutines, OlderServers, Quoted, MySQLScript,
      EscapeLike;
    var grants, escaped := [], [];
    for i := 0 to |dbs|
      invariant grants == PlainGrants(user, dbs[..i])
      invariant ChoiceGrants(user, escaped) == ChoiceGrants(user, dbs[..i])
      invariant forall d :: d in escaped ==> NeedsEscape(d)
    {
      assert dbs[..i + 1][..i] == dbs[..i];
      if NeedsEscape(dbs[i]) {
        assert (escaped + [dbs[i]])[..|escaped|] == escaped;
        escaped := escaped + [dbs[i]];
      } else {
        grants := grants + [GrantLine(MyGrantDB(dbs[i]), user)];
      }
    }
    assert dbs[..|dbs|] == dbs;
    var choices: seq<string> := [];
    assert escaped[..|escaped|] == escaped;
    for i := 0 to |escaped|
      invariant choices == ChoiceGrants(user, escaped[..i])
    {
      assert escaped[..i + 1][..i] == escaped[..i];
      var d := escaped[i];
      choices := choices + [IF_OFF + GrantLine(MyGrantDB(d), user), IF_ON + GrantLine(Quoted('`', d), user)];
    }
    ScriptIs(user, dbs, grants, choices);
    lines := [CreateUser(user)] + grants + choices + [GrantRoutines(user), OlderServers(user), FLUSH];
  }

  /** Reading rights, and those alone, on the databases given, if every name is fit for a
      script: neither empty nor with a control character. */
  method MySQLGrants(user: string, dbs: seq<string>) returns (r: Result<seq<string>, GrantError>)
    ensures match RequestError(user, dbs)
            case Some(e) => r == Failure(e)
            case None => r == Success(MySQLScript(user, dbs))
    ensures r.Success? <==>
              && user != "" && (forall i :: 0 <= i < |user| ==> user[i] >= 32 as char && user[i] != 127 as char)
              && dbs != []
              && forall d :: d in dbs ==>
                   d != "" && forall i :: 0 <= i < |d| ==> d[i] >= 32 as char && d[i] != 127 as char
  {
    hide GrantLine, MyString, MyGrantDB, NeedsEscape, NameError, CreateUser, GrantRoutines, OlderServers, Quoted,
      MySQLScript, EscapeLike;
    RequestMeans(user, dbs);
    var bad := CheckRequest(user, dbs);
    if bad.Some? {
      return Failure(bad.value);
    }
    var lines := MySQLLines(user, dbs);
    return Success(lines);
  }

  lemma NameMeans(s: string)
    ensures NameError(s).None? <==> s != "" && forall i :: 0 <= i < |s| ==> s[i] >= 32 as char && s[i] != 127 as char
  {
  }

  lemma RequestMeans(user: string, dbs: seq<string>)
    ensures RequestError(user, dbs).None? <==>
              && user != "" && (forall i :: 0 <= i < |user| ==> user[i] >= 32 as char && user[i] != 127 as char)
              && dbs != []
              && forall d :: d in dbs ==>
                   d != "" && forall i :: 0 <= i < |d| ==> d[i] >= 32 as char && d[i] != 127 as char
  {
    hide NameError;
    NameMeans(user);
    NoNameErrors(dbs);
    forall d | d in dbs
      ensures NameError(d).None?
         <==> d != "" && forall i :: 0 <= i < |d| ==> d[i] >= 32 as char && d[i] != 127 as char
    {
      NameMeans(d);
    }
  }

  lemma {:induction false} NoNameErrors(dbs: seq<string>)
    ensures FirstError(dbs).None? <==> forall d :: d in dbs ==> NameError(d).None?
  {
    hide NameError;
    if dbs == [] {
    } else {
      var front, last := dbs[..|dbs| - 1], dbs[|dbs| - 1];
      NoNameErrors(front);
      assert dbs == front + [last];
    }
  }

  lemma EscapeMeans(d: string)
    ensures NeedsEscape(d) <==> '_' in d || '%' in d || '\\' in d
  {
    if '_' in d || '%' in d || '\\' in d {
      var i :| 0 <= i < |d| && (d[i] == '_' || d[i] == '%' || d[i] == '\\');
      assert Special(d[i]);
    }
  }

  lemma {:induction false} PlainMeans(user: string, dbs: seq<string>)
    ensures forall line :: line in PlainGrants(user, dbs) <==>
              exists d :: d in dbs && !NeedsEscape(d) && line == GrantLine(Quoted('`', d), user)
  {
    hide NeedsEscape, GrantLine, Quoted, MyGrantDB;
    if dbs == [] {
    } else {
      var front, last := dbs[..|dbs| - 1], dbs[|dbs| - 1];
      PlainMeans(user, front);
      assert dbs == front + [last];
      EscapeUnchanged(last);
      assert MyGrantDB(last) == Quoted('`', EscapeLike(last)) by { GrantDBMeans(last); }
    }
  }

  lemma GrantDBMeans(d: string)
    ensures MyGrantDB(d) == Quoted('`', EscapeLike(d))
  {
  }

  lemma {:induction false} ChoiceMeans(user: string, dbs: seq<string>)
    ensures forall line :: line in ChoiceGrants(user, dbs) <==>
              exists d :: d in dbs && NeedsEscape(d) &&
                          (|| line == IF_OFF + GrantLine(Quoted('`', EscapeLike(d)), user)
                           || line == IF_ON + GrantLine(Quoted('`', d), user))
  {
    hide NeedsEscape, GrantLine, Quoted, MyGrantDB;
    if dbs == [] {
    } else {
      var front, last := dbs[..|dbs| - 1], dbs[|dbs| - 1];
      ChoiceMeans(user, front);
      assert dbs == front + [last];
      GrantDBMeans(last);
    }
  }

  lemma ScriptMeans(user: string, dbs: seq<string>, line: string)
    ensures line in MySQLScript(user, dbs) <==>
              || line == "CREATE USER '" + MyString(user) + "'@'%' IDENTIFIED BY RANDOM PASSWORD;"
              || (exists d :: d in dbs && '_' !in d && '%' !in d && '\\' !in d && line
                    == "GRANT SELECT, SHOW VIEW, EVENT, TRIGGER ON " + Quoted('`', d)
                       + ".* TO '" + MyString(user) + "'@'%';")
              || (exists d :: d in dbs && ('_' in d || '%' in d || '\\' in d) &&
                    (|| line == "-- if 0 (default): " + ("GRANT SELECT, SHOW VIEW, EVENT, TRIGGER ON "
                                  + Quoted('`', EscapeLike(d)) + ".* TO '" + MyString(user) + "'@'%';")
                     || line == "-- if 1:           " + ("GRANT SELECT, SHOW VIEW, EVENT, TRIGGER ON "
                                  + Quoted('`', d) + ".* TO '" + MyString(user) + "'@'%';")))
              || line == "GRANT SHOW_ROUTINE ON *.* TO '" + MyString(user) + "'@'%';"
              || line == "-- (on older servers use instead: " + "GRANT SELECT ON mysql.proc TO '" + MyString(user)
                         + "'@'%';)"
              || line == "FLUSH PRIVILEGES;"
  {
    hide NeedsEscape, Quoted, MyGrantDB, MyString, PlainGrants, ChoiceGrants, EscapeLike, MySQLScript, GrantLine,
      CreateUser, GrantRoutines, OlderServers;
    ScriptParts(user, dbs);
    UserText(user);
    PlainText(user, dbs, line);
    ChoiceText(user, dbs, line);
  }

  lemma PlainText(user: string, dbs: seq<string>, line: string)
    ensures line in PlainGrants(user, dbs) <==>
              exists d :: d in dbs && '_' !in d && '%' !in d && '\\' !in d && line
                 == "GRANT SELECT, SHOW VIEW, EVENT, TRIGGER ON " + Quoted('`', d)
                    + ".* TO '" + MyString(user) + "'@'%';"
  {
    hide NeedsEscape, Quoted, MyString, PlainGrants, GrantLine;
    PlainMeans(user, dbs);
    forall d | d in dbs
      ensures NeedsEscape(d) <==> '_' in d || '%' in d || '\\' in d
      ensures GrantLine(Quoted('`', d), user)
           == "GRANT SELECT, SHOW VIEW, EVENT, TRIGGER ON " + Quoted('`', d) + ".* TO '" + MyString(user) + "'@'%';"
    {
      EscapeMeans(d);
      LineText(Quoted('`', d), user);
    }
  }

  lemma ChoiceText(user: string, dbs: seq<string>, line: string)
    ensures line in ChoiceGrants(user, dbs) <==>
              exists d :: d in dbs && ('_' in d || '%' in d || '\\' in d) &&
                 (|| line == "-- if 0 (default): " + ("GRANT SELECT, SHOW VIEW, EVENT, TRIGGER ON "
                               + Quoted('`', EscapeLike(d)) + ".* TO '" + MyString(user) + "'@'%';")
                  || line == "-- if 1:           " + ("GRANT SELECT, SHOW VIEW, EVENT, TRIGGER ON "
                               + Quoted('`', d) + ".* TO '" + MyString(user) + "'@'%';"))
  {
    hide NeedsEscape, Quoted, MyString, ChoiceGrants, GrantLine, EscapeLike;
    ChoiceMeans(user, dbs);
    forall d | d in dbs
      ensures NeedsEscape(d) <==> '_' in d || '%' in d || '\\' in d
      ensures GrantLine(Quoted('`', d), user)
           == "GRANT SELECT, SHOW VIEW, EVENT, TRIGGER ON " + Quoted('`', d) + ".* TO '" + MyString(user) + "'@'%';"
      ensures GrantLine(Quoted('`', EscapeLike(d)), user)
           == "GRANT SELECT, SHOW VIEW, EVENT, TRIGGER ON " + Quoted('`', EscapeLike(d)) + ".* TO '" + MyString(user)
              + "'@'%';"
    {
      EscapeMeans(d);
      LineText(Quoted('`', d), user);
      LineText(Quoted('`', EscapeLike(d)), user);
    }
  }

  lemma LineText(name: string, user: string)
    ensures GrantLine(name, user)
         == "GRANT SELECT, SHOW VIEW, EVENT, TRIGGER ON " + name + ".* TO '" + MyString(user) + "'@'%';"
  {
  }

  lemma UserText(user: string)
    ensures CreateUser(user) == "CREATE USER '" + MyString(user) + "'@'%' IDENTIFIED BY RANDOM PASSWORD;"
    ensures GrantRoutines(user) == "GRANT SHOW_ROUTINE ON *.* TO '" + MyString(user) + "'@'%';"
    ensures OlderServers(user)
         == "-- (on older servers use instead: " + "GRANT SELECT ON mysql.proc TO '" + MyString(user) + "'@'%';)"
  {
  }

  lemma ScriptIs(user: string, dbs: seq<string>, grants: seq<string>, choices: seq<string>)
    requires grants == PlainGrants(user, dbs) && choices == ChoiceGrants(user, dbs)
    ensures [CreateUser(user)] + grants + choices + [GrantRoutines(user), OlderServers(user), FLUSH]
         == MySQLScript(user, dbs)
  {
    hide CreateUser, PlainGrants, ChoiceGrants, GrantRoutines, OlderServers;
  }

  /** The script has these lines and no others: reading rights on each database, one line as it
      stands or two to choose from, and on stored programs, and no further privilege. */
  lemma ScriptLines(user: string, dbs: seq<string>)
    ensures var script := MySQLScript(user, dbs);
            && |script| >= 4 && script[|script| - 1] == "FLUSH PRIVILEGES;"
            && script[0] == "CREATE USER '" + MyString(user) + "'@'%' IDENTIFIED BY RANDOM PASSWORD;"
    ensures forall line :: line in MySQLScript(user, dbs) <==>
                || line == "CREATE USER '" + MyString(user) + "'@'%' IDENTIFIED BY RANDOM PASSWORD;"
                || (exists d :: d in dbs && '_' !in d && '%' !in d && '\\' !in d && line
                      == "GRANT SELECT, SHOW VIEW, EVENT, TRIGGER ON " + Quoted('`', d)
                         + ".* TO '" + MyString(user) + "'@'%';")
                || (exists d :: d in dbs && ('_' in d || '%' in d || '\\' in d) &&
                      (|| line == "-- if 0 (default): " + ("GRANT SELECT, SHOW VIEW, EVENT, TRIGGER ON "
                                    + Quoted('`', EscapeLike(d)) + ".* TO '" + MyString(user) + "'@'%';")
                       || line == "-- if 1:           " + ("GRANT SELECT, SHOW VIEW, EVENT, TRIGGER ON "
                                    + Quoted('`', d) + ".* TO '" + MyString(user) + "'@'%';")))
                || line == "GRANT SHOW_ROUTINE ON *.* TO '" + MyString(user) + "'@'%';"
                || line == "-- (on older servers use instead: " + "GRANT SELECT ON mysql.proc TO '" + MyString(user)
                           + "'@'%';)"
                || line == "FLUSH PRIVILEGES;"
  {
    hide MySQLScript, MyString, Quoted, EscapeLike, CreateUser;
    ScriptIs(user, dbs, PlainGrants(user, dbs), ChoiceGrants(user, dbs));
    UserText(user);
    forall line
      ensures line in MySQLScript(user, dbs) <==>
                || line == "CREATE USER '" + MyString(user) + "'@'%' IDENTIFIED BY RANDOM PASSWORD;"
                || (exists d :: d in dbs && '_' !in d && '%' !in d && '\\' !in d && line
                      == "GRANT SELECT, SHOW VIEW, EVENT, TRIGGER ON " + Quoted('`', d)
                         + ".* TO '" + MyString(user) + "'@'%';")
                || (exists d :: d in dbs && ('_' in d || '%' in d || '\\' in d) &&
                      (|| line == "-- if 0 (default): " + ("GRANT SELECT, SHOW VIEW, EVENT, TRIGGER ON "
                                    + Quoted('`', EscapeLike(d)) + ".* TO '" + MyString(user) + "'@'%';")
                       || line == "-- if 1:           " + ("GRANT SELECT, SHOW VIEW, EVENT, TRIGGER ON "
                                    + Quoted('`', d) + ".* TO '" + MyString(user) + "'@'%';")))
                || line == "GRANT SHOW_ROUTINE ON *.* TO '" + MyString(user) + "'@'%';"
                || line == "-- (on older servers use instead: " + "GRANT SELECT ON mysql.proc TO '" + MyString(user)
                           + "'@'%';)"
                || line == "FLUSH PRIVILEGES;"
    {
      ScriptMeans(user, dbs, line);
    }
  }

  lemma ScriptParts(user: string, dbs: seq<string>)
    ensures forall line :: line in MySQLScript(user, dbs) <==>
              || line == CreateUser(user) || line in PlainGrants(user, dbs) || line in ChoiceGrants(user, dbs)
              || line == GrantRoutines(user) || line == OlderServers(user) || line == FLUSH
  {
    hide CreateUser, PlainGrants, ChoiceGrants, GrantRoutines, OlderServers;
    var last := [GrantRoutines(user), OlderServers(user), FLUSH];
    assert last[0] == GrantRoutines(user) && last[1] == OlderServers(user) && last[2] == FLUSH;
    assert forall line :: line in last <==> line == last[0] || line == last[1] || line == last[2];
    assert [CreateUser(user)][0] == CreateUser(user);
  }

  lemma {:induction false} FirstErrorStays(dbs: seq<string>, n: nat)
    requires n <= |dbs| && FirstError(dbs[..n]).Some?
    ensures FirstError(dbs) == FirstError(dbs[..n])
  {
    if n < |dbs| {
      assert dbs[..|dbs| - 1][..n] == dbs[..n];
      FirstErrorStays(dbs[..|dbs| - 1], n);
    } else {
      assert dbs[..n] == dbs;
    }
  }

  // ------------------------------------------------- reading the script back

  /** A database-level grant as the server reads it: the name and the user. */
  function ReadGrant(line: string): Option<(string, string)> {
    if !(GRANT_ON <= line) then None
    else match ReadQuoted('`', line[|GRANT_ON|..])
      case None => None
      case Some((name, rest)) =>
        if !(".* TO " <= rest) then None
        else match ReadString(true, rest[6..])
          case None => None
          case Some((user, end)) => if end == "@'%';" then Some((name, user)) else None
  }

  lemma GrantReadsBack(name: string, user: string)
    ensures ReadGrant(GrantLine(Quoted('`', name), user)) == Some((name, user))
  {
    hide ReadQuoted, ReadString, Quoted, MyString;
    var after := "'" + MyString(user) + "'" + "@'%';";
    var rest := ".* TO " + after;
    var line := GrantLine(Quoted('`', name), user);
    assert line == GRANT_ON + (Quoted('`', name) + rest);
    assert line[|GRANT_ON|..] == Quoted('`', name) + rest;
    QuotedReadsBack('`', name, rest);
    assert rest[6..] == after;
    StringReadsBack(user, "@'%';");
  }

  /** A line the client sends; the others are comments. */
  predicate Executable(line: string) {
    !("--" <= line)
  }

  predicate Grants(line: string, partialRevokes: bool, user: string, db: string) {
    Executable(line) && ReadGrant(line).Some? && ReadGrant(line).value.1 == user
    && Covers(partialRevokes, ReadGrant(line).value.0, db)
  }

  /** Some statement of the script grants access to the database. */
  predicate Granted(lines: seq<string>, partialRevokes: bool, user: string, db: string) {
    exists i :: 0 <= i < |lines| && Grants(lines[i], partialRevokes, user, db)
  }

  /** The script with the choice made for a server mode. */
  function Chosen(partialRevokes: bool, line: string): string {
    var mark := if partialRevokes then IF_ON else IF_OFF;
    if mark <= line then line[|mark|..] else line
  }

  function ChosenLines(partialRevokes: bool, lines: seq<string>): seq<string> {
    seq(|lines|, i requires 0 <= i < |lines| => Chosen(partialRevokes, lines[i]))
  }

  lemma GrantedAppend(a: seq<string>, b: seq<string>, mode: bool, user: string, db: string)
    ensures Granted(a + b, mode, user, db) <==> Granted(a, mode, user, db) || Granted(b, mode, user, db)
  {
    var c := a + b;
    if Granted(a, mode, user, db) {
      var i :| 0 <= i < |a| && Grants(a[i], mode, user, db);
      assert c[i] == a[i];
    }
    if Granted(b, mode, user, db) {
      var i :| 0 <= i < |b| && Grants(b[i], mode, user, db);
      assert c[|a| + i] == b[i];
    }
  }

  lemma GrantStarts(name: string, user: string)
    ensures GrantLine(name, user) != "" && GrantLine(name, user)[0] == 'G'
  {
    assert GrantLine(name, user) == GRANT_ON + (name + ".* TO '" + MyString(user) + "'@'%';");
    assert GRANT_ON[0] == 'G';
  }

  lemma PlainGrant(user: string, d: string, mode: bool, db: string)
    requires !NeedsEscape(d)
    ensures Grants(GrantLine(MyGrantDB(d), user), mode, user, db) <==> db == d
    ensures Chosen(mode, GrantLine(MyGrantDB(d), user)) == GrantLine(MyGrantDB(d), user)
  {
    hide ReadGrant, Covers, Quoted, MyString, NeedsEscape;
    EscapeUnchanged(d);
    GrantReadsBack(d, user);
    NamesAreExact(mode, d, db);
    GrantStarts(MyGrantDB(d), user);
  }

  lemma ChoiceGrant(user: string, d: string, mode: bool, db: string)
    ensures var off, on := IF_OFF + GrantLine(MyGrantDB(d), user), IF_ON + GrantLine(Quoted('`', d), user);
            && !Executable(off) && !Executable(on)
            && !Executable(if mode then Chosen(mode, off) else Chosen(mode, on))
            && (Grants(Chosen(mode, if mode then on else off), mode, user, db) <==> db == d)
  {
    hide ReadGrant, Covers, Quoted, MyString;
    var off, on := IF_OFF + GrantLine(MyGrantDB(d), user), IF_ON + GrantLine(Quoted('`', d), user);
    assert off[6] == '0' && on[6] == '1' && IF_OFF[6] == '0' && IF_ON[6] == '1';
    assert off[0] == '-' && off[1] == '-' && on[0] == '-' && on[1] == '-';
    assert off[|IF_OFF|..] == GrantLine(MyGrantDB(d), user);
    assert on[|IF_ON|..] == GrantLine(Quoted('`', d), user);
    GrantStarts(MyGrantDB(d), user);
    GrantStarts(Quoted('`', d), user);
    GrantReadsBack(EscapeLike(d), user);
    GrantReadsBack(d, user);
    NamesAreExact(mode, d, db);
  }

  lemma NoGrantOn(line: string)
    requires |line| > 7 && (line[0] != 'G' || line[7] != 'E')
    ensures ReadGrant(line) == None
  {
    assert GRANT_ON[0] == 'G' && GRANT_ON[7] == 'E';
  }

  lemma NotMarked(mode: bool, line: string)
    requires line != "" && line[0] != '-'
    ensures Chosen(mode, line) == line
  {
    assert IF_OFF[0] == '-' && IF_ON[0] == '-';
  }

  lemma OlderIsComment(user: string, mode: bool)
    ensures !Executable(OlderServers(user)) && Chosen(mode, OlderServers(user)) == OlderServers(user)
  {
    hide MyString;
    var line := OlderServers(user);
    assert line == OLDER + (ON_PROC + MyString(user) + "'@'%';)");
    assert line[0] == OLDER[0] == '-' && line[1] == OLDER[1] == '-' && line[3] == OLDER[3] == '(';
    assert IF_OFF[3] == 'i' && IF_ON[3] == 'i';
  }

  lemma OtherLines(user: string, mode: bool, db: string)
    ensures !Granted([CreateUser(user)], mode, user, db)
    ensures !Granted([GrantRoutines(user), OlderServers(user), FLUSH], mode, user, db)
    ensures ChosenLines(mode, [CreateUser(user)]) == [CreateUser(user)]
    ensures ChosenLines(mode, [GrantRoutines(user), OlderServers(user), FLUSH])
         == [GrantRoutines(user), OlderServers(user), FLUSH]
  {
    hide MyString, ReadGrant, Covers, Chosen;
    var create, routines := CreateUser(user), GrantRoutines(user);
    assert create == "CREATE USER '" + (MyString(user) + "'@'%' IDENTIFIED BY RANDOM PASSWORD;");
    assert routines == "GRANT SHOW_ROUTINE ON *.* TO '" + (MyString(user) + "'@'%';");
    assert create[0] == 'C' && routines[0] == 'G' && routines[7] == 'H' && FLUSH[0] == 'F';
    OlderIsComment(user, mode);
    NoGrantOn(create);
    NoGrantOn(routines);
    NoGrantOn(FLUSH);
    NotMarked(mode, create);
    NotMarked(mode, routines);
    NotMarked(mode, FLUSH);
  }

  predicate Listed(dbs: seq<string>, escape: bool, db: string) {
    exists i :: 0 <= i < |dbs| && dbs[i] == db && NeedsEscape(db) == escape
  }

  lemma ListedStep(dbs: seq<string>, escape: bool, db: string)
    requires dbs != []
    ensures Listed(dbs, escape, db)
       <==> Listed(dbs[..|dbs| - 1], escape, db) || (dbs[|dbs| - 1] == db && NeedsEscape(db) == escape)
  {
    var front := dbs[..|dbs| - 1];
    if Listed(front, escape, db) {
      var i :| 0 <= i < |front| && front[i] == db;
      assert dbs[i] == db;
    }
    if Listed(dbs, escape, db) {
      var i :| 0 <= i < |dbs| && dbs[i] == db;
      if i < |front| {
        assert front[i] == db;
      }
    }
  }

  lemma GrantedOne(line: string, mode: bool, user: string, db: string)
    ensures Granted([line], mode, user, db) <==> Grants(line, mode, user, db)
  {
    assert [line][0] == line;
  }

  lemma GrantedTwo(a: string, b: string, mode: bool, user: string, db: string)
    ensures Granted([a, b], mode, user, db) <==> Grants(a, mode, user, db) || Grants(b, mode, user, db)
  {
    assert [a, b][0] == a && [a, b][1] == b;
  }

  lemma ChosenAppend(mode: bool, a: seq<string>, b: seq<string>)
    ensures ChosenLines(mode, a + b) == ChosenLines(mode, a) + ChosenLines(mode, b)
  {
  }

  /** The plain grants cover the names without special characters, in both modes. */
  lemma {:induction false} PlainGrantsCover(user: string, dbs: seq<string>, mode: bool, db: string)
    ensures Granted(PlainGrants(user, dbs), mode, user, db) <==> Listed(dbs, false, db)
    ensures ChosenLines(mode, PlainGrants(user, dbs)) == PlainGrants(user, dbs)
  {
    hide Listed, Granted, Grants, GrantLine, NeedsEscape, MyGrantDB;
    if dbs == [] {
      NothingGranted(mode, user, db);
    } else {
      var front, d := dbs[..|dbs| - 1], dbs[|dbs| - 1];
      PlainGrantsCover(user, front, mode, db);
      ListedStep(dbs, false, db);
      if !NeedsEscape(d) {
        var line := GrantLine(MyGrantDB(d), user);
        PlainGrant(user, d, mode, db);
        GrantedAppend(PlainGrants(user, front), [line], mode, user, db);
        GrantedOne(line, mode, user, db);
        ChosenAppend(mode, PlainGrants(user, front), [line]);
        assert ChosenLines(mode, [line]) == [line];
      }
    }
  }

  lemma NothingGranted(mode: bool, user: string, db: string)
    ensures !Granted([], mode, user, db) && !Listed([], true, db) && !Listed([], false, db)
  {
  }

  /** The commented lines grant nothing as they stand, and the listed special names once the
      lines for the server's mode are chosen. */
  lemma {:induction false} ChoiceGrantsCover(user: string, dbs: seq<string>, mode: bool, db: string)
    ensures !Granted(ChoiceGrants(user, dbs), mode, user, db)
    ensures Granted(ChosenLines(mode, ChoiceGrants(user, dbs)), mode, user, db) <==> Listed(dbs, true, db)
  {
    hide Listed, Granted, GrantLine, NeedsEscape, MyGrantDB, ReadGrant, Covers, Chosen;
    if dbs == [] {
      NothingGranted(mode, user, db);
      assert ChosenLines(mode, []) == [];
    } else {
      var front, d := dbs[..|dbs| - 1], dbs[|dbs| - 1];
      ChoiceGrantsCover(user, front, mode, db);
      ListedStep(dbs, true, db);
      if NeedsEscape(d) {
        var off, on := IF_OFF + GrantLine(MyGrantDB(d), user), IF_ON + GrantLine(Quoted('`', d), user);
        ChoiceGrant(user, d, mode, db);
        GrantedAppend(ChoiceGrants(user, front), [off, on], mode, user, db);
        GrantedTwo(off, on, mode, user, db);
        ChosenAppend(mode, ChoiceGrants(user, front), [off, on]);
        assert ChosenLines(mode, [off, on]) == [Chosen(mode, off), Chosen(mode, on)];
        GrantedAppend(ChosenLines(mode, ChoiceGrants(user, front)), [Chosen(mode, off), Chosen(mode, on)],
                      mode, user, db);
        GrantedTwo(Chosen(mode, off), Chosen(mode, on), mode, user, db);
      }
    }
  }

  /** Run blindly, in either mode, the script grants the user exactly the listed databases
      whose names need no escape; with the lines for the server's mode uncommented, exactly
      the listed ones. */
  lemma ScriptIsExact(user: string, dbs: seq<string>, mode: bool, db: string)
    ensures Granted(MySQLScript(user, dbs), mode, user, db)
       <==> db in dbs && '_' !in db && '%' !in db && '\\' !in db
    ensures Granted(ChosenLines(mode, MySQLScript(user, dbs)), mode, user, db) <==> db in dbs
  {
    hide Granted, NeedsEscape, Chosen, ChosenLines, GrantLine, CreateUser, GrantRoutines, OlderServers;
    var create, plain, choice, last :=
      [CreateUser(user)], PlainGrants(user, dbs), ChoiceGrants(user, dbs),
          [GrantRoutines(user), OlderServers(user), FLUSH];
    EscapeMeans(db);
    OtherLines(user, mode, db);
    PlainGrantsCover(user, dbs, mode, db);
    ChoiceGrantsCover(user, dbs, mode, db);
    GrantedAppend(create, plain, mode, user, db);
    GrantedAppend(create + plain, choice, mode, user, db);
    GrantedAppend(create + plain + choice, last, mode, user, db);
    ChosenAppend(mode, create, plain);
    ChosenAppend(mode, create + plain, choice);
    ChosenAppend(mode, create + plain + choice, last);
    var chosen := ChosenLines(mode, choice);
    GrantedAppend(create + plain, chosen, mode, user, db);
    GrantedAppend(create + plain + chosen, last, mode, user, db);
    assert db in dbs && !NeedsEscape(db) <==> Listed(dbs, false, db);
    assert db in dbs && NeedsEscape(db) <==> Listed(dbs, true, db);
  }

  // ----------------------------------------------------------- line breaks

  lemma {:induction false} DoubledKeepsLine(q: char, s: string)
    requires '\n' !in s
    ensures '\n' !in Doubled(q, s)
  {
    if s == "" {
    } else {
      assert s[0] in s;
      DoubledKeepsLine(q, s[1..]);
    }
  }

  lemma {:induction false} EscapeKeepsLine(s: string)
    requires '\n' !in s
    ensures '\n' !in EscapeLike(s)
  {
    if s == "" {
    } else {
      assert s[0] in s;
      EscapeKeepsLine(s[1..]);
    }
  }

  lemma ValidNameIsLine(s: string)
    requires NameError(s).None?
    ensures '\n' !in s
  {
    assert '\n' < 0x20 as char;
  }

  predicate OneLine(line: string) {
    '\n' !in line
  }

  lemma TogetherOneLine(a: string, b: string)
    requires OneLine(a) && OneLine(b)
    ensures OneLine(a + b)
  {
  }

  lemma MyStringIsLine(user: string)
    requires NameError(user).None?
    ensures OneLine(MyString(user))
  {
    ValidNameIsLine(user);
    DoubledKeepsLine('\\', user);
    DoubledKeepsLine('\'', Doubled('\\', user));
  }

  lemma GrantFixedIsLine()
    ensures OneLine(GRANT_ON) && OneLine(".* TO '") && OneLine("'@'%';")
  {
  }

  lemma NamesAreLines(d: string)
    requires NameError(d).None?
    ensures OneLine(MyGrantDB(d)) && OneLine(Quoted('`', d))
  {
    ValidNameIsLine(d);
    EscapeKeepsLine(d);
    DoubledKeepsLine('`', EscapeLike(d));
    DoubledKeepsLine('`', d);
  }

  lemma GrantWithLine(name: string, user: string)
    requires OneLine(name) && OneLine(MyString(user))
    ensures OneLine(GrantLine(name, user))
  {
    hide OneLine, MyString;
    GrantFixedIsLine();
    TogetherOneLine(GRANT_ON, name);
    TogetherOneLine(GRANT_ON + name, ".* TO '");
    TogetherOneLine(GRANT_ON + name + ".* TO '", MyString(user));
    TogetherOneLine(GRANT_ON + name + ".* TO '" + MyString(user), "'@'%';");
  }

  lemma GrantIsLine(user: string, d: string)
    requires NameError(user).None? && NameError(d).None?
    ensures OneLine(GrantLine(MyGrantDB(d), user)) && OneLine(GrantLine(Quoted('`', d), user))
  {
    hide OneLine, MyString, MyGrantDB, Quoted, NameError;
    MyStringIsLine(user);
    NamesAreLines(d);
    GrantWithLine(MyGrantDB(d), user);
    GrantWithLine(Quoted('`', d), user);
  }

  lemma CreateIsLine()
    ensures OneLine("CREATE USER '") && OneLine("'@'%' IDENTIFIED BY RANDOM PASSWORD;")
  {
  }

  lemma RoutinesIsLine()
    ensures OneLine("GRANT SHOW_ROUTINE ON *.* TO '")
  {
  }

  lemma FlushIsLine()
    ensures OneLine(FLUSH)
  {
  }

  lemma OlderIsLine()
    ensures OneLine(OLDER) && OneLine(ON_PROC) && OneLine("'@'%';)")
  {
  }

  lemma UserLines(user: string)
    requires NameError(user).None?
    ensures OneLine(CreateUser(user)) && OneLine(GrantRoutines(user)) && OneLine(OlderServers(user))
  {
    hide OneLine, MyString, NameError;
    MyStringIsLine(user);
    CreateIsLine();
    RoutinesIsLine();
    GrantFixedIsLine();
    TogetherOneLine("CREATE USER '", MyString(user));
    TogetherOneLine("CREATE USER '" + MyString(user), "'@'%' IDENTIFIED BY RANDOM PASSWORD;");
    TogetherOneLine("GRANT SHOW_ROUTINE ON *.* TO '", MyString(user));
    TogetherOneLine("GRANT SHOW_ROUTINE ON *.* TO '" + MyString(user), "'@'%';");
    OlderIsLine();
    TogetherOneLine(OLDER, ON_PROC);
    TogetherOneLine(OLDER + ON_PROC, MyString(user));
    TogetherOneLine(OLDER + ON_PROC + MyString(user), "'@'%';)");
  }

  lemma MarksAreLines()
    ensures OneLine(IF_OFF) && OneLine(IF_ON)
  {
  }

  lemma {:induction false} GrantsAreLines(user: string, dbs: seq<string>)
    requires NameError(user).None? && forall d :: d in dbs ==> NameError(d).None?
    ensures forall line :: line in PlainGrants(user, dbs) + ChoiceGrants(user, dbs) ==> OneLine(line)
  {
    hide GrantLine, NameError, NeedsEscape, MyGrantDB, OneLine;
    if dbs == [] {
    } else {
      var front, d := dbs[..|dbs| - 1], dbs[|dbs| - 1];
      GrantsAreLines(user, front);
      GrantIsLine(user, d);
      MarksAreLines();
      TogetherOneLine(IF_OFF, GrantLine(MyGrantDB(d), user));
      TogetherOneLine(IF_ON, GrantLine(Quoted('`', d), user));
      forall line | line in PlainGrants(user, dbs) + ChoiceGrants(user, dbs)
        ensures OneLine(line)
      {
        assert line in PlainGrants(user, front) + ChoiceGrants(user, front)
            || line == GrantLine(MyGrantDB(d), user)
            || line == IF_OFF + GrantLine(MyGrantDB(d), user) || line == IF_ON + GrantLine(Quoted('`', d), user);
      }
    }
  }

  lemma {:induction false} NoFirstError(dbs: seq<string>)
    requires FirstError(dbs).None?
    ensures forall d :: d in dbs ==> NameError(d).None?
  {
    if dbs == [] {
    } else {
      NoFirstError(dbs[..|dbs| - 1]);
      assert forall d :: d in dbs ==> d in dbs[..|dbs| - 1] || d == dbs[|dbs| - 1];
    }
  }

  /** No accepted name breaks a line, so no comment of the script ends early. */
  lemma ScriptIsLines(user: string, dbs: seq<string>)
    requires RequestError(user, dbs).None?
    ensures forall line :: line in MySQLScript(user, dbs) ==> OneLine(line)
  {
    hide OneLine, MyString, NameError, GrantLine, CreateUser, GrantRoutines, OlderServers;
    NoFirstError(dbs);
    GrantsAreLines(user, dbs);
    UserLines(user);
    FlushIsLine();
    forall line | line in MySQLScript(user, dbs)
      ensures OneLine(line)
    {
      assert line in PlainGrants(user, dbs) + ChoiceGrants(user, dbs)
          || line == CreateUser(user) || line == GrantRoutines(user) || line == OlderServers(user) || line == FLUSH;
    }
  }

  // -------------------------------------------------------------- PostgreSQL

  function RevokeConnect(d: string): string {
    "REVOKE CONNECT ON DATABASE " + Quoted('"', d) + " FROM PUBLIC;"
  }

  const CONNECT_ON := "GRANT CONNECT ON DATABASE "

  function GrantConnect(d: string, user: string): string {
    CONNECT_ON + Quoted('"', d) + " TO " + Quoted('"', user) + ";"
  }

  function ConnectLines(user: string, dbs: seq<string>): seq<string> {
    if dbs == [] then []
    else ConnectLines(user, dbs[..|dbs| - 1]) + [RevokeConnect(dbs[|dbs| - 1]), GrantConnect(dbs[|dbs| - 1], user)]
  }

  function CreateRole(user: string): string {
    "CREATE ROLE " + Quoted('"', user) + " LOGIN;"
  }

  const PASSWORD := "\\password "

  function AskPassword(user: string): string {
    PASSWORD + Quoted('"', user)
  }

  function GrantRead(user: string): string {
    "GRANT pg_read_all_data TO " + Quoted('"', user) + ";"
  }

  /** The statements of the script and its psql command. */
  function PostgresScript(user: string, dbs: seq<string>): seq<string> {
    [CreateRole(user), AskPassword(user), GrantRead(user)] + ConnectLines(user, dbs)
  }

  method PostgresGrants(user: string, dbs: seq<string>) returns (r: Result<seq<string>, GrantError>)
    ensures match RequestError(user, dbs)
            case Some(e) => r == Failure(e)
            case None => r == Success(PostgresScript(user, dbs))
    ensures r.Success? <==>
              && user != "" && (forall i :: 0 <= i < |user| ==> user[i] >= 32 as char && user[i] != 127 as char)
              && dbs != []
              && forall d :: d in dbs ==>
                   d != "" && forall i :: 0 <= i < |d| ==> d[i] >= 32 as char && d[i] != 127 as char
  {
    hide RequestError, RevokeConnect, GrantConnect, CreateRole, AskPassword, GrantRead;
    RequestMeans(user, dbs);
    var bad := CheckRequest(user, dbs);
    if bad.Some? {
      return Failure(bad.value);
    }
    assert dbs[..|dbs|] == dbs;
    var lines := [];
    for i := 0 to |dbs|
      invariant lines == ConnectLines(user, dbs[..i])
    {
      assert dbs[..i + 1][..i] == dbs[..i];
      lines := lines + [RevokeConnect(dbs[i]), GrantConnect(dbs[i], user)];
    }
    return Success([CreateRole(user), AskPassword(user), GrantRead(user)] + lines);
  }

  /** A CONNECT grant as the server reads it: the database and the role. */
  function ReadConnect(line: string): Option<(string, string)> {
    if !(CONNECT_ON <= line) then None
    else match ReadQuoted('"', line[|CONNECT_ON|..])
      case None => None
      case Some((db, rest)) =>
        if !(" TO " <= rest) then None
        else match ReadQuoted('"', rest[4..])
          case None => None
          case Some((role, end)) => if end == ";" then Some((db, role)) else None
  }

  /** Some statement of the script lets the role connect to the database. */
  predicate Connects(lines: seq<string>, db: string, role: string) {
    exists i :: 0 <= i < |lines| && ReadConnect(lines[i]) == Some((db, role))
  }

  lemma ConnectReadsBack(d: string, user: string)
    ensures ReadConnect(GrantConnect(d, user)) == Some((d, user))
    ensures ReadConnect(RevokeConnect(d)) == None
  {
    hide ReadQuoted, Quoted;
    var after := Quoted('"', user) + ";";
    var rest := " TO " + after;
    var line := GrantConnect(d, user);
    assert line == CONNECT_ON + (Quoted('"', d) + rest);
    assert line[|CONNECT_ON|..] == Quoted('"', d) + rest;
    QuotedReadsBack('"', d, rest);
    assert rest[4..] == after;
    QuotedReadsBack('"', user, ";");
    var revoke := RevokeConnect(d);
    assert revoke == "REVOKE CONNECT ON DATABASE " + (Quoted('"', d) + " FROM PUBLIC;");
    assert revoke[0] == 'R' && CONNECT_ON[0] == 'G';
  }

  /** The role may connect to exactly the listed databases, each first closed to PUBLIC. */
  lemma {:induction false} ConnectIsExact(user: string, dbs: seq<string>, db: string, role: string)
    ensures Connects(ConnectLines(user, dbs), db, role) <==> db in dbs && role == user
    ensures |ConnectLines(user, dbs)| == 2 * |dbs|
    ensures forall i :: 0 <= i < |dbs| ==> ConnectLines(user, dbs)[2 * i] == RevokeConnect(dbs[i])
  {
    hide ReadConnect, RevokeConnect, GrantConnect;
    if dbs == [] {
    } else {
      var front, d := dbs[..|dbs| - 1], dbs[|dbs| - 1];
      var before, lines := ConnectLines(user, front), ConnectLines(user, dbs);
      ConnectIsExact(user, front, db, role);
      ConnectReadsBack(d, user);
      assert lines == before + [RevokeConnect(d), GrantConnect(d, user)];
      assert lines[|before|] == RevokeConnect(d) && lines[|before| + 1] == GrantConnect(d, user);
      assert forall i :: 0 <= i < |before| ==> lines[i] == before[i];
      assert db in dbs <==> db in front || db == d;
      if i :| 0 <= i < |before| && ReadConnect(before[i]) == Some((db, role)) {
        assert ReadConnect(lines[i]) == Some((db, role));
      }
    }
  }

  /** The psql command names the role and nothing after it. */
  lemma PasswordReadsBack(user: string)
    ensures ReadQuoted('"', AskPassword(user)[|PASSWORD|..]) == Some((user, ""))
  {
    QuotedReadsBack('"', user, "");
    assert AskPassword(user)[|PASSWORD|..] == Quoted('"', user) == Quoted('"', user) + "";
  }

  lemma NoConnectOn(line: string)
    requires |line| > 6 && (line[0] != 'G' || line[6] != 'C')
    ensures ReadConnect(line) == None
  {
    assert CONNECT_ON[0] == 'G' && CONNECT_ON[6] == 'C';
  }

  lemma RoleLines(user: string)
    ensures ReadConnect(CreateRole(user)) == None
    ensures ReadConnect(AskPassword(user)) == None
    ensures ReadConnect(GrantRead(user)) == None
  {
    hide Quoted, ReadConnect;
    var create, read := CreateRole(user), GrantRead(user);
    assert create == "CREATE ROLE " + (Quoted('"', user) + " LOGIN;");
    assert read == "GRANT pg_read_all_data TO " + (Quoted('"', user) + ";");
    assert create[0] == 'C' && read[6] == 'p' && AskPassword(user)[0] == '\\';
    NoConnectOn(create);
    NoConnectOn(AskPassword(user));
    NoConnectOn(read);
  }

  /** The whole script lets the role, and nobody else, connect to exactly the listed databases. */
  lemma PostgresScriptIsExact(user: string, dbs: seq<string>, db: string, role: string)
    ensures Connects(PostgresScript(user, dbs), db, role) <==> db in dbs && role == user
  {
    hide ReadConnect, CreateRole, AskPassword, GrantRead, ConnectLines;
    RoleLines(user);
    ConnectIsExact(user, dbs, db, role);
    ConnectsBehind(CreateRole(user), AskPassword(user), GrantRead(user), ConnectLines(user, dbs), db, role);
  }

  lemma ConnectsBehind(a: string, b: string, c: string, lines: seq<string>, db: string, role: string)
    requires ReadConnect(a) == None && ReadConnect(b) == None && ReadConnect(c) == None
    ensures Connects([a, b, c] + lines, db, role) <==> Connects(lines, db, role)
  {
    hide ReadConnect;
    var script := [a, b, c] + lines;
    assert script[0] == a && script[1] == b && script[2] == c;
    if i :| 0 <= i < |lines| && ReadConnect(lines[i]) == Some((db, role)) {
      assert script[3 + i] == lines[i];
    }
    if i :| 0 <= i < |script| && ReadConnect(script[i]) == Some((db, role)) {
      assert i >= 3 ==> lines[i - 3] == script[i];
    }
  }

  /** The script has these lines and no others. */
  lemma PostgresLines(user: string, dbs: seq<string>, line: string)
    ensures line in PostgresScript(user, dbs) <==>
              || line == "CREATE ROLE " + Quoted('"', user) + " LOGIN;"
              || line == "\\password " + Quoted('"', user)
              || line == "GRANT pg_read_all_data TO " + Quoted('"', user) + ";"
              || (exists d :: d in dbs && line == "REVOKE CONNECT ON DATABASE " + Quoted('"', d) + " FROM PUBLIC;")
              || (exists d :: d in dbs && line
                    == "GRANT CONNECT ON DATABASE " + Quoted('"', d) + " TO " + Quoted('"', user) + ";")
  {
    hide Quoted, ConnectLines;
    ConnectMeans(user, dbs, line);
    var first := [CreateRole(user), AskPassword(user), GrantRead(user)];
    assert line in first <==> line == first[0] || line == first[1] || line == first[2];
  }

  lemma {:induction false} ConnectMeans(user: string, dbs: seq<string>, line: string)
    ensures line in ConnectLines(user, dbs)
       <==> exists d :: d in dbs && (line == RevokeConnect(d) || line == GrantConnect(d, user))
  {
    hide RevokeConnect, GrantConnect;
    if dbs == [] {
    } else {
      var front, last := dbs[..|dbs| - 1], dbs[|dbs| - 1];
      ConnectMeans(user, front, line);
      assert dbs == front + [last];
      var two := [RevokeConnect(last), GrantConnect(last, user)];
      assert line in two <==> line == two[0] || line == two[1];
    }
  }

  lemma PgFixedIsLine()
    ensures OneLine("CREATE ROLE ") && OneLine(" LOGIN;") && OneLine(PASSWORD) && OneLine(";")
    ensures OneLine(" FROM PUBLIC;") && OneLine(" TO ")
  {
  }

  lemma PgReadIsLine()
    ensures OneLine("GRANT pg_read_all_data TO ")
  {
  }

  lemma PgConnectIsLine()
    ensures OneLine("REVOKE CONNECT ON DATABASE ") && OneLine(CONNECT_ON)
  {
  }

  lemma PgNameIsLine(s: string)
    requires NameError(s).None?
    ensures OneLine(Quoted('"', s))
  {
    ValidNameIsLine(s);
    DoubledKeepsLine('"', s);
  }

  lemma RoleLinesAreLines(user: string)
    requires NameError(user).None?
    ensures OneLine(CreateRole(user)) && OneLine(AskPassword(user)) && OneLine(GrantRead(user))
  {
    hide OneLine, Quoted, NameError;
    PgFixedIsLine();
    PgReadIsLine();
    PgNameIsLine(user);
    TogetherOneLine("CREATE ROLE ", Quoted('"', user));
    TogetherOneLine("CREATE ROLE " + Quoted('"', user), " LOGIN;");
    TogetherOneLine(PASSWORD, Quoted('"', user));
    TogetherOneLine("GRANT pg_read_all_data TO ", Quoted('"', user));
    TogetherOneLine("GRANT pg_read_all_data TO " + Quoted('"', user), ";");
  }

  lemma ConnectIsLine(d: string, user: string)
    requires NameError(d).None? && NameError(user).None?
    ensures OneLine(RevokeConnect(d)) && OneLine(GrantConnect(d, user))
  {
    hide OneLine, Quoted, NameError;
    PgFixedIsLine();
    PgConnectIsLine();
    PgNameIsLine(d);
    PgNameIsLine(user);
    TogetherOneLine("REVOKE CONNECT ON DATABASE ", Quoted('"', d));
    TogetherOneLine("REVOKE CONNECT ON DATABASE " + Quoted('"', d), " FROM PUBLIC;");
    TogetherOneLine(CONNECT_ON, Quoted('"', d));
    TogetherOneLine(CONNECT_ON + Quoted('"', d), " TO ");
    TogetherOneLine(CONNECT_ON + Quoted('"', d) + " TO ", Quoted('"', user));
    TogetherOneLine(CONNECT_ON + Quoted('"', d) + " TO " + Quoted('"', user), ";");
  }

  lemma {:induction false} ConnectsAreLines(user: string, dbs: seq<string>)
    requires NameError(user).None? && forall d :: d in dbs ==> NameError(d).None?
    ensures forall line :: line in ConnectLines(user, dbs) ==> OneLine(line)
  {
    hide OneLine, NameError, RevokeConnect, GrantConnect;
    if dbs == [] {
    } else {
      var front, d := dbs[..|dbs| - 1], dbs[|dbs| - 1];
      ConnectsAreLines(user, front);
      ConnectIsLine(d, user);
      forall line | line in ConnectLines(user, dbs)
        ensures OneLine(line)
      {
        assert line in ConnectLines(user, front) || line == RevokeConnect(d) || line == GrantConnect(d, user);
      }
    }
  }

  /** No accepted name breaks a line, so none reaches past the psql command it is in. */
  lemma PostgresScriptIsLines(user: string, dbs: seq<string>)
    requires RequestError(user, dbs).None?
    ensures forall line :: line in PostgresScript(user, dbs) ==> OneLine(line)
  {
    hide OneLine, NameError, CreateRole, AskPassword, GrantRead, ConnectLines;
    NoFirstError(dbs);
    RoleLinesAreLines(user);
    ConnectsAreLines(user, dbs);
    forall line | line in PostgresScript(user, dbs)
      ensures OneLine(line)
    {
      assert line in ConnectLines(user, dbs) || line == CreateRole(user) || line == AskPassword(user)
          || line == GrantRead(user);
    }
  }
}
