/** The scanner of SHOW GRANTS rows against the rows a server prints. Chars are code points
    here, and upper case is any mapping that agrees with ASCII. */
module ShowGrants {
  import opened Wrappers
  import opened Text
  import opened Grants

  // ----------------------------------------------------------- the scanner

  /** ASCII letters become capitals, other ASCII stays; what lies beyond may become a capital
      letter but no other ASCII character. */
  ghost predicate UpperCase(up: char -> char) {
    forall c: char ::
      if 'a' <= c <= 'z' then up(c) == (c as nat - 32) as char
      else if c < 128 as char then up(c) == c
      else up(c) >= 128 as char || 'A' <= up(c) <= 'Z'
  }

  function Upper(up: char -> char, s: string): string {
    seq(|s|, i requires 0 <= i < |s| => up(s[i]))
  }

  const ON := " ON "

  /** What stands before and after the first " ON ". */
  function CutOn(s: string): Option<(string, string)> {
    if |s| < 4 then None
    else if s[..4] == ON then Some(("", s[4..]))
    else match CutOn(s[1..])
      case None => None
      case Some((before, after)) => Some(([s[0]] + before, after))
  }

  predicate HasQuote(s: string) {
    '`' in s || '\'' in s || '"' in s
  }

  function GrantPrivileges(row: string, keyword: string): Option<string> {
    if !(keyword <= row) then None
    else match CutOn(row[|keyword|..])
      case None => None
      case Some((privs, _)) => if HasQuote(privs) then None else Some(privs)
  }

  /** The pieces between commas. */
  function Pieces(s: string): (pieces: seq<string>)
    ensures pieces != []
  {
    if s == "" then [""]
    else
      var rest := Pieces(s[1..]);
      if s[0] == ',' then [""] + rest else [[s[0]] + rest[0]] + rest[1..]
  }

  predicate Has(privs: string, want: string) {
    exists i :: 0 <= i < |Pieces(privs)| && TrimSpace(Pieces(privs)[i]) == want
  }

  method PrivListHas(privs: string, want: string) returns (has: bool)
    ensures has <==> Has(privs, want)
  {
    var pieces := Pieces(privs);
    for i := 0 to |pieces|
      invariant forall j :: 0 <= j < i ==> TrimSpace(pieces[j]) != want
    {
      if TrimSpace(pieces[i]) == want {
        return true;
      }
    }
    return false;
  }

  /** A row that takes SELECT away from some schema. */
  predicate Restricts(row: string) {
    var privs := GrantPrivileges(row, "REVOKE ");
    privs.Some? && (Has(privs.value, "SELECT") || Has(privs.value, "ALL PRIVILEGES"))
  }

  predicate IsGlobal(target: string) {
    "*.* TO " <= target
  }

  predicate IsProc(target: string) {
    "`MYSQL`.`PROC` TO " <= target || "MYSQL.PROC TO " <= target || "`MYSQL`.* TO " <= target || "MYSQL.* TO " <= target
  }

  /** A row that lets the user read stored programs. */
  predicate Proves(row: string, restricted: bool) {
    var privs := GrantPrivileges(row, "GRANT ");
    privs.Some? && CutOn(row).Some? &&
    var target := TrimSpace(CutOn(row).value.1);
    || (IsGlobal(target) && Has(privs.value, "SHOW_ROUTINE"))
    || (IsGlobal(target) && !restricted && (Has(privs.value, "ALL PRIVILEGES") || Has(privs.value, "SELECT")))
    || (IsProc(target) && !restricted && Has(privs.value, "SELECT"))
  }

  function Row(up: char -> char, g: string): string {
    Upper(up, TrimSpace(g))
  }

  predicate AnyRestricts(up: char -> char, grants: seq<string>) {
    exists i :: 0 <= i < |grants| && Restricts(Row(up, grants[i]))
  }

  predicate AnyProves(up: char -> char, grants: seq<string>, restricted: bool) {
    exists i :: 0 <= i < |grants| && Proves(Row(up, grants[i]), restricted)
  }

  method HasRoutineGrant(up: char -> char, grants: seq<string>) returns (has: bool)
    ensures has <==> AnyProves(up, grants, AnyRestricts(up, grants))
  {
    hide Has, CutOn, GrantPrivileges, IsGlobal, IsProc, Row, TrimSpace;
    var restricted := false;
    for i := 0 to |grants|
      invariant restricted <==> exists j :: 0 <= j < i && Restricts(Row(up, grants[j]))
    {
      var privs := GrantPrivileges(Row(up, grants[i]), "REVOKE ");
      if privs.Some? {
        var select := PrivListHas(privs.value, "SELECT");
        var all := PrivListHas(privs.value, "ALL PRIVILEGES");
        restricted := restricted || select || all;
      }
    }
    for i := 0 to |grants|
      invariant forall j :: 0 <= j < i ==> !Proves(Row(up, grants[j]), restricted)
    {
      var row := Row(up, grants[i]);
      var privs := GrantPrivileges(row, "GRANT ");
      if privs.Some? && CutOn(row).Some? {
        var target := TrimSpace(CutOn(row).value.1);
        var routine := PrivListHas(privs.value, "SHOW_ROUTINE");
        var all := PrivListHas(privs.value, "ALL PRIVILEGES");
        var select := PrivListHas(privs.value, "SELECT");
        if IsGlobal(target) && routine {
          return true;
        } else if IsGlobal(target) && !restricted && (all || select) {
          return true;
        } else if IsProc(target) && !restricted && select {
          return true;
        }
      }
    }
    return false;
  }

  // ------------------------------------------------------------ the printer

  /** A privilege, on all columns or on some. */
  datatype Privilege = Plain(name: string) | OnColumns(name: string, first: string, others: seq<string>)

  datatype Target =
    | Everything
    | Database(db: string)
    | Table(db: string, table: string)
    | Routine(kind: string, db: string, name: string)

  datatype Account = Account(user: string, host: string)

  /** A privilege row, a partial revoke, or a row that assigns roles. */
  datatype Ast =
    | Granting(privs: seq<Privilege>, tight: bool, target: Target, to: Account, option: bool)
    | Revoking(names: seq<string>, tight: bool, db: string, from: Account)
    | Assigning(role: Account, more: seq<Account>, to: Account, option: bool)

  function Id(s: string): string {
    Quoted('`', s)
  }

  function AccountText(a: Account): string {
    Id(a.user) + "@" + Id(a.host)
  }

  function ColumnsText(columns: seq<string>): string {
    if columns == [] then "" else ", " + Id(columns[0]) + ColumnsText(columns[1..])
  }

  function PrivilegeText(p: Privilege): string {
    match p
    case Plain(name) => name
    case OnColumns(name, first, others) => name + " (" + Id(first) + ColumnsText(others) + ")"
  }

  function Separator(tight: bool): string {
    if tight then "," else ", "
  }

  function PrivilegesText(privs: seq<Privilege>, tight: bool): string
    requires privs != []
  {
    if |privs| == 1 then PrivilegeText(privs[0])
    else PrivilegeText(privs[0]) + Separator(tight) + PrivilegesText(privs[1..], tight)
  }

  function AllPlain(names: seq<string>): seq<Privilege> {
    seq(|names|, i requires 0 <= i < |names| => Plain(names[i]))
  }

  function TargetText(t: Target): string {
    match t
    case Everything => "*.*"
    case Database(db) => Id(db) + ".*"
    case Table(db, table) => Id(db) + "." + Id(table)
    case Routine(kind, db, name) => kind + " " + Id(db) + "." + Id(name)
  }

  function RolesText(more: seq<Account>): string {
    if more == [] then "" else "," + AccountText(more[0]) + RolesText(more[1..])
  }

  function OptionText(option: bool, text: string): string {
    if option then text else ""
  }

  function Print(a: Ast): string
    requires Printable(a)
  {
    match a
    case Granting(privs, tight, target, to, option) =>
      "GRANT " + PrivilegesText(privs, tight) + ON + TargetText(target) + " TO " + AccountText(to)
      + OptionText(option, " WITH GRANT OPTION")
    case Revoking(names, tight, db, from) =>
      "REVOKE " + PrivilegesText(AllPlain(names), tight) + ON + TargetText(Database(db)) + " FROM " + AccountText(from)
    case Assigning(role, more, to, option) =>
      "GRANT " + AccountText(role) + RolesText(more) + " TO " + AccountText(to)
      + OptionText(option, " WITH ADMIN OPTION")
  }

  /** No " ON " in the text. */
  predicate Clear(s: string) {
    forall i :: 0 <= i <= |s| - 4 ==> s[i..][..4] != ON
  }

  /** Privilege names are words of capitals, none of them ON. */
  predicate IsName(name: string) {
    && name != "" && name[0] != ' ' && name[|name| - 1] != ' '
    && (forall c :: c in name ==> 'A' <= c <= 'Z' || c == '_' || c == ' ')
    && Clear(" " + name + " ")
  }

  predicate Printable(a: Ast) {
    match a
    case Granting(privs, _, target, _, _) =>
      && privs != [] && (forall p :: p in privs ==> IsName(p.name))
      && (target.Routine? ==> target.kind == "PROCEDURE" || target.kind == "FUNCTION")
    case Revoking(names, _, _, _) => names != [] && forall n :: n in names ==> IsName(n)
    case Assigning(_, _, _, _) => true
  }

  // ------------------------------------------------------- what rows mean

  predicate Names(privs: seq<Privilege>, want: string) {
    exists i :: 0 <= i < |privs| && privs[i].name == want
  }

  predicate PlainOnly(privs: seq<Privilege>) {
    forall p :: p in privs ==> p.Plain?
  }

  predicate Revokes(a: Ast) {
    a.Revoking? && ("SELECT" in a.names || "ALL PRIVILEGES" in a.names)
  }

  predicate OnProc(up: char -> char, t: Target) {
    || (t.Database? && Upper(up, t.db) == "MYSQL")
    || (t.Table? && Upper(up, t.db) == "MYSQL" && Upper(up, t.table) == "PROC")
  }

  /** A grant that lets its holder read stored programs. */
  predicate Suffices(up: char -> char, a: Ast, restricted: bool) {
    a.Granting? && PlainOnly(a.privs) &&
    (|| (a.target.Everything? && Names(a.privs, "SHOW_ROUTINE"))
     || (a.target.Everything? && !restricted && (Names(a.privs, "ALL PRIVILEGES") || Names(a.privs, "SELECT")))
     || (OnProc(up, a.target) && !restricted && Names(a.privs, "SELECT")))
  }

  predicate SomeRevokes(rows: seq<Ast>) {
    exists i :: 0 <= i < |rows| && Revokes(rows[i])
  }

  predicate Sufficient(up: char -> char, rows: seq<Ast>) {
    exists i :: 0 <= i < |rows| && Suffices(up, rows[i], SomeRevokes(rows))
  }

  // --------------------------------------------------------- clear of " ON "

  lemma ClearPart(s: string, i: nat, j: nat)
    requires i <= j <= |s| && Clear(s)
    ensures Clear(s[i..j])
  {
    forall k | 0 <= k <= j - i - 4
      ensures s[i..j][k..][..4] != ON
    {
      assert s[i..j][k..][..4] == s[i + k..][..4];
    }
  }

  /** A character that is none of those of " ON " keeps two clear texts apart. */
  lemma ClearAround(x: string, c: char, y: string)
    requires Clear(x) && Clear(y) && c != ' ' && c != 'O' && c != 'N'
    ensures Clear(x + [c] + y)
  {
    var s := x + [c] + y;
    forall k | 0 <= k <= |s| - 4
      ensures s[k..][..4] != ON
    {
      if k + 4 <= |x| {
        assert s[k..][..4] == x[k..][..4];
      } else if k <= |x| {
        assert s[k..][..4][|x| - k] == c;
      } else {
        assert s[k..][..4] == y[k - |x| - 1..][..4];
      }
    }
  }

  /** Before a space, text without spaces adds no " ON ". */
  lemma ClearAfterWord(x: string, y: string)
    requires ' ' !in x && Clear(y)
    ensures Clear(x + y)
  {
    var s := x + y;
    forall k | 0 <= k <= |s| - 4
      ensures s[k..][..4] != ON
    {
      if k < |x| {
        assert s[k..][..4][0] == x[k];
      } else {
        assert s[k..][..4] == y[k - |x|..][..4];
      }
    }
  }

  lemma {:induction false} CutAtOn(x: string, rest: string)
    requires Clear(x + " ")
    ensures CutOn(x + ON + rest) == Some((x, rest))
  {
    var s := x + ON + rest;
    if x == "" {
      assert s == ON + rest && s[..4] == ON && s[4..] == rest;
      assert CutOn(ON + rest) == Some(("", rest));
    } else {
      assert s[1..] == x[1..] + ON + rest && (x + " ")[1..] == x[1..] + " ";
      ClearPart(x + " ", 1, |x| + 1);
      CutAtOn(x[1..], rest);
      NotYetOn(x, rest);
      assert CutOn(s[1..]) == Some((x[1..], rest));
      assert [x[0]] + x[1..] == x && s[0] == x[0];
    }
  }

  lemma NotYetOn(x: string, rest: string)
    requires Clear(x + " ") && x != ""
    ensures (x + ON + rest)[..4] != ON
  {
    var s := x + ON + rest;
    if |x| >= 3 {
      assert s[..4] == (x + " ")[0..][..4];
    } else {
      assert s[|x|] == ' ' && s[|x| + 1] == 'O';
      assert s[..4][|x|] == s[|x|];
    }
  }

  /** A cut behind a quote leaves the quote in what comes before. */
  lemma {:induction false} CutBehindQuote(x: string, y: string)
    requires Clear(x)
    ensures var cut := CutOn(x + "`" + y); cut.Some? ==> '`' in cut.value.0
  {
    var s := x + "`" + y;
    if |s| < 4 {
    } else {
      if x == "" {
        assert s[0] == '`' && s[..4][0] == '`';
      } else {
        assert s[1..] == x[1..] + "`" + y;
        ClearPart(x, 1, |x|);
        CutBehindQuote(x[1..], y);
        if |x| >= 4 {
          assert s[..4] == x[0..][..4];
        } else {
          assert s[..4][|x|] == '`';
        }
      }
    }
  }

  // ------------------------------------------------------- upper-case rows

  lemma UpperConcat(up: char -> char, s: string, t: string)
    ensures Upper(up, s + t) == Upper(up, s) + Upper(up, t)
  {
  }

  /** Text already in upper case: capitals and what is not a letter. */
  predicate Capital(s: string) {
    forall c :: c in s ==> c < 128 as char && !('a' <= c <= 'z')
  }

  lemma UpperCapital(up: char -> char, s: string)
    requires UpperCase(up) && Capital(s)
    ensures Upper(up, s) == s
  {
    forall i | 0 <= i < |s|
      ensures up(s[i]) == s[i]
    {
      assert s[i] in s;
    }
  }

  lemma UpperBacktick(up: char -> char, c: char)
    requires UpperCase(up)
    ensures up(c) == '`' <==> c == '`'
  {
    assert '`' as nat == 96;
  }

  lemma {:induction false} UpperDoubled(up: char -> char, s: string)
    requires UpperCase(up)
    ensures Upper(up, Doubled('`', s)) == Doubled('`', Upper(up, s))
  {
    if s == "" {
    } else {
      UpperBacktick(up, s[0]);
      hide UpperCase;
      UpperDoubled(up, s[1..]);
      var head := if s[0] == '`' then ['`', '`'] else [s[0]];
      UpperConcat(up, head, Doubled('`', s[1..]));
      assert Upper(up, s)[1..] == Upper(up, s[1..]);
      assert Upper(up, head) == if s[0] == '`' then ['`', '`'] else [up(s[0])];
    }
  }

  lemma UpperId(up: char -> char, s: string)
    requires UpperCase(up)
    ensures Upper(up, Id(s)) == Id(Upper(up, s))
  {
    UpperDoubled(up, s);
    UpperConcat(up, "`" + Doubled('`', s), "`");
    UpperConcat(up, "`", Doubled('`', s));
  }

  // -------------------------------------------------------- privilege lists

  lemma {:induction false} PiecesOfOne(s: string)
    requires ',' !in s
    ensures Pieces(s) == [s]
  {
    if s == "" {
    } else {
      assert s[0] in s;
      PiecesOfOne(s[1..]);
      assert [s[0]] + s[1..] == s;
    }
  }

  lemma {:induction false} PiecesOfMore(s: string, t: string)
    requires ',' !in s
    ensures Pieces(s + "," + t) == [s] + Pieces(t)
  {
    var u := s + "," + t;
    if s == "" {
      assert u[1..] == t;
    } else {
      assert s[0] in s && u[1..] == s[1..] + "," + t;
      PiecesOfMore(s[1..], t);
      assert [s[0]] + s[1..] == s;
    }
  }

  lemma PiecesAfterSpace(t: string)
    ensures Pieces(" " + t) == [" " + Pieces(t)[0]] + Pieces(t)[1..]
  {
    assert (" " + t)[1..] == t;
  }

  /** Text that neither begins nor ends with white space. */
  predicate Trimmed(s: string) {
    s != "" && !Space(s[0]) && !Space(s[|s| - 1])
  }

  lemma TrimOfTrimmed(s: string)
    requires Trimmed(s)
    ensures TrimSpace(s) == s && TrimSpace(" " + s) == s
  {
    assert (" " + s)[1..] == s;
  }

  lemma NameIsTrimmed(name: string)
    requires IsName(name)
    ensures Trimmed(name) && ',' !in name && !HasQuote(name) && Capital(name)
  {
    assert name[0] in name && name[|name| - 1] in name;
  }

  lemma HasOne(name: string, want: string)
    requires Trimmed(name) && ',' !in name
    ensures Has(name, want) <==> name == want
    ensures Has(" " + name, want) <==> name == want
  {
    PiecesOfOne(name);
    PiecesOfOne(" " + name);
    TrimOfTrimmed(name);
    assert Pieces(name)[0] == name && Pieces(" " + name)[0] == " " + name;
  }

  lemma HasMore(name: string, tight: bool, rest: string, want: string)
    requires Trimmed(name) && ',' !in name
    ensures Has(name + Separator(tight) + rest, want) <==> name == want || Has(if tight then rest else " " + rest, want)
  {
    hide TrimSpace, Trimmed;
    var tail := if tight then rest else " " + rest;
    var text := name + Separator(tight) + rest;
    assert text == name + "," + tail;
    PiecesOfMore(name, tail);
    TrimOfTrimmed(name);
    var pieces := Pieces(text);
    assert pieces[0] == name;
    if Has(tail, want) {
      var i :| 0 <= i < |Pieces(tail)| && TrimSpace(Pieces(tail)[i]) == want;
      assert pieces[i + 1] == Pieces(tail)[i];
    }
    if Has(text, want) {
      var i :| 0 <= i < |pieces| && TrimSpace(pieces[i]) == want;
      if i > 0 {
        assert pieces[i] == Pieces(tail)[i - 1];
      }
    }
  }

  lemma NamesFirst(privs: seq<Privilege>, want: string)
    requires privs != []
    ensures Names(privs, want) <==> privs[0].name == want || Names(privs[1..], want)
  {
    if Names(privs[1..], want) {
      var i :| 0 <= i < |privs| - 1 && privs[1..][i].name == want;
      assert privs[i + 1].name == want;
    }
    if Names(privs, want) {
      var i :| 0 <= i < |privs| && privs[i].name == want;
      assert i > 0 ==> privs[1..][i - 1].name == want;
    }
  }

  /** The scanner finds in a printed list exactly the names printed; a leading space, which
      the list's separator leaves, does not matter. */
  lemma {:induction false} HasIsNames(privs: seq<Privilege>, tight: bool, want: string)
    requires privs != [] && PlainOnly(privs) && forall p :: p in privs ==> IsName(p.name)
    ensures Has(PrivilegesText(privs, tight), want) <==> Names(privs, want)
    ensures Has(" " + PrivilegesText(privs, tight), want) <==> Names(privs, want)
  {
    hide Has, IsName, Trimmed, Names;
    assert privs[0] in privs;
    NameIsTrimmed(privs[0].name);
    NamesFirst(privs, want);
    var name := privs[0].name;
    if |privs| == 1 {
      HasOne(name, want);
      assert !Names(privs[1..], want) by { NoNames(privs[1..], want); }
    } else {
      var rest := PrivilegesText(privs[1..], tight);
      HasIsNames(privs[1..], tight, want);
      HasMore(name, tight, rest, want);
      HasMoreAfterSpace(name, tight, rest, want);
      assert " " + (name + Separator(tight) + rest) == " " + name + Separator(tight) + rest;
    }
  }

  lemma NoNames(privs: seq<Privilege>, want: string)
    requires privs == []
    ensures !Names(privs, want)
  {
  }

  lemma HasMoreAfterSpace(name: string, tight: bool, rest: string, want: string)
    requires Trimmed(name) && ',' !in name
    ensures Has(" " + name + Separator(tight) + rest, want) <==> Has(name + Separator(tight) + rest, want)
  {
    var text := name + Separator(tight) + rest;
    assert " " + name + Separator(tight) + rest == " " + text;
    PiecesAfterSpace(text);
    var tail := if tight then rest else " " + rest;
    assert text == name + "," + tail;
    PiecesOfMore(name, tail);
    TrimOfTrimmed(name);
    var a, b := Pieces(text), Pieces(" " + text);
    assert a[0] == name && b[0] == " " + name;
    forall i | 0 <= i < |a|
      ensures TrimSpace(a[i]) == TrimSpace(b[i])
    {
      assert i > 0 ==> b[i] == a[i];
    }
    if Has(text, want) {
      var i :| 0 <= i < |a| && TrimSpace(a[i]) == want;
      assert TrimSpace(b[i]) == want;
    }
  }

  lemma ClearName(name: string)
    requires IsName(name)
    ensures Clear(" " + name + " ") && Clear(" " + name)
  {
    ClearPart(" " + name + " ", 0, |name| + 1);
    assert (" " + name + " ")[0..|name| + 1] == " " + name;
  }

  lemma ClearInside(s: string)
    requires Clear(" " + s + " ")
    ensures Clear(s + " ") && Clear(" " + s)
  {
    var t := " " + s + " ";
    ClearPart(t, 1, |t|);
    ClearPart(t, 0, |t| - 1);
    assert t[1..|t|] == s + " " && t[0..|t| - 1] == " " + s;
  }

  /** After a name and a separator, what follows stays clear. */
  lemma ClearJoin(name: string, tight: bool, rest: string)
    requires IsName(name) && (if tight then Clear(rest) else Clear(" " + rest))
    ensures Clear(" " + name + Separator(tight) + rest)
  {
    hide Clear, IsName;
    ClearName(name);
    var tail := if tight then rest else " " + rest;
    ClearAround(" " + name, ',', tail);
    assert " " + name + Separator(tight) + rest == " " + name + [','] + tail;
  }

  predicate Bare(s: string) {
    !HasQuote(s) && Capital(s)
  }

  lemma BareConcat(s: string, t: string)
    ensures Bare(s + t) <==> Bare(s) && Bare(t)
  {
    assert forall c :: c in s + t <==> c in s || c in t;
  }

  lemma NameIsBare(name: string)
    requires IsName(name)
    ensures Bare(name)
  {
  }

  lemma Assoc(a: string, b: string, c: string)
    ensures a + b + c == a + (b + c)
  {
  }

  lemma PlainAfter(name: string, tight: bool, rest: string)
    requires IsName(name) && Clear(" " + rest + " ") && Bare(rest)
    ensures Clear(" " + (name + Separator(tight) + rest) + " ") && Bare(name + Separator(tight) + rest)
  {
    hide Clear, IsName, Bare, Separator;
    var list := name + Separator(tight) + rest;
    ClearInside(rest);
    Assoc(" ", rest, " ");
    ClearJoin(name, tight, rest + " ");
    Assoc(" ", name, Separator(tight));
    Assoc(" ", name + Separator(tight), rest);
    Assoc(" " + name + Separator(tight), rest, " ");
    assert " " + name + Separator(tight) + (rest + " ") == " " + list + " ";
    NameIsBare(name);
    SeparatorIsBare(tight);
    BareConcat(name, Separator(tight));
    BareConcat(name + Separator(tight), rest);
  }

  /** A list without columns is clear of " ON " and of quotes. */
  lemma {:induction false} PlainList(privs: seq<Privilege>, tight: bool)
    requires privs != [] && PlainOnly(privs) && forall p :: p in privs ==> IsName(p.name)
    ensures var text := PrivilegesText(privs, tight); Clear(" " + text + " ") && Bare(text)
  {
    hide Clear, IsName, Bare, Separator;
    assert privs[0] in privs;
    ClearName(privs[0].name);
    NameIsBare(privs[0].name);
    if |privs| <= 1 {
    } else {
      PlainList(privs[1..], tight);
      PlainAfter(privs[0].name, tight, PrivilegesText(privs[1..], tight));
    }
  }

  lemma SeparatorIsBare(tight: bool)
    ensures Bare(Separator(tight)) && Bare(" (")
  {
  }

  /** The text up to the first backtick of a privilege on columns. */
  lemma ColumnHead(name: string)
    requires IsName(name)
    ensures Clear(" " + (name + " (")) && Bare(name + " (")
  {
    hide Clear, IsName, Bare;
    ClearName(name);
    ClearOfEmpty();
    ClearAround(" " + name + " ", '(', "");
    assert " " + (name + " (") == (" " + name + " ") + ['('] + "";
    NameIsBare(name);
    SeparatorIsBare(true);
    BareConcat(name, " (");
  }

  lemma ColumnAfter(name: string, tight: bool, x: string)
    requires IsName(name) && Clear(" " + x) && Bare(x)
    ensures Clear(" " + (name + Separator(tight) + x)) && Bare(name + Separator(tight) + x)
  {
    hide Clear, IsName, Bare, Separator;
    ClearTail(x);
    ClearJoin(name, tight, x);
    assert " " + (name + Separator(tight) + x) == " " + name + Separator(tight) + x;
    NameIsBare(name);
    SeparatorIsBare(tight);
    BareConcat(name, Separator(tight));
    BareConcat(name + Separator(tight), x);
  }

  /** A list with columns shows a backtick before any " ON ". */
  lemma {:induction false} ColumnList(privs: seq<Privilege>, tight: bool) returns (x: string, y: string)
    requires !PlainOnly(privs) && forall p :: p in privs ==> IsName(p.name)
    ensures privs != [] && PrivilegesText(privs, tight) == x + "`" + y && Clear(" " + x) && Bare(x)
  {
    hide Clear, IsName, Bare, Separator;
    assert privs[0] in privs;
    var name := privs[0].name;
    if privs[0].OnColumns? {
      ColumnHead(name);
      x := name + " (";
      y := ColumnsStart(privs[0]);
      if |privs| > 1 {
        var rest := Separator(tight) + PrivilegesText(privs[1..], tight);
        Assoc(x + "`", y, rest);
        Assoc(PrivilegeText(privs[0]), Separator(tight), PrivilegesText(privs[1..], tight));
        y := y + rest;
      }
    } else {
      PlainTail(privs);
      var x';
      x', y := ColumnList(privs[1..], tight);
      ColumnAfter(name, tight, x');
      x := name + Separator(tight) + x';
      Assoc(name + Separator(tight), x' + "`", y);
      Assoc(name + Separator(tight), x', "`");
    }
  }

  lemma ColumnsStart(p: Privilege) returns (more: string)
    requires p.OnColumns?
    ensures PrivilegeText(p) == p.name + " (" + "`" + more
  {
    more := Doubled('`', p.first) + "`" + ColumnsText(p.others) + ")";
  }

  lemma ClearOfEmpty()
    ensures Clear("")
  {
  }

  lemma ClearTail(s: string)
    requires Clear(" " + s)
    ensures Clear(s)
  {
    ClearPart(" " + s, 1, |s| + 1);
    assert (" " + s)[1..|s| + 1] == s;
  }

  lemma PlainTail(privs: seq<Privilege>)
    requires privs != [] && !PlainOnly(privs) && privs[0].Plain?
    ensures !PlainOnly(privs[1..])
  {
    var p :| p in privs && !p.Plain?;
    assert p in privs[1..];
  }

  // ---------------------------------------------------------- printed rows

  function UpperTarget(up: char -> char, t: Target): Target {
    match t
    case Everything => t
    case Database(db) => Database(Upper(up, db))
    case Table(db, table) => Table(Upper(up, db), Upper(up, table))
    case Routine(kind, db, name) => Routine(kind, Upper(up, db), Upper(up, name))
  }

  lemma UpperOfTarget(up: char -> char, t: Target)
    requires UpperCase(up) && (t.Routine? ==> t.kind == "PROCEDURE" || t.kind == "FUNCTION")
    ensures Upper(up, TargetText(t)) == TargetText(UpperTarget(up, t))
  {
    hide UpperCase, Upper;
    match t
    case Everything => UpperCapital(up, "*.*");
    case Database(db) =>
      UpperId(up, db);
      UpperCapital(up, ".*");
      UpperConcat(up, Id(db), ".*");
    case Table(db, table) =>
      UpperId(up, db);
      UpperId(up, table);
      UpperCapital(up, ".");
      UpperConcat(up, Id(db) + ".", Id(table));
      UpperConcat(up, Id(db), ".");
    case Routine(kind, db, name) =>
      UpperId(up, db);
      UpperId(up, name);
      UpperCapital(up, kind);
      UpperCapital(up, " ");
      UpperCapital(up, ".");
      UpperConcat(up, kind + " " + Id(db) + ".", Id(name));
      UpperConcat(up, kind + " " + Id(db), ".");
      UpperConcat(up, kind + " ", Id(db));
      UpperConcat(up, kind, " ");
  }

  /** The row after its keyword and privileges: trimmed, it is what it was. */
  function After(t: Target, tail: string): string {
    TargetText(t) + " TO " + tail
  }

  predicate Solid(s: string) {
    s != "" && !Space(s[|s| - 1]) && s[|s| - 1] < 128 as char
  }

  lemma SolidConcat(s: string, t: string)
    requires Solid(t)
    ensures Solid(s + t)
  {
  }

  lemma AccountIsSolid(a: Account)
    ensures Solid(AccountText(a))
  {
    assert Id(a.host)[|Id(a.host)| - 1] == '`';
  }

  lemma UpperIsSolid(up: char -> char, s: string)
    requires UpperCase(up) && Solid(s)
    ensures Solid(Upper(up, s))
  {
  }

  lemma TailIsSolid(a: Account, option: bool, text: string)
    requires Solid(text)
    ensures Solid(AccountText(a) + OptionText(option, text))
  {
    AccountIsSolid(a);
    if option {
      SolidConcat(AccountText(a), text);
    } else {
      assert AccountText(a) + "" == AccountText(a);
    }
  }

  /** A text with a keyword in front, trimmed and in upper case. */
  lemma RowOfKeyword(up: char -> char, keyword: string, s: string)
    requires UpperCase(up) && Capital(keyword) && keyword != "" && !Space(keyword[0]) && Solid(s)
    ensures Row(up, keyword + s) == keyword + Upper(up, s)
  {
    SolidConcat(keyword, s);
    TrimOfTrimmed(keyword + s);
    UpperConcat(up, keyword, s);
    UpperCapital(up, keyword);
  }

  lemma KeywordsAreCapital()
    ensures Capital("GRANT ") && Capital("REVOKE ") && Capital(ON) && Capital(" TO ") && Capital(" FROM ")
    ensures Solid(" WITH GRANT OPTION") && Solid(" WITH ADMIN OPTION")
  {
  }

  /** Text up to a backtick: no privileges are read, whatever follows. */
  lemma QuotedList(keyword: string, x: string, y: string)
    requires Clear(x) && Bare(x)
    ensures GrantPrivileges(keyword + (x + "`" + y), keyword) == None
  {
    var s := keyword + (x + "`" + y);
    assert s[|keyword|..] == x + "`" + y;
    CutBehindQuote(x, y);
  }

  /** A list without quotes is read as it was printed, and the target with it. */
  lemma PlainRow(keyword: string, word: string, list: string, rest: string)
    requires keyword == word + " " && ' ' !in word && Clear(" " + list + " ") && Bare(list)
    ensures var row := keyword + (list + ON + rest);
            GrantPrivileges(row, keyword) == Some(list) && CutOn(row) == Some((keyword + list, rest))
  {
    hide Clear, CutOn, Capital;
    var row := keyword + (list + ON + rest);
    assert row[|keyword|..] == list + ON + rest;
    ClearInside(list);
    CutAtOn(list, rest);
    ClearAfterWord(word, " " + list + " ");
    Assoc(word, " ", list);
    Assoc(word, " " + list, " ");
    CutAtOn(keyword + list, rest);
    Assoc(keyword, list, ON);
    Assoc(keyword, list + ON, rest);
  }

  /** The list is what stands between the keyword and the first " ON ", and is not looked at
      if it has a quote of any kind. */
  lemma PrivilegesCut(keyword: string, x: string, rest: string)
    requires Clear(x + " ")
    ensures GrantPrivileges(keyword + (x + " ON " + rest), keyword)
         == if '`' in x || '\'' in x || '"' in x then None else Some(x)
  {
    hide Clear, CutOn;
    var row := keyword + (x + ON + rest);
    assert row[|keyword|..] == x + ON + rest;
    CutAtOn(x, rest);
  }

  lemma OtherKeyword(row: string)
    requires row != ""
    ensures row[0] != 'G' ==> GrantPrivileges(row, "GRANT ") == None
    ensures row[0] != 'R' ==> GrantPrivileges(row, "REVOKE ") == None
  {
    assert "GRANT "[0] == 'G' && "REVOKE "[0] == 'R';
  }

  // ------------------------------------------------------------- targets

  /** A quoted name is a prefix only of itself. */
  lemma IdPrefix(want: string, more: string, name: string, rest: string)
    requires !StartsWith(rest, '`') && !StartsWith(more, '`') && more != ""
    ensures Id(want) + more <= Id(name) + rest <==> name == want && more <= rest
  {
    var s, t := Id(want) + more, Id(name) + rest;
    if s <= t {
      var left := t[|s|..];
      assert t == s + left;
      Assoc(Id(want), more, left);
      QuotedReadsBack('`', want, more + left);
      QuotedReadsBack('`', name, rest);
    }
    if name == want && more <= rest {
      assert rest == more + rest[|more|..];
      Assoc(Id(want), more, rest[|more|..]);
    }
  }

  lemma IdsSpelled()
    ensures Id("MYSQL") == "`MYSQL`" && Id("PROC") == "`PROC`"
  {
    hide Id, Doubled;
    IdOfPlain("MYSQL");
    IdOfPlain("PROC");
  }

  lemma IdOfPlain(s: string)
    requires '`' !in s
    ensures Id(s) == "`" + s + "`"
  {
    DoubledUnchanged('`', s);
  }

  lemma DatabaseTarget(db: string, tail: string)
    ensures var rest := After(Database(db), tail);
            && ("`MYSQL`.* TO " <= rest <==> db == "MYSQL") && !("`MYSQL`.`PROC` TO " <= rest)
  {
    hide Id;
    var rest := After(Database(db), tail);
    IdsSpelled();
    var r := ".* TO " + tail;
    assert rest == Id(db) + r;
    assert "`MYSQL`.* TO " == Id("MYSQL") + ".* TO ";
    assert "`MYSQL`.`PROC` TO " == Id("MYSQL") + ".`PROC` TO ";
    IdPrefix("MYSQL", ".* TO ", db, r);
    IdPrefix("MYSQL", ".`PROC` TO ", db, r);
    assert r[1] == '*';
  }

  lemma TableTarget(db: string, table: string, tail: string)
    ensures var rest := After(Table(db, table), tail);
            && ("`MYSQL`.`PROC` TO " <= rest <==> db == "MYSQL" && table == "PROC") && !("`MYSQL`.* TO " <= rest)
  {
    hide Id;
    var rest := After(Table(db, table), tail);
    IdsSpelled();
    var q := Id(table) + (" TO " + tail);
    var r := "." + q;
    assert rest == Id(db) + r;
    assert "`MYSQL`.* TO " == Id("MYSQL") + ".* TO ";
    assert "`MYSQL`.`PROC` TO " == Id("MYSQL") + ("." + (Id("PROC") + " TO "));
    IdPrefix("MYSQL", ".* TO ", db, r);
    IdPrefix("MYSQL", "." + (Id("PROC") + " TO "), db, r);
    IdPrefix("PROC", " TO ", table, " TO " + tail);
    assert r[1] == '`' by { IdStarts(table); }
    assert "." + (Id("PROC") + " TO ") <= r <==> Id("PROC") + " TO " <= q by { DotPrefix(Id("PROC") + " TO ", q); }
  }

  lemma IdStarts(s: string)
    ensures Id(s) != "" && Id(s)[0] == '`'
  {
  }

  lemma DotPrefix(s: string, t: string)
    ensures "." + s <= "." + t <==> s <= t
  {
    assert ("." + s)[1..] == s && ("." + t)[1..] == t;
    if s <= t {
      assert "." + t == ("." + s) + t[|s|..];
    }
  }

  /** The first character decides most of the tests. */
  lemma TestsByFirst(rest: string)
    requires rest != ""
    ensures rest[0] != '*' ==> !IsGlobal(rest)
    ensures rest[0] != '`' && rest[0] != 'M' ==> !IsProc(rest)
    ensures rest[0] == '`' ==> (IsProc(rest) <==> "`MYSQL`.`PROC` TO " <= rest || "`MYSQL`.* TO " <= rest)
  {
    assert "`MYSQL`.`PROC` TO "[0] == '`' && "`MYSQL`.* TO "[0] == '`';
    assert "MYSQL.PROC TO "[0] == 'M' && "MYSQL.* TO "[0] == 'M' && "*.* TO "[0] == '*';
  }

  lemma FirstIsBacktick(s: string, rest: string)
    ensures Id(s) + rest != "" && (Id(s) + rest)[0] == '`'
  {
  }

  lemma RoutineFirst(kind: string, db: string, name: string, tail: string)
    requires kind == "PROCEDURE" || kind == "FUNCTION"
    ensures var rest := After(Routine(kind, db, name), tail); rest != "" && (rest[0] == 'P' || rest[0] == 'F')
  {
    hide Id;
    var more := " " + Id(db) + "." + Id(name) + " TO " + tail;
    assert After(Routine(kind, db, name), tail) == kind + more;
  }

  /** The scanner's tests of the target are those of the grant. */
  lemma TargetTests(t: Target, tail: string)
    requires t.Routine? ==> t.kind == "PROCEDURE" || t.kind == "FUNCTION"
    ensures var rest := After(t, tail);
            && (IsGlobal(rest) <==> t.Everything?)
            && (IsProc(rest) <==>
                (t.Database? && t.db == "MYSQL") || (t.Table? && t.db == "MYSQL" && t.table == "PROC"))
            && rest != "" && !Space(rest[0])
  {
    hide IsProc, Id;
    var rest := After(t, tail);
    match t
    case Everything =>
      assert rest == "*.* TO " + tail;
      TestsByFirst(rest);
    case Database(db) =>
      DatabaseTarget(db, tail);
      FirstIsBacktick(db, ".* TO " + tail);
      assert rest == Id(db) + (".* TO " + tail);
      TestsByFirst(rest);
    case Table(db, table) =>
      TableTarget(db, table, tail);
      FirstIsBacktick(db, "." + Id(table) + " TO " + tail);
      assert rest == Id(db) + ("." + Id(table) + " TO " + tail);
      TestsByFirst(rest);
    case Routine(kind, db, name) =>
      RoutineFirst(kind, db, name, tail);
      TestsByFirst(rest);
  }

  // ---------------------------------------------------- rows of each kind

  lemma GrantingText(privs: seq<Privilege>, tight: bool, target: Target, to: Account, option: bool)
    requires Printable(Granting(privs, tight, target, to, option))
    ensures Print(Granting(privs, tight, target, to, option))
         == "GRANT " + (PrivilegesText(privs, tight) + ON
             + After(target, AccountText(to) + OptionText(option, " WITH GRANT OPTION")))
  {
    hide PrivilegesText, TargetText, AccountText, OptionText;
    var list, t, acc, opt := PrivilegesText(privs, tight), TargetText(target), AccountText(to),
        OptionText(option, " WITH GRANT OPTION");
    Assoc("GRANT " + list + ON + t + " TO ", acc, opt);
    Assoc(t, " TO ", acc + opt);
    Assoc("GRANT " + list + ON, t, " TO ");
    Assoc("GRANT " + list + ON, t + " TO ", acc + opt);
    Assoc("GRANT ", list, ON);
    Assoc("GRANT ", list + ON, t + " TO " + (acc + opt));
  }

  lemma UpperOfBody(up: char -> char, list: string, t: Target, tail: string)
    requires UpperCase(up) && (t.Routine? ==> t.kind == "PROCEDURE" || t.kind == "FUNCTION")
    ensures Upper(up, list + ON + After(t, tail)) == Upper(up, list) + ON + After(UpperTarget(up, t), Upper(up, tail))
  {
    hide UpperCase, Upper, TargetText, UpperTarget, Capital, Solid;
    KeywordsAreCapital();
    UpperCapital(up, ON);
    UpperCapital(up, " TO ");
    UpperOfTarget(up, t);
    UpperConcat(up, list + ON, After(t, tail));
    UpperConcat(up, list, ON);
    UpperConcat(up, TargetText(t) + " TO ", tail);
    UpperConcat(up, TargetText(t), " TO ");
  }

  /** The row of a grant as the scanner sees it. */
  lemma GrantingRow(up: char -> char, privs: seq<Privilege>, tight: bool, target: Target, to: Account, option: bool)
    returns (tail: string)
    requires UpperCase(up) && Printable(Granting(privs, tight, target, to, option))
    ensures Row(up, Print(Granting(privs, tight, target, to, option)))
         == "GRANT " + (Upper(up, PrivilegesText(privs, tight)) + ON + After(UpperTarget(up, target), tail))
    ensures Solid(tail)
  {
    hide UpperCase, Upper, PrivilegesText, TargetText, AccountText, OptionText, Print, Row, Capital, Solid, After,
      UpperTarget, Space;
    var list, text := PrivilegesText(privs, tight), AccountText(to) + OptionText(option, " WITH GRANT OPTION");
    KeywordsAreCapital();
    TailIsSolid(to, option, " WITH GRANT OPTION");
    UpperIsSolid(up, text);
    AfterIsSolid(target, text);
    SolidConcat(list + ON, After(target, text));
    KeywordFirst();
    RowOfKeyword(up, "GRANT ", list + ON + After(target, text));
    UpperOfBody(up, list, target, text);
    GrantingText(privs, tight, target, to, option);
    tail := Upper(up, text);
  }

  lemma AfterIsSolid(t: Target, tail: string)
    requires Solid(tail)
    ensures Solid(After(t, tail))
  {
    SolidConcat(TargetText(t) + " TO ", tail);
  }

  lemma KeywordFirst()
    ensures !Space("GRANT "[0]) && !Space("REVOKE "[0])
  {
  }

  /** What the parts of a row prove. */
  lemma ProvesOfParts(row: string, list: string, before: string, rest: string, restricted: bool)
    requires GrantPrivileges(row, "GRANT ") == Some(list) && CutOn(row) == Some((before, rest))
    requires TrimSpace(rest) == rest
    ensures Proves(row, restricted) <==>
      || (IsGlobal(rest) && Has(list, "SHOW_ROUTINE"))
      || (IsGlobal(rest) && !restricted && (Has(list, "ALL PRIVILEGES") || Has(list, "SELECT")))
      || (IsProc(rest) && !restricted && Has(list, "SELECT"))
  {
    hide GrantPrivileges, CutOn, TrimSpace, IsGlobal, IsProc, Has;
  }

  lemma BareIsCapital(s: string)
    requires Bare(s)
    ensures Capital(s)
  {
  }

  lemma SolidAfterFirst(s: string)
    requires Solid(s) && !Space(s[0])
    ensures TrimSpace(s) == s
  {
    TrimOfTrimmed(s);
  }

  lemma StartsWithG(s: string)
    ensures "GRANT " + s != "" && ("GRANT " + s)[0] == 'G'
  {
  }

  lemma PrintedNames(privs: seq<Privilege>, tight: bool, target: Target, to: Account, option: bool)
    requires Printable(Granting(privs, tight, target, to, option))
    ensures privs != [] && (forall p :: p in privs ==> IsName(p.name))
    ensures target.Routine? ==> target.kind == "PROCEDURE" || target.kind == "FUNCTION"
  {
  }

  lemma GrantingPlain(up: char -> char, a: Ast, restricted: bool)
    requires UpperCase(up) && Printable(a) && a.Granting? && PlainOnly(a.privs)
    ensures !Restricts(Row(up, Print(a)))
    ensures Proves(Row(up, Print(a)), restricted) <==> Suffices(up, a, restricted)
  {
    hide UpperCase, Printable, Print, Row, PlainOnly, Upper, PrivilegesText, After, Has, Names, IsGlobal, IsProc,
      Clear, Bare, IsName,
      Solid, Capital, Proves, GrantPrivileges, CutOn, TrimSpace, Space;
    PrintedNames(a.privs, a.tight, a.target, a.to, a.option);
    var list := PrivilegesText(a.privs, a.tight);
    var tail := GrantingRow(up, a.privs, a.tight, a.target, a.to, a.option);
    PlainList(a.privs, a.tight);
    BareIsCapital(list);
    UpperCapital(up, list);
    var target := UpperTarget(up, a.target);
    var rest := After(target, tail);
    var row := Row(up, Print(a));
    WordHasNoSpace();
    PlainRow("GRANT ", "GRANT", list, rest);
    StartsWithG(list + ON + rest);
    OtherKeyword(row);
    TargetTests(target, tail);
    AfterIsSolid(target, tail);
    SolidAfterFirst(rest);
    ProvesOfParts(row, list, "GRANT " + list, rest, restricted);
    HasIsNames(a.privs, a.tight, "SHOW_ROUTINE");
    HasIsNames(a.privs, a.tight, "ALL PRIVILEGES");
    HasIsNames(a.privs, a.tight, "SELECT");
  }

  lemma WordHasNoSpace()
    ensures ' ' !in "GRANT" && ' ' !in "REVOKE"
    ensures "GRANT " == "GRANT" + " " && "REVOKE " == "REVOKE" + " "
  {
  }

  lemma GrantingColumns(up: char -> char, a: Ast, restricted: bool)
    requires UpperCase(up) && Printable(a) && a.Granting? && !PlainOnly(a.privs)
    ensures !Restricts(Row(up, Print(a))) && !Proves(Row(up, Print(a)), restricted)
  {
    hide UpperCase, Printable, Print, Row, PlainOnly, Upper, PrivilegesText, After, Clear, Bare, IsName, Solid, Capital,
      GrantPrivileges, CutOn, TrimSpace, UpperTarget, IsGlobal, IsProc, Has;
    PrintedNames(a.privs, a.tight, a.target, a.to, a.option);
    var list := PrivilegesText(a.privs, a.tight);
    var tail := GrantingRow(up, a.privs, a.tight, a.target, a.to, a.option);
    var x, y := ColumnList(a.privs, a.tight);
    ClearTail(x);
    BareIsCapital(x);
    UpperAroundTick(up, x, y);
    var rest := After(UpperTarget(up, a.target), tail);
    var row := Row(up, Print(a));
    Assoc(x + "`", Upper(up, y), ON);
    Assoc(x + "`", Upper(up, y) + ON, rest);
    QuotedList("GRANT ", x, Upper(up, y) + ON + rest);
    StartsWithG(Upper(up, list) + ON + rest);
    OtherKeyword(row);
  }

  lemma UpperAroundTick(up: char -> char, x: string, y: string)
    requires UpperCase(up) && Capital(x)
    ensures Upper(up, x + "`" + y) == x + "`" + Upper(up, y)
  {
    UpperCapital(up, x);
    UpperCapital(up, "`");
    UpperConcat(up, x + "`", y);
    UpperConcat(up, x, "`");
  }

  lemma AssigningText(a: Ast) returns (y: string)
    requires a.Assigning?
    ensures Print(a) == "GRANT " + ("" + "`" + y) && Solid("" + "`" + y)
  {
    hide AccountText, RolesText, OptionText, Solid;
    var acc, roles, opt := AccountText(a.to), RolesText(a.more), OptionText(a.option, " WITH ADMIN OPTION");
    var first := RoleStart(a.role);
    KeywordsAreCapital();
    TailIsSolid(a.to, a.option, " WITH ADMIN OPTION");
    y := first + roles + " TO " + acc + opt;
    assert Print(a) == "GRANT " + ("" + "`" + y);
    assert "" + "`" + y == ("`" + first + roles + " TO ") + (acc + opt);
    SolidConcat("`" + first + roles + " TO ", acc + opt);
  }

  lemma RoleStart(a: Account) returns (more: string)
    ensures AccountText(a) == "`" + more
  {
    more := Doubled('`', a.user) + "`@" + Id(a.host);
  }

  lemma AssigningRow(up: char -> char, a: Ast, restricted: bool)
    requires UpperCase(up) && a.Assigning?
    ensures !Restricts(Row(up, Print(a))) && !Proves(Row(up, Print(a)), restricted)
  {
    hide UpperCase, Print, Row, Upper, Clear, Bare, Solid, Capital, GrantPrivileges, CutOn, TrimSpace, IsGlobal,
      IsProc, Has, Space;
    var y := AssigningText(a);
    KeywordsAreCapital();
    KeywordFirst();
    RowOfKeyword(up, "GRANT ", "" + "`" + y);
    EmptyIsClear();
    UpperAroundTick(up, "", y);
    QuotedList("GRANT ", "", Upper(up, y));
    StartsWithG("" + "`" + Upper(up, y));
    OtherKeyword(Row(up, Print(a)));
  }

  lemma EmptyIsClear()
    ensures Clear("") && Bare("") && Capital("")
  {
  }

  lemma RevokingText(names: seq<string>, tight: bool, db: string, from: Account)
    requires Printable(Revoking(names, tight, db, from))
    ensures Print(Revoking(names, tight, db, from))
         == "REVOKE " + (PrivilegesText(AllPlain(names), tight) + ON
             + (TargetText(Database(db)) + " FROM " + AccountText(from)))
  {
    hide PrivilegesText, TargetText, AccountText;
    var list, t, acc := PrivilegesText(AllPlain(names), tight), TargetText(Database(db)), AccountText(from);
    Assoc(t, " FROM ", acc);
    Assoc("REVOKE " + list + ON, t, " FROM ");
    Assoc("REVOKE " + list + ON, t + " FROM ", acc);
    Assoc("REVOKE ", list, ON);
    Assoc("REVOKE ", list + ON, t + " FROM " + acc);
  }

  lemma RestrictsOfParts(row: string, list: string)
    requires GrantPrivileges(row, "REVOKE ") == Some(list)
    ensures Restricts(row) <==> Has(list, "SELECT") || Has(list, "ALL PRIVILEGES")
  {
    hide Has, GrantPrivileges;
  }

  lemma NamesOfPlain(names: seq<string>, want: string)
    ensures Names(AllPlain(names), want) <==> want in names
    ensures PlainOnly(AllPlain(names))
  {
    var privs := AllPlain(names);
    if want in names {
      var i :| 0 <= i < |names| && names[i] == want;
      assert privs[i].name == want;
    }
  }

  lemma RevokingNames(a: Ast)
    requires Printable(a) && a.Revoking?
    ensures AllPlain(a.names) != [] && forall p :: p in AllPlain(a.names) ==> IsName(p.name)
  {
    hide IsName;
  }

  lemma StartsWithR(s: string)
    ensures "REVOKE " + s != "" && ("REVOKE " + s)[0] == 'R'
  {
  }

  lemma RevokingRow(up: char -> char, a: Ast, restricted: bool)
    requires UpperCase(up) && Printable(a) && a.Revoking?
    ensures (Restricts(Row(up, Print(a))) <==> Revokes(a)) && !Proves(Row(up, Print(a)), restricted)
  {
    hide UpperCase, Printable, Print, Row, PlainOnly, Upper, PrivilegesText, Has, Names, IsGlobal, IsProc, Clear,
      Bare, IsName,
      Solid, Capital, GrantPrivileges, CutOn, TrimSpace, Space, TargetText, AccountText, AllPlain, Restricts;
    var privs := AllPlain(a.names);
    RevokingNames(a);
    var list := PrivilegesText(privs, a.tight);
    var rest := TargetText(Database(a.db)) + " FROM " + AccountText(a.from);
    NamesOfPlain(a.names, "SELECT");
    NamesOfPlain(a.names, "ALL PRIVILEGES");
    PlainList(privs, a.tight);
    BareIsCapital(list);
    UpperCapital(up, list);
    RevokingText(a.names, a.tight, a.db, a.from);
    AccountIsSolid(a.from);
    SolidConcat(TargetText(Database(a.db)) + " FROM ", AccountText(a.from));
    SolidConcat(list + ON, rest);
    KeywordsAreCapital();
    KeywordFirst();
    RowOfKeyword(up, "REVOKE ", list + ON + rest);
    UpperConcat(up, list + ON, rest);
    UpperConcat(up, list, ON);
    UpperCapital(up, ON);
    var row := Row(up, Print(a));
    WordHasNoSpace();
    PlainRow("REVOKE ", "REVOKE", list, Upper(up, rest));
    StartsWithR(list + ON + Upper(up, rest));
    OtherKeyword(row);
    RestrictsOfParts(row, list);
    HasIsNames(privs, a.tight, "SELECT");
    HasIsNames(privs, a.tight, "ALL PRIVILEGES");
  }

  /** On the rows a server prints, the scanner answers what the grants mean: some privilege
      row on no columns grants SHOW_ROUTINE everywhere or, unless some row takes SELECT away
      from a schema, everything or SELECT everywhere, or SELECT on the table of routines or
      its schema. */
  lemma ScannerIsExact(up: char -> char, rows: seq<Ast>, texts: seq<string>)
    requires UpperCase(up) && |texts| == |rows|
    requires forall i :: 0 <= i < |rows| ==> Printable(rows[i]) && texts[i] == Print(rows[i])
    ensures AnyProves(up, texts, AnyRestricts(up, texts)) <==> Sufficient(up, rows)
    ensures AnyProves(up, texts, AnyRestricts(up, texts)) <==>
              var revoked := exists r :: r in rows && r.Revoking?
                                         && ("SELECT" in r.names || "ALL PRIVILEGES" in r.names);
              exists r :: r in rows && r.Granting? && (forall p :: p in r.privs ==> p.Plain?) &&
                (|| (r.target.Everything? && Plain("SHOW_ROUTINE") in r.privs)
                 || (!revoked && r.target.Everything?
                     && (Plain("ALL PRIVILEGES") in r.privs || Plain("SELECT") in r.privs))
                 || (!revoked && Plain("SELECT") in r.privs
                     && (|| (r.target.Database? && Upper(up, r.target.db) == "MYSQL")
                         || (r.target.Table? && Upper(up, r.target.db) == "MYSQL"
                             && Upper(up, r.target.table) == "PROC"))))
  {
    hide UpperCase, Printable, Restricts, Proves, Row, Revokes, Suffices, Print;
    forall i | 0 <= i < |rows|
      ensures Restricts(Row(up, texts[i])) <==> Revokes(rows[i])
      ensures forall restricted :: Proves(Row(up, texts[i]), restricted) <==> Suffices(up, rows[i], restricted)
    {
      RowIsExact(up, rows[i], true);
      RowIsExact(up, rows[i], false);
    }
    SufficientMeans(up, rows);
  }

  /** The table of routines and its schema count without quotes too. */
  lemma UnquotedTargets(privs: seq<Privilege>, tight: bool, target: string, rest: string, restricted: bool)
    requires privs != [] && PlainOnly(privs) && forall p :: p in privs ==> IsName(p.name)
    requires target == "MYSQL.PROC" || target == "MYSQL.*"
    requires TrimSpace(target + " TO " + rest) == target + " TO " + rest
    ensures Proves("GRANT " + (PrivilegesText(privs, tight) + " ON " + (target + " TO " + rest)), restricted)
       <==> !restricted && Plain("SELECT") in privs
  {
    hide GrantPrivileges, CutOn, TrimSpace, Has, Names, IsName, PrivilegesText, Clear, Bare, Proves, PlainOnly, IsGlobal,
      IsProc;
    var list, after := PrivilegesText(privs, tight), target + " TO " + rest;
    PlainList(privs, tight);
    WordHasNoSpace();
    PlainRow("GRANT ", "GRANT", list, after);
    UnquotedTests(target, rest);
    ProvesOfParts("GRANT " + (list + ON + after), list, "GRANT " + list, after, restricted);
    HasIsNames(privs, tight, "SELECT");
    NamesMean(privs, "SELECT");
  }

  lemma UnquotedTests(target: string, rest: string)
    requires target == "MYSQL.PROC" || target == "MYSQL.*"
    ensures IsProc(target + " TO " + rest) && !IsGlobal(target + " TO " + rest)
  {
    var after := target + " TO " + rest;
    assert after[0] == 'M' && "*.* TO "[0] == '*';
    if target == "MYSQL.PROC" {
      assert "MYSQL.PROC" + " TO " == "MYSQL.PROC TO ";
    } else {
      assert "MYSQL.*" + " TO " == "MYSQL.* TO ";
    }
  }

  /** White space around the rows changes nothing. */
  lemma PaddedRows(up: char -> char, rows: seq<string>, padded: seq<string>, restricted: bool)
    requires |padded| == |rows|
    requires forall i :: 0 <= i < |rows| ==>
      exists x: string, y: string :: Blank(x) && Blank(y) && padded[i] == x + rows[i] + y
    ensures AnyRestricts(up, padded) <==> AnyRestricts(up, rows)
    ensures AnyProves(up, padded, restricted) <==> AnyProves(up, rows, restricted)
  {
    hide Restricts, Proves, Upper, TrimSpace, Blank;
    forall i | 0 <= i < |rows|
      ensures Row(up, padded[i]) == Row(up, rows[i])
    {
      var x: string, y: string :| Blank(x) && Blank(y) && padded[i] == x + rows[i] + y;
      TrimPadded(x, rows[i], y);
    }
  }

  lemma NamesMean(privs: seq<Privilege>, want: string)
    requires PlainOnly(privs)
    ensures Names(privs, want) <==> Plain(want) in privs
  {
    if Names(privs, want) {
      var i :| 0 <= i < |privs| && privs[i].name == want;
      assert privs[i] in privs;
    }
  }

  lemma SufficesMeans(up: char -> char, r: Ast, revoked: bool)
    ensures Suffices(up, r, revoked) <==>
              && r.Granting? && (forall p :: p in r.privs ==> p.Plain?) &&
                (|| (r.target.Everything? && Plain("SHOW_ROUTINE") in r.privs)
                 || (!revoked && r.target.Everything?
                     && (Plain("ALL PRIVILEGES") in r.privs || Plain("SELECT") in r.privs))
                 || (!revoked && Plain("SELECT") in r.privs
                     && (|| (r.target.Database? && Upper(up, r.target.db) == "MYSQL")
                         || (r.target.Table? && Upper(up, r.target.db) == "MYSQL"
                             && Upper(up, r.target.table) == "PROC"))))
  {
    hide Upper, Names;
    if r.Granting? && PlainOnly(r.privs) {
      NamesMean(r.privs, "SHOW_ROUTINE");
      NamesMean(r.privs, "ALL PRIVILEGES");
      NamesMean(r.privs, "SELECT");
    }
  }

  lemma SufficientMeans(up: char -> char, rows: seq<Ast>)
    ensures Sufficient(up, rows) <==>
              var revoked := exists r :: r in rows && r.Revoking?
                                         && ("SELECT" in r.names || "ALL PRIVILEGES" in r.names);
              exists r :: r in rows && r.Granting? && (forall p :: p in r.privs ==> p.Plain?) &&
                (|| (r.target.Everything? && Plain("SHOW_ROUTINE") in r.privs)
                 || (!revoked && r.target.Everything?
                     && (Plain("ALL PRIVILEGES") in r.privs || Plain("SELECT") in r.privs))
                 || (!revoked && Plain("SELECT") in r.privs
                     && (|| (r.target.Database? && Upper(up, r.target.db) == "MYSQL")
                         || (r.target.Table? && Upper(up, r.target.db) == "MYSQL"
                             && Upper(up, r.target.table) == "PROC"))))
  {
    hide Suffices, Upper;
    var revoked := exists r :: r in rows && r.Revoking? && ("SELECT" in r.names || "ALL PRIVILEGES" in r.names);
    assert revoked <==> SomeRevokes(rows);
    forall r | r in rows
      ensures Suffices(up, r, revoked) <==>
                && r.Granting? && (forall p :: p in r.privs ==> p.Plain?) &&
                  (|| (r.target.Everything? && Plain("SHOW_ROUTINE") in r.privs)
                   || (!revoked && r.target.Everything?
                       && (Plain("ALL PRIVILEGES") in r.privs || Plain("SELECT") in r.privs))
                   || (!revoked && Plain("SELECT") in r.privs
                       && (|| (r.target.Database? && Upper(up, r.target.db) == "MYSQL")
                           || (r.target.Table? && Upper(up, r.target.db) == "MYSQL"
                               && Upper(up, r.target.table) == "PROC"))))
    {
      SufficesMeans(up, r, revoked);
    }
  }

  lemma RowIsExact(up: char -> char, a: Ast, restricted: bool)
    requires UpperCase(up) && Printable(a)
    ensures Restricts(Row(up, Print(a))) <==> Revokes(a)
    ensures Proves(Row(up, Print(a)), restricted) <==> Suffices(up, a, restricted)
  {
    hide UpperCase, Printable, Restricts, Proves, Row, Print, PlainOnly;
    match a
    case Granting(privs, _, _, _, _) =>
      if PlainOnly(privs) {
        GrantingPlain(up, a, restricted);
      } else {
        GrantingColumns(up, a, restricted);
      }
    case Revoking(_, _, _, _) => RevokingRow(up, a, restricted);
    case Assigning(_, _, _, _) => AssigningRow(up, a, restricted);
  }

  // --------------------------------------- names compared as they are spelt

  /** The system's own table of routines, or its schema, spelt as the server spells them. */
  predicate OnMysqlProc(t: Target) {
    (t.Database? && t.db == "mysql") || (t.Table? && t.db == "mysql" && t.table == "proc")
  }

  /** What a grant means where names are case-sensitive. */
  predicate SufficesLiterally(a: Ast, restricted: bool) {
    a.Granting? && PlainOnly(a.privs) &&
    (|| (a.target.Everything? && Names(a.privs, "SHOW_ROUTINE"))
     || (a.target.Everything? && !restricted && (Names(a.privs, "ALL PRIVILEGES") || Names(a.privs, "SELECT")))
     || (OnMysqlProc(a.target) && !restricted && Names(a.privs, "SELECT")))
  }

  /** A SELECT on names that only fold to those of the system. */
  predicate Lookalike(up: char -> char, a: Ast) {
    a.Granting? && PlainOnly(a.privs) && Names(a.privs, "SELECT") && OnProc(up, a.target) && !OnMysqlProc(a.target)
  }

  lemma MysqlFolds(up: char -> char, t: Target)
    requires UpperCase(up) && OnMysqlProc(t)
    ensures OnProc(up, t)
  {
    assert Upper(up, "mysql") == "MYSQL" && Upper(up, "proc") == "PROC";
  }

  lemma LiteralOrLookalike(up: char -> char, a: Ast, restricted: bool)
    requires UpperCase(up)
    ensures Suffices(up, a, restricted) <==> SufficesLiterally(a, restricted) || (!restricted && Lookalike(up, a))
  {
    hide UpperCase, OnProc, OnMysqlProc, Names, PlainOnly;
    if a.Granting? && OnMysqlProc(a.target) {
      MysqlFolds(up, a.target);
    }
  }

  predicate LiterallySufficient(rows: seq<Ast>) {
    exists i :: 0 <= i < |rows| && SufficesLiterally(rows[i], SomeRevokes(rows))
  }

  predicate SomeLookalike(up: char -> char, rows: seq<Ast>) {
    exists i :: 0 <= i < |rows| && Lookalike(up, rows[i])
  }

  /** With names as they are spelt the meaning holds, or nothing is revoked and some SELECT is
      on a lookalike, exactly if the meaning in upper case holds. */
  lemma SpellingAndFolding(up: char -> char, rows: seq<Ast>)
    requires UpperCase(up)
    ensures Sufficient(up, rows) <==> LiterallySufficient(rows) || (!SomeRevokes(rows) && SomeLookalike(up, rows))
  {
    hide UpperCase, Revokes, Suffices, SufficesLiterally, Lookalike;
    var restricted := SomeRevokes(rows);
    forall i | 0 <= i < |rows|
      ensures Suffices(up, rows[i], restricted)
         <==> SufficesLiterally(rows[i], restricted) || (!restricted && Lookalike(up, rows[i]))
    {
      LiteralOrLookalike(up, rows[i], restricted);
    }
  }

  /** Where names are case-sensitive the scanner never says no wrongly, and it says yes wrongly
      exactly if nothing suffices, nothing is revoked, and some SELECT is on a lookalike. */
  lemma ScannerAgainstSpelling(up: char -> char, rows: seq<Ast>, texts: seq<string>)
    requires UpperCase(up) && |texts| == |rows|
    requires forall i :: 0 <= i < |rows| ==> Printable(rows[i]) && texts[i] == Print(rows[i])
    ensures AnyProves(up, texts, AnyRestricts(up, texts))
       <==> LiterallySufficient(rows) || (!SomeRevokes(rows) && SomeLookalike(up, rows))
  {
    hide UpperCase, Printable, Print, AnyProves, AnyRestricts, Sufficient, LiterallySufficient, SomeRevokes,
      SomeLookalike;
    ScannerIsExact(up, rows, texts);
    SpellingAndFolding(up, rows);
  }

  function SelectOn(db: string, to: Account): Ast {
    Granting([Plain("SELECT")], true, Database(db), to, false)
  }

  /** Two such names: one in other capitals, one spelt with the long s, whose capital is S. */
  lemma LookalikeAccepted(up: char -> char, to: Account, db: string)
    requires UpperCase(up) && (db == "MySQL" || (up(0x17f as char) == 'S' && db == ['m', 'y', 0x17f as char, 'q', 'l']))
    ensures Printable(SelectOn(db, to)) && Lookalike(up, SelectOn(db, to))
    ensures Proves(Row(up, Print(SelectOn(db, to))), false)
  {
    var row := SelectOn(db, to);
    SelectIsName();
    assert Upper(up, db) == "MYSQL";
    assert row.privs[0].name == "SELECT";
    GrantingPlain(up, row, false);
  }

  lemma SelectIsName()
    ensures IsName("SELECT")
  {
    var s := " SELECT ";
    assert s[2] == 'E' && s[1] == 'S' && s[3] == 'L' && s[4] == 'E' && s[5] == 'C';
    assert " " + "SELECT" + " " == s;
    forall i | 0 <= i <= |s| - 4
      ensures s[i..][..4] != ON
    {
      assert s[i..][..4][1] == s[i + 1] && ON[1] == 'O';
    }
  }
}
