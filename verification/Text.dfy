/** Byte strings. A Go string is a sequence of bytes; here a char stands for a byte, and
    every result holds for all chars. */
module Text {

  /** Strict byte order of strings, the order of S3 listings and of Go's `<`. */
  predicate Below(s: string, t: string) {
    t != [] && (s == [] || s[0] < t[0] || (s[0] == t[0] && Below(s[1..], t[1..])))
  }

  /** The order decides at the first difference; a proper prefix comes first. */
  lemma {:induction false} BelowMeans(s: string, t: string)
    ensures Below(s, t)
       <==> exists n: nat :: n <= |s| && n < |t| && s[..n] == t[..n] && (n == |s| || s[n] < t[n])
  {
    if s == [] || t == [] || s[0] != t[0] {
      if s == [] && t != [] {
        assert s[..0] == t[..0];
      } else if t != [] && s[0] < t[0] {
        assert s[..0] == t[..0];
      }
      forall n: nat | n <= |s| && n < |t| && s[..n] == t[..n] && (n == |s| || s[n] < t[n])
        ensures Below(s, t)
      {
        if n > 0 {
          assert s[..n][0] == t[..n][0];
        }
      }
    } else {
      BelowMeans(s[1..], t[1..]);
      forall n: nat | n < |s| && n < |t| - 1 && s[1..][..n] == t[1..][..n]
        ensures s[..n + 1] == t[..n + 1]
      {
        assert s[..n + 1] == [s[0]] + s[1..][..n] && t[..n + 1] == [t[0]] + t[1..][..n];
      }
      forall n: nat | 0 < n <= |s| && n < |t| && s[..n] == t[..n]
        ensures s[1..][..n - 1] == t[1..][..n - 1]
      {
        assert s[1..][..n - 1] == s[..n][1..] && t[1..][..n - 1] == t[..n][1..];
      }
    }
  }

  lemma {:induction false} BelowIrreflexive(s: string)
    ensures !Below(s, s)
  {
    if s == [] {
    } else {
      BelowIrreflexive(s[1..]);
    }
  }

  lemma {:induction false} BelowTotal(s: string, t: string)
    ensures s == t || Below(s, t) || Below(t, s)
  {
    if s == [] || t == [] || s[0] != t[0] {
    } else {
      BelowTotal(s[1..], t[1..]);
      assert s == [s[0]] + s[1..] && t == [t[0]] + t[1..];
    }
  }

  lemma {:induction false} BelowTransitive(s: string, t: string, u: string)
    requires Below(s, t) && Below(t, u)
    ensures Below(s, u)
  {
    if s == [] || s[0] != t[0] || t[0] != u[0] {
    } else {
      BelowTransitive(s[1..], t[1..], u[1..]);
    }
  }

  lemma BelowAsymmetric(s: string, t: string)
    requires Below(s, t)
    ensures !Below(t, s)
  {
    if Below(t, s) {
      BelowTransitive(s, t, s);
      BelowIrreflexive(s);
    }
  }

  lemma {:induction false} BelowCommonPrefix(p: string, s: string, t: string)
    ensures Below(p + s, p + t) <==> Below(s, t)
  {
    if p == [] {
      assert p + s == s && p + t == t;
    } else {
      assert (p + s)[1..] == p[1..] + s && (p + t)[1..] == p[1..] + t;
      BelowCommonPrefix(p[1..], s, t);
    }
  }

  /** What lies between two strings with a common prefix has that prefix too. */
  lemma {:induction false} BetweenSharesPrefix(p: string, s: string, t: string, m: string)
    requires Below(p + s, m) && Below(m, p + t)
    ensures p <= m
  {
    if p == [] {
    } else {
      assert (p + s)[1..] == p[1..] + s && (p + t)[1..] == p[1..] + t;
      BetweenSharesPrefix(p[1..], s, t, m[1..]);
    }
  }

  predicate HasSuffix(s: string, suffix: string) {
    |suffix| <= |s| && s[|s| - |suffix|..] == suffix
  }

  function TrimSuffix(s: string, suffix: string): string {
    if HasSuffix(s, suffix) then s[..|s| - |suffix|] else s
  }

  lemma TrimSuffixOfConcat(s: string, suffix: string)
    ensures HasSuffix(s + suffix, suffix)
    ensures TrimSuffix(s + suffix, suffix) == s
  {
  }

  lemma SuffixSplit(s: string, suffix: string)
    requires HasSuffix(s, suffix)
    ensures s == TrimSuffix(s, suffix) + suffix
  {
  }

  // ----------------------------------------------------------- white space

  /** White space as Go's unicode.IsSpace has it; chars are code points here. */
  predicate Space(c: char) {
    var n := c as int;
    || 9 <= n <= 13 || n == 0x20 || n == 0x85 || n == 0xA0
    || n == 0x1680 || 0x2000 <= n <= 0x200A || n == 0x2028 || n == 0x2029 || n == 0x202F || n == 0x205F || n == 0x3000
  }

  function TrimLeft(s: string): string {
    if s != "" && Space(s[0]) then TrimLeft(s[1..]) else s
  }

  function TrimRight(s: string): string {
    if s != "" && Space(s[|s| - 1]) then TrimRight(s[..|s| - 1]) else s
  }

  function TrimSpace(s: string): string {
    TrimRight(TrimLeft(s))
  }

  lemma {:induction false} TrimRightEnd(s: string)
    ensures TrimRight(s) <= s
    ensures TrimRight(s) != "" ==> !Space(TrimRight(s)[|TrimRight(s)| - 1])
  {
    if s == "" || !Space(s[|s| - 1]) {
    } else {
      TrimRightEnd(s[..|s| - 1]);
    }
  }

  /** Trimming on the right stops at text that does not end in white space. */
  lemma {:induction false} TrimRightAfter(s: string, t: string)
    requires s != "" && !Space(s[|s| - 1])
    ensures TrimRight(s + t) == s + TrimRight(t)
  {
    if t == "" {
      assert s + t == s;
    } else {
      var front := t[..|t| - 1];
      assert (s + t)[..|s + t| - 1] == s + front;
      TrimRightAfter(s, front);
    }
  }

  predicate Blank(s: string) {
    forall i :: 0 <= i < |s| ==> Space(s[i])
  }

  lemma {:induction false} TrimLeftPadded(pad: string, s: string)
    requires Blank(pad)
    ensures TrimLeft(pad + s) == TrimLeft(s)
  {
    if pad == "" {
      assert pad + s == s;
    } else {
      assert (pad + s)[1..] == pad[1..] + s && Space((pad + s)[0]);
      TrimLeftPadded(pad[1..], s);
    }
  }

  lemma {:induction false} TrimRightPadded(s: string, pad: string)
    requires Blank(pad)
    ensures TrimRight(s + pad) == TrimRight(s)
  {
    if pad == "" {
      assert s + pad == s;
    } else {
      var n := |pad| - 1;
      assert (s + pad)[..|s| + n] == s + pad[..n] && Space(pad[n]);
      TrimRightPadded(s, pad[..n]);
    }
  }

  lemma {:induction false} TrimLeftOfMore(s: string, pad: string)
    requires Blank(pad)
    ensures TrimLeft(s + pad) == if Blank(s) then "" else TrimLeft(s) + pad
    ensures Blank(s) ==> TrimLeft(s) == ""
  {
    if s == "" {
      assert s + pad == pad + "";
      TrimLeftPadded(pad, "");
    } else {
      assert (s + pad)[1..] == s[1..] + pad && (s + pad)[0] == s[0];
      TrimLeftOfMore(s[1..], pad);
      if Space(s[0]) {
        assert Blank(s) <==> Blank(s[1..]) by { BlankStep(s); }
      }
    }
  }

  lemma BlankStep(s: string)
    requires s != "" && Space(s[0])
    ensures Blank(s) <==> Blank(s[1..])
  {
    assert forall i :: 0 < i < |s| ==> s[i] == s[1..][i - 1];
  }

  /** White space around a text does not matter once it is trimmed, and what is left neither
      begins nor ends with any. */
  lemma TrimPadded(pad: string, s: string, pad': string)
    requires Blank(pad) && Blank(pad')
    ensures TrimSpace(pad + s + pad') == TrimSpace(s)
    ensures TrimSpace(s) != "" ==> !Space(TrimSpace(s)[0]) && !Space(TrimSpace(s)[|TrimSpace(s)| - 1])
  {
    assert pad + s + pad' == pad + (s + pad');
    TrimLeftPadded(pad, s + pad');
    TrimLeftOfMore(s, pad');
    TrimRightPadded(TrimLeft(s), pad');
    TrimRightEnd(TrimLeft(s));
    TrimLeftStart(s);
  }

  lemma {:induction false} TrimLeftStart(s: string)
    ensures TrimLeft(s) != "" ==> !Space(TrimLeft(s)[0])
  {
    if s == "" || !Space(s[0]) {
    } else {
      TrimLeftStart(s[1..]);
    }
  }
}
