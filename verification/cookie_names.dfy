/**
 * The name of the cookie that holds a broker's client token
 * (`LaravelSSOBroker::getCookieName`): `sso_token_` followed by the broker
 * name, lower-cased, with every run of characters matched by `[_\W]`
 * replaced by one `_`. The name is derived from the broker so that several
 * brokers served from one domain do not share a cookie.
 *
 * `strtolower` and the PCRE class `\w` are taken in their ASCII form: `\w`
 * is ASCII letters, digits and `_`, so `[_\W]` is every character other than
 * an ASCII letter or digit.
 */
module CookieNames {

  const Prefix := "sso_token_"

  predicate IsUpper(c: char) {
    'A' <= c <= 'Z'
  }

  /** The characters that `[_\W]` does not match. */
  predicate IsAlnum(c: char) {
    'a' <= c <= 'z' || 'A' <= c <= 'Z' || '0' <= c <= '9'
  }

  /** No upper-case letter anywhere in `s`. */
  predicate NoUpper(s: string) {
    forall i :: 0 <= i < |s| ==> !IsUpper(s[i])
  }

  /**
   * The shape of a replaced name: only letters, digits and `_`, and never two
   * `_` in a row.
   */
  predicate IsCollapsed(s: string) {
    && (forall i :: 0 <= i < |s| ==> s[i] == '_' || IsAlnum(s[i]))
    && (forall i :: 0 < i < |s| ==> s[i - 1] != '_' || s[i] != '_')
  }

  /** The letters and digits of `s`, in order. */
  function Alnums(s: string): (r: string)
    ensures |r| <= |s|
  {
    if s == "" then ""
    else if IsAlnum(s[0]) then [s[0]] + Alnums(s[1..])
    else Alnums(s[1..])
  }

  function LowerChar(c: char): (d: char)
    ensures !IsUpper(d)
    ensures IsAlnum(d) == IsAlnum(c)
    ensures !IsUpper(c) ==> d == c
  {
    if IsUpper(c) then (c as int - 'A' as int + 'a' as int) as char else c
  }

  /** `strtolower`. */
  function Lower(s: string): (r: string)
    ensures |r| == |s|
    ensures forall i :: 0 <= i < |s| ==> r[i] == LowerChar(s[i])
  {
    if s == "" then "" else [LowerChar(s[0])] + Lower(s[1..])
  }

  /** The rest of `s` after its leading run of `[_\W]` characters. */
  function SkipSeparators(s: string): (r: string)
    ensures |r| <= |s| && r == s[|s| - |r|..]
    ensures r == "" || IsAlnum(r[0])
    ensures s != "" && !IsAlnum(s[0]) ==> |r| < |s|
    ensures Alnums(r) == Alnums(s)
  {
    if s != "" && !IsAlnum(s[0]) then SkipSeparators(s[1..]) else s
  }

  /**
   * `preg_replace('/[_\W]+/', '_', s)`: every maximal run of `[_\W]`
   * characters becomes a single `_`; letters and digits are kept in order.
   */
  function Collapse(s: string): (r: string)
    ensures r == "" <==> s == ""
    ensures s != "" && IsAlnum(s[0]) ==> r[0] == s[0]
    ensures s != "" && !IsAlnum(s[0]) ==> r[0] == '_'
    decreases |s|
  {
    if s == "" then ""
    else if IsAlnum(s[0]) then [s[0]] + Collapse(s[1..])
    else "_" + Collapse(SkipSeparators(s))
  }

  /** Putting a letter, a digit or a `_` not followed by `_` in front keeps the collapsed shape. */
  lemma ConsCollapsed(h: char, c: string)
    requires IsCollapsed(c)
    requires h == '_' || IsAlnum(h)
    requires h == '_' && c != "" ==> c[0] != '_'
    ensures IsCollapsed([h] + c)
  {
    var r := [h] + c;
    forall i | 0 < i < |r| ensures r[i - 1] != '_' || r[i] != '_' {
      if i > 1 {
        assert r[i - 1] == c[i - 2] && r[i] == c[i - 1];
      }
    }
  }

  /** The replacement produces only letters, digits and `_`, and never two `_` in a row. */
  lemma {:induction false} CollapseShape(s: string)
    ensures IsCollapsed(Collapse(s))
    decreases |s|
  {
    if s != "" {
      var t := if IsAlnum(s[0]) then s[1..] else SkipSeparators(s);
      CollapseShape(t);
      ConsCollapsed(Collapse(s)[0], Collapse(t));
      assert Collapse(s) == [Collapse(s)[0]] + Collapse(t);
    }
  }

  lemma ConsNoUpper(h: char, c: string)
    requires !IsUpper(h) && NoUpper(c)
    ensures NoUpper([h] + c)
  {
    var r := [h] + c;
    forall i | 0 < i < |r| ensures !IsUpper(r[i]) {
      assert r[i] == c[i - 1];
    }
  }

  /** The replacement adds no upper-case letter. */
  lemma {:induction false} CollapseNoUpper(s: string)
    requires NoUpper(s)
    ensures NoUpper(Collapse(s))
    decreases |s|
  {
    if s != "" {
      var t := if IsAlnum(s[0]) then s[1..] else SkipSeparators(s);
      var k := |s| - |t|;
      assert t == s[k..];
      assert NoUpper(t) by {
        forall i | 0 <= i < |t| ensures !IsUpper(t[i]) {
          assert t[i] == s[k + i];
        }
      }
      CollapseNoUpper(t);
      ConsNoUpper(Collapse(s)[0], Collapse(t));
      assert Collapse(s) == [Collapse(s)[0]] + Collapse(t);
    }
  }

  /** The replacement keeps the letters and digits of its input, in order. */
  lemma {:induction false} CollapseAlnums(s: string)
    ensures Alnums(Collapse(s)) == Alnums(s)
    decreases |s|
  {
    if s != "" {
      if IsAlnum(s[0]) {
        CollapseAlnums(s[1..]);
        assert Collapse(s)[1..] == Collapse(s[1..]);
      } else {
        var t := SkipSeparators(s);
        CollapseAlnums(t);
        assert Collapse(s)[1..] == Collapse(t);
      }
    }
  }

  /** The normalised broker name: `preg_replace('/[_\W]+/', '_', strtolower(name))`. */
  function Normalize(name: string): (r: string)
    ensures NoUpper(r)
    ensures IsCollapsed(r)
    ensures Alnums(r) == Alnums(Lower(name))
  {
    CollapseShape(Lower(name));
    CollapseAlnums(Lower(name));
    CollapseNoUpper(Lower(name));
    Collapse(Lower(name))
  }

  /** `getCookieName` for a broker called `name`. */
  function CookieName(name: string): (r: string)
    ensures |r| >= |Prefix| && r[..|Prefix|] == Prefix
    ensures NoUpper(r[|Prefix|..]) && IsCollapsed(r[|Prefix|..])
  {
    Prefix + Normalize(name)
  }

  // ---------------------------------------------------------------- properties

  lemma LowerOfLowerCase(s: string)
    requires NoUpper(s)
    ensures Lower(s) == s
  {
  }

  lemma CollapsedTail(s: string)
    requires s != "" && IsCollapsed(s)
    ensures IsCollapsed(s[1..])
  {
    var t := s[1..];
    forall i | 0 < i < |t| ensures t[i - 1] != '_' || t[i] != '_' {
      assert t[i - 1] == s[i] && t[i] == s[i + 1];
    }
  }

  lemma {:induction false} CollapseOfCollapsed(s: string)
    requires IsCollapsed(s)
    ensures Collapse(s) == s
    decreases |s|
  {
    if s != "" {
      var t := s[1..];
      CollapsedTail(s);
      CollapseOfCollapsed(t);
      if IsAlnum(s[0]) {
        calc {
          Collapse(s);
          [s[0]] + Collapse(t);
          [s[0]] + t;
          s;
        }
      } else {
        assert s[0] == '_';
        assert t != "" ==> IsAlnum(t[0]) by {
          if t != "" {
            assert s[1] == t[0];
            assert s[0] != '_' || s[1] != '_';
          }
        }
        assert SkipSeparators(t) == t;
        assert SkipSeparators(s) == t;
        calc {
          Collapse(s);
          "_" + Collapse(t);
          "_" + t;
          s;
        }
      }
    }
  }

  /** A string already in the collapsed shape is left alone by the replacement, and only such a string is. */
  lemma CollapseFixpoints(s: string)
    ensures Collapse(s) == s <==> IsCollapsed(s)
  {
    CollapseShape(s);
    if IsCollapsed(s) {
      CollapseOfCollapsed(s);
    }
  }

  /** Normalising a normalised name changes nothing. */
  lemma NormalizeIdempotent(name: string)
    ensures Normalize(Normalize(name)) == Normalize(name)
  {
    var n := Normalize(name);
    LowerOfLowerCase(n);
    CollapseFixpoints(n);
  }

  /** A broker name and its normalised form share one cookie. */
  lemma CookieNameOfNormalized(name: string)
    ensures CookieName(Normalize(name)) == CookieName(name)
  {
    NormalizeIdempotent(name);
  }

  /** Two brokers share one cookie exactly when their names normalise alike. */
  lemma SharedCookie(a: string, b: string)
    ensures CookieName(a) == CookieName(b) <==> Normalize(a) == Normalize(b)
  {
    if CookieName(a) == CookieName(b) {
      assert CookieName(a)[|Prefix|..] == Normalize(a);
      assert CookieName(b)[|Prefix|..] == Normalize(b);
    }
  }

  /** A separator between letters is kept, so `ab` and `a-b` get different cookies. */
  lemma SeparatorSplitsCookies()
    ensures CookieName("ab") != CookieName("a-b")
  {
    assert Lower("ab") == "ab";
    assert Lower("a-b") == "a-b";
    CollapseFixpoints("ab");
    assert Collapse("a-b") == "a" + Collapse("-b");
    assert Normalize("ab")[1] != Normalize("a-b")[1];
    SharedCookie("ab", "a-b");
  }

  lemma CookieNameAcme()
    ensures CookieName("Acme") == "sso_token_acme"
  {
    assert Lower("Acme") == "acme";
    assert Collapse("acme") == "acme" by {
      CollapseFixpoints("acme");
    }
  }
}
