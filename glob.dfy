/** Shell-style matching of a base name against an exclude pattern, as
    `filepath.Match` does it for the pattern forms this model covers:
    `*` matches any run of characters other than the separator `/`, `?`
    matches one character other than `/`, and every other character matches
    itself. */
module Glob {

  const Separator: char := '/'

  /** A pattern character with no special meaning. */
  predicate IsLiteral(c: char) {
    c != '*' && c != '?'
  }

  /** A pattern made of literal characters only. */
  predicate NoMeta(p: string) {
    forall i :: 0 <= i < |p| ==> IsLiteral(p[i])
  }

  /** Does `name` match `pattern` as a whole? Neither `*` nor `?` crosses a
      separator, so a name holding one matches only a pattern holding one. */
  function Match(pattern: string, name: string): (r: bool)
    ensures r && Separator in name ==> Separator in pattern
    decreases |pattern| + |name|
  {
    if pattern == [] then name == []
    else if pattern[0] == '*' then
      Match(pattern[1..], name) || (name != [] && name[0] != Separator && Match(pattern, name[1..]))
    else if name == [] then false
    else if pattern[0] == '?' then name[0] != Separator && Match(pattern[1..], name[1..])
    else pattern[0] == name[0] && Match(pattern[1..], name[1..])
  }

  /** A pattern without `*` or `?` matches exactly itself. */
  lemma {:induction false} MatchLiteral(p: string, s: string)
    requires NoMeta(p)
    ensures Match(p, s) <==> s == p
  {
    if p != [] && s != [] {
      assert IsLiteral(p[0]);
      MatchLiteral(p[1..], s[1..]);
      if s == p {
        assert s[1..] == p[1..];
      }
      if s[1..] == p[1..] && s[0] == p[0] {
        assert s == [s[0]] + s[1..] && p == [p[0]] + p[1..];
      }
    } else if p != [] {
      assert IsLiteral(p[0]);
    }
  }

  /** A literal prefix of the pattern must be a prefix of the name, and the
      rest of the pattern must match the rest of the name. */
  lemma {:induction false} MatchLiteralPrefix(pre: string, q: string, s: string)
    requires NoMeta(pre)
    ensures Match(pre + q, s) <==> |pre| <= |s| && s[..|pre|] == pre && Match(q, s[|pre|..])
  {
    if pre == [] {
      assert pre + q == q;
      assert s[..0] == [] && s[0..] == s;
    } else {
      assert IsLiteral(pre[0]);
      assert (pre + q)[0] == pre[0];
      assert (pre + q)[1..] == pre[1..] + q;
      if s != [] {
        MatchLiteralPrefix(pre[1..], q, s[1..]);
        if |pre| <= |s| {
          assert s[1..][|pre| - 1..] == s[|pre|..];
          assert s[..|pre|] == [s[0]] + s[1..][..|pre| - 1];
          assert pre == [pre[0]] + pre[1..];
        }
      }
    }
  }

  /** `*` followed by a literal suffix matches exactly the names that end in
      that suffix and hold no separator before it. */
  lemma {:induction false} MatchStarSuffix(suf: string, t: string)
    requires NoMeta(suf)
    ensures Match("*" + suf, t) <==>
              |suf| <= |t| && t[|t| - |suf|..] == suf && Separator !in t[..|t| - |suf|]
    decreases |t|
  {
    var p := "*" + suf;
    assert p[0] == '*' && p[1..] == suf;
    MatchLiteral(suf, t);
    if t == [] {
    } else if |suf| == |t| {
      assert t[..0] == [] && t[0..] == t;
      MatchStarSuffix(suf, t[1..]);
    } else if |suf| < |t| {
      MatchStarSuffix(suf, t[1..]);
      assert t[1..][|t| - 1 - |suf|..] == t[|t| - |suf|..];
      assert t[..|t| - |suf|] == [t[0]] + t[1..][..|t| - 1 - |suf|];
    } else {
      MatchStarSuffix(suf, t[1..]);
    }
  }

  /** The shape `prefix*suffix` of an exclude pattern such as `foo*.go`:
      a name matches when it starts with the prefix, ends with the suffix
      (the two not overlapping) and holds no separator in between. */
  lemma {:induction false} PrefixStarSuffix(pre: string, suf: string, s: string)
    requires NoMeta(pre) && NoMeta(suf)
    ensures Match(pre + "*" + suf, s) <==>
              |pre| + |suf| <= |s| && s[..|pre|] == pre && s[|s| - |suf|..] == suf
              && Separator !in s[|pre|..|s| - |suf|]
  {
    var q := "*" + suf;
    assert pre + "*" + suf == pre + q;
    MatchLiteralPrefix(pre, q, s);
    if |pre| <= |s| {
      var t := s[|pre|..];
      MatchStarSuffix(suf, t);
      if |suf| <= |t| {
        assert t[|t| - |suf|..] == s[|s| - |suf|..];
        assert t[..|t| - |suf|] == s[|pre|..|s| - |suf|];
      }
    }
  }

  /** A pattern without `*` matches exactly the names of its own length in
      which every `?` stands against a character other than the separator
      and every other pattern character against itself. */
  lemma {:induction false} StarFreeMatch(p: string, s: string)
    requires forall i :: 0 <= i < |p| ==> p[i] != '*'
    ensures Match(p, s) <==>
              |s| == |p| && forall i :: 0 <= i < |p| ==> (if p[i] == '?' then s[i] != Separator else s[i] == p[i])
  {
    if p != [] && s != [] {
      assert p[0] != '*';
      StarFreeMatch(p[1..], s[1..]);
      if |s| == |p| {
        forall i | 1 <= i < |p|
          ensures (if p[i] == '?' then s[i] != Separator else s[i] == p[i]) <==>
                  (if p[1..][i - 1] == '?' then s[1..][i - 1] != Separator else s[1..][i - 1] == p[1..][i - 1])
        {
        }
      }
    } else if p != [] {
      assert p[0] != '*';
    }
  }

  /** `*` followed by any pattern `q`: the star takes some prefix of the name
      without a separator, and `q` must match the rest. */
  lemma StarSplit(q: string, s: string)
    ensures Match("*" + q, s) <==>
              exists k :: 0 <= k <= |s| && Separator !in s[..k] && Match(q, s[k..])
  {
    if Match("*" + q, s) {
      StarSplitFound(q, s);
    }
    if exists k :: 0 <= k <= |s| && Separator !in s[..k] && Match(q, s[k..]) {
      var k :| 0 <= k <= |s| && Separator !in s[..k] && Match(q, s[k..]);
      StarTakesPrefix(q, s, k);
    }
  }

  /** A match of `*q` splits the name: a prefix without a separator for the
      star, the rest for `q`. */
  lemma {:induction false} StarSplitFound(q: string, s: string)
    requires Match("*" + q, s)
    ensures exists k :: 0 <= k <= |s| && Separator !in s[..k] && Match(q, s[k..])
    decreases |s|
  {
    var p := "*" + q;
    assert p[0] == '*' && p[1..] == q;
    if Match(q, s) {
      assert s[..0] == [] && s[0..] == s;
    } else {
      assert s[0] != Separator && Match(p, s[1..]);
      StarSplitFound(q, s[1..]);
      var k :| 0 <= k <= |s[1..]| && Separator !in s[1..][..k] && Match(q, s[1..][k..]);
      assert s[..k + 1] == [s[0]] + s[1..][..k];
      assert s[k + 1..] == s[1..][k..];
      assert Separator !in s[..k + 1] && Match(q, s[k + 1..]);
    }
  }

  /** The star may take any prefix without a separator, leaving the rest
      of the name to `q`. */
  lemma {:induction false} StarTakesPrefix(q: string, s: string, k: nat)
    requires k <= |s| && Separator !in s[..k] && Match(q, s[k..])
    ensures Match("*" + q, s)
    decreases k
  {
    var p := "*" + q;
    assert p[0] == '*' && p[1..] == q;
    if k == 0 {
      assert s[0..] == s;
    } else {
      assert s[0] == s[..k][0];
      assert s[1..][..k - 1] == s[..k][1..];
      assert s[1..][k - 1..] == s[k..];
      StarTakesPrefix(q, s[1..], k - 1);
    }
  }

  /** `*` alone matches every name without a separator, the empty one too. */
  lemma {:induction false} StarMatchesAnyName(s: string)
    ensures Match("*", s) <==> Separator !in s
  {
    assert "*" + "" == "*";
    MatchStarSuffix("", s);
    assert s[|s| - 0..] == "" && s[..|s|] == s;
  }
}
