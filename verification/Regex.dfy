/**
  The regular expression matcher of user/grep.c.  A C string is the sequence of its characters before the NUL,
  and a pointer into it is a suffix.
 */
module Regex {

  // ---------------------------------------------------------------- patterns and their language

  /** A character (or . for any) once, or any number of times. */
  datatype Item = One(c: char) | Star(c: char)

  /** The items of a pattern without ^, */
  function Items(re: string): seq<Item> {
    if re == "" then []
    else if |re| >= 2 && re[1] == '*' then [Star(re[0])] + Items(re[2..])
    else if re == "$" then []
    else [One(re[0])] + Items(re[1..])
  }

  /** and whether it ends in a $ that stands for the end of the text. */
  predicate Anchored(re: string) {
    if re == "" then false
    else if |re| >= 2 && re[1] == '*' then Anchored(re[2..])
    else if re == "$" then true
    else Anchored(re[1..])
  }

  predicate Fits(c: char, d: char) { c == '.' || c == d }

  /** The strings an item stands for. */
  ghost predicate ItemLang(it: Item, s: string) {
    (it.One? ==> |s| == 1) && forall i :: 0 <= i < |s| ==> Fits(it.c, s[i])
  }

  function Join(pieces: seq<string>): string {
    if pieces == [] then "" else pieces[0] + Join(pieces[1..])
  }

  ghost predicate Split(items: seq<Item>, pieces: seq<string>, s: string) {
    |pieces| == |items| && Join(pieces) == s && forall i :: 0 <= i < |items| ==> ItemLang(items[i], pieces[i])
  }

  /** The language of a pattern: concatenations of strings of its items. */
  ghost predicate Lang(items: seq<Item>, s: string) {
    exists pieces: seq<string> :: Split(items, pieces, s)
  }

  /** Some prefix of the text, all of it if the pattern is anchored, is in the language. */
  ghost predicate Accepts(re: string, text: string) {
    exists k :: 0 <= k <= |text| && PrefixIn(re, text, k)
  }

  ghost predicate PrefixIn(re: string, text: string, k: nat)
    requires k <= |text|
  {
    Lang(Items(re), text[..k]) && (Anchored(re) ==> k == |text|)
  }

  // ---------------------------------------------------------------- the language, item by item

  lemma LangNil(s: string)
    ensures Lang([], s) <==> s == ""
  {
    if s == "" {
      assert Split([], [], s);
    }
  }

  lemma LangCons(it: Item, rest: seq<Item>, s: string, k: nat)
    requires k <= |s| && ItemLang(it, s[..k]) && Lang(rest, s[k..])
    ensures Lang([it] + rest, s)
  {
    var ps :| Split(rest, ps, s[k..]);
    var pieces := [s[..k]] + ps;
    assert pieces[1..] == ps && Join(pieces) == s[..k] + s[k..] == s;
    forall i | 0 <= i < |pieces| ensures ItemLang(([it] + rest)[i], pieces[i]) {
      if i > 0 {
        assert pieces[i] == ps[i - 1] && ([it] + rest)[i] == rest[i - 1];
      }
    }
    assert Split([it] + rest, pieces, s);
  }

  lemma LangUncons(it: Item, rest: seq<Item>, s: string) returns (k: nat)
    requires Lang([it] + rest, s)
    ensures k <= |s| && ItemLang(it, s[..k]) && Lang(rest, s[k..])
  {
    var items := [it] + rest;
    var pieces :| Split(items, pieces, s);
    k := |pieces[0]|;
    assert ItemLang(items[0], pieces[0]);
    assert s == pieces[0] + Join(pieces[1..]) && s[..k] == pieces[0] && s[k..] == Join(pieces[1..]);
    forall i | 0 <= i < |rest| ensures ItemLang(rest[i], pieces[1..][i]) {
      assert ItemLang(items[i + 1], pieces[i + 1]);
    }
    assert Split(rest, pieces[1..], s[k..]);
  }

  // ---------------------------------------------------------------- one lemma for each branch of matchhere

  lemma AcceptsEmpty(text: string)
    ensures Accepts("", text)
  {
    LangNil(text[..0]);
    assert PrefixIn("", text, 0);
  }

  lemma AcceptsEnd(text: string)
    ensures Accepts("$", text) <==> text == ""
  {
    LangNil(text[..0]);
    if text == "" {
      assert PrefixIn("$", text, 0);
    }
  }

  lemma AcceptsOne(re: string, text: string)
    requires re != "" && !(|re| >= 2 && re[1] == '*') && re != "$"
    ensures Accepts(re, text) <==> text != "" && Fits(re[0], text[0]) && Accepts(re[1..], text[1..])
  {
    var it, rest := One(re[0]), Items(re[1..]);
    if Accepts(re, text) {
      var k :| 0 <= k <= |text| && PrefixIn(re, text, k);
      var m := LangUncons(it, rest, text[..k]);
      assert Fits(re[0], text[..k][..m][0]);
      assert text[..k][1..] == text[1..][..k - 1];
      assert PrefixIn(re[1..], text[1..], k - 1);
    }
    if text != "" && Fits(re[0], text[0]) && Accepts(re[1..], text[1..]) {
      var k :| 0 <= k <= |text[1..]| && PrefixIn(re[1..], text[1..], k);
      assert text[..k + 1][1..] == text[1..][..k];
      LangCons(it, rest, text[..k + 1], 1);
      assert PrefixIn(re, text, k + 1);
    }
  }

  /** m characters for the star, then the rest of the pattern. */
  ghost predicate AfterStar(c: char, re: string, text: string, m: nat)
    requires m <= |text|
  {
    (forall i :: 0 <= i < m ==> Fits(c, text[i])) && Accepts(re, text[m..])
  }

  lemma AcceptsStar(re: string, text: string)
    requires |re| >= 2 && re[1] == '*'
    ensures Accepts(re, text) <==> exists m :: 0 <= m <= |text| && AfterStar(re[0], re[2..], text, m)
  {
    var it, rest := Star(re[0]), Items(re[2..]);
    if Accepts(re, text) {
      var k :| 0 <= k <= |text| && PrefixIn(re, text, k);
      var m := LangUncons(it, rest, text[..k]);
      assert text[..k][m..] == text[m..][..k - m];
      assert PrefixIn(re[2..], text[m..], k - m);
      forall i | 0 <= i < m ensures Fits(re[0], text[i]) {
        assert text[i] == text[..k][..m][i];
      }
      assert AfterStar(re[0], re[2..], text, m);
    }
    if m :| 0 <= m <= |text| && AfterStar(re[0], re[2..], text, m) {
      var k :| 0 <= k <= |text[m..]| && PrefixIn(re[2..], text[m..], k);
      assert text[..m + k][m..] == text[m..][..k];
      LangCons(it, rest, text[..m + k], m);
      assert PrefixIn(re, text, m + k);
    }
  }

  // ---------------------------------------------------------------- the matcher

  /** Does the pattern match at the beginning of the text? */
  method MatchHere(re: string, text: string) returns (r: bool)
    ensures r <==> Accepts(re, text)
    decreases |re|, |text|, 0
  {
    if re == "" {
      AcceptsEmpty(text);
      return true;
    }
    if |re| >= 2 && re[1] == '*' {
      AcceptsStar(re, text);
      r := MatchStar(re[0], re[2..], text);
      return;
    }
    if re == "$" {
      AcceptsEnd(text);
      return text == "";
    }
    AcceptsOne(re, text);
    if text != "" && (re[0] == '.' || re[0] == text[0]) {
      r := MatchHere(re[1..], text[1..]);
      return;
    }
    return false;
  }

  /** Does c*re match at the beginning of the text? */
  method MatchStar(c: char, re: string, text: string) returns (r: bool)
    ensures r <==> exists m :: 0 <= m <= |text| && AfterStar(c, re, text, m)
    decreases |re| + 1, 0, 0
  {
    var m := 0;
    while true
      invariant 0 <= m <= |text| && forall i :: 0 <= i < m ==> Fits(c, text[i]) && !AfterStar(c, re, text, i)
      decreases |text| - m
    {
      var here := MatchHere(re, text[m..]);
      if here {
        assert AfterStar(c, re, text, m);
        return true;
      }
      if m == |text| || !(text[m] == c || c == '.') {
        forall n | 0 <= n <= |text| ensures !AfterStar(c, re, text, n) {
          if n > m {
            assert !Fits(c, text[m]);
          }
        }
        return false;
      }
      m := m + 1;
    }
  }

  /** Some substring of the text, a prefix if the pattern begins with ^ and a suffix if it ends in $, is in the language. */
  ghost predicate Found(re: string, text: string) {
    if re != "" && re[0] == '^' then Accepts(re[1..], text)
    else exists i :: 0 <= i <= |text| && Accepts(re, text[i..])
  }

  method Match(re: string, text: string) returns (r: bool)
    ensures r <==> Found(re, text)
  {
    if re != "" && re[0] == '^' {
      r := MatchHere(re[1..], text);
      return;
    }
    var i := 0;
    while true
      invariant 0 <= i <= |text| && forall j :: 0 <= j < i ==> !Accepts(re, text[j..])
      decreases |text| - i
    {
      var here := MatchHere(re, text[i..]);
      if here {
        return true;
      }
      if i == |text| {
        return false;
      }
      i := i + 1;
    }
  }

  /** The substring is the one between i and j. */
  ghost predicate SubstringIn(re: string, text: string, i: nat, j: nat)
    requires i <= j <= |text|
  {
    Lang(Items(re), text[i..j]) && (Anchored(re) ==> j == |text|)
  }

  /** What match finds, in terms of substrings. */
  lemma FoundIs(re: string, text: string)
    ensures var caret := re != "" && re[0] == '^';
            var pat := if caret then re[1..] else re;
            Found(re, text) <==> exists i, j :: 0 <= i <= j <= |text| && (caret ==> i == 0) && SubstringIn(pat, text, i, j)
  {
    var caret := re != "" && re[0] == '^';
    var pat := if caret then re[1..] else re;
    assert text[0..] == text;
    if Found(re, text) {
      var i :| 0 <= i <= |text| && (caret ==> i == 0) && Accepts(pat, text[i..]);
      var k :| 0 <= k <= |text[i..]| && PrefixIn(pat, text[i..], k);
      assert text[i..][..k] == text[i..i + k];
      assert SubstringIn(pat, text, i, i + k);
    }
    if i, j :| 0 <= i <= j <= |text| && (caret ==> i == 0) && SubstringIn(pat, text, i, j) {
      assert text[i..][..j - i] == text[i..j];
      assert PrefixIn(pat, text[i..], j - i);
      assert Accepts(pat, text[i..]);
    }
  }
}
