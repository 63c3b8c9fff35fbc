/**
  The regular expression matcher of user/grep.c against the language of the expression. Strings are without the
  terminating NUL; reading at the end gives it.
 */
module Grep {
  /** c stands for a character or, if it is '.', for any; Star(c) for any number of them. */
  datatype Item = One(c: char) | Star(c: char)

  predicate Fits(c: char, x: char) { c == '.' || c == x }

  /** The expression as a sequence of items; a '$' at its very end is not one. */
  function Items(re: string): seq<Item> {
    if |re| == 0 || re == "$" then []
    else if |re| > 1 && re[1] == '*' then [Star(re[0])] + Items(re[2..])
    else [One(re[0])] + Items(re[1..])
  }

  /** The expression ends in a '$' that is not starred. */
  predicate ToEnd(re: string) {
    if |re| == 0 then false
    else if |re| > 1 && re[1] == '*' then ToEnd(re[2..])
    else re == "$" || ToEnd(re[1..])
  }

  /** The strings an item sequence stands for. */
  ghost predicate InLanguage(items: seq<Item>, s: string)
    decreases |items|
  {
    if |items| == 0 then s == ""
    else match items[0]
      case One(c) => |s| > 0 && Fits(c, s[0]) && InLanguage(items[1..], s[1..])
      case Star(c) => exists k :: 0 <= k <= |s| && AllFit(c, s, k) && InLanguage(items[1..], s[k..])
  }

  predicate AllFit(c: char, s: string, k: nat)
    requires k <= |s|
  {
    forall j :: 0 <= j < k ==> Fits(c, s[j])
  }

  /** The expression holds at the beginning of the text, up to some point, or up to the end under '$'. */
  ghost predicate Here(re: string, text: string) {
    exists n :: 0 <= n <= |text| && Upto(re, text, n)
  }

  ghost predicate Upto(re: string, text: string, n: nat)
    requires n <= |text|
  {
    InLanguage(Items(re), text[..n]) && (ToEnd(re) ==> n == |text|)
  }

  /** Some stretch of the text is in the language: a prefix under a leading '^', reaching the end under a final '$'. */
  ghost predicate Somewhere(re: string, text: string) {
    if |re| > 0 && re[0] == '^' then exists n :: 0 <= n <= |text| && Stretch(re[1..], text, 0, n)
    else exists i, n :: 0 <= i <= n <= |text| && Stretch(re, text, i, n)
  }

  ghost predicate Stretch(body: string, text: string, i: nat, n: nat)
    requires i <= n <= |text|
  {
    InLanguage(Items(body), text[i..n]) && (ToEnd(body) ==> n == |text|)
  }

  function At(s: string, i: nat): char { if i < |s| then s[i] else '\0' }

  predicate CString(s: string) { '\0' !in s }

  // ---------- how the language unfolds along the expression ----------

  lemma HereEmpty(text: string)
    ensures Here("", text)
  {
    assert Upto("", text, 0);
  }

  lemma HereEnd(text: string)
    ensures Here("$", text) <==> text == ""
  {
    if text == "" { assert Upto("$", text, 0); }
  }

  lemma HereOne(re: string, text: string)
    requires |re| > 0 && re != "$" && !(|re| > 1 && re[1] == '*')
    ensures Here(re, text) <==> |text| > 0 && Fits(re[0], text[0]) && Here(re[1..], text[1..])
  {
    if Here(re, text) {
      var n :| 0 <= n <= |text| && Upto(re, text, n);
      assert |text[..n]| > 0;
      assert text[..n][1..] == text[1..][..n - 1];
      assert Items(re)[1..] == Items(re[1..]);
      assert Upto(re[1..], text[1..], n - 1);
    }
    if |text| > 0 && Fits(re[0], text[0]) && Here(re[1..], text[1..]) {
      var n :| 0 <= n <= |text[1..]| && Upto(re[1..], text[1..], n);
      assert text[..n + 1][1..] == text[1..][..n];
      assert Items(re)[1..] == Items(re[1..]);
      assert Upto(re, text, n + 1);
    }
  }

  /** c* followed by the rest: some run of matching characters, then the rest. */
  ghost predicate StarHere(c: char, rest: string, text: string) {
    exists k :: 0 <= k <= |text| && SplitAt(c, rest, text, k)
  }

  ghost predicate SplitAt(c: char, rest: string, text: string, k: nat)
    requires k <= |text|
  {
    AllFit(c, text, k) && Here(rest, text[k..])
  }

  lemma HereStar(re: string, text: string)
    requires |re| > 1 && re[1] == '*'
    ensures Here(re, text) <==> StarHere(re[0], re[2..], text)
  {
    var c, rest := re[0], re[2..];
    assert Items(re)[0] == Star(c) && Items(re)[1..] == Items(rest);
    if Here(re, text) {
      var n :| 0 <= n <= |text| && Upto(re, text, n);
      var s := text[..n];
      var k :| 0 <= k <= |s| && AllFit(c, s, k) && InLanguage(Items(re)[1..], s[k..]);
      assert s[k..] == text[k..][..n - k];
      assert Upto(rest, text[k..], n - k);
      assert SplitAt(c, rest, text, k);
    }
    if StarHere(c, rest, text) {
      var k :| 0 <= k <= |text| && SplitAt(c, rest, text, k);
      var n :| 0 <= n <= |text[k..]| && Upto(rest, text[k..], n);
      var s := text[..k + n];
      assert s[k..] == text[k..][..n];
      assert AllFit(c, s, k) && InLanguage(Items(re)[1..], s[k..]);
      assert Upto(re, text, k + n);
    }
  }

  lemma HereAnywhere(body: string, text: string, i: nat)
    requires i <= |text|
    ensures Here(body, text[i..]) <==> exists n :: i <= n <= |text| && Stretch(body, text, i, n)
  {
    if Here(body, text[i..]) {
      var n :| 0 <= n <= |text[i..]| && Upto(body, text[i..], n);
      assert text[i..][..n] == text[i..i + n];
      assert Stretch(body, text, i, i + n);
    }
    if n :| i <= n <= |text| && Stretch(body, text, i, n) {
      assert text[i..][..n - i] == text[i..n];
      assert Upto(body, text[i..], n - i);
    }
  }

  lemma UnderCaret(re: string, text: string)
    requires |re| > 0 && re[0] == '^'
    ensures Somewhere(re, text) <==> Here(re[1..], text)
  {
    HereAnywhere(re[1..], text, 0);
    assert text[0..] == text;
  }

  ghost predicate HereFrom(re: string, text: string, i: nat)
    requires i <= |text|
  {
    Here(re, text[i..])
  }

  lemma WithoutCaret(re: string, text: string)
    requires |re| == 0 || re[0] != '^'
    ensures Somewhere(re, text) <==> exists i :: 0 <= i <= |text| && HereFrom(re, text, i)
  {
    if i, n :| 0 <= i <= n <= |text| && Stretch(re, text, i, n) {
      HereAnywhere(re, text, i);
      assert HereFrom(re, text, i);
    }
    if i :| 0 <= i <= |text| && HereFrom(re, text, i) {
      HereAnywhere(re, text, i);
      var n :| i <= n <= |text| && Stretch(re, text, i, n);
      assert 0 <= i <= n <= |text| && Stretch(re, text, i, n);
    }
  }

  // ---------- the matcher ----------

  /** matchhere. */
  method MatchHere(re: string, text: string) returns (r: bool)
    requires CString(re) && CString(text)
    ensures r == Here(re, text)
    decreases |re|, 0
  {
    if At(re, 0) == '\0' {
      assert re == "";
      HereEmpty(text);
      return true;
    }
    if At(re, 1) == '*' {
      HereStar(re, text);
      r := MatchStar(re[0], re[2..], text);
      return;
    }
    if re[0] == '$' && At(re, 1) == '\0' {
      assert re == "$";
      HereEnd(text);
      return At(text, 0) == '\0';
    }
    HereOne(re, text);
    if At(text, 0) != '\0' && (re[0] == '.' || re[0] == text[0]) {
      r := MatchHere(re[1..], text[1..]);
      return;
    }
    r := false;
  }

  /** matchstar: shortest runs of c first; it finds a run exactly when there is one. */
  method MatchStar(c: char, re: string, text: string) returns (r: bool)
    requires CString(re) && CString(text) && c != '\0'
    ensures r == StarHere(c, re, text)
    decreases |re|, 1
  {
    var i := 0;
    while true
      invariant i <= |text| && AllFit(c, text, i) && forall k :: 0 <= k < i ==> !SplitAt(c, re, text, k)
      decreases |text| - i
    {
      var found := MatchHere(re, text[i..]);
      if found {
        assert SplitAt(c, re, text, i);
        return true;
      }
      if At(text, i) == '\0' {
        break;
      }
      i := i + 1;
      if !(text[i - 1] == c || c == '.') {
        break;
      }
    }
    r := false;
  }

  /** match: the expression is found exactly when some stretch of the text is in its language. */
  method Match(re: string, text: string) returns (r: bool)
    requires CString(re) && CString(text)
    ensures r == Somewhere(re, text)
  {
    if At(re, 0) == '^' {
      r := MatchHere(re[1..], text);
      UnderCaret(re, text);
      return;
    }
    WithoutCaret(re, text);
    var i := 0;
    while true
      invariant i <= |text| && forall k :: 0 <= k < i ==> !HereFrom(re, text, k)
      decreases |text| - i
    {
      var found := MatchHere(re, text[i..]);
      if found {
        assert HereFrom(re, text, i);
        return true;
      }
      if At(text, i) == '\0' {
        break;
      }
      i := i + 1;
    }
    r := false;
  }
}
