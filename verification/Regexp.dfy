/** The regular-expression matcher of grep.c, proved equal to a denotational
    semantics of its pattern language. */
module Regexp {

  /** A C string: the characters before the terminating NUL. */
  type CString = s: seq<char> | '\0' !in s witness []

  function At(s: CString, i: nat): (c: char)
    requires i <= |s|
    ensures c == '\0' <==> i == |s|
  {
    if i < |s| then s[i] else '\0'
  }

  // The pattern language.

  datatype Item = One(c: char) | Star(c: char) | End

  /** How the matcher reads a pattern: a star binds to the character before it
      (whatever that character is), "$" is special only at the very end, and a
      star with nothing before it is an ordinary character. */
  function Parse(re: CString): seq<Item> {
    if re == [] then []
    else if |re| > 1 && re[1] == '*' then [Star(re[0])] + Parse(re[2..])
    else if re == "$" then [End]
    else [One(re[0])] + Parse(re[1..])
  }

  predicate Fits(c: char, x: char) {
    c == '.' || c == x
  }

  predicate AllFit(c: char, w: seq<char>) {
    forall i | 0 <= i < |w| :: Fits(c, w[i])
  }

  /** The word w, followed by rest, is in the language of the items. */
  ghost predicate InLanguage(items: seq<Item>, w: seq<char>, rest: seq<char>) {
    if items == [] then w == []
    else match items[0]
      case One(c) => w != [] && Fits(c, w[0]) && InLanguage(items[1..], w[1..], rest)
      case Star(c) => exists k | 0 <= k <= |w| :: AllFit(c, w[..k]) && InLanguage(items[1..], w[k..], rest)
      case End => w == [] && rest == [] && InLanguage(items[1..], [], [])
  }

  /** Some prefix of the text is in the language. */
  ghost predicate HasPrefix(items: seq<Item>, text: seq<char>) {
    exists j | 0 <= j <= |text| :: InLanguage(items, text[..j], text[j..])
  }

  /** Some substring of the text is; a leading "^" anchors it at the start. */
  ghost predicate Found(re: CString, text: CString) {
    if re != [] && re[0] == '^' then HasPrefix(Parse(re[1..]), text)
    else exists i, j | 0 <= i <= j <= |text| :: InLanguage(Parse(re), text[i..j], text[j..])
  }

  lemma PrefixOne(c: char, items: seq<Item>, text: seq<char>)
    ensures HasPrefix([One(c)] + items, text) <==> text != [] && Fits(c, text[0]) && HasPrefix(items, text[1..])
  {
    var all := [One(c)] + items;
    assert all[1..] == items;
    if j :| 0 <= j <= |text| && InLanguage(all, text[..j], text[j..]) {
      assert text[..j][1..] == text[1..][..j - 1] && text[j..] == text[1..][j - 1..];
    }
    if text != [] && Fits(c, text[0]) && HasPrefix(items, text[1..]) {
      var j :| 0 <= j <= |text[1..]| && InLanguage(items, text[1..][..j], text[1..][j..]);
      assert text[..j + 1][1..] == text[1..][..j] && text[j + 1..] == text[1..][j..];
      assert InLanguage(all, text[..j + 1], text[j + 1..]);
    }
  }

  lemma PrefixStar(c: char, items: seq<Item>, text: seq<char>)
    ensures HasPrefix([Star(c)] + items, text) <==>
            exists k | 0 <= k <= |text| :: AllFit(c, text[..k]) && HasPrefix(items, text[k..])
  {
    var all := [Star(c)] + items;
    assert all[1..] == items;
    if j :| 0 <= j <= |text| && InLanguage(all, text[..j], text[j..]) {
      var k :| 0 <= k <= j && AllFit(c, text[..j][..k]) && InLanguage(items, text[..j][k..], text[j..]);
      assert text[..j][..k] == text[..k];
      assert text[..j][k..] == text[k..][..j - k] && text[j..] == text[k..][j - k..];
    }
    if k :| 0 <= k <= |text| && AllFit(c, text[..k]) && HasPrefix(items, text[k..]) {
      var j :| 0 <= j <= |text[k..]| && InLanguage(items, text[k..][..j], text[k..][j..]);
      assert text[..k + j][..k] == text[..k];
      assert text[..k + j][k..] == text[k..][..j] && text[k + j..] == text[k..][j..];
      assert InLanguage(all, text[..k + j], text[k + j..]);
    }
  }

  lemma PrefixEnd(text: seq<char>)
    ensures HasPrefix([End], text) <==> text == []
  {
    if text == [] {
      assert InLanguage([End], text[..0], text[0..]);
    }
  }

  method MatchHere(re: CString, text: CString) returns (r: bool)
    ensures r <==> HasPrefix(Parse(re), text)
    decreases |re|, 0
  {
    if At(re, 0) == '\0' {
      assert InLanguage(Parse(re), text[..0], text[0..]);
      return true;
    }
    if At(re, 1) == '*' {
      PrefixStar(re[0], Parse(re[2..]), text);
      r := MatchStar(re[0], re[2..], text);
      return;
    }
    if At(re, 0) == '$' && At(re, 1) == '\0' {
      PrefixEnd(text);
      return At(text, 0) == '\0';
    }
    PrefixOne(re[0], Parse(re[1..]), text);
    if At(text, 0) != '\0' && (re[0] == '.' || re[0] == text[0]) {
      r := MatchHere(re[1..], text[1..]);
      return;
    }
    return false;
  }

  method MatchStar(c: char, re: CString, text: CString) returns (r: bool)
    ensures r <==> exists k | 0 <= k <= |text| :: AllFit(c, text[..k]) && HasPrefix(Parse(re), text[k..])
    decreases |re|, 1
  {
    var i := 0;
    while true
      invariant 0 <= i <= |text|
      invariant AllFit(c, text[..i])
      invariant forall k | 0 <= k < i :: !HasPrefix(Parse(re), text[k..])
      decreases |text| - i
    {
      var here := MatchHere(re, text[i..]);
      if here {
        return true;
      }
      if !(At(text, i) != '\0' && (text[i] == c || c == '.')) {
        break;
      }
      i := i + 1;
    }
    forall k | i < k <= |text| ensures !AllFit(c, text[..k]) {
      assert text[..k][i] == text[i];
    }
    return false;
  }

  method Match(re: CString, text: CString) returns (r: bool)
    ensures r <==> Found(re, text)
  {
    if At(re, 0) == '^' {
      r := MatchHere(re[1..], text);
      return;
    }
    var i := 0;
    while true
      invariant 0 <= i <= |text|
      invariant forall k | 0 <= k < i :: !HasPrefix(Parse(re), text[k..])
      decreases |text| - i
    {
      var here := MatchHere(re, text[i..]);
      if here {
        ghost var j :| 0 <= j <= |text[i..]| && InLanguage(Parse(re), text[i..][..j], text[i..][j..]);
        assert text[i..][..j] == text[i..i + j] && text[i..][j..] == text[i + j..];
        return true;
      }
      if At(text, i) == '\0' {
        break;
      }
      i := i + 1;
    }
    forall k, j | 0 <= k <= j <= |text| ensures !InLanguage(Parse(re), text[k..j], text[j..]) {
      assert text[k..j] == text[k..][..j - k] && text[j..] == text[k..][j - k..];
    }
    return false;
  }
}
