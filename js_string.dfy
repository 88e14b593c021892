/** The JavaScript string built-ins the scraper and the handlers call:
    String.prototype.trim, String.prototype.replace with a one-character
    string pattern, and String.prototype.toUpperCase on ASCII letters. */
module JsString {

  /** The code points String.prototype.trim strips: the WhiteSpace and
      LineTerminator characters of ECMA-262 (sections 12.2 and 12.3). */
  predicate IsTrimmable(c: char) {
    || c == '\t' || c == '\n' || c == '\U{000B}' || c == '\U{000C}' || c == '\r' || c == ' '
    || c == '\U{00A0}' || c == '\U{1680}' || '\U{2000}' <= c <= '\U{200A}'
    || c == '\U{2028}' || c == '\U{2029}' || c == '\U{202F}' || c == '\U{205F}'
    || c == '\U{3000}' || c == '\U{FEFF}'
  }

  /** Drops the trimmable characters at the front: what is left is a suffix of `s`
      that does not start with one, and everything dropped was trimmable. */
  function TrimStart(s: string): (r: string)
    ensures |r| <= |s| && r == s[|s| - |r|..]
    ensures forall i :: 0 <= i < |s| - |r| ==> IsTrimmable(s[i])
    ensures r != [] ==> !IsTrimmable(r[0])
  {
    if s != [] && IsTrimmable(s[0]) then TrimStart(s[1..]) else s
  }

  /** Drops the trimmable characters at the back: what is left is a prefix of `s`
      that does not end with one, and everything dropped was trimmable. */
  function TrimEnd(s: string): (r: string)
    ensures |r| <= |s| && r == s[..|r|]
    ensures forall i :: |r| <= i < |s| ==> IsTrimmable(s[i])
    ensures r != [] ==> !IsTrimmable(r[|r| - 1])
  {
    if s != [] && IsTrimmable(s[|s| - 1]) then TrimEnd(s[..|s| - 1]) else s
  }

  /** Every character of `t` is trimmable. */
  predicate AllTrimmable(t: string) {
    forall c :: c in t ==> IsTrimmable(c)
  }

  /** String.prototype.trim: a slice of `s` that neither starts nor ends with a
      trimmable character; only trimmable characters lie outside the slice. */
  function Trim(s: string): (r: string)
    ensures |r| <= |s|
    ensures r != [] ==> !IsTrimmable(r[0]) && !IsTrimmable(r[|r| - 1])
    ensures exists a, b :: 0 <= a <= b <= |s| && r == s[a..b] && AllTrimmable(s[..a]) && AllTrimmable(s[b..])
  {
    var t := TrimStart(s);
    var a := |s| - |t|;
    TrimmedPrefix(s);
    TrimmedSuffix(t);
    var r := TrimEnd(t);
    assert r == s[a..a + |r|] && t[|r|..] == s[a + |r|..];
    r
  }

  /** What TrimStart drops is blank. */
  lemma TrimmedPrefix(s: string)
    ensures AllTrimmable(s[..|s| - |TrimStart(s)|])
  {
  }

  /** What TrimEnd drops is blank. */
  lemma TrimmedSuffix(s: string)
    ensures AllTrimmable(s[|TrimEnd(s)|..])
  {
  }

  /** String.prototype.replace(from, to) with one-character strings: only the
      first occurrence of `from` is replaced; with none the string is unchanged. */
  function ReplaceFirst(s: string, from: char, to: char): (r: string)
    ensures |r| == |s|
    ensures from !in s ==> r == s
  {
    if s == [] then []
    else if s[0] == from then [to] + s[1..]
    else [s[0]] + ReplaceFirst(s[1..], from, to)
  }

  /** Where `from` first occurs at `i`, the replacement puts `to` there and
      keeps every other character. */
  lemma {:induction false} ReplaceFirstAt(s: string, from: char, to: char, i: nat)
    requires i < |s| && s[i] == from && from !in s[..i]
    ensures ReplaceFirst(s, from, to) == s[..i] + [to] + s[i + 1..]
  {
    if i > 0 {
      assert s[0] == s[..i][0];
      assert s[1..][..i - 1] == s[..i][1..];
      ReplaceFirstAt(s[1..], from, to, i - 1);
      assert s[1..][i..] == s[i + 1..];
      assert s[..i] == [s[0]] + s[1..][..i - 1];
    }
  }

  /** When `from` occurs at most once, nothing of it is left after the replacement
      (as long as `to` differs from it). */
  lemma ReplaceFirstRemovesSingle(s: string, from: char, to: char)
    requires from != to
    requires forall i, j :: 0 <= i < j < |s| && s[i] == from ==> s[j] != from
    ensures from !in ReplaceFirst(s, from, to)
  {
    if from in s {
      var i :| 0 <= i < |s| && s[i] == from;
      assert from !in s[..i];
      ReplaceFirstAt(s, from, to, i);
    }
  }

  /** String.prototype.toUpperCase on one character; only ASCII letters are mapped. */
  function UpperChar(c: char): (u: char)
    ensures 'a' <= c <= 'z' ==> 'A' <= u <= 'Z' && u as int - 'A' as int == c as int - 'a' as int
    ensures !('a' <= c <= 'z') ==> u == c
    ensures !('a' <= u <= 'z')
  {
    if 'a' <= c <= 'z' then (c as int - 32) as char else c
  }

  /** String.prototype.toUpperCase, character by character. */
  function ToUpper(s: string): (r: string)
    ensures |r| == |s|
    ensures forall i :: 0 <= i < |s| ==> r[i] == UpperChar(s[i])
  {
    if s == [] then [] else [UpperChar(s[0])] + ToUpper(s[1..])
  }

  /** Upper-casing an upper-cased string changes nothing. */
  lemma ToUpperIdempotent(s: string)
    ensures ToUpper(ToUpper(s)) == ToUpper(s)
  {
    var u := ToUpper(s);
    assert forall i :: 0 <= i < |u| ==> ToUpper(u)[i] == u[i];
  }
}
