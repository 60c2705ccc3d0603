/**
 Octet strings and the small scanners shared by the codecs. One `char` stands
 for one octet; where the numeric value of an octet matters the members below
 ask for `Octet`.
 */
module Octets {

  datatype Option<+T> = None | Some(value: T)

  const CR := '\r'
  const LF := '\n'
  const NUL := '\0'
  const DEL := '\U{7F}'
  const CRLF := "\r\n"

  predicate Octet(c: char) {
    c as int < 256
  }

  predicate Digit(c: char) {
    '0' <= c <= '9'
  }

  predicate AlphaNum(c: char) {
    || '0' <= c <= '9'
    || 'A' <= c <= 'Z'
    || 'a' <= c <= 'z'
  }

  /** The token characters of section 5.6.2 of RFC 9110. */
  predicate TokenChar(c: char) {
    || AlphaNum(c)
    || c == '!' || c == '#' || c == '$' || c == '%' || c == '&' || c == '\''
    || c == '*' || c == '+' || c == '-' || c == '.' || c == '^' || c == '_'
    || c == '`' || c == '|' || c == '~'
  }

  function Lower(c: char): char {
    if 'A' <= c <= 'Z' then (c as int + 32) as char else c
  }

  /** ASCII case-insensitive equality. */
  predicate IEq(a: string, b: string) {
    |a| == |b| && forall i :: 0 <= i < |a| ==> Lower(a[i]) == Lower(b[i])
  }

  /** Position of the first `c`, or the length when there is none. */
  function IndexOf(s: string, c: char): (k: nat)
    ensures k <= |s|
    ensures k < |s| ==> s[k] == c
    ensures forall i :: 0 <= i < k ==> s[i] != c
  {
    if s == [] || s[0] == c then 0 else 1 + IndexOf(s[1..], c)
  }

  /** The first `c` of `s + t` is found in `s` whenever `s` ends in the only `c`. */
  lemma IndexOfUnique(s: string, c: char, k: nat)
    requires k <= |s|
    requires k < |s| ==> s[k] == c
    requires forall i :: 0 <= i < k ==> s[i] != c
    ensures IndexOf(s, c) == k
  {
    if s != [] && s[0] != c {
      IndexOfUnique(s[1..], c, k - 1);
    }
  }

  function Concat(chunks: seq<string>): string {
    if chunks == [] then "" else chunks[0] + Concat(chunks[1..])
  }

  lemma ConcatAppend(a: seq<string>, b: seq<string>)
    ensures Concat(a + b) == Concat(a) + Concat(b)
  {
    if a == [] {
      assert a + b == b;
    } else {
      assert (a + b)[1..] == a[1..] + b;
      ConcatAppend(a[1..], b);
    }
  }

  predicate HasAt(s: string, m: string, i: nat) {
    i + |m| <= |s| && s[i..i + |m|] == m
  }

  predicate Occurs(s: string, m: string) {
    exists i: nat :: i <= |s| && HasAt(s, m, i)
  }
}
