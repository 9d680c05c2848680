/** JavaScript string operations the row pipeline uses. A char is one Unicode scalar value, where JavaScript
    counts a pair of code units beyond the Basic Multilingual Plane. */
module JsText {

  /** White space and line terminators of ECMA-262, as String.prototype.trim removes them. */
  predicate IsSpace(c: char) {
    || '\t' <= c <= '\r' || c == ' ' || c == '\U{00A0}' || c == '\U{1680}' || '\U{2000}' <= c <= '\U{200A}'
    || c == '\U{2028}' || c == '\U{2029}' || c == '\U{202F}' || c == '\U{205F}' || c == '\U{3000}' || c == '\U{FEFF}'
  }

  /** By their code points. */
  lemma SpacesAre(c: char)
    ensures IsSpace(c) <==>
      || c as int in {0x09, 0x0A, 0x0B, 0x0C, 0x0D, 0x20, 0xA0, 0x1680, 0x2028, 0x2029, 0x202F, 0x205F, 0x3000, 0xFEFF}
      || 0x2000 <= c as int <= 0x200A
  {
  }

  function TrimLeft(s: string): string {
    if s != "" && IsSpace(s[0]) then TrimLeft(s[1..]) else s
  }

  function TrimRight(s: string): string {
    if s != "" && IsSpace(s[|s| - 1]) then TrimRight(s[..|s| - 1]) else s
  }

  predicate AllSpace(s: string) {
    forall i :: 0 <= i < |s| ==> IsSpace(s[i])
  }

  /** Neither end is white space. */
  predicate IsTrimmed(s: string) {
    s != "" ==> !IsSpace(s[0]) && !IsSpace(s[|s| - 1])
  }

  function Trim(s: string): string {
    TrimRight(TrimLeft(s))
  }

  lemma {:induction false} LeftCuts(s: string) returns (before: string)
    ensures s == before + TrimLeft(s) && AllSpace(before)
    ensures TrimLeft(s) != "" ==> !IsSpace(TrimLeft(s)[0])
  {
    if s != "" && IsSpace(s[0]) {
      var rest := LeftCuts(s[1..]);
      before := [s[0]] + rest;
      assert s == [s[0]] + s[1..];
    } else {
      before := "";
    }
  }

  lemma {:induction false} RightCuts(s: string) returns (after: string)
    ensures s == TrimRight(s) + after && AllSpace(after)
    ensures TrimRight(s) != "" ==> !IsSpace(TrimRight(s)[|TrimRight(s)| - 1]) && TrimRight(s)[0] == s[0]
  {
    if s != "" && IsSpace(s[|s| - 1]) {
      var rest := RightCuts(s[..|s| - 1]);
      after := rest + [s[|s| - 1]];
      assert s == s[..|s| - 1] + [s[|s| - 1]];
    } else {
      after := "";
    }
  }

  /** Trimming cuts off white space at both ends, and all of it. */
  lemma TrimCuts(s: string) returns (before: string, after: string)
    ensures s == before + Trim(s) + after && AllSpace(before) && AllSpace(after) && IsTrimmed(Trim(s))
  {
    before := LeftCuts(s);
    after := RightCuts(TrimLeft(s));
    Regroup(before, Trim(s), after);
  }

  lemma Regroup(a: string, b: string, c: string)
    ensures a + (b + c) == a + b + c
  {
  }

  lemma TrimmedStays(s: string)
    requires IsTrimmed(s)
    ensures Trim(s) == s
  {
  }

  function TrimAll(texts: seq<string>): (r: seq<string>)
    ensures |r| == |texts| && forall i :: 0 <= i < |texts| ==> r[i] == Trim(texts[i])
  {
    seq(|texts|, i requires 0 <= i < |texts| => Trim(texts[i]))
  }

  function Lower(c: char): char {
    if 'A' <= c <= 'Z' then c - 'A' + 'a' else c
  }

  /** Lower case of the Latin letters; no other letter's lower case is one the tokens use. */
  function ToLower(s: string): (r: string)
    ensures |r| == |s| && forall i :: 0 <= i < |s| ==> r[i] == Lower(s[i])
  {
    seq(|s|, i requires 0 <= i < |s| => Lower(s[i]))
  }

  /** Of the Latin letters the n-th capital becomes the n-th small one; every other character stays. */
  lemma LettersLower(n: nat, c: char)
    ensures n < 26 ==> Lower("ABCDEFGHIJKLMNOPQRSTUVWXYZ"[n]) == "abcdefghijklmnopqrstuvwxyz"[n]
    ensures c !in "ABCDEFGHIJKLMNOPQRSTUVWXYZ" ==> Lower(c) == c
  {
    if 'A' <= c <= 'Z' {
      assert "ABCDEFGHIJKLMNOPQRSTUVWXYZ"[(c - 'A') as int] == c;
    }
  }

  predicate IsDigit(c: char) {
    '0' <= c <= '9'
  }

  function DigitOf(c: char): nat
    requires IsDigit(c)
  {
    (c - '0') as nat
  }

  /** Bytes of the UTF-8 encoding. */
  function ByteLength(s: string): nat {
    if s == "" then 0 else Bytes(s[0]) + ByteLength(s[1..])
  }

  function Bytes(c: char): nat {
    if c < '\U{80}' then 1 else if c < '\U{800}' then 2 else if c < '\U{10000}' then 3 else 4
  }

  /** n bytes hold 7, 11, 16 or 21 bits of a code point, and no fewer bytes do. */
  lemma BytesAre(c: char)
    ensures Bytes(c) in {1, 2, 3, 4}
    ensures Bytes(c) >= 2 <==> c as int >= 0x80
    ensures Bytes(c) >= 3 <==> c as int >= 0x800
    ensures Bytes(c) >= 4 <==> c as int >= 0x1_0000
  {
  }

  function Join(parts: seq<string>, separator: string): string {
    if |parts| == 0 then ""
    else if |parts| == 1 then parts[0]
    else parts[0] + separator + Join(parts[1..], separator)
  }

  /** replaceAll of one character by a text. */
  function ReplaceAll(s: string, c: char, replacement: string): (r: string)
    ensures replacement != "" ==> |r| >= |s|
  {
    if s == "" then ""
    else (if s[0] == c then replacement else [s[0]]) + ReplaceAll(s[1..], c, replacement)
  }
}
