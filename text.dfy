/**
 * String helpers the engine relies on, restricted to ASCII: Python's
 * `str.lower`, `str.upper`, `str.title`, the `in` operator on strings,
 * `str(n)` for a natural number, `"\n".join(lines)` and the keys of a
 * dictionary.
 */
module Text {

  predicate IsUpper(c: char) { 'A' <= c <= 'Z' }
  predicate IsLower(c: char) { 'a' <= c <= 'z' }
  predicate IsLetter(c: char) { IsUpper(c) || IsLower(c) }
  predicate IsDigit(c: char) { '0' <= c <= '9' }

  function LowerChar(c: char): (r: char)
    ensures !IsUpper(r)
    ensures IsLetter(c) <==> IsLetter(r)
  {
    if IsUpper(c) then (c as int + 32) as char else c
  }

  function UpperChar(c: char): (r: char)
    ensures !IsLower(r)
    ensures IsLetter(c) <==> IsLetter(r)
  {
    if IsLower(c) then (c as int - 32) as char else c
  }

  /** `s.lower()` on ASCII text. */
  function Lower(s: string): (r: string)
    ensures |r| == |s|
    ensures forall i :: 0 <= i < |r| ==> !IsUpper(r[i])
  {
    seq(|s|, i requires 0 <= i < |s| => LowerChar(s[i]))
  }

  /** `s.upper()` on ASCII text. */
  function Upper(s: string): (r: string)
    ensures |r| == |s|
    ensures forall i :: 0 <= i < |r| ==> !IsLower(r[i])
  {
    seq(|s|, i requires 0 <= i < |s| => UpperChar(s[i]))
  }

  /**
   * `s.title()` on ASCII text: a letter that follows a letter is lower-cased,
   * every other letter is upper-cased, everything else is kept.
   */
  function Title(s: string): (r: string)
    ensures |r| == |s|
    ensures |s| > 0 ==> !IsLower(r[0])
  {
    seq(|s|, i requires 0 <= i < |s| =>
      if i > 0 && IsLetter(s[i - 1]) then LowerChar(s[i]) else UpperChar(s[i]))
  }

  /** The keys of an insertion-ordered dictionary, in order. */
  function KeysOf<K, V>(d: seq<(K, V)>): (ks: seq<K>)
    ensures |ks| == |d|
    ensures forall i :: 0 <= i < |d| ==> ks[i] == d[i].0
  {
    if d == [] then [] else [d[0].0] + KeysOf(d[1..])
  }

  /** `sub` occurs in `s` starting at index `i`. */
  predicate OccursAt(s: string, sub: string, i: int)
  {
    0 <= i && i + |sub| <= |s| && s[i..i + |sub|] == sub
  }

  /** Python's `sub in s`: `sub` occurs at some position of `s`. */
  predicate Contains(s: string, sub: string)
  {
    exists i :: 0 <= i <= |s| - |sub| && OccursAt(s, sub, i)
  }

  /** A text that occurs in `s` also occurs in any text that has `s` as a prefix. */
  lemma ContainsExtend(s: string, t: string, sub: string)
    requires Contains(s, sub)
    ensures Contains(s + t, sub)
  {
    var i :| 0 <= i <= |s| - |sub| && OccursAt(s, sub, i);
    assert (s + t)[i..i + |sub|] == s[i..i + |sub|];
    assert OccursAt(s + t, sub, i);
  }

  function DigitChar(d: nat): (c: char)
    requires d < 10
    ensures IsDigit(c)
  {
    ('0' as int + d) as char
  }

  /** `str(n)`: the decimal digits of `n`, without leading zeros. */
  function NatToString(n: nat): (r: string)
    ensures |r| > 0
    ensures forall i :: 0 <= i < |r| ==> IsDigit(r[i])
  {
    if n < 10 then [DigitChar(n)] else NatToString(n / 10) + [DigitChar(n % 10)]
  }

  /** The value of a string of decimal digits. */
  function DecimalValue(s: string): nat
    requires forall i :: 0 <= i < |s| ==> IsDigit(s[i])
  {
    if s == [] then 0
    else
      assert IsDigit(s[|s| - 1]);
      10 * DecimalValue(s[..|s| - 1]) + (s[|s| - 1] as int - '0' as int)
  }

  /** Reading back the rendered number gives the number. */
  lemma {:induction false} NatToStringRoundTrip(n: nat)
    ensures DecimalValue(NatToString(n)) == n
  {
    if n >= 10 {
      var r := NatToString(n);
      assert r[..|r| - 1] == NatToString(n / 10);
      NatToStringRoundTrip(n / 10);
    }
  }

  /** `sep.join(lines)`. */
  function Join(lines: seq<string>, sep: string): (r: string)
  {
    if |lines| == 0 then ""
    else if |lines| == 1 then lines[0]
    else lines[0] + sep + Join(lines[1..], sep)
  }

  /** Every line of a joined text occurs in the text. */
  lemma {:induction false} JoinContainsLine(lines: seq<string>, sep: string, k: nat)
    requires k < |lines|
    ensures Contains(Join(lines, sep), lines[k])
  {
    var r := Join(lines, sep);
    if |lines| == 1 {
      assert OccursAt(r, lines[0], 0);
    } else if k == 0 {
      assert r[..|lines[0]|] == lines[0];
      assert OccursAt(r, lines[0], 0);
    } else {
      var rest := Join(lines[1..], sep);
      JoinContainsLine(lines[1..], sep, k - 1);
      var i :| 0 <= i <= |rest| - |lines[k]| && OccursAt(rest, lines[k], i);
      var off := |lines[0] + sep|;
      assert r == (lines[0] + sep) + rest;
      assert r[off + i..off + i + |lines[k]|] == rest[i..i + |lines[k]|];
      assert OccursAt(r, lines[k], off + i);
    }
  }

  /** Every member of the joined lines occurs in the joined text. */
  lemma JoinContainsMember(lines: seq<string>, sep: string, x: string)
    requires x in lines
    ensures Contains(Join(lines, sep), x)
  {
    var k :| 0 <= k < |lines| && lines[k] == x;
    JoinContainsLine(lines, sep, k);
  }
}
