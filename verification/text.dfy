/** Python string primitives used by the core: `str.strip`, `str.lower`,
    `str.split`, `str.startswith`, `in`, `str(int)` and truthiness. */
module Text {
  import opened Wrappers

  /** `str.isspace` for one character (the set Python's `strip()` and the
      regular-expression class `\s` use). */
  predicate IsSpace(c: char) {
    c == ' ' || ('\t' <= c <= '\r') || ('\U{1c}' <= c <= '\U{1f}')
    || c == '\U{85}' || c == '\U{a0}' || c == '\U{1680}'
    || ('\U{2000}' <= c <= '\U{200a}') || c == '\U{2028}' || c == '\U{2029}'
    || c == '\U{202f}' || c == '\U{205f}' || c == '\U{3000}'
  }

  predicate IsBlank(s: string) {
    forall i :: 0 <= i < |s| ==> IsSpace(s[i])
  }

  /** `s.lstrip()` */
  function TrimLeft(s: string): (r: string)
    ensures |r| <= |s|
    ensures s != [] && IsSpace(s[0]) ==> |r| < |s|
    ensures r == [] || !IsSpace(r[0])
  {
    if s != [] && IsSpace(s[0]) then TrimLeft(s[1..]) else s
  }

  /** `lstrip()` removes a blank prefix and keeps the rest. */
  lemma {:induction false} TrimLeftSplits(s: string)
    ensures TrimLeft(s) == s[|s| - |TrimLeft(s)|..]
    ensures IsBlank(s[..|s| - |TrimLeft(s)|])
  {
    if s != [] && IsSpace(s[0]) {
      TrimLeftSplits(s[1..]);
      var n := |s| - |TrimLeft(s)|;
      assert s[1..][..n - 1] == s[1..n];
    }
  }

  /** `s.rstrip()` */
  function TrimRight(s: string): (r: string)
    ensures |r| <= |s|
    ensures r == [] || !IsSpace(r[|r| - 1])
  {
    if s != [] && IsSpace(s[|s| - 1]) then TrimRight(s[..|s| - 1]) else s
  }

  /** `rstrip()` keeps a prefix and removes the blank rest. */
  lemma {:induction false} TrimRightSplits(s: string)
    ensures TrimRight(s) == s[..|TrimRight(s)|]
    ensures IsBlank(s[|TrimRight(s)|..])
  {
    if s != [] && IsSpace(s[|s| - 1]) {
      TrimRightSplits(s[..|s| - 1]);
      var n := |TrimRight(s)|;
      assert s[..|s| - 1][n..] == s[n..|s| - 1];
    }
  }

  /** `s.strip()`: the longest infix of `s` that neither starts nor ends with
      whitespace, once all the whitespace around it is removed. */
  function Strip(s: string): (r: string)
    ensures |r| <= |s|
    ensures r == [] || (!IsSpace(r[0]) && !IsSpace(r[|r| - 1]))
    ensures r == [] <==> IsBlank(s)
  {
    var l := TrimLeft(s);
    var r := TrimRight(l);
    TrimLeftSplits(s);
    TrimRightSplits(l);
    assert l != [] ==> r != [] by {
      if l != [] { assert !IsSpace(l[0]); }
    }
    assert l == [] ==> s[..|s|] == s;
    r
  }

  /** A string with no whitespace at either end is its own strip. */
  lemma StripUnchanged(s: string)
    requires s == [] || (!IsSpace(s[0]) && !IsSpace(s[|s| - 1]))
    ensures Strip(s) == s
  {
    assert s[..|s|] == s;
  }

  /** Whitespace appended at the end does not survive `strip()`. */
  lemma StripAppendSpace(s: string, c: char)
    requires IsSpace(c)
    ensures Strip(s + [c]) == Strip(s)
  {
    TrimLeftAppend(s, c);
    var l := TrimLeft(s);
    if l != [] {
      assert (l + [c])[..|l|] == l;
    }
  }

  lemma {:induction false} TrimLeftAppend(s: string, c: char)
    requires IsSpace(c)
    ensures TrimLeft(s + [c]) == if TrimLeft(s) == [] then [] else TrimLeft(s) + [c]
  {
    if s != [] {
      assert (s + [c])[1..] == s[1..] + [c];
      if IsSpace(s[0]) {
        TrimLeftAppend(s[1..], c);
      }
    }
  }

  /** Python truthiness of an optional string: present and non-empty. */
  predicate Truthy(o: Option<string>) {
    o.Some? && o.value != ""
  }

  /** Python `a or b` on optional strings. */
  function Or(a: Option<string>, b: Option<string>): (r: Option<string>)
    ensures Truthy(a) ==> r == a
    ensures !Truthy(a) ==> r == b
  {
    if Truthy(a) then a else b
  }

  /** `str.lower` on one character, for ASCII and the Latin-1 capitals. */
  function LowerChar(c: char): char {
    if 'A' <= c <= 'Z' || ('\U{c0}' <= c <= '\U{de}' && c != '\U{d7}') then
      (c as int + 32) as char
    else c
  }

  /** `s.lower()` */
  function Lower(s: string): (r: string)
    ensures |r| == |s|
  {
    seq(|s|, i requires 0 <= i < |s| => LowerChar(s[i]))
  }

  lemma LowerCharKeepsSpace(c: char)
    ensures IsSpace(LowerChar(c)) == IsSpace(c)
  {
  }

  lemma LowerIdempotent(s: string)
    ensures Lower(Lower(s)) == Lower(s)
  {
  }

  /** Lowering changes no whitespace, so it commutes with stripping. */
  lemma {:induction false} StripLower(s: string)
    ensures Strip(Lower(s)) == Lower(Strip(s))
  {
    TrimLeftLower(s);
    TrimRightLower(TrimLeft(s));
  }

  lemma {:induction false} TrimLeftLower(s: string)
    ensures TrimLeft(Lower(s)) == Lower(TrimLeft(s))
  {
    if s != [] {
      LowerCharKeepsSpace(s[0]);
      if IsSpace(s[0]) {
        assert Lower(s)[1..] == Lower(s[1..]);
        TrimLeftLower(s[1..]);
      }
    }
  }

  lemma {:induction false} TrimRightLower(s: string)
    ensures TrimRight(Lower(s)) == Lower(TrimRight(s))
  {
    if s != [] {
      LowerCharKeepsSpace(s[|s| - 1]);
      if IsSpace(s[|s| - 1]) {
        assert Lower(s)[..|s| - 1] == Lower(s[..|s| - 1]);
        TrimRightLower(s[..|s| - 1]);
      }
    }
  }

  lemma {:induction false} TrimLeftIdempotent(s: string)
    ensures TrimLeft(TrimLeft(s)) == TrimLeft(s)
  {
  }

  lemma StripIdempotent(s: string)
    ensures Strip(Strip(s)) == Strip(s)
  {
    var r := Strip(s);
    assert TrimLeft(r) == r;
    assert TrimRight(r) == r;
  }

  /** `s.split(d)`: the pieces between occurrences of `d`; never empty. */
  function Split(s: string, d: char): (r: seq<string>)
    ensures |r| >= 1
    ensures forall i :: 0 <= i < |r| ==> d !in r[i]
  {
    if s == [] then [[]]
    else
      var rest := Split(s[1..], d);
      if s[0] == d then [[]] + rest else [[s[0]] + rest[0]] + rest[1..]
  }

  /** `d.join(parts)` */
  function Join(parts: seq<string>, d: char): string {
    if |parts| == 0 then []
    else if |parts| == 1 then parts[0]
    else parts[0] + [d] + Join(parts[1..], d)
  }

  /** Joining the pieces back with the separator gives the original string. */
  lemma {:induction false} JoinSplit(s: string, d: char)
    ensures Join(Split(s, d), d) == s
  {
    if s != [] {
      var rest := Split(s[1..], d);
      JoinSplit(s[1..], d);
      if s[0] != d {
        if |rest| == 1 {
        } else {
          assert ([s[0]] + rest[0]) + [d] + Join(rest[1..], d) == [s[0]] + (rest[0] + [d] + Join(rest[1..], d));
        }
      }
    }
  }

  /** Splitting a join of separator-free pieces gives the pieces back. */
  lemma {:induction false} SplitJoin(parts: seq<string>, d: char)
    requires |parts| >= 1
    requires forall i :: 0 <= i < |parts| ==> d !in parts[i]
    ensures Split(Join(parts, d), d) == parts
  {
    if |parts| == 1 {
      SplitNoSeparator(parts[0], d);
    } else {
      SplitJoin(parts[1..], d);
      SplitPrefix(parts[0], Join(parts[1..], d), d);
    }
  }

  lemma {:induction false} SplitNoSeparator(s: string, d: char)
    requires d !in s
    ensures Split(s, d) == [s]
  {
    if s != [] {
      SplitNoSeparator(s[1..], d);
      assert [s[0]] + s[1..] == s;
    }
  }

  lemma {:induction false} SplitPrefix(p: string, t: string, d: char)
    requires d !in p
    ensures Split(p + [d] + t, d) == [p] + Split(t, d)
  {
    if p == [] {
      assert ([d] + t)[1..] == t;
    } else {
      assert (p + [d] + t)[1..] == p[1..] + [d] + t;
      SplitPrefix(p[1..], t, d);
      assert [p[0]] + p[1..] == p;
    }
  }

  /** The position of the first `c` in `s`, if any. */
  function IndexOf(s: string, c: char): (r: Option<nat>)
    ensures r.Some? ==> r.value < |s| && s[r.value] == c && c !in s[..r.value]
    ensures r.None? <==> c !in s
  {
    if s == [] then None
    else if s[0] == c then Some(0)
    else
      var k := IndexOf(s[1..], c);
      if k.Some? then
        assert s[..k.value + 1] == [s[0]] + s[1..][..k.value];
        Some(k.value + 1)
      else None
  }

  predicate StartsWith(s: string, prefix: string) {
    |prefix| <= |s| && s[..|prefix|] == prefix
  }

  predicate OccursAt(s: string, sub: string, i: nat) {
    i + |sub| <= |s| && s[i..i + |sub|] == sub
  }

  /** Python `sub in s` */
  predicate Contains(s: string, sub: string) {
    exists i: nat | i <= |s| :: OccursAt(s, sub, i)
  }

  function Digit(n: nat): char
    requires n < 10
  {
    "0123456789"[n]
  }

  function DigitValue(c: char): nat {
    if '0' <= c <= '9' then c as nat - '0' as nat else 0
  }

  /** The value of a string of decimal digits. */
  function DecimalValue(s: string): nat {
    if s == [] then 0 else 10 * DecimalValue(s[..|s| - 1]) + DigitValue(s[|s| - 1])
  }

  /** `str(n)` for a non-negative integer: its decimal digits. */
  function NatToString(n: nat): (r: string)
    ensures |r| >= 1
    ensures forall i :: 0 <= i < |r| ==> '0' <= r[i] <= '9'
    ensures DecimalValue(r) == n
  {
    if n < 10 then [Digit(n)] else NatToString(n / 10) + [Digit(n % 10)]
  }

  /** `str(i)` for any integer. */
  function IntToString(i: int): (r: string)
    ensures |r| >= 1
    ensures '-' in r <==> i < 0
  {
    if i < 0 then "-" + NatToString(-i) else NatToString(i)
  }
}
