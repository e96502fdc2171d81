/** The Python `str` operations the timetable code relies on, on `seq<char>`:
    `strip`, `lower`, `upper`, `capitalize`, `startswith`, `in`, `replace`, `isdigit`,
    and the `str()` / `int()` conversions of numbers. */
module PyText {

  /** The characters `str.strip()` removes: Unicode white space and separators,
      and the ASCII information separators 0x1C..0x1F. */
  const Spaces: set<char> := {
    ' ', '\t', '\n', '\U{B}', '\U{C}', '\r', '\U{1C}', '\U{1D}', '\U{1E}', '\U{1F}',
    '\U{85}', '\U{A0}', '\U{1680}', '\U{2000}', '\U{2001}', '\U{2002}', '\U{2003}',
    '\U{2004}', '\U{2005}', '\U{2006}', '\U{2007}', '\U{2008}', '\U{2009}', '\U{200A}',
    '\U{2028}', '\U{2029}', '\U{202F}', '\U{205F}', '\U{3000}'}

  /** `c.isspace()`. */
  predicate IsSpace(c: char) {
    c in Spaces
  }

  /** The first `m` characters of `s[n..]` are `s[n..n + m]`. */
  lemma PrefixOfSuffix(s: string, n: nat, m: nat)
    requires n + m <= |s|
    ensures s[n..][..m] == s[n..n + m]
  {
  }

  /** `s.lstrip()`: `s` without its leading white space. */
  function TrimStart(s: string): (r: string)
    ensures |r| <= |s|
  {
    if s != [] && IsSpace(s[0]) then TrimStart(s[1..]) else s
  }

  /** `TrimStart` drops the longest all-white-space prefix and keeps the rest. */
  lemma {:induction false} TrimStartSpec(s: string)
    ensures TrimStart(s) == s[|s| - |TrimStart(s)|..]
    ensures forall k :: 0 <= k < |s| - |TrimStart(s)| ==> IsSpace(s[k])
    ensures TrimStart(s) == [] || !IsSpace(TrimStart(s)[0])
  {
    if s != [] && IsSpace(s[0]) {
      TrimStartSpec(s[1..]);
      forall k | 0 < k < |s| - |TrimStart(s)| ensures IsSpace(s[k]) {
        assert s[k] == s[1..][k - 1];
      }
    }
  }

  /** `s.rstrip()`: `s` without its trailing white space. */
  function TrimEnd(s: string): (r: string)
    ensures |r| <= |s|
  {
    if s != [] && IsSpace(s[|s| - 1]) then TrimEnd(s[..|s| - 1]) else s
  }

  /** `TrimEnd` drops the longest all-white-space suffix and keeps the rest. */
  lemma {:induction false} TrimEndSpec(s: string)
    ensures TrimEnd(s) == s[..|TrimEnd(s)|]
    ensures forall k :: |TrimEnd(s)| <= k < |s| ==> IsSpace(s[k])
    ensures TrimEnd(s) == [] || !IsSpace(TrimEnd(s)[|TrimEnd(s)| - 1])
  {
    if s != [] && IsSpace(s[|s| - 1]) {
      var p := s[..|s| - 1];
      TrimEndSpec(p);
      forall k | |TrimEnd(s)| <= k < |s| - 1 ensures IsSpace(s[k]) {
        assert s[k] == p[k];
      }
    }
  }

  /** `s.strip()`: `s` without its leading and trailing white space. */
  function Strip(s: string): string {
    TrimEnd(TrimStart(s))
  }

  /** `strip` keeps a contiguous part of `s` that neither starts nor ends with
      white space, and what it drops on either side is all white space. */
  lemma StripSlice(s: string)
    ensures var n := |s| - |TrimStart(s)|;
      n + |Strip(s)| <= |s| && Strip(s) == s[n..n + |Strip(s)|]
    ensures forall k :: 0 <= k < |s| - |TrimStart(s)| ==> IsSpace(s[k])
    ensures forall k :: |s| - |TrimStart(s)| + |Strip(s)| <= k < |s| ==> IsSpace(s[k])
    ensures Strip(s) != [] ==> !IsSpace(Strip(s)[0]) && !IsSpace(Strip(s)[|Strip(s)| - 1])
  {
    var t := TrimStart(s);
    var n := |s| - |t|;
    var m := |Strip(s)|;
    TrimStartSpec(s);
    TrimEndSpec(t);
    PrefixOfSuffix(s, n, m);
    assert t == s[n..];
    forall k | n + m <= k < |s| ensures IsSpace(s[k]) {
      assert t[k - n] == s[n..][k - n] == s[k];
    }
    if m > 0 {
      assert Strip(s)[0] == t[0];
    }
  }

  /** `strip` leaves nothing exactly when `s` is all white space. */
  lemma StripAllSpace(s: string)
    ensures Strip(s) == [] <==> forall k :: 0 <= k < |s| ==> IsSpace(s[k])
  {
    var t := TrimStart(s);
    TrimStartSpec(s);
    TrimEndSpec(t);
    if Strip(s) == [] {
      assert t == [];
    } else if t != [] {
      assert !IsSpace(s[|s| - |t|]);
    }
  }

  /** `strip` keeps a contiguous part of `s` that neither starts nor ends with
      white space, drops only white space on either side, and leaves nothing
      exactly when `s` is all white space. */
  lemma StripSpec(s: string)
    ensures var n := |s| - |TrimStart(s)|;
      n + |Strip(s)| <= |s| && Strip(s) == s[n..n + |Strip(s)|]
    ensures forall k :: 0 <= k < |s| - |TrimStart(s)| ==> IsSpace(s[k])
    ensures forall k :: |s| - |TrimStart(s)| + |Strip(s)| <= k < |s| ==> IsSpace(s[k])
    ensures Strip(s) == [] <==> forall k :: 0 <= k < |s| ==> IsSpace(s[k])
    ensures Strip(s) != [] ==> !IsSpace(Strip(s)[0]) && !IsSpace(Strip(s)[|Strip(s)| - 1])
  {
    StripSlice(s);
    StripAllSpace(s);
  }

  /** `c.lower()` for ASCII and the basic Cyrillic block (U+0400..U+042F). */
  function LowerChar(c: char): char {
    if 'A' <= c <= 'Z' || '\U{410}' <= c <= '\U{42F}' then (c as int + 32) as char
    else if '\U{400}' <= c <= '\U{40F}' then (c as int + 80) as char
    else c
  }

  /** `c.upper()` for ASCII and the basic Cyrillic block (U+0430..U+045F). */
  function UpperChar(c: char): char {
    if 'a' <= c <= 'z' || '\U{430}' <= c <= '\U{44F}' then (c as int - 32) as char
    else if '\U{450}' <= c <= '\U{45F}' then (c as int - 80) as char
    else c
  }

  /** `s.lower()`. */
  function Lower(s: string): (r: string)
    ensures |r| == |s|
  {
    if s == [] then [] else [LowerChar(s[0])] + Lower(s[1..])
  }

  /** `s.upper()`. */
  function Upper(s: string): (r: string)
    ensures |r| == |s|
  {
    if s == [] then [] else [UpperChar(s[0])] + Upper(s[1..])
  }

  /** `Lower` maps every character on its own. */
  lemma {:induction false} LowerAt(s: string)
    ensures forall k :: 0 <= k < |s| ==> Lower(s)[k] == LowerChar(s[k])
  {
    if s != [] {
      LowerAt(s[1..]);
    }
  }

  /** `Upper` maps every character on its own. */
  lemma {:induction false} UpperAt(s: string)
    ensures forall k :: 0 <= k < |s| ==> Upper(s)[k] == UpperChar(s[k])
  {
    if s != [] {
      UpperAt(s[1..]);
    }
  }

  /** `s.capitalize()`: the first character upper-cased, the rest lower-cased. */
  function Capitalize(s: string): (r: string)
    ensures |r| == |s|
  {
    if s == [] then [] else [UpperChar(s[0])] + Lower(s[1..])
  }

  /** `capitalize` upper-cases the first character and lower-cases every other
      one. */
  lemma CapitalizeAt(s: string)
    ensures s != [] ==> Capitalize(s)[0] == UpperChar(s[0])
    ensures forall k :: 1 <= k < |s| ==> Capitalize(s)[k] == LowerChar(s[k])
  {
    if s != [] {
      LowerAt(s[1..]);
      forall k | 1 <= k < |s| ensures Capitalize(s)[k] == LowerChar(s[k]) {
        assert Capitalize(s)[k] == Lower(s[1..])[k - 1];
      }
    }
  }

  /** Upper-casing a second time changes nothing, so `group.upper().upper()`
      is `group.upper()`. */
  lemma UpperIdempotent(s: string)
    ensures Upper(Upper(s)) == Upper(s)
  {
    UpperAt(s);
    UpperAt(Upper(s));
  }

  /** `s.startswith(prefix)`. */
  predicate StartsWith(s: string, prefix: string) {
    |prefix| <= |s| && s[..|prefix|] == prefix
  }

  /** `sub in s`: `sub` occurs somewhere in `s`. */
  predicate Contains(s: string, sub: string)
    decreases |s|
  {
    StartsWith(s, sub) || (s != [] && Contains(s[1..], sub))
  }

  /** `sub` occurs in `s` starting at index `i`. */
  predicate OccursAt(s: string, sub: string, i: int) {
    0 <= i && i + |sub| <= |s| && s[i..i + |sub|] == sub
  }

  /** `Contains` holds exactly when `sub` occurs at some index of `s`. */
  lemma {:induction false} ContainsAt(s: string, sub: string)
    ensures Contains(s, sub) <==> exists i :: OccursAt(s, sub, i)
    decreases |s|
  {
    if s == [] {
      if StartsWith(s, sub) {
        assert OccursAt(s, sub, 0);
      }
    } else {
      ContainsAt(s[1..], sub);
      if StartsWith(s, sub) {
        assert OccursAt(s, sub, 0);
      }
      if exists i :: OccursAt(s, sub, i) {
        var i :| OccursAt(s, sub, i);
        if i > 0 {
          assert OccursAt(s[1..], sub, i - 1);
        }
      }
      if Contains(s[1..], sub) {
        var i :| OccursAt(s[1..], sub, i);
        assert OccursAt(s, sub, i + 1);
      }
    }
  }

  /** `s.replace(target, subst)` for single characters. */
  function ReplaceChar(s: string, target: char, subst: char): (r: string)
    ensures |r| == |s|
  {
    if s == [] then [] else [if s[0] == target then subst else s[0]] + ReplaceChar(s[1..], target, subst)
  }

  /** `replace` puts `subst` where `s` holds `target` and keeps every other
      character, so no `target` is left unless it is also `subst`. */
  lemma {:induction false} ReplaceCharAt(s: string, target: char, subst: char)
    ensures forall k :: 0 <= k < |s| ==>
      ReplaceChar(s, target, subst)[k] == if s[k] == target then subst else s[k]
    ensures target != subst ==> target !in ReplaceChar(s, target, subst)
  {
    if s != [] {
      ReplaceCharAt(s[1..], target, subst);
      var r := ReplaceChar(s, target, subst);
      forall k | 1 <= k < |s| ensures r[k] == if s[k] == target then subst else s[k] {
        assert r[k] == ReplaceChar(s[1..], target, subst)[k - 1];
      }
    }
  }

  /** Replacing characters distributes over concatenation. */
  lemma {:induction false} ReplaceCharAppend(a: string, b: string, target: char, subst: char)
    ensures ReplaceChar(a + b, target, subst) == ReplaceChar(a, target, subst) + ReplaceChar(b, target, subst)
  {
    if a != [] {
      assert (a + b)[0] == a[0];
      assert (a + b)[1..] == a[1..] + b;
      ReplaceCharAppend(a[1..], b, target, subst);
    } else {
      assert a + b == b;
    }
  }

  /** A text without the target character is left alone. */
  lemma {:induction false} ReplaceCharAbsent(s: string, target: char, subst: char)
    requires target !in s
    ensures ReplaceChar(s, target, subst) == s
  {
    if s != [] {
      assert target !in s[1..];
      ReplaceCharAbsent(s[1..], target, subst);
    }
  }

  /** `c.isdigit()`, restricted to the ASCII digits. */
  predicate IsDigit(c: char) {
    '0' <= c <= '9'
  }

  /** `int(c)` for an ASCII digit. */
  function DigitValue(c: char): (d: nat)
    requires IsDigit(c)
    ensures d <= 9
  {
    c as int - '0' as int
  }

  function DigitChar(d: nat): (c: char)
    requires d <= 9
    ensures IsDigit(c) && DigitValue(c) == d
  {
    ('0' as int + d) as char
  }

  /** `str(n)` for a non-negative integer: its decimal digits, most significant first. */
  function NatToString(n: nat): (r: string)
    ensures r != []
    ensures forall k :: 0 <= k < |r| ==> IsDigit(r[k])
    ensures r[0] == '0' ==> n == 0
  {
    if n < 10 then [DigitChar(n)] else NatToString(n / 10) + [DigitChar(n % 10)]
  }

  /** The number a string of ASCII digits denotes. */
  function DecimalValue(s: string): nat
    requires forall k :: 0 <= k < |s| ==> IsDigit(s[k])
  {
    if s == [] then 0 else 10 * DecimalValue(s[..|s| - 1]) + DigitValue(s[|s| - 1])
  }

  /** Reading back the digits `str(n)` writes gives `n`. */
  lemma {:induction false} NatToStringRoundTrip(n: nat)
    ensures DecimalValue(NatToString(n)) == n
  {
    if n >= 10 {
      NatToStringRoundTrip(n / 10);
      var r := NatToString(n);
      assert r[..|r| - 1] == NatToString(n / 10);
    }
  }

  /** `str(i)` for an integer: a minus sign before the digits of a negative number. */
  function IntToString(i: int): (r: string)
    ensures r != [] && (r[0] == '-' <==> i < 0)
    ensures forall k :: 0 < k < |r| ==> IsDigit(r[k])
    ensures var d := if i < 0 then 1 else 0; d < |r| && (r[d] == '0' ==> i == 0)
  {
    if i < 0 then "-" + NatToString(-i) else NatToString(i)
  }

  /** Reading back `str(i)`: a minus sign exactly for a negative `i`, then the
      digits of its magnitude. */
  lemma {:induction false} IntToStringRoundTrip(i: int)
    ensures var r := IntToString(i);
      var digits := if i < 0 then r[1..] else r;
      (forall k :: 0 <= k < |digits| ==> IsDigit(digits[k])) &&
      DecimalValue(digits) == (if i < 0 then -i else i)
  {
    if i < 0 {
      NatToStringRoundTrip(-i);
      assert IntToString(i)[1..] == NatToString(-i);
    } else {
      NatToStringRoundTrip(i);
    }
  }

  /** `int(v)` for a float: truncation toward zero. */
  function Trunc(v: real): (r: int)
    ensures 0.0 <= v ==> 0 <= r && r as real <= v < r as real + 1.0
    ensures v < 0.0 ==> r <= 0 && r as real - 1.0 < v <= r as real
    ensures v == v.Floor as real ==> r as real == v
  {
    if v >= 0.0 then
      v.Floor
    else
      var f := (-v).Floor;
      assert f as real <= -v < f as real + 1.0;
      assert v == v.Floor as real ==> f == -v.Floor by {
        if v == v.Floor as real {
          var n := v.Floor;
          assert -v == (-n) as real;
          assert ((-n) as real).Floor == -n;
        }
      }
      -f
  }
}
