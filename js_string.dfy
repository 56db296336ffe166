/** The JavaScript string operations the editors use: `charCodeAt`, ASCII case
 *  mapping, `includes`, `trim`, `split` with a one-character separator, and
 *  `parseInt`. A character stands for one UTF-16 code unit. */
module JsString {
  import opened JsNumber

  /** `s.charCodeAt(i)`: the code unit at i, or NaN outside the string. */
  function CharCodeAt(s: string, i: int): (r: Num)
    ensures r.Int? <==> 0 <= i < |s|
    ensures r.Int? ==> r.i == s[i] as int
  {
    if 0 <= i < |s| then Int(s[i] as int) else NaN
  }

  function LowerChar(c: char): (r: char)
    ensures 'A' <= c <= 'Z' ==> r as int == c as int + 32
    ensures !('A' <= c <= 'Z') ==> r == c
  {
    if 'A' <= c <= 'Z' then (c as int + 32) as char else c
  }

  function UpperChar(c: char): (r: char)
    ensures 'a' <= c <= 'z' ==> r as int == c as int - 32
    ensures !('a' <= c <= 'z') ==> r == c
  {
    if 'a' <= c <= 'z' then (c as int - 32) as char else c
  }

  /** `s.toLowerCase()`, for the ASCII letters. */
  function ToLower(s: string): (r: string)
    ensures |r| == |s|
    ensures forall i | 0 <= i < |s| :: r[i] == LowerChar(s[i])
  {
    seq(|s|, i requires 0 <= i < |s| => LowerChar(s[i]))
  }

  /** `s.toUpperCase()`, for the ASCII letters. */
  function ToUpper(s: string): (r: string)
    ensures |r| == |s|
    ensures forall i | 0 <= i < |s| :: r[i] == UpperChar(s[i])
  {
    seq(|s|, i requires 0 <= i < |s| => UpperChar(s[i]))
  }

  /** `s.includes(sub)`. */
  predicate Includes(s: string, sub: string)
  {
    exists k :: 0 <= k <= |s| - |sub| && OccursAt(s, sub, k)
  }

  predicate OccursAt(s: string, sub: string, k: int)
  {
    0 <= k && k + |sub| <= |s| && s[k..k + |sub|] == sub
  }

  lemma IncludesEmpty(s: string)
    ensures Includes(s, "")
  {
    assert OccursAt(s, "", 0);
  }

  lemma IncludesItself(s: string)
    ensures Includes(s, s)
  {
    assert OccursAt(s, s, 0);
  }

  /** ECMAScript WhiteSpace and LineTerminator code points, the set `trim` and
   *  `parseInt` skip. */
  predicate IsWhiteSpace(c: char)
  {
    var n := c as int;
    (0x09 <= n <= 0x0D) || n == 0x20 || n == 0xA0 || n == 0x1680 ||
    (0x2000 <= n <= 0x200A) || n == 0x2028 || n == 0x2029 || n == 0x202F ||
    n == 0x205F || n == 0x3000 || n == 0xFEFF
  }

  function TrimStart(s: string): (r: string)
    ensures |r| <= |s| && r == s[|s| - |r|..]
    ensures r != [] ==> !IsWhiteSpace(r[0])
    ensures forall i | 0 <= i < |s| - |r| :: IsWhiteSpace(s[i])
  {
    if s != [] && IsWhiteSpace(s[0]) then TrimStart(s[1..]) else s
  }

  function TrimEnd(s: string): (r: string)
    ensures |r| <= |s| && r == s[..|r|]
    ensures r != [] ==> !IsWhiteSpace(r[|r| - 1])
    ensures forall i | |r| <= i < |s| :: IsWhiteSpace(s[i])
  {
    if s != [] && IsWhiteSpace(s[|s| - 1]) then TrimEnd(s[..|s| - 1]) else s
  }

  /** `s.trim()`. */
  function Trim(s: string): (r: string)
  {
    TrimEnd(TrimStart(s))
  }

  /** A string is blank, `!s.trim()`, exactly when every character is white space. */
  lemma {:induction false} TrimEmptyIffBlank(s: string)
    ensures Trim(s) == "" <==> forall i | 0 <= i < |s| :: IsWhiteSpace(s[i])
  {
    var t := TrimStart(s);
    if t == "" {
      assert Trim(s) == "";
    } else {
      assert !IsWhiteSpace(s[|s| - |t|]);
      assert TrimEnd(t) != "";
    }
  }

  /** The first index of c in s. */
  function IndexOf(s: string, c: char): (k: nat)
    requires c in s
    ensures k < |s| && s[k] == c && c !in s[..k]
  {
    if s[0] == c then 0 else IndexOf(s[1..], c) + 1
  }

  /** `s.split(sep)` for a one-character separator. */
  function Split(s: string, sep: char): (parts: seq<string>)
    ensures |parts| >= 1
    ensures forall p | p in parts :: sep !in p
    decreases |s|
  {
    if sep !in s then [s]
    else
      var k := IndexOf(s, sep);
      [s[..k]] + Split(s[k + 1..], sep)
  }

  /** `parts.join(sep)`. */
  function Join(parts: seq<string>, sep: string): (r: string)
  {
    if parts == [] then ""
    else if |parts| == 1 then parts[0]
    else Join(parts[..|parts| - 1], sep) + sep + parts[|parts| - 1]
  }

  /** Joining what a split produced gives the string back. */
  lemma {:induction false} JoinSplit(s: string, sep: char)
    ensures Join(Split(s, sep), [sep]) == s
    decreases |s|
  {
    if sep in s {
      var k := IndexOf(s, sep);
      var rest := Split(s[k + 1..], sep);
      JoinSplit(s[k + 1..], sep);
      JoinCons(s[..k], rest, [sep]);
      assert s == s[..k] + [sep] + s[k + 1..];
    }
  }

  lemma {:induction false} JoinCons(head: string, tail: seq<string>, sep: string)
    requires |tail| >= 1
    ensures Join([head] + tail, sep) == head + sep + Join(tail, sep)
    decreases |tail|
  {
    var all := [head] + tail;
    if |tail| > 1 {
      assert all[..|all| - 1] == [head] + tail[..|tail| - 1];
      JoinCons(head, tail[..|tail| - 1], sep);
    } else {
      assert all == [head, tail[0]];
    }
  }

  /** The decimal spelling of n, as `String(n)` gives it. */
  function NatToString(n: nat): (r: string)
    ensures |r| >= 1
    ensures forall i | 0 <= i < |r| :: '0' <= r[i] <= '9'
  {
    if n < 10 then [DigitChar(n)] else NatToString(n / 10) + [DigitChar(n % 10)]
  }

  function DigitChar(d: nat): (c: char)
    requires d < 10
    ensures '0' <= c <= '9' && c as int - '0' as int == d
  {
    ('0' as int + d) as char
  }

  /** `parseInt(s, 10)`, `parseInt(s, 16)` and `parseInt(s)`. */
  datatype Radix = Decimal | Hexadecimal | Unspecified

  /** The value of c as a digit in base 10 or 16, or -1 when it is none. */
  function DigitValue(c: char, base: nat): (d: int)
    requires base == 10 || base == 16
    ensures -1 <= d < base as int
  {
    if '0' <= c <= '9' then c as int - '0' as int
    else if base == 16 && 'a' <= c <= 'f' then c as int - 'a' as int + 10
    else if base == 16 && 'A' <= c <= 'F' then c as int - 'A' as int + 10
    else -1
  }

  predicate AllDigits(s: string, base: nat)
    requires base == 10 || base == 16
  {
    forall i | 0 <= i < |s| :: DigitValue(s[i], base) >= 0
  }

  /** The longest prefix of s made of digits. */
  function DigitPrefix(s: string, base: nat): (r: string)
    requires base == 10 || base == 16
    ensures |r| <= |s| && r == s[..|r|] && AllDigits(r, base)
    ensures |r| < |s| ==> DigitValue(s[|r|], base) < 0
  {
    if s != [] && DigitValue(s[0], base) >= 0 then [s[0]] + DigitPrefix(s[1..], base) else ""
  }

  /** The value of a digit string, most significant digit first. */
  function DigitsValue(s: string, base: nat): (v: nat)
    requires base == 10 || base == 16
    requires AllDigits(s, base)
  {
    if s == [] then 0
    else DigitsValue(s[..|s| - 1], base) * base + DigitValue(s[|s| - 1], base)
  }

  /** `parseInt`: leading white space is skipped, then an optional sign, then
   *  (radix 16 or none) an optional 0x/0X prefix that selects base 16; the
   *  longest run of digits is read, and NaN results when there is none. */
  function ParseInt(s: string, radix: Radix): (r: Num)
  {
    var t := TrimStart(s);
    var negative := |t| > 0 && t[0] == '-';
    var u := if |t| > 0 && (t[0] == '-' || t[0] == '+') then t[1..] else t;
    var prefixed := radix != Decimal && |u| >= 2 && u[0] == '0' && (u[1] == 'x' || u[1] == 'X');
    var base := if prefixed || radix == Hexadecimal then 16 else 10;
    var digits := DigitPrefix(if prefixed then u[2..] else u, base);
    if digits == [] then NaN
    else if negative then Int(0 - DigitsValue(digits, base) as int)
    else Int(DigitsValue(digits, base))
  }

  /** A string of digits with nothing before or after reads as its value. */
  lemma ParseIntDigits(s: string, radix: Radix)
    requires radix != Unspecified && s != []
    requires AllDigits(s, if radix == Hexadecimal then 16 else 10)
    ensures ParseInt(s, radix) == Int(DigitsValue(s, if radix == Hexadecimal then 16 else 10))
  {
    var base := if radix == Hexadecimal then 16 else 10;
    assert DigitValue(s[0], base) >= 0;
    assert !IsWhiteSpace(s[0]) && s[0] != '-' && s[0] != '+';
    assert TrimStart(s) == s;
    assert |s| >= 2 ==> DigitValue(s[1], base) >= 0 && s[1] != 'x' && s[1] != 'X';
    DigitPrefixOfDigits(s, base);
  }

  lemma {:induction false} DigitPrefixOfDigits(s: string, base: nat)
    requires base == 10 || base == 16
    requires AllDigits(s, base)
    ensures DigitPrefix(s, base) == s
  {
    if s != [] {
      assert AllDigits(s[1..], base) by {
        forall i | 0 <= i < |s[1..]| ensures DigitValue(s[1..][i], base) >= 0 {
          assert s[1..][i] == s[i + 1];
        }
      }
      DigitPrefixOfDigits(s[1..], base);
    }
  }

  /** Four hexadecimal digits read as a number below 2^16. */
  lemma {:induction false} HexDigitsBound(s: string)
    requires AllDigits(s, 16)
    ensures DigitsValue(s, 16) < Pow16(|s|)
  {
    if s != [] {
      var p := s[..|s| - 1];
      assert AllDigits(p, 16) by {
        forall i | 0 <= i < |p| ensures DigitValue(p[i], 16) >= 0 {
          assert p[i] == s[i];
        }
      }
      HexDigitsBound(p);
    }
  }

  function Pow16(k: nat): (r: nat)
    ensures r >= 1
  {
    if k == 0 then 1 else 16 * Pow16(k - 1)
  }

  // ---------------------------------------------------------------------
  // Comparison

  /** `a < b` on strings: lexicographic order on UTF-16 code units, a proper
   *  prefix coming first. */
  predicate StrLess(a: string, b: string)
  {
    if |b| == 0 then false
    else if |a| == 0 then true
    else if a[0] != b[0] then a[0] < b[0]
    else StrLess(a[1..], b[1..])
  }

  lemma {:induction false} StrLessIrreflexive(a: string)
    ensures !StrLess(a, a)
  {
    if |a| > 0 {
      StrLessIrreflexive(a[1..]);
    }
  }

  /** Exactly one of `a < b`, `a === b` and `b < a` holds. */
  lemma {:induction false} StrLessTrichotomy(a: string, b: string)
    ensures StrLess(a, b) || a == b || StrLess(b, a)
    ensures !(StrLess(a, b) && StrLess(b, a))
    ensures a == b ==> !StrLess(a, b)
  {
    if |a| > 0 && |b| > 0 && a[0] == b[0] {
      StrLessTrichotomy(a[1..], b[1..]);
      if a[1..] == b[1..] {
        assert a == [a[0]] + a[1..] && b == [b[0]] + b[1..];
      }
    }
    if a == b {
      StrLessIrreflexive(a);
    }
  }

  lemma {:induction false} StrLessTransitive(a: string, b: string, c: string)
    requires StrLess(a, b) && StrLess(b, c)
    ensures StrLess(a, c)
  {
    if |a| > 0 && a[0] == b[0] && b[0] == c[0] {
      StrLessTransitive(a[1..], b[1..], c[1..]);
    }
  }

  /** `<` on strings is a strict total order. */
  lemma StrLessStrictTotalOrder()
    ensures forall a :: !StrLess(a, a)
    ensures forall a, b :: StrLess(a, b) || a == b || StrLess(b, a)
    ensures forall a, b, c | StrLess(a, b) && StrLess(b, c) :: StrLess(a, c)
  {
    forall a ensures !StrLess(a, a) {
      StrLessIrreflexive(a);
    }
    forall a, b ensures StrLess(a, b) || a == b || StrLess(b, a) {
      StrLessTrichotomy(a, b);
    }
    forall a, b, c | StrLess(a, b) && StrLess(b, c) ensures StrLess(a, c) {
      StrLessTransitive(a, b, c);
    }
  }

  /** Every non-empty set of strings has a least element. */
  lemma {:induction false} StrLessMinimum(keys: set<string>)
    requires keys != {}
    ensures exists m | m in keys :: forall x | x in keys :: !StrLess(x, m)
    decreases |keys|
  {
    StrLessStrictTotalOrder();
    var y :| y in keys;
    var rest := keys - {y};
    if rest == {} {
      assert forall x | x in keys :: x in rest || x == y;
    } else {
      StrLessMinimum(rest);
      var m :| m in rest && forall x | x in rest :: !StrLess(x, m);
      if StrLess(y, m) {
        assert forall x | x in keys :: !StrLess(x, y);
      } else {
        assert forall x | x in keys :: !StrLess(x, m);
      }
    }
  }

  /** A least element of a set of strings is below every other member. */
  lemma StrLessLeastBelowOthers(keys: set<string>, m: string)
    requires m in keys && forall x | x in keys :: !StrLess(x, m)
    ensures forall x | x in keys && x != m :: StrLess(m, x)
  {
    forall x | x in keys && x != m ensures StrLess(m, x) {
      StrLessTrichotomy(m, x);
    }
  }
}
