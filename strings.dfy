/** The `String.prototype` methods, the `/\s+/g` replacements and the
    `Number(string)` conversion the import parser relies on. Strings here are
    sequences of Unicode scalar values, one `char` each; only `Prng.Utf16`
    counts UTF-16 code units. Case mapping covers the ASCII letters only. */
module JsString {
  import Js

  /** What `\s` matches and `trim` removes: the white-space and
      line-terminator code points of ECMAScript. */
  predicate IsSpace(c: char)
  {
    c == ' ' || c == '\t' || c == '\n' || c == '\r' || c == '\U{000B}' || c == '\U{000C}' ||
    c == '\U{00A0}' || c == '\U{1680}' || ('\U{2000}' <= c <= '\U{200A}') || c == '\U{2028}' ||
    c == '\U{2029}' || c == '\U{202F}' || c == '\U{205F}' || c == '\U{3000}' || c == '\U{FEFF}'
  }

  predicate NoSpace(s: string)
  {
    forall i :: 0 <= i < |s| ==> !IsSpace(s[i])
  }

  /** Neither end of `s` is white space. */
  predicate Unpadded(s: string)
  {
    s == [] || (!IsSpace(s[0]) && !IsSpace(s[|s| - 1]))
  }

  /** `trimStart()` */
  function TrimStart(s: string): (r: string)
    ensures |r| <= |s| && r == s[|s| - |r|..]
    ensures forall i :: 0 <= i < |s| - |r| ==> IsSpace(s[i])
    ensures r != [] ==> !IsSpace(r[0])
  {
    if s == [] || !IsSpace(s[0]) then s else TrimStart(s[1..])
  }

  /** `trimEnd()` */
  function TrimEnd(s: string): (r: string)
    ensures |r| <= |s| && r == s[..|r|]
    ensures forall i :: |r| <= i < |s| ==> IsSpace(s[i])
    ensures r != [] ==> !IsSpace(r[|r| - 1])
  {
    if s == [] || !IsSpace(s[|s| - 1]) then s else TrimEnd(s[..|s| - 1])
  }

  /** `trim()`: white space removed from both ends, and only there. */
  function Trim(s: string): (r: string)
    ensures Unpadded(r)
    ensures |r| <= |TrimStart(s)| && r == TrimStart(s)[..|r|]
    ensures Unpadded(s) ==> r == s
  {
    var t := TrimStart(s);
    var r := TrimEnd(t);
    assert r != [] ==> r[0] == t[0];
    r
  }

  /** An ASCII upper-case letter. */
  predicate IsUpper(c: char) { 'A' <= c <= 'Z' }

  /** An ASCII lower-case letter. */
  predicate IsLower(c: char) { 'a' <= c <= 'z' }

  function LowerChar(c: char): char
  {
    if IsUpper(c) then (c as int + 32) as char else c
  }

  function UpperChar(c: char): char
  {
    if IsLower(c) then (c as int - 32) as char else c
  }

  /** `toLowerCase()` on ASCII letters. */
  function Lower(s: string): (r: string)
    ensures |r| == |s| && forall i :: 0 <= i < |r| ==> r[i] == LowerChar(s[i]) && !IsUpper(r[i])
  {
    seq(|s|, i requires 0 <= i < |s| => LowerChar(s[i]))
  }

  /** `toUpperCase()` on ASCII letters. */
  function Upper(s: string): (r: string)
    ensures |r| == |s| && forall i :: 0 <= i < |r| ==> r[i] == UpperChar(s[i]) && !IsLower(r[i])
  {
    seq(|s|, i requires 0 <= i < |s| => UpperChar(s[i]))
  }

  /** `replace(/\s+/g, repl)`: every run of white space becomes one `repl`. */
  function Collapse(s: string, repl: char): (r: string)
    ensures s != [] && !IsSpace(s[0]) ==> r != [] && r[0] == s[0]
    decreases |s|
  {
    if s == [] then []
    else if IsSpace(s[0]) then
      var t := TrimStart(s);
      assert |t| < |s| by { assert t == [] || !IsSpace(t[0]); }
      [repl] + Collapse(t, repl)
    else
      [s[0]] + Collapse(s[1..], repl)
  }

  predicate NoUpper(s: string)
  {
    forall i :: 0 <= i < |s| ==> !IsUpper(s[i])
  }

  /** Collapsing keeps a string free of upper-case letters. */
  lemma {:induction false} CollapseNoUpper(s: string, repl: char)
    requires NoUpper(s) && !IsUpper(repl)
    ensures NoUpper(Collapse(s, repl))
    decreases |s|
  {
    if s != [] {
      var t := if IsSpace(s[0]) then TrimStart(s) else s[1..];
      assert NoUpper(t) by {
        forall i | 0 <= i < |t| ensures !IsUpper(t[i]) {
          assert t[i] == s[|s| - |t| + i];
        }
      }
      CollapseNoUpper(t, repl);
      var rest := Collapse(t, repl);
      var head := if IsSpace(s[0]) then repl else s[0];
      assert Collapse(s, repl) == [head] + rest;
    }
  }

  /** The only white space in `s` is `c`. */
  predicate SpacesAre(s: string, c: char)
  {
    forall i :: 0 <= i < |s| && IsSpace(s[i]) ==> s[i] == c
  }

  /** After collapsing, the only white space left is `repl` itself. */
  lemma {:induction false} CollapseLeavesRepl(s: string, repl: char)
    ensures SpacesAre(Collapse(s, repl), repl)
    decreases |s|
  {
    if s != [] {
      var t := if IsSpace(s[0]) then TrimStart(s) else s[1..];
      CollapseLeavesRepl(t, repl);
      var rest := Collapse(t, repl);
      var head := if IsSpace(s[0]) then repl else s[0];
      var r := Collapse(s, repl);
      assert r == [head] + rest;
      forall i | 0 <= i < |r| && IsSpace(r[i]) ensures r[i] == repl {
        if i > 0 {
          assert r[i] == rest[i - 1];
        }
      }
    }
  }

  /** The white space of `s` is single `' '` characters. */
  predicate SingleSpaced(s: string)
  {
    forall i :: 0 <= i < |s| && IsSpace(s[i]) ==> s[i] == ' ' && (i + 1 < |s| ==> !IsSpace(s[i + 1]))
  }

  /** Collapsing with a single space leaves only single spaces. */
  lemma {:induction false} CollapseIsSingleSpaced(s: string)
    ensures SingleSpaced(Collapse(s, ' '))
    decreases |s|
  {
    if s != [] {
      if IsSpace(s[0]) {
        var t := TrimStart(s);
        CollapseIsSingleSpaced(t);
        var rest := Collapse(t, ' ');
        assert rest != [] ==> !IsSpace(rest[0]) by {
          if t != [] {
            assert !IsSpace(t[0]);
          }
        }
      } else {
        CollapseIsSingleSpaced(s[1..]);
      }
    }
  }

  lemma SingleSpacedTail(s: string)
    requires s != [] && SingleSpaced(s)
    ensures SingleSpaced(s[1..])
  {
    forall i | 0 <= i < |s| - 1 && IsSpace(s[1..][i])
      ensures s[1..][i] == ' ' && (i + 1 < |s| - 1 ==> !IsSpace(s[1..][i + 1]))
    {
      assert s[1..][i] == s[i + 1];
      assert i + 1 < |s| - 1 ==> s[1..][i + 1] == s[i + 2];
    }
  }

  lemma LoneSpace(s: string)
    requires s != [] && SingleSpaced(s) && IsSpace(s[0])
    ensures s[0] == ' ' && TrimStart(s) == s[1..]
  {
    var t := s[1..];
    if t != [] {
      assert t[0] == s[1];
    }
  }

  /** A string that is already single-spaced is left as it is. */
  lemma {:induction false} CollapseOfSingleSpaced(s: string)
    requires SingleSpaced(s)
    ensures Collapse(s, ' ') == s
    decreases |s|
  {
    if s != [] {
      SingleSpacedTail(s);
      CollapseOfSingleSpaced(s[1..]);
      if IsSpace(s[0]) {
        LoneSpace(s);
      }
      assert s == [s[0]] + s[1..];
    }
  }

  /** Collapsing keeps a non-blank last character last. */
  lemma {:induction false} CollapseKeepsLast(s: string, repl: char)
    requires s != [] && !IsSpace(s[|s| - 1])
    ensures var r := Collapse(s, repl); r != [] && r[|r| - 1] == s[|s| - 1]
    decreases |s|
  {
    if IsSpace(s[0]) {
      var t := TrimStart(s);
      assert t != [] && t[|t| - 1] == s[|s| - 1];
      CollapseKeepsLast(t, repl);
    } else if |s| > 1 {
      CollapseKeepsLast(s[1..], repl);
    }
  }

  /** An unpadded string stays unpadded when its white space is collapsed. */
  lemma CollapseKeepsUnpadded(s: string, repl: char)
    requires Unpadded(s)
    ensures Unpadded(Collapse(s, repl))
  {
    if s != [] {
      CollapseKeepsLast(s, repl);
    }
  }

  lemma AppendAssoc(x: string, y: string, z: string)
    ensures x + (y + z) == x + y + z
  {
  }

  predicate NoLower(s: string)
  {
    forall i :: 0 <= i < |s| ==> !IsLower(s[i])
  }

  /** Removing white space adds no lower-case letter. */
  lemma {:induction false} RemoveSpacesNoLower(s: string)
    requires NoLower(s)
    ensures NoLower(RemoveSpaces(s))
    decreases |s|
  {
    if s != [] {
      assert NoLower(s[1..]) by {
        forall i | 0 <= i < |s| - 1 ensures !IsLower(s[1..][i]) {
          assert s[1..][i] == s[i + 1];
        }
      }
      RemoveSpacesNoLower(s[1..]);
      var head := if IsSpace(s[0]) then [] else [s[0]];
      var rest := RemoveSpaces(s[1..]);
      assert RemoveSpaces(s) == head + rest;
      forall i | 0 <= i < |head + rest| ensures !IsLower((head + rest)[i]) {
        if i < |head| {
          assert (head + rest)[i] == s[0];
        } else {
          assert (head + rest)[i] == rest[i - |head|];
        }
      }
    }
  }

  /** `replace(/\s+/g, "")`: all white space removed. */
  function RemoveSpaces(s: string): (r: string)
    ensures NoSpace(r)
    ensures NoSpace(s) ==> r == s
    ensures |r| <= |s|
  {
    if s == [] then []
    else
      var rest := RemoveSpaces(s[1..]);
      (if IsSpace(s[0]) then [] else [s[0]]) + rest
  }

  /** Removing white space works stretch by stretch, so the kept characters stay in order. */
  lemma {:induction false} RemoveSpacesAppend(x: string, y: string)
    ensures RemoveSpaces(x + y) == RemoveSpaces(x) + RemoveSpaces(y)
    decreases |x|
  {
    if x != [] {
      assert (x + y)[0] == x[0];
      assert (x + y)[1..] == x[1..] + y;
      RemoveSpacesAppend(x[1..], y);
    } else {
      assert x + y == y;
    }
  }

  /** A single character is dropped exactly when it is white space. */
  lemma RemoveSpacesOfOne(c: char)
    ensures RemoveSpaces([c]) == if IsSpace(c) then [] else [c]
  {
    assert [c][1..] == [];
  }

  /** `replace(new RegExp(c, "g"), d)` for a single character `c`. */
  function ReplaceAll(s: string, c: char, d: char): (r: string)
    ensures |r| == |s| && forall i :: 0 <= i < |s| ==> r[i] == (if s[i] == c then d else s[i])
  {
    seq(|s|, i requires 0 <= i < |s| => if s[i] == c then d else s[i])
  }

  /** `replace(new RegExp(c, "g"), "")` for a single character `c`. */
  function RemoveAll(s: string, c: char): (r: string)
    ensures c !in r
    ensures |r| <= |s|
    ensures c !in s ==> r == s
  {
    if s == [] then []
    else (if s[0] == c then [] else [s[0]]) + RemoveAll(s[1..], c)
  }

  /** `indexOf(c)` */
  function IndexOf(s: string, c: char): (i: int)
    ensures i == -1 <==> c !in s
    ensures i != -1 ==> 0 <= i < |s| && s[i] == c && c !in s[..i]
  {
    if s == [] then -1
    else if s[0] == c then 0
    else
      var j := IndexOf(s[1..], c);
      if j == -1 then -1 else j + 1
  }

  /** `lastIndexOf(c)` */
  function LastIndexOf(s: string, c: char): (i: int)
    ensures i == -1 <==> c !in s
    ensures i != -1 ==> 0 <= i < |s| && s[i] == c && c !in s[i + 1..]
  {
    if s == [] then -1
    else if s[|s| - 1] == c then |s| - 1
    else LastIndexOf(s[..|s| - 1], c)
  }

  /** `replace(c, d)` with a string pattern: only the first `c` is replaced. */
  function ReplaceFirst(s: string, c: char, d: char): (r: string)
    ensures |r| == |s|
    ensures c !in s ==> r == s
    ensures c in s ==> r == s[IndexOf(s, c) := d]
  {
    var i := IndexOf(s, c);
    if i == -1 then s else s[i := d]
  }

  /** `startsWith(q)` */
  predicate StartsWith(s: string, q: string)
  {
    |q| <= |s| && s[..|q|] == q
  }

  /** `includes(q)` */
  predicate Includes(s: string, q: string)
    decreases |s|
  {
    StartsWith(s, q) || (s != [] && Includes(s[1..], q))
  }

  // ---------------------------------------------------------------------
  // `Number(s)`

  /** The value of a digit character in bases up to 16, or -1. */
  function DigitValue(c: char): int
  {
    if '0' <= c <= '9' then c as int - '0' as int
    else if 'a' <= c <= 'f' then c as int - 'a' as int + 10
    else if 'A' <= c <= 'F' then c as int - 'A' as int + 10
    else -1
  }

  predicate AllDigits(s: string, radix: nat)
  {
    forall i :: 0 <= i < |s| ==> 0 <= DigitValue(s[i]) < radix
  }

  /** The value of a string of digits in `radix`, most significant first. */
  function DigitsValue(s: string, radix: nat): nat
    requires AllDigits(s, radix)
  {
    if s == [] then 0
    else
      var init := s[..|s| - 1];
      assert forall i :: 0 <= i < |init| ==> init[i] == s[i];
      DigitsValue(init, radix) * radix + DigitValue(s[|s| - 1])
  }

  function Pow10(k: nat): (r: real)
    ensures r >= 1.0
  {
    if k == 0 then 1.0 else 10.0 * Pow10(k - 1)
  }

  /** `x * 10^k` for a whole exponent `k`. */
  function Scale10(x: real, k: int): real
  {
    if k >= 0 then x * Pow10(k) else x / Pow10(-k)
  }

  /** The first `e` or `E` of `s`, or -1. */
  function ExponentMark(s: string): (i: int)
    ensures i == -1 || (0 <= i < |s| && (s[i] == 'e' || s[i] == 'E'))
  {
    var lower := IndexOf(s, 'e');
    var upper := IndexOf(s, 'E');
    if lower == -1 then upper
    else if upper == -1 || lower < upper then lower
    else upper
  }

  /** The exponent after the `e`: an optional sign and at least one digit. */
  function Exponent(s: string): Js.Option<int>
  {
    var sign := if s != [] && (s[0] == '+' || s[0] == '-') then s[0] else ' ';
    var digits := if sign == ' ' then s else s[1..];
    if digits == [] || !AllDigits(digits, 10) then Js.None
    else
      var v: int := DigitsValue(digits, 10);
      Js.Some(if sign == '-' then -v else v)
  }

  /** Digits with at most one `.` and at least one digit. */
  function Mantissa(s: string): Js.Option<real>
  {
    var dot := IndexOf(s, '.');
    var whole := if dot == -1 then s else s[..dot];
    var fraction := if dot == -1 then "" else s[dot + 1..];
    if !AllDigits(whole, 10) || !AllDigits(fraction, 10) || |whole| + |fraction| == 0 then Js.None
    else if fraction == "" then Js.Some(DigitsValue(whole, 10) as real)
    else Js.Some(DigitsValue(whole + fraction, 10) as real / Pow10(|fraction|))
  }

  /** An unsigned decimal literal: a mantissa, then an optional exponent.
      (`Infinity` is not finite, so it has no value here.) */
  function UnsignedDecimal(s: string): Js.Option<real>
  {
    var e := ExponentMark(s);
    var mantissa := Mantissa(if e == -1 then s else s[..e]);
    var exponent := if e == -1 then Js.Some(0) else Exponent(s[e + 1..]);
    if mantissa.None? || exponent.None? then Js.None
    else if e == -1 then mantissa
    else Js.Some(Scale10(mantissa.value, exponent.value))
  }

  /** `0x`, `0o` and `0b` integer literals: the radix, or 0 for none. */
  function RadixOf(s: string): nat
  {
    if |s| < 2 || s[0] != '0' then 0
    else if s[1] == 'x' || s[1] == 'X' then 16
    else if s[1] == 'o' || s[1] == 'O' then 8
    else if s[1] == 'b' || s[1] == 'B' then 2
    else 0
  }

  /** `Number(s)` for a string without white space, when the result is
      finite: the empty string is 0, a non-decimal literal takes no sign,
      anything else is NaN and has no value. */
  function NumberOf(s: string): Js.Option<real>
  {
    if s == "" then Js.Some(0.0)
    else if RadixOf(s) != 0 then
      var digits := s[2..];
      if digits != [] && AllDigits(digits, RadixOf(s)) then Js.Some(DigitsValue(digits, RadixOf(s)) as real)
      else Js.None
    else if s[0] == '+' then UnsignedDecimal(s[1..])
    else if s[0] == '-' then
      match UnsignedDecimal(s[1..])
      case None => Js.None
      case Some(v) => Js.Some(-v)
    else UnsignedDecimal(s)
  }

  /** The digits of `Js.Decimal(n)` read back as a number give `n`. */
  lemma {:induction false} DecimalDigitsValue(n: nat)
    ensures AllDigits(Js.Decimal(n), 10) && DigitsValue(Js.Decimal(n), 10) == n
    decreases n
  {
    var s := Js.Decimal(n);
    if n >= 10 {
      DecimalDigitsValue(n / 10);
      assert s[..|s| - 1] == Js.Decimal(n / 10);
    }
  }

  predicate Decimals(s: string)
  {
    forall i :: 0 <= i < |s| ==> '0' <= s[i] <= '9'
  }

  lemma DecimalsHaveNoMarks(s: string)
    requires Decimals(s)
    ensures AllDigits(s, 10) && ExponentMark(s) == -1 && IndexOf(s, '.') == -1
  {
    assert 'e' !in s && 'E' !in s && '.' !in s;
  }

  lemma MantissaOfDecimals(s: string)
    requires s != [] && AllDigits(s, 10) && IndexOf(s, '.') == -1
    ensures Mantissa(s) == Js.Some(DigitsValue(s, 10) as real)
  {
  }

  /** A plain string of decimal digits is read as its value. */
  lemma DigitStringValue(s: string)
    requires s != [] && Decimals(s)
    ensures AllDigits(s, 10)
    ensures UnsignedDecimal(s) == Js.Some(DigitsValue(s, 10) as real)
  {
    DecimalsHaveNoMarks(s);
    MantissaOfDecimals(s);
  }

  /** `Number(s)` of a plain string of decimal digits is its value. */
  lemma NumberOfDigits(s: string)
    requires s != [] && Decimals(s)
    ensures AllDigits(s, 10) && NumberOf(s) == Js.Some(DigitsValue(s, 10) as real)
  {
    DigitStringValue(s);
    assert RadixOf(s) == 0 by {
      if |s| >= 2 {
        assert '0' <= s[1] <= '9';
      }
    }
    assert '0' <= s[0] <= '9';
  }

  /** `Number(String(n)) == n` for a whole number. */
  lemma NumberOfDecimal(n: nat)
    ensures NumberOf(Js.Decimal(n)) == Js.Some(n as real)
  {
    var s := Js.Decimal(n);
    DecimalDigitsValue(n);
    assert Decimals(s);
    NumberOfDigits(s);
  }
}
