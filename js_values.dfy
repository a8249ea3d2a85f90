/** The few JavaScript value semantics the address engine depends on:
    optional (possibly `undefined`) values, truthiness of strings and numbers,
    `String.prototype.length`, `String.prototype.includes` and
    `Number.prototype.toString` on integers. */
module JsValues {

  /** An optional value: `None` stands for `undefined`. */
  datatype Option<+T> = None | Some(value: T)

  /** A string is truthy in JavaScript iff it is defined and not empty. */
  predicate Truthy(s: Option<string>)
  {
    s.Some? && |s.value| > 0
  }

  /** A number is truthy iff it is defined and not zero. */
  predicate TruthyNumber(n: Option<int>)
  {
    n.Some? && n.value != 0
  }

  /** The UTF-16 code units JavaScript spends on one character: two (a surrogate
      pair) for a character outside the Basic Multilingual Plane, otherwise one. */
  function CodeUnits(c: char): nat
  {
    if c as int < 0x1_0000 then 1 else 2
  }

  /** `s.length` in JavaScript: the number of UTF-16 code units of `s`. It lies
      between the number of characters and twice that, and equals either bound
      exactly when every character takes one unit, or every character two. */
  function Utf16Length(s: string): (n: nat)
    ensures |s| <= n <= 2 * |s|
    ensures n == |s| <==> forall i :: 0 <= i < |s| ==> CodeUnits(s[i]) == 1
    ensures n == 2 * |s| <==> forall i :: 0 <= i < |s| ==> CodeUnits(s[i]) == 2
  {
    if s == [] then 0 else CodeUnits(s[0]) + Utf16Length(s[1..])
  }

  /** `a || b` on an optional string: `a` when truthy, else the fallback. */
  function OrElse(a: Option<string>, fallback: string): (r: string)
    ensures Truthy(a) ==> r == a.value
    ensures !Truthy(a) ==> r == fallback
  {
    if Truthy(a) then a.value else fallback
  }

  /** `s.includes(sub)`: `sub` occurs somewhere in `s` (the empty string occurs everywhere). */
  predicate Includes(s: string, sub: string)
    decreases |s|
  {
    sub <= s || (|s| > 0 && Includes(s[1..], sub))
  }

  /** `o?.includes(sub)` is truthy: `o` is defined and contains `sub`. */
  predicate OptIncludes(o: Option<string>, sub: string)
  {
    o.Some? && Includes(o.value, sub)
  }

  /** `sub` occurs in `s` starting at index `i`. */
  predicate OccursAt(s: string, sub: string, i: nat)
  {
    i + |sub| <= |s| && s[i..i + |sub|] == sub
  }

  /** `Includes` is substring search: it holds iff `sub` occurs at some index of `s`. */
  lemma {:induction false} IncludesIffOccurs(s: string, sub: string)
    ensures Includes(s, sub) <==> exists i: nat :: OccursAt(s, sub, i)
    decreases |s|
  {
    if sub <= s {
      assert OccursAt(s, sub, 0);
    } else if |s| > 0 {
      IncludesIffOccurs(s[1..], sub);
      if Includes(s[1..], sub) {
        var i: nat :| OccursAt(s[1..], sub, i);
        assert s[i + 1..i + 1 + |sub|] == s[1..][i..i + |sub|];
        assert OccursAt(s, sub, i + 1);
      } else {
        forall i: nat ensures !OccursAt(s, sub, i) {
          OccursInTail(s, sub, i);
        }
      }
    }
  }

  /** An occurrence past index 0 is an occurrence in the tail. */
  lemma OccursInTail(s: string, sub: string, i: nat)
    ensures i > 0 && OccursAt(s, sub, i) ==> |s| > 0 && OccursAt(s[1..], sub, i - 1)
  {
    if i > 0 && OccursAt(s, sub, i) {
      assert s[1..][i - 1..i - 1 + |sub|] == s[i..i + |sub|];
    }
  }

  /** Containment of substrings is transitive. */
  lemma IncludesTransitive(s: string, t: string, u: string)
    requires Includes(s, t) && Includes(t, u)
    ensures Includes(s, u)
  {
    IncludesIffOccurs(s, t);
    IncludesIffOccurs(t, u);
    var i: nat :| OccursAt(s, t, i);
    var j: nat :| OccursAt(t, u, j);
    forall k | 0 <= k < |u| ensures s[i + j + k] == u[k] {
      assert t[j + k] == u[k];
      assert s[i + (j + k)] == t[j + k];
    }
    assert s[i + j..i + j + |u|] == u;
    assert OccursAt(s, u, i + j);
    IncludesIffOccurs(s, u);
  }

  /** A witness index is enough to establish `Includes`. */
  lemma IncludesAt(s: string, sub: string, i: nat)
    requires OccursAt(s, sub, i)
    ensures Includes(s, sub)
  {
    IncludesIffOccurs(s, sub);
  }

  /** A string never contains a longer one. */
  lemma IncludesNeedsRoom(s: string, sub: string)
    requires |s| < |sub|
    ensures !Includes(s, sub)
  {
    IncludesIffOccurs(s, sub);
  }

  /** A string whose first character differs from the first of `sub` contains `sub`
      iff its tail does. */
  lemma IncludesSkip(s: string, sub: string)
    requires |s| > 0 && |sub| > 0 && s[0] != sub[0]
    ensures Includes(s, sub) <==> Includes(s[1..], sub)
  {
    assert !(sub <= s) by {
      if sub <= s {
        assert s[0] == sub[0];
      }
    }
  }

  predicate IsDigit(c: char)
  {
    '0' <= c <= '9'
  }

  function DigitChar(d: int): (c: char)
    requires 0 <= d < 10
    ensures IsDigit(c)
  {
    ('0' as int + d) as char
  }

  function DigitValue(c: char): int
  {
    c as int - '0' as int
  }

  /** Decimal digits of a natural number, most significant first, without leading zeros. */
  function NatToDecimal(n: nat): (r: string)
    ensures |r| > 0
    ensures forall k :: 0 <= k < |r| ==> IsDigit(r[k])
    ensures n > 0 ==> r[0] != '0'
    decreases n
  {
    if n < 10 then [DigitChar(n)] else NatToDecimal(n / 10) + [DigitChar(n % 10)]
  }

  /** `n.toString()` for an integer-valued number: an optional minus sign and the decimal digits. */
  function NumberToString(n: int): string
  {
    if n < 0 then "-" + NatToDecimal(-n) else NatToDecimal(n)
  }

  /** Reads back a string of decimal digits. */
  function ParseDigits(s: string): int
    decreases |s|
  {
    if s == [] then 0 else ParseDigits(s[..|s| - 1]) * 10 + DigitValue(s[|s| - 1])
  }

  /** Reads back an optionally signed decimal numeral. */
  function ParseNumber(s: string): int
  {
    if |s| > 0 && s[0] == '-' then -ParseDigits(s[1..]) else ParseDigits(s)
  }

  lemma {:induction false} NatToDecimalRoundTrip(n: nat)
    ensures ParseDigits(NatToDecimal(n)) == n
    decreases n
  {
    if n >= 10 {
      NatToDecimalRoundTrip(n / 10);
      var r := NatToDecimal(n);
      assert r[..|r| - 1] == NatToDecimal(n / 10);
    }
  }

  /** `toString` loses nothing: the decimal numeral reads back as the number it came from. */
  lemma NumberToStringRoundTrip(n: int)
    ensures ParseNumber(NumberToString(n)) == n
  {
    if n < 0 {
      NatToDecimalRoundTrip(-n);
      assert NumberToString(n)[1..] == NatToDecimal(-n);
    } else {
      NatToDecimalRoundTrip(n);
      assert IsDigit(NatToDecimal(n)[0]);
    }
  }

  /** Two numbers render as the same string only if they are equal. */
  lemma NumberToStringInjective(m: int, n: int)
    requires NumberToString(m) == NumberToString(n)
    ensures m == n
  {
    NumberToStringRoundTrip(m);
    NumberToStringRoundTrip(n);
  }
}
