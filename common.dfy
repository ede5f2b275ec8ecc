/** Shared vocabulary: optional values and the JavaScript string operations the
    routes, admin pages and components rely on (truthiness, `trim`, `.length`,
    `startsWith`, `includes`, `split`, `join`). */
module Common {

  /** `null`/`undefined` versus a present value. */
  datatype Option<T> = None | Some(value: T) {
    /** `x ?? d` */
    function GetOr(d: T): T {
      if Some? then value else d
    }
  }

  /** JavaScript truthiness of an optional string: absent and "" are falsy. */
  predicate Truthy(s: Option<string>) {
    s.Some? && s.value != ""
  }

  /** `s || d` on an optional string. */
  function OrElse(s: Option<string>, d: string): string {
    if Truthy(s) then s.value else d
  }

  /** `s || null`: the empty string is stored as null. */
  function EmptyToNone(s: Option<string>): Option<string> {
    if Truthy(s) then s else None
  }

  /** `n || 0` on an optional number (0 stays 0, absent becomes 0). */
  function OrZero(n: Option<int>): int {
    if n.Some? then n.value else 0
  }

  /** `b || false` on an optional boolean. */
  function OrFalse(b: Option<bool>): bool {
    b.Some? && b.value
  }

  /** The characters JavaScript's `\s` and `String.prototype.trim` treat as
      white space (WhiteSpace and LineTerminator of ECMA-262). */
  predicate IsJsSpace(c: char) {
    c == '\t' || c == '\n' || c == '\U{B}' || c == '\U{C}' || c == '\r' ||
    c == ' ' || c == '\U{A0}' || c == '\U{1680}' || ('\U{2000}' <= c <= '\U{200A}') ||
    c == '\U{2028}' || c == '\U{2029}' || c == '\U{202F}' || c == '\U{205F}' ||
    c == '\U{3000}' || c == '\U{FEFF}'
  }

  /** `s.length`: JavaScript counts UTF-16 code units, so a character outside
      the Basic Multilingual Plane counts twice. */
  function Utf16Length(s: string): (n: nat)
    ensures |s| <= n <= 2 * |s|
  {
    if s == [] then 0
    else (if s[0] as int >= 0x10000 then 2 else 1) + Utf16Length(s[1..])
  }

  function TrimStart(s: string): (r: string)
    ensures |r| <= |s| && r == s[|s| - |r|..]
    ensures r != [] ==> !IsJsSpace(r[0])
  {
    if s != [] && IsJsSpace(s[0]) then TrimStart(s[1..]) else s
  }

  function TrimEnd(s: string): (r: string)
    ensures |r| <= |s| && r == s[..|r|]
    ensures r != [] ==> !IsJsSpace(r[|r| - 1])
  {
    if s != [] && IsJsSpace(s[|s| - 1]) then TrimEnd(s[..|s| - 1]) else s
  }

  /** `s.trim()`; text without white space is left as it is. */
  function Trim(s: string): (r: string)
    ensures (forall i :: 0 <= i < |s| ==> !IsJsSpace(s[i])) ==> r == s
  {
    TrimEnd(TrimStart(s))
  }

  /** `s.startsWith(p)` */
  predicate StartsWith(s: string, p: string) {
    |p| <= |s| && s[..|p|] == p
  }

  /** `s.endsWith(p)` */
  predicate EndsWith(s: string, p: string) {
    |p| <= |s| && s[|s| - |p|..] == p
  }

  /** `s.includes(sub)` */
  predicate Contains(s: string, sub: string)
    decreases |s|
  {
    StartsWith(s, sub) || (s != [] && Contains(s[1..], sub))
  }

  lemma {:induction false} ContainsAt(s: string, sub: string, i: nat)
    requires i + |sub| <= |s| && s[i..i + |sub|] == sub
    ensures Contains(s, sub)
    decreases i
  {
    if i > 0 {
      assert s[1..][i - 1..i - 1 + |sub|] == s[i..i + |sub|];
      ContainsAt(s[1..], sub, i - 1);
    }
  }

  /** `parts.join(sep)` */
  function Join(parts: seq<string>, sep: string): string {
    if parts == [] then ""
    else if |parts| == 1 then parts[0]
    else parts[0] + sep + Join(parts[1..], sep)
  }

  /** Index of the first occurrence of `c` in `s`, or |s|. */
  function IndexOfChar(s: string, c: char): (i: nat)
    ensures i <= |s|
    ensures forall j :: 0 <= j < i ==> s[j] != c
    ensures i < |s| ==> s[i] == c
  {
    if s == [] then 0 else if s[0] == c then 0 else 1 + IndexOfChar(s[1..], c)
  }

  /** `s.split(c)` for a one-character separator. */
  function Split(s: string, c: char): (r: seq<string>)
    ensures |r| >= 1
    ensures forall k :: 0 <= k < |r| ==> c !in r[k]
    decreases |s|
  {
    var i := IndexOfChar(s, c);
    if i == |s| then [s] else [s[..i]] + Split(s[i + 1..], c)
  }

  // ---------------------------------------------------------------------
  // parseInt

  predicate IsDigit(c: char) {
    '0' <= c <= '9'
  }

  /** The longest prefix made of decimal digits. */
  function DigitPrefix(s: string): (r: string)
    ensures |r| <= |s| && r == s[..|r|]
    ensures forall i :: 0 <= i < |r| ==> IsDigit(r[i])
    ensures |r| < |s| ==> !IsDigit(s[|r|])
  {
    if s != [] && IsDigit(s[0]) then [s[0]] + DigitPrefix(s[1..]) else []
  }

  /** The value of a string of decimal digits. */
  function DecimalValue(d: string): (n: nat)
    requires forall i :: 0 <= i < |d| ==> IsDigit(d[i])
  {
    if d == [] then 0
    else
      assert IsDigit(d[|d| - 1]);
      DecimalValue(d[..|d| - 1]) * 10 + (d[|d| - 1] as int - '0' as int)
  }

  /** The value of a hexadecimal digit, in either case. */
  function HexDigit(c: char): (r: Option<nat>)
    ensures r.Some? ==> r.value < 16
  {
    if '0' <= c <= '9' then Some(c as int - '0' as int)
    else if 'a' <= c <= 'f' then Some(c as int - 'a' as int + 10)
    else if 'A' <= c <= 'F' then Some(c as int - 'A' as int + 10)
    else None
  }

  predicate IsHexDigit(c: char) {
    HexDigit(c).Some?
  }

  /** The longest prefix made of hexadecimal digits. */
  function HexPrefix(s: string): (r: string)
    ensures |r| <= |s| && r == s[..|r|]
    ensures forall i :: 0 <= i < |r| ==> IsHexDigit(r[i])
    ensures |r| < |s| ==> !IsHexDigit(s[|r|])
  {
    if s != [] && IsHexDigit(s[0]) then [s[0]] + HexPrefix(s[1..]) else []
  }

  /** The value of a string of hexadecimal digits. */
  function HexValue(d: string): (n: nat)
    requires forall i :: 0 <= i < |d| ==> IsHexDigit(d[i])
  {
    if d == [] then 0
    else
      assert IsHexDigit(d[|d| - 1]);
      HexValue(d[..|d| - 1]) * 16 + HexDigit(d[|d| - 1]).value
  }

  /** Text after the sign that `parseInt` without a radix reads in base 16. */
  predicate HexPrefixed(b: string) {
    |b| >= 2 && b[0] == '0' && (b[1] == 'x' || b[1] == 'X')
  }

  /** The digits `parseInt` without a radix reads from the text after the
      sign: hexadecimal ones after a `0x` or `0X`, decimal ones otherwise. */
  function DigitsRead(b: string): (d: string)
    ensures HexPrefixed(b) ==> d == HexPrefix(b[2..])
    ensures !HexPrefixed(b) ==> d == DigitPrefix(b)
  {
    if HexPrefixed(b) then HexPrefix(b[2..]) else DigitPrefix(b)
  }

  /** `parseInt(s)` without a radix: leading white space and one sign are
      skipped, then the leading digits are read (in base 16 after `0x` or
      `0X`, in base 10 otherwise) and the rest ignored; no digit at all is
      `NaN` (`None`). */
  function ParseInt(s: string): (r: Option<int>)
    ensures r.Some? <==> DigitsRead(SignSkipped(TrimStart(s))) != []
    ensures r.Some? && !HexPrefixed(SignSkipped(TrimStart(s))) ==>
      r.value == (if TrimStart(s)[0] == '-' then -1 else 1) * DecimalValue(DigitPrefix(SignSkipped(TrimStart(s))))
    ensures r.Some? && HexPrefixed(SignSkipped(TrimStart(s))) ==>
      r.value == (if TrimStart(s)[0] == '-' then -1 else 1) * HexValue(HexPrefix(SignSkipped(TrimStart(s))[2..]))
  {
    var t := TrimStart(s);
    var b := SignSkipped(t);
    var d := DigitsRead(b);
    if d == [] then None
    else
      var v: int := if HexPrefixed(b) then HexValue(d) else DecimalValue(d);
      if t[0] == '-' then Some(-v) else Some(v)
  }

  /** `0x10` is read in base 16. */
  lemma HexNumeral()
    ensures ParseInt("0x10") == Some(16)
  {
    var s := "0x10";
    assert TrimStart(s) == s by {
      assert !IsJsSpace(s[0]);
    }
    assert SignSkipped(s) == s && HexPrefixed(s) && s[2..] == "10";
    assert HexPrefix("10") == "10" && HexValue("10") == 16 by {
      assert HexPrefix("0") == "0" by {
        assert "0"[1..] == [];
      }
      assert "10"[1..] == "0" && "10"[..1] == "1";
    }
  }

  /** `0x` with no hexadecimal digit after it is `NaN`, even when a
      decimal digit could have been read. */
  lemma HexWithoutDigits()
    ensures ParseInt("0x") == None
    ensures ParseInt("0xg1") == None
  {
    assert TrimStart("0x") == "0x" by {
      assert !IsJsSpace("0x"[0]);
    }
    assert SignSkipped("0x") == "0x" && HexPrefixed("0x") && "0x"[2..] == [];
    var t := "0xg1";
    assert TrimStart(t) == t by {
      assert !IsJsSpace(t[0]);
    }
    assert SignSkipped(t) == t && HexPrefixed(t) && t[2..] == "g1";
    assert HexPrefix("g1") == [] by {
      assert !IsHexDigit("g1"[0]);
    }
  }

  function SignSkipped(t: string): string {
    if t != [] && (t[0] == '-' || t[0] == '+') then t[1..] else t
  }
}
