/** Array columns (technologies, images, features, answers) are stored as the
    text `JSON.stringify(list)` and read back with `JSON.parse`. This module is
    that codec for a list of strings: arrays as in section 5 and strings as in
    section 7 of RFC 8259, in the compact form `JSON.stringify` writes. */
module JsonArray {
  import opened Common

  const HexDigits: string := "0123456789abcdef"

  // ---------------------------------------------------------------------
  // Encoding (JSON.stringify)

  /** The escape `JSON.stringify` writes for one character: the two-character
      escapes of section 7, `\u00xx` for the remaining control characters, and
      the character itself otherwise. */
  function EscapeChar(c: char): (r: string)
    ensures 1 <= |r| <= 6
    ensures r[0] != '"'
    ensures forall i :: 0 <= i < |r| ==> r[i] as int >= 0x20
  {
    if c == '"' then "\\\""
    else if c == '\\' then "\\\\"
    else if c == '\U{8}' then "\\b"
    else if c == '\t' then "\\t"
    else if c == '\n' then "\\n"
    else if c == '\U{C}' then "\\f"
    else if c == '\r' then "\\r"
    else if (c as int) < 0x20 then "\\u00" + [HexDigits[c as int / 16], HexDigits[c as int % 16]]
    else [c]
  }

  function Escape(s: string): string {
    if s == [] then "" else EscapeChar(s[0]) + Escape(s[1..])
  }

  /** One string value: quotes around the escaped characters. */
  function Quote(s: string): string {
    "\"" + Escape(s) + "\""
  }

  /** The elements, separated by commas, without the brackets. */
  function EncodeItems(xs: seq<string>): string {
    if xs == [] then ""
    else if |xs| == 1 then Quote(xs[0])
    else Quote(xs[0]) + "," + EncodeItems(xs[1..])
  }

  /** `JSON.stringify(xs)` for a list of strings. */
  function Encode(xs: seq<string>): (r: string)
    ensures |r| >= 2 && r[0] == '[' && r[|r| - 1] == ']'
  {
    "[" + EncodeItems(xs) + "]"
  }

  // ---------------------------------------------------------------------
  // Decoding (JSON.parse, restricted to arrays of strings)

  /** The escape that follows a backslash: the character it stands for and
      how many characters it used. A `\u` escape naming a surrogate half is
      refused here (see README). */
  function Unescape(t: string): (r: Option<(char, nat)>)
    ensures r.Some? ==> 1 <= r.value.1 <= |t|
  {
    if t == [] then None
    else if t[0] == '"' then Some(('"', 1))
    else if t[0] == '\\' then Some(('\\', 1))
    else if t[0] == '/' then Some(('/', 1))
    else if t[0] == 'b' then Some(('\U{8}', 1))
    else if t[0] == 'f' then Some(('\U{C}', 1))
    else if t[0] == 'n' then Some(('\n', 1))
    else if t[0] == 'r' then Some(('\r', 1))
    else if t[0] == 't' then Some(('\t', 1))
    else if t[0] == 'u' && |t| >= 5 then
      match (HexDigit(t[1]), HexDigit(t[2]), HexDigit(t[3]), HexDigit(t[4]))
      case (Some(a), Some(b), Some(c), Some(d)) =>
        var v := ((a * 16 + b) * 16 + c) * 16 + d;
        if 0xD800 <= v < 0xE000 then None else Some((v as char, 5))
      case _ => None
    else None
  }

  /** The body of a string value, after its opening quote: the characters it
      denotes and the text after the closing quote. Raw control characters
      are refused, as section 7 of RFC 8259 demands. */
  function ParseString(s: string): (r: Option<(string, string)>)
    ensures r.Some? ==> |r.value.1| < |s|
    decreases |s|
  {
    if s == [] then None
    else if s[0] == '"' then Some(("", s[1..]))
    else if s[0] == '\\' then
      match Unescape(s[1..])
      case None => None
      case Some((c, k)) =>
        match ParseString(s[1 + k..])
        case None => None
        case Some((v, rest)) => Some(([c] + v, rest))
    else if (s[0] as int) < 0x20 then None
    else
      match ParseString(s[1..])
      case None => None
      case Some((v, rest)) => Some(([s[0]] + v, rest))
  }

  /** One or more elements after `[` or `,`, up to and including `]`. */
  function ParseItems(s: string): (r: Option<(seq<string>, string)>)
    ensures r.Some? ==> |r.value.1| < |s|
    decreases |s|
  {
    if s == [] || s[0] != '"' then None
    else
      match ParseString(s[1..])
      case None => None
      case Some((v, rest)) =>
        if rest == [] then None
        else if rest[0] == ']' then Some(([v], rest[1..]))
        else if rest[0] == ',' then
          match ParseItems(rest[1..])
          case None => None
          case Some((vs, rest')) => Some(([v] + vs, rest'))
        else None
  }

  /** `JSON.parse(s)` where the text must be an array of strings; `None` is
      the exception `JSON.parse` throws on anything else. */
  function Decode(s: string): (r: Option<seq<string>>)
    ensures r.Some? ==> |s| >= 2 && s[0] == '[' && s[|s| - 1] == ']'
  {
    if s == "[]" then Some([])
    else if s == [] || s[0] != '[' then None
    else
      match ParseItems(s[1..])
      case Some((vs, rest)) =>
        if rest == [] then
          assert s[|s| - 1] == ']' by { ItemsEndWithBracket(s[1..]); }
          Some(vs)
        else None
      case None => None
  }

  lemma {:induction false} ItemsEndWithBracket(s: string)
    requires ParseItems(s).Some? && ParseItems(s).value.1 == []
    ensures |s| >= 1 && s[|s| - 1] == ']'
    decreases |s|
  {
    var (v, rest) := ParseString(s[1..]).value;
    if rest[0] == ']' {
      assert rest == [']'];
      ParseStringSuffix(s[1..]);
    } else {
      ItemsEndWithBracket(rest[1..]);
      ParseStringSuffix(s[1..]);
    }
  }

  /** What is left after a string value is a suffix of the input. */
  lemma {:induction false} ParseStringSuffix(s: string)
    requires ParseString(s).Some?
    ensures var rest := ParseString(s).value.1; s[|s| - |rest|..] == rest
    decreases |s|
  {
    if s[0] == '"' {
    } else if s[0] == '\\' {
      var (c, k) := Unescape(s[1..]).value;
      ParseStringSuffix(s[1 + k..]);
    } else {
      ParseStringSuffix(s[1..]);
    }
  }

  // ---------------------------------------------------------------------
  // Round trip

  lemma HexDigitValue(n: nat)
    requires n < 16
    ensures HexDigit(HexDigits[n]) == Some(n)
  {
  }

  /** Decoding one escaped character gives back that character. */
  lemma EscapeCharStep(c: char, tail: string)
    ensures ParseString(EscapeChar(c) + tail) ==
      match ParseString(tail)
      case None => None
      case Some((v, rest)) => Some(([c] + v, rest))
  {
    var e := EscapeChar(c);
    if c == '"' || c == '\\' || c == '\U{8}' || c == '\t' || c == '\n' || c == '\U{C}' || c == '\r' {
      UnescapeShort(c, tail);
      BackslashStep(c, e, tail);
    } else if (c as int) < 0x20 {
      UnescapeHex(c, tail);
      BackslashStep(c, e, tail);
    } else {
      assert e == [c];
      assert (e + tail)[1..] == tail;
    }
  }

  /** A backslash escape that reads back as `c` and uses the rest of `e`. */
  lemma BackslashStep(c: char, e: string, tail: string)
    requires |e| >= 2 && e[0] == '\\' && Unescape(e[1..] + tail) == Some((c, |e| - 1))
    ensures ParseString(e + tail) ==
      match ParseString(tail)
      case None => None
      case Some((v, rest)) => Some(([c] + v, rest))
  {
    var s := e + tail;
    assert s[0] == '\\';
    assert s[1..] == e[1..] + tail;
    assert s[1 + (|e| - 1)..] == tail;
  }

  lemma UnescapeShort(c: char, tail: string)
    requires c == '"' || c == '\\' || c == '\U{8}' || c == '\t' || c == '\n' || c == '\U{C}' || c == '\r'
    ensures var e := EscapeChar(c); |e| == 2 && e[0] == '\\' && Unescape(e[1..] + tail) == Some((c, 1))
  {
    var e := EscapeChar(c);
    assert (e[1..] + tail)[0] == e[1];
  }

  lemma UnescapeHex(c: char, tail: string)
    requires (c as int) < 0x20
    requires !(c == '"' || c == '\\' || c == '\U{8}' || c == '\t' || c == '\n' || c == '\U{C}' || c == '\r')
    ensures var e := EscapeChar(c); |e| == 6 && e[0] == '\\' && Unescape(e[1..] + tail) == Some((c, 5))
  {
    var n := c as int;
    var e := EscapeChar(c);
    assert e == "\\u00" + [HexDigits[n / 16], HexDigits[n % 16]];
    var t := e[1..] + tail;
    assert t[0] == 'u' && t[1] == '0' && t[2] == '0';
    assert t[3] == HexDigits[n / 16] && t[4] == HexDigits[n % 16];
    HexDigitValue(n / 16);
    HexDigitValue(n % 16);
    assert ((0 * 16 + 0) * 16 + n / 16) * 16 + n % 16 == n;
  }

  /** The string codec's round trip, with arbitrary text after the value. */
  lemma {:induction false} StringRoundTrip(s: string, rest: string)
    ensures ParseString(Escape(s) + "\"" + rest) == Some((s, rest))
    decreases |s|
  {
    if s == [] {
      assert Escape(s) + "\"" + rest == "\"" + rest;
    } else {
      StringRoundTrip(s[1..], rest);
      var h := EscapeChar(s[0]);
      var e := Escape(s[1..]);
      assert Escape(s) == h + e;
      Regroup(h, e, "\"", rest, "");
      EscapeCharStep(s[0], e + "\"" + rest);
      assert [s[0]] + s[1..] == s;
    }
  }

  /** A quoted value followed by any text parses back to the value and that text. */
  lemma QuoteRoundTrip(x: string, after: string)
    ensures (Quote(x) + after)[0] == '"'
    ensures ParseString((Quote(x) + after)[1..]) == Some((x, after))
  {
    StringRoundTrip(x, after);
    var e := Escape(x);
    assert Quote(x) + after == "\"" + (e + "\"" + after);
  }

  /** The step of `ParseItems` over one quoted value. */
  lemma ItemsStep(x: string, after: string)
    ensures ParseItems(Quote(x) + after) ==
      if after == [] then None
      else if after[0] == ']' then Some(([x], after[1..]))
      else if after[0] == ',' then
        match ParseItems(after[1..])
        case None => None
        case Some((vs, rest')) => Some(([x] + vs, rest'))
      else None
  {
    QuoteRoundTrip(x, after);
  }

  lemma ItemsOne(x: string, rest: string)
    ensures ParseItems(EncodeItems([x]) + "]" + rest) == Some(([x], rest))
  {
    var after := "]" + rest;
    assert EncodeItems([x]) + "]" + rest == Quote(x) + after;
    ItemsStep(x, after);
    assert after[1..] == rest;
  }

  /** The step of `ParseItems` over a quoted value followed by a comma. */
  lemma ItemsComma(x: string, more: string)
    ensures ParseItems(Quote(x) + ("," + more)) ==
      match ParseItems(more)
      case None => None
      case Some((vs, rest')) => Some(([x] + vs, rest'))
  {
    var after := "," + more;
    QuoteRoundTrip(x, after);
    assert after[0] == ',' && after[1..] == more;
  }

  lemma EncodeItemsStart(xs: seq<string>)
    requires xs != []
    ensures |EncodeItems(xs)| >= 2 && EncodeItems(xs)[0] == '"'
  {
    assert Quote(xs[0])[0] == '"';
  }

  lemma {:induction false} ItemsRoundTrip(xs: seq<string>, rest: string)
    requires xs != []
    ensures ParseItems(EncodeItems(xs) + "]" + rest) == Some((xs, rest))
    decreases |xs|
  {
    if |xs| == 1 {
      assert xs == [xs[0]];
      ItemsOne(xs[0], rest);
    } else {
      ItemsRoundTrip(xs[1..], rest);
      ItemsTail(xs, rest);
      EncodeSplit(xs, rest);
    }
  }

  lemma ItemsTail(xs: seq<string>, rest: string)
    requires |xs| > 1
    requires ParseItems(EncodeItems(xs[1..]) + "]" + rest) == Some((xs[1..], rest))
    ensures ParseItems(Quote(xs[0]) + ("," + (EncodeItems(xs[1..]) + "]" + rest))) == Some((xs, rest))
  {
    ItemsComma(xs[0], EncodeItems(xs[1..]) + "]" + rest);
    assert [xs[0]] + xs[1..] == xs;
  }

  lemma EncodeSplit(xs: seq<string>, rest: string)
    requires |xs| > 1
    ensures EncodeItems(xs) + "]" + rest == Quote(xs[0]) + ("," + (EncodeItems(xs[1..]) + "]" + rest))
  {
    var a := Quote(xs[0]);
    var b := EncodeItems(xs[1..]);
    assert EncodeItems(xs) == a + "," + b;
    Regroup(a, ",", b, "]", rest);
  }

  /** Regrouping a concatenation. */
  lemma Regroup(a: string, c: string, b: string, d: string, r: string)
    ensures a + c + b + d + r == a + (c + (b + d + r))
    ensures a + c + b + d == a + (c + b + d)
  {
  }

  /** Reading back what was stored gives exactly the list that was stored. */
  lemma RoundTrip(xs: seq<string>)
    ensures Decode(Encode(xs)) == Some(xs)
  {
    if xs != [] {
      ItemsRoundTrip(xs, "");
      EncodedShape(xs);
      DecodeItems(Encode(xs), xs);
    }
  }

  lemma EncodedShape(xs: seq<string>)
    requires xs != []
    ensures |Encode(xs)| > 2 && Encode(xs)[0] == '['
    ensures Encode(xs)[1..] == EncodeItems(xs) + "]" + ""
  {
    var b := EncodeItems(xs);
    EncodeItemsStart(xs);
    assert Encode(xs) == "[" + b + "]";
    Bracketed(b);
  }

  lemma Bracketed(b: string)
    ensures |"[" + b + "]"| == |b| + 2 && ("[" + b + "]")[0] == '['
    ensures ("[" + b + "]")[1..] == b + "]" + ""
  {
    assert ("[" + b + "]")[1..] == b + "]";
  }

  lemma DecodeItems(s: string, xs: seq<string>)
    requires |s| > 2 && s[0] == '[' && ParseItems(s[1..]) == Some((xs, ""))
    ensures Decode(s) == Some(xs)
  {
    assert s != "[]";
  }

  // ---------------------------------------------------------------------
  // Nullable array columns

  /** `col ? JSON.parse(col) : []`: a null or empty column reads as the empty
      list; text that is not an array of strings makes the read fail. */
  function DecodeColumn(col: Option<string>): (r: Option<seq<string>>)
    ensures !Truthy(col) ==> r == Some([])
    ensures Truthy(col) ==> r == Decode(col.value)
  {
    if Truthy(col) then Decode(col.value) else Some([])
  }

  /** A column written with `JSON.stringify(list)` reads back as that list,
      and a column written as null reads back as the empty list. */
  lemma ColumnRoundTrip(xs: Option<seq<string>>)
    ensures DecodeColumn(EncodeColumn(xs)) == Some(xs.GetOr([]))
  {
    if xs.Some? {
      RoundTrip(xs.value);
    }
  }

  /** `xs ? JSON.stringify(xs) : null` */
  function EncodeColumn(xs: Option<seq<string>>): (r: Option<string>)
    ensures r.Some? <==> xs.Some?
    ensures r.Some? ==> Truthy(r)
  {
    if xs.Some? then Some(Encode(xs.value)) else None
  }
}
