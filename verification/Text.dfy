/** The text functions of Go's strconv and strings packages that the /proc/net/tcp
    reader relies on, and how printing and parsing fit together. */
module Text {

  // ----------------------------------------------------------------- numbers

  const HEX_DIGITS: string := "0123456789ABCDEF"

  /** The value of a digit in a base of up to 36, or 36 when it is none. */
  function DigitValue(c: char): nat {
    if '0' <= c <= '9' then c as int - '0' as int
    else if 'a' <= c <= 'z' then c as int - 'a' as int + 10
    else if 'A' <= c <= 'Z' then c as int - 'A' as int + 10
    else 36
  }

  datatype Number = Number(value: int) | SyntaxError | RangeError

  /** strconv.ParseUint after the prefix `n`: left to right, the first bad digit or
      the first value beyond `max` decides. */
  function ParseDigits(s: string, base: nat, max: nat, n: nat): Number {
    if s == "" then Number(n)
    else if DigitValue(s[0]) >= base then SyntaxError
    else if n * base + DigitValue(s[0]) > max then RangeError
    else ParseDigits(s[1..], base, max, n * base + DigitValue(s[0]))
  }

  function Pow(base: nat, k: nat): nat {
    if k == 0 then 1 else base * Pow(base, k - 1)
  }

  const MAX_UINT32: nat := 0xFFFF_FFFF
  const MAX_UINT64: nat := 0xFFFF_FFFF_FFFF_FFFF

  /** strconv.ParseInt: the value, clamped on a range error and 0 on a syntax
      error, and whether there was no error.  `max` is the unsigned bound of the bit
      size; its signed bound is half of it. */
  function ParseInt(s: string, base: nat, max: nat): (int, bool) {
    if s == "" then (0, false)
    else
      var neg := s[0] == '-';
      var digits := if s[0] == '+' || neg then s[1..] else s;
      var cutoff := max / 2 + 1;
      if digits == "" then (0, false)
      else match ParseDigits(digits, base, max, 0)
        case SyntaxError => (0, false)
        case RangeError => (if neg then -cutoff else cutoff - 1, false)
        case Number(un) =>
          if !neg && un >= cutoff then (cutoff - 1, false)
          else if neg && un > cutoff then (-cutoff, false)
          else (if neg then -un else un, true)
  }

  /** A number in hexadecimal, zero-padded to `width` digits. */
  function Hex(n: nat, width: nat): (s: string)
    ensures |s| == width
  {
    if width == 0 then "" else Hex(n / 16, width - 1) + [HEX_DIGITS[n % 16]]
  }

  /** A number in decimal. */
  function Dec(n: nat): (s: string)
    ensures s != ""
  {
    if n < 10 then [HEX_DIGITS[n]] else Dec(n / 10) + [HEX_DIGITS[n % 10]]
  }

  function DecInt(n: int): string {
    if n < 0 then "-" + Dec(-n) else Dec(n)
  }

  lemma DigitRoundTrip(d: nat)
    requires d < 16
    ensures DigitValue(HEX_DIGITS[d]) == d
    ensures HEX_DIGITS[d] != '-' && HEX_DIGITS[d] != '+'
  {
  }

  lemma {:induction false} ParseDigitsSnoc(s: string, c: char, base: nat, max: nat, n: nat, m: nat)
    requires ParseDigits(s, base, max, n) == Number(m) && DigitValue(c) < base
    ensures ParseDigits(s + [c], base, max, n) ==
            if m * base + DigitValue(c) > max then RangeError else Number(m * base + DigitValue(c))
  {
    if s == "" {
      assert s + [c] == [c];
    } else {
      assert (s + [c])[1..] == s[1..] + [c];
      ParseDigitsSnoc(s[1..], c, base, max, n * base + DigitValue(s[0]), m);
    }
  }

  /** Hexadecimal digits of any width parse back to the number. */
  lemma {:induction false} ParseHex(n: nat, width: nat, max: nat)
    requires n < Pow(16, width) && n <= max
    ensures ParseDigits(Hex(n, width), 16, max, 0) == Number(n)
  {
    if width > 0 {
      ParseHex(n / 16, width - 1, max);
      DigitRoundTrip(n % 16);
      ParseDigitsSnoc(Hex(n / 16, width - 1), HEX_DIGITS[n % 16], 16, max, 0, n / 16);
    }
  }

  lemma {:induction false} ParseDec(n: nat, max: nat)
    requires n <= max
    ensures ParseDigits(Dec(n), 10, max, 0) == Number(n)
  {
    DigitRoundTrip(n % 10);
    if n < 10 {
      assert ParseDigits("", 10, max, n) == Number(n);
    } else {
      ParseDec(n / 10, max);
      ParseDigitsSnoc(Dec(n / 10), HEX_DIGITS[n % 10], 10, max, 0, n / 10);
    }
  }

  /** Decimal printing is injective. */
  lemma DecInjective(a: nat, b: nat)
    requires Dec(a) == Dec(b)
    ensures a == b
  {
    ParseDec(a, a + b);
    ParseDec(b, a + b);
  }

  predicate IsHexDigits(s: string) {
    forall i :: 0 <= i < |s| ==> s[i] in HEX_DIGITS
  }

  lemma {:induction false} HexIsDigits(n: nat, width: nat)
    ensures IsHexDigits(Hex(n, width))
  {
    if width > 0 {
      HexIsDigits(n / 16, width - 1);
    }
  }

  lemma {:induction false} DecIsDigits(n: nat)
    ensures IsHexDigits(Dec(n))
  {
    if n >= 10 {
      DecIsDigits(n / 10);
    }
  }

  lemma DigitsHaveNo(s: string, c: char)
    requires IsHexDigits(s) && c !in HEX_DIGITS
    ensures c !in s
  {
  }

  /** ParseInt reads back an unsigned print unless it needs the sign bit. */
  lemma ParseIntHex(n: nat, width: nat, max: nat)
    requires width > 0 && n < Pow(16, width) && n <= max
    ensures ParseInt(Hex(n, width), 16, max) == if n >= max / 2 + 1 then (max / 2, false) else (n, true)
  {
    HexIsDigits(n, width);
    var s := Hex(n, width);
    assert s[0] in HEX_DIGITS;
    ParseHex(n, width, max);
  }

  lemma ParseIntDec(n: nat, max: nat)
    requires n <= max / 2
    ensures ParseInt(Dec(n), 10, max) == (n, true)
  {
    DecIsDigits(n);
    assert Dec(n)[0] in HEX_DIGITS;
    ParseDec(n, max);
  }

  /** A sign is read, and the negative range reaches one further than the positive. */
  lemma ParseIntSigned(n: nat, max: nat)
    requires n <= max
    ensures var (value, ok) := ParseInt("-" + Dec(n), 10, max);
            (ok <==> n <= max / 2 + 1) && value == if ok then 0 - n else 0 - (max / 2 + 1)
    ensures ParseInt("+" + Dec(n), 10, max) == if n > max / 2 then (max / 2, false) else (n, true)
  {
    ParseDec(n, max);
    assert ("-" + Dec(n))[1..] == Dec(n) && ("+" + Dec(n))[1..] == Dec(n);
  }

  /** The low byte of a number is its last two hexadecimal digits. */
  lemma HexTail(high: nat, low: nat, width: nat)
    requires low < 256
    ensures Hex(high * 256 + low, width + 2) == Hex(high, width) + Hex(low, 2)
  {
    LowDigits(high, low);
    var n := high * 256 + low;
    assert Hex(n / 16, width + 1) == Hex(n / 16 / 16, width) + [HEX_DIGITS[n / 16 % 16]];
    assert Hex(low / 16, 1) == Hex(low / 16 / 16, 0) + [HEX_DIGITS[low / 16 % 16]];
  }

  lemma LowDigits(high: nat, low: nat)
    requires low < 256
    ensures var n := high * 256 + low;
            n / 16 / 16 == high && n / 16 % 16 == low / 16 % 16 && n % 16 == low % 16
  {
  }

  // ------------------------------------------------------------------- words

  /** strings.Split by a one-character separator. */
  function Split(s: string, sep: char): (r: seq<string>)
    ensures |r| > 0
  {
    if s == "" then [""] else Prepend(s[0], sep, Split(s[1..], sep))
  }

  lemma {:induction false} SplitNone(s: string, sep: char)
    requires sep !in s
    ensures Split(s, sep) == [s]
  {
    if s != "" {
      assert s == [s[0]] + s[1..];
      SplitNone(s[1..], sep);
    }
  }

  /** Splitting splits at every separator independently. */
  lemma {:induction false} SplitAt(a: string, sep: char, t: string)
    ensures Split(a + [sep] + t, sep) == Split(a, sep) + Split(t, sep)
  {
    var s := a + [sep] + t;
    if a == "" {
      assert s[1..] == t;
    } else {
      SplitAt(a[1..], sep, t);
      assert s[1..] == a[1..] + [sep] + t;
      PrependAppend(a[0], sep, Split(a[1..], sep), Split(t, sep));
    }
  }

  /** How one more character changes a split. */
  function Prepend(c: char, sep: char, r: seq<string>): seq<string>
    requires |r| > 0
  {
    if c == sep then [""] + r else [[c] + r[0]] + r[1..]
  }

  lemma PrependAppend(c: char, sep: char, r: seq<string>, u: seq<string>)
    requires |r| > 0
    ensures Prepend(c, sep, r + u) == Prepend(c, sep, r) + u
  {
  }

  lemma SplitField(a: string, sep: char, t: string)
    requires sep !in a
    ensures Split(a + [sep] + t, sep) == [a] + Split(t, sep)
  {
    SplitAt(a, sep, t);
    SplitNone(a, sep);
  }

  /** White space as unicode.IsSpace has it. */
  predicate IsSpace(c: char) {
    c == ' ' || 9 <= c as int <= 13 || c as int in {0x85, 0xA0, 0x1680, 0x2028, 0x2029, 0x202F, 0x205F, 0x3000}
    || 0x2000 <= c as int <= 0x200A
  }

  function TrimLeft(s: string): string {
    if s != "" && IsSpace(s[0]) then TrimLeft(s[1..]) else s
  }

  function TrimRight(s: string): string {
    if s != "" && IsSpace(s[|s| - 1]) then TrimRight(s[..|s| - 1]) else s
  }

  /** strings.TrimSpace */
  function TrimSpace(s: string): string {
    TrimRight(TrimLeft(s))
  }

  /** The elements that are not empty. */
  function NonEmpty(fields: seq<string>): seq<string> {
    if fields == [] then []
    else NonEmpty(fields[..|fields| - 1]) + if fields[|fields| - 1] == "" then [] else [fields[|fields| - 1]]
  }

  lemma {:induction false} NonEmptyAppend(a: seq<string>, b: seq<string>)
    ensures NonEmpty(a + b) == NonEmpty(a) + NonEmpty(b)
  {
    if b == [] {
      assert a + b == a;
    } else {
      NonEmptyAppend(a, b[..|b| - 1]);
      assert (a + b)[..|a + b| - 1] == a + b[..|b| - 1];
    }
  }

  /** The loop of removeEmpty. */
  method RemoveEmpty(fields: seq<string>) returns (columns: seq<string>)
    ensures columns == NonEmpty(fields)
  {
    columns := [];
    for k := 0 to |fields|
      invariant columns == NonEmpty(fields[..k])
    {
      assert fields[..k + 1][..k] == fields[..k];
      if fields[k] == "" {
        continue;
      }
      columns := columns + [fields[k]];
    }
    assert fields[..|fields|] == fields;
  }

  // ----------------------------------------------------------- padded fields

  function Spaces(n: nat): string {
    seq(n, _ => ' ')
  }

  /** A field is not empty and holds no white space. */
  predicate IsField(s: string) {
    s != "" && forall i :: 0 <= i < |s| ==> !IsSpace(s[i])
  }

  ghost predicate AreFields(fields: seq<string>) {
    forall i :: 0 <= i < |fields| ==> IsField(fields[i])
  }

  /** `pads[i]` spaces before field i, at least one between two fields, and
      `last` spaces behind. */
  ghost predicate Pads(fields: seq<string>, pads: seq<nat>) {
    |pads| == |fields| && forall i :: 1 <= i < |pads| ==> pads[i] > 0
  }

  function Line(fields: seq<string>, pads: seq<nat>, last: nat): string
    requires |pads| == |fields|
  {
    if fields == [] then Spaces(last)
    else Line(fields[..|fields| - 1], pads[..|pads| - 1], 0)
         + Spaces(pads[|pads| - 1]) + fields[|fields| - 1] + Spaces(last)
  }

  /** The columns getConnectionItem works on. */
  function Columns(line: string): seq<string> {
    NonEmpty(Split(TrimSpace(line), ' '))
  }

  /** Columns of text whose only white space is blanks are its non-empty pieces
      between blanks. */
  function Words(s: string): seq<string> {
    NonEmpty(Split(s, ' '))
  }

  ghost predicate OnlyBlanks(s: string) {
    forall i :: 0 <= i < |s| && IsSpace(s[i]) ==> s[i] == ' '
  }

  lemma WordsAt(a: string, b: string)
    ensures Words(a + [' '] + b) == Words(a) + Words(b)
  {
    SplitAt(a, ' ', b);
    NonEmptyAppend(Split(a, ' '), Split(b, ' '));
  }

  lemma WordsOfEmpty()
    ensures Words("") == []
  {
  }

  lemma {:induction false} TrimLeftWords(s: string)
    requires OnlyBlanks(s)
    ensures Words(TrimLeft(s)) == Words(s) && OnlyBlanks(TrimLeft(s))
  {
    if s != "" && IsSpace(s[0]) {
      TrimLeftWords(s[1..]);
      assert s == "" + [' '] + s[1..];
      WordsAt("", s[1..]);
      WordsOfEmpty();
    }
  }

  lemma {:induction false} TrimRightWords(s: string)
    requires OnlyBlanks(s)
    ensures Words(TrimRight(s)) == Words(s)
  {
    if s != "" && IsSpace(s[|s| - 1]) {
      var p := s[..|s| - 1];
      TrimRightWords(p);
      assert s == p + [' '] + "";
      WordsAt(p, "");
      WordsOfEmpty();
    }
  }

  lemma {:induction false} SpacesWords(n: nat)
    ensures Words(Spaces(n)) == []
  {
    WordsOfEmpty();
    if n > 0 {
      SpacesWords(n - 1);
      assert Spaces(n) == "" + [' '] + Spaces(n - 1);
      WordsAt("", Spaces(n - 1));
    }
  }

  lemma FieldWords(f: string, before: nat, after: nat)
    requires IsField(f)
    ensures Words(Spaces(before) + f + Spaces(after)) == [f]
  {
    SplitNone(f, ' ');
    assert NonEmpty([f]) == [f] by { assert NonEmpty([f][..0]) == []; }
    BlanksAround(f, before, after);
  }

  lemma {:induction false} BlanksAround(f: string, before: nat, after: nat)
    ensures Words(Spaces(before) + f + Spaces(after)) == Words(f)
    decreases before + after
  {
    WordsOfEmpty();
    if before > 0 {
      BlanksAround(f, before - 1, after);
      var t := Spaces(before - 1) + f + Spaces(after);
      assert Spaces(before) + f + Spaces(after) == "" + [' '] + t;
      WordsAt("", t);
    } else if after > 0 {
      BlanksAround(f, 0, after - 1);
      var t := Spaces(0) + f + Spaces(after - 1);
      assert Spaces(0) + f + Spaces(after) == t + [' '] + "";
      WordsAt(t, "");
    } else {
      assert Spaces(0) + f + Spaces(0) == f;
    }
  }

  lemma {:induction false} LineWords(fields: seq<string>, pads: seq<nat>, last: nat)
    requires AreFields(fields) && Pads(fields, pads)
    ensures Words(Line(fields, pads, last)) == fields
  {
    if fields == [] {
      SpacesWords(last);
    } else {
      var n := |fields| - 1;
      var f, k := fields[n], pads[n];
      LineWords(fields[..n], pads[..n], 0);
      assert fields == fields[..n] + [f];
      if n == 0 {
        assert Line(fields, pads, last) == Spaces(k) + f + Spaces(last);
        FieldWords(f, k, last);
      } else {
        var head := Line(fields[..n], pads[..n], 0);
        var tail := Spaces(k - 1) + f + Spaces(last);
        assert Spaces(k) == [' '] + Spaces(k - 1);
        assert Line(fields, pads, last) == head + [' '] + tail;
        WordsAt(head, tail);
        FieldWords(f, k - 1, last);
      }
    }
  }

  lemma {:induction false} LineOnlyBlanks(fields: seq<string>, pads: seq<nat>, last: nat)
    requires AreFields(fields) && |pads| == |fields|
    ensures OnlyBlanks(Line(fields, pads, last))
  {
    if fields != [] {
      LineOnlyBlanks(fields[..|fields| - 1], pads[..|pads| - 1], 0);
    }
  }

  /** However a line of fields is padded, its columns are the fields. */
  lemma PaddingIsIrrelevant(fields: seq<string>, pads: seq<nat>, last: nat)
    requires AreFields(fields) && Pads(fields, pads)
    ensures Columns(Line(fields, pads, last)) == fields
  {
    var line := Line(fields, pads, last);
    LineOnlyBlanks(fields, pads, last);
    TrimLeftWords(line);
    TrimRightWords(TrimLeft(line));
    LineWords(fields, pads, last);
  }
}
