/** Text as the printer quotes it, and text as the JSON decoder reads it. */
module QuotedText {
  import opened Wrappers

  // ---------- Quoting ----------

  function Code(c: char): int {
    c as int
  }

  /** Whether a character is written as it is; outside ASCII this is left to a table. */
  function IsPrint(c: char, table: char -> bool): bool {
    if Code(c) < 0x80 then 0x20 <= Code(c) <= 0x7e else table(c)
  }

  function HexDigit(d: nat): char
    requires d < 16
  {
    "0123456789abcdef"[d]
  }

  /** The lowest digits of n in base sixteen, most significant first. */
  function Hex(n: nat, digits: nat): (s: string)
    ensures |s| == digits
  {
    if digits == 0 then "" else Hex(n / 16, digits - 1) + [HexDigit(n % 16)]
  }

  /** The letter of a control character that has an escape of its own. */
  function ControlLetter(code: int): Option<char> {
    match code
    case 0x07 => Some('a')
    case 0x08 => Some('b')
    case 0x09 => Some('t')
    case 0x0a => Some('n')
    case 0x0b => Some('v')
    case 0x0c => Some('f')
    case 0x0d => Some('r')
    case _ => None
  }

  function Escape(c: char, table: char -> bool): string {
    if c == '\"' || c == '\\' then ['\\', c]
    else if IsPrint(c, table) then [c]
    else if ControlLetter(Code(c)).Some? then ['\\', ControlLetter(Code(c)).value]
    else NumericEscape(Code(c))
  }

  function NumericEscape(code: nat): string {
    if code < 0x20 || code == 0x7f then "\\x" + Hex(code, 2)
    else if code < 0x10000 then "\\u" + Hex(code, 4)
    else "\\U" + Hex(code, 8)
  }

  function Escapes(s: string, table: char -> bool): string {
    if s == "" then "" else Escape(s[0], table) + Escapes(s[1..], table)
  }

  function Quote(s: string, table: char -> bool): string {
    "\"" + Escapes(s, table) + "\""
  }

  /** Text of printing ASCII characters without quotes and backslashes is quoted as it is. */
  lemma {:induction false} QuotedAsItIs(s: string, table: char -> bool)
    requires forall i :: 0 <= i < |s| ==> ' ' <= s[i] <= '~' && s[i] != '\"' && s[i] != '\\'
    ensures Escapes(s, table) == s && Quote(s, table) == "\"" + s + "\""
  {
    if s != "" {
      QuotedAsItIs(s[1..], table);
    }
  }

  /** How the other ASCII characters are quoted. */
  lemma EscapedAscii(c: char, table: char -> bool)
    requires c == '\"' || c == '\\' || c < ' ' || c == 0x7f as char
    ensures Escape(c, table) ==
      if c == '\"' || c == '\\' then ['\\', c]
      else if 7 <= c as int <= 13 then ['\\', "abtnvfr"[c as int - 7]]
      else ['\\', 'x', "0123456789abcdef"[c as int / 16], "0123456789abcdef"[c as int % 16]]
  {
    var code := c as int;
    if !(7 <= code <= 13) && c != '\"' && c != '\\' {
      TwoDigits(code);
    }
  }

  lemma TwoDigits(n: nat)
    requires n < 256
    ensures Hex(n, 2) == ["0123456789abcdef"[n / 16], "0123456789abcdef"[n % 16]]
  {
    assert Hex(n / 16, 1) == Hex(n / 256, 0) + [HexDigit(n / 16)];
  }

  /** Characters that are written with an escape JSON does not have. */
  predicate Unreadable(c: char, table: char -> bool) {
    !IsPrint(c, table) &&
    if Code(c) < 0x20 then Code(c) !in {0x08, 0x09, 0x0a, 0x0c, 0x0d} else Code(c) == 0x7f || Code(c) >= 0x10000
  }

  predicate Readable(s: string, table: char -> bool) {
    forall i :: 0 <= i < |s| ==> !Unreadable(s[i], table)
  }

  // ---------- Replacing equal signs ----------

  function Colon(s: string): (r: string)
    ensures |r| == |s|
  {
    seq(|s|, i requires 0 <= i < |s| => if s[i] == '=' then ':' else s[i])
  }

  lemma ColonConcat(a: string, b: string)
    ensures Colon(a + b) == Colon(a) + Colon(b)
  {
  }

  // ---------- Reading ----------

  /** The unread rest of the input with what was read, or nothing when it does not follow the grammar. */
  datatype Read<T> = Malformed | Read(value: T, rest: string)

  function Prepend(c: char, r: Read<string>): Read<string> {
    match r
    case Malformed => Malformed
    case Read(s, rest) => Read([c] + s, rest)
  }

  function HexValue(c: char): Option<nat> {
    if '0' <= c <= '9' then Some(c as int - '0' as int)
    else if 'a' <= c <= 'f' then Some(c as int - 'a' as int + 10)
    else if 'A' <= c <= 'F' then Some(c as int - 'A' as int + 10)
    else None
  }

  /** The number the first digits stand for. */
  function ReadHex(s: string, digits: nat): (r: Option<nat>)
    requires digits <= |s|
  {
    if digits == 0 then Some(0)
    else
      var high, low := ReadHex(s, digits - 1), HexValue(s[digits - 1]);
      if high.Some? && low.Some? then Some(high.value * 16 + low.value) else None
  }

  /** The code unit of an escape that starts the input. */
  function UnitEscape(s: string): (r: Option<nat>)
    ensures r.Some? ==> |s| >= 6
  {
    if |s| >= 6 && s[..2] == "\\u" then ReadHex(s[2..], 4) else None
  }

  const REPLACEMENT: char := 0xfffd as char

  /** A code unit as a character; half of a surrogate pair needs the other half to follow. */
  function ReadUnit(unit: nat, rest: string): (char, string) {
    if 0xd800 <= unit < 0xe000 then
      var second := UnitEscape(rest);
      if unit < 0xdc00 && second.Some? && 0xdc00 <= second.value < 0xe000
      then ((0x10000 + (unit - 0xd800) * 0x400 + (second.value - 0xdc00)) as char, rest[6..])
      else (REPLACEMENT, rest)
    else if unit < 0x10000 then (unit as char, rest)
    else (REPLACEMENT, rest)
  }

  /** The character a one-letter escape stands for. */
  function Letter(c: char): Option<char> {
    match c
    case '\"' => Some('\"')
    case '\\' => Some('\\')
    case '/' => Some('/')
    case 'b' => Some(0x08 as char)
    case 'f' => Some(0x0c as char)
    case 'n' => Some('\n')
    case 'r' => Some('\r')
    case 't' => Some('\t')
    case _ => None
  }

  /** A string, after its opening quote. */
  function ReadText(s: string): (r: Read<string>)
    ensures r.Read? ==> |r.rest| < |s|
    decreases |s|
  {
    if s == "" || Code(s[0]) < 0x20 then Malformed
    else if s[0] == '\"' then Read("", s[1..])
    else if s[0] != '\\' then Prepend(s[0], ReadText(s[1..]))
    else if UnitEscape(s).Some? then
      var (c, rest) := ReadUnit(UnitEscape(s).value, s[6..]);
      Prepend(c, ReadText(rest))
    else if |s| >= 2 && Letter(s[1]).Some? then Prepend(Letter(s[1]).value, ReadText(s[2..]))
    else Malformed
  }

  // ---------- Reading back what was quoted ----------

  lemma HexDigitValue(d: nat)
    requires d < 16
    ensures HexValue(HexDigit(d)) == Some(d) && HexDigit(d) != '='
  {
  }

  function Power16(k: nat): (p: nat)
    ensures p > 0
  {
    if k == 0 then 1 else 16 * Power16(k - 1)
  }

  /** Enough digits give the number back. */
  lemma {:induction false} ReadHexOfHex(n: nat, digits: nat, more: string)
    requires n < Power16(digits)
    ensures ReadHex(Hex(n, digits) + more, digits) == Some(n)
  {
    if digits > 0 {
      var last := [HexDigit(n % 16)] + more;
      HexDigitValue(n % 16);
      assert Hex(n, digits) + more == Hex(n / 16, digits - 1) + last;
      ReadHexOfHex(n / 16, digits - 1, last);
    }
  }

  lemma {:induction false} HexHasNoEquals(n: nat, digits: nat)
    ensures Colon(Hex(n, digits)) == Hex(n, digits)
  {
    if digits > 0 {
      HexHasNoEquals(n / 16, digits - 1);
      HexDigitValue(n % 16);
      ColonConcat(Hex(n / 16, digits - 1), [HexDigit(n % 16)]);
    }
  }

  lemma ColonNumeric(code: nat)
    ensures Colon(NumericEscape(code)) == NumericEscape(code)
  {
    HexHasNoEquals(code, 2);
    HexHasNoEquals(code, 4);
    HexHasNoEquals(code, 8);
    ColonConcat("\\x", Hex(code, 2));
    ColonConcat("\\u", Hex(code, 4));
    ColonConcat("\\U", Hex(code, 8));
  }

  /** Only a plain equal sign is changed; escapes have none. */
  lemma ColonEscape(c: char, table: char -> bool)
    ensures Colon(Escape(c, table)) == if c == '=' then ":" else Escape(c, table)
  {
    ColonNumeric(Code(c));
  }

  lemma ReadUnitEscape(n: nat, more: string)
    requires n < 0x10000
    ensures UnitEscape("\\u" + Hex(n, 4) + more) == Some(n)
    ensures ("\\u" + Hex(n, 4) + more)[6..] == more
  {
    var s := "\\u" + Hex(n, 4) + more;
    assert s[2..] == Hex(n, 4) + more;
    assert Power16(4) == 0x10000 by {
      assert Power16(2) == 256;
    }
    ReadHexOfHex(n, 4, more);
  }

  lemma ReadPlain(c: char, table: char -> bool, more: string)
    requires IsPrint(c, table) && c != '\"' && c != '\\'
    ensures ReadText(Colon(Escape(c, table)) + more) == Prepend(if c == '=' then ':' else c, ReadText(more))
  {
    ColonEscape(c, table);
    assert (Escape(c, table) + more)[1..] == more;
    assert (":" + more)[1..] == more;
  }

  lemma ReadLetter(l: char, more: string)
    requires Letter(l).Some?
    ensures ReadText(['\\', l] + more) == Prepend(Letter(l).value, ReadText(more))
  {
    var s := ['\\', l] + more;
    assert s[2..] == more;
    assert s[..2][1] == l;
  }

  lemma ReadOther(e: string, more: string)
    requires |e| >= 2 && e[0] == '\\' && Letter(e[1]).None? && e[1] != 'u'
    ensures ReadText(e + more) == Malformed
  {
    var s := e + more;
    assert s[0] == '\\' && s[..2][1] == e[1];
  }

  lemma ReadUnicode(n: nat, more: string)
    requires n < 0xd800 || 0xe000 <= n < 0x10000
    ensures ReadText("\\u" + Hex(n, 4) + more) == Prepend(n as char, ReadText(more))
  {
    ReadUnitEscape(n, more);
  }

  /** The letter of a control character stands for it, or JSON does not know it. */
  lemma ControlLetterMeans(c: char, table: char -> bool)
    requires !IsPrint(c, table) && ControlLetter(Code(c)).Some?
    ensures Letter(ControlLetter(Code(c)).value) == if Unreadable(c, table) then None else Some(c)
    ensures ControlLetter(Code(c)).value != 'u'
  {
  }

  lemma NumericIsUnknown(code: nat)
    requires code < 0x20 || code == 0x7f || code >= 0x10000
    ensures |NumericEscape(code)| >= 2 && NumericEscape(code)[0] == '\\' && NumericEscape(code)[1] in {'x', 'U'}
  {
  }

  lemma ReadControl(c: char, table: char -> bool, more: string)
    requires !IsPrint(c, table) && (Code(c) < 0x80 || Code(c) >= 0x10000)
    ensures ReadText(Escape(c, table) + more) == if Unreadable(c, table) then Malformed else Prepend(c, ReadText(more))
  {
    if ControlLetter(Code(c)).Some? {
      ControlLetterMeans(c, table);
    } else {
      NumericIsUnknown(Code(c));
    }
    ReadShort(Escape(c, table), more);
  }

  lemma ReadShort(e: string, more: string)
    requires |e| >= 2 && e[0] == '\\' && e[1] != 'u'
    requires Letter(e[1]).Some? ==> |e| == 2
    ensures ReadText(e + more)
         == match Letter(e[1]) case None => Malformed case Some(c) => Prepend(c, ReadText(more))
  {
    if Letter(e[1]).None? {
      ReadOther(e, more);
    } else {
      assert e == ['\\', e[1]];
      ReadLetter(e[1], more);
    }
  }

  /** A readable character is read back from its escape, an equal sign as a colon; others end the reading. */
  lemma ReadEscape(c: char, table: char -> bool, more: string)
    ensures ReadText(Colon(Escape(c, table)) + more)
         == if Unreadable(c, table) then Malformed else Prepend(if c == '=' then ':' else c, ReadText(more))
  {
    ColonEscape(c, table);
    if c == '\"' || c == '\\' {
      ReadLetter(c, more);
    } else if IsPrint(c, table) {
      ReadPlain(c, table, more);
    } else if 0x80 <= Code(c) < 0x10000 {
      ReadUnicode(Code(c), more);
    } else {
      ReadControl(c, table, more);
    }
  }

  lemma ColonThen(a: string, b: string, end: string)
    ensures Colon(a + b) + end == Colon(a) + (Colon(b) + end)
  {
    ColonConcat(a, b);
  }

  lemma EscapesThen(t: string, table: char -> bool, end: string)
    requires t != ""
    ensures Colon(Escapes(t, table)) + end == Colon(Escape(t[0], table)) + (Colon(Escapes(t[1..], table)) + end)
  {
    ColonThen(Escape(t[0], table), Escapes(t[1..], table), end);
  }

  lemma ReadNothing(table: char -> bool, more: string)
    ensures ReadText(Colon(Escapes("", table)) + ("\"" + more)) == Read("", more)
  {
    assert Colon(Escapes("", table)) + ("\"" + more) == "\"" + more;
    assert ("\"" + more)[1..] == more;
  }

  lemma ReadableHead(t: string, table: char -> bool)
    requires t != ""
    ensures Readable(t, table) <==> !Unreadable(t[0], table) && Readable(t[1..], table)
  {
    assert t == [t[0]] + t[1..];
  }

  lemma ColonHead(t: string)
    requires t != ""
    ensures Colon(t) == [if t[0] == '=' then ':' else t[0]] + Colon(t[1..])
  {
  }

  /** A quoted text is read back, equal signs as colons, exactly when all its characters are readable. */
  lemma {:induction false} ReadEscapes(t: string, table: char -> bool, more: string)
    ensures ReadText(Colon(Escapes(t, table)) + ("\"" + more))
         == if Readable(t, table) then Read(Colon(t), more) else Malformed
  {
    if t == "" {
      ReadNothing(table, more);
    } else {
      EscapesThen(t, table, "\"" + more);
      ReadEscape(t[0], table, Colon(Escapes(t[1..], table)) + ("\"" + more));
      ReadEscapes(t[1..], table, more);
      ReadableHead(t, table);
      ColonHead(t);
    }
  }
}
