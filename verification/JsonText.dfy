/**
How encoding/json writes a Go string and reads it back. A Go string is bytes: decoding them gives
runes, and bytes that are not valid UTF-8, which the encoder writes as an escape.
*/
module JsonText {
  import opened SeqKey

  /** A rune, or a byte that belongs to no valid UTF-8 sequence. */
  datatype Unit = Rune(c: char) | Stray(b: Byte)

  type Text = seq<Unit>

  const Replacement := '\U{FFFD}'

  /** What is read, and what follows it. */
  datatype Read<T> = Failed | Read(value: T, rest: string)

  // ---- Writing ----

  function HexDigit(d: nat): char
    requires d < 16
  {
    if d < 10 then '0' + d as char else 'a' + (d - 10) as char
  }

  function Hex4(n: nat): string
    requires n < 0x1_0000
  {
    [HexDigit(n / 4096), HexDigit(n / 256 % 16), HexDigit(n / 16 % 16), HexDigit(n % 16)]
  }

  /** Controls without a short escape, the characters special to HTML, and the line separators. */
  predicate WrittenInHex(c: char)
  {
    c < ' ' || c == '<' || c == '>' || c == '&' || c == '\U{2028}' || c == '\U{2029}'
  }

  function Escaped(u: Unit): (s: string)
    ensures s != "" && s[0] != '"'
  {
    match u
    case Stray(_) => "\\ufffd"
    case Rune(c) =>
      if c == '"' then "\\\""
      else if c == '\\' then "\\\\"
      else if c == '\U{8}' then "\\b"
      else if c == '\U{C}' then "\\f"
      else if c == '\n' then "\\n"
      else if c == '\r' then "\\r"
      else if c == '\t' then "\\t"
      else if WrittenInHex(c) then "\\u" + Hex4(c as int)
      else [c]
  }

  function Escapes(t: Text): string
  {
    if t == [] then "" else Escaped(t[0]) + Escapes(t[1..])
  }

  // ---- Reading ----

  function HexValue(c: char): (n: int)
    ensures -1 <= n < 16
  {
    if '0' <= c <= '9' then c as int - '0' as int
    else if 'a' <= c <= 'f' then c as int - 'a' as int + 10
    else if 'A' <= c <= 'F' then c as int - 'A' as int + 10
    else -1
  }

  /** The number of four hexadecimal digits, or -1. */
  function Hex4Value(s: string): (n: int)
    requires |s| == 4
    ensures -1 <= n < 0x1_0000
  {
    if HexValue(s[0]) < 0 || HexValue(s[1]) < 0 || HexValue(s[2]) < 0 || HexValue(s[3]) < 0 then -1
    else 4096 * HexValue(s[0]) + 256 * HexValue(s[1]) + 16 * HexValue(s[2]) + HexValue(s[3])
  }

  /** One unit of a quoted text; halves of surrogate pairs, which the encoder never writes, are not read. */
  function ReadUnit(s: string): (r: Read<Unit>)
    ensures r.Read? ==> |r.rest| < |s|
  {
    if s == "" || s[0] == '"' || s[0] < ' ' then Failed
    else if s[0] != '\\' then Read(Rune(s[0]), s[1..])
    else if |s| < 2 then Failed
    else match s[1]
      case '"' => Read(Rune('"'), s[2..])
      case '\\' => Read(Rune('\\'), s[2..])
      case '/' => Read(Rune('/'), s[2..])
      case 'b' => Read(Rune('\U{8}'), s[2..])
      case 'f' => Read(Rune('\U{C}'), s[2..])
      case 'n' => Read(Rune('\n'), s[2..])
      case 'r' => Read(Rune('\r'), s[2..])
      case 't' => Read(Rune('\t'), s[2..])
      case 'u' =>
        if |s| < 6 then Failed
        else
          var n := Hex4Value(s[2..6]);
          if n < 0 || 0xD800 <= n < 0xE000 then Failed else Read(Rune(n as char), s[6..])
      case _ => Failed
  }

  /** A text up to its closing quote. */
  function ReadText(s: string): (r: Read<Text>)
    decreases |s|
  {
    if s == "" then Failed
    else if s[0] == '"' then Read([], s[1..])
    else
      var first := ReadUnit(s);
      if first.Failed? then Failed
      else
        var more := ReadText(first.rest);
        if more.Failed? then Failed else Read([first.value] + more.value, more.rest)
  }

  // ---- What is read back ----

  predicate Clean(t: Text)
  {
    forall i :: 0 <= i < |t| ==> t[i].Rune?
  }

  /** Each stray byte comes back as the replacement character. */
  function ReadBack(t: Text): (s: Text)
    ensures Clean(s) && |s| == |t| && (Clean(t) ==> s == t)
  {
    seq(|t|, i requires 0 <= i < |t| => if t[i].Rune? then t[i] else Rune(Replacement))
  }

  function Strays(t: Text): (n: nat)
    ensures n == 0 <==> Clean(t)
  {
    if t == [] then 0 else Strays(t[1..]) + if t[0].Rune? then 0 else 1
  }

  lemma DigitReadsBack(d: nat)
    requires d < 16
    ensures HexValue(HexDigit(d)) == d
  {
  }

  lemma FourDigits(n: nat)
    ensures n == 4096 * (n / 4096) + 256 * (n / 256 % 16) + 16 * (n / 16 % 16) + n % 16
  {
    assert n / 256 == n / 16 / 16 && n / 4096 == n / 256 / 16;
  }

  lemma HexReadsBack(n: nat)
    requires n < 0x1_0000
    ensures Hex4Value(Hex4(n)) == n
  {
    FourDigits(n);
    DigitReadsBack(n / 4096);
    DigitReadsBack(n / 256 % 16);
    DigitReadsBack(n / 16 % 16);
    DigitReadsBack(n % 16);
  }

  lemma UnitReadsBack(u: Unit, x: string)
    ensures ReadUnit(Escaped(u) + x) == Read(ReadBack([u])[0], x)
  {
    var s := Escaped(u) + x;
    if u.Rune? && |Escaped(u)| == 6 {
      HexReadsBack(u.c as int);
      assert s[2..6] == Hex4(u.c as int);
    } else if u.Stray? {
      assert s[2..6] == "fffd";
    }
    assert s[|Escaped(u)|..] == x;
  }

  lemma OneMoreRead(u: Unit, more: string)
    requires ReadText(more).Read?
    ensures ReadText(Escaped(u) + more) == Read([ReadBack([u])[0]] + ReadText(more).value, ReadText(more).rest)
  {
    UnitReadsBack(u, more);
    assert (Escaped(u) + more)[0] == Escaped(u)[0];
  }

  /** Reading what was written gives the text with each stray byte replaced, and stops where it ended. */
  lemma {:induction false} TextReadsBack(t: Text, x: string)
    ensures ReadText(Escapes(t) + ("\"" + x)) == Read(ReadBack(t), x)
  {
    var s := Escapes(t) + ("\"" + x);
    if t == [] {
      assert s == "\"" + x;
    } else {
      var more := Escapes(t[1..]) + ("\"" + x);
      assert s == Escaped(t[0]) + more;
      TextReadsBack(t[1..], x);
      OneMoreRead(t[0], more);
      assert ReadBack(t) == [ReadBack([t[0]])[0]] + ReadBack(t[1..]);
    }
  }

  /** Written again, a text that was read back is shorter by five for each stray byte: an escape became one character. */
  lemma {:induction false} StraysShorten(t: Text)
    ensures |Escapes(ReadBack(t))| + 5 * Strays(t) == |Escapes(t)|
  {
    if t != [] {
      StraysShorten(t[1..]);
      assert ReadBack(t)[1..] == ReadBack(t[1..]);
      assert Escaped(Rune(Replacement)) == [Replacement];
    }
  }
}
