/** The text under which the table of files knows a file: str(path) and a NUL, where path is bytes. */
module TableNames {
  import opened Bytes
  import opened Options
  import opened Text

  /** One byte of a path as str writes it inside a pair of quotes. */
  function EscapedByte(quote: char, b: Byte): (s: string)
    ensures |s| > 0
  {
    var c := b as char;
    if c == quote || c == '\\' then ['\\', c]
    else if c == '\t' then "\\t"
    else if c == '\n' then "\\n"
    else if c == '\r' then "\\r"
    else if b < 0x20 || b >= 0x7f then "\\x" + HexPair(b)
    else [c]
  }

  function Escaped(quote: char, path: seq<Byte>): string {
    if |path| == 0 then "" else EscapedByte(quote, path[0]) + Escaped(quote, path[1..])
  }

  /** A single quote, unless the path has single quotes and no double ones. */
  function QuoteOf(path: seq<Byte>): (quote: char)
    ensures quote == '\'' || quote == '"'
  {
    if 0x27 in path && 0x22 !in path then '"' else '\''
  }

  function TableName(path: seq<Byte>): string {
    "b" + [QuoteOf(path)] + Escaped(QuoteOf(path), path) + [QuoteOf(path)] + "\0"
  }

  /** The escaped form of a byte can be read off from the front. */
  lemma EscapedByteIsACode(quote: char, a: Byte, x: string, b: Byte, y: string)
    requires quote == '\'' || quote == '"'
    requires EscapedByte(quote, a) + x == EscapedByte(quote, b) + y
    ensures a == b && x == y
  {
    var s, t := EscapedByte(quote, a), EscapedByte(quote, b);
    var all := s + x;
    assert all[0] == s[0] == t[0] && x == all[|s|..] && y == all[|t|..];
    if s[0] == '\\' {
      assert all[1] == s[1] == t[1];
      if s[1] == 'x' {
        assert all[2] == s[2] == t[2] && all[3] == s[3] == t[3];
        assert s[2..] == HexPair(a) && t[2..] == HexPair(b);
        PairRoundTrip(a);
        PairRoundTrip(b);
      }
    }
  }

  lemma {:induction false} EscapedInjective(quote: char, p: seq<Byte>, q: seq<Byte>)
    requires quote == '\'' || quote == '"'
    requires Escaped(quote, p) == Escaped(quote, q)
    ensures p == q
  {
    hide EscapedByte;
    if |p| == 0 || |q| == 0 {
    } else {
      EscapedByteIsACode(quote, p[0], Escaped(quote, p[1..]), q[0], Escaped(quote, q[1..]));
      EscapedInjective(quote, p[1..], q[1..]);
      assert p == [p[0]] + p[1..] && q == [q[0]] + q[1..];
    }
  }

  /** Two files of one client share a row of the table just when they have the same name. */
  lemma TableNameInjective(p: seq<Byte>, q: seq<Byte>)
    ensures TableName(p) == TableName(q) <==> p == q
  {
    hide Escaped;
    if TableName(p) == TableName(q) {
      var s, t := TableName(p), TableName(q);
      assert s[1] == QuoteOf(p) && t[1] == QuoteOf(q);
      assert s[2..|s| - 2] == Escaped(QuoteOf(p), p) && t[2..|t| - 2] == Escaped(QuoteOf(q), q);
      EscapedInjective(QuoteOf(p), p, q);
    }
  }

  // ---------- What the text is ----------

  function Prepend(b: Byte, rest: Option<seq<Byte>>): Option<seq<Byte>> {
    match rest
    case None => None
    case Some(p) => Some([b] + p)
  }

  /** A reader of bytes literals, up to the closing quote and the NUL: the escapes of the language
      reference that stand for one byte. */
  function ReadBody(s: string, quote: char): Option<seq<Byte>> {
    if |s| == 0 then None
    else if s[0] == quote then if s[1..] == "\0" then Some([]) else None
    else if s[0] != '\\' then if s[0] as int < 0x80 then Prepend(s[0] as int, ReadBody(s[1..], quote)) else None
    else if |s| < 2 then None
    else if s[1] == 't' then Prepend(9, ReadBody(s[2..], quote))
    else if s[1] == 'n' then Prepend(10, ReadBody(s[2..], quote))
    else if s[1] == 'r' then Prepend(13, ReadBody(s[2..], quote))
    else if s[1] == '\\' || s[1] == '\'' || s[1] == '"' then Prepend(s[1] as int, ReadBody(s[2..], quote))
    else if s[1] == 'x' && |s| >= 4 && HexValue(s[2]).Some? && HexValue(s[3]).Some? then
      Prepend(16 * HexValue(s[2]).value + HexValue(s[3]).value, ReadBody(s[4..], quote))
    else None
  }

  function ReadLiteral(text: string): Option<seq<Byte>> {
    if |text| < 2 || text[0] != 'b' || (text[1] != '\'' && text[1] != '"') then None else ReadBody(text[2..], text[1])
  }

  lemma ReadByte(quote: char, b: Byte, rest: string)
    requires quote == '\'' || quote == '"'
    ensures ReadBody(EscapedByte(quote, b) + rest, quote) == Prepend(b, ReadBody(rest, quote))
  {
    hide ReadBody, HexPair, Prepend;
    var s := EscapedByte(quote, b);
    if |s| == 1 {
      ReadOne(quote, b as char, rest);
    } else if |s| == 2 {
      ReadTwo(quote, s[1], rest);
      assert s == ['\\', s[1]];
    } else {
      ReadHex(quote, b, rest);
    }
  }

  lemma ReadOne(quote: char, c: char, rest: string)
    requires c != quote && c != '\\' && c as int < 0x80
    ensures ReadBody([c] + rest, quote) == Prepend(c as int, ReadBody(rest, quote))
  {
    assert ([c] + rest)[1..] == rest;
  }

  lemma ReadTwo(quote: char, c: char, rest: string)
    requires quote != '\\' && c in {'t', 'n', 'r', '\\', '\'', '"'}
    ensures ReadBody(['\\', c] + rest, quote) ==
            Prepend(if c == 't' then 9 else if c == 'n' then 10 else if c == 'r' then 13 else c as int, ReadBody(rest, quote))
  {
    assert (['\\', c] + rest)[2..] == rest;
  }

  lemma ReadHex(quote: char, b: Byte, rest: string)
    requires quote != '\\'
    ensures ReadBody("\\x" + HexPair(b) + rest, quote) == Prepend(b, ReadBody(rest, quote))
  {
    hide HexValue, HexDigit;
    var all := "\\x" + HexPair(b) + rest;
    DigitRoundTrip(b / 16);
    DigitRoundTrip(b % 16);
    assert all[2] == HexPair(b)[0] && all[3] == HexPair(b)[1] && all[4..] == rest;
  }

  lemma {:induction false} ReadEscaped(quote: char, path: seq<Byte>)
    requires quote == '\'' || quote == '"'
    ensures ReadBody(Escaped(quote, path) + ([quote] + "\0"), quote) == Some(path)
  {
    hide EscapedByte;
    var end := [quote] + "\0";
    if |path| == 0 {
      assert Escaped(quote, path) + end == end && end[1..] == "\0";
    } else {
      ReadEscaped(quote, path[1..]);
      ReadByte(quote, path[0], Escaped(quote, path[1..]) + end);
      assert Escaped(quote, path) + end == EscapedByte(quote, path[0]) + (Escaped(quote, path[1..]) + end);
      assert path == [path[0]] + path[1..];
    }
  }

  /** Read as a literal of the language, the text is the path again; and the quote is a double one just
      when the path has single ones and no double one. */
  lemma TableNameIsLiteral(path: seq<Byte>)
    ensures ReadLiteral(TableName(path)) == Some(path)
    ensures TableName(path)[1] == if 0x27 in path && 0x22 !in path then '"' else '\''
  {
    hide Escaped, ReadBody;
    var quote, text := QuoteOf(path), TableName(path);
    ReadEscaped(quote, path);
    assert text[2..] == Escaped(quote, path) + ([quote] + "\0");
  }

  predicate IsPlain(b: Byte) {
    0x20 <= b < 0x7f && b != 0x22 && b != 0x27 && b != 0x5c
  }

  /** A printable path without quotes and backslashes stands in the text as it is. */
  lemma PlainTableName(path: seq<Byte>)
    requires forall b :: b in path ==> IsPlain(b)
    ensures TableName(path) == "b'" + seq(|path|, i requires 0 <= i < |path| => path[i] as char) + "'\0"
  {
    PlainEscaped(path);
    assert QuoteOf(path) == '\'';
  }

  lemma {:induction false} PlainEscaped(path: seq<Byte>)
    requires forall b :: b in path ==> IsPlain(b)
    ensures Escaped('\'', path) == seq(|path|, i requires 0 <= i < |path| => path[i] as char)
  {
    hide EscapedByte, IsPlain;
    if |path| == 0 {
    } else {
      PlainByte(path[0]);
      PlainEscaped(path[1..]);
    }
  }

  lemma PlainByte(b: Byte)
    requires IsPlain(b)
    ensures EscapedByte('\'', b) == [b as char]
  {
  }

  /** Every other byte has one way to be written. */
  lemma OtherBytes(quote: char, b: Byte)
    requires !IsPlain(b) && (quote == '\'' || quote == '"')
    ensures EscapedByte(quote, b) ==
            if b == 9 then "\\t" else if b == 10 then "\\n" else if b == 13 then "\\r" else if b == 0x5c then "\\\\"
            else if b == 0x22 || b == 0x27 then if b as char == quote then ['\\', quote] else [b as char]
            else "\\x" + [LowerCaseCode(b / 16) as char, LowerCaseCode(b % 16) as char]
  {
    LowerCasePair(b);
  }
}
