/** Text that one program prints and the other reads back: decimal checksums and hexadecimal ids. */
module Text {
  import opened Bytes
  import opened Options

  predicate IsDigit(c: char) {
    '0' <= c <= '9'
  }

  function DigitOf(d: nat): (c: char)
    requires d < 10
    ensures IsDigit(c)
  {
    "0123456789"[d]
  }

  function DigitValue(c: char): (d: nat)
    requires IsDigit(c)
    ensures d < 10
  {
    c as int - '0' as int
  }

  /** How both programs print an unsigned number. */
  function Decimal(n: nat): (s: string)
    ensures |s| > 0 && forall i :: 0 <= i < |s| ==> IsDigit(s[i])
  {
    if n < 10 then [DigitOf(n)] else Decimal(n / 10) + [DigitOf(n % 10)]
  }

  /** stoll and int, on a string of digits. */
  function ParseDecimal(s: string): nat
    requires forall i :: 0 <= i < |s| ==> IsDigit(s[i])
  {
    if |s| == 0 then 0 else 10 * ParseDecimal(s[..|s| - 1]) + DigitValue(s[|s| - 1])
  }

  lemma {:induction false} DecimalRoundTrip(n: nat)
    ensures ParseDecimal(Decimal(n)) == n
  {
    if n < 10 {
      assert Decimal(n)[..0] == "";
    } else {
      DecimalRoundTrip(n / 10);
      assert Decimal(n)[..|Decimal(n)| - 1] == Decimal(n / 10);
    }
  }

  /** The most significant digit comes first, and there is no leading zero. */
  lemma DecimalDigits(n: nat, d: nat)
    requires d < 10
    ensures Decimal(10 * n + d) == (if n == 0 then "" else Decimal(n)) + [(0x30 + d) as char]
  {
  }

  // ---------- The checksum line ----------

  /** The line both readfile functions build. */
  function ChecksumLine(crc: nat, size: nat, name: string): string {
    Decimal(crc) + "\t" + Decimal(size) + "\t" + name
  }

  /** run is the first maximal run of digits of s, or empty when s has no digit. */
  ghost predicate FirstDigitRun(s: string, run: string) {
    exists i :: FirstDigitRunAt(s, run, i)
  }

  ghost predicate FirstDigitRunAt(s: string, run: string, i: nat) {
    && i + |run| <= |s| && s[i..i + |run|] == run
    && (forall j :: 0 <= j < i ==> !IsDigit(s[j]))
    && (forall j :: 0 <= j < |run| ==> IsDigit(run[j]))
    && (i + |run| < |s| ==> !IsDigit(s[i + |run|]))
    && (|run| == 0 ==> i == |s|)
  }

  method GetNumbers(checksum: string) returns (result: string)
    ensures FirstDigitRun(checksum, result)
  {
    result := "";
    ghost var start := 0;
    for k := 0 to |checksum|
      invariant start + |result| == k
      invariant checksum[start..k] == result
      invariant forall j :: 0 <= j < start ==> !IsDigit(checksum[j])
      invariant forall j :: 0 <= j < |result| ==> IsDigit(result[j])
    {
      if IsDigit(checksum[k]) {
        result := result + [checksum[k]];
      } else if |result| > 0 {
        assert FirstDigitRunAt(checksum, result, start);
        break;
      } else {
        start := k + 1;
      }
    }
    assert FirstDigitRunAt(checksum, result, start);
  }

  /** The characters str.split() without arguments splits at. */
  predicate IsSpace(c: char) {
    var n := c as int;
    9 <= n <= 13 || 28 <= n <= 32 || n == 0x85 || n == 0xa0 || n == 0x1680 || 0x2000 <= n <= 0x200a
    || n == 0x2028 || n == 0x2029 || n == 0x202f || n == 0x205f || n == 0x3000
  }

  function UntilSpace(s: string): string {
    if |s| == 0 || IsSpace(s[0]) then "" else [s[0]] + UntilSpace(s[1..])
  }

  /** s.split()[0]; a string of spaces has no field. */
  function FirstField(s: string): Option<string> {
    if |s| == 0 then None
    else if IsSpace(s[0]) then FirstField(s[1..])
    else Some(UntilSpace(s))
  }

  lemma {:induction false} UntilSpaceAfterDigits(d: string, rest: string)
    requires forall i :: 0 <= i < |d| ==> IsDigit(d[i])
    requires |rest| > 0 && IsSpace(rest[0])
    ensures UntilSpace(d + rest) == d
  {
    if |d| == 0 {
      assert d + rest == rest;
    } else {
      UntilSpaceAfterDigits(d[1..], rest);
      assert (d + rest)[1..] == d[1..] + rest;
    }
  }

  /** Both readers get back the checksum that was printed, whatever the size and the name. */
  lemma ChecksumLineRoundTrip(crc: nat, size: nat, name: string, run: string)
    requires FirstDigitRun(ChecksumLine(crc, size, name), run)
    ensures run == Decimal(crc) && ParseDecimal(run) == crc
    ensures FirstField(ChecksumLine(crc, size, name)) == Some(Decimal(crc))
  {
    hide Decimal;
    var line, d := ChecksumLine(crc, size, name), Decimal(crc);
    var rest := "\t" + Decimal(size) + "\t" + name;
    assert line == d + rest;
    DecimalRoundTrip(crc);
    UntilSpaceAfterDigits(d, rest);
    assert IsDigit(line[0]) && !IsDigit(line[|d|]);
    var i :| FirstDigitRunAt(line, run, i);
    assert i == 0;
    RunIsPrefix(line, run, d);
  }

  /** The line is the checksum, the size and the name, in this order, with a tab between each two. */
  lemma ChecksumLineFields(crc: nat, size: nat, name: string) returns (first: string, second: string)
    ensures ChecksumLine(crc, size, name) == first + "\t" + second + "\t" + name
    ensures (forall c :: c in first + second ==> IsDigit(c)) && ParseDecimal(first) == crc && ParseDecimal(second) == size
  {
    first, second := Decimal(crc), Decimal(size);
    DecimalRoundTrip(crc);
    DecimalRoundTrip(size);
  }

  lemma RunIsPrefix(line: string, run: string, d: string)
    requires FirstDigitRunAt(line, run, 0)
    requires |d| < |line| && d == line[..|d|] && !IsDigit(line[|d|])
    requires forall i :: 0 <= i < |d| ==> IsDigit(d[i])
    ensures run == d
  {
    assert forall i :: 0 <= i < |d| ==> line[i] == d[i] && IsDigit(line[i]);
    assert forall i :: 0 <= i < |run| ==> line[i] == run[i] && IsDigit(line[i]);
    assert |run| == |line| || !IsDigit(line[|run|]);
    assert run == line[..|run|];
  }

  // ---------- Hexadecimal ids ----------

  function HexDigit(n: nat): char
    requires n < 16
  {
    "0123456789abcdef"[n]
  }

  function HexValue(c: char): Option<int> {
    if '0' <= c <= '9' then Some(c as int - '0' as int)
    else if 'a' <= c <= 'f' then Some(c as int - 'a' as int + 10)
    else if 'A' <= c <= 'F' then Some(c as int - 'A' as int + 10)
    else None
  }

  /** Each byte as two hexadecimal digits, filled with a zero. */
  function Hex(id: seq<Byte>): (s: string)
    ensures |s| == 2 * |id|
  {
    if |id| == 0 then "" else Hex(id[..|id| - 1]) + HexPair(id[|id| - 1])
  }

  function HexPair(b: Byte): (s: string)
    ensures |s| == 2
  {
    [HexDigit((b as int) / 16), HexDigit((b as int) % 16)]
  }

  /** stoi(s, nullptr, 16) for at most two characters: leading space and a sign are accepted, what
      follows the digits is ignored, and no digit at all is an exception. */
  function StoiHex(s: string): Option<int>
    requires |s| <= 2
  {
    if |s| == 0 then None
    else
      match HexValue(s[0])
      case Some(high) =>
        if |s| == 1 || HexValue(s[1]).None? then Some(high) else Some(16 * high + HexValue(s[1]).value)
      case None =>
        if |s| == 1 || HexValue(s[1]).None? then None
        else if s[0] == '-' then Some(-(HexValue(s[1]).value))
        else if s[0] == '+' || 9 <= s[0] as int <= 13 || s[0] == ' ' then Some(HexValue(s[1]).value)
        else None
  }

  /** The first n bytes of an id written in hexadecimal, or None when substr or stoi throws. */
  function FromHex(uuid: string, n: nat): (id: Option<seq<Byte>>)
    ensures id.Some? ==> |id.value| == n
  {
    if n == 0 then Some([])
    else
      var init := FromHex(uuid, n - 1);
      if init.None? || 2 * (n - 1) > |uuid| then None
      else
        var pair := StoiHex(Substr2(uuid, 2 * (n - 1)));
        if pair.None? then None else Some(init.value + [pair.value % 0x100])
  }

  /** uuid.substr(i, 2). */
  function Substr2(uuid: string, i: nat): (s: string)
    requires i <= |uuid|
    ensures |s| <= 2
  {
    if i + 2 <= |uuid| then uuid[i..i + 2] else uuid[i..]
  }

  /** getId and createKey: append two digits for every byte of the array. */
  method PrintId(idArray: array<Byte>) returns (s: string)
    ensures s == Hex(idArray[..])
  {
    s := "";
    for i := 0 to idArray.Length
      invariant s == Hex(idArray[..i])
    {
      assert idArray[..i + 1][..i] == idArray[..i];
      s := s + HexPair(idArray[i]);
    }
    assert idArray[..idArray.Length] == idArray[..];
  }

  /** The loop that fills an id array from a uuid string, in createKey, reconnect and startClient. */
  method FillId(uuid: string, idArray: array<Byte>) returns (ok: bool)
    modifies idArray
    ensures ok <==> FromHex(uuid, idArray.Length).Some?
    ensures ok ==> idArray[..] == FromHex(uuid, idArray.Length).value
  {
    for i := 0 to idArray.Length
      invariant FromHex(uuid, i) == Some(idArray[..i])
    {
      if 2 * i > |uuid| {
        FromHexFails(uuid, i + 1, idArray.Length);
        return false;
      }
      var value := StoiHex(Substr2(uuid, 2 * i));
      if value.None? {
        FromHexFails(uuid, i + 1, idArray.Length);
        return false;
      }
      idArray[i] := value.value % 0x100;
      assert idArray[..i + 1] == idArray[..i] + [value.value % 0x100];
    }
    assert idArray[..idArray.Length] == idArray[..];
    ok := true;
  }

  lemma {:induction false} FromHexFails(uuid: string, i: nat, n: nat)
    requires i <= n && FromHex(uuid, i).None?
    ensures FromHex(uuid, n).None?
  {
    if i == n {
    } else {
      FromHexFails(uuid, i, n - 1);
    }
  }

  /** Printing an id and reading it back is the identity. */
  lemma {:induction false} HexRoundTrip(id: seq<Byte>, uuid: string)
    requires Hex(id) <= uuid
    ensures FromHex(uuid, |id|) == Some(id)
  {
    hide StoiHex, HexPair, Substr2;
    if |id| == 0 {
    } else {
      var m := |id| - 1;
      HexRoundTrip(id[..m], uuid);
      PairRoundTrip(id[m]);
      LastPair(id, uuid);
      assert id == id[..m] + [id[m]];
    }
  }

  lemma LastPair(id: seq<Byte>, uuid: string)
    requires |id| > 0 && Hex(id) <= uuid
    ensures Hex(id[..|id| - 1]) <= uuid && Substr2(uuid, 2 * (|id| - 1)) == HexPair(id[|id| - 1])
  {
    var front, pair := Hex(id[..|id| - 1]), HexPair(id[|id| - 1]);
    LastTwo(front, pair, uuid);
  }

  lemma LastTwo(front: string, pair: string, uuid: string)
    requires |pair| == 2 && front + pair <= uuid
    ensures front <= uuid && Substr2(uuid, |front|) == pair
  {
    assert uuid[..|front| + 2] == front + pair;
    assert uuid[|front|..|front| + 2] == (front + pair)[|front|..];
  }

  lemma PairRoundTrip(b: Byte)
    ensures StoiHex(HexPair(b)) == Some(b)
  {
    DigitRoundTrip(b / 16);
    DigitRoundTrip(b % 16);
  }

  /** The code of a digit as std::hex prints it: counted from '0', and from 'a' for ten and more. */
  function LowerCaseCode(v: int): int {
    if v < 10 then 0x30 + v else 0x61 + (v - 10)
  }

  /** The digits printed are lower-case, the upper half of a byte first. */
  lemma {:induction false} HexIsLowerCase(id: seq<Byte>, i: nat)
    requires i < |id|
    ensures Hex(id)[2 * i] as int == LowerCaseCode(id[i] / 16) && Hex(id)[2 * i + 1] as int == LowerCaseCode(id[i] % 16)
  {
    hide HexPair, LowerCaseCode;
    var m := |id| - 1;
    if i == m {
      LowerCasePair(id[m]);
    } else {
      HexIsLowerCase(id[..m], i);
    }
  }

  lemma LowerCasePair(b: Byte)
    ensures HexPair(b)[0] as int == LowerCaseCode(b / 16) && HexPair(b)[1] as int == LowerCaseCode(b % 16)
  {
  }

  lemma DigitRoundTrip(n: nat)
    requires n < 16
    ensures HexValue(HexDigit(n)) == Some(n)
  {
  }

  /** The server compares ids by their printed forms; that is comparing the ids. */
  lemma HexInjective(a: seq<Byte>, b: seq<Byte>)
    requires |a| == |b|
    ensures Hex(a) == Hex(b) <==> a == b
  {
    if Hex(a) == Hex(b) {
      HexRoundTrip(a, Hex(a));
      HexRoundTrip(b, Hex(a));
    }
  }
}
