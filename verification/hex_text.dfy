/** Lower-case hexadecimal text and big-endian numbers. */
module HexText {
  import opened Common

  function Digit(n: nat): (c: char)
    requires n < 16
  {
    if n < 10 then '0' + n as char else 'a' + (n - 10) as char
  }

  /** The value of a digit; -1 for any other character, upper-case letters included. */
  function Nibble(c: char): (n: int)
    ensures -1 <= n < 16
    ensures n >= 0 ==> Digit(n) == c
  {
    if '0' <= c <= '9' then (c - '0') as int
    else if 'a' <= c <= 'f' then (c - 'a') as int + 10
    else -1
  }

  function Hex(bytes: seq<Byte>): (text: string)
    ensures |text| == 2 * |bytes|
  {
    if bytes == [] then ""
    else
      var b: int := bytes[|bytes| - 1];
      Hex(bytes[..|bytes| - 1]) + [Digit(b / 16), Digit(b % 16)]
  }

  /** The bytes a text stands for, if it consists of whole pairs of digits. */
  function Unhex(text: string): (bytes: Option<seq<Byte>>)
    ensures bytes.Some? ==> 2 * |bytes.value| == |text|
    decreases |text|
  {
    if |text| % 2 == 1 then None
    else if text == "" then Some([])
    else
      var n := |text| - 2;
      var high := Nibble(text[n]);
      var low := Nibble(text[n + 1]);
      var front := Unhex(text[..n]);
      if front.None? || high < 0 || low < 0 then None else Some(front.value + [high * 16 + low])
  }

  lemma DigitBack(n: nat)
    requires n < 16
    ensures Nibble(Digit(n)) == n
  {}

  lemma UnhexPush(text: string, bytes: seq<Byte>, b: Byte)
    requires Unhex(text) == Some(bytes)
    ensures Unhex(text + [Digit(b / 16), Digit(b % 16)]) == Some(bytes + [b])
  {
    DigitBack(b / 16);
    DigitBack(b % 16);
    assert (text + [Digit(b / 16), Digit(b % 16)])[..|text|] == text;
  }

  lemma {:induction false} UnhexHex(bytes: seq<Byte>)
    ensures Unhex(Hex(bytes)) == Some(bytes)
  {
    hide Unhex;
    if bytes == [] {
      UnhexOfNothing();
    } else {
      var n := |bytes| - 1;
      UnhexHex(bytes[..n]);
      UnhexPush(Hex(bytes[..n]), bytes[..n], bytes[n]);
      assert bytes[..n] + [bytes[n]] == bytes;
    }
  }

  lemma UnhexOfNothing()
    ensures Unhex("") == Some([])
  {}

  /** Each byte string has only one accepted text. */
  lemma {:induction false} HexUnhex(text: string)
    ensures Unhex(text).Some? ==> Hex(Unhex(text).value) == text
    decreases |text|
  {
    hide Hex, Digit, Nibble;
    if Unhex(text).Some? {
      if text == "" {
        HexOfNothing();
      } else {
        var n := |text| - 2;
        HexUnhex(text[..n]);
        var high, low := Nibble(text[n]), Nibble(text[n + 1]);
        HexPush(Unhex(text[..n]).value, high * 16 + low);
        JoinNibbles(high, low);
        assert text == text[..n] + [text[n], text[n + 1]];
      }
    }
  }

  lemma JoinNibbles(high: nat, low: nat)
    requires high < 16 && low < 16
    ensures (high * 16 + low) / 16 == high && (high * 16 + low) % 16 == low
  {}

  lemma HexOfNothing()
    ensures Hex([]) == ""
  {}

  lemma HexPush(bytes: seq<Byte>, b: Byte)
    ensures Hex(bytes + [b]) == Hex(bytes) + [Digit(b / 16), Digit(b % 16)]
  {
    assert (bytes + [b])[..|bytes|] == bytes;
  }

  method HexOf(bytes: seq<Byte>) returns (text: string)
    ensures text == Hex(bytes)
  {
    text := "";
    var i := 0;
    while i < |bytes|
      invariant i <= |bytes| && text == Hex(bytes[..i])
    {
      var b: int := bytes[i];
      text := text + [Digit(b / 16)];
      text := text + [Digit(b % 16)];
      assert bytes[..i + 1][..i] == bytes[..i];
      i := i + 1;
    }
    assert bytes[..i] == bytes;
  }

  method UnhexOf(text: string) returns (bytes: Option<seq<Byte>>)
    ensures bytes == Unhex(text)
  {
    hide Digit, Nibble;
    if |text| % 2 == 1 { return None; }
    var n := |text| / 2;
    var result: seq<Byte> := [];
    var i := 0;
    while i < n
      invariant i <= n && |result| == i
      invariant Unhex(text[..2 * i]) == Some(result)
    {
      var high := Nibble(text[2 * i]);
      var low := Nibble(text[2 * i + 1]);
      assert text[..2 * i + 2][..2 * i] == text[..2 * i];
      if high < 0 || low < 0 {
        BadPrefix(text, 2 * i + 2);
        return None;
      }
      result := result + [high * 16 + low];
      i := i + 1;
    }
    assert text[..2 * i] == text;
    bytes := Some(result);
  }

  lemma {:induction false} BadPrefix(text: string, k: nat)
    requires k <= |text| && k % 2 == 0 && |text| % 2 == 0 && Unhex(text[..k]).None?
    ensures Unhex(text).None?
    decreases |text| - k
  {
    if k == |text| {
      assert text[..k] == text;
    } else {
      assert text[..k + 2][..k] == text[..k];
      BadPrefix(text, k + 2);
    }
  }

  // ---- big-endian numbers ----

  function Power256(k: nat): (p: nat)
    ensures p > 0
  {
    if k == 0 then 1 else 256 * Power256(k - 1)
  }

  function BigEndian(n: nat, k: nat): (bytes: seq<Byte>)
    ensures |bytes| == k
    decreases k
  {
    if k == 0 then [] else BigEndian(n / 256, k - 1) + [n % 256]
  }

  function FromBigEndian(bytes: seq<Byte>): nat {
    if bytes == [] then 0 else FromBigEndian(bytes[..|bytes| - 1]) * 256 + bytes[|bytes| - 1]
  }

  lemma {:induction false} BigEndianBack(n: nat, k: nat)
    requires n < Power256(k)
    ensures FromBigEndian(BigEndian(n, k)) == n
    decreases k
  {
    if k != 0 {
      BigEndianBack(n / 256, k - 1);
      assert BigEndian(n, k)[..k - 1] == BigEndian(n / 256, k - 1);
    }
  }

  function ShiftRight(n: nat, bytes: nat): nat
    decreases bytes
  {
    if bytes == 0 then n else ShiftRight(n, bytes - 1) / 256
  }

  lemma {:induction false} ShiftInside(n: nat, k: nat)
    ensures ShiftRight(n / 256, k) == ShiftRight(n, k + 1)
    decreases k
  {
    if k != 0 { ShiftInside(n, k - 1); }
  }

  lemma {:induction false} BigEndianAt(n: nat, k: nat, i: nat)
    requires i < k
    ensures BigEndian(n, k)[k - 1 - i] == ShiftRight(n, i) % 256
    decreases k
  {
    if i != 0 {
      BigEndianAt(n / 256, k - 1, i - 1);
      ShiftInside(n, i - 1);
    }
  }
}
