/** Base64 with padding, as it carries binary state inside JSON messages. */
module Base64 {
  import opened Arithmetic
  import opened Common

  type Text = string

  function Symbol(v: nat): char
    requires v < 64
  {
    if v < 26 then 'A' + v as char
    else if v < 52 then 'a' + (v - 26) as char
    else if v < 62 then '0' + (v - 52) as char
    else if v == 62 then '+' else '/'
  }

  /** The value of a symbol; -1 for anything else, the pad included. */
  function Lookup(c: char): (v: int)
    ensures -1 <= v < 64
    ensures v >= 0 ==> Symbol(v) == c
  {
    if 'A' <= c <= 'Z' then (c - 'A') as int
    else if 'a' <= c <= 'z' then (c - 'a') as int + 26
    else if '0' <= c <= '9' then (c - '0') as int + 52
    else if c == '+' then 62
    else if c == '/' then 63
    else -1
  }

  lemma LookupSymbol(v: nat)
    requires v < 64
    ensures Lookup(Symbol(v)) == v && Symbol(v) != '='
  {}

  const UPPER := "ABCDEFGHIJKLMNOPQRSTUVWXYZ"
  const LOWER := "abcdefghijklmnopqrstuvwxyz"

  /** The alphabet of RFC 4648, section 4. */
  lemma Alphabet(v: nat)
    requires v < 64
    ensures |UPPER| == |LOWER| == 26 && Symbol(v) == (UPPER + LOWER + "0123456789" + "+/")[v]
  {
    if v < 26 {
      assert Symbol(v) == UPPER[v];
    } else if v < 52 {
      assert Symbol(v) == LOWER[v - 26];
    } else if v < 62 {
      assert Symbol(v) == "0123456789"[v - 52];
    } else {
      assert Symbol(v) == "+/"[v - 62];
    }
  }

  // ---- the meaning of one group: bytes cut into six-bit values, and back ----

  function Quad(x: seq<Byte>): (q: Text)
    requires 1 <= |x| <= 3
    ensures |q| == 4
  {
    var a: int := x[0];
    var b: int := if |x| > 1 then x[1] else 0;
    var c: int := if |x| > 2 then x[2] else 0;
    [Symbol(a / 4), Symbol(a % 4 * 16 + b / 16),
     if |x| > 1 then Symbol(b % 16 * 4 + c / 64) else '=',
     if |x| > 2 then Symbol(c % 64) else '=']
  }

  /** Only the last group may have pads, and only in its last two places. */
  function Unquad(q: Text, last: bool): (x: Option<seq<Byte>>)
    requires |q| == 4
    ensures x.Some? ==> 1 <= |x.value| <= 3
  {
    var a, b, c, d := Lookup(q[0]), Lookup(q[1]), Lookup(q[2]), Lookup(q[3]);
    if a < 0 || b < 0 then None
    else if last && q[2] == '=' then (if q[3] == '=' then Some([a * 4 + b / 16]) else None)
    else if c < 0 then None
    else if last && q[3] == '=' then Some([a * 4 + b / 16, b % 16 * 16 + c / 4])
    else if d < 0 then None
    else Some([a * 4 + b / 16, b % 16 * 16 + c / 4, c % 4 * 64 + d])
  }

  function Value(c: char): int { if c == '=' then 0 else Lookup(c) }

  function ByteAt(x: seq<Byte>, i: nat): int { if i < |x| then x[i] else 0 }

  /** A group of four is the number in base 64 that its bytes are in base 256, with zeros for the bytes it lacks; pads
      stand only for those. */
  lemma QuadIsNumber(x: seq<Byte>)
    requires 1 <= |x| <= 3
    ensures var q := Quad(x);
            && Value(q[0]) * 262144 + Value(q[1]) * 4096 + Value(q[2]) * 64 + Value(q[3]) ==
               ByteAt(x, 0) * 65536 + ByteAt(x, 1) * 256 + ByteAt(x, 2)
            && q[0] != '=' && q[1] != '=' && (q[2] == '=' <==> |x| == 1) && (q[3] == '=' <==> |x| < 3)
  {
    hide Symbol, Lookup;
    forall v: nat | v < 64 ensures Lookup(Symbol(v)) == v && Symbol(v) != '=' { LookupSymbol(v); }
  }

  function Encoded(x: seq<Byte>): Text {
    if x == [] then "" else if |x| <= 3 then Quad(x) else Quad(x[..3]) + Encoded(x[3..])
  }

  function Joined(a: Option<seq<Byte>>, b: Option<seq<Byte>>): Option<seq<Byte>> {
    if a.Some? && b.Some? then Some(a.value + b.value) else None
  }

  function Groups(text: Text): Option<seq<Byte>>
    decreases |text|
  {
    if text == "" then Some([])
    else if |text| < 4 then None
    else Joined(Unquad(text[..4], |text| == 4), Groups(text[4..]))
  }

  function Decoded(text: Text): Option<seq<Byte>> {
    if text == "" || |text| % 4 != 0 then None else Groups(text)
  }

  // ---- the loops ----

  method Encode(data: seq<Byte>) returns (out: Text)
    ensures out == Encoded(data)
  {
    hide Symbol, Quad, Encoded;
    out := "";
    EncodedFrom(data, 0);
    assert data[0..] == data;
    var i: nat := 0;
    while i < |data|
      invariant i < |data| ==> Encoded(data) == out + Encoded(data[i..])
      invariant i >= |data| ==> out == Encoded(data)
      decreases |data| - i
    {
      var rest := |data| - i;
      var chunk := 65536 * (data[i] as int);
      if rest > 1 { chunk := chunk + 256 * (data[i + 1] as int); }
      if rest > 2 { chunk := chunk + data[i + 2] as int; }
      ghost var group := data[i..if rest > 3 then i + 3 else |data|];
      QuadOfChunk(group, chunk);
      var s0 := Symbol(chunk / 262144 % 64);
      var s1 := Symbol(chunk / 4096 % 64);
      var s2 := if rest > 1 then Symbol(chunk / 64 % 64) else '=';
      var s3 := if rest > 2 then Symbol(chunk % 64) else '=';
      out := out + [s0];
      out := out + [s1];
      out := out + [s2];
      out := out + [s3];
      EncodedFrom(data, i);
      i := i + 3;
    }
  }

  lemma EncodedFrom(data: seq<Byte>, i: nat)
    ensures data == [] ==> Encoded(data) == ""
    ensures i < |data| <= i + 3 ==> Encoded(data[i..]) == Quad(data[i..|data|])
    ensures i + 3 < |data| ==> Encoded(data[i..]) == Quad(data[i..i + 3]) + Encoded(data[i + 3..])
  {
    hide Quad;
    if i + 3 < |data| { assert data[i..][..3] == data[i..i + 3] && data[i..][3..] == data[i + 3..]; }
    else if i < |data| { assert data[i..] == data[i..|data|]; }
  }

  /** The six-bit values of the 24-bit chunk. */
  lemma SixBits(a: Byte, b: Byte, c: Byte)
    ensures var chunk: int := 65536 * (a as int) + 256 * (b as int) + c as int;
            && chunk / 262144 % 64 == a as int / 4
            && chunk / 4096 % 64 == a as int % 4 * 16 + b as int / 16
            && chunk / 64 % 64 == b as int % 16 * 4 + c as int / 64
            && chunk % 64 == c as int % 64
  {
    var x: int, y: int, z: int := a, b, c;
    DivModOf(x / 4, 65536 * (x % 4) + 256 * y + z, 262144);
    DivModOf(16 * x + y / 16, 256 * (y % 16) + z, 4096);
    DivModOf(x / 4, 16 * (x % 4) + y / 16, 64);
    DivModOf(1024 * x + 4 * y + z / 64, z % 64, 64);
    DivModOf(16 * x + y / 16, 4 * (y % 16) + z / 64, 64);
  }

  lemma QuadOfChunk(x: seq<Byte>, chunk: int)
    requires 1 <= |x| <= 3
    requires chunk == 65536 * (x[0] as int) + (if |x| > 1 then 256 * (x[1] as int) else 0) +
                      (if |x| > 2 then x[2] as int else 0)
    ensures Quad(x) == [Symbol(chunk / 262144 % 64), Symbol(chunk / 4096 % 64),
                        if |x| > 1 then Symbol(chunk / 64 % 64) else '=', if |x| > 2 then Symbol(chunk % 64) else '=']
  {
    hide Symbol;
    SixBits(x[0], if |x| > 1 then x[1] else 0, if |x| > 2 then x[2] else 0);
  }

  method Decode(text: Text) returns (out: Option<seq<Byte>>)
    ensures out == Decoded(text)
  {
    hide Lookup, Symbol, Groups, Unquad;
    if text == "" || |text| % 4 != 0 { return None; }
    ghost var groups: nat := |text| / 4;
    ghost var done: nat := 0;
    var bytes: seq<Byte> := [];
    var i: nat := 0;
    assert text[0..] == text;
    JoinNothing(Groups(text));
    while i < |text|
      invariant i == 4 * done && done <= groups
      invariant Groups(text) == Joined(Some(bytes), Groups(text[i..]))
    {
      FirstGroup(text[i..]);
      ghost var group := text[i..][..4];
      assert text[i..][4..] == text[i + 4..];
      var one := DecodeGroup(text[i], text[i + 1], text[i + 2], text[i + 3], i + 4 == |text|);
      assert group == [text[i], text[i + 1], text[i + 2], text[i + 3]];
      JoinIsAssociative(Some(bytes), one, Groups(text[i + 4..]));
      if one.None? { return None; }
      bytes := bytes + one.value;
      i := i + 4;
      done := done + 1;
    }
    assert text[i..] == "";
    NoGroups();
    JoinNothing(Some(bytes));
    out := Some(bytes);
  }

  lemma FirstGroup(text: Text)
    requires |text| >= 4
    ensures Groups(text) == Joined(Unquad(text[..4], |text| == 4), Groups(text[4..]))
  {
    hide Unquad;
  }

  lemma NoGroups()
    ensures Groups("") == Some([])
  {}

  lemma JoinNothing(a: Option<seq<Byte>>)
    ensures Joined(Some([]), a) == a == Joined(a, Some([]))
  {
    assert a.Some? ==> [] + a.value == a.value == a.value + [];
  }

  lemma JoinIsAssociative(a: Option<seq<Byte>>, b: Option<seq<Byte>>, c: Option<seq<Byte>>)
    ensures Joined(Joined(a, b), c) == Joined(a, Joined(b, c))
  {
    assert a.Some? && b.Some? && c.Some? ==> (a.value + b.value) + c.value == a.value + (b.value + c.value);
  }

  method DecodeGroup(c0: char, c1: char, c2: char, c3: char, last: bool) returns (out: Option<seq<Byte>>)
    ensures out == Unquad([c0, c1, c2, c3], last)
  {
    hide Lookup, Symbol, Unquad, Chunk;
    var group := [c0, c1, c2, c3];
    var chunk := 0;
    ChunkStep(group, 0, 0);
    var pads := 0;
    var j := 0;
    while j < 4
      invariant j <= 4
      invariant 0 <= pads <= 2 && (pads > 0 ==> last && j - pads >= 2)
      invariant forall k :: 0 <= k < j - pads ==> Lookup(group[k]) >= 0
      invariant forall k :: j - pads <= k < j ==> group[k] == '='
      invariant chunk == Chunk(group, j, j - pads)
    {
      var c := group[j];
      ChunkStep(group, j, j - pads);
      if c == '=' && last && j >= 2 {
        pads := pads + 1;
        chunk := chunk * 64;
      } else {
        var value := Lookup(c);
        if value < 0 || pads != 0 {
          GroupRefused(group, last, j, pads);
          return None;
        }
        chunk := chunk * 64 + value;
      }
      j := j + 1;
    }
    GroupRead(group, last, pads);
    ChunkBytes(group, pads, chunk);
    var bytes: seq<Byte> := [chunk / 65536 % 256];
    if pads < 2 { bytes := bytes + [chunk / 256 % 256]; }
    if pads < 1 { bytes := bytes + [chunk % 256]; }
    assert bytes == if pads == 2 then [chunk / 65536 % 256]
                    else if pads == 1 then [chunk / 65536 % 256, chunk / 256 % 256]
                    else [chunk / 65536 % 256, chunk / 256 % 256, chunk % 256];
    out := Some(bytes);
  }

  /** A group is refused for a character that is no symbol, or a symbol after a pad. */
  lemma GroupRefused(q: Text, last: bool, j: nat, pads: nat)
    requires |q| == 4 && j < 4 && pads <= 2 && (pads > 0 ==> last && j - pads >= 2)
    requires forall k :: j - pads <= k < j ==> q[k] == '='
    requires !(q[j] == '=' && last && j >= 2) && (Lookup(q[j]) < 0 || pads != 0)
    ensures Unquad(q, last) == None
  {
    hide Lookup, Symbol;
    PadIsNoSymbol();
    if pads > 0 { assert q[2] == '='; }
  }

  lemma GroupRead(q: Text, last: bool, pads: nat)
    requires |q| == 4 && pads <= 2 && (pads > 0 ==> last)
    requires forall k :: 0 <= k < 4 - pads ==> Lookup(q[k]) >= 0
    requires forall k :: 4 - pads <= k < 4 ==> q[k] == '='
    ensures var a, b, c, d := Lookup(q[0]), Lookup(q[1]), Lookup(q[2]), Lookup(q[3]);
            Unquad(q, last) == Some(if pads == 2 then [a * 4 + b / 16]
                                    else if pads == 1 then [a * 4 + b / 16, b % 16 * 16 + c / 4]
                                    else [a * 4 + b / 16, b % 16 * 16 + c / 4, c % 4 * 64 + d])
  {
    hide Lookup, Symbol;
    PadIsNoSymbol();
  }

  /** The values of the first `n` characters, padded out to `j` places with zeros. */
  function Chunk(group: Text, j: int, n: int): (chunk: nat)
    requires 0 <= n <= j <= |group|
    requires forall k :: 0 <= k < n ==> Lookup(group[k]) >= 0
    decreases j
  {
    if j == 0 then 0
    else if j == n then Chunk(group, j - 1, n - 1) * 64 + Lookup(group[j - 1])
    else Chunk(group, j - 1, n) * 64
  }

  lemma ChunkStep(group: Text, j: nat, n: nat)
    requires n <= j <= |group|
    requires forall k :: 0 <= k < n ==> Lookup(group[k]) >= 0
    ensures j == 0 ==> Chunk(group, j, n) == 0
    ensures j < |group| ==> Chunk(group, j + 1, n) == Chunk(group, j, n) * 64
    ensures j < |group| && j == n && Lookup(group[j]) >= 0 ==>
              Chunk(group, j + 1, n + 1) == Chunk(group, j, n) * 64 + Lookup(group[j])
  {}

  lemma ChunkBytes(q: Text, pads: nat, chunk: int)
    requires |q| == 4 && pads <= 2 && forall k :: 0 <= k < 4 - pads ==> Lookup(q[k]) >= 0
    requires chunk == Chunk(q, 4, 4 - pads)
    ensures var a, b := Lookup(q[0]), Lookup(q[1]);
            var c := if pads < 2 then Lookup(q[2]) else 0;
            var d := if pads < 1 then Lookup(q[3]) else 0;
            && chunk / 65536 % 256 == a * 4 + b / 16
            && chunk / 256 % 256 == b % 16 * 16 + c / 4
            && chunk % 256 == c % 4 * 64 + d
  {
    hide Lookup, Symbol, Chunk;
    var a, b := Lookup(q[0]), Lookup(q[1]);
    var c := if pads < 2 then Lookup(q[2]) else 0;
    var d := if pads < 1 then Lookup(q[3]) else 0;
    ChunkStep(q, 0, 0);
    ChunkStep(q, 1, 1);
    ChunkStep(q, 2, 2);
    ChunkStep(q, 3, if pads < 2 then 3 else 2);
    assert chunk == ((a * 64 + b) * 64 + c) * 64 + d;
    EightBits(a, b, c, d);
  }

  /** The bytes of four six-bit values. */
  lemma EightBits(a: nat, b: nat, c: nat, d: nat)
    requires a < 64 && b < 64 && c < 64 && d < 64
    ensures var chunk := ((a * 64 + b) * 64 + c) * 64 + d;
            && chunk / 65536 % 256 == a * 4 + b / 16
            && chunk / 256 % 256 == b % 16 * 16 + c / 4
            && chunk % 256 == c % 4 * 64 + d
  {
    DivModOf(a * 4 + b / 16, 4096 * (b % 16) + 64 * c + d, 65536);
    DivModOf(a * 1024 + b * 16 + c / 4, 64 * (c % 4) + d, 256);
    DivModOf(a * 4 + b / 16, 16 * (b % 16) + c / 4, 256);
  }

  // ---- what decoding promises ----

  lemma QuadBack(x: seq<Byte>, last: bool)
    requires 1 <= |x| <= 3 && (last || |x| == 3)
    ensures Unquad(Quad(x), last) == Some(x)
  {
    hide Lookup, Symbol;
    var a: int := x[0];
    var b: int := if |x| > 1 then x[1] else 0;
    var c: int := if |x| > 2 then x[2] else 0;
    LookupSymbol(a / 4);
    LookupSymbol(a % 4 * 16 + b / 16);
    LookupSymbol(b % 16 * 4 + c / 64);
    LookupSymbol(c % 64);
    SixesOfBytes(a, b, c);
    assert x == (if |x| == 1 then [x[0]] else if |x| == 2 then [x[0], x[1]] else [x[0], x[1], x[2]]);
  }

  lemma SixesOfBytes(a: int, b: int, c: int)
    requires 0 <= a < 256 && 0 <= b < 256 && 0 <= c < 256
    ensures a / 4 * 4 + (a % 4 * 16 + b / 16) / 16 == a
    ensures (a % 4 * 16 + b / 16) % 16 * 16 + (b % 16 * 4 + c / 64) / 4 == b
    ensures (b % 16 * 4 + c / 64) % 4 * 64 + c % 64 == c
  {
    assert (a % 4 * 16 + b / 16) / 16 == a % 4;
    assert (b % 16 * 4 + c / 64) / 4 == b % 16;
  }

  lemma BytesOfSixes(a: int, b: int, c: int, d: int)
    requires 0 <= a < 64 && 0 <= b < 64 && 0 <= c < 64 && 0 <= d < 64
    ensures (a * 4 + b / 16) / 4 == a
    ensures (a * 4 + b / 16) % 4 * 16 + (b % 16 * 16 + c / 4) / 16 == b
    ensures (b % 16 * 16 + c / 4) % 16 * 4 + (c % 4 * 64 + d) / 64 == c
    ensures (c % 4 * 64 + d) % 64 == d
  {
    assert (a * 4 + b / 16) % 4 == b / 16;
    assert (b % 16 * 16 + c / 4) / 16 == b % 16;
    assert (b % 16 * 16 + c / 4) % 16 == c / 4;
    assert (c % 4 * 64 + d) / 64 == c % 4;
  }

  /** How many groups the bytes make. */
  function GroupCount(bytes: nat): nat { if bytes == 0 then 0 else if bytes <= 3 then 1 else 1 + GroupCount(bytes - 3) }

  lemma {:induction false} GroupCountIs(bytes: nat)
    ensures GroupCount(bytes) == (bytes + 2) / 3
  {
    if bytes > 3 { GroupCountIs(bytes - 3); }
  }

  lemma {:induction false} EncodedGroups(x: seq<Byte>)
    ensures |Encoded(x)| == 4 * GroupCount(|x|)
  {
    hide Quad;
    if |x| > 3 { EncodedGroups(x[3..]); }
  }

  /** Encoding takes four characters for every three bytes or part of them. */
  lemma EncodedLength(x: seq<Byte>)
    ensures |Encoded(x)| == (|x| + 2) / 3 * 4
  {
    hide Encoded, GroupCount;
    EncodedGroups(x);
    GroupCountIs(|x|);
  }

  lemma {:induction false} GroupsBack(x: seq<Byte>)
    ensures Groups(Encoded(x)) == Some(x)
  {
    hide Quad, Unquad, Groups;
    if x == [] {
      NoGroups();
    } else {
      FirstGroup(Encoded(x));
      if |x| <= 3 {
        QuadBack(x, true);
        assert Quad(x)[..4] == Quad(x) && Quad(x)[4..] == "";
        NoGroups();
        JoinNothing(Some(x));
      } else {
        QuadBack(x[..3], false);
        GroupsBack(x[3..]);
        EncodedNonempty(x[3..]);
        assert Encoded(x)[..4] == Quad(x[..3]) && Encoded(x)[4..] == Encoded(x[3..]);
        assert x[..3] + x[3..] == x;
      }
    }
  }

  /** Decoding undoes encoding, except for no bytes at all: their text is empty, which is refused. */
  lemma RoundTrip(x: seq<Byte>)
    ensures Decoded(Encoded(x)) == Some(x) <==> x != []
  {
    hide Encoded, Groups;
    GroupsBack(x);
    EncodedGroups(x);
    if x == [] { EncodedLength(x); } else { EncodedNonempty(x); }
  }

  lemma EncodedNonempty(x: seq<Byte>)
    requires x != []
    ensures |Encoded(x)| >= 4
  {
    hide Quad;
  }

  function Pads(text: Text): nat {
    if |text| < 2 || text[|text| - 1] != '=' then 0 else if text[|text| - 2] != '=' then 1 else 2
  }

  lemma PadsOfRest(text: Text)
    requires |text| >= 6
    ensures Pads(text[4..]) == Pads(text)
  {}

  lemma {:induction false} GroupsAccept(text: Text, groups: nat)
    requires |text| == 4 * groups
    ensures Groups(text).Some? <==> forall i :: 0 <= i < |text| - Pads(text) ==> Lookup(text[i]) >= 0
    ensures Groups(text).Some? ==> |Groups(text).value| == 3 * groups - Pads(text)
  {
    hide Lookup, Symbol, Groups;
    PadIsNoSymbol();
    if groups == 0 {
      NoGroups();
    } else {
      FirstGroup(text);
      var rest := text[4..];
      if groups == 1 {
        NoGroups();
        assert text[..4] == text && rest == "";
      } else {
        PadsOfRest(text);
        GroupsAccept(rest, groups - 1);
        assert forall i :: 0 <= i < |rest| ==> rest[i] == text[i + 4];
        assert forall i :: 4 <= i < |text| ==> text[i] == rest[i - 4];
      }
    }
  }

  lemma PadIsNoSymbol()
    ensures Lookup('=') == -1
  {}

  /** Exactly the texts of whole groups are accepted whose characters are all symbols but for the final pads; they
      stand for three bytes a group, less one for each pad. */
  lemma AcceptedExactly(text: Text)
    ensures Decoded(text).Some? <==>
            text != "" && |text| % 4 == 0 && forall i :: 0 <= i < |text| - Pads(text) ==> Lookup(text[i]) >= 0
    ensures Decoded(text).Some? ==> |Decoded(text).value| == 3 * |text| / 4 - Pads(text)
  {
    hide Groups, Pads, Lookup;
    if |text| % 4 == 0 { GroupsAccept(text, |text| / 4); }
  }

  /** Whether the bits of the last symbol that belong to no byte are zero. */
  predicate UnusedBitsZero(text: Text) {
    && (Pads(text) == 1 && |text| >= 3 ==> Lookup(text[|text| - 2]) % 4 == 0)
    && (Pads(text) == 2 && |text| >= 3 ==> Lookup(text[|text| - 3]) % 16 == 0)
  }

  lemma OnePadBack(q: Text)
    requires |q| == 4 && Unquad(q, true).Some? && q[2] != '=' && q[3] == '='
    ensures Quad(Unquad(q, true).value) == q <==> Lookup(q[2]) % 4 == 0
  {
    hide Lookup, Symbol;
    PadIsNoSymbol();
    var a, b, c := Lookup(q[0]), Lookup(q[1]), Lookup(q[2]);
    LookupSymbol(c / 4 * 4);
    BytesOfSixes(a, b, c, 0);
  }

  lemma TwoPadsBack(q: Text)
    requires |q| == 4 && Unquad(q, true).Some? && q[2] == '='
    ensures q[3] == '=' && (Quad(Unquad(q, true).value) == q <==> Lookup(q[1]) % 16 == 0)
  {
    hide Lookup, Symbol;
    PadIsNoSymbol();
    var a, b := Lookup(q[0]), Lookup(q[1]);
    LookupSymbol(b / 16 * 16);
    BytesOfSixes(a, b, 0, 0);
  }

  lemma NoPadBack(q: Text, last: bool)
    requires |q| == 4 && Unquad(q, last).Some? && (last ==> q[2] != '=' && q[3] != '=')
    ensures Quad(Unquad(q, last).value) == q && |Unquad(q, last).value| == 3 && q[3] != '='
  {
    hide Lookup, Symbol;
    PadIsNoSymbol();
    BytesOfSixes(Lookup(q[0]), Lookup(q[1]), Lookup(q[2]), Lookup(q[3]));
  }

  lemma UnquadBack(q: Text, last: bool)
    requires |q| == 4 && Unquad(q, last).Some?
    ensures last ==> (Quad(Unquad(q, last).value) == q <==> UnusedBitsZero(q))
    ensures !last ==> Quad(Unquad(q, last).value) == q && |Unquad(q, last).value| == 3
  {
    hide Lookup, Unquad, Quad;
    if last && q[2] == '=' {
      TwoPadsBack(q);
    } else if last && q[3] == '=' {
      OnePadBack(q);
    } else {
      NoPadBack(q, last);
    }
  }

  lemma {:induction false} GroupsForth(text: Text)
    requires text != "" && Groups(text).Some?
    ensures Encoded(Groups(text).value) == text <==> UnusedBitsZero(text)
    decreases |text|
  {
    hide Quad, Unquad, Lookup, Symbol, UnusedBitsZero, Groups;
    GroupsWhole(text);
    FirstGroup(text);
    NoGroups();
    var q, rest := text[..4], text[4..];
    var x := Unquad(q, |text| == 4).value;
    UnquadBack(q, |text| == 4);
    if |text| == 4 {
      assert q == text && rest == "" && x + [] == x;
    } else {
      GroupsForth(rest);
      UnusedBitsOfRest(text);
      GroupsNonempty(rest);
      var y := Groups(rest).value;
      assert (x + y)[..3] == x && (x + y)[3..] == y;
      assert Encoded(x + y) == q + Encoded(y);
      assert text == q + rest;
      assert (q + Encoded(y))[4..] == Encoded(y);
    }
  }

  lemma GroupsWhole(text: Text)
    requires text != "" && Groups(text).Some?
    ensures |text| >= 4 && (|text| > 4 ==> |text| >= 8)
  {
    hide Unquad;
  }

  lemma UnusedBitsOfRest(text: Text)
    requires |text| >= 8
    ensures UnusedBitsZero(text[4..]) <==> UnusedBitsZero(text)
  {
    hide Lookup;
    PadsOfRest(text);
  }

  lemma GroupsNonempty(text: Text)
    requires text != "" && Groups(text).Some?
    ensures Groups(text).value != []
  {}

  /** An accepted text is the encoding of what it decodes to exactly when its unused bits are zero. */
  lemma ReencodesExactly(text: Text)
    requires Decoded(text).Some?
    ensures Encoded(Decoded(text).value) == text <==> UnusedBitsZero(text)
  {
    GroupsForth(text);
  }
}
