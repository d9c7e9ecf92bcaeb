/** The replacement of emoji and the structure of UTF-8 (RFC 3629), and what exactly is recognised at an offset. */
module ChatUtf8 {
  import opened Common
  import opened ChatEmoji

  // ---- characters ----

  /** Bytes of the character that a lead byte begins; 0 for a byte that begins none. */
  function Length(lead: Byte): nat {
    if lead < 0x80 then 1 else if lead < 0xC0 then 0 else if lead < 0xE0 then 2 else if lead < 0xF0 then 3
    else if lead < 0xF8 then 4 else 0
  }

  /** A lead byte and as many continuation bytes as it calls for. */
  predicate StartsCharacter(s: Text) {
    s != [] && 0 < Length(s[0]) <= |s| && forall i :: 1 <= i < Length(s[0]) ==> IsContinuation(s[i])
  }

  /** One character after the other. */
  predicate WellFormed(s: Text) { s == [] || (StartsCharacter(s) && WellFormed(s[Length(s[0])..])) }

  lemma FirstIsLead(s: Text)
    requires WellFormed(s) && s != []
    ensures !IsContinuation(s[0])
  {}

  lemma {:induction false} BothWellFormed(a: Text, b: Text)
    requires WellFormed(a) && WellFormed(b)
    ensures WellFormed(a + b)
    decreases |a|
  {
    hide Length, StartsCharacter;
    if a == [] {
      assert a + b == b;
    } else {
      StartsAlso(a, b);
      BothWellFormed(a[Length(a[0])..], b);
    }
  }

  lemma StartsAlso(a: Text, b: Text)
    requires StartsCharacter(a)
    ensures StartsCharacter(a + b) && (a + b)[0] == a[0] && 0 < Length(a[0]) <= |a|
    ensures (a + b)[Length(a[0])..] == a[Length(a[0])..] + b
  {
    hide Length;
  }

  /** What is left of a well-formed text behind a well-formed beginning is well-formed. */
  lemma {:induction false} RestWellFormed(a: Text, s: Text)
    requires WellFormed(a) && WellFormed(s) && a <= s
    ensures WellFormed(s[|a|..])
    decreases |a|
  {
    if a == [] {
      assert s[0..] == s;
    } else {
      var n := Length(a[0]);
      assert a[n..] <= s[n..];
      RestWellFormed(a[n..], s[n..]);
      assert s[n..][|a| - n..] == s[|a|..];
    }
  }

  lemma {:induction false} AsciiWellFormed(s: Text)
    requires forall i :: 0 <= i < |s| ==> s[i] < 0x80
    ensures WellFormed(s)
    decreases |s|
  {
    if s != [] { AsciiWellFormed(s[1..]); }
  }

  lemma {:induction false} RunOf(s: Text, n: nat)
    requires n <= |s| && (forall i :: 0 <= i < n ==> IsContinuation(s[i])) && (n < |s| ==> !IsContinuation(s[n]))
    ensures Continuations(s) == n
    decreases n
  {
    if n > 0 { RunOf(s[1..], n - 1); }
  }

  /** The next code point begins behind the character. */
  lemma StepsOverCharacter(s: Text)
    requires WellFormed(s) && s != []
    ensures NextCodepoint(s, 0) == Length(s[0])
  {
    var n := Length(s[0]);
    if n < |s| { FirstIsLead(s[n..]); }
    RunOf(s[1..], n - 1);
  }

  // ---- the replacement ----

  ghost predicate SpellingsWellFormed(table: Table) {
    forall i :: 0 <= i < |table.emojis| ==> WellFormed(table.emojis[i].unicode) && WellFormed(table.emojis[i].bare)
  }

  lemma PieceWellFormed(table: Table, s: Text)
    requires Valid(table) && SpellingsWellFormed(table) && WellFormed(s) && s != []
    ensures var p := FirstPiece(table, s);
            WellFormed(p.output) && WellFormed(s[..p.bytes]) && WellFormed(s[p.bytes..])
  {
    hide WellFormed, Continuations;
    var p := FirstPiece(table, s);
    assert s[0..] == s;
    if p.replaced {
      var found := Match(table, s, 0).value;
      assert p.output == Shortcode(table.emojis[found.index]);
      AsciiWellFormed(p.output);
      assert WellFormed(s[..p.bytes]);
      assert s[..p.bytes] <= s;
      RestWellFormed(s[..p.bytes], s);
    } else {
      StepsOverCharacter(s);
      FirstCharacter(s);
    }
  }

  lemma FirstCharacter(s: Text)
    requires WellFormed(s) && s != []
    ensures Length(s[0]) <= |s| && WellFormed(s[..Length(s[0])]) && WellFormed(s[Length(s[0])..])
  {
    var n := Length(s[0]);
    assert s[..n][n..] == [];
  }

  /** A well-formed text stays well-formed. */
  lemma {:induction false} StaysWellFormed(table: Table, s: Text)
    requires Valid(table) && SpellingsWellFormed(table) && WellFormed(s)
    ensures WellFormed(Replaced(table, s))
    decreases |s|
  {
    hide FirstPiece, WellFormed;
    if s == [] {
      AsciiWellFormed([]);
    } else {
      var p := FirstPiece(table, s);
      PieceWellFormed(table, s);
      StaysWellFormed(table, s[p.bytes..]);
      BothWellFormed(p.output, Replaced(table, s[p.bytes..]));
    }
  }

  /** In a well-formed text every visited offset is a character boundary: the text may be cut there, and the byte there
      is no continuation byte. */
  lemma {:induction false} VisitsCharacters(table: Table, s: Text, b: nat)
    requires Valid(table) && SpellingsWellFormed(table) && WellFormed(s) && Boundary(table, s, b)
    ensures b <= |s| && WellFormed(s[..b]) && WellFormed(s[b..]) && (b < |s| ==> !IsContinuation(s[b]))
    decreases |s|
  {
    hide FirstPiece, WellFormed;
    if b == 0 {
      assert s[..0] == [] && s[0..] == s;
      AsciiWellFormed([]);
      if s != [] { FirstIsLead(s); }
    } else {
      var p := FirstPiece(table, s);
      var rest := s[p.bytes..];
      PieceWellFormed(table, s);
      VisitsCharacters(table, rest, b - p.bytes);
      assert s[..b] == s[..p.bytes] + rest[..b - p.bytes] && s[b..] == rest[b - p.bytes..];
      BothWellFormed(s[..p.bytes], rest[..b - p.bytes]);
    }
  }

  /** The new cursor is a character boundary of the new text, wherever the old one was. */
  lemma CursorAtCharacter(table: Table, s: Text, c: nat)
    requires Valid(table) && SpellingsWellFormed(table) && WellFormed(s) && c <= |s|
    ensures var cursor := Cursor(table, s, c);
            var t := Replaced(table, s);
            cursor <= |t| && WellFormed(t[..cursor]) && WellFormed(t[cursor..])
  {
    hide FirstPiece, WellFormed, Cursor, Replaced;
    var b := RoundUp(table, s, c);
    CursorLands(table, s, c);
    RoundUpIsLeast(table, s, c);
    CursorAtBoundary(table, s, b);
    VisitsCharacters(table, s, b);
    StaysWellFormed(table, s[..b]);
    StaysWellFormed(table, s[b..]);
    var t := Replaced(table, s);
    assert t[..|Replaced(table, s[..b])|] == Replaced(table, s[..b]);
    assert t[|Replaced(table, s[..b])|..] == Replaced(table, s[b..]);
  }

  // ---- any bytes at all ----

  /** An emoji is replaced at a visited offset and a continuation byte follows it directly. */
  ghost predicate CutShort(table: Table, s: Text, b: nat)
    requires Valid(table)
  {
    b < |s| && IsContinuation(s[b]) &&
    exists a :: 0 <= a < b && Boundary(table, s, a) && FirstPiece(table, s[a..]).replaced &&
                a + FirstPiece(table, s[a..]).bytes == b
  }

  /** In a text that need not be well-formed, an offset behind the first is visited at a continuation byte exactly if it
      is directly behind an emoji: whatever else is copied takes its continuation bytes with it. */
  lemma {:induction false} VisitedInside(table: Table, s: Text, b: nat)
    requires Valid(table) && 0 < b < |s| && IsContinuation(s[b])
    ensures Boundary(table, s, b) <==> CutShort(table, s, b)
    decreases |s|
  {
    hide FirstPiece;
    var p := FirstPiece(table, s);
    var rest := s[p.bytes..];
    assert s[0..] == s;
    if b == p.bytes {
      assert Boundary(table, s, 0) && Boundary(table, s, b);
      if p.replaced { assert CutShort(table, s, b); } else { CopiesAll(table, s); }
    } else if b > p.bytes {
      VisitedInside(table, rest, b - p.bytes);
      if CutShort(table, rest, b - p.bytes) {
        var a :| 0 <= a < b - p.bytes && Boundary(table, rest, a) && FirstPiece(table, rest[a..]).replaced &&
          a + FirstPiece(table, rest[a..]).bytes == b - p.bytes;
        assert rest[a..] == s[a + p.bytes..];
        assert Boundary(table, s, a + p.bytes);
      }
      if CutShort(table, s, b) {
        var a :| 0 <= a < b && Boundary(table, s, a) && FirstPiece(table, s[a..]).replaced &&
          a + FirstPiece(table, s[a..]).bytes == b;
        assert a != 0 && a >= p.bytes by { NotBefore(table, s, a); }
        assert rest[a - p.bytes..] == s[a..];
        assert CutShort(table, rest, b - p.bytes);
      }
    } else {
      NotBefore(table, s, b);
      if CutShort(table, s, b) {
        var a :| 0 <= a < b && Boundary(table, s, a) && FirstPiece(table, s[a..]).replaced &&
          a + FirstPiece(table, s[a..]).bytes == b;
        NotBefore(table, s, a);
      }
    }
  }

  /** A text that does not end its characters properly can be visited inside one: an accented letter of the table, and
      a further continuation byte behind it. */
  lemma StrayByte() returns (table: Table, s: Text)
    ensures Valid(table) && SpellingsWellFormed(table)
    ensures !WellFormed(s) && |s| == 3 && IsContinuation(s[2]) && Boundary(table, s, 2)
  {
    var e: Text := [0xC3, 0xA9];
    table := Table([Emoji(e, e, [0x65])], []);
    s := [0xC3, 0xA9, 0x80];
    AccentWellFormed();
    assert s[2..][0] == 0x80;
    var found := FindEmoji(table.emojis, 0, s[0..]);
    assert e <= s[0..];
    assert found == Some(Found(0, 2));
    assert FirstPiece(table, s).bytes == 2;
    assert Boundary(table, s[2..], 0);
  }

  lemma AccentWellFormed()
    ensures WellFormed([0xC3, 0xA9])
  {
    assert [0xC3, 0xA9][2..] == [];
  }

  /** Between the start and the end of the first piece nothing is visited. */
  lemma NotBefore(table: Table, s: Text, a: nat)
    requires Valid(table) && s != []
    ensures 0 < a < FirstPiece(table, s).bytes ==> !Boundary(table, s, a)
  {
    hide FirstPiece;
    if 0 < a < FirstPiece(table, s).bytes {
      assert !Boundary(table, s[FirstPiece(table, s).bytes..], a - FirstPiece(table, s).bytes);
    }
  }

  lemma CopiesAll(table: Table, s: Text)
    requires Valid(table) && s != [] && !FirstPiece(table, s).replaced
    ensures var n := FirstPiece(table, s).bytes; n < |s| ==> !IsContinuation(s[n])
  {
    RunEnds(s[1..]);
  }

  lemma {:induction false} RunEnds(s: Text)
    ensures Continuations(s) < |s| ==> !IsContinuation(s[Continuations(s)])
    decreases |s|
  {
    if s != [] && IsContinuation(s[0]) { RunEnds(s[1..]); }
  }

  // ---- what is recognised ----

  /** Entry `a` is the first with that name. */
  predicate FirstAt(aliases: seq<Alias>, name: Text, emoji: nat, a: nat) {
    a < |aliases| && aliases[a] == Alias(name, emoji) && forall b :: 0 <= b < a ==> aliases[b].name != name
  }

  ghost predicate FirstAlias(aliases: seq<Alias>, name: Text, emoji: nat) {
    exists a :: 0 <= a < |aliases| && FirstAt(aliases, name, emoji, a)
  }

  lemma {:induction false} FindsFirstAlias(aliases: seq<Alias>, name: Text, emoji: nat)
    ensures FindAlias(aliases, name) == Some(emoji) <==> FirstAlias(aliases, name, emoji)
    decreases |aliases|
  {
    hide FirstAt;
    if aliases != [] {
      var rest := aliases[1..];
      FindsFirstAlias(rest, name, emoji);
      FirstIsFirst(aliases, name, emoji);
      if aliases[0].name != name {
        if a :| 0 <= a < |rest| && FirstAt(rest, name, emoji, a) { NextIsFirst(aliases, name, emoji, a); }
        if a :| 0 < a < |aliases| && FirstAt(aliases, name, emoji, a) { NextIsFirst(aliases, name, emoji, a - 1); }
      }
    }
  }

  lemma FirstIsFirst(aliases: seq<Alias>, name: Text, emoji: nat)
    requires aliases != []
    ensures FirstAt(aliases, name, emoji, 0) <==> aliases[0] == Alias(name, emoji)
    ensures forall a :: 0 < a < |aliases| && FirstAt(aliases, name, emoji, a) ==> aliases[0].name != name
  {}

  lemma NextIsFirst(aliases: seq<Alias>, name: Text, emoji: nat, a: nat)
    requires aliases != [] && aliases[0].name != name
    ensures FirstAt(aliases[1..], name, emoji, a) <==> FirstAt(aliases, name, emoji, a + 1)
  {
    if FirstAt(aliases[1..], name, emoji, a) {
      forall b | 0 <= b < a + 1 ensures aliases[b].name != name {
        if b > 0 { assert aliases[b] == aliases[1..][b - 1]; }
      }
    }
  }

  lemma {:induction false} FindsFirstColon(s: Text, from: nat)
    ensures var at := FindColon(s, from);
            if at.Some? then from <= at.value < |s| && s[at.value] == COLON && COLON !in s[from..at.value]
            else from >= |s| || COLON !in s[from..]
    decreases |s| - from
  {
    if from < |s| && s[from] != COLON {
      FindsFirstColon(s, from + 1);
      var at := FindColon(s, from + 1);
      if at.Some? {
        assert s[from..at.value] == [s[from]] + s[from + 1..at.value];
      } else {
        assert s[from..] == [s[from]] + s[from + 1..];
      }
    }
  }

  /** A shortcode is two colons, at most 32 bytes apart, with an alias and no further colon between them; it stands for
      the emoji of the first alias of that name. */
  lemma ShortcodeExactly(table: Table, s: Text, found: Found)
    ensures MatchShortcode(table, s) == Some(found) <==>
            && 2 <= found.bytes <= 33 && found.bytes <= |s|
            && s[0] == s[found.bytes - 1] == COLON && COLON !in s[1..found.bytes - 1]
            && FirstAlias(table.aliases, s[1..found.bytes - 1], found.index)
  {
    hide FindColon, FindAlias, FirstAlias;
    FindsFirstColon(s, 1);
    var end := FindColon(s, 1);
    if end.Some? { FindsFirstAlias(table.aliases, s[1..end.value], found.index); }
    if 2 <= found.bytes <= |s| && s[found.bytes - 1] == COLON && COLON !in s[1..found.bytes - 1] {
      OneColon(s, 1, found.bytes - 1);
    }
  }

  lemma OneColon(s: Text, from: nat, at: nat)
    requires from <= at < |s| && s[at] == COLON && COLON !in s[from..at]
    ensures FindColon(s, from) == Some(at)
  {
    forall i | from <= i < at ensures s[i] != COLON {
      assert s[from..at][i - from] == s[i];
    }
    ColonAfter(s, from, at);
  }

  function SpelledBytes(e: Emoji, s: Text): nat { if e.unicode <= s then |e.unicode| else |e.bare| }

  /** Of the spellings that the text starts with, that of the first emoji of the table counts, and of its two the one
      with the variation selector. */
  lemma {:induction false} FindsFirstEmoji(emojis: seq<Emoji>, i: nat, s: Text)
    requires i <= |emojis|
    ensures var found := FindEmoji(emojis, i, s);
            found.Some? ==>
              && found.value.bytes == SpelledBytes(emojis[found.value.index], s)
              && forall k :: i <= k < found.value.index ==> !(emojis[k].unicode <= s) && !(emojis[k].bare <= s)
    decreases |emojis| - i
  {
    if i < |emojis| { FindsFirstEmoji(emojis, i + 1, s); }
  }

  /** A shortcode goes before a spelling; at an ASCII byte there is nothing else, and past the end nothing at all. */
  lemma MatchExactly(table: Table, text: Text, offset: nat)
    requires Valid(table)
    ensures offset >= |text| ==> Match(table, text, offset).None?
    ensures offset < |text| ==>
              var s := text[offset..];
              Match(table, text, offset) ==
              if MatchShortcode(table, s).Some? then MatchShortcode(table, s) else FindEmoji(table.emojis, 0, s)
  {
    if offset < |text| && text[offset] < 0x80 { FindEmojiComplete(table, 0, text[offset..]); }
  }
}
