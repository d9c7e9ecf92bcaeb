/** Emoji in chat text: what is recognised at an offset, and replacing Unicode emoji by their shortcodes. */
module ChatEmoji {
  import opened Common

  type Text = seq<Byte>

  /** `bare` is the spelling without a variation selector; it may equal `unicode`. */
  datatype Emoji = Emoji(unicode: Text, bare: Text, canonical: Text)
  datatype Alias = Alias(name: Text, emoji: nat)
  datatype Table = Table(emojis: seq<Emoji>, aliases: seq<Alias>)
  datatype Found = Found(index: nat, bytes: nat)

  const COLON: Byte := 0x3A
  const MAX_ALIAS_SPAN := 32

  predicate IsContinuation(b: Byte) { 0x80 <= b < 0xC0 }

  /** Whether a spelling is that of an emoji: it has a UTF-8 lead byte and no colon. */
  predicate IsSpelling(e: Text) { e != [] && e[0] >= 0xC0 && COLON !in e }

  /** What the generated tables guarantee. */
  ghost predicate Valid(table: Table) {
    && (forall i :: 0 <= i < |table.emojis| ==>
          && IsSpelling(table.emojis[i].unicode)
          && IsSpelling(table.emojis[i].bare)
          && forall k :: 0 <= k < |table.emojis[i].canonical| ==> table.emojis[i].canonical[k] < 0x80)
    && (forall a :: 0 <= a < |table.aliases| ==> table.aliases[a].emoji < |table.emojis|)
  }

  // ---- looking at one offset ----

  function Continuations(s: Text): (n: nat)
    ensures n <= |s|
    ensures forall i :: 0 <= i < n ==> IsContinuation(s[i])
  {
    if s != [] && IsContinuation(s[0]) then 1 + Continuations(s[1..]) else 0
  }

  /** The offset after the byte at `offset` and the continuation bytes that follow it. */
  function NextCodepoint(text: Text, offset: nat): (next: nat)
    ensures next <= |text|
    ensures offset < |text| ==> offset < next
  {
    if offset >= |text| then |text| else offset + 1 + Continuations(text[offset + 1..])
  }

  /** The least index from `from` on that holds a colon. */
  function FindColon(s: Text, from: nat): (at: Option<nat>)
    ensures at.Some? ==> from <= at.value < |s| && s[at.value] == COLON
    decreases |s| - from
  {
    if from >= |s| then None else if s[from] == COLON then Some(from) else FindColon(s, from + 1)
  }

  function FindAlias(aliases: seq<Alias>, name: Text): (emoji: Option<nat>)
    ensures emoji.Some? ==> exists a :: 0 <= a < |aliases| && aliases[a] == Alias(name, emoji.value)
  {
    if aliases == [] then None
    else if aliases[0].name == name then Some(aliases[0].emoji)
    else FindAlias(aliases[1..], name)
  }

  /** The first entry from index `i` on with a spelling that `s` starts with. */
  function FindEmoji(emojis: seq<Emoji>, i: nat, s: Text): (found: Option<Found>)
    requires i <= |emojis|
    ensures found.Some? ==>
              && i <= found.value.index < |emojis| && found.value.bytes <= |s|
              && (s[..found.value.bytes] == emojis[found.value.index].unicode ||
                  s[..found.value.bytes] == emojis[found.value.index].bare)
    decreases |emojis| - i
  {
    if i == |emojis| then None
    else if emojis[i].unicode <= s then Some(Found(i, |emojis[i].unicode|))
    else if emojis[i].bare != emojis[i].unicode && emojis[i].bare <= s then Some(Found(i, |emojis[i].bare|))
    else FindEmoji(emojis, i + 1, s)
  }

  function MatchShortcode(table: Table, s: Text): Option<Found> {
    var end := FindColon(s, 1);
    if s == [] || s[0] != COLON || end.None? || end.value > MAX_ALIAS_SPAN then None
    else
      var emoji := FindAlias(table.aliases, s[1..end.value]);
      if emoji.None? then None else Some(Found(emoji.value, end.value + 1))
  }

  /** The emoji at an offset: a shortcode, or else a Unicode spelling. */
  function Match(table: Table, text: Text, offset: nat): Option<Found> {
    if offset >= |text| then None
    else if MatchShortcode(table, text[offset..]).Some? then MatchShortcode(table, text[offset..])
    else if text[offset] < 0x80 then None
    else FindEmoji(table.emojis, 0, text[offset..])
  }

  // ---- replacement ----

  /** What one step of the replacement consumes and writes. */
  datatype Piece = Piece(bytes: nat, output: Text, replaced: bool)

  function Shortcode(emoji: Emoji): Text { [COLON] + emoji.canonical + [COLON] }

  function FirstPiece(table: Table, s: Text): (p: Piece)
    requires Valid(table) && s != []
    ensures 0 < p.bytes <= |s|
    ensures !p.replaced ==> p.output == s[..p.bytes]
  {
    var found := Match(table, s, 0);
    if found.Some? && s[0] != COLON then
      Piece(found.value.bytes, Shortcode(table.emojis[found.value.index]), true)
    else
      Piece(NextCodepoint(s, 0), s[..NextCodepoint(s, 0)], false)
  }

  function Replaced(table: Table, s: Text): Text
    requires Valid(table)
  {
    if s == [] then [] else FirstPiece(table, s).output + Replaced(table, s[FirstPiece(table, s).bytes..])
  }

  predicate AnyReplaced(table: Table, s: Text)
    requires Valid(table)
  {
    s != [] && (FirstPiece(table, s).replaced || AnyReplaced(table, s[FirstPiece(table, s).bytes..]))
  }

  /** Where a cursor `c` bytes into the text goes: after every piece that begins before it. */
  function Cursor(table: Table, s: Text, c: int): nat
    requires Valid(table)
  {
    if s == [] || c <= 0 then 0
    else |FirstPiece(table, s).output| + Cursor(table, s[FirstPiece(table, s).bytes..], c - FirstPiece(table, s).bytes)
  }

  method Replace(table: Table, text: Text, cursorByte: nat) returns (out: Text, cursor: nat, changed: bool)
    requires Valid(table)
    ensures out == Replaced(table, text)
    ensures cursor == Cursor(table, text, if cursorByte < |text| then cursorByte else |text|)
    ensures changed <==> out != text
  {
    hide FirstPiece, Valid, Replaced, AnyReplaced, Cursor;
    var limit := if cursorByte < |text| then cursorByte else |text|;
    out, cursor, changed := [], 0, false;
    var cursorPlaced := false;
    var offset: nat := 0;
    assert text[0..] == text;
    while offset < |text|
      invariant offset <= |text|
      invariant Replaced(table, text) == out + Replaced(table, text[offset..])
      invariant AnyReplaced(table, text) <==> changed || AnyReplaced(table, text[offset..])
      invariant cursorPlaced ==> cursor == Cursor(table, text, limit)
      invariant !cursorPlaced ==> Cursor(table, text, limit) == |out| + Cursor(table, text[offset..], limit - offset)
    {
      if !cursorPlaced && limit <= offset {
        cursor := |out|;
        cursorPlaced := true;
      }
      ghost var rest := text[offset..];
      Unfold(table, rest, limit - offset);
      var output, end, replaced := TakePiece(table, text, offset);
      Associative(out, output, Replaced(table, text[end..]));
      out := out + output;
      changed := changed || replaced;
      assert text[end..] == rest[end - offset..];
      Unfold(table, text[end..], limit - end);
      if !cursorPlaced && limit < end {
        cursor := |out|;
        cursorPlaced := true;
      }
      offset := end;
    }
    if !cursorPlaced { cursor := |out|; }
    Unfold(table, text[offset..], limit - offset);
    ChangedExactly(table, text);
  }

  /** What one turn of the loop writes, and where the next one begins. */
  method TakePiece(table: Table, text: Text, offset: nat) returns (output: Text, end: nat, replaced: bool)
    requires Valid(table) && offset < |text|
    ensures offset < end <= |text|
    ensures FirstPiece(table, text[offset..]) == Piece(end - offset, output, replaced)
  {
    hide FirstPiece, Match, NextCodepoint, Shortcode, Valid;
    PieceAt(table, text, offset);
    var found := Match(table, text, offset);
    if found.Some? && text[offset] != COLON {
      end := offset + found.value.bytes;
      output := [COLON];
      output := output + table.emojis[found.value.index].canonical;
      output := output + [COLON];
      replaced := true;
    } else {
      end := NextCodepoint(text, offset);
      output := text[offset..end];
      replaced := false;
    }
  }

  lemma Associative(a: Text, b: Text, c: Text)
    ensures a + (b + c) == (a + b) + c
  {}

  lemma Unfold(table: Table, s: Text, c: int)
    requires Valid(table)
    ensures s == [] ==> Replaced(table, s) == [] && !AnyReplaced(table, s)
    ensures s == [] || c <= 0 ==> Cursor(table, s, c) == 0
    ensures s != [] ==>
              var p := FirstPiece(table, s);
              && Replaced(table, s) == p.output + Replaced(table, s[p.bytes..])
              && (AnyReplaced(table, s) <==> p.replaced || AnyReplaced(table, s[p.bytes..]))
              && (c > 0 ==> Cursor(table, s, c) == |p.output| + Cursor(table, s[p.bytes..], c - p.bytes))
  {
    hide FirstPiece;
  }

  /** Only the text from the offset on matters. */
  lemma MatchInSuffix(table: Table, text: Text, offset: nat)
    requires offset < |text|
    ensures Match(table, text, offset) == Match(table, text[offset..], 0)
    ensures NextCodepoint(text, offset) == offset + NextCodepoint(text[offset..], 0)
  {
    assert text[offset..][0..] == text[offset..];
    assert text[offset..][1..] == text[offset + 1..];
  }

  /** What one turn of the loop does is the first step on the text that is left. */
  lemma PieceAt(table: Table, text: Text, offset: nat)
    requires Valid(table) && offset < |text|
    ensures var p := FirstPiece(table, text[offset..]);
            var found := Match(table, text, offset);
            if found.Some? && text[offset] != COLON then
              && p.replaced && p.bytes == found.value.bytes && found.value.index < |table.emojis|
              && p.output == [COLON] + table.emojis[found.value.index].canonical + [COLON]
            else
              && !p.replaced && offset + p.bytes == NextCodepoint(text, offset)
              && p.output == text[offset..NextCodepoint(text, offset)]
  {
    MatchInSuffix(table, text, offset);
  }

  // ---- idempotence ----

  /** Whether `s` starts with some emoji. */
  ghost predicate Spelled(table: Table, s: Text) {
    exists i :: 0 <= i < |table.emojis| && (table.emojis[i].unicode <= s || table.emojis[i].bare <= s)
  }

  /** Whether there is no emoji anywhere, at whatever offset. */
  ghost predicate Clean(table: Table, s: Text) {
    forall i :: 0 <= i < |s| ==> !Spelled(table, s[i..])
  }

  lemma {:induction false} FindEmojiComplete(table: Table, i: nat, s: Text)
    requires i <= |table.emojis|
    ensures FindEmoji(table.emojis, i, s).None? <==>
            forall k :: i <= k < |table.emojis| ==> !(table.emojis[k].unicode <= s) && !(table.emojis[k].bare <= s)
    decreases |table.emojis| - i
  {
    if i < |table.emojis| { FindEmojiComplete(table, i + 1, s); }
  }

  /** A step replaces exactly when its text starts with an emoji. */
  lemma ReplacesSpelled(table: Table, s: Text)
    requires Valid(table) && s != []
    ensures FirstPiece(table, s).replaced <==> Spelled(table, s)
  {
    assert s[0..] == s;
    FindEmojiComplete(table, 0, s);
  }

  lemma {:induction false} ChangedExactly(table: Table, s: Text)
    requires Valid(table)
    ensures AnyReplaced(table, s) <==> Replaced(table, s) != s
  {
    if s != [] {
      var p := FirstPiece(table, s);
      ChangedExactly(table, s[p.bytes..]);
      assert s == s[..p.bytes] + s[p.bytes..];
      if p.replaced {
        assert Replaced(table, s)[0] == COLON;
        assert s[..p.bytes][0] == s[0];
      } else {
        assert Replaced(table, s)[..p.bytes] == s[..p.bytes];
        assert Replaced(table, s)[p.bytes..] == Replaced(table, s[p.bytes..]);
      }
    }
  }

  lemma ColonFirst(table: Table, s: Text)
    requires Valid(table) && s != []
    ensures FirstPiece(table, s).replaced ==> [COLON] <= FirstPiece(table, s).output
  {}

  /** The replacement makes no emoji: what the result starts with and has no colon, the text started with. */
  lemma {:induction false} PrefixWasThere(table: Table, s: Text, e: Text)
    requires Valid(table) && COLON !in e && e <= Replaced(table, s)
    ensures e <= s
    decreases |s|
  {
    hide FirstPiece, Valid;
    if s != [] && e != [] {
      var p := FirstPiece(table, s);
      ColonFirst(table, s);
      var rest := s[p.bytes..];
      assert Replaced(table, s) == p.output + Replaced(table, rest);
      assert e[0] == Replaced(table, s)[0];
      if p.replaced {
        assert false;
      } else if |e| <= p.bytes {
        assert e == Replaced(table, s)[..|e|] == s[..|e|];
      } else {
        assert e[..p.bytes] == s[..p.bytes];
        assert e[p.bytes..] == Replaced(table, s)[..|e|][p.bytes..] == Replaced(table, rest)[..|e| - p.bytes];
        PrefixWasThere(table, rest, e[p.bytes..]);
        assert e == e[..p.bytes] + e[p.bytes..];
        assert s == s[..p.bytes] + rest;
      }
    }
  }

  lemma SpelledWasThere(table: Table, s: Text)
    requires Valid(table) && Spelled(table, Replaced(table, s))
    ensures Spelled(table, s)
  {
    var i :| 0 <= i < |table.emojis| &&
      (table.emojis[i].unicode <= Replaced(table, s) || table.emojis[i].bare <= Replaced(table, s));
    if table.emojis[i].unicode <= Replaced(table, s) { PrefixWasThere(table, s, table.emojis[i].unicode); }
    else { PrefixWasThere(table, s, table.emojis[i].bare); }
  }

  lemma SpelledLeads(table: Table, s: Text)
    requires Valid(table) && Spelled(table, s)
    ensures s != [] && s[0] >= 0xC0
  {}

  /** Bytes that a step writes after its first never start an emoji; nor does a shortcode. */
  lemma OutputByte(table: Table, s: Text, i: nat)
    requires Valid(table) && s != [] && i < |FirstPiece(table, s).output| && (i > 0 || FirstPiece(table, s).replaced)
    ensures FirstPiece(table, s).output[i] < 0xC0
  {
    var p := FirstPiece(table, s);
    if p.replaced {
      var canonical := table.emojis[Match(table, s, 0).value.index].canonical;
      assert p.output == Shortcode(table.emojis[Match(table, s, 0).value.index]);
      if 0 < i <= |canonical| { assert p.output[i] == canonical[i - 1]; }
    } else {
      assert p.output[i] == s[1..][i - 1];
      assert IsContinuation(s[1..][i - 1]);
    }
  }

  lemma {:induction false} ReplacedIsClean(table: Table, s: Text)
    requires Valid(table)
    ensures Clean(table, Replaced(table, s))
  {
    hide FirstPiece, Spelled;
    forall i | 0 <= i < |Replaced(table, s)| ensures !Spelled(table, Replaced(table, s)[i..]) {
      NotSpelledAt(table, s, i);
    }
  }

  lemma {:induction false} NotSpelledAt(table: Table, s: Text, i: nat)
    requires Valid(table) && i < |Replaced(table, s)|
    ensures !Spelled(table, Replaced(table, s)[i..])
    decreases |s|
  {
    hide FirstPiece, Spelled, Valid;
    var p := FirstPiece(table, s);
    var rest := s[p.bytes..];
    var all := Replaced(table, s);
    if i >= |p.output| {
      assert all[i..] == Replaced(table, rest)[i - |p.output|..];
      NotSpelledAt(table, rest, i - |p.output|);
    } else if Spelled(table, all[i..]) {
      SpelledLeads(table, all[i..]);
      assert all[i..][0] == p.output[i];
      if i > 0 || p.replaced {
        OutputByte(table, s, i);
      } else {
        assert all[0..] == all;
        SpelledWasThere(table, s);
        ReplacesSpelled(table, s);
      }
    }
  }

  lemma {:induction false} CleanStays(table: Table, s: Text)
    requires Valid(table) && Clean(table, s)
    ensures !AnyReplaced(table, s)
  {
    hide FirstPiece, Spelled, Valid;
    if s != [] {
      var p := FirstPiece(table, s);
      assert s[0..] == s;
      ReplacesSpelled(table, s);
      forall i | 0 <= i < |s[p.bytes..]| ensures !Spelled(table, s[p.bytes..][i..]) {
        assert s[p.bytes..][i..] == s[p.bytes + i..];
      }
      CleanStays(table, s[p.bytes..]);
    }
  }

  /** A second pass finds nothing to change. */
  lemma Idempotent(table: Table, s: Text)
    requires Valid(table)
    ensures Replaced(table, Replaced(table, s)) == Replaced(table, s)
    ensures !AnyReplaced(table, Replaced(table, s))
  {
    ReplacedIsClean(table, s);
    CleanStays(table, Replaced(table, s));
    ChangedExactly(table, Replaced(table, s));
  }

  /** The text stays as it is exactly when no emoji is in it anywhere. */
  lemma UnchangedExactly(table: Table, s: Text)
    requires Valid(table)
    ensures Replaced(table, s) == s <==> Clean(table, s)
  {
    if Clean(table, s) {
      CleanStays(table, s);
      ChangedExactly(table, s);
    } else {
      ReplacedIsClean(table, s);
    }
  }

  // ---- the cursor ----

  /** Whether the replacement visits the offset `b`, or it is the end. */
  predicate Boundary(table: Table, s: Text, b: int)
    requires Valid(table)
    decreases |s|
  {
    b == 0 || (s != [] && b > 0 && Boundary(table, s[FirstPiece(table, s).bytes..], b - FirstPiece(table, s).bytes))
  }

  lemma {:induction false} FindEmojiInPrefix(table: Table, i: nat, s: Text, b: nat)
    requires i <= |table.emojis| && b <= |s|
    ensures FindEmoji(table.emojis, i, s[..b]).Some? ==> Spelled(table, s)
    ensures var found := FindEmoji(table.emojis, i, s);
            found.Some? && found.value.bytes <= b ==> FindEmoji(table.emojis, i, s[..b]) == found
    decreases |table.emojis| - i
  {
    if i < |table.emojis| {
      var e := table.emojis[i];
      if e.unicode <= s[..b] { assert e.unicode == s[..b][..|e.unicode|] == s[..|e.unicode|]; }
      if e.bare <= s[..b] { assert e.bare == s[..b][..|e.bare|] == s[..|e.bare|]; }
      if e.unicode <= s && |e.unicode| <= b { assert e.unicode == s[..|e.unicode|] == s[..b][..|e.unicode|]; }
      if e.bare <= s && |e.bare| <= b { assert e.bare == s[..|e.bare|] == s[..b][..|e.bare|]; }
      FindEmojiInPrefix(table, i + 1, s, b);
    }
  }

  lemma {:induction false} ContinuationsInPrefix(s: Text, b: nat)
    requires Continuations(s) <= b <= |s|
    ensures Continuations(s[..b]) == Continuations(s)
  {
    if s != [] && IsContinuation(s[0]) {
      assert s[..b][1..] == s[1..][..b - 1];
      ContinuationsInPrefix(s[1..], b - 1);
    }
  }

  /** A step that ends by `b` is the same when the text is cut off there. */
  lemma PieceInPrefix(table: Table, s: Text, b: nat)
    requires Valid(table) && s != [] && FirstPiece(table, s).bytes <= b <= |s|
    ensures FirstPiece(table, s[..b]) == FirstPiece(table, s)
  {
    assert s[0..] == s && s[..b][0..] == s[..b];
    FindEmojiInPrefix(table, 0, s, b);
    ReplacesSpelled(table, s);
    if !FirstPiece(table, s).replaced {
      assert s[..b][1..] == s[1..][..b - 1];
      ContinuationsInPrefix(s[1..], b - 1);
    }
  }

  /** At a visited offset the text may be cut: both halves are replaced on their own, and the new cursor is where
      the first half ends. */
  lemma {:induction false} CursorAtBoundary(table: Table, s: Text, b: nat)
    requires Valid(table) && Boundary(table, s, b)
    ensures b <= |s| && Cursor(table, s, b) == |Replaced(table, s[..b])|
    ensures Replaced(table, s) == Replaced(table, s[..b]) + Replaced(table, s[b..])
    decreases |s|
  {
    hide FirstPiece;
    if b == 0 {
      assert s[..0] == [] && s[0..] == s;
    } else {
      var p := FirstPiece(table, s);
      var rest := s[p.bytes..];
      CursorAtBoundary(table, rest, b - p.bytes);
      PieceInPrefix(table, s, b);
      assert s[..b][p.bytes..] == rest[..b - p.bytes] && rest[b - p.bytes..] == s[b..];
    }
  }

  /** The least visited offset at or after `c`. */
  function RoundUp(table: Table, s: Text, c: int): (b: nat)
    requires Valid(table) && c <= |s|
    decreases |s|
  {
    if c <= 0 then 0
    else FirstPiece(table, s).bytes + RoundUp(table, s[FirstPiece(table, s).bytes..], c - FirstPiece(table, s).bytes)
  }

  lemma {:induction false} RoundUpIsLeast(table: Table, s: Text, c: nat)
    requires Valid(table) && c <= |s|
    ensures var b := RoundUp(table, s, c);
            c <= b && Boundary(table, s, b) && forall x :: c <= x < b ==> !Boundary(table, s, x)
    decreases |s|
  {
    hide FirstPiece;
    if c != 0 {
      var p := FirstPiece(table, s);
      if c >= p.bytes { RoundUpIsLeast(table, s[p.bytes..], c - p.bytes); }
    }
  }

  /** Wherever the cursor was, it lands between two pieces: at the length of the replacement of the text up to the
      first visited offset that is not before it. */
  lemma CursorLands(table: Table, s: Text, c: nat)
    requires Valid(table) && c <= |s|
    ensures var b := RoundUp(table, s, c);
            b <= |s| && Cursor(table, s, c) == |Replaced(table, s[..b])|
  {
    CursorRounds(table, s, c);
    RoundUpIsLeast(table, s, c);
    CursorAtBoundary(table, s, RoundUp(table, s, c));
  }

  lemma {:induction false} CursorRounds(table: Table, s: Text, c: int)
    requires Valid(table) && c <= |s|
    ensures Cursor(table, s, c) == Cursor(table, s, RoundUp(table, s, c))
    decreases |s|
  {
    hide FirstPiece;
    if c > 0 { CursorRounds(table, s[FirstPiece(table, s).bytes..], c - FirstPiece(table, s).bytes); }
  }

  // ---- shortcodes ----

  /** Every canonical name is the shortcode of its own emoji, and short enough to be found. */
  ghost predicate Canonical(table: Table) {
    forall i :: 0 <= i < |table.emojis| ==>
      && FindAlias(table.aliases, table.emojis[i].canonical) == Some(i)
      && |table.emojis[i].canonical| < MAX_ALIAS_SPAN
      && COLON !in table.emojis[i].canonical
  }

  lemma {:induction false} ColonAfter(s: Text, from: nat, at: nat)
    requires from <= at < |s| && s[at] == COLON && forall i :: from <= i < at ==> s[i] != COLON
    ensures FindColon(s, from) == Some(at)
    decreases at - from
  {
    if from < at { ColonAfter(s, from + 1, at); }
  }

  /** What is written for an emoji is read back as that emoji, whatever follows. */
  lemma ShortcodeMatches(table: Table, i: nat, after: Text)
    requires Canonical(table) && i < |table.emojis|
    ensures var code := Shortcode(table.emojis[i]);
            Match(table, code + after, 0) == Some(Found(i, |code|))
  {
    var name := table.emojis[i].canonical;
    var s := Shortcode(table.emojis[i]) + after;
    assert s[0..] == s;
    assert forall k :: 1 <= k < 1 + |name| ==> s[k] == name[k - 1];
    ColonAfter(s, 1, 1 + |name|);
    assert s[1..1 + |name|] == name;
  }
}
