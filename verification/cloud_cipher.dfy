/** The encrypted record channel of a cloud room. The primitives are ideal functions. */
module CloudChannel {
  import opened Common
  import opened HexText

  type Bytes = seq<Byte>

  /** HMAC-SHA256, X25519 and ChaCha20-Poly1305 as functions. A box is ciphertext and tag. */
  datatype Crypto = Crypto(hmac: (Bytes, Bytes) -> Bytes, publicOf: Bytes -> Bytes, agree: (Bytes, Bytes) -> Bytes,
                           lock: (Bytes, Bytes, Bytes, Bytes) -> Bytes,
                           unlock: (Bytes, Bytes, Bytes, Bytes) -> Option<Bytes>)

  const PREFIX := "DCR1:"
  const BLANK: Bytes := seq(32, _ => 0)
  const MAX_SEQUENCE := 9007199254740991
  const MAX_PLAINTEXT := 16 * 1024
  const MAX_WIRE := 5 + 2 * (8 + MAX_PLAINTEXT + 16)

  // "dusklight-cloud-channel-v1:" and the two labels, as bytes.
  function Ascii(text: string): Bytes
    requires forall i :: 0 <= i < |text| ==> text[i] < 128 as char
  {
    seq(|text|, i requires 0 <= i < |text| => text[i] as int)
  }

  const SALT := "dusklight-cloud-channel-v1:"

  function Label(fromClient: bool): Bytes {
    (if fromClient then Ascii("client-to-server") else Ascii("server-to-client")) + [1]
  }

  /** What is assumed of the primitives: agreement is symmetric, boxes are 16 bytes longer than their contents and
      open to them, nothing else opens, and the two direction labels give different keys. */
  ghost predicate Ideal(c: Crypto) {
    && (forall a, b :: c.agree(a, c.publicOf(b)) == c.agree(b, c.publicOf(a)))
    && (forall k, n, a, p :: |c.lock(k, n, a, p)| == |p| + 16 && c.unlock(k, n, a, c.lock(k, n, a, p)) == Some(p))
    && (forall k, n, a, box :: c.unlock(k, n, a, box).Some? ==> box == c.lock(k, n, a, c.unlock(k, n, a, box).value))
    && (forall k :: c.hmac(k, Label(true)) != c.hmac(k, Label(false)))
    && (forall p :: |c.publicOf(p)| == 32)
  }

  /** Nothing in these assumptions rules the others out. */
  lemma IdealIsPossible() returns (c: Crypto)
    ensures Ideal(c)
  {
    var tag: Bytes := seq(16, _ => 0);
    c := Crypto((k, m) => m, p => BLANK, (a, b) => [1], (k, n, a, p) => p + tag,
                (k, n, a, box) => if |box| >= 16 && box[|box| - 16..] == tag then Some(box[..|box| - 16]) else None);
    assert Label(true)[0] == 'c' as int && Label(false)[0] == 's' as int;
    forall k, n, a, p ensures c.unlock(k, n, a, c.lock(k, n, a, p)) == Some(p) {
      assert (p + tag)[|p|..] == tag && (p + tag)[..|p|] == p;
    }
  }

  datatype Channel = Channel(route: string, client: bool, valid: bool, established: bool, private_: Bytes,
                             public_: Bytes, txKey: Bytes, rxKey: Bytes, tx: nat, rx: nat)

  predicate LowerHexDigest(text: string) { |text| == 64 && Unhex(text).Some? }

  /** `random` is what the secure random source gives, if it works. */
  function New(c: Crypto, route: string, client: bool, random: Option<Bytes>): Channel {
    if !LowerHexDigest(route) || random.None? then
      Channel(route, client, false, false, BLANK, BLANK, BLANK, BLANK, 0, 0)
    else Channel(route, client, true, false, random.value, c.publicOf(random.value), BLANK, BLANK, 0, 0)
  }

  function PublicKey(ch: Channel): string { if ch.valid then Hex(ch.public_) else "" }

  function RouteBytes(route: string): Bytes
  {
    seq(|route|, i requires 0 <= i < |route| => route[i] as int % 256)
  }

  function Wipe(b: Bytes): Bytes { seq(|b|, _ => 0) }

  predicate AllZero(b: Bytes) { forall i :: 0 <= i < |b| ==> b[i] == 0 }

  function Exchanged(c: Crypto, ch: Channel, remotePublic: string): (Channel, bool) {
    if !ch.valid || ch.established || !LowerHexDigest(remotePublic) then (ch, false)
    else
      var remote := Unhex(remotePublic).value;
      var shared := c.agree(ch.private_, remote);
      var wiped := ch.(private_ := Wipe(ch.private_));
      if AllZero(shared) then (wiped.(valid := false), false)
      else
        var salt := Ascii(SALT) + RouteBytes(ch.route) +
                    (if ch.client then ch.public_ else remote) + (if ch.client then remote else ch.public_);
        var prk := c.hmac(salt, shared);
        (wiped.(txKey := c.hmac(prk, Label(ch.client)), rxKey := c.hmac(prk, Label(!ch.client)), established := true),
         true)
  }

  function Nonce(sequence: nat): (n: Bytes)
    ensures |n| == 12
  {
    [0, 0, 0, 0] + BigEndian(sequence, 8)
  }

  function Header(sequence: nat): Bytes { Ascii(PREFIX) + BigEndian(sequence, 8) }

  /** The record with a number and contents: the number, then the box. */
  function Record(c: Crypto, key: Bytes, sequence: nat, plaintext: Bytes): Bytes {
    BigEndian(sequence, 8) + c.lock(key, Nonce(sequence), Header(sequence), plaintext)
  }

  /** The empty text stands for refusal. */
  function Sealed(c: Crypto, ch: Channel, plaintext: Bytes): (Channel, string) {
    if !ch.established || |plaintext| > MAX_PLAINTEXT || ch.tx >= MAX_SEQUENCE then (ch, "")
    else (ch.(tx := ch.tx + 1), PREFIX + Hex(Record(c, ch.txKey, ch.tx, plaintext)))
  }

  /** The record of an incoming text, if it has the form of one. */
  function Parse(wire: string): (record: Option<Bytes>)
    ensures record.Some? ==> |record.value| >= 24
  {
    if |wire| < 53 || |wire| > MAX_WIRE || wire[..5] != PREFIX || (|wire| - 5) % 2 != 0 then None
    else Unhex(wire[5..])
  }

  function Opened(c: Crypto, ch: Channel, wire: string): (Channel, Option<Bytes>) {
    if !ch.established || ch.rx >= MAX_SEQUENCE then (ch, None)
    else
      var record := Parse(wire);
      if record.None? || record.value[..8] != BigEndian(ch.rx, 8) then (ch, None)
      else
        var plaintext := c.unlock(ch.rxKey, Nonce(ch.rx), Header(ch.rx), record.value[8..]);
        if plaintext.None? then (ch, None) else (ch.(rx := ch.rx + 1), plaintext)
  }

  class CloudCipher {
    const crypto: Crypto
    const route: string
    const client: bool
    var valid: bool
    var established: bool
    var private_: Bytes
    var public_: Bytes
    var txKey: Bytes
    var rxKey: Bytes
    var tx: nat
    var rx: nat

    ghost function View(): Channel
      reads this
    {
      Channel(route, client, valid, established, private_, public_, txKey, rxKey, tx, rx)
    }

    constructor (crypto: Crypto, route: string, client: bool, random: Option<Bytes>)
      ensures this.crypto == crypto && View() == New(crypto, route, client, random)
    {
      this.crypto, this.route, this.client := crypto, route, client;
      valid, established := false, false;
      private_, public_, txKey, rxKey := BLANK, BLANK, BLANK, BLANK;
      tx, rx := 0, 0;
      new;
      if LowerHexDigest(route) && random.Some? {
        private_ := random.value;
        public_ := crypto.publicOf(private_);
        valid := true;
      }
    }

    method Exchange(remotePublic: string) returns (ok: bool)
      modifies this
      ensures (View(), ok) == Exchanged(crypto, old(View()), remotePublic)
    {
      if !valid || established || !LowerHexDigest(remotePublic) { return false; }
      var remote := Unhex(remotePublic).value;
      var shared := crypto.agree(private_, remote);
      private_ := Wipe(private_);
      if AllZero(shared) {
        valid := false;
        return false;
      }
      var salt := Ascii(SALT) + RouteBytes(route);
      salt := salt + if client then public_ else remote;
      salt := salt + if client then remote else public_;
      var prk := crypto.hmac(salt, shared);
      txKey := crypto.hmac(prk, Label(client));
      rxKey := crypto.hmac(prk, Label(!client));
      established := true;
      ok := true;
    }

    /** Fills the last eight bytes, least significant last. */
    method MakeNonce(sequence: nat) returns (iv: Bytes)
      ensures iv == Nonce(sequence)
    {
      iv := [0, 0, 0, 0, 0, 0, 0, 0, 0, 0, 0, 0];
      var i := 0;
      while i < 8
        invariant i <= 8 && |iv| == 12
        invariant forall j :: 0 <= j < 4 ==> iv[j] == 0
        invariant forall j :: 12 - i <= j < 12 ==> iv[j] == Nonce(sequence)[j]
      {
        BigEndianAt(sequence, 8, i);
        iv := iv[11 - i := ShiftRight(sequence, i) % 256];
        i := i + 1;
      }
    }

    method Seal(plaintext: Bytes) returns (wire: string)
      modifies this
      ensures (View(), wire) == Sealed(crypto, old(View()), plaintext)
    {
      hide Hex, BigEndian, Ascii;
      if !established || |plaintext| > MAX_PLAINTEXT || tx >= MAX_SEQUENCE { return ""; }
      var iv := MakeNonce(tx);
      tx := tx + 1;
      var record := iv[4..];
      var header := Ascii(PREFIX) + record;
      assert record == BigEndian(old(tx), 8);
      record := record + crypto.lock(txKey, iv, header, plaintext);
      var text := HexOf(record);
      wire := PREFIX + text;
    }

    method Open(wire: string) returns (plaintext: Option<Bytes>)
      modifies this
      ensures (View(), plaintext) == Opened(crypto, old(View()), wire)
    {
      if !established || rx >= MAX_SEQUENCE || |wire| < 53 || |wire| > MAX_WIRE ||
         wire[..5] != PREFIX || (|wire| - 5) % 2 != 0 { return None; }
      var record := UnhexOf(wire[5..]);
      if record.None? { return None; }
      var iv := MakeNonce(rx);
      assert iv[4..] == BigEndian(rx, 8);
      if record.value[..8] != iv[4..] { return None; }
      var header := Ascii(PREFIX) + record.value[..8];
      plaintext := crypto.unlock(rxKey, iv, header, record.value[8..]);
      if plaintext.None? { return None; }
      rx := rx + 1;
    }
  }

  // ---- keys ----

  /** Two ends with the same route that exchange public keys, one as client and one as server, end up with each
      other's keys, different for the two directions; unless the agreed secret is all zero, which both refuse. */
  lemma KeysMatch(c: Crypto, route: string, a: Bytes, b: Bytes)
    requires Ideal(c) && LowerHexDigest(route)
    ensures var client := New(c, route, true, Some(a));
            var server := New(c, route, false, Some(b));
            var (client', ok1) := Exchanged(c, client, PublicKey(server));
            var (server', ok2) := Exchanged(c, server, PublicKey(client));
            && ok1 == ok2 == !AllZero(c.agree(a, c.publicOf(b)))
            && (ok1 ==>
                  && client'.established && server'.established
                  && client'.txKey == server'.rxKey && client'.rxKey == server'.txKey && client'.txKey != server'.txKey
                  && client'.tx == client'.rx == server'.tx == server'.rx == 0)
  {
    hide Ideal, Unhex, Hex, Label, AllZero, Wipe, RouteBytes, Ascii;
    PublicIsDigest(c, a);
    PublicIsDigest(c, b);
    Agreement(c, a, b);
    forall k ensures c.hmac(k, Label(true)) != c.hmac(k, Label(false)) { LabelsDiffer(c, k); }
  }

  lemma PublicIsDigest(c: Crypto, private_: Bytes)
    requires Ideal(c)
    ensures LowerHexDigest(Hex(c.publicOf(private_)))
    ensures Unhex(Hex(c.publicOf(private_))) == Some(c.publicOf(private_))
  {
    hide Hex, Unhex;
    UnhexHex(c.publicOf(private_));
  }

  lemma Agreement(c: Crypto, a: Bytes, b: Bytes)
    requires Ideal(c)
    ensures c.agree(a, c.publicOf(b)) == c.agree(b, c.publicOf(a))
  {}

  lemma LabelsDiffer(c: Crypto, key: Bytes)
    requires Ideal(c)
    ensures c.hmac(key, Label(true)) != c.hmac(key, Label(false))
  {
    hide Label;
  }

  lemma LockOpens(c: Crypto, key: Bytes, nonce: Bytes, header: Bytes, plaintext: Bytes)
    requires Ideal(c)
    ensures c.unlock(key, nonce, header, c.lock(key, nonce, header, plaintext)) == Some(plaintext)
    ensures |c.lock(key, nonce, header, plaintext)| == |plaintext| + 16
  {}

  lemma OpensIsLocked(c: Crypto, key: Bytes, nonce: Bytes, header: Bytes, box: Bytes)
    requires Ideal(c) && c.unlock(key, nonce, header, box).Some?
    ensures box == c.lock(key, nonce, header, c.unlock(key, nonce, header, box).value)
  {}

  /** Two exchanged ends are where runs start. */
  lemma ExchangeStarts(c: Crypto, route: string, a: Bytes, b: Bytes)
    requires Ideal(c) && LowerHexDigest(route) && !AllZero(c.agree(a, c.publicOf(b)))
    ensures var client := New(c, route, true, Some(a));
            var server := New(c, route, false, Some(b));
            Started(Pair([Exchanged(c, client, PublicKey(server)).0, Exchanged(c, server, PublicKey(client)).0],
                         [[], []], [[], []], []))
  {
    KeysMatch(c, route, a, b);
  }

  /** A well-formed key spends the private key: it is wiped and no later exchange does anything. */
  lemma OneExchange(c: Crypto, ch: Channel, remote: string, other: string)
    requires ch.valid && !ch.established && LowerHexDigest(remote)
    ensures var after := Exchanged(c, ch, remote).0;
            AllZero(after.private_) && Exchanged(c, after, other) == (after, false)
  {
    hide LowerHexDigest;
  }

  lemma NonceDetermines(m: nat, n: nat)
    requires m <= MAX_SEQUENCE && n <= MAX_SEQUENCE && Nonce(m) == Nonce(n)
    ensures m == n
  {
    assert Nonce(m)[4..] == BigEndian(m, 8) && Nonce(n)[4..] == BigEndian(n, 8);
    Power256Of8();
    BigEndianBack(m, 8);
    BigEndianBack(n, 8);
  }

  lemma Power256Of8()
    ensures Power256(8) == 0x1_0000_0000_0000_0000
  {
    assert Power256(2) == 0x1_0000;
    assert Power256(4) == 0x1_0000_0000;
    assert Power256(6) == 0x1_0000_0000_0000;
  }

  lemma ParseBack(record: Bytes)
    requires 24 <= |record| <= 8 + MAX_PLAINTEXT + 16
    ensures Parse(PREFIX + Hex(record)) == Some(record)
  {
    hide Hex, Unhex;
    var wire := PREFIX + Hex(record);
    assert wire[..5] == PREFIX && wire[5..] == Hex(record);
    UnhexHex(record);
  }

  /** A record that arrives in its turn opens to what was sealed. */
  lemma SealOpens(c: Crypto, from: Channel, to: Channel, plaintext: Bytes)
    requires Ideal(c) && from.established && to.established && from.txKey == to.rxKey && from.tx == to.rx
    requires Sealed(c, from, plaintext).1 != ""
    ensures Opened(c, to, Sealed(c, from, plaintext).1) == (to.(rx := to.rx + 1), Some(plaintext))
  {
    hide Parse, Nonce, Header, Hex, Ideal;
    LockOpens(c, from.txKey, Nonce(from.tx), Header(from.tx), plaintext);
    var record := Record(c, from.txKey, from.tx, plaintext);
    ParseBack(record);
    assert record[..8] == BigEndian(from.tx, 8);
    assert record[8..] == c.lock(from.txKey, Nonce(from.tx), Header(from.tx), plaintext);
  }

  // ---- runs of two ends ----

  datatype Made = Made(key: Bytes, nonce: Bytes, header: Bytes, box: Bytes)

  /** The two ends, what each has sealed and received so far, and every box that was made. */
  datatype Pair = Pair(ends: seq<Channel>, sealed: seq<seq<Bytes>>, received: seq<seq<Bytes>>, made: seq<Made>)

  /** End `e` (0 client, 1 server) seals; or some text is delivered to it. */
  datatype Step = Sealing(e: nat, plaintext: Bytes) | Delivery(e: nat, wire: string)

  function MadeBy(c: Crypto, key: Bytes, sequence: nat, plaintext: Bytes): Made {
    Made(key, Nonce(sequence), Header(sequence), c.lock(key, Nonce(sequence), Header(sequence), plaintext))
  }

  predicate Shaped(p: Pair) { |p.ends| == 2 && |p.sealed| == 2 && |p.received| == 2 }

  function Do(c: Crypto, p: Pair, s: Step): Pair
    requires Shaped(p) && s.e < 2
  {
    match s
    case Sealing(e, plaintext) =>
      var (ch, wire) := Sealed(c, p.ends[e], plaintext);
      if wire == "" then p
      else p.(ends := p.ends[e := ch], sealed := p.sealed[e := p.sealed[e] + [plaintext]],
              made := p.made + [MadeBy(c, p.ends[e].txKey, p.ends[e].tx, plaintext)])
    case Delivery(e, wire) =>
      var (ch, plaintext) := Opened(c, p.ends[e], wire);
      if plaintext.None? then p
      else p.(ends := p.ends[e := ch], received := p.received[e := p.received[e] + [plaintext.value]])
  }

  /** The network delivers any text at all, but cannot make a box that opens: whatever the receiver's key, nonce and
      header open was made by an end under them. */
  ghost predicate NotForged(c: Crypto, p: Pair, s: Step)
    requires Shaped(p) && s.e < 2
  {
    s.Delivery? && Opened(c, p.ends[s.e], s.wire).1.Some? ==>
      var ch := p.ends[s.e];
      Made(ch.rxKey, Nonce(ch.rx), Header(ch.rx), Parse(s.wire).value[8..]) in p.made
  }

  ghost predicate Started(p: Pair) {
    && Shaped(p)
    && p.sealed == [[], []] && p.received == [[], []] && p.made == []
    && p.ends[0].established && p.ends[1].established
    && p.ends[0].txKey == p.ends[1].rxKey && p.ends[1].txKey == p.ends[0].rxKey && p.ends[0].txKey != p.ends[1].txKey
    && p.ends[0].tx == p.ends[0].rx == p.ends[1].tx == p.ends[1].rx == 0
  }

  ghost predicate Reaches(c: Crypto, steps: seq<Step>, p: Pair)
    decreases |steps|
  {
    if steps == [] then Started(p)
    else
      var n := |steps| - 1;
      exists before: Pair :: Reaches(c, steps[..n], before) && Shaped(before) && steps[n].e < 2 &&
        NotForged(c, before, steps[n]) && p == Do(c, before, steps[n])
  }

  /** Every box was made by one end, as the record of that number. */
  ghost predicate Known(c: Crypto, p: Pair, m: Made)
    requires Shaped(p)
  {
    exists e, i :: 0 <= e < 2 && 0 <= i < |p.sealed[e]| && m == MadeBy(c, p.ends[e].txKey, i, p.sealed[e][i])
  }

  ghost predicate Short(texts: seq<Bytes>) {
    forall i :: 0 <= i < |texts| ==> |texts[i]| <= MAX_PLAINTEXT
  }

  /** No nonce is used twice under a key. */
  predicate NoReuse(made: seq<Made>) {
    forall x, y :: 0 <= x < y < |made| ==> (made[x].key, made[x].nonce) != (made[y].key, made[y].nonce)
  }

  ghost predicate Inv(c: Crypto, p: Pair) {
    && Shaped(p)
    && p.ends[0].txKey == p.ends[1].rxKey && p.ends[1].txKey == p.ends[0].rxKey && p.ends[0].txKey != p.ends[1].txKey
    && (forall e :: 0 <= e < 2 ==>
          && p.ends[e].established
          && p.ends[e].tx == |p.sealed[e]| <= MAX_SEQUENCE
          && p.ends[e].rx == |p.received[e]|
          && p.received[e] <= p.sealed[1 - e]
          && Short(p.sealed[e]))
    && (forall x :: 0 <= x < |p.made| ==> Known(c, p, p.made[x]))
    && NoReuse(p.made)
  }

  lemma KnownGrows(c: Crypto, p: Pair, p': Pair, m: Made)
    requires Shaped(p) && Shaped(p') && Known(c, p, m)
    requires forall e :: 0 <= e < 2 ==> p.ends[e].txKey == p'.ends[e].txKey && p.sealed[e] <= p'.sealed[e]
    ensures Known(c, p', m)
  {
    var e, i :| 0 <= e < 2 && 0 <= i < |p.sealed[e]| && m == MadeBy(c, p.ends[e].txKey, i, p.sealed[e][i]);
    assert p'.sealed[e][i] == p.sealed[e][i];
  }

  lemma SealingKeeps(c: Crypto, p: Pair, e: nat, plaintext: Bytes)
    requires Inv(c, p) && e < 2
    ensures Inv(c, Do(c, p, Sealing(e, plaintext)))
  {
    hide Nonce, Header, Record, Hex, Known, Short, MadeBy;
    var ch := p.ends[e];
    var p' := Do(c, p, Sealing(e, plaintext));
    if p' != p {
      var m := MadeBy(c, ch.txKey, ch.tx, plaintext);
      MadeUnder(c, ch.txKey, ch.tx, plaintext);
      assert p'.sealed[e] == p.sealed[e] + [plaintext];
      ShortPush(p.sealed[e], plaintext);
      KnownNow(c, p', e, ch.tx, m);
      forall x | 0 <= x < |p'.made| ensures Known(c, p', p'.made[x]) {
        if x < |p.made| { KnownGrows(c, p, p', p.made[x]); }
      }
      forall x | 0 <= x < |p.made| ensures (p.made[x].key, p.made[x].nonce) != (m.key, m.nonce) {
        FreshNonce(c, p, p.made[x], e);
      }
      Distinct(p.made, m);
    }
  }

  lemma MadeUnder(c: Crypto, key: Bytes, sequence: nat, plaintext: Bytes)
    ensures MadeBy(c, key, sequence, plaintext).key == key &&
            MadeBy(c, key, sequence, plaintext).nonce == Nonce(sequence)
  {}

  lemma ShortPush(texts: seq<Bytes>, text: Bytes)
    requires Short(texts) && |text| <= MAX_PLAINTEXT
    ensures Short(texts + [text])
  {}

  lemma Distinct(made: seq<Made>, m: Made)
    requires NoReuse(made)
    requires forall x :: 0 <= x < |made| ==> (made[x].key, made[x].nonce) != (m.key, m.nonce)
    ensures NoReuse(made + [m])
  {}

  lemma KnownNow(c: Crypto, p: Pair, e: nat, i: nat, m: Made)
    requires Shaped(p) && e < 2 && i < |p.sealed[e]| && m == MadeBy(c, p.ends[e].txKey, i, p.sealed[e][i])
    ensures Known(c, p, m)
  {}

  /** What is known was made under another key or with an earlier number. */
  lemma FreshNonce(c: Crypto, p: Pair, m: Made, e: nat)
    requires Inv(c, p) && e < 2 && Known(c, p, m) && p.ends[e].tx < MAX_SEQUENCE
    ensures m.key != p.ends[e].txKey || m.nonce != Nonce(p.ends[e].tx)
  {
    hide Nonce, Header;
    var d, i :| 0 <= d < 2 && 0 <= i < |p.sealed[d]| && m == MadeBy(c, p.ends[d].txKey, i, p.sealed[d][i]);
    if m.key == p.ends[e].txKey && m.nonce == Nonce(p.ends[e].tx) { NonceDetermines(i, p.ends[e].tx); }
  }

  /** The box that an end opens with its next number. */
  function Received(ch: Channel, wire: string): Made
    requires Parse(wire).Some?
  {
    Made(ch.rxKey, Nonce(ch.rx), Header(ch.rx), Parse(wire).value[8..])
  }

  lemma OpensBox(c: Crypto, ch: Channel, wire: string)
    requires Opened(c, ch, wire).1.Some?
    ensures Parse(wire).Some?
    ensures var m := Received(ch, wire);
            c.unlock(m.key, m.nonce, m.header, m.box) == Opened(c, ch, wire).1 && ch.rx < MAX_SEQUENCE
  {
    hide Parse, Nonce, Header;
  }

  lemma WasMade(c: Crypto, p: Pair, e: nat, wire: string)
    requires Shaped(p) && e < 2 && NotForged(c, p, Delivery(e, wire)) && Opened(c, p.ends[e], wire).1.Some?
    ensures Parse(wire).Some? && Received(p.ends[e], wire) in p.made
  {
    hide Parse, Nonce, Header, Opened;
    OpensBox(c, p.ends[e], wire);
  }

  /** Whatever opens is the other end's next unopened plaintext. */
  lemma OpensNext(c: Crypto, p: Pair, e: nat, wire: string)
    requires Ideal(c) && Inv(c, p) && e < 2 && NotForged(c, p, Delivery(e, wire))
    requires Opened(c, p.ends[e], wire).1.Some?
    ensures var n := p.ends[e].rx;
            n < |p.sealed[1 - e]| && Opened(c, p.ends[e], wire).1 == Some(p.sealed[1 - e][n])
  {
    hide Nonce, Header, Inv, Known, Ideal, Parse, Opened, NotForged;
    InvAt(c, p, e);
    OpensBox(c, p.ends[e], wire);
    WasMade(c, p, e, wire);
    var m := Received(p.ends[e], wire);
    var d, i := MakerOf(c, p, m);
    NonceDetermines(i, p.ends[e].rx);
    LockOpens(c, m.key, m.nonce, m.header, p.sealed[d][i]);
  }

  /** The text an end sent, or will send, with a number. */
  function SentText(c: Crypto, p: Pair, e: nat, n: nat): string
    requires Shaped(p) && e < 2 && n < |p.sealed[e]|
  {
    PREFIX + Hex(Record(c, p.ends[e].txKey, n, p.sealed[e][n]))
  }

  /** An end accepts exactly one text: the other end's next. Repeated, skipped, reordered and altered texts, even
      ones that only spell the same bytes differently, are refused. */
  lemma AcceptsExactlyNext(c: Crypto, p: Pair, e: nat, wire: string)
    requires Ideal(c) && Inv(c, p) && e < 2 && NotForged(c, p, Delivery(e, wire))
    ensures var n := p.ends[e].rx;
            Opened(c, p.ends[e], wire).1.Some? <==>
            n < |p.sealed[1 - e]| && wire == SentText(c, p, 1 - e, n)
  {
    hide Nonce, Header, Inv, Known, Hex, NotForged, Ideal;
    InvAt(c, p, e);
    var ch := p.ends[e];
    var n := ch.rx;
    if Opened(c, ch, wire).1.Some? {
      OpensNext(c, p, e, wire);
      var record := Parse(wire).value;
      OpensIsLocked(c, ch.rxKey, Nonce(n), Header(n), record[8..]);
      assert record == record[..8] + record[8..];
      ParseForth(wire);
    } else if n < |p.sealed[1 - e]| && wire == SentText(c, p, 1 - e, n) {
      var from := Channel("", true, true, true, [], [], ch.rxKey, [], n, 0);
      SealOpens(c, from, ch, p.sealed[1 - e][n]);
    }
  }

  lemma ParseForth(wire: string)
    requires Parse(wire).Some?
    ensures wire == PREFIX + Hex(Parse(wire).value)
  {
    hide Hex, Unhex;
    HexUnhex(wire[5..]);
  }

  lemma InvAt(c: Crypto, p: Pair, e: nat)
    requires Inv(c, p) && e < 2
    ensures Shaped(p) && p.ends[e].rxKey == p.ends[1 - e].txKey && p.ends[0].txKey != p.ends[1].txKey
    ensures p.ends[e].established && Short(p.sealed[1 - e])
    ensures p.ends[e].rx == |p.received[e]| && p.received[e] <= p.sealed[1 - e] && |p.sealed[1 - e]| <= MAX_SEQUENCE
  {}

  lemma MakerOf(c: Crypto, p: Pair, m: Made) returns (d: nat, i: nat)
    requires Inv(c, p) && m in p.made
    ensures d < 2 && i < |p.sealed[d]| <= MAX_SEQUENCE && m == MadeBy(c, p.ends[d].txKey, i, p.sealed[d][i])
  {
    hide Nonce, Header;
    var x :| 0 <= x < |p.made| && p.made[x] == m;
    assert Known(c, p, p.made[x]);
    var d0, i0 :| 0 <= d0 < 2 && 0 <= i0 < |p.sealed[d0]| && m == MadeBy(c, p.ends[d0].txKey, i0, p.sealed[d0][i0]);
    d, i := d0, i0;
  }

  lemma OpenedCounts(c: Crypto, ch: Channel, wire: string)
    ensures Opened(c, ch, wire).1.Some? ==> Opened(c, ch, wire).0 == ch.(rx := ch.rx + 1)
  {}

  lemma DeliveryKeeps(c: Crypto, p: Pair, e: nat, wire: string)
    requires Ideal(c) && Inv(c, p) && e < 2 && NotForged(c, p, Delivery(e, wire))
    ensures Inv(c, Do(c, p, Delivery(e, wire)))
  {
    hide Nonce, Header, Known, NotForged, Parse, Short, Opened, MadeBy, Ideal;
    OpenedCounts(c, p.ends[e], wire);
    var p' := Do(c, p, Delivery(e, wire));
    if Opened(c, p.ends[e], wire).1.Some? {
      OpensNext(c, p, e, wire);
      forall x | 0 <= x < |p'.made| ensures Known(c, p', p'.made[x]) { KnownGrows(c, p, p', p.made[x]); }
    }
  }

  lemma {:induction false} ReachableInv(c: Crypto, steps: seq<Step>, p: Pair)
    requires Ideal(c) && Reaches(c, steps, p)
    ensures Inv(c, p)
    decreases |steps|
  {
    hide Do, NotForged, Inv, Ideal;
    if steps == [] {
      StartedInv(c, p);
    } else {
      var n := |steps| - 1;
      var before: Pair :| Reaches(c, steps[..n], before) && Shaped(before) && steps[n].e < 2 &&
        NotForged(c, before, steps[n]) && p == Do(c, before, steps[n]);
      ReachableInv(c, steps[..n], before);
      match steps[n]
      case Sealing(e, plaintext) => SealingKeeps(c, before, e, plaintext);
      case Delivery(e, wire) => DeliveryKeeps(c, before, e, wire);
    }
  }

  lemma StartedInv(c: Crypto, p: Pair)
    requires Started(p)
    ensures Inv(c, p)
  {}

  /** Whatever texts the network delivers, what an end has received is, in order and without gaps, a prefix of
      what the other end has sealed; and no nonce is ever used twice under a key. */
  lemma OpenedIsPrefix(c: Crypto, steps: seq<Step>, p: Pair)
    requires Ideal(c) && Reaches(c, steps, p)
    ensures Shaped(p) && p.received[0] <= p.sealed[1] && p.received[1] <= p.sealed[0]
    ensures NoReuse(p.made)
  {
    ReachableInv(c, steps, p);
  }
}
