/** What the keys of a channel are bound to, and the bytes on the wire. */
module CloudBinding {
  import opened Common
  import opened HexText
  import opened CloudChannel

  /** No two inputs have the same HMAC, as for an ideal hash. */
  ghost predicate Injective(c: Crypto) {
    forall k, m, k', m' :: c.hmac(k, m) == c.hmac(k', m') ==> k == k' && m == m'
  }

  /** This can be had together with everything else that is assumed. */
  lemma InjectiveIsPossible() returns (c: Crypto)
    ensures Ideal(c) && Injective(c)
  {
    var ideal := IdealIsPossible();
    c := ideal.(hmac := (k, m) => Written(k, m));
    assert Label(true)[0] == 'c' as int && Label(false)[0] == 's' as int;
    forall k: Bytes, m: Bytes, k': Bytes, m': Bytes | Written(k, m) == Written(k', m') ensures k == k' && m == m' {
      WrittenDetermines(k, m, k', m');
    }
    assert forall k :: c.hmac(k, Label(true)) != c.hmac(k, Label(false));
  }

  /** A key and a message in one string: as many ones as the key is long, a zero, the key, the message. */
  function Written(k: Bytes, m: Bytes): Bytes { seq(|k|, _ => 1) + [0] + k + m }

  lemma WrittenDetermines(k: Bytes, m: Bytes, k': Bytes, m': Bytes)
    requires Written(k, m) == Written(k', m')
    ensures k == k' && m == m'
  {
    var w := Written(k, m);
    assert w[|k|] == 0 && w[|k'|] == 0;
    assert forall i :: 0 <= i < |k| ==> w[i] == 1;
    assert forall i :: 0 <= i < |k'| ==> w[i] == 1;
    assert w[|k| + 1..2 * |k| + 1] == k && w[2 * |k| + 1..] == m;
    assert w[|k| + 1..2 * |k| + 1] == k' && w[2 * |k| + 1..] == m';
  }

  // ---- the key schedule ----

  /** HKDF of RFC 5869, section 2, with an output of one block. */
  function Hkdf(c: Crypto, salt: Bytes, secret: Bytes, info: Bytes): Bytes {
    var prk := c.hmac(salt, secret);
    c.hmac(prk, info + [1])
  }

  /** An end that can exchange keys. */
  predicate Open(ch: Channel) {
    ch.valid && !ch.established && LowerHexDigest(ch.route) && |ch.public_| == 32
  }

  function ClientPublic(ch: Channel, remote: Bytes): Bytes { if ch.client then ch.public_ else remote }
  function ServerPublic(ch: Channel, remote: Bytes): Bytes { if ch.client then remote else ch.public_ }

  /** The room's route between the label and the public keys, the client's before the server's. */
  function SaltOf(ch: Channel, remote: Bytes): Bytes {
    Ascii("dusklight-cloud-channel-v1:") + RouteBytes(ch.route) + ClientPublic(ch, remote) + ServerPublic(ch, remote)
  }

  /** The name of a direction: from the client to the server, or back. */
  function Direction(up: bool): Bytes { if up then Ascii("client-to-server") else Ascii("server-to-client") }

  /** An exchange gives each direction its HKDF key: from the agreed secret, salted with the room's route and both
      public keys, under the name of the direction. The client sends and the server receives under the first. */
  lemma KeysAreHkdf(c: Crypto, ch: Channel, remotePublic: string)
    requires Exchanged(c, ch, remotePublic).1
    ensures Unhex(remotePublic).Some?
    ensures var after := Exchanged(c, ch, remotePublic).0;
            var remote := Unhex(remotePublic).value;
            var secret := c.agree(ch.private_, remote);
            var up := Hkdf(c, SaltOf(ch, remote), secret, Direction(true));
            var down := Hkdf(c, SaltOf(ch, remote), secret, Direction(false));
            && (if ch.client then after.txKey == up && after.rxKey == down
                else after.txKey == down && after.rxKey == up)
            && after.established && after.valid
  {
    hide Unhex, AllZero, Wipe, RouteBytes, Ascii;
  }

  /** An exchange succeeds once, with a well-formed key that gives a secret other than zero. A secret of zero makes the
      end useless; anything else that fails changes nothing. */
  lemma ExchangesExactly(c: Crypto, ch: Channel, remotePublic: string)
    ensures var (after, ok) := Exchanged(c, ch, remotePublic);
            var tried := ch.valid && !ch.established && LowerHexDigest(remotePublic);
            && (ok <==> tried && c.agree(ch.private_, Unhex(remotePublic).value) !=
                                 Zeros(|c.agree(ch.private_, Unhex(remotePublic).value)|))
            && (tried && !ok ==> !after.valid && !after.established)
            && (!tried ==> after == ch)
            && after.tx == ch.tx && after.rx == ch.rx && after.public_ == ch.public_
  {
    hide Unhex, AllZero, Wipe, RouteBytes, Ascii;
    if LowerHexDigest(remotePublic) { AllZeroExactly(c.agree(ch.private_, Unhex(remotePublic).value)); }
  }

  function Zeros(n: nat): Bytes { seq(n, _ => 0) }

  lemma AllZeroExactly(b: Bytes)
    ensures AllZero(b) <==> b == Zeros(|b|)
  {}

  // ---- what the keys are bound to ----

  /** A key of an end: the one it sends under, or the one it receives under. */
  function KeyOf(ch: Channel, sending: bool): Bytes { if sending then ch.txKey else ch.rxKey }

  /** Two ends hold the same key only if they are in the same room, with the same client and the same server, and use it
      for the same direction. */
  lemma KeysBind(c: Crypto, x: Channel, xRemote: string, xSends: bool, y: Channel, yRemote: string, ySends: bool)
    requires Injective(c) && Open(x) && Open(y)
    requires Exchanged(c, x, xRemote).1 && Exchanged(c, y, yRemote).1
    requires KeyOf(Exchanged(c, x, xRemote).0, xSends) == KeyOf(Exchanged(c, y, yRemote).0, ySends)
    ensures Unhex(xRemote).Some? && Unhex(yRemote).Some?
    ensures x.route == y.route
    ensures ClientPublic(x, Unhex(xRemote).value) == ClientPublic(y, Unhex(yRemote).value)
    ensures ServerPublic(x, Unhex(xRemote).value) == ServerPublic(y, Unhex(yRemote).value)
    ensures (x.client == xSends) == (y.client == ySends)
  {
    hide Unhex, RouteBytes, Ascii, Exchanged, Hkdf, Injective, Open, ClientPublic, ServerPublic;
    KeysAreHkdf(c, x, xRemote);
    KeysAreHkdf(c, y, yRemote);
    RemoteIsDigest(c, x, xRemote);
    RemoteIsDigest(c, y, yRemote);
    var (p, q) := (Unhex(xRemote).value, Unhex(yRemote).value);
    SaltDetermines(x, p, y, q);
    var (s, t) := (SaltOf(x, p), SaltOf(y, q));
    var (u, v) := (c.agree(x.private_, p), c.agree(y.private_, q));
    HkdfDetermines(c, s, u, Direction(x.client == xSends), t, v, Direction(y.client == ySends));
    DirectionsDiffer();
  }

  lemma DirectionsDiffer()
    ensures Direction(true) != Direction(false)
  {
    assert Direction(true)[0] == 'c' as int && Direction(false)[0] == 's' as int;
  }

  lemma HkdfDetermines(c: Crypto, s: Bytes, u: Bytes, i: Bytes, s': Bytes, u': Bytes, i': Bytes)
    requires Injective(c)
    ensures Hkdf(c, s, u, i) == Hkdf(c, s', u', i') ==> s == s' && u == u' && i == i'
  {
    if Hkdf(c, s, u, i) == Hkdf(c, s', u', i') {
      assert i == (i + [1])[..|i + [1]| - 1] && i' == (i' + [1])[..|i' + [1]| - 1];
    }
  }

  lemma RemoteIsDigest(c: Crypto, ch: Channel, remotePublic: string)
    requires Exchanged(c, ch, remotePublic).1
    ensures LowerHexDigest(remotePublic) && Unhex(remotePublic).Some? && |Unhex(remotePublic).value| == 32
  {
    hide Unhex, AllZero, Ascii, RouteBytes;
  }

  lemma SaltDetermines(x: Channel, p: Bytes, y: Channel, q: Bytes)
    requires Open(x) && Open(y) && |p| == |q| == 32
    ensures SaltOf(x, p) == SaltOf(y, q) ==>
              && x.route == y.route && ClientPublic(x, p) == ClientPublic(y, q)
              && ServerPublic(x, p) == ServerPublic(y, q)
  {
    hide Unhex, Ascii, RouteBytes;
    SaltLengths(x);
    SaltLengths(y);
    if SaltOf(x, p) == SaltOf(y, q) {
      var salt := SaltOf(x, p);
      assert salt[27..91] == RouteBytes(x.route) && salt[27..91] == RouteBytes(y.route);
      assert salt[91..123] == ClientPublic(x, p) && salt[91..123] == ClientPublic(y, q);
      assert salt[123..] == ServerPublic(x, p) && salt[123..] == ServerPublic(y, q);
      DigestChars(x.route);
      DigestChars(y.route);
      RouteBytesDetermine(x.route, y.route);
    }
  }

  lemma SaltLengths(ch: Channel)
    ensures |Ascii("dusklight-cloud-channel-v1:")| == 27 && |RouteBytes(ch.route)| == |ch.route|
  {}

  lemma DigestChars(text: string)
    requires LowerHexDigest(text)
    ensures forall i :: 0 <= i < |text| ==> text[i] < 128 as char
  {
    hide Unhex;
    UnhexExactly(text);
  }

  /** The texts that are digests: 64 digits, none of them a capital. */
  lemma DigestExactly(text: string)
    ensures LowerHexDigest(text) <==>
            |text| == 64 && forall i :: 0 <= i < 64 ==> '0' <= text[i] <= '9' || 'a' <= text[i] <= 'f'
  {
    hide Unhex;
    UnhexExactly(text);
  }

  predicate HexDigit(ch: char) { '0' <= ch <= '9' || 'a' <= ch <= 'f' }

  lemma {:induction false} UnhexExactly(text: string)
    ensures Unhex(text).Some? <==> |text| % 2 == 0 && forall i :: 0 <= i < |text| ==> HexDigit(text[i])
    decreases |text|
  {
    if |text| >= 2 && |text| % 2 == 0 {
      var n := |text| - 2;
      UnhexExactly(text[..n]);
      assert forall i :: 0 <= i < n ==> text[..n][i] == text[i];
    }
  }

  lemma RouteBytesDetermine(r: string, s: string)
    requires |r| == |s| && RouteBytes(r) == RouteBytes(s)
    requires forall i :: 0 <= i < |r| ==> r[i] < 128 as char && s[i] < 128 as char
    ensures r == s
  {
    forall i | 0 <= i < |r| ensures r[i] == s[i] {
      assert RouteBytes(r)[i] == RouteBytes(s)[i];
      CharBack(r[i]);
      CharBack(s[i]);
    }
  }

  lemma CharBack(ch: char)
    requires ch < 128 as char
    ensures ch as int % 256 == ch as int
  {}

  /** If what one end sends under is what another receives under, they are a client and a server of the same room, each
      with the other's public key. */
  lemma PartnersAgree(c: Crypto, x: Channel, xRemote: string, y: Channel, yRemote: string)
    requires Injective(c) && Open(x) && Open(y)
    requires Exchanged(c, x, xRemote).1 && Exchanged(c, y, yRemote).1
    requires Exchanged(c, x, xRemote).0.txKey == Exchanged(c, y, yRemote).0.rxKey
    ensures x.route == y.route && x.client != y.client
    ensures Unhex(xRemote) == Some(y.public_) && Unhex(yRemote) == Some(x.public_)
  {
    hide Exchanged, Unhex, Injective, Open;
    KeysBind(c, x, xRemote, true, y, yRemote, false);
  }

  /** Ends of different rooms share no key at all. */
  lemma RoomsShareNoKey(c: Crypto, x: Channel, xRemote: string, xSends: bool, y: Channel, yRemote: string, ySends: bool)
    requires Injective(c) && Open(x) && Open(y) && x.route != y.route
    requires Exchanged(c, x, xRemote).1 && Exchanged(c, y, yRemote).1
    ensures KeyOf(Exchanged(c, x, xRemote).0, xSends) != KeyOf(Exchanged(c, y, yRemote).0, ySends)
  {
    hide Exchanged, Unhex, Injective, Open, KeyOf;
    if KeyOf(Exchanged(c, x, xRemote).0, xSends) == KeyOf(Exchanged(c, y, yRemote).0, ySends) {
      KeysBind(c, x, xRemote, xSends, y, yRemote, ySends);
    }
  }

  /** What a new end can be: without a route that is a digest, or without random bytes, it is of no use; else its public
      key is that of the random bytes, and it is open to an exchange. */
  lemma NewEnd(c: Crypto, route: string, client: bool, random: Option<Bytes>)
    requires forall p :: |c.publicOf(p)| == 32
    ensures var ch := New(c, route, client, random);
            && ch.client == client && !ch.established && ch.tx == ch.rx == 0
            && (Open(ch) <==> ch.valid)
            && (ch.valid <==> LowerHexDigest(route) && random.Some?)
            && (ch.valid ==> ch.route == route && ch.private_ == random.value &&
                             Unhex(PublicKey(ch)) == Some(c.publicOf(random.value)))
            && (!ch.valid ==> PublicKey(ch) == "" && forall remote :: Exchanged(c, ch, remote) == (ch, false))
  {
    hide Unhex, Hex;
    if random.Some? { UnhexHex(c.publicOf(random.value)); }
  }

  // ---- the bytes on the wire ----

  /** A record is sealed exactly if there are keys, the contents are at most 16384 bytes, and the number is a safe
      integer of JavaScript below the largest. The number goes up by one. */
  lemma SealsExactly(c: Crypto, ch: Channel, plaintext: Bytes)
    ensures var (after, wire) := Sealed(c, ch, plaintext);
            && (wire != "" <==> ch.established && |plaintext| <= 16384 && ch.tx < 9007199254740991)
            && after == if wire != "" then ch.(tx := ch.tx + 1) else ch
  {
    hide Hex, Record;
  }

  /** The text is the prefix and the digits of the record: the number in eight bytes, most significant first, then the
      box, which is made under a nonce of four zeros and these eight bytes, and bound to the prefix and these eight. */
  lemma WireFormat(c: Crypto, ch: Channel, plaintext: Bytes)
    requires Sealed(c, ch, plaintext).1 != ""
    ensures var wire := Sealed(c, ch, plaintext).1;
            && wire[..5] == "DCR1:"
            && Unhex(wire[5..]).Some?
            && var record := Unhex(wire[5..]).value;
               && |record| >= 8
               && FromBigEndian(record[..8]) == ch.tx
               && record[8..] == c.lock(ch.txKey, [0, 0, 0, 0] + record[..8],
                                        [0x44, 0x43, 0x52, 0x31, 0x3A] + record[..8], plaintext)
  {
    hide Hex, Unhex, BigEndian;
    var record := Record(c, ch.txKey, ch.tx, plaintext);
    var wire := Sealed(c, ch, plaintext).1;
    assert wire[5..] == Hex(record);
    UnhexHex(record);
    assert record[..8] == BigEndian(ch.tx, 8);
    Power256Of8();
    BigEndianBack(ch.tx, 8);
    assert Ascii(PREFIX) == [0x44, 0x43, 0x52, 0x31, 0x3A];
  }

  /** A text is opened exactly if there are keys and a number left, it is the prefix and the digits of a record of the
      next number, and the box opens under what such a record is made with. Only then does anything change. */
  lemma OpensExactly(c: Crypto, ch: Channel, wire: string)
    ensures var (after, plaintext) := Opened(c, ch, wire);
            && (plaintext.Some? <==>
                  && ch.established && ch.rx < 9007199254740991
                  && 53 <= |wire| <= 32821 && wire[..5] == "DCR1:" && Unhex(wire[5..]).Some?
                  && var record := Unhex(wire[5..]).value;
                     && record[..8] == BigEndian(ch.rx, 8)
                     && c.unlock(ch.rxKey, Nonce(ch.rx), Header(ch.rx), record[8..]).Some?)
            && (plaintext.Some? ==>
                  plaintext == c.unlock(ch.rxKey, Nonce(ch.rx), Header(ch.rx), Unhex(wire[5..]).value[8..]))
            && after == if plaintext.Some? then ch.(rx := ch.rx + 1) else ch
  {
    hide BigEndian, Nonce, Header;
  }

  /** A byte is written as the two digits of its value in base 16, the high one first. */
  lemma HexDigits(b: Byte)
    ensures var digits := "0123456789abcdef"; Hex([b]) == [digits[b / 16], digits[b % 16]]
  {
    assert [b][..0] == [];
    assert Hex([]) == "";
  }
}
