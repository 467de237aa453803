/** Crypto framing (NetTokenizedTripleDesEncryption): the server keeps one key
    per connection and passes unkeyed traffic through; the client holds its
    single session key. An encrypted frame is the original bit length as a
    uint32, then the ciphertext of the original bytes; a hail frame puts the
    token in front, in plaintext. The cipher itself is abstract. */
module TripleDes {
  import opened Wire
  import opened Contracts

  datatype KeyIv = KeyIv(key: Bytes, iv: Bytes)

  /** The sizes the TripleDES `Key` and `IV` setters accept: a 128- or 192-bit
      key and a 64-bit IV; any other size throws `CryptographicException`. */
  predicate KeySizeValid(key: Bytes)
  {
    |key| == 16 || |key| == 24
  }

  predicate IvSizeValid(iv: Bytes)
  {
    |iv| == 8
  }

  /** The key and IV a new provider holds after `Key = key; IV = iv`, when it
      was created with the random `generated`: a setter that throws leaves the
      value it would have replaced, and a throwing `Key` skips the `IV` setter. */
  function Installed(key: Bytes, iv: Bytes, generated: KeyIv): (k: KeyIv)
    ensures KeySizeValid(key) && IvSizeValid(iv) ==> k == KeyIv(key, iv)
    ensures !KeySizeValid(key) ==> k == generated
    ensures KeySizeValid(key) && !IvSizeValid(iv) ==> k == KeyIv(key, generated.iv)
  {
    if !KeySizeValid(key) then generated
    else if !IvSizeValid(iv) then KeyIv(key, generated.iv)
    else KeyIv(key, iv)
  }

  /** What the two setters do to the caller: they throw exactly when a size is wrong. */
  function SettersOutcome(key: Bytes, iv: Bytes): (r: Outcome)
    ensures r.Pass? <==> KeySizeValid(key) && IvSizeValid(iv)
    ensures r.Fail? ==> r.error == Cryptographic
  {
    if KeySizeValid(key) && IvSizeValid(iv) then Pass else Fail(Cryptographic)
  }

  /** The block cipher with its key schedule; `dec` fails on malformed input. */
  datatype Cipher = Cipher(enc: (KeyIv, Bytes) -> Bytes, dec: (KeyIv, Bytes) -> Option<Bytes>)

  /** The law assumed of the cipher: decryption undoes encryption under the same key. */
  ghost predicate Inverse(c: Cipher)
  {
    forall k, b :: c.dec(k, c.enc(k, b)) == Some(b)
  }

  /** The `byteLen` bytes that `cs.Read` leaves in a freshly allocated buffer. */
  function Fill(plain: Bytes, n: nat): (r: Bytes)
    ensures |r| == n
    ensures |plain| >= n ==> r == plain[..n]
  {
    if |plain| >= n then plain[..n] else plain + seq(n - |plain|, _ => 0 as byte)
  }

  /** `[uint32 bit length][ciphertext of the content]`. */
  function Frame(c: Cipher, k: KeyIv, content: Bytes, bits: nat): Bytes
  {
    UInt32Bytes(bits % TwoTo32) + c.enc(k, content)
  }

  /** `[token string][uint32 bit length][ciphertext of the content]`. */
  function HailFrame(c: Cipher, k: KeyIv, token: Bytes, content: Bytes, bits: nat): Bytes
  {
    StringBytes(token) + Frame(c, k, content, bits)
  }

  /** Reading a frame: the header at `headerAt` of the readable bytes, the
      ciphertext from `cipherFrom` to the end of the content; yields the new
      content and bit length. A header too large for an `int` is refused. */
  function Unwrap(c: Cipher, k: KeyIv, content: Bytes, readable: Bytes, headerAt: nat, cipherFrom: nat): (r: Result<(Bytes, nat)>)
    requires cipherFrom <= |content|
    ensures r.Ok? ==> |r.value.0| == BytesToHoldBits(r.value.1)
  {
    if headerAt + 4 > |readable| then Err(ReadPastEnd)
    else
      var header := UInt32At(readable, headerAt);
      if header >= TwoTo31 then Err(Overflow)
      else match c.dec(k, content[cipherFrom..])
        case None => Err(Cryptographic)
        case Some(plain) => Ok((Fill(plain, BytesToHoldBits(header)), header))
  }

  lemma UInt32AtPrefix(h: Bytes, rest: Bytes)
    requires |h| == 4
    ensures UInt32At(h + rest, 0) == UInt32At(h, 0)
  {
    assert (h + rest)[..4] == h;
  }

  lemma UInt32AtShift(pre: Bytes, g: Bytes)
    requires 4 <= |g|
    ensures UInt32At(pre + g, |pre|) == UInt32At(g, 0)
  {
    var f := pre + g;
    assert f[|pre|] == g[0] && f[|pre| + 1] == g[1] && f[|pre| + 2] == g[2] && f[|pre| + 3] == g[3];
  }

  /** A frame after a prefix unwraps as the frame alone. */
  lemma UnwrapShift(c: Cipher, k: KeyIv, pre: Bytes, g: Bytes)
    requires 4 <= |g|
    ensures Unwrap(c, k, pre + g, pre + g, |pre|, |pre| + 4) == Unwrap(c, k, g, g, 0, 4)
  {
    UInt32AtShift(pre, g);
    assert (pre + g)[|pre| + 4..] == g[4..];
  }

  /** Round trip of a frame: under the cipher law, unwrapping a frame that was
      read from its start gives back the original bytes and bit length. */
  lemma FrameRoundTrip(c: Cipher, k: KeyIv, content: Bytes, bits: nat)
    requires Inverse(c) && bits < TwoTo31 && |content| == BytesToHoldBits(bits)
    ensures var f := Frame(c, k, content, bits);
      4 <= |f| && Unwrap(c, k, f, f, 0, 4) == Ok((content, bits))
  {
    var f := Frame(c, k, content, bits);
    assert bits % TwoTo32 == bits;
    var h := UInt32Bytes(bits);
    assert f == h + c.enc(k, content);
    UInt32RoundTrip(bits);
    UInt32AtPrefix(h, c.enc(k, content));
    assert f[4..] == c.enc(k, content);
    assert c.dec(k, c.enc(k, content)) == Some(content);
    assert Fill(content, BytesToHoldBits(bits)) == content by {
      assert content[..|content|] == content;
    }
  }

  /** Round trip of a hail: the token reads back in plaintext, and unwrapping
      from the position after it gives back the credentials' bytes. */
  lemma HailRoundTrip(c: Cipher, k: KeyIv, token: Bytes, content: Bytes, bits: nat)
    requires Inverse(c) && bits < TwoTo31 && |content| == BytesToHoldBits(bits)
    ensures var f := HailFrame(c, k, token, content, bits); var t := |StringBytes(token)|;
      && StringAt(f, 0) == Some((token, t))
      && t + 4 <= |f|
      && Unwrap(c, k, f, f, t, t + 4) == Ok((content, bits))
  {
    var f := HailFrame(c, k, token, content, bits);
    var t := |StringBytes(token)|;
    assert f[0..t] == StringBytes(token);
    StringRoundTrip(token, f, 0);
    FrameRoundTrip(c, k, content, bits);
    UnwrapShift(c, k, StringBytes(token), Frame(c, k, content, bits));
  }

  /** The provider's encryptor: one key per connection. */
  class ServerEncryptor {
    const cipher: Cipher
    var providers: map<Connection, KeyIv>

    constructor (c: Cipher)
      ensures cipher == c && providers == map[]
    {
      cipher := c;
      providers := map[];
    }

    /** Installs a new provider for `conn`, replacing any earlier one (the
        indexer when the connection has one, `Add` otherwise), then sets its key
        and IV; `generated` is the random key and IV the new provider starts
        with. A setter that throws leaves the new provider installed. */
    method ImportKeyForConnection(conn: Connection, key: Bytes, iv: Bytes, generated: KeyIv) returns (r: Outcome)
      modifies this`providers
      ensures r == SettersOutcome(key, iv)
      ensures conn in providers && providers[conn] == Installed(key, iv, generated)
      ensures providers.Keys == old(providers.Keys) + {conn}
      ensures forall other :: other in old(providers) && other != conn ==> other in providers && providers[other] == old(providers[other])
      ensures providers == old(providers)[conn := Installed(key, iv, generated)]
    {
      var provider := generated;
      providers := providers[conn := provider];
      if !KeySizeValid(key) {
        return Fail(Cryptographic);
      }
      provider := KeyIv(key, provider.iv);
      providers := providers[conn := provider];
      if !IvSizeValid(iv) {
        return Fail(Cryptographic);
      }
      provider := KeyIv(key, iv);
      providers := providers[conn := provider];
      r := Pass;
    }

    /** Rewrites `msg` as a frame for `reciever`; an unkeyed receiver passes
        through, a null receiver makes the dictionary lookup throw. */
    method Encrypt(msg: NetMessage, reciever: Option<Connection>) returns (r: Outcome)
      requires msg.Valid() && msg.bitLength % 8 == 0
      modifies msg`data, msg`bitLength
      ensures msg.Valid() && msg.bitLength % 8 == 0
      ensures r == (if reciever.None? then Fail(ArgumentNull) else Pass)
      ensures (reciever.None? || reciever.value !in providers) ==> msg.data == old(msg.data) && msg.bitLength == old(msg.bitLength)
      ensures reciever.Some? && reciever.value in providers ==>
        msg.data == Frame(cipher, providers[reciever.value], old(msg.Content()), old(msg.bitLength))
        && msg.bitLength == 8 * |msg.data|
    {
      if reciever.None? {
        return Fail(ArgumentNull);
      }
      if reciever.value !in providers {
        return Pass;
      }
      var provider := providers[reciever.value];
      var unEncLenBits := msg.bitLength;
      var arr := cipher.enc(provider, msg.data[..BytesToHoldBits(msg.bitLength)]);
      msg.bitLength := 0;
      msg.WriteUInt32(unEncLenBits % TwoTo32);
      ghost var d1 := msg.data;
      msg.WriteBytes(arr);
      assert d1 == UInt32Bytes(unEncLenBits % TwoTo32) && msg.data == d1 + arr;
      AlignedBits(0, |arr| + 4);
      msg.bitLength := (|arr| + 4) * 8;
      r := Pass;
    }

    /** Unwraps `msg` in place with its sender's key, reading the header at the
        current position; an unkeyed sender passes through. */
    method Decrypt(msg: NetMessage) returns (r: Outcome)
      requires msg.Valid()
      modifies msg
      ensures msg.Valid()
      ensures msg.sender.None? ==> r == Fail(ArgumentNull) && unchanged(msg)
      ensures msg.sender.Some? && msg.sender.value !in providers ==> r == Pass && unchanged(msg)
      ensures msg.sender.Some? && msg.sender.value in providers ==>
        var u := Unwrap(cipher, providers[msg.sender.value], old(msg.Content()), old(msg.Readable()),
                        old(msg.readPos), if old(msg.readPos) + 4 <= |old(msg.Content())| then old(msg.readPos) + 4 else 0);
        && (u.Err? ==> r == Fail(u.error) && msg.data == old(msg.data) && msg.bitLength == old(msg.bitLength))
        && (u.Err? && u.error == ReadPastEnd ==> msg.readPos == old(msg.readPos))
        && (u.Err? && u.error != ReadPastEnd ==> msg.readPos == old(msg.readPos) + 4)
        && (u.Ok? ==> r == Pass && msg.data == u.value.0 && msg.bitLength == u.value.1 && msg.readPos == 0)
    {
      if msg.sender.None? {
        return Fail(ArgumentNull);
      }
      if msg.sender.value !in providers {
        return Pass;
      }
      var provider := providers[msg.sender.value];
      var header := msg.ReadUInt32();
      if header.None? {
        return Fail(ReadPastEnd);
      }
      if header.value >= TwoTo31 {
        return Fail(Overflow);
      }
      var unEncLenBits := header.value;
      var cipherText := msg.data[msg.readPos..BytesToHoldBits(msg.bitLength)];
      var plain := cipher.dec(provider, cipherText);
      if plain.None? {
        return Fail(Cryptographic);
      }
      var byteLen := BytesToHoldBits(unEncLenBits);
      msg.data := Fill(plain.value, byteLen);
      msg.bitLength := unEncLenBits;
      msg.readPos := 0;
      r := Pass;
    }
  }

  /** The client's encryptor: the single key imported for its session. */
  class ClientEncryptor {
    const cipher: Cipher
    var provider: Option<KeyIv>

    constructor (c: Cipher)
      ensures cipher == c && provider == None
    {
      cipher := c;
      provider := None;
    }

    /** Replaces the provider with a new one, whose random key and IV are
        `generated`, then sets its key and IV; a setter that throws leaves the
        new provider in place. */
    method ImportRemoteTripleDes(key: Bytes, iv: Bytes, generated: KeyIv) returns (r: Outcome)
      modifies this`provider
      ensures r == SettersOutcome(key, iv)
      ensures provider == Some(Installed(key, iv, generated))
    {
      provider := Some(generated);
      if !KeySizeValid(key) {
        return Fail(Cryptographic);
      }
      provider := Some(KeyIv(key, generated.iv));
      if !IvSizeValid(iv) {
        return Fail(Cryptographic);
      }
      provider := Some(KeyIv(key, iv));
      r := Pass;
    }

    /** Rewrites the credentials in `msg` as a hail: the token in plaintext, then a frame. */
    method EncryptHail(msg: NetMessage, token: Bytes) returns (r: Outcome)
      requires msg.Valid() && msg.bitLength % 8 == 0
      modifies msg`data, msg`bitLength
      ensures msg.Valid() && msg.bitLength % 8 == 0
      ensures r == (if provider.None? then Fail(NullReference) else Pass)
      ensures provider.None? ==> msg.data == old(msg.data) && msg.bitLength == old(msg.bitLength)
      ensures provider.Some? ==>
        msg.data == HailFrame(cipher, provider.value, token, old(msg.Content()), old(msg.bitLength))
        && msg.bitLength == 8 * |msg.data|
    {
      if provider.None? {
        return Fail(NullReference);
      }
      var unEncLenBits := msg.bitLength;
      var arr := cipher.enc(provider.value, msg.data[..BytesToHoldBits(msg.bitLength)]);
      msg.bitLength := 0;
      msg.WriteString(token);
      ghost var d1 := msg.data;
      var tokenLength := BytesToHoldBits(msg.bitLength);
      msg.WriteUInt32(unEncLenBits % TwoTo32);
      ghost var d2 := msg.data;
      msg.WriteBytes(arr);
      assert d1 == StringBytes(token) && d2 == d1 + UInt32Bytes(unEncLenBits % TwoTo32) && msg.data == d2 + arr;
      assert |msg.data| == tokenLength + 4 + |arr|;
      AlignedBits(0, |arr| + 4 + tokenLength);
      msg.bitLength := (|arr| + 4 + tokenLength) * 8;
      r := Pass;
    }

    /** Rewrites `msg` as a frame under the session key, whatever the receiver. */
    method Encrypt(msg: NetMessage, reciever: Option<Connection>) returns (r: Outcome)
      requires msg.Valid() && msg.bitLength % 8 == 0
      modifies msg`data, msg`bitLength
      ensures msg.Valid() && msg.bitLength % 8 == 0
      ensures r == (if provider.None? then Fail(NullReference) else Pass)
      ensures provider.None? ==> msg.data == old(msg.data) && msg.bitLength == old(msg.bitLength)
      ensures provider.Some? ==>
        msg.data == Frame(cipher, provider.value, old(msg.Content()), old(msg.bitLength))
        && msg.bitLength == 8 * |msg.data|
    {
      if provider.None? {
        return Fail(NullReference);
      }
      var unEncLenBits := msg.bitLength;
      var arr := cipher.enc(provider.value, msg.data[..BytesToHoldBits(msg.bitLength)]);
      msg.bitLength := 0;
      msg.WriteUInt32(unEncLenBits % TwoTo32);
      ghost var d1 := msg.data;
      msg.WriteBytes(arr);
      assert d1 == UInt32Bytes(unEncLenBits % TwoTo32) && msg.data == d1 + arr;
      AlignedBits(0, |arr| + 4);
      msg.bitLength := (|arr| + 4) * 8;
      r := Pass;
    }

    /** Unwraps `msg` in place: the header at the current position, the
        ciphertext always from byte 4. The header is read before the provider
        is used, so without a key a readable header is consumed first. */
    method Decrypt(msg: NetMessage) returns (r: Outcome)
      requires msg.Valid()
      modifies msg
      ensures msg.Valid()
      ensures provider.None? ==> msg.data == old(msg.data) && msg.bitLength == old(msg.bitLength)
      ensures provider.None? && old(msg.readPos) + 4 > |old(msg.Readable())| ==> r == Fail(ReadPastEnd) && msg.readPos == old(msg.readPos)
      ensures provider.None? && old(msg.readPos) + 4 <= |old(msg.Readable())| ==> r == Fail(NullReference) && msg.readPos == old(msg.readPos) + 4
      ensures provider.Some? ==>
        var u := Unwrap(cipher, provider.value, old(msg.Content()), old(msg.Readable()),
                        old(msg.readPos), if 4 <= |old(msg.Content())| then 4 else 0);
        && (u.Err? ==> r == Fail(u.error) && msg.data == old(msg.data) && msg.bitLength == old(msg.bitLength))
        && (u.Err? && u.error == ReadPastEnd ==> msg.readPos == old(msg.readPos))
        && (u.Err? && u.error != ReadPastEnd ==> msg.readPos == old(msg.readPos) + 4)
        && (u.Ok? ==> r == Pass && msg.data == u.value.0 && msg.bitLength == u.value.1 && msg.readPos == 0)
    {
      var header := msg.ReadUInt32();
      if header.None? {
        return Fail(ReadPastEnd);
      }
      if provider.None? {
        return Fail(NullReference);
      }
      if header.value >= TwoTo31 {
        return Fail(Overflow);
      }
      var unEncLenBits := header.value;
      var cipherText := msg.data[4..BytesToHoldBits(msg.bitLength)];
      var plain := cipher.dec(provider.value, cipherText);
      if plain.None? {
        return Fail(Cryptographic);
      }
      var byteLen := BytesToHoldBits(unEncLenBits);
      msg.data := Fill(plain.value, byteLen);
      msg.bitLength := unEncLenBits;
      msg.readPos := 0;
      r := Pass;
    }
  }
}
