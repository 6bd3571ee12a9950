/** backend/open_webui/haloclaw/crypto.py: the WeChat Work and Feishu message codecs.
  * AES and SHA-256 are parameters; framing, padding, chaining, UTF-8 and base64 are spelled out.
  */
module MessageCrypto {
  import opened Numbers
  import opened Wrappers
  import opened Utf8
  import Base64
  import Cbc
  import Sorting

  /** The exceptions the two directions raise, in the order the code can reach them. */
  datatype CryptoError =
    | BadBase64        // binascii.Error / ValueError
    | BadKeyLength     // AES.new
    | BadCiphertext    // length not a multiple of the block
    | EmptyPlaintext   // plaintext[-1]
    | BadFrame         // struct.error
    | BadText          // UnicodeDecodeError

  const FRAME_LIMIT: int := 0x1_0000_0000
  const PAD_BLOCK: int := 32

  /** Four bytes, most significant first. */
  function PackLength(n: int): (b: seq<byte>)
    requires 0 <= n < FRAME_LIMIT
    ensures |b| == 4
  {
    var n1 := n / 256;
    var n2 := n1 / 256;
    [n2 / 256, n2 % 256, n1 % 256, n % 256]
  }

  /** Exactly four bytes are read back; any other number raises. */
  function UnpackLength(b: seq<byte>): Option<int> {
    if |b| != 4 then None
    else
      var b0: int := b[0];
      Some(((b0 * 256 + b[1]) * 256 + b[2]) * 256 + b[3])
  }

  /** Python's `s[lo:hi]` for non-negative bounds. */
  function Slice(s: seq<byte>, lo: nat, hi: nat): seq<byte> {
    if lo >= |s| || hi <= lo then []
    else if hi > |s| then s[lo..]
    else s[lo..hi]
  }

  /** Cuts as many bytes as the last one says: a zero empties the text, as does an oversized one. */
  function StripPad(p: seq<byte>): Option<seq<byte>> {
    if p == [] then None
    else
      var n: int := p[|p| - 1];
      if n == 0 || n > |p| then Some([]) else Some(p[..|p| - n])
  }

  function Pad(p: seq<byte>): seq<byte> {
    var n := PAD_BLOCK - |p| % PAD_BLOCK;
    p + seq(n, _ => n as byte)
  }

  predicate UsableKey(key: seq<byte>) {
    |key| in {16, 24, 32}
  }

  function WechatPlaintext(random: seq<byte>, msg: seq<byte>, receiveId: seq<byte>): seq<byte>
    requires |msg| < FRAME_LIMIT
  {
    random + PackLength(|msg|) + msg + receiveId
  }

  /** `random` stands for `os.urandom(16)`. */
  function WechatEncrypt(
    aes: Cbc.Cipher, msg: string, encodingAesKey: string, receiveId: string, random: seq<byte>
  ): (r: Result<string, CryptoError>)
    requires |random| == 16
  {
    match Base64.Decode(encodingAesKey + "=")
    case None => Err(BadBase64)
    case Some(key) =>
      var body := Encode(msg);
      if |body| >= FRAME_LIMIT then Err(BadFrame)
      else if !UsableKey(key) then Err(BadKeyLength)
      else
        var p := Pad(WechatPlaintext(random, body, Encode(receiveId)));
        PadAligns(WechatPlaintext(random, body, Encode(receiveId)));
        Ok(Base64.Encode(Cbc.Encrypt(aes, key, key[..16], p)))
  }

  /** Steps 16.. of the plaintext: length, message, receive id. */
  function Unframe(p: seq<byte>): Result<(string, string), CryptoError> {
    match UnpackLength(Slice(p, 16, 20))
    case None => Err(BadFrame)
    case Some(n) =>
      match Decode(Slice(p, 20, 20 + n))
      case None => Err(BadText)
      case Some(msg) =>
        match Decode(Slice(p, 20 + n, |p|))
        case None => Err(BadText)
        case Some(receiveId) => Ok((msg, receiveId))
  }

  function WechatDecrypt(
    aes: Cbc.Cipher, ciphertext: string, encodingAesKey: string
  ): (r: Result<(string, string), CryptoError>) {
    match Base64.Decode(encodingAesKey + "=")
    case None => Err(BadBase64)
    case Some(key) =>
      match Base64.Decode(ciphertext)
      case None => Err(BadBase64)
      case Some(c) =>
        if !UsableKey(key) then Err(BadKeyLength)
        else if !Cbc.Aligned(c) then Err(BadCiphertext)
        else
          match StripPad(Cbc.Decrypt(aes, key, key[..16], c))
          case None => Err(EmptyPlaintext)
          case Some(p) => Unframe(p)
  }

  /** `sha256` stands for the digest of the UTF-8 form of the configured key. */
  function FeishuDecrypt(
    aes: Cbc.Cipher, sha256: string -> seq<byte>, encryptData: string, encryptKey: string
  ): (r: Result<string, CryptoError>)
    requires forall k :: |sha256(k)| == 32
  {
    match Base64.Decode(encryptData)
    case None => Err(BadBase64)
    case Some(c) =>
      var body := Slice(c, 16, |c|);
      if |c| < 16 then Err(BadCiphertext)  // AES.new refuses a short IV
      else if !Cbc.Aligned(body) then Err(BadCiphertext)
      else
        match StripPad(Cbc.Decrypt(aes, sha256(encryptKey), c[..16], body))
        case None => Err(EmptyPlaintext)
        case Some(p) =>
          match Decode(p)
          case None => Err(BadText)
          case Some(text) => Ok(text)
  }

  // ---------- framing and padding ----------

  lemma UnpackPack(n: int)
    requires 0 <= n < FRAME_LIMIT
    ensures UnpackLength(PackLength(n)) == Some(n)
  {
    var n1 := n / 256;
    var n2 := n1 / 256;
    assert n == n1 * 256 + n % 256;
    assert n1 == n2 * 256 + n1 % 256;
    assert n2 == n2 / 256 * 256 + n2 % 256;
  }

  /** The padding is 1 to 32 bytes long, fills a 32-byte block, and is taken off again exactly. */
  lemma PadAligns(p: seq<byte>)
    ensures |Pad(p)| % PAD_BLOCK == 0 && Cbc.Aligned(Pad(p))
    ensures 1 <= |Pad(p)| - |p| <= PAD_BLOCK
    ensures StripPad(Pad(p)) == Some(p)
  {
    var n := PAD_BLOCK - |p| % PAD_BLOCK;
    assert |Pad(p)| == PAD_BLOCK * (|p| / PAD_BLOCK + 1);
    assert Pad(p)[|Pad(p)| - 1] == n;
    assert Pad(p)[..|p|] == p;
  }

  /** As many bytes are cut as the last one says, by the rule of the slice `p[:-n]`. */
  lemma StripPadIsSlice(p: seq<byte>)
    requires p != []
    ensures var n: int := p[|p| - 1]; StripPad(p) == Some(Sorting.Take(p, -n))
  {
    assert p[..0] == [];
  }

  lemma WechatSlices(random: seq<byte>, msg: seq<byte>, receiveId: seq<byte>)
    requires |random| == 16 && |msg| < FRAME_LIMIT
    ensures
      var p := WechatPlaintext(random, msg, receiveId);
      && Slice(p, 16, 20) == PackLength(|msg|)
      && Slice(p, 20, 20 + |msg|) == msg
      && Slice(p, 20 + |msg|, |p|) == receiveId
  {
  }

  lemma UnframeSlices(p: seq<byte>, msg: string, receiveId: string)
    requires |Encode(msg)| < FRAME_LIMIT && Slice(p, 16, 20) == PackLength(|Encode(msg)|)
    requires Slice(p, 20, 20 + |Encode(msg)|) == Encode(msg)
    requires Slice(p, 20 + |Encode(msg)|, |p|) == Encode(receiveId)
    ensures Unframe(p) == Ok((msg, receiveId))
  {
    UnpackPack(|Encode(msg)|);
    RoundTrip(msg);
    RoundTrip(receiveId);
  }

  // ---------- the codec's law ----------

  /** Whatever WeChat encryption produces, decryption under the same key returns. */
  lemma WechatRoundTrip(
    aes: Cbc.Cipher, msg: string, encodingAesKey: string, receiveId: string, random: seq<byte>
  )
    requires aes.Inverts() && |random| == 16
    requires WechatEncrypt(aes, msg, encodingAesKey, receiveId, random).Ok?
    ensures
      var ciphertext := WechatEncrypt(aes, msg, encodingAesKey, receiveId, random).value;
      WechatDecrypt(aes, ciphertext, encodingAesKey) == Ok((msg, receiveId))
  {
    var key := Base64.Decode(encodingAesKey + "=").value;
    var p := WechatPlaintext(random, Encode(msg), Encode(receiveId));
    PadAligns(p);
    var c := Cbc.Encrypt(aes, key, key[..16], Pad(p));
    Base64.RoundTrip(c);
    Cbc.RoundTrip(aes, key, key[..16], Pad(p));
    WechatSlices(random, Encode(msg), Encode(receiveId));
    UnframeSlices(p, msg, receiveId);
  }

  /** 16 random bytes, a big-endian length, the message, the receive id, and then only
    * padding bytes, each naming the padding's own length.
    */
  predicate WechatLayout(p: seq<byte>, random: seq<byte>, msg: seq<byte>, receiveId: seq<byte>) {
    var n := 20 + |msg| + |receiveId|;
    && |p| % 32 == 0 && n < |p| <= n + 32
    && p[..16] == random
    && 0x100_0000 * (p[16] as int) + 0x1_0000 * (p[17] as int) + 0x100 * (p[18] as int) + p[19] as int == |msg|
    && p[20..20 + |msg|] == msg
    && p[20 + |msg|..n] == receiveId
    && forall i :: n <= i < |p| ==> p[i] as int == |p| - n
  }

  lemma PlaintextLayout(random: seq<byte>, msg: seq<byte>, receiveId: seq<byte>)
    requires |random| == 16 && |msg| < FRAME_LIMIT
    ensures WechatLayout(Pad(WechatPlaintext(random, msg, receiveId)), random, msg, receiveId)
  {
    var body := WechatPlaintext(random, msg, receiveId);
    var p := Pad(body);
    PadAligns(body);
    UnpackPack(|msg|);
    assert forall i :: 0 <= i < 4 ==> p[16 + i] == PackLength(|msg|)[i];
    assert p[20..20 + |msg|] == msg;
    assert p[20 + |msg|..|body|] == receiveId;
  }

  lemma PackUnpack(b: seq<byte>)
    requires |b| == 4
    ensures PackLength(((b[0] as int * 256 + b[1]) * 256 + b[2]) * 256 + b[3]) == b
  {
    var n2 := b[0] as int * 256 + b[1];
    var n1 := n2 * 256 + b[2];
    var n := n1 * 256 + b[3];
    assert n / 256 == n1 && n % 256 == b[3];
    assert n1 / 256 == n2 && n1 % 256 == b[2];
    assert n2 / 256 == b[0] && n2 % 256 == b[1];
  }

  /** There is only one such plaintext. */
  lemma LayoutOnce(p: seq<byte>, random: seq<byte>, msg: seq<byte>, receiveId: seq<byte>)
    requires |random| == 16 && |msg| < FRAME_LIMIT && WechatLayout(p, random, msg, receiveId)
    ensures p == Pad(WechatPlaintext(random, msg, receiveId))
  {
    hide PackLength;
    var n := 20 + |msg| + |receiveId|;
    LayoutLength(p, random, msg, receiveId);
    FivePieces(p, 16, 20, 20 + |msg|, n);
    assert p[..16] + p[16..20] + p[20..20 + |msg|] + p[20 + |msg|..n] == WechatPlaintext(random, msg, receiveId);
    LayoutPad(p, random, msg, receiveId);
  }

  lemma LayoutPad(p: seq<byte>, random: seq<byte>, msg: seq<byte>, receiveId: seq<byte>)
    requires WechatLayout(p, random, msg, receiveId)
    ensures var n := 20 + |msg| + |receiveId|;
      && |p| - n == PAD_BLOCK - n % PAD_BLOCK
      && p[n..] == seq(PAD_BLOCK - n % PAD_BLOCK, _ => (PAD_BLOCK - n % PAD_BLOCK) as byte)
  {
  }

  lemma LayoutLength(p: seq<byte>, random: seq<byte>, msg: seq<byte>, receiveId: seq<byte>)
    requires |msg| < FRAME_LIMIT && WechatLayout(p, random, msg, receiveId)
    ensures p[16..20] == PackLength(|msg|)
  {
    PackUnpack(p[16..20]);
  }

  lemma FivePieces(p: seq<byte>, a: nat, b: nat, c: nat, d: nat)
    requires a <= b <= c <= d <= |p|
    ensures p == p[..a] + p[a..b] + p[b..c] + p[c..d] + p[d..]
  {
  }

  /** Every callback laid out, padded and chained like that is read, whoever made it. */
  lemma WechatReadsStandardPayload(
    aes: Cbc.Cipher, encodingAesKey: string, key: seq<byte>, msg: string, receiveId: string, random: seq<byte>,
    p: seq<byte>, body: seq<byte>
  )
    requires aes.Inverts() && |random| == 16 && |Encode(msg)| < FRAME_LIMIT
    requires Base64.Decode(encodingAesKey + "=") == Some(key) && UsableKey(key)
    requires WechatLayout(p, random, Encode(msg), Encode(receiveId))
    requires Cbc.Chained(aes, key, key[..16], p, body)
    ensures WechatDecrypt(aes, Base64.Encode(body), encodingAesKey) == Ok((msg, receiveId))
  {
    Cbc.ChainedIsEncrypt(aes, key, key[..16], p, body);
    LayoutOnce(p, random, Encode(msg), Encode(receiveId));
    WechatRoundTrip(aes, msg, encodingAesKey, receiveId, random);
  }

  /** What is sent is base 64 of whole blocks that hold a plaintext, laid out as the platform prescribes,
    * chained from the first 16 bytes of the key.
    */
  lemma WechatWireFormat(
    aes: Cbc.Cipher, msg: string, encodingAesKey: string, receiveId: string, random: seq<byte>
  )
    requires aes.Inverts() && |random| == 16
    requires WechatEncrypt(aes, msg, encodingAesKey, receiveId, random).Ok?
    ensures Base64.Decode(encodingAesKey + "=").Some?
    ensures
      var key := Base64.Decode(encodingAesKey + "=").value;
      var c := Base64.Decode(WechatEncrypt(aes, msg, encodingAesKey, receiveId, random).value);
      && c.Some? && Cbc.Aligned(c.value)
      && var p := Cbc.Decrypt(aes, key, key[..16], c.value);
         WechatLayout(p, random, Encode(msg), Encode(receiveId)) && Cbc.Chained(aes, key, key[..16], p, c.value)
  {
    var key := Base64.Decode(encodingAesKey + "=").value;
    var p := WechatPlaintext(random, Encode(msg), Encode(receiveId));
    PadAligns(p);
    Base64.RoundTrip(Cbc.Encrypt(aes, key, key[..16], Pad(p)));
    Cbc.RoundTrip(aes, key, key[..16], Pad(p));
    Cbc.EncryptChains(aes, key, key[..16], Pad(p));
    PlaintextLayout(random, Encode(msg), Encode(receiveId));
  }

  /** Encryption fails only on a key AES refuses or a body of 2^32 bytes and more; with the
    * documented 43-character key it fails exactly on the oversized body.
    */
  lemma WechatEncryptSucceedsIff(
    aes: Cbc.Cipher, msg: string, encodingAesKey: string, receiveId: string, random: seq<byte>
  )
    requires |random| == 16 && |encodingAesKey| == 43 && Base64.InAlphabet(encodingAesKey)
    ensures WechatEncrypt(aes, msg, encodingAesKey, receiveId, random).Ok?
            <==> |Encode(msg)| < FRAME_LIMIT
  {
    Base64.FortyThreeCharacters(encodingAesKey);
  }

  /** No two messages share a ciphertext under one key, whatever the random prefixes. */
  lemma WechatIsUnambiguous(
    aes: Cbc.Cipher, key: string,
    msg: string, receiveId: string, random: seq<byte>,
    msg': string, receiveId': string, random': seq<byte>
  )
    requires aes.Inverts() && |random| == |random'| == 16
    requires WechatEncrypt(aes, msg, key, receiveId, random).Ok?
    requires WechatEncrypt(aes, msg, key, receiveId, random)
             == WechatEncrypt(aes, msg', key, receiveId', random')
    ensures msg == msg' && receiveId == receiveId'
  {
    WechatRoundTrip(aes, msg, key, receiveId, random);
    WechatRoundTrip(aes, msg', key, receiveId', random');
  }

  /** Feishu's payload is IV || CBC(text || padding): any PKCS #7 padding (section 6.3 of
    * RFC 5652) that fills the last block is removed and the text returned.
    */
  lemma FeishuReadsStandardPayload(
    aes: Cbc.Cipher, sha256: string -> seq<byte>, text: string, encryptKey: string,
    iv: Cbc.Block, pad: byte, body: seq<byte>
  )
    requires aes.Inverts() && forall k :: |sha256(k)| == 32
    requires 1 <= pad && (|Encode(text)| + pad) % 16 == 0
    requires Cbc.Chained(aes, sha256(encryptKey), iv, Encode(text) + seq(pad, _ => pad), body)
    ensures FeishuDecrypt(aes, sha256, Base64.Encode(iv + body), encryptKey) == Ok(text)
  {
    hide Cbc.Chained, Cbc.Encrypt, Cbc.Decrypt, Encode, Decode;
    var padded: seq<byte> := Encode(text) + seq(pad, _ => pad);
    Cbc.ChainedIsEncrypt(aes, sha256(encryptKey), iv, padded, body);
    Base64.RoundTrip(iv + body);
    assert (iv + body)[..16] == iv && Slice(iv + body, 16, |iv + body|) == body;
    Cbc.RoundTrip(aes, sha256(encryptKey), iv, padded);
    assert padded[|padded| - 1] == pad;
    assert padded[..|padded| - pad] == Encode(text);
    RoundTrip(text);
  }
}
