/** AES encryption as the services use it: PKCS#7 padding (section 6.3 of RFC 5652), cipher block chaining
    (section 6.2 of NIST SP 800-38A) with the first block of the key as initialisation vector, and base64 around it;
    and the license decryptor, which adds an RSA layer.  The block cipher is any family of permutations of blocks. */
module Aes {
  import opened Options
  import opened Base64

  const BLOCK: nat := 16

  type Block = b: Bytes | |b| == BLOCK witness seq(BLOCK, _ => 0)

  datatype Cipher = Cipher(enc: Block -> Block, dec: Block -> Block)

  ghost predicate Invertible(c: Cipher)
  {
    forall b :: c.dec(c.enc(b)) == b && c.enc(c.dec(b)) == b
  }

  /** aes.NewCipher: one permutation for each key. */
  type Family = f: Bytes -> Cipher | forall key :: Invertible(f(key)) ghost witness _ => Cipher(b => b, b => b)

  datatype Error = BadKey | Recovered | EmptyText | Internal

  datatype Result = Ok(data: Bytes) | Err(error: Error)

  predicate ValidKey(key: Bytes)
  {
    |key| == 16 || |key| == 24 || |key| == 32
  }

  // ---- Padding ----

  function Pad(data: Bytes): Bytes
  {
    var padding := BLOCK - |data| % BLOCK;
    data + seq(padding, _ => padding)
  }

  /** A last byte that exceeds the length makes the slice expression panic. */
  function Unpad(data: Bytes): Result
  {
    if |data| == 0 then Err(EmptyText)
    else if data[|data| - 1] > |data| then Err(Recovered)
    else Ok(data[..|data| - data[|data| - 1]])
  }

  predicate WellPadded(data: Bytes)
  {
    && |data| % BLOCK == 0 && |data| > 0
    && var p := data[|data| - 1];
       1 <= p <= BLOCK && forall k | |data| - p <= k < |data| :: data[k] == p
  }

  lemma UnpadUndoesPad(data: Bytes)
    ensures WellPadded(Pad(data)) && Unpad(Pad(data)) == Ok(data)
  {
    PadLength(data);
    var padded, padding := Pad(data), BLOCK - |data| % BLOCK;
    assert padded[|padded| - 1] == padding;
    assert padded[..|data|] == data;
  }

  /** Unpadding does not look at what it takes away, so padding brings it back only where it was padding. */
  lemma PadUndoesUnpad(data: Bytes)
    requires |data| % BLOCK == 0 && Unpad(data).Ok?
    ensures Pad(Unpad(data).data) == data <==> WellPadded(data)
  {
    var p := data[|data| - 1];
    var cut := data[..|data| - p];
    if WellPadded(data) {
      assert |cut| % BLOCK == (BLOCK - p) % BLOCK;
      assert Pad(cut) == data;
    }
    if Pad(cut) == data { UnpadUndoesPad(cut); }
  }

  // ---- Chaining ----

  /** Exclusive or of the low `bits` bits. */
  function XorBits(a: nat, b: nat, bits: nat): nat
  {
    if bits == 0 then 0 else (if a % 2 == b % 2 then 0 else 1) + 2 * XorBits(a / 2, b / 2, bits - 1)
  }

  function Pow2(bits: nat): nat
  {
    if bits == 0 then 1 else 2 * Pow2(bits - 1)
  }

  lemma {:induction false} XorBound(a: nat, b: nat, bits: nat)
    ensures XorBits(a, b, bits) < Pow2(bits)
  {
    if bits > 0 { XorBound(a / 2, b / 2, bits - 1); }
  }

  lemma {:induction false} XorBitsBack(a: nat, b: nat, bits: nat)
    requires a < Pow2(bits)
    ensures XorBits(XorBits(a, b, bits), b, bits) == a
  {
    if bits > 0 {
      XorBitsBack(a / 2, b / 2, bits - 1);
      var x := XorBits(a, b, bits);
      assert x / 2 == XorBits(a / 2, b / 2, bits - 1);
    }
  }

  function Xor(a: Byte, b: Byte): Byte
  {
    XorBound(a, b, 8);
    assert Pow2(8) == 256;
    XorBits(a, b, 8)
  }

  function XorBlocks(a: Block, b: Block): Block
  {
    seq(BLOCK, i requires 0 <= i < BLOCK => Xor(a[i], b[i]))
  }

  function CbcEncrypt(c: Cipher, iv: Block, data: Bytes): Bytes
    requires |data| % BLOCK == 0
    ensures |CbcEncrypt(c, iv, data)| == |data|
    decreases |data|
  {
    if data == [] then []
    else
      var out := c.enc(XorBlocks(data[..BLOCK], iv));
      out + CbcEncrypt(c, out, data[BLOCK..])
  }

  function CbcDecrypt(c: Cipher, iv: Block, data: Bytes): Bytes
    requires |data| % BLOCK == 0
    ensures |CbcDecrypt(c, iv, data)| == |data|
    decreases |data|
  {
    if data == [] then []
    else XorBlocks(c.dec(data[..BLOCK]), iv) + CbcDecrypt(c, data[..BLOCK], data[BLOCK..])
  }

  lemma XorXor(a: Byte, b: Byte)
    ensures Xor(Xor(a, b), b) == a
  {
    assert Pow2(8) == 256;
    XorBitsBack(a, b, 8);
  }

  lemma XorBlocksBack(a: Block, b: Block)
    ensures XorBlocks(XorBlocks(a, b), b) == a
  {
    forall i | 0 <= i < BLOCK ensures XorBlocks(XorBlocks(a, b), b)[i] == a[i] { XorXor(a[i], b[i]); }
  }

  lemma {:induction false} CbcDecryptsEncrypted(c: Cipher, iv: Block, data: Bytes)
    requires Invertible(c) && |data| % BLOCK == 0
    ensures CbcDecrypt(c, iv, CbcEncrypt(c, iv, data)) == data
    decreases |data|
  {
    if data != [] {
      var head: Block := data[..BLOCK];
      var out := c.enc(XorBlocks(head, iv));
      XorBlocksBack(head, iv);
      CbcDecryptsEncrypted(c, out, data[BLOCK..]);
      var coded := CbcEncrypt(c, iv, data);
      assert coded[..BLOCK] == out && coded[BLOCK..] == CbcEncrypt(c, out, data[BLOCK..]);
      assert data == head + data[BLOCK..];
    }
  }

  lemma {:induction false} CbcEncryptsDecrypted(c: Cipher, iv: Block, data: Bytes)
    requires Invertible(c) && |data| % BLOCK == 0
    ensures CbcEncrypt(c, iv, CbcDecrypt(c, iv, data)) == data
    decreases |data|
  {
    if data != [] {
      var head: Block := data[..BLOCK];
      var out := XorBlocks(c.dec(head), iv);
      XorBlocksBack(c.dec(head), iv);
      CbcEncryptsDecrypted(c, head, data[BLOCK..]);
      var plain := CbcDecrypt(c, iv, data);
      assert plain[..BLOCK] == out && plain[BLOCK..] == CbcDecrypt(c, head, data[BLOCK..]);
      assert data == head + data[BLOCK..];
    }
  }

  /** Chaining goes on from any block boundary with the last ciphertext block in the place of the vector. */
  lemma EncryptStep(c: Cipher, prev: Block, src: Bytes, k: nat, done: Bytes)
    requires k + BLOCK <= |src| && |src| % BLOCK == 0 && k % BLOCK == 0
    ensures |src[k..]| % BLOCK == 0 && |src[k + BLOCK..]| % BLOCK == 0
    ensures var out := c.enc(XorBlocks(src[k..k + BLOCK], prev));
      done + CbcEncrypt(c, prev, src[k..]) == (done + out) + CbcEncrypt(c, out, src[k + BLOCK..])
  {
    var rest := src[k..];
    assert rest[..BLOCK] == src[k..k + BLOCK] && rest[BLOCK..] == src[k + BLOCK..];
  }

  lemma DecryptStep(c: Cipher, prev: Block, src: Bytes, k: nat, done: Bytes)
    requires k + BLOCK <= |src| && |src| % BLOCK == 0 && k % BLOCK == 0
    ensures |src[k..]| % BLOCK == 0 && |src[k + BLOCK..]| % BLOCK == 0
    ensures var coded: Block := src[k..k + BLOCK];
      done + CbcDecrypt(c, prev, src[k..]) == (done + XorBlocks(c.dec(coded), prev))
          + CbcDecrypt(c, coded, src[k + BLOCK..])
  {
    var rest := src[k..];
    assert rest[..BLOCK] == src[k..k + BLOCK] && rest[BLOCK..] == src[k + BLOCK..];
  }

  // ---- The code ----

  method PutBlock(dst: array<Byte>, at: nat, block: Block)
    requires at + BLOCK <= dst.Length
    modifies dst
    ensures dst[..at + BLOCK] == old(dst[..at]) + block
  {
    for i := 0 to BLOCK
      invariant dst[..at + i] == old(dst[..at]) + block[..i]
    {
      dst[at + i] := block[i];
      assert dst[..at + i + 1] == dst[..at + i] + [block[i]];
    }
  }

  method EncryptBlocks(c: Cipher, iv: Block, dst: array<Byte>, src: Bytes)
    requires |src| == dst.Length && |src| % BLOCK == 0
    modifies dst
    ensures dst[..] == CbcEncrypt(c, iv, src)
  {
    var k, prev := 0, iv;
    while k < |src|
      invariant 0 <= k <= |src| && k % BLOCK == 0
      invariant dst[..k] + CbcEncrypt(c, prev, src[k..]) == CbcEncrypt(c, iv, src)
    {
      EncryptStep(c, prev, src, k, dst[..k]);
      var out := c.enc(XorBlocks(src[k..k + BLOCK], prev));
      PutBlock(dst, k, out);
      prev := out;
      k := k + BLOCK;
    }
    assert dst[..k] + [] == dst[..];
  }

  method DecryptBlocks(c: Cipher, iv: Block, dst: array<Byte>, src: Bytes)
    requires |src| == dst.Length && |src| % BLOCK == 0
    modifies dst
    ensures dst[..] == CbcDecrypt(c, iv, src)
  {
    var k, prev := 0, iv;
    while k < |src|
      invariant 0 <= k <= |src| && k % BLOCK == 0
      invariant dst[..k] + CbcDecrypt(c, prev, src[k..]) == CbcDecrypt(c, iv, src)
    {
      DecryptStep(c, prev, src, k, dst[..k]);
      var coded: Block := src[k..k + BLOCK];
      PutBlock(dst, k, XorBlocks(c.dec(coded), prev));
      prev := coded;
      k := k + BLOCK;
    }
    assert dst[..k] + [] == dst[..];
  }

  method AesEncrypt(f: Family, data: Bytes, key: Bytes) returns (r: Result)
    ensures r == Encrypt(f, data, key)
  {
    if !ValidKey(key) { return Err(BadKey); }
    var encryptBytes := Pad(data);
    PadLength(data);
    var crypted := new Byte[|encryptBytes|];
    EncryptBlocks(f(key), key[..BLOCK], crypted, encryptBytes);
    r := Ok(crypted[..]);
  }

  method AesDecrypt(f: Family, data: Bytes, key: Bytes) returns (r: Result)
    ensures r == Decrypt(f, data, key)
  {
    if !ValidKey(key) { return Err(BadKey); }
    var crypted := new Byte[|data|];
    if |data| % BLOCK != 0 { return Err(Recovered); }
    DecryptBlocks(f(key), key[..BLOCK], crypted, data);
    r := Unpad(crypted[..]);
  }

  method AesEncryptBase64(f: Family, data: Bytes, key: Bytes) returns (r: Option<string>)
    ensures r == EncryptBase64(f, data, key)
  {
    var res := AesEncrypt(f, data, key);
    if res.Err? { return None; }
    r := Some(Base64.Encode(res.data));
  }

  method AesDecryptBase64(f: Family, text: string, key: Bytes) returns (r: Result)
    ensures r == DecryptBase64(f, text, key)
  {
    var data := Base64.Decode(text);
    if data.None? { return Err(Internal); }
    r := AesDecrypt(f, data.value, key);
  }

  // ---- Its specification ----

  lemma PadLength(data: Bytes)
    ensures |Pad(data)| % BLOCK == 0
  {
    assert (|data| + (BLOCK - |data| % BLOCK)) % BLOCK == 0;
  }

  function Encrypt(f: Family, data: Bytes, key: Bytes): Result
  {
    if !ValidKey(key) then Err(BadKey)
    else
      PadLength(data);
      Ok(CbcEncrypt(f(key), key[..BLOCK], Pad(data)))
  }

  function Decrypt(f: Family, data: Bytes, key: Bytes): Result
  {
    if !ValidKey(key) then Err(BadKey)
    else if |data| % BLOCK != 0 then Err(Recovered)
    else Unpad(CbcDecrypt(f(key), key[..BLOCK], data))
  }

  function EncryptBase64(f: Family, data: Bytes, key: Bytes): Option<string>
  {
    match Encrypt(f, data, key)
    case Ok(coded) => Some(Base64.Encode(coded))
    case Err(_) => None
  }

  function DecryptBase64(f: Family, text: string, key: Bytes): Result
  {
    match Base64.Decode(text)
    case Some(coded) => Decrypt(f, coded, key)
    case None => Err(Internal)
  }

  // ---- What the ciphertext is ----

  /** Bit k of a number, the lowest being bit 0. */
  function Bit(a: nat, k: nat): nat
  {
    if k == 0 then a % 2 else Bit(a / 2, k - 1)
  }

  lemma {:induction false} XorBitsBit(a: nat, b: nat, bits: nat, k: nat)
    requires k < bits
    ensures Bit(XorBits(a, b, bits), k) == if Bit(a, k) == Bit(b, k) then 0 else 1
  {
    var rest := XorBits(a / 2, b / 2, bits - 1);
    assert XorBits(a, b, bits) / 2 == rest;
    if k > 0 { XorBitsBit(a / 2, b / 2, bits - 1, k - 1); }
  }

  /** Every bit of c is set exactly if it is set in one of a and b. */
  predicate Combines(c: Byte, a: Byte, b: Byte)
  {
    forall k | 0 <= k < 8 :: Bit(c, k) == 1 <==> Bit(a, k) != Bit(b, k)
  }

  lemma XorCombines(a: Byte, b: Byte)
    ensures Combines(Xor(a, b), a, b)
  {
    forall k | 0 <= k < 8 ensures Bit(Xor(a, b), k) == 1 <==> Bit(a, k) != Bit(b, k) { XorBitsBit(a, b, 8, k); }
  }

  lemma {:induction false} BitsDetermine(a: nat, b: nat, bits: nat)
    requires a < Pow2(bits) && b < Pow2(bits) && forall k | 0 <= k < bits :: (Bit(a, k) == 1 <==> Bit(b, k) == 1)
    ensures a == b
  {
    if bits > 0 {
      assert Bit(a, 0) == 1 <==> Bit(b, 0) == 1;
      forall k | 0 <= k < bits - 1 ensures Bit(a / 2, k) == 1 <==> Bit(b / 2, k) == 1 {
        assert Bit(a, k + 1) == 1 <==> Bit(b, k + 1) == 1;
      }
      BitsDetermine(a / 2, b / 2, bits - 1);
    }
  }

  lemma CombinedIsXor(c: Byte, a: Byte, b: Byte)
    requires Combines(c, a, b)
    ensures c == Xor(a, b)
  {
    XorCombines(a, b);
    assert Pow2(8) == 256;
    forall k | 0 <= k < 8 ensures Bit(c, k) == 1 <==> Bit(Xor(a, b), k) == 1 {
      assert Bit(c, k) == 1 <==> Bit(a, k) != Bit(b, k);
      assert Bit(Xor(a, b), k) == 1 <==> Bit(a, k) != Bit(b, k);
    }
    BitsDetermine(c, Xor(a, b), 8);
  }

  function BlockAt(data: Bytes, j: nat): Block
    requires (j + 1) * BLOCK <= |data|
  {
    data[j * BLOCK..(j + 1) * BLOCK]
  }

  predicate BlockCombines(x: Block, a: Block, b: Block)
  {
    forall i | 0 <= i < BLOCK :: Combines(x[i], a[i], b[i])
  }

  lemma CombinedBlock(x: Block, a: Block, b: Block)
    ensures BlockCombines(x, a, b) <==> x == XorBlocks(a, b)
  {
    forall i | 0 <= i < BLOCK ensures Combines(x[i], a[i], b[i]) <==> x[i] == XorBlocks(a, b)[i] {
      XorCombines(a[i], b[i]);
      if Combines(x[i], a[i], b[i]) { CombinedIsXor(x[i], a[i], b[i]); }
    }
  }

  lemma BlockShift(data: Bytes, j: nat)
    requires j > 0 && (j + 1) * BLOCK <= |data|
    ensures BlockAt(data, j) == BlockAt(data[BLOCK..], j - 1)
  {
  }

  lemma CbcHead(c: Cipher, iv: Block, data: Bytes)
    requires |data| % BLOCK == 0 && data != []
    ensures |data| >= BLOCK && |data[BLOCK..]| % BLOCK == 0
    ensures var out := c.enc(XorBlocks(data[..BLOCK], iv));
      var coded := CbcEncrypt(c, iv, data);
      coded[..BLOCK] == out && coded[BLOCK..] == CbcEncrypt(c, out, data[BLOCK..])
  {
  }

  lemma {:induction false} CbcBlock(c: Cipher, iv: Block, data: Bytes, j: nat)
    requires |data| % BLOCK == 0 && (j + 1) * BLOCK <= |data|
    ensures var coded := CbcEncrypt(c, iv, data);
      BlockAt(coded, j) == c.enc(XorBlocks(BlockAt(data, j), if j == 0 then iv else BlockAt(coded, j - 1)))
    decreases j
  {
    var out := c.enc(XorBlocks(data[..BLOCK], iv));
    var coded := CbcEncrypt(c, iv, data);
    CbcHead(c, iv, data);
    if j > 0 {
      CbcBlock(c, out, data[BLOCK..], j - 1);
      BlockShift(coded, j);
      BlockShift(data, j);
      if j > 1 { BlockShift(coded, j - 1); }
    }
  }

  /** The ciphertext, block by block: each is the encryption, under the key, of the padded plaintext's block combined
      bit by bit with the ciphertext block before it, and the first with the first block of the key.  The padded
      plaintext is the plaintext and one to sixteen bytes, each their number, up to a whole block. */
  lemma CiphertextBlocks(f: Family, data: Bytes, key: Bytes, j: nat, x: Block)
    requires ValidKey(key)
    ensures Encrypt(f, data, key).Ok? && |Encrypt(f, data, key).data| == |Pad(data)| && |Pad(data)| % BLOCK == 0
    ensures |data| < |Pad(data)| <= |data| + BLOCK && Pad(data)[..|data|] == data
    ensures forall i | |data| <= i < |Pad(data)| :: Pad(data)[i] == |Pad(data)| - |data|
    ensures (j + 1) * BLOCK <= |Pad(data)| ==>
      var coded := Encrypt(f, data, key).data;
      var before := if j == 0 then key[..BLOCK] else BlockAt(coded, j - 1);
      BlockCombines(x, BlockAt(Pad(data), j), before) ==> BlockAt(coded, j) == f(key).enc(x)
  {
    PadLength(data);
    assert Pad(data)[..|data|] == data;
    if (j + 1) * BLOCK <= |Pad(data)| {
      var coded := Encrypt(f, data, key).data;
      CbcBlock(f(key), key[..BLOCK], Pad(data), j);
      CombinedBlock(x, BlockAt(Pad(data), j), if j == 0 then key[..BLOCK] else BlockAt(coded, j - 1));
    }
  }

  /** Decryption fails for a key of another length, for a text that is not whole blocks or whose last byte, deciphered,
      exceeds its length, and for the empty text; else it takes off as many bytes as that last byte says, unseen. */
  lemma DecryptOutcome(f: Family, coded: Bytes, key: Bytes)
    ensures Decrypt(f, coded, key) == Err(BadKey) <==> !ValidKey(key)
    ensures ValidKey(key) && coded == [] ==> Decrypt(f, coded, key) == Err(EmptyText)
    ensures ValidKey(key) && |coded| % BLOCK != 0 ==> Decrypt(f, coded, key) == Err(Recovered)
    ensures ValidKey(key) && coded != [] && |coded| % BLOCK == 0 ==>
      var plain := CbcDecrypt(f(key), key[..BLOCK], coded);
      var last := plain[|plain| - 1];
      if last > |plain| then Decrypt(f, coded, key) == Err(Recovered)
      else Decrypt(f, coded, key).Ok? && Decrypt(f, coded, key).data + plain[|plain| - last..] == plain
  {
    if ValidKey(key) && coded != [] && |coded| % BLOCK == 0 {
      UnpadOutcome(CbcDecrypt(f(key), key[..BLOCK], coded));
    }
  }

  lemma UnpadOutcome(plain: Bytes)
    requires plain != []
    ensures var last := plain[|plain| - 1];
      if last > |plain| then Unpad(plain) == Err(Recovered)
      else Unpad(plain).Ok? && Unpad(plain).data + plain[|plain| - last..] == plain
  {
  }

  // ---- What it promises ----

  /** Every byte string comes back under every key of a legal length, and no other key encrypts anything. */
  lemma DecryptUndoesEncrypt(f: Family, data: Bytes, key: Bytes)
    ensures ValidKey(key) ==> Encrypt(f, data, key).Ok? && Decrypt(f, Encrypt(f, data, key).data, key) == Ok(data)
    ensures !ValidKey(key) ==> Encrypt(f, data, key) == Err(BadKey)
  {
    if ValidKey(key) {
      assert Invertible(f(key));
      PadLength(data);
      CbcDecryptsEncrypted(f(key), key[..BLOCK], Pad(data));
      UnpadUndoesPad(data);
    }
  }

  /** What decrypts need not have been encrypted: it was exactly when its padding is whole. */
  lemma EncryptUndoesDecrypt(f: Family, coded: Bytes, key: Bytes)
    requires Decrypt(f, coded, key).Ok?
    ensures Encrypt(f, Decrypt(f, coded, key).data, key) == Ok(coded) <==>
        WellPadded(CbcDecrypt(f(key), key[..BLOCK], coded))
  {
    assert Invertible(f(key));
    var padded := CbcDecrypt(f(key), key[..BLOCK], coded);
    var data := Decrypt(f, coded, key).data;
    CbcEncryptsDecrypted(f(key), key[..BLOCK], coded);
    PadUndoesUnpad(padded);
    PadLength(data);
    CbcDecryptsEncrypted(f(key), key[..BLOCK], Pad(data));
  }

  /** The text form is the encoding of the ciphertext, and round trips as well; it fails exactly where the bytes do, and
      for a text that is not base64. */
  lemma Base64RoundTrip(f: Family, data: Bytes, key: Bytes, text: string)
    ensures EncryptBase64(f, data, key).Some? <==> ValidKey(key)
    ensures ValidKey(key) ==>
      && Base64.Decode(EncryptBase64(f, data, key).value) == Some(Encrypt(f, data, key).data)
      && Tight(EncryptBase64(f, data, key).value) && Strip(EncryptBase64(f, data, key).value) ==
        EncryptBase64(f, data, key).value
      && DecryptBase64(f, EncryptBase64(f, data, key).value, key) == Ok(data)
    ensures Base64.Decode(text).None? ==> DecryptBase64(f, text, key) == Err(Internal)
    ensures Base64.Decode(text).Some? ==> DecryptBase64(f, text, key) == Decrypt(f, Base64.Decode(text).value, key)
  {
    DecryptUndoesEncrypt(f, data, key);
    if ValidKey(key) {
      Base64.RoundTrip(Encrypt(f, data, key).data);
      Base64.DecodedIsEncoding(EncryptBase64(f, data, key).value);
    }
  }

  // ---- The license decryptor ----

  /** rsa_Decrypt: the ciphertext is cut into pieces of the key's size, the last one possibly shorter. */
  method RsaDecrypt(dec: Bytes -> Option<Bytes>, size: nat, cipherText: Bytes) returns (r: Option<Bytes>)
    requires size > 0
    ensures r == Unseal(dec, size, cipherText)
  {
    var start := 0;
    var plainData: Bytes := [];
    PrefixedNothing(Unseal(dec, size, cipherText));
    assert cipherText[0..] == cipherText;
    while start < |cipherText|
      invariant 0 <= start <= |cipherText|
      invariant Unseal(dec, size, cipherText) == Prefixed(plainData, Unseal(dec, size, cipherText[start..]))
    {
      var end := start + size;
      if end > |cipherText| { end := |cipherText|; }
      assert cipherText[start..][..end - start] == cipherText[start..end];
      assert cipherText[start..][end - start..] == cipherText[end..];
      var plainText := dec(cipherText[start..end]);
      if plainText.None? { return None; }
      PrefixedTwice(plainData, plainText.value, Unseal(dec, size, cipherText[end..]));
      plainData := plainData + plainText.value;
      start := end;
    }
    assert cipherText[start..] == [] && plainData + [] == plainData;
    r := Some(plainData);
  }

  lemma PrefixedNothing(tail: Option<Bytes>)
    ensures Prefixed([], tail) == tail
  {
    assert tail.Some? ==> [] + tail.value == tail.value;
  }

  lemma PrefixedTwice(a: Bytes, b: Bytes, tail: Option<Bytes>)
    ensures Prefixed(a, Prefixed(b, tail)) == Prefixed(a + b, tail)
  {
    if tail.Some? { assert a + (b + tail.value) == (a + b) + tail.value; }
  }

  function Prefixed(head: Bytes, tail: Option<Bytes>): Option<Bytes>
  {
    if tail.Some? then Some(head + tail.value) else None
  }

  function Unseal(dec: Bytes -> Option<Bytes>, size: nat, coded: Bytes): Option<Bytes>
    requires size > 0
    decreases |coded|
  {
    if coded == [] then Some([])
    else
      var end := if size > |coded| then |coded| else size;
      match dec(coded[..end])
      case Some(plain) => Prefixed(plain, Unseal(dec, size, coded[end..]))
      case None => None
  }

  function Flatten(pieces: seq<Bytes>): Bytes
  {
    if pieces == [] then [] else pieces[0] + Flatten(pieces[1..])
  }

  function Sealed(enc: Bytes -> Bytes, pieces: seq<Bytes>): Bytes
  {
    if pieces == [] then [] else enc(pieces[0]) + Sealed(enc, pieces[1..])
  }

  predicate Seals(enc: Bytes -> Bytes, dec: Bytes -> Option<Bytes>, size: nat, pieces: seq<Bytes>)
  {
    forall p | p in pieces :: |enc(p)| == size && dec(enc(p)) == Some(p)
  }

  /** However the plaintext was cut, the pieces come back joined, as long as each sealed piece has the key's size. */
  lemma {:induction false} UnsealUndoesSeal(enc: Bytes -> Bytes, dec: Bytes -> Option<Bytes>, size: nat,
      pieces: seq<Bytes>)
    requires size > 0 && Seals(enc, dec, size, pieces)
    ensures Unseal(dec, size, Sealed(enc, pieces)) == Some(Flatten(pieces))
    decreases |pieces|
  {
    if pieces != [] {
      var coded := Sealed(enc, pieces);
      assert pieces[0] in pieces;
      assert coded[..size] == enc(pieces[0]) && coded[size..] == Sealed(enc, pieces[1..]);
      UnsealUndoesSeal(enc, dec, size, pieces[1..]);
    }
  }

  /** Pieces of the key's size, but for a last one that may be shorter. */
  predicate Cut(pieces: seq<Bytes>, size: nat)
  {
    forall k | 0 <= k < |pieces| :: 0 < |pieces[k]| <= size && (k < |pieces| - 1 ==> |pieces[k]| == size)
  }

  lemma CutRest(pieces: seq<Bytes>, size: nat)
    requires Cut(pieces, size) && pieces != []
    ensures Cut(pieces[1..], size)
  {
    forall k | 0 <= k < |pieces[1..]|
      ensures 0 < |pieces[1..][k]| <= size && (k < |pieces[1..]| - 1 ==> |pieces[1..][k]| == size)
    {
      assert pieces[1..][k] == pieces[k + 1];
    }
  }

  lemma FirstPiece(pieces: seq<Bytes>, size: nat)
    requires Cut(pieces, size) && pieces != []
    ensures var coded := Flatten(pieces);
      var end := if size > |coded| then |coded| else size;
      coded != [] && coded[..end] == pieces[0] && coded[end..] == Flatten(pieces[1..])
  {
    assert 0 < |pieces[0]| <= size;
    if |pieces| == 1 { assert Flatten(pieces[1..]) == [] && Flatten(pieces) == pieces[0]; }
  }

  /** A text cut into such pieces, as every text can be, opens if and only if every piece does, and then to what
      they open to, joined. */
  lemma {:induction false} UnsealMeaning(dec: Bytes -> Option<Bytes>, size: nat, pieces: seq<Bytes>, plain: seq<Bytes>)
    requires size > 0 && Cut(pieces, size) && |plain| == |pieces|
    ensures Unseal(dec, size, Flatten(pieces)).Some? <==> forall p | p in pieces :: dec(p).Some?
    ensures (forall k | 0 <= k < |pieces| :: dec(pieces[k]) == Some(plain[k])) ==>
      Unseal(dec, size, Flatten(pieces)) == Some(Flatten(plain))
    decreases |pieces|
  {
    if pieces != [] {
      CutRest(pieces, size);
      FirstPiece(pieces, size);
      UnsealMeaning(dec, size, pieces[1..], plain[1..]);
      assert pieces == [pieces[0]] + pieces[1..];
      if forall k | 0 <= k < |pieces| :: dec(pieces[k]) == Some(plain[k]) {
        assert forall k | 0 <= k < |pieces[1..]| :: pieces[1..][k] == pieces[k + 1] && plain[1..][k] == plain[k + 1];
      }
    }
  }

  lemma {:induction false} CutExists(size: nat, coded: Bytes) returns (pieces: seq<Bytes>)
    requires size > 0
    ensures Cut(pieces, size) && Flatten(pieces) == coded
    decreases |coded|
  {
    if coded == [] {
      pieces := [];
    } else if |coded| <= size {
      pieces := [coded];
      assert pieces[1..] == [];
    } else {
      var rest := CutExists(size, coded[size..]);
      pieces := [coded[..size]] + rest;
      assert pieces[1..] == rest && coded == coded[..size] + coded[size..];
    }
  }

  /** DecryptData; a failure at any layer ends the process. */
  method DecryptData(f: Family, dec: Bytes -> Option<Bytes>, size: nat, text: string, key: Bytes)
      returns (r: Option<Bytes>)
    requires size > 0
    ensures r == License(f, dec, size, text, key)
  {
    var coded := Base64.Decode(text);
    if coded.None? { return None; }
    var aesEncrypted := RsaDecrypt(dec, size, coded.value);
    if aesEncrypted.None? { return None; }
    var plain := AesDecrypt(f, aesEncrypted.value, key);
    if plain.Err? { return None; }
    r := Some(plain.data);
  }

  function License(f: Family, dec: Bytes -> Option<Bytes>, size: nat, text: string, key: Bytes): Option<Bytes>
    requires size > 0
  {
    match Base64.Decode(text)
    case None => None
    case Some(coded) =>
      match Unseal(dec, size, coded)
      case None => None
      case Some(inner) =>
        match Decrypt(f, inner, key)
        case Ok(data) => Some(data)
        case Err(_) => None
  }

  /** The license decryptor recovers the plaintext of AES_Encrypt through all three layers, for every way of cutting
      the inner ciphertext into pieces. */
  lemma LicenseRoundTrip(f: Family, enc: Bytes -> Bytes, dec: Bytes -> Option<Bytes>, size: nat, pieces: seq<Bytes>,
      data: Bytes, key: Bytes)
    requires size > 0 && ValidKey(key) && Seals(enc, dec, size, pieces)
    requires Encrypt(f, data, key) == Ok(Flatten(pieces))
    ensures License(f, dec, size, Base64.Encode(Sealed(enc, pieces)), key) == Some(data)
  {
    Base64.RoundTrip(Sealed(enc, pieces));
    UnsealUndoesSeal(enc, dec, size, pieces);
    DecryptUndoesEncrypt(f, data, key);
  }

  /** A license opens exactly where each of its layers does. */
  lemma LicenseOpensIff(f: Family, dec: Bytes -> Option<Bytes>, size: nat, text: string, key: Bytes, data: Bytes)
    requires size > 0
    ensures License(f, dec, size, text, key) == Some(data) <==>
      exists coded, inner :: Base64.Decode(text) == Some(coded) && Unseal(dec, size, coded) == Some(inner)
                             && Decrypt(f, inner, key) == Ok(data)
  {
    if License(f, dec, size, text, key) == Some(data) {
      var coded := Base64.Decode(text).value;
      var inner := Unseal(dec, size, coded).value;
      assert Base64.Decode(text) == Some(coded) && Unseal(dec, size, coded) == Some(inner);
    }
  }
}
