// pkg/transforms/encryption.go: padding, CBC chaining and Base64 around a block cipher, and the way back.

module Encryption {
  import opened Wrappers
  import opened Pipeline

  const BLOCK_SIZE := 16

  type Cipher = Bytes -> Bytes

  // A block permutation and its inverse.
  ghost predicate Inverse(e: Cipher, d: Cipher) {
    forall b: Bytes :: |b| == BLOCK_SIZE ==> |e(b)| == BLOCK_SIZE && d(e(b)) == b
  }

  // ---- padding (section 6.3 of RFC 5652) ----

  function Fill(b: bv8, n: nat): (r: Bytes)
    ensures |r| == n && forall i :: 0 <= i < n ==> r[i] == b
  {
    seq(n, i => b)
  }

  function Pkcs5Padding(text: Bytes): Bytes {
    var padding := BLOCK_SIZE - |text| % BLOCK_SIZE;
    text + Fill(padding as bv8, padding)
  }

  // Removing the padding: the last byte says how many bytes to drop, all of which must agree.
  function Unpad(text: Bytes): Option<Bytes> {
    if text == [] then None
    else
      var n := text[|text| - 1] as int;
      if 1 <= n <= BLOCK_SIZE && n <= |text| && text[|text| - n..] == Fill(n as bv8, n) then
        Some(text[..|text| - n])
      else None
  }

  // The padded text is the shortest strictly longer one of whole blocks, and unpadding restores it.
  lemma PaddingInvertible(text: Bytes)
    ensures var p := Pkcs5Padding(text);
            && |p| == BLOCK_SIZE * BlockCount(text) && |text| < |p|
            && text <= p
            && (forall i :: |text| <= i < |p| ==> p[i] as int == |p| - |text|)
            && Unpad(p) == Some(text)
  {
    var padding := BLOCK_SIZE - |text| % BLOCK_SIZE;
    var p := Pkcs5Padding(text);
    assert 1 <= padding <= BLOCK_SIZE;
    assert (padding as bv8) as int == padding;
    assert p[|p| - 1] == padding as bv8;
    assert p[|p| - padding..] == Fill(padding as bv8, padding);
    assert p[..|p| - padding] == text;
  }

  // ---- the initialization vector ----

  // The first 16 bytes of the configured string, filled up with zero bytes.
  function Iv(s: Bytes): (r: Bytes)
    ensures |r| == BLOCK_SIZE
    ensures forall i :: 0 <= i < BLOCK_SIZE ==> r[i] == if i < |s| then s[i] else 0
  {
    seq(BLOCK_SIZE, i requires 0 <= i < BLOCK_SIZE => if i < |s| then s[i] else 0)
  }

  // ---- CBC (section 6.2 of NIST SP 800-38A) ----

  function Xor(a: Bytes, b: Bytes): (r: Bytes)
    requires |a| == |b|
    ensures |r| == |a| && forall i :: 0 <= i < |a| ==> r[i] == a[i] ^ b[i]
  {
    seq(|a|, i requires 0 <= i < |a| => a[i] ^ b[i])
  }

  lemma XorTwice(a: Bytes, b: Bytes)
    requires |a| == |b|
    ensures Xor(Xor(a, b), b) == a
  {
    forall i | 0 <= i < |a| ensures Xor(Xor(a, b), b)[i] == a[i] { ByteXorTwice(a[i], b[i]); }
  }

  lemma ByteXorTwice(x: bv8, y: bv8)
    ensures (x ^ y) ^ y == x
  {
  }

  ghost predicate Blocks(e: Cipher) {
    forall b: Bytes :: |b| == BLOCK_SIZE ==> |e(b)| == BLOCK_SIZE
  }

  // Over n whole blocks.
  ghost function CbcEncrypt(e: Cipher, previous: Bytes, text: Bytes, n: nat): (r: Bytes)
    requires Blocks(e) && |previous| == BLOCK_SIZE && |text| == BLOCK_SIZE * n
    ensures |r| == |text|
    decreases n
  {
    if n == 0 then []
    else
      var c := e(Xor(text[..BLOCK_SIZE], previous));
      c + CbcEncrypt(e, c, text[BLOCK_SIZE..], n - 1)
  }

  ghost function CbcDecrypt(d: Cipher, previous: Bytes, text: Bytes, n: nat): Bytes
    requires Blocks(d) && |previous| == BLOCK_SIZE && |text| == BLOCK_SIZE * n
    decreases n
  {
    if n == 0 then []
    else
      var c := text[..BLOCK_SIZE];
      Xor(d(c), previous) + CbcDecrypt(d, c, text[BLOCK_SIZE..], n - 1)
  }

  function BlockAt(text: Bytes, k: nat): (r: Bytes)
    requires BLOCK_SIZE * (k + 1) <= |text|
    ensures |r| == BLOCK_SIZE
  {
    text[BLOCK_SIZE * k..BLOCK_SIZE * (k + 1)]
  }

  // The equation of the mode: each block of cipher text is the block of text, added to the one of cipher text
  // before it, the vector at first, under the cipher.
  ghost predicate ChainsAt(e: Cipher, previous: Bytes, text: Bytes, crypted: Bytes, k: nat)
    requires |previous| == BLOCK_SIZE && |crypted| == |text| && BLOCK_SIZE * (k + 1) <= |text|
  {
    BlockAt(crypted, k) == e(Xor(BlockAt(text, k), if k == 0 then previous else BlockAt(crypted, k - 1)))
  }

  lemma BlockShifts(first: Bytes, rest: Bytes, k: nat)
    requires |first| == BLOCK_SIZE && k > 0 && BLOCK_SIZE * k <= |rest|
    ensures BlockAt(first + rest, k) == BlockAt(rest, k - 1)
  {
  }

  lemma ChainsFirst(e: Cipher, previous: Bytes, first: Bytes, rest: Bytes, c: Bytes, more: Bytes)
    requires |previous| == |first| == |c| == BLOCK_SIZE && |more| == |rest| && c == e(Xor(first, previous))
    ensures ChainsAt(e, previous, first + rest, c + more, 0)
  {
    assert BlockAt(first + rest, 0) == first && BlockAt(c + more, 0) == c;
  }

  lemma ChainsLater(e: Cipher, previous: Bytes, first: Bytes, rest: Bytes, c: Bytes, more: Bytes, k: nat)
    requires |previous| == |first| == |c| == BLOCK_SIZE && |more| == |rest| && k > 0 && BLOCK_SIZE * k <= |rest|
    requires ChainsAt(e, c, rest, more, k - 1)
    ensures ChainsAt(e, previous, first + rest, c + more, k)
  {
    BlockShifts(first, rest, k);
    BlockShifts(c, more, k);
    if k > 1 { BlockShifts(c, more, k - 1); } else { assert BlockAt(c + more, 0) == c; }
  }

  lemma CbcStep(e: Cipher, previous: Bytes, first: Bytes, rest: Bytes, n: nat)
    requires Blocks(e) && |previous| == |first| == BLOCK_SIZE && |rest| == BLOCK_SIZE * n
    ensures var c := e(Xor(first, previous));
            CbcEncrypt(e, previous, first + rest, n + 1) == c + CbcEncrypt(e, c, rest, n)
  {
    assert (first + rest)[..BLOCK_SIZE] == first && (first + rest)[BLOCK_SIZE..] == rest;
  }

  lemma {:induction false} CbcChains(e: Cipher, previous: Bytes, text: Bytes, n: nat, k: nat)
    requires Blocks(e) && |previous| == BLOCK_SIZE && |text| == BLOCK_SIZE * n && k < n
    ensures ChainsAt(e, previous, text, CbcEncrypt(e, previous, text, n), k)
    decreases n, 0
  {
    var first, rest := text[..BLOCK_SIZE], text[BLOCK_SIZE..];
    assert text == first + rest;
    ChainsFrom(e, previous, first, rest, n - 1, k);
  }

  lemma {:induction false} ChainsFrom(e: Cipher, previous: Bytes, first: Bytes, rest: Bytes, n: nat, k: nat)
    requires Blocks(e) && |previous| == |first| == BLOCK_SIZE && |rest| == BLOCK_SIZE * n && k <= n
    ensures ChainsAt(e, previous, first + rest, CbcEncrypt(e, previous, first + rest, n + 1), k)
    decreases n, 1
  {
    var c := e(Xor(first, previous));
    var more := CbcEncrypt(e, c, rest, n);
    CbcStep(e, previous, first, rest, n);
    if k == 0 {
      ChainsFirst(e, previous, first, rest, c, more);
    } else {
      CbcChains(e, c, rest, n, k - 1);
      ChainsLater(e, previous, first, rest, c, more, k);
    }
  }

  lemma {:induction false} CbcInvertible(e: Cipher, d: Cipher, previous: Bytes, text: Bytes, n: nat)
    requires Blocks(e) && Blocks(d) && Inverse(e, d) && |previous| == BLOCK_SIZE && |text| == BLOCK_SIZE * n
    ensures CbcDecrypt(d, previous, CbcEncrypt(e, previous, text, n), n) == text
    decreases n
  {
    if n > 0 {
      var first, rest := text[..BLOCK_SIZE], text[BLOCK_SIZE..];
      var c := e(Xor(first, previous));
      OneBlock(e, d, previous, first);
      CbcInvertible(e, d, c, rest, n - 1);
      DecryptFirst(d, previous, c, CbcEncrypt(e, c, rest, n - 1), n);
      assert text == first + rest;
    }
  }

  lemma DecryptFirst(d: Cipher, previous: Bytes, c: Bytes, more: Bytes, n: nat)
    requires Blocks(d) && |previous| == |c| == BLOCK_SIZE && n > 0 && |more| == BLOCK_SIZE * (n - 1)
    ensures CbcDecrypt(d, previous, c + more, n) == Xor(d(c), previous) + CbcDecrypt(d, c, more, n - 1)
  {
    assert (c + more)[..BLOCK_SIZE] == c && (c + more)[BLOCK_SIZE..] == more;
  }

  lemma OneBlock(e: Cipher, d: Cipher, previous: Bytes, block: Bytes)
    requires Inverse(e, d) && |previous| == |block| == BLOCK_SIZE
    ensures Xor(d(e(Xor(block, previous))), previous) == block
  {
    XorTwice(block, previous);
  }

  // ---- Base64 (section 4 of RFC 4648) ----

  const PAD: bv8 := 61

  function Digit(v: bv8): bv8 {
    if v < 26 then v + 65 else if v < 52 then v + 71 else if v < 62 then v - 4 else if v == 62 then 43 else 47
  }

  function Undigit(c: bv8): Option<bv8> {
    if 65 <= c <= 90 then Some(c - 65)
    else if 97 <= c <= 122 then Some(c - 71)
    else if 48 <= c <= 57 then Some(c + 4)
    else if c == 43 then Some(62)
    else if c == 47 then Some(63)
    else None
  }

  lemma DigitInvertible(v: bv8)
    requires v < 64
    ensures Undigit(Digit(v)) == Some(v) && Digit(v) != PAD
  {
  }

  // The four 6-bit groups of three bytes.
  function Group(a: bv8, b: bv8, c: bv8): (r: (bv8, bv8, bv8, bv8))
    ensures r.0 < 64 && r.1 < 64 && r.2 < 64 && r.3 < 64
  {
    (a >> 2, ((a & 3) << 4) | (b >> 4), ((b & 15) << 2) | (c >> 6), c & 63)
  }

  function Ungroup(g: (bv8, bv8, bv8, bv8)): (bv8, bv8, bv8) {
    ((g.0 << 2) | (g.1 >> 4), (g.1 << 4) | (g.2 >> 2), (g.2 << 6) | g.3)
  }

  lemma GroupInvertible(a: bv8, b: bv8, c: bv8)
    ensures Ungroup(Group(a, b, c)) == (a, b, c)
  {
  }

  function Base64Encode(data: Bytes): (r: Bytes)
    ensures |r| % 4 == 0 && (r == [] <==> data == [])
    decreases |data|
  {
    if |data| == 0 then []
    else if |data| == 1 then
      var g := Group(data[0], 0, 0); [Digit(g.0), Digit(g.1), PAD, PAD]
    else if |data| == 2 then
      var g := Group(data[0], data[1], 0); [Digit(g.0), Digit(g.1), Digit(g.2), PAD]
    else
      var g := Group(data[0], data[1], data[2]);
      [Digit(g.0), Digit(g.1), Digit(g.2), Digit(g.3)] + Base64Encode(data[3..])
  }

  // The alphabet: A to Z, a to z, 0 to 9, plus and slash.
  lemma AlphabetExactly(v: bv8)
    ensures Digit(0) == 65 && Digit(26) == 97 && Digit(52) == 48 && Digit(62) == 43 && Digit(63) == 47
    ensures v < 25 || 26 <= v < 51 || 52 <= v < 61 ==> Digit(v + 1) == Digit(v) + 1
    ensures PAD == 61
  {
  }

  // The j-th six bits of 24, as a digit.
  function Sextet(v: bv24, j: nat): bv8
    requires j < 4
  {
    if j == 0 then ((v >> 18) & 63) as bv8
    else if j == 1 then ((v >> 12) & 63) as bv8
    else if j == 2 then ((v >> 6) & 63) as bv8
    else (v & 63) as bv8
  }

  function Joined(a: bv8, b: bv8, c: bv8): bv24 {
    ((a as bv24) << 16) | ((b as bv24) << 8) | (c as bv24)
  }

  lemma GroupIsSextets(a: bv8, b: bv8, c: bv8)
    ensures var g, v := Group(a, b, c), Joined(a, b, c);
            g.0 == Sextet(v, 0) && g.1 == Sextet(v, 1) && g.2 == Sextet(v, 2) && g.3 == Sextet(v, 3)
  {
  }

  // Three bytes are the digits of their 24 bits; of fewer, missing bits are zero and missing digits padding.
  lemma QuantumExactly(a: bv8, b: bv8, c: bv8)
    ensures var v := Joined(a, b, c);
            Base64Encode([a, b, c]) ==
            [Digit(Sextet(v, 0)), Digit(Sextet(v, 1)), Digit(Sextet(v, 2)), Digit(Sextet(v, 3))]
    ensures var v := Joined(a, b, 0);
            Base64Encode([a, b]) == [Digit(Sextet(v, 0)), Digit(Sextet(v, 1)), Digit(Sextet(v, 2)), PAD]
    ensures var v := Joined(a, 0, 0);
            Base64Encode([a]) == [Digit(Sextet(v, 0)), Digit(Sextet(v, 1)), PAD, PAD]
  {
    GroupIsSextets(a, b, c);
    GroupIsSextets(a, b, 0);
    GroupIsSextets(a, 0, 0);
    assert [a, b, c][3..] == [];
  }

  // And longer data is taken three bytes at a time.
  lemma {:induction false} Base64Distributes(front: Bytes, back: Bytes, n: nat)
    requires |front| == 3 * n
    ensures Base64Encode(front + back) == Base64Encode(front) + Base64Encode(back)
    decreases n
  {
    if n == 0 {
      assert front + back == back;
    } else {
      assert (front + back)[3..] == front[3..] + back;
      Base64Distributes(front[3..], back, n - 1);
    }
  }

  // One quantum of four characters; padding only in the last one.
  function DecodeQuantum(q: Bytes, last: bool): Option<Bytes>
    requires |q| == 4
  {
    var d0, d1, d2, d3 := Undigit(q[0]), Undigit(q[1]), Undigit(q[2]), Undigit(q[3]);
    if d0.None? || d1.None? then None
    else if last && q[2] == PAD && q[3] == PAD then Some([Ungroup((d0.value, d1.value, 0, 0)).0])
    else if d2.None? then None
    else if last && q[3] == PAD then
      var u := Ungroup((d0.value, d1.value, d2.value, 0)); Some([u.0, u.1])
    else if d3.None? then None
    else
      var u := Ungroup((d0.value, d1.value, d2.value, d3.value)); Some([u.0, u.1, u.2])
  }

  function Base64Decode(text: Bytes): Option<Bytes>
    decreases |text|
  {
    if |text| == 0 then Some([])
    else if |text| < 4 then None
    else
      match (DecodeQuantum(text[..4], |text| == 4), Base64Decode(text[4..]))
      case (Some(front), Some(rest)) => Some(front + rest)
      case _ => None
  }

  lemma QuantumOfThree(a: bv8, b: bv8, c: bv8, last: bool)
    ensures var g := Group(a, b, c);
            DecodeQuantum([Digit(g.0), Digit(g.1), Digit(g.2), Digit(g.3)], last) == Some([a, b, c])
  {
    var g := Group(a, b, c);
    DigitInvertible(g.0);
    DigitInvertible(g.1);
    DigitInvertible(g.2);
    DigitInvertible(g.3);
    GroupInvertible(a, b, c);
  }

  lemma QuantumOfTwo(a: bv8, b: bv8)
    ensures var g := Group(a, b, 0);
            DecodeQuantum([Digit(g.0), Digit(g.1), Digit(g.2), PAD], true) == Some([a, b])
  {
    var g := Group(a, b, 0);
    DigitInvertible(g.0);
    DigitInvertible(g.1);
    DigitInvertible(g.2);
    GroupInvertible(a, b, 0);
    assert g.3 == 0;
  }

  lemma QuantumOfOne(a: bv8)
    ensures var g := Group(a, 0, 0);
            DecodeQuantum([Digit(g.0), Digit(g.1), PAD, PAD], true) == Some([a])
  {
    var g := Group(a, 0, 0);
    DigitInvertible(g.0);
    DigitInvertible(g.1);
    GroupInvertible(a, 0, 0);
    assert g.2 == 0 && g.3 == 0;
  }

  lemma {:induction false} Base64Invertible(data: Bytes)
    ensures Base64Decode(Base64Encode(data)) == Some(data)
    decreases |data|
  {
    var text := Base64Encode(data);
    if |data| == 1 {
      QuantumOfOne(data[0]);
      assert text[..4] == text && text[4..] == [] && data == [data[0]] + [];
    } else if |data| == 2 {
      QuantumOfTwo(data[0], data[1]);
      assert text[..4] == text && text[4..] == [] && data == [data[0], data[1]] + [];
    } else if |data| >= 3 {
      var g := Group(data[0], data[1], data[2]);
      QuantumOfThree(data[0], data[1], data[2], |text| == 4);
      assert text[..4] == [Digit(g.0), Digit(g.1), Digit(g.2), Digit(g.3)] && text[4..] == Base64Encode(data[3..]);
      Base64Invertible(data[3..]);
      assert data == [data[0], data[1], data[2]] + data[3..];
    }
  }

  // ---- the transform ----

  // Whole blocks after padding.
  function BlockCount(data: Bytes): nat { |data| / BLOCK_SIZE + 1 }

  ghost function Encrypted(e: Cipher, ivText: Bytes, data: Bytes): Bytes
    requires Blocks(e)
  {
    PaddingInvertible(data);
    Base64Encode(CbcEncrypt(e, Iv(ivText), Pkcs5Padding(data), BlockCount(data)))
  }

  ghost function Decrypted(d: Cipher, ivText: Bytes, text: Bytes): Option<Bytes>
    requires Blocks(d)
  {
    var crypted := Base64Decode(text);
    if crypted.None? || |crypted.value| % BLOCK_SIZE != 0 then None
    else Unpad(CbcDecrypt(d, Iv(ivText), crypted.value, |crypted.value| / BLOCK_SIZE))
  }

  lemma WholeBlocks(n: nat)
    ensures (BLOCK_SIZE * n) / BLOCK_SIZE == n && (BLOCK_SIZE * n) % BLOCK_SIZE == 0
  {
  }

  lemma DecryptsBlocks(d: Cipher, ivText: Bytes, text: Bytes, crypted: Bytes, n: nat)
    requires Blocks(d) && Base64Decode(text) == Some(crypted) && |crypted| == BLOCK_SIZE * n
    ensures Decrypted(d, ivText, text) == Unpad(CbcDecrypt(d, Iv(ivText), crypted, n))
  {
    WholeBlocks(n);
  }

  // From the padded text on, the two chains are inverse.
  lemma ChainInvertible(e: Cipher, d: Cipher, ivText: Bytes, padded: Bytes, n: nat)
    requires Blocks(e) && Blocks(d) && Inverse(e, d) && |padded| == BLOCK_SIZE * n
    ensures Decrypted(d, ivText, Base64Encode(CbcEncrypt(e, Iv(ivText), padded, n))) == Unpad(padded)
  {
    var crypted := CbcEncrypt(e, Iv(ivText), padded, n);
    Base64Invertible(crypted);
    DecryptsBlocks(d, ivText, Base64Encode(crypted), crypted, n);
    CbcInvertible(e, d, Iv(ivText), padded, n);
  }

  // What the transform gives: the Base64 text of the padded data, chained from the vector.
  lemma EncryptedExactly(e: Cipher, ivText: Bytes, data: Bytes, k: nat)
    requires Blocks(e) && k < BlockCount(data)
    ensures var crypted := Base64Decode(Encrypted(e, ivText, data));
            && crypted.Some? && Base64Encode(crypted.value) == Encrypted(e, ivText, data)
            && |crypted.value| == |Pkcs5Padding(data)| == BLOCK_SIZE * BlockCount(data)
            && ChainsAt(e, Iv(ivText), Pkcs5Padding(data), crypted.value, k)
  {
    PaddingInvertible(data);
    var n, padded := BlockCount(data), Pkcs5Padding(data);
    ChainIsText(e, Iv(ivText), padded, n, k);
  }

  lemma ChainIsText(e: Cipher, iv: Bytes, padded: Bytes, n: nat, k: nat)
    requires Blocks(e) && |iv| == BLOCK_SIZE && |padded| == BLOCK_SIZE * n && k < n
    ensures var crypted := CbcEncrypt(e, iv, padded, n);
            Base64Decode(Base64Encode(crypted)) == Some(crypted) && ChainsAt(e, iv, padded, crypted, k)
  {
    Base64Invertible(CbcEncrypt(e, iv, padded, n));
    CbcChains(e, iv, padded, n, k);
  }

  // Whatever the data and the configured vector, the reverse chain gives the data back.
  lemma EncryptionInvertible(e: Cipher, d: Cipher, ivText: Bytes, data: Bytes)
    requires Blocks(e) && Blocks(d) && Inverse(e, d)
    ensures Decrypted(d, ivText, Encrypted(e, ivText, data)) == Some(data)
  {
    PaddingInvertible(data);
    ChainInvertible(e, d, ivText, Pkcs5Padding(data), BlockCount(data));
  }

  // The transform fills two buffers: the vector, and the cipher text block by block. `e` is the AES
  // block cipher under the first 16 bytes of the key's SHA-1 digest.
  method EncryptWithAES(e: Cipher, initializationVector: Bytes, params: seq<Value>) returns (r: Result<Bytes>)
    requires Blocks(e)
    ensures params == [] || CoerceType(params[0]).Failure? ==> r.Failure?
    ensures params != [] && CoerceType(params[0]).Success? ==>
              r == Success(Encrypted(e, initializationVector, CoerceType(params[0]).value))
  {
    if |params| < 1 { return Failure("no data received to encrypt"); }
    var data := CoerceType(params[0]);
    if data.Failure? { return Failure(data.error); }
    var iv := new bv8[16](i => 0);
    var n := 0;
    while n < iv.Length && n < |initializationVector|
      invariant 0 <= n <= 16 && n <= |initializationVector|
      invariant forall i :: 0 <= i < 16 ==> iv[i] == if i < n then initializationVector[i] else 0
    {
      iv[n] := initializationVector[n];
      n := n + 1;
    }
    assert iv[..] == Iv(initializationVector);
    var content := Pkcs5Padding(data.value);
    PaddingInvertible(data.value);
    var crypted := new bv8[|content|];
    CryptBlocks(e, iv[..], crypted, content, BlockCount(data.value));
    r := Success(Base64Encode(crypted[..]));
  }

  method CryptBlocks(e: Cipher, iv: Bytes, crypted: array<bv8>, content: Bytes, n: nat)
    requires Blocks(e) && |iv| == BLOCK_SIZE && |content| == BLOCK_SIZE * n && crypted.Length == |content|
    modifies crypted
    ensures crypted[..] == CbcEncrypt(e, iv, content, n)
  {
    var previous := iv;
    for k := 0 to n
      invariant |previous| == BLOCK_SIZE
      invariant crypted[..BLOCK_SIZE * k] + CbcEncrypt(e, previous, content[BLOCK_SIZE * k..], n - k) ==
                CbcEncrypt(e, iv, content, n)
    {
      var done := BLOCK_SIZE * k;
      BlockMoves(e, previous, crypted[..done], content[done..], n - k);
      previous := e(Xor(content[done..][..BLOCK_SIZE], previous));
      WriteBlock(crypted, done, previous);
      assert content[done..][BLOCK_SIZE..] == content[done + BLOCK_SIZE..];
    }
    assert crypted[..BLOCK_SIZE * n] == crypted[..];
  }

  lemma BlockMoves(e: Cipher, previous: Bytes, done: Bytes, text: Bytes, n: nat)
    requires Blocks(e) && |previous| == BLOCK_SIZE && n > 0 && |text| == BLOCK_SIZE * n
    ensures var c := e(Xor(text[..BLOCK_SIZE], previous));
            done + CbcEncrypt(e, previous, text, n) == (done + c) + CbcEncrypt(e, c, text[BLOCK_SIZE..], n - 1)
  {
  }

  method WriteBlock(a: array<bv8>, at: nat, block: Bytes)
    requires at + |block| <= a.Length
    modifies a
    ensures a[..at + |block|] == old(a[..at]) + block
  {
    forall i | 0 <= i < |block| { a[at + i] := block[i]; }
  }
}
