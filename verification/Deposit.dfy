/** Deposits: a file is cut into chunks, each sealed under its index, and read back. */
module Deposit {
  import opened Wrappers
  import opened Chunks

  const NONCE_BYTES: nat := 12
  const TAG_BYTES: nat := 16
  const OVERHEAD: nat := NONCE_BYTES + TAG_BYTES

  /** Authenticated encryption of one message under one key and nonce. */
  datatype Aead = Aead(seal: (Bytes, Bytes) -> Bytes, open: (Bytes, Bytes) -> Option<Bytes>)

  /** Opening undoes sealing under the same nonce, and sealing adds a tag. */
  ghost predicate Lawful(c: Aead) {
    forall nonce, text :: |c.seal(nonce, text)| == |text| + TAG_BYTES && c.open(nonce, c.seal(nonce, text)) == Some(text)
  }

  function Power256(k: nat): nat {
    if k == 0 then 1 else 256 * Power256(k - 1)
  }

  /** `n.to_bytes(k, "big")`, which exists only for numbers that fit. */
  function BigEndian(n: nat, k: nat): (r: Bytes)
    requires n < Power256(k)
    ensures |r| == k
  {
    if k == 0 then [] else BigEndian(n / 256, k - 1) + [(n % 256) as byte]
  }

  const NONCES: nat := Power256(NONCE_BYTES)

  /** No two chunks of a deposit share a nonce. */
  lemma {:induction false} BigEndianInjective(m: nat, n: nat, k: nat)
    requires m < Power256(k) && n < Power256(k) && BigEndian(m, k) == BigEndian(n, k)
    ensures m == n
  {
    if k == 0 {
    } else {
      var a, b := BigEndian(m, k), BigEndian(n, k);
      assert a[..k - 1] == BigEndian(m / 256, k - 1) && b[..k - 1] == BigEndian(n / 256, k - 1);
      assert a[k - 1] == b[k - 1];
      BigEndianInjective(m / 256, n / 256, k - 1);
    }
  }

  function EncryptChunk(c: Aead, chunk: Bytes, idx: nat): Bytes
    requires idx < NONCES
  {
    BigEndian(idx, NONCE_BYTES) + c.seal(BigEndian(idx, NONCE_BYTES), chunk)
  }

  /** Too short, wrong position or failed check: no plaintext. */
  function DecryptChunk(c: Aead, blob: Bytes, idx: nat): Option<Bytes>
    requires idx < NONCES
  {
    if |blob| < OVERHEAD || blob[..NONCE_BYTES] != BigEndian(idx, NONCE_BYTES) then None
    else c.open(blob[..NONCE_BYTES], blob[NONCE_BYTES..])
  }

  /** The chunks of a deposit as they are stored. */
  function EncryptAll(c: Aead, parts: seq<Bytes>): (stored: seq<Bytes>)
    requires |parts| <= NONCES
    ensures |stored| == |parts|
  {
    seq(|parts|, i requires 0 <= i < |parts| => EncryptChunk(c, parts[i], i))
  }

  /** Decrypting chunk by chunk from `i` on, failing at the first chunk that fails. */
  function DecryptFrom(c: Aead, stored: seq<Bytes>, i: nat): Option<Bytes>
    requires i <= |stored| <= NONCES
    decreases |stored| - i
  {
    if i == |stored| then Some([])
    else
      var head := DecryptChunk(c, stored[i], i);
      if head.None? then None
      else
        var tail := DecryptFrom(c, stored, i + 1);
        if tail.None? then None else Some(head.value + tail.value)
  }

  function After(written: Bytes, rest: Option<Bytes>): Option<Bytes> {
    if rest.None? then None else Some(written + rest.value)
  }

  /** The loop that writes the plaintext out. */
  method DecryptAll(c: Aead, stored: seq<Bytes>) returns (file: Option<Bytes>)
    requires |stored| <= NONCES
    ensures file == DecryptFrom(c, stored, 0)
  {
    var written: Bytes := [];
    ghost var all := DecryptFrom(c, stored, 0);
    assert all.Some? ==> [] + all.value == all.value;
    for idx := 0 to |stored|
      invariant DecryptFrom(c, stored, 0) == After(written, DecryptFrom(c, stored, idx))
    {
      var chunk := DecryptChunk(c, stored[idx], idx);
      if chunk.None? {
        return None;
      }
      ghost var rest := DecryptFrom(c, stored, idx + 1);
      assert rest.Some? ==> written + (chunk.value + rest.value) == (written + chunk.value) + rest.value;
      written := written + chunk.value;
    }
    assert written + [] == written;
    file := Some(written);
  }

  lemma ChunkRoundTrip(c: Aead, chunk: Bytes, idx: nat)
    requires Lawful(c) && idx < NONCES
    ensures |EncryptChunk(c, chunk, idx)| == |chunk| + OVERHEAD
    ensures DecryptChunk(c, EncryptChunk(c, chunk, idx), idx) == Some(chunk)
  {
    var nonce := BigEndian(idx, NONCE_BYTES);
    var blob := EncryptChunk(c, chunk, idx);
    assert blob[..NONCE_BYTES] == nonce && blob[NONCE_BYTES..] == c.seal(nonce, chunk);
  }

  /** A chunk only opens at its own position. */
  lemma ChunkOutOfPlace(c: Aead, chunk: Bytes, i: nat, j: nat)
    requires i < NONCES && j < NONCES
    ensures DecryptChunk(c, EncryptChunk(c, chunk, i), j).Some? ==> i == j
  {
    var blob := EncryptChunk(c, chunk, i);
    assert blob[..NONCE_BYTES] == BigEndian(i, NONCE_BYTES);
    if BigEndian(i, NONCE_BYTES) == BigEndian(j, NONCE_BYTES) {
      BigEndianInjective(i, j, NONCE_BYTES);
    }
  }

  lemma {:induction false} DecryptStored(c: Aead, parts: seq<Bytes>, i: nat)
    requires Lawful(c) && i <= |parts| <= NONCES
    ensures DecryptFrom(c, EncryptAll(c, parts), i) == Some(Flatten(parts[i..]))
    decreases |parts| - i
  {
    if i < |parts| {
      ChunkRoundTrip(c, parts[i], i);
      DecryptStored(c, parts, i + 1);
      assert parts[i..][1..] == parts[i + 1..];
    }
  }

  lemma StoredRegular(c: Aead, parts: seq<Bytes>, n: nat)
    requires Lawful(c) && Regular(parts, n) && |parts| <= NONCES
    ensures Regular(EncryptAll(c, parts), n + OVERHEAD)
  {
    forall i | 0 <= i < |parts|
      ensures |EncryptAll(c, parts)[i]| == |parts[i]| + OVERHEAD
    {
      ChunkRoundTrip(c, parts[i], i);
    }
  }

  /** Deposit round trip: cut, seal each chunk, concatenate, slice the blob again, decrypt. The file
      comes back, and the slices are as many as the deposit recorded. */
  lemma DepositRoundTrip(c: Aead, file: Bytes, n: nat)
    requires Lawful(c) && n > 0 && ChunkCount(|file|, n) <= NONCES
    ensures |Cut(file, n)| <= NONCES
    ensures var blob := Flatten(EncryptAll(c, Cut(file, n)));
            var chunks := Cut(blob, n + OVERHEAD);
            && |chunks| == ChunkCount(|file|, n)
            && DecryptFrom(c, chunks, 0) == Some(file)
  {
    CutCount(file, n);
    var parts := Cut(file, n);
    StoredRegular(c, parts, n);
    CutFlatten(EncryptAll(c, parts), n + OVERHEAD);
    DecryptStored(c, parts, 0);
    assert parts[0..] == parts;
    FlattenCut(file, n);
  }

  ghost predicate IsChunk(c: Aead, parts: seq<Bytes>, blob: Bytes, j: int)
    requires |parts| <= NONCES
  {
    0 <= j < |parts| && blob == EncryptChunk(c, parts[j], j)
  }

  /** Every stored chunk is one of this deposit's. */
  ghost predicate Rearranged(c: Aead, parts: seq<Bytes>, stored: seq<Bytes>)
    requires |parts| <= NONCES
  {
    forall i :: 0 <= i < |stored| ==> exists j :: IsChunk(c, parts, stored[i], j)
  }

  ghost predicate InPlace(c: Aead, parts: seq<Bytes>, stored: seq<Bytes>, i: nat)
    requires |parts| <= NONCES
  {
    forall k :: i <= k < |stored| ==> IsChunk(c, parts, stored[k], k)
  }

  lemma {:induction false} DecryptedInPlace(c: Aead, parts: seq<Bytes>, stored: seq<Bytes>, i: nat)
    requires |parts| <= NONCES && i <= |stored| <= NONCES && Rearranged(c, parts, stored)
    requires DecryptFrom(c, stored, i).Some?
    ensures InPlace(c, parts, stored, i)
    decreases |stored| - i
  {
    if i < |stored| {
      var j :| IsChunk(c, parts, stored[i], j);
      ChunkOutOfPlace(c, parts[j], j, i);
      DecryptedInPlace(c, parts, stored, i + 1);
    }
  }

  /** Chunks that were swapped, repeated or moved are noticed: reading back succeeds exactly when the
      stored chunks are the first so many, in order. */
  lemma OrderIsChecked(c: Aead, parts: seq<Bytes>, stored: seq<Bytes>)
    requires Lawful(c) && |parts| <= NONCES && |stored| <= NONCES && Rearranged(c, parts, stored)
    ensures DecryptFrom(c, stored, 0).Some? <==> stored <= EncryptAll(c, parts)
  {
    if DecryptFrom(c, stored, 0).Some? {
      DecryptedInPlace(c, parts, stored, 0);
      assert |stored| > 0 ==> IsChunk(c, parts, stored[|stored| - 1], |stored| - 1);
      assert forall k :: 0 <= k < |stored| ==> IsChunk(c, parts, stored[k], k);
    }
    if stored <= EncryptAll(c, parts) {
      PrefixDecrypts(c, parts, stored);
    }
  }

  lemma PrefixDecrypts(c: Aead, parts: seq<Bytes>, stored: seq<Bytes>)
    requires Lawful(c) && |parts| <= NONCES && stored <= EncryptAll(c, parts)
    ensures DecryptFrom(c, stored, 0).Some?
  {
    var front := parts[..|stored|];
    assert stored == EncryptAll(c, front);
    DecryptStored(c, front, 0);
  }
}
