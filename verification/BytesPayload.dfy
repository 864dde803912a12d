/** The deterministic body: three ways of producing the bytes 0, 1, ..., 255, 0, 1, ... are the same sequence. */
module BytesPayload {
  import opened Common

  /** Byte i of the body is i mod 256. */
  function Pattern(n: nat): (r: Bytes)
    ensures |r| == n
  {
    seq(n, i requires 0 <= i < n => i % 256)
  }

  function Repeat(block: Bytes, times: nat): Bytes {
    if times == 0 then [] else Repeat(block, times - 1) + block
  }

  const BYTE_PATTERN := Pattern(256)
  const DIGEST_BLOCK_SIZE := 65536

  /** Each part is a prefix of the whole. */
  lemma PatternPrefix(n: nat, k: nat)
    requires k <= n
    ensures Pattern(n)[..k] == Pattern(k)
  {
  }

  /** Whole periods followed by a shorter body continue the sequence. */
  lemma PatternContinues(whole: nat, rest: nat)
    requires whole % 256 == 0
    ensures Pattern(whole) + Pattern(rest) == Pattern(whole + rest)
  {
    forall i | 0 <= i < rest ensures (whole + i) % 256 == i % 256 {
      Shifted(whole, i);
    }
  }

  lemma Shifted(whole: nat, i: nat)
    requires whole % 256 == 0
    ensures (whole + i) % 256 == i % 256
  {
  }

  lemma {:induction false} RepeatPattern(size: nat, times: nat)
    requires size % 256 == 0
    ensures times * size % 256 == 0
    ensures Repeat(Pattern(size), times) == Pattern(times * size)
  {
    if times > 0 {
      RepeatPattern(size, times - 1);
      var whole: nat := (times - 1) * size;
      assert times * size == whole + size;
      Shifted(whole, size);
      PatternContinues(whole, size);
    }
  }

  /** `divmod(n, size)` for a positive size. */
  lemma Divided(n: nat, size: nat)
    requires size > 0
    ensures 0 <= n / size && 0 <= n % size < size && n == n / size * size + n % size
  {
  }

  function StreamingBytesPayload(n: nat): Bytes {
    Divided(n, 256);
    Repeat(BYTE_PATTERN, n / 256) + BYTE_PATTERN[..n % 256]
  }

  lemma PayloadIsPattern(n: nat)
    ensures StreamingBytesPayload(n) == Pattern(n)
  {
    Divided(n, 256);
    var times, rest: nat := n / 256, n % 256;
    RepeatPattern(256, times);
    PatternPrefix(256, rest);
    PatternContinues(times * 256, rest);
  }

  const BODY_BYTES := 1048576

  /** The server's body: enough copies of one mebibyte, cut to length. */
  function ServerBody(n: nat): Bytes {
    var copies := (n + BODY_BYTES - 1) / BODY_BYTES;
    var all := Repeat(Repeat(BYTE_PATTERN, 4096), copies);
    if n <= |all| then all[..n] else all
  }

  lemma ServerBodyIsPattern(n: nat)
    ensures ServerBody(n) == Pattern(n)
  {
    var copies: nat := (n + BODY_BYTES - 1) / BODY_BYTES;
    RepeatPattern(256, 4096);
    assert Repeat(BYTE_PATTERN, 4096) == Pattern(BODY_BYTES);
    RepeatPattern(BODY_BYTES, copies);
    EnoughCopies(n, BODY_BYTES);
    PatternPrefix(copies * BODY_BYTES, n);
  }

  lemma EnoughCopies(n: nat, size: nat)
    requires size > 0
    ensures (n + size - 1) / size * size >= n
  {
    Divided(n + size - 1, size);
  }

  /** `streaming_bytes_sha256`: the digest of blockwise updates is the digest of the body. */
  method StreamingBytesSha256<D>(sha: Bytes -> D, n: nat) returns (digest: D)
    ensures digest == sha(Pattern(n))
  {
    var block := Repeat(BYTE_PATTERN, 256);
    RepeatPattern(256, 256);
    Divided(n, DIGEST_BLOCK_SIZE);
    var blocks, remaining := n / DIGEST_BLOCK_SIZE, n % DIGEST_BLOCK_SIZE;
    var updated: Bytes := [];
    for k := 0 to blocks
      invariant updated == Repeat(block, k)
    {
      updated := updated + block;
    }
    RepeatPattern(DIGEST_BLOCK_SIZE, blocks);
    PatternPrefix(DIGEST_BLOCK_SIZE, remaining);
    PatternContinues(blocks * DIGEST_BLOCK_SIZE, remaining);
    updated := updated + block[..remaining];
    digest := sha(updated);
  }
}
