/** The binary glTF container (GLB, section 4.4 of the glTF 2.0 specification): a 12-byte
    header (magic, version, total length), then a JSON chunk and a BIN chunk, each with an
    8-byte chunk header (length, type). Every word is a little-endian unsigned 32-bit
    integer. The loader only reports a bad header word; it never stops on one. */
module Glb {
  import opened Wrappers

  type Byte = x: int | 0 <= x < 256

  const MAGIC: nat := 1179937895       // "glTF"
  const VERSION: nat := 2
  const JSON_CHUNK: nat := 1313821514  // "JSON"
  const BIN_CHUNK: nat := 5130562      // "BIN\0"
  const WORD: nat := 0x1_0000_0000

  function Pow256(n: nat): (r: nat)
    ensures r > 0
  {
    if n == 0 then 1 else 256 * Pow256(n - 1)
  }

  lemma Pow256Four()
    ensures Pow256(4) == WORD
  {
    assert Pow256(2) == 65536 by { assert Pow256(1) == 256; }
  }

  /** The unsigned little-endian value of `bytes`: it fits in |bytes| bytes. */
  function LittleEndian(bytes: seq<Byte>): (r: nat)
    ensures r < Pow256(|bytes|)
  {
    if |bytes| == 0 then 0
    else
      var rest := LittleEndian(bytes[1..]);
      assert rest <= Pow256(|bytes| - 1) - 1;
      assert 256 * rest <= 256 * Pow256(|bytes| - 1) - 256;
      bytes[0] + 256 * rest
  }

  /** The n low bytes of x, least significant first. */
  function ToLittleEndian(x: nat, n: nat): (bytes: seq<Byte>)
    ensures |bytes| == n
  {
    if n == 0 then [] else [x % 256] + ToLittleEndian(x / 256, n - 1)
  }

  lemma {:induction false} LittleEndianOfBytes(x: nat, n: nat)
    requires x < Pow256(n)
    ensures LittleEndian(ToLittleEndian(x, n)) == x
  {
    if n > 0 {
      var bytes := ToLittleEndian(x, n);
      assert bytes[1..] == ToLittleEndian(x / 256, n - 1);
      assert x / 256 < Pow256(n - 1);
      LittleEndianOfBytes(x / 256, n - 1);
    }
  }

  lemma {:induction false} BytesOfLittleEndian(bytes: seq<Byte>)
    ensures ToLittleEndian(LittleEndian(bytes), |bytes|) == bytes
  {
    if |bytes| > 0 {
      var x := LittleEndian(bytes);
      assert x % 256 == bytes[0] && x / 256 == LittleEndian(bytes[1..]);
      BytesOfLittleEndian(bytes[1..]);
    }
  }

  /** The 32-bit word at byte offset `at`. */
  function U32(b: seq<Byte>, at: nat): (r: nat)
    requires at + 4 <= |b|
    ensures r < WORD
  {
    Pow256Four();
    LittleEndian(b[at..at + 4])
  }

  datatype Warning = InvalidGlb | InvalidGltfChunk | InvalidBinChunk | InvalidLength

  /** The JSON chunk's bytes, the bytes from the BIN chunk's data on, and the header checks
      that failed, in the order they are made. */
  datatype Container = Container(json: seq<Byte>, bin: seq<Byte>, warnings: seq<Warning>)

  /** The buffer ends before the words and chunk the loader reads. */
  datatype GlbError = Truncated

  /** `load`'s header reads: magic, version and total length at 0, 4 and 8; the JSON chunk's
      length and type at 12 and 16, its text from 20; the BIN chunk's length and type right
      after the text; the binary data from there to the end of the buffer. */
  function Parse(b: seq<Byte>): (r: Result<Container, GlbError>)
    ensures r.Ok? <==> 20 <= |b| && 28 + U32(b, 12) <= |b|
    ensures r.Ok? ==>
      && r.value.json == b[20..20 + U32(b, 12)]
      && r.value.bin == b[28 + U32(b, 12)..]
      && |r.value.json| + |r.value.bin| + 28 == |b|
    ensures r.Ok? ==>
      && (InvalidGlb in r.value.warnings <==> U32(b, 0) != MAGIC || U32(b, 4) != VERSION)
      && (InvalidGltfChunk in r.value.warnings <==> U32(b, 16) != JSON_CHUNK)
      && (InvalidBinChunk in r.value.warnings <==> U32(b, 24 + U32(b, 12)) != BIN_CHUNK)
      && (InvalidLength in r.value.warnings <==> U32(b, 12) + U32(b, 20 + U32(b, 12)) + 28 != U32(b, 8))
  {
    if |b| < 20 then Err(Truncated)
    else
      var gltfLength := U32(b, 12);
      if |b| < 28 + gltfLength then Err(Truncated)
      else
        var binLength := U32(b, 20 + gltfLength);
        var warnings :=
          (if U32(b, 0) != MAGIC || U32(b, 4) != VERSION then [InvalidGlb] else [])
          + (if U32(b, 16) != JSON_CHUNK then [InvalidGltfChunk] else [])
          + (if U32(b, 24 + gltfLength) != BIN_CHUNK then [InvalidBinChunk] else [])
          + (if gltfLength + binLength + 28 != U32(b, 8) then [InvalidLength] else []);
        Ok(Container(b[20..20 + gltfLength], b[28 + gltfLength..], warnings))
  }

  /** The words `xs`, four little-endian bytes each. */
  function Words(xs: seq<nat>): (b: seq<Byte>)
    ensures |b| == 4 * |xs|
  {
    if |xs| == 0 then [] else ToLittleEndian(xs[0], 4) + Words(xs[1..])
  }

  /** A well-formed container holding `json` and `bin` (without the 4-byte chunk padding,
      which the loader does not look at): the file header and the JSON chunk's header, the
      JSON text, the BIN chunk's header, the binary data. */
  function Encode(json: seq<Byte>, bin: seq<Byte>): (b: seq<Byte>)
    requires 28 + |json| + |bin| < WORD
    ensures |b| == 28 + |json| + |bin|
  {
    Words([MAGIC, VERSION, 28 + |json| + |bin|, |json|, JSON_CHUNK]) + json
      + Words([|bin|, BIN_CHUNK]) + bin
  }

  lemma WordAt(b: seq<Byte>, at: nat, x: nat)
    requires x < WORD && at + 4 <= |b| && b[at..at + 4] == ToLittleEndian(x, 4)
    ensures U32(b, at) == x
  {
    Pow256Four();
    LittleEndianOfBytes(x, 4);
  }

  /** The i-th word of `Words(xs)` reads back as xs[i]. */
  lemma {:induction false} WordsAt(xs: seq<nat>, i: nat)
    requires i < |xs| && xs[i] < WORD
    ensures U32(Words(xs), 4 * i) == xs[i]
  {
    var b := Words(xs);
    if i == 0 {
      assert b[0..4] == ToLittleEndian(xs[0], 4);
      WordAt(b, 0, xs[0]);
    } else {
      WordsAt(xs[1..], i - 1);
      var rest := Words(xs[1..]);
      assert b[4 * i..4 * i + 4] == rest[4 * (i - 1)..4 * (i - 1) + 4];
    }
  }

  /** A word read inside `p` is not affected by what follows `p`. */
  lemma WordBefore(p: seq<Byte>, q: seq<Byte>, at: nat)
    requires at + 4 <= |p|
    ensures U32(p + q, at) == U32(p, at)
  {
    assert (p + q)[at..at + 4] == p[at..at + 4];
  }

  /** A word read inside `q` is not affected by what precedes `q`. */
  lemma WordAfter(p: seq<Byte>, q: seq<Byte>, at: nat)
    requires at + 4 <= |q|
    ensures U32(p + q, |p| + at) == U32(q, at)
  {
    assert (p + q)[|p| + at..|p| + at + 4] == q[at..at + 4];
  }

  /** The five words of the file and JSON chunk headers, as `Parse` reads them. */
  lemma EncodeHeader(json: seq<Byte>, bin: seq<Byte>)
    requires 28 + |json| + |bin| < WORD
    ensures var b := Encode(json, bin);
      U32(b, 0) == MAGIC && U32(b, 4) == VERSION && U32(b, 8) == 28 + |json| + |bin|
      && U32(b, 12) == |json| && U32(b, 16) == JSON_CHUNK
  {
    var xs := [MAGIC, VERSION, 28 + |json| + |bin|, |json|, JSON_CHUNK];
    var h, t := Words(xs), Words([|bin|, BIN_CHUNK]);
    forall i | 0 <= i < 5
      ensures U32(h + json + t + bin, 4 * i) == xs[i]
    {
      WordsAt(xs, i);
      WordBefore(h, json, 4 * i);
      WordBefore(h + json, t, 4 * i);
      WordBefore(h + json + t, bin, 4 * i);
    }
    assert U32(h + json + t + bin, 4 * 1) == xs[1];
    assert U32(h + json + t + bin, 4 * 2) == xs[2];
    assert U32(h + json + t + bin, 4 * 3) == xs[3];
    assert U32(h + json + t + bin, 4 * 4) == xs[4];
  }

  /** The two words of the BIN chunk header, as `Parse` reads them. */
  lemma EncodeBinHeader(json: seq<Byte>, bin: seq<Byte>)
    requires 28 + |json| + |bin| < WORD
    ensures var b := Encode(json, bin);
      U32(b, 20 + |json|) == |bin| && U32(b, 24 + |json|) == BIN_CHUNK
  {
    var ys := [|bin|, BIN_CHUNK];
    var h, t := Words([MAGIC, VERSION, 28 + |json| + |bin|, |json|, JSON_CHUNK]), Words(ys);
    forall j | 0 <= j < 2
      ensures U32(h + json + t + bin, 20 + |json| + 4 * j) == ys[j]
    {
      WordsAt(ys, j);
      WordAfter(h + json, t, 4 * j);
      WordBefore(h + json + t, bin, 20 + |json| + 4 * j);
    }
    assert U32(h + json + t + bin, 20 + |json| + 4 * 1) == ys[1];
  }

  /** Parsing what `Encode` writes gives back the two chunks with no warning. */
  lemma ParseEncode(json: seq<Byte>, bin: seq<Byte>)
    requires 28 + |json| + |bin| < WORD
    ensures Parse(Encode(json, bin)) == Ok(Container(json, bin, []))
  {
    var b := Encode(json, bin);
    var h, t := Words([MAGIC, VERSION, 28 + |json| + |bin|, |json|, JSON_CHUNK]), Words([|bin|, BIN_CHUNK]);
    EncodeHeader(json, bin);
    EncodeBinHeader(json, bin);
    assert b[20..20 + |json|] == json by {
      assert b == h + json + t + bin;
      assert forall k | 0 <= k < |json| :: b[20 + k] == json[k];
    }
    assert b[28 + |json|..] == bin;
  }

  /** The header checks only warn: whatever the first twelve bytes say, the chunks read are
      the same. */
  lemma HeaderWordsOnlyWarn(b: seq<Byte>, header: seq<Byte>)
    requires |header| == 12 && 12 <= |b|
    ensures var b' := header + b[12..];
      Parse(b').Ok? == Parse(b).Ok?
      && (Parse(b).Ok? ==> Parse(b').value.json == Parse(b).value.json && Parse(b').value.bin == Parse(b).value.bin)
  {
    var b' := header + b[12..];
    if 20 <= |b| {
      assert b'[12..16] == b[12..16];
      if 28 + U32(b, 12) <= |b| {
        assert b'[20..20 + U32(b, 12)] == b[20..20 + U32(b, 12)];
        assert b'[28 + U32(b, 12)..] == b[28 + U32(b, 12)..];
      }
    }
  }
}
