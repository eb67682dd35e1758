// packages/bam-sdk/src/bpe.ts: the codec. Greedy longest match to 12-bit codes, two codes per three
// bytes, and a two-pass decode. What a dictionary must satisfy for the codec to be lossless.
module Bpe {
  import opened Wrappers
  import opened Bytes

  const TOTAL_CODES: nat := 4096
  const DICT_BYTES_SIZE: nat := 10240

  type Token = bytes
  type Code = c: nat | c < 4096
  type u16 = x: nat | x < 65536
  type TokenMap = map<Token, Code>

  datatype Dictionary = Dictionary(
    tokenToCode: TokenMap, dictBytes: bytes, dictOffsets: seq<u16>, dictLengths: seq<byte>)
  {
    predicate Shaped() {
      |dictBytes| == DICT_BYTES_SIZE && |dictOffsets| == |dictLengths| == TOTAL_CODES
    }
  }

  /** `data[i]`, which is undefined past the end and then stored as zero. */
  function ByteAt(data: bytes, i: nat): byte {
    if i < |data| then data[i] else 0
  }

  /** The `length` bytes at `start`, as `toKey` and the decoder read them. */
  function Slice(data: bytes, start: nat, length: nat): (t: Token)
    ensures |t| == length
    ensures start + length <= |data| ==> t == data[start..start + length]
  {
    if start + length <= |data| then data[start..start + length]
    else seq<byte>(length, j requires 0 <= j < length => ByteAt(data, start + j))
  }

  /** The token the decoder writes for a code. */
  function TokenAt(d: Dictionary, c: Code): Token
    requires d.Shaped()
  {
    Slice(d.dictBytes, d.dictOffsets[c], d.dictLengths[c])
  }

  // ----- encoding -----

  datatype Match = Match(code: Code, length: nat)

  function Found(m: TokenMap, rest: bytes, n: nat): bool {
    n <= |rest| && rest[..n] in m
  }

  /** Longest match first; code 0 is never a 4-byte match. A missing single byte is pushed as undefined,
      which packs as zero. */
  function Greedy(m: TokenMap, rest: bytes): (r: Match)
    requires rest != []
    ensures 1 <= r.length <= 4 && r.length <= |rest|
  {
    if Found(m, rest, 4) && m[rest[..4]] > 0 then Match(m[rest[..4]], 4)
    else if Found(m, rest, 3) then Match(m[rest[..3]], 3)
    else if Found(m, rest, 2) then Match(m[rest[..2]], 2)
    else Match(if Found(m, rest, 1) then m[rest[..1]] else 0, 1)
  }

  function Codes(m: TokenMap, data: bytes): seq<Code>
    decreases |data|
  {
    if data == [] then [] else [Greedy(m, data).code] + Codes(m, data[Greedy(m, data).length..])
  }

  function Padded(codes: seq<Code>): (r: seq<Code>)
    ensures |r| % 2 == 0
  {
    if |codes| % 2 != 0 then codes + [0] else codes
  }

  function Word(c1: Code, c2: Code): (w: bytes)
    ensures |w| == 3
  {
    [c1 / 16, c1 % 16 * 16 + c2 / 256, c2 % 256]
  }

  function Packed(codes: seq<Code>): (r: bytes)
    requires |codes| % 2 == 0
    ensures |r| == |codes| / 2 * 3
  {
    if codes == [] then [] else Word(codes[0], codes[1]) + Packed(codes[2..])
  }

  function Encoded(m: TokenMap, data: bytes): bytes {
    Packed(Padded(Codes(m, data)))
  }

  lemma {:induction false} CodesStep(m: TokenMap, data: bytes, i: nat)
    requires i < |data|
    ensures Codes(m, data[i..]) == [Greedy(m, data[i..]).code] + Codes(m, data[i + Greedy(m, data[i..]).length..])
  {
    assert data[i..][Greedy(m, data[i..]).length..] == data[i + Greedy(m, data[i..]).length..];
  }

  method BpeEncode(data: bytes, dict: Dictionary) returns (out: bytes)
    ensures out == Encoded(dict.tokenToCode, data)
  {
    hide Codes;
    var m := dict.tokenToCode;
    var codes: seq<Code> := [];
    var i := 0;
    while i < |data|
      invariant 0 <= i <= |data|
      invariant Codes(m, data) == codes + Codes(m, data[i..])
    {
      CodesStep(m, data, i);
      var code, length := MatchAt(data, i, m);
      codes := codes + [code];
      i := i + length;
    }
    assert data[i..] == [];
    NoCodes(m);
    assert codes + [] == codes;
    if |codes| % 2 != 0 {
      codes := codes + [0];
    }
    out := PackWords(codes);
  }

  lemma {:induction false} NoCodes(m: TokenMap)
    ensures Codes(m, []) == []
  {
  }

  /** The body of the encoding loop: try four, three, two bytes, then fall back to one. */
  method MatchAt(data: bytes, i: nat, m: TokenMap) returns (code: Code, length: nat)
    requires i < |data|
    ensures Match(code, length) == Greedy(m, data[i..])
  {
    ghost var rest := data[i..];
    if i + 4 <= |data| {
      var key := data[i..i + 4];
      assert key == rest[..4];
      if key in m && m[key] > 0 {
        return m[key], 4;
      }
    }
    if i + 3 <= |data| {
      var key := data[i..i + 3];
      assert key == rest[..3];
      if key in m {
        return m[key], 3;
      }
    }
    if i + 2 <= |data| {
      var key := data[i..i + 2];
      assert key == rest[..2];
      if key in m {
        return m[key], 2;
      }
    }
    assert [data[i]] == rest[..1];
    return if [data[i]] in m then m[[data[i]]] else 0, 1;
  }

  /** The packing loop: two 12-bit codes make a 24-bit word, written as three bytes. */
  method PackWords(codes: seq<Code>) returns (out: bytes)
    requires |codes| % 2 == 0
    ensures out == Packed(codes)
  {
    hide Packed, Word;
    var buf := new byte[|codes| / 2 * 3];
    var j := 0;
    ghost var rest := Packed(codes);
    assert codes[0..] == codes;
    while j < |codes|
      invariant 0 <= j <= |codes| && j % 2 == 0
      invariant rest == Packed(codes[j..])
      invariant buf[..j / 2 * 3] + rest == Packed(codes)
    {
      PackStep(codes, j);
      ghost var done, word3 := buf[..j / 2 * 3], Word(codes[j], codes[j + 1]);
      rest := Packed(codes[j + 2..]);
      assert done + (word3 + rest) == (done + word3) + rest;
      WriteWord(codes[j], codes[j + 1], buf, j / 2 * 3);
      j := j + 2;
    }
    assert codes[j..] == [] && buf[..j / 2 * 3] == buf[..];
    return buf[..];
  }

  method WriteWord(code1: Code, code2: Code, buf: array<byte>, idx: nat)
    requires idx + 3 <= buf.Length
    modifies buf
    ensures buf[..idx + 3] == old(buf[..idx]) + Word(code1, code2)
  {
    var word := WordValue(code1, code2);
    WordBytes(code1, code2);
    buf[idx] := word / 65536 % 256;
    buf[idx + 1] := word / 256 % 256;
    buf[idx + 2] := word % 256;
  }

  lemma {:induction false} PackStep(codes: seq<Code>, j: nat)
    requires |codes| % 2 == 0 && j % 2 == 0 && j < |codes|
    ensures Packed(codes[j..]) == Word(codes[j], codes[j + 1]) + Packed(codes[j + 2..])
  {
    assert codes[j..][2..] == codes[j + 2..];
  }

  /** Two codes side by side, the first in the upper 12 bits. */
  function WordValue(code1: int, code2: int): int {
    code1 * 4096 + code2
  }

  lemma {:induction false} WordBytes(c1: Code, c2: Code)
    ensures var word := WordValue(c1, c2);
      && c1 / 16 == word / 65536 % 256
      && c1 % 16 * 16 + c2 / 256 == word / 256 % 256
      && c2 % 256 == word % 256
  {
    var q, r, s, u := c1 / 16, c1 % 16, c2 / 256, c2 % 256;
    var word := WordValue(c1, c2);
    assert word == (q * 256 + (r * 16 + s)) * 256 + u;
    assert word / 256 == q * 256 + (r * 16 + s);
    assert word / 65536 == q;
  }

  // ----- decoding -----

  function First(a: byte, b: byte): Code {
    a * 16 + b / 16
  }

  function Second(b: byte, c: byte): Code {
    b % 16 * 256 + c
  }

  function Unpacked(data: bytes): seq<Code>
    requires |data| % 3 == 0
  {
    if data == [] then [] else [First(data[0], data[1]), Second(data[1], data[2])] + Unpacked(data[3..])
  }

  /** Code 0 is padding and writes nothing. */
  function Emit(d: Dictionary, c: Code): Token
    requires d.Shaped()
  {
    if c == 0 then [] else TokenAt(d, c)
  }

  function Expanded(d: Dictionary, codes: seq<Code>): bytes
    requires d.Shaped()
  {
    if codes == [] then [] else Emit(d, codes[0]) + Expanded(d, codes[1..])
  }

  datatype DecodeError = NotWordAligned

  function Decoded(d: Dictionary, data: bytes): Result<bytes, DecodeError>
    requires d.Shaped()
  {
    if |data| % 3 != 0 then Err(NotWordAligned) else Ok(Expanded(d, Unpacked(data)))
  }

  method BpeDecode(data: bytes, d: Dictionary) returns (r: Result<bytes, DecodeError>)
    requires d.Shaped()
    ensures r == Decoded(d, data)
  {
    if |data| % 3 != 0 {
      return Err(NotWordAligned);
    }
    var totalLen := MeasureWords(data, d);
    var out := WriteWords(data, d, totalLen);
    return Ok(out);
  }

  function SizeOf(d: Dictionary, c: Code): nat
    requires d.Shaped()
  {
    if c == 0 then 0 else d.dictLengths[c]
  }

  /** How much the words from `i` on expand to. */
  function SizeFrom(d: Dictionary, data: bytes, i: nat): nat
    requires d.Shaped() && |data| % 3 == 0 && i % 3 == 0 && i <= |data|
  {
    |Expanded(d, Unpacked(data[i..]))|
  }

  lemma {:induction false} WordSize(d: Dictionary, data: bytes, i: nat)
    requires d.Shaped() && |data| % 3 == 0 && i % 3 == 0 && i < |data|
    ensures SizeFrom(d, data, i)
            == SizeOf(d, First(data[i], data[i + 1])) + SizeOf(d, Second(data[i + 1], data[i + 2])) + SizeFrom(d, data, i + 3)
  {
    UnpackStep(d, data, i);
    EmitSize(d, First(data[i], data[i + 1]));
    EmitSize(d, Second(data[i + 1], data[i + 2]));
    hide Expanded, Unpacked, Emit, First, Second, SizeOf;
  }

  lemma {:induction false} SizeEnds(d: Dictionary, data: bytes)
    requires d.Shaped() && |data| % 3 == 0
    ensures SizeFrom(d, data, 0) == |Expanded(d, Unpacked(data))| && SizeFrom(d, data, |data|) == 0
  {
    assert data[0..] == data && data[|data|..] == [];
    assert Unpacked([]) == [];
  }

  /** First pass: the output size. */
  method MeasureWords(data: bytes, d: Dictionary) returns (totalLen: nat)
    requires d.Shaped() && |data| % 3 == 0
    ensures totalLen == |Expanded(d, Unpacked(data))|
  {
    hide TokenAt, First, Second, SizeFrom;
    totalLen := 0;
    var i := 0;
    while i < |data|
      invariant 0 <= i <= |data| && i % 3 == 0
      invariant SizeFrom(d, data, 0) == totalLen + SizeFrom(d, data, i)
    {
      WordSize(d, data, i);
      var code1, code2 := SplitWord(data[i], data[i + 1], data[i + 2]);
      if code1 != 0 { totalLen := totalLen + d.dictLengths[code1]; }
      if code2 != 0 { totalLen := totalLen + d.dictLengths[code2]; }
      i := i + 3;
    }
    SizeEnds(d, data);
  }

  lemma {:induction false} EmitSize(d: Dictionary, c: Code)
    requires d.Shaped()
    ensures |Emit(d, c)| == SizeOf(d, c)
  {
  }

  /** Second pass: the tokens. */
  method WriteWords(data: bytes, d: Dictionary, totalLen: nat) returns (r: bytes)
    requires d.Shaped() && |data| % 3 == 0 && totalLen == |Expanded(d, Unpacked(data))|
    ensures r == Expanded(d, Unpacked(data))
  {
    hide Emit, Expanded, Unpacked;
    var out := new byte[totalLen];
    var pos: nat := 0;
    var i := 0;
    ghost var rest := Expanded(d, Unpacked(data));
    assert data[0..] == data;
    while i < |data|
      invariant 0 <= i <= |data| && i % 3 == 0
      invariant rest == Expanded(d, Unpacked(data[i..])) && pos + |rest| == totalLen
      invariant out[..pos] + rest == Expanded(d, Unpacked(data))
    {
      UnpackStep(d, data, i);
      var code1, code2 := SplitWord(data[i], data[i + 1], data[i + 2]);
      ghost var done, t1, t2 := out[..pos], Emit(d, code1), Emit(d, code2);
      rest := Expanded(d, Unpacked(data[i + 3..]));
      assert done + (t1 + (t2 + rest)) == (done + t1 + t2) + rest;
      pos := WriteToken(d, code1, out, pos);
      pos := WriteToken(d, code2, out, pos);
      i := i + 3;
    }
    assert data[i..] == [];
    NothingExpands(d);
    assert out[..pos] == out[..];
    return out[..];
  }

  lemma {:induction false} NothingExpands(d: Dictionary)
    requires d.Shaped()
    ensures Expanded(d, Unpacked([])) == []
  {
  }

  /** Three bytes read as a 24-bit word and split into its upper and lower 12 bits. */
  method SplitWord(b0: byte, b1: byte, b2: byte) returns (code1: Code, code2: Code)
    ensures code1 == First(b0, b1) && code2 == Second(b1, b2)
  {
    var word := b0 * 65536 + b1 * 256 + b2;
    code1 := word / 4096 % 4096;
    code2 := word % 4096;
  }

  method WriteToken(d: Dictionary, c: Code, out: array<byte>, pos: nat) returns (next: nat)
    requires d.Shaped() && pos + |Emit(d, c)| <= out.Length
    modifies out
    ensures next == pos + |Emit(d, c)|
    ensures out[..next] == old(out[..pos]) + Emit(d, c)
  {
    if c == 0 {
      return pos;
    }
    var off, len := d.dictOffsets[c], d.dictLengths[c];
    var j := 0;
    while j < len
      invariant 0 <= j <= len
      invariant out[..pos + j] == old(out[..pos]) + TokenAt(d, c)[..j]
    {
      out[pos + j] := ByteAt(d.dictBytes, off + j);
      j := j + 1;
    }
    return pos + j;
  }

  lemma {:induction false} UnpackStep(d: Dictionary, data: bytes, i: nat)
    requires d.Shaped() && |data| % 3 == 0 && i % 3 == 0 && i < |data|
    ensures var c1, c2 := First(data[i], data[i + 1]), Second(data[i + 1], data[i + 2]);
      Expanded(d, Unpacked(data[i..])) == Emit(d, c1) + (Emit(d, c2) + Expanded(d, Unpacked(data[i + 3..])))
  {
    var c1, c2 := First(data[i], data[i + 1]), Second(data[i + 1], data[i + 2]);
    var tail := Unpacked(data[i + 3..]);
    assert data[i..][3..] == data[i + 3..];
    assert Unpacked(data[i..]) == [c1, c2] + tail;
    assert ([c1, c2] + tail)[1..] == [c2] + tail && ([c2] + tail)[1..] == tail;
  }

  // ----- losslessness -----

  /** Every code `m` may emit is read back by `d` as the token it stands for. */
  ghost predicate Reads(m: TokenMap, d: Dictionary) {
    && d.Shaped()
    && (forall b: byte :: [b] in m && m[[b]] != 0)
    && (forall t :: t in m && m[t] == 0 ==> |t| == 4)
    && (forall t :: t in m && m[t] != 0 ==> TokenAt(d, m[t]) == t)
  }

  /** The padding code never stands for data. */
  lemma {:induction false} DataCodesAreNotPadding(m: TokenMap, d: Dictionary, data: bytes)
    requires Reads(m, d)
    ensures 0 !in Codes(m, data)
    decreases |data|
  {
    if data != [] {
      assert data[..1] == [data[0]];
      DataCodesAreNotPadding(m, d, data[Greedy(m, data).length..]);
    }
  }

  lemma {:induction false} MatchReads(m: TokenMap, d: Dictionary, data: bytes)
    requires Reads(m, d) && data != []
    ensures Emit(d, Greedy(m, data).code) == data[..Greedy(m, data).length]
  {
    hide TokenAt;
    assert data[..1] == [data[0]];
  }

  lemma {:induction false} ExpandStep(d: Dictionary, c: Code, codes: seq<Code>)
    requires d.Shaped()
    ensures Expanded(d, [c] + codes) == Emit(d, c) + Expanded(d, codes)
  {
    assert ([c] + codes)[1..] == codes;
  }

  lemma {:induction false} CodesExpand(m: TokenMap, d: Dictionary, data: bytes)
    requires Reads(m, d)
    ensures Expanded(d, Codes(m, data)) == data
    decreases |data|
  {
    hide TokenAt;
    if data != [] {
      var g := Greedy(m, data);
      CodesExpand(m, d, data[g.length..]);
      MatchReads(m, d, data);
      ExpandStep(d, g.code, Codes(m, data[g.length..]));
      assert Codes(m, data) == [g.code] + Codes(m, data[g.length..]);
      hide *;
      assert data == data[..g.length] + data[g.length..];
    }
  }

  lemma {:induction false} UnpackPacked(codes: seq<Code>)
    requires |codes| % 2 == 0
    ensures Unpacked(Packed(codes)) == codes
  {
    if codes != [] {
      UnpackPacked(codes[2..]);
      var c0, c1 := codes[0], codes[1];
      var w, rest := Word(c0, c1), Packed(codes[2..]);
      assert First(w[0], w[1]) == c0 && Second(w[1], w[2]) == c1;
      hide Word, First, Second;
      assert Packed(codes) == w + rest;
      assert (w + rest)[3..] == rest;
      assert Unpacked(w + rest) == [First(w[0], w[1]), Second(w[1], w[2])] + Unpacked(rest);
      hide Packed, Unpacked;
      assert codes == [c0, c1] + codes[2..];
    }
  }

  lemma {:induction false} PaddingIsSilent(d: Dictionary, codes: seq<Code>)
    requires d.Shaped()
    ensures Expanded(d, codes + [0]) == Expanded(d, codes)
  {
    if codes == [] {
      assert (codes + [0])[1..] == [];
    } else {
      PaddingIsSilent(d, codes[1..]);
      assert (codes + [0])[1..] == codes[1..] + [0];
    }
  }

  /** Text encoded with `m` decodes with any dictionary that reads `m`. */
  lemma {:induction false} RoundTrip(m: TokenMap, d: Dictionary, data: bytes)
    requires Reads(m, d)
    ensures Decoded(d, Encoded(m, data)) == Ok(data)
  {
    hide Expanded, Unpacked, Packed, Codes, TokenAt;
    var codes := Codes(m, data);
    UnpackPacked(Padded(codes));
    PaddingIsSilent(d, codes);
    CodesExpand(m, d, data);
  }

  function CeilDiv(a: nat, b: nat): nat
    requires b > 0
  {
    (a + b - 1) / b
  }

  lemma {:induction false} CodeCount(m: TokenMap, data: bytes)
    ensures |Codes(m, data)| <= |data| <= 4 * |Codes(m, data)|
    decreases |data|
  {
    if data != [] {
      CodeCount(m, data[Greedy(m, data).length..]);
    }
  }

  lemma {:induction false} EncodedSize(m: TokenMap, data: bytes)
    ensures 3 * CeilDiv(|data|, 8) <= |Encoded(m, data)| <= 3 * CeilDiv(|data|, 2)
  {
    CodeCount(m, data);
  }
}
