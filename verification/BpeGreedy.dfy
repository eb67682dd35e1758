// What the encoder writes and the decoder reads, told from positions: where each token of the text begins, and which
// twelve bits of the output hold its code.
module BpeGreedy {
  import opened Wrappers
  import opened Bytes
  import opened Bpe

  lemma {:induction false} WordInside(n: nat, j: nat)
    requires n % 3 == 0 && j < n / 3 * 2
    ensures j / 2 * 3 + 2 < n
  {
    assert j / 2 < n / 3;
  }

  /** The `j`-th group of twelve bits. */
  function CodeAt(data: bytes, j: nat): nat
    requires |data| % 3 == 0 && j < |data| / 3 * 2
  {
    WordInside(|data|, j);
    var a: nat, b: nat, c: nat := data[j / 2 * 3], data[j / 2 * 3 + 1], data[j / 2 * 3 + 2];
    if j % 2 == 0 then a * 16 + b / 16 else b % 16 * 256 + c
  }

  // ----- encoding -----

  /** The map has a code for the first `n` bytes; code 0 does not count for four. */
  predicate Fits(m: TokenMap, rest: bytes, n: nat) {
    n <= |rest| && rest[..n] in m && (n == 4 ==> m[rest[..n]] > 0)
  }

  /** The longest of the first four, three or two bytes that fits, or else one byte. */
  ghost predicate TakesLongest(m: TokenMap, rest: bytes, n: nat) {
    && 1 <= n <= 4 && n <= |rest| && (n > 1 ==> Fits(m, rest, n))
    && forall k :: n < k <= 4 ==> !Fits(m, rest, k)
  }

  /** Piece `i` of the cut is the longest that fits there. */
  ghost predicate IsPiece(m: TokenMap, data: bytes, cuts: seq<nat>, i: nat)
    requires i + 1 < |cuts|
  {
    cuts[i] < cuts[i + 1] <= |data| && TakesLongest(m, data[cuts[i]..], cuts[i + 1] - cuts[i])
  }

  /** The text is cut into such pieces. */
  ghost predicate IsGreedyCut(m: TokenMap, data: bytes, cuts: seq<nat>) {
    && cuts != [] && cuts[0] == 0 && cuts[|cuts| - 1] == |data|
    && forall i :: 0 <= i < |cuts| - 1 ==> IsPiece(m, data, cuts, i)
  }

  function Piece(data: bytes, cuts: seq<nat>, i: nat): bytes
    requires i + 1 < |cuts| && cuts[i] <= cuts[i + 1] <= |data|
  {
    data[cuts[i]..cuts[i + 1]]
  }

  /** The code of a piece; a byte without one is written as zero. */
  function PieceCode(m: TokenMap, piece: bytes): nat {
    if piece in m then m[piece] else 0
  }

  /** The codes of the pieces in order, twelve bits each, and twelve zero bits after an odd number of them. */
  ghost predicate IsGreedyCode(m: TokenMap, data: bytes, cuts: seq<nat>, out: bytes)
    requires IsGreedyCut(m, data, cuts)
  {
    var n := |cuts| - 1;
    && |out| == (n + n % 2) / 2 * 3
    && (forall i :: 0 <= i < n ==> IsPiece(m, data, cuts, i) && CodeAt(out, i) == PieceCode(m, Piece(data, cuts, i)))
    && (n % 2 == 1 ==> CodeAt(out, n) == 0)
  }

  lemma {:induction false} GreedyIsLongest(m: TokenMap, rest: bytes)
    requires rest != []
    ensures var g := Greedy(m, rest); TakesLongest(m, rest, g.length) && g.code == PieceCode(m, rest[..g.length])
  {
  }

  lemma {:induction false} Shifted(data: bytes, g: nat, a: nat, b: nat)
    requires g + a <= g + b <= |data|
    ensures data[g..][a..] == data[g + a..] && data[g..][a..b] == data[g + a..g + b]
  {
  }

  /** The positions of a list moved up by `g`, behind position 0. */
  function MovedUp(later: seq<nat>, g: nat): (r: seq<nat>)
    ensures |r| == |later| + 1 && r[0] == 0 && forall i :: 0 < i < |r| ==> r[i] == later[i - 1] + g
  {
    [0] + seq(|later|, i requires 0 <= i < |later| => later[i] + g)
  }

  lemma {:induction false} PieceMoved(m: TokenMap, data: bytes, g: nat, later: seq<nat>, i: nat)
    requires g <= |data| && i + 1 < |later| && IsPiece(m, data[g..], later, i)
    ensures IsPiece(m, data, MovedUp(later, g), i + 1)
    ensures Piece(data, MovedUp(later, g), i + 1) == Piece(data[g..], later, i)
  {
    hide TakesLongest;
    Shifted(data, g, later[i], later[i + 1]);
  }

  lemma {:induction false} FirstPiece(m: TokenMap, data: bytes, g: nat, later: seq<nat>)
    requires 0 < g <= |data| && later != [] && later[0] == 0 && TakesLongest(m, data, g)
    ensures IsPiece(m, data, MovedUp(later, g), 0) && Piece(data, MovedUp(later, g), 0) == data[..g]
  {
    hide TakesLongest, MovedUp;
    assert data[0..] == data;
  }

  lemma {:induction false} CodesCut(m: TokenMap, data: bytes) returns (cuts: seq<nat>)
    ensures IsGreedyCut(m, data, cuts) && |Codes(m, data)| == |cuts| - 1
    ensures forall i :: 0 <= i < |cuts| - 1 ==>
              IsPiece(m, data, cuts, i) && Codes(m, data)[i] == PieceCode(m, Piece(data, cuts, i))
    decreases |data|
  {
    if data == [] {
      cuts := [0];
    } else {
      var g := Greedy(m, data);
      var rest := data[g.length..];
      GreedyIsLongest(m, data);
      var later := CodesCut(m, rest);
      cuts := MovedUp(later, g.length);
      var codes := Codes(m, data);
      assert codes == [g.code] + Codes(m, rest);
      FirstPiece(m, data, g.length, later);
      hide Greedy, TakesLongest, PieceCode, MovedUp, Codes, IsPiece;
      forall i | 0 <= i < |cuts| - 1
        ensures IsPiece(m, data, cuts, i) && codes[i] == PieceCode(m, Piece(data, cuts, i))
      {
        if i > 0 {
          PieceMoved(m, data, g.length, later, i - 1);
        }
      }
    }
  }

  lemma {:induction false} CodeAtRest(data: bytes, j: nat)
    requires |data| % 3 == 0 && 2 <= j < |data| / 3 * 2
    ensures |data[3..]| % 3 == 0 && j - 2 < |data[3..]| / 3 * 2 && CodeAt(data[3..], j - 2) == CodeAt(data, j)
  {
    var rest, o := data[3..], (j - 2) / 2 * 3;
    assert o + 3 == j / 2 * 3 && (j - 2) % 2 == j % 2;
    WordInside(|rest|, j - 2);
    assert rest[o] == data[o + 3] && rest[o + 1] == data[o + 4] && rest[o + 2] == data[o + 5];
  }

  lemma {:induction false} UnpackedAt(data: bytes, j: nat)
    requires |data| % 3 == 0 && j < |data| / 3 * 2
    ensures |Unpacked(data)| == |data| / 3 * 2 && Unpacked(data)[j] == CodeAt(data, j)
    decreases |data|
  {
    UnpackedSize(data);
    if j >= 2 {
      CodeAtRest(data, j);
      UnpackedAt(data[3..], j - 2);
      hide CodeAt, First, Second;
      assert Unpacked(data)[j] == Unpacked(data[3..])[j - 2];
    }
  }

  lemma {:induction false} UnpackedSize(data: bytes)
    requires |data| % 3 == 0
    ensures |Unpacked(data)| == |data| / 3 * 2
    decreases |data|
  {
    if data != [] {
      UnpackedSize(data[3..]);
    }
  }

  /** The encoder's output holds, twelve bits each, the codes of the pieces of a cut that takes the longest piece
      everywhere. */
  lemma {:induction false} EncodedIsGreedy(m: TokenMap, data: bytes) returns (cuts: seq<nat>)
    ensures IsGreedyCut(m, data, cuts) && IsGreedyCode(m, data, cuts, Encoded(m, data))
  {
    cuts := CodesCut(m, data);
    var codes, out := Codes(m, data), Encoded(m, data);
    EncodedAt(m, data);
    hide Codes, Encoded, CodeAt, TakesLongest, PieceCode;
    assert |codes| == |cuts| - 1;
    forall i | 0 <= i < |codes| ensures IsPiece(m, data, cuts, i) && CodeAt(out, i) == PieceCode(m, Piece(data, cuts, i)) {
      assert CodeAt(out, i) == codes[i];
    }
  }

  /** The output holds the codes and, after an odd number of them, one more that is zero. */
  lemma {:induction false} EncodedAt(m: TokenMap, data: bytes)
    ensures var codes, out := Codes(m, data), Encoded(m, data);
      && |out| == (|codes| + |codes| % 2) / 2 * 3
      && (forall i :: 0 <= i < |codes| ==> CodeAt(out, i) == codes[i])
      && (|codes| % 2 == 1 ==> CodeAt(out, |codes|) == 0)
  {
    PackedAt(Padded(Codes(m, data)));
    hide Codes, Packed, CodeAt;
  }

  lemma {:induction false} PackedAt(codes: seq<Code>)
    requires |codes| % 2 == 0
    ensures |Packed(codes)| == |codes| / 2 * 3 && |Packed(codes)| / 3 * 2 == |codes|
    ensures forall i :: 0 <= i < |codes| ==> CodeAt(Packed(codes), i) == codes[i]
  {
    UnpackPacked(codes);
    hide Packed, Unpacked, CodeAt;
    var out := Packed(codes);
    UnpackedSize(out);
    forall i | 0 <= i < |codes| ensures CodeAt(out, i) == codes[i] {
      UnpackedAt(out, i);
    }
  }

  /** There is one such cut and one such output. */
  lemma {:induction false} OneGreedyCode(m: TokenMap, data: bytes, a: seq<nat>, b: seq<nat>, x: bytes, y: bytes)
    requires IsGreedyCut(m, data, a) && IsGreedyCut(m, data, b)
    requires IsGreedyCode(m, data, a, x) && IsGreedyCode(m, data, b, y)
    ensures a == b && x == y
  {
    SameCuts(m, data, a, b, 0);
    SameBytes(x, y);
  }

  lemma {:induction false} SameCuts(m: TokenMap, data: bytes, a: seq<nat>, b: seq<nat>, i: nat)
    requires IsGreedyCut(m, data, a) && IsGreedyCut(m, data, b)
    requires i < |a| && i < |b| && a[..i + 1] == b[..i + 1]
    ensures a == b
    decreases |a| - i
  {
    assert a[i] == a[..i + 1][i] == b[..i + 1][i] == b[i];
    if i + 1 < |a| && i + 1 < |b| {
      assert IsPiece(m, data, a, i) && IsPiece(m, data, b, i);
      assert a[i + 1] - a[i] == b[i + 1] - b[i];
      assert a[..i + 2] == a[..i + 1] + [a[i + 1]] && b[..i + 2] == b[..i + 1] + [b[i + 1]];
      SameCuts(m, data, a, b, i + 1);
    } else {
      assert i + 1 < |a| ==> IsPiece(m, data, a, i);
      assert i + 1 < |b| ==> IsPiece(m, data, b, i);
    }
  }

  lemma {:induction false} SameBytes(x: bytes, y: bytes)
    requires |x| == |y| && |x| % 3 == 0
    requires forall j :: 0 <= j < |x| / 3 * 2 ==> CodeAt(x, j) == CodeAt(y, j)
    ensures x == y
  {
    forall o | 0 <= o < |x| ensures x[o] == y[o] {
      var w := o / 3;
      assert 2 * w < |x| / 3 * 2 && 2 * w + 1 < |x| / 3 * 2;
      SameWord(x, y, w);
    }
  }

  lemma {:induction false} SameWord(x: bytes, y: bytes, w: nat)
    requires |x| == |y| && |x| % 3 == 0 && 2 * w + 1 < |x| / 3 * 2
    requires CodeAt(x, 2 * w) == CodeAt(y, 2 * w) && CodeAt(x, 2 * w + 1) == CodeAt(y, 2 * w + 1)
    ensures 3 * w + 2 < |x| && x[3 * w] == y[3 * w] && x[3 * w + 1] == y[3 * w + 1] && x[3 * w + 2] == y[3 * w + 2]
  {
    WordInside(|x|, 2 * w);
    assert 2 * w / 2 == w && (2 * w + 1) / 2 == w;
  }

  // ----- decoding -----

  /** Code `j` writes the bytes that stand at its offset in the dictionary, as many as its length says, with zeros for what
      lies past the end; code 0 writes nothing. */
  ghost predicate IsWritten(d: Dictionary, data: bytes, ends: seq<nat>, out: bytes, j: nat)
    requires d.Shaped() && |data| % 3 == 0 && j < |data| / 3 * 2 && j + 1 < |ends|
  {
    var c := CodeAt(data, j);
    && c < TOTAL_CODES && ends[j + 1] == ends[j] + (if c == 0 then 0 else d.dictLengths[c]) && ends[j + 1] <= |out|
    && forall i :: ends[j] <= i < ends[j + 1] ==> out[i] == DictByte(d, d.dictOffsets[c] + (i - ends[j]))
  }

  function DictByte(d: Dictionary, p: nat): byte
    requires d.Shaped()
  {
    if p < DICT_BYTES_SIZE then d.dictBytes[p] else 0
  }

  /** The output is what the codes write, one after the other. */
  ghost predicate AllWritten(d: Dictionary, data: bytes, ends: seq<nat>, out: bytes)
    requires d.Shaped() && |data| % 3 == 0
  {
    && |ends| == |data| / 3 * 2 + 1 && ends[0] == 0 && ends[|ends| - 1] == |out|
    && forall j :: 0 <= j < |data| / 3 * 2 ==> IsWritten(d, data, ends, out, j)
  }

  /** Code `j` of the list is spelled between its ends. */
  ghost predicate SpelledAt(d: Dictionary, codes: seq<Code>, ends: seq<nat>, out: bytes, j: nat)
    requires d.Shaped() && j < |codes| && j + 1 < |ends|
  {
    ends[j] <= ends[j + 1] <= |out| && out[ends[j]..ends[j + 1]] == Emit(d, codes[j])
  }

  lemma {:induction false} SpelledMoved(d: Dictionary, codes: seq<Code>, head: bytes, rest: bytes, later: seq<nat>, j: nat)
    requires d.Shaped() && codes != [] && j + 1 < |codes| && j + 1 < |later| && SpelledAt(d, codes[1..], later, rest, j)
    ensures SpelledAt(d, codes, MovedUp(later, |head|), head + rest, j + 1)
  {
    hide Emit, MovedUp;
    Shifted(head + rest, |head|, later[j], later[j + 1]);
    assert (head + rest)[|head|..] == rest;
  }

  /** Where the tokens of a list of codes end. */
  lemma {:induction false} ExpandedEnds(d: Dictionary, codes: seq<Code>) returns (ends: seq<nat>)
    requires d.Shaped()
    ensures |ends| == |codes| + 1 && ends[0] == 0 && ends[|codes|] == |Expanded(d, codes)|
    ensures forall j :: 0 <= j < |codes| ==> SpelledAt(d, codes, ends, Expanded(d, codes), j)
    decreases |codes|
  {
    if codes == [] {
      ends := [0];
    } else {
      var head, rest := Emit(d, codes[0]), Expanded(d, codes[1..]);
      var later := ExpandedEnds(d, codes[1..]);
      ends := MovedUp(later, |head|);
      hide Emit, MovedUp;
      assert Expanded(d, codes) == head + rest;
      hide Expanded;
      forall j | 0 <= j < |codes| ensures SpelledAt(d, codes, ends, head + rest, j) {
        if j > 0 {
          SpelledMoved(d, codes, head, rest, later, j - 1);
        } else {
          assert ends[1] == |head| && (head + rest)[0..|head|] == head;
        }
      }
    }
  }

  lemma {:induction false} TokenByte(d: Dictionary, c: Code, k: nat)
    requires d.Shaped() && k < d.dictLengths[c]
    ensures |TokenAt(d, c)| == d.dictLengths[c] && TokenAt(d, c)[k] == DictByte(d, d.dictOffsets[c] + k)
  {
    var start, n := d.dictOffsets[c], d.dictLengths[c];
    var t := Slice(d.dictBytes, start, n);
    if start + n <= |d.dictBytes| {
      assert t == d.dictBytes[start..start + n];
    } else {
      assert t[k] == ByteAt(d.dictBytes, start + k);
    }
  }

  lemma {:induction false} SpelledIsWritten(d: Dictionary, data: bytes, codes: seq<Code>, ends: seq<nat>, out: bytes, j: nat)
    requires d.Shaped() && |data| % 3 == 0 && j < |data| / 3 * 2 && j < |codes| && j + 1 < |ends|
    requires codes[j] == CodeAt(data, j) && SpelledAt(d, codes, ends, out, j)
    ensures IsWritten(d, data, ends, out, j)
  {
    hide CodeAt;
    var c, piece := codes[j], out[ends[j]..ends[j + 1]];
    assert c == 0 ==> piece == [];
    assert c != 0 ==> piece == TokenAt(d, c);
    hide TokenAt, DictByte;
    forall i | ends[j] <= i < ends[j + 1] ensures out[i] == DictByte(d, d.dictOffsets[c] + (i - ends[j])) {
      assert out[i] == piece[i - ends[j]];
      TokenByte(d, c, i - ends[j]);
    }
  }

  /** The decoder rejects exactly the input that is no whole number of words, and writes the tokens of all others. */
  lemma {:induction false} DecodedIsWritten(d: Dictionary, data: bytes) returns (ends: seq<nat>)
    requires d.Shaped()
    ensures Decoded(d, data).Err? <==> |data| % 3 != 0
    ensures |data| % 3 == 0 ==> AllWritten(d, data, ends, Decoded(d, data).value)
  {
    ends := [];
    if |data| % 3 == 0 {
      var codes, out := Unpacked(data), Decoded(d, data).value;
      UnpackedSize(data);
      ends := ExpandedEnds(d, codes);
      hide Unpacked, Expanded, CodeAt, IsWritten, SpelledAt;
      forall j | 0 <= j < |codes| ensures IsWritten(d, data, ends, out, j) {
        UnpackedAt(data, j);
        SpelledIsWritten(d, data, codes, ends, out, j);
      }
    }
  }
}
