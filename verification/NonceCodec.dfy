// packages/bam-store/src/nonce-codec.ts: uint64 nonces as 20-digit text.
module NonceCodec {
  import opened Wrappers
  import opened Text

  const NONCE_TEXT_WIDTH: nat := 20
  const MAX_NONCE: nat := 18446744073709551615

  datatype NonceError = OutOfRange | UnexpectedWidth | NotDigits | ExceedsMax

  type Nonce = n: nat | n <= MAX_NONCE

  /** The padded text of an in-range nonce. */
  function NonceText(n: Nonce): (t: string)
    ensures |t| == NONCE_TEXT_WIDTH && IsDigits(t) && Value(t) == n
  {
    MaxNonceFits();
    DecimalWidth(n, NONCE_TEXT_WIDTH);
    PadZeros(ToDecimal(n), NONCE_TEXT_WIDTH)
  }

  function EncodeNonce(n: int): Result<string, NonceError> {
    if n < 0 || n > MAX_NONCE then Err(OutOfRange) else Ok(NonceText(n))
  }

  function DecodeNonce(text: string): Result<Nonce, NonceError> {
    if |text| != NONCE_TEXT_WIDTH then Err(UnexpectedWidth)
    else if !IsDigits(text) then Err(NotDigits)
    else if Value(text) > MAX_NONCE then Err(ExceedsMax)
    else Ok(Value(text))
  }

  lemma {:induction false} MaxNonceFits()
    ensures MAX_NONCE < Pow10(NONCE_TEXT_WIDTH)
  {
    assert Pow10(10) == 10000000000 by {
      assert Pow10(5) == 100000;
    }
    assert Pow10(15) == 1000000000000000;
    assert Pow10(20) == 100000000000000000000;
  }

  /** The codec is a bijection: each direction undoes the other, errors included. */
  lemma {:induction false} NonceRoundTrip(n: int, text: string)
    ensures EncodeNonce(n).Ok? <==> 0 <= n <= MAX_NONCE
    ensures EncodeNonce(n).Ok? ==> DecodeNonce(EncodeNonce(n).value) == Ok(n)
    ensures DecodeNonce(text).Ok? ==> EncodeNonce(DecodeNonce(text).value) == Ok(text)
  {
    if DecodeNonce(text).Ok? {
      TextOrderIsNumeric(NonceText(Value(text)), text);
    }
  }

  /** Ordering the text column orders the nonces, so `MAX` over text is the numeric maximum. */
  lemma {:induction false} NonceOrder(m: Nonce, n: Nonce)
    ensures LexLess(NonceText(m), NonceText(n)) <==> m < n
    ensures NonceText(m) == NonceText(n) <==> m == n
  {
    TextOrderIsNumeric(NonceText(m), NonceText(n));
  }
}
