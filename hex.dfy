/** The text of one backup code: `randomBytes(4).toString('hex').toUpperCase()`.
    The random bytes are an input; the encoding is modelled exactly, with its
    inverse, so distinct bytes are shown to give distinct codes. */
module Hex {
  import opened Text

  type Byte = x: int | 0 <= x < 256

  /** Node's `Buffer.toString('hex')` alphabet. */
  const LowerHexDigits := "0123456789abcdef"
  const UpperHexDigits := "0123456789ABCDEF"

  predicate IsUpperHex(c: char)
  {
    ('0' <= c <= '9') || ('A' <= c <= 'F')
  }

  /** The high and the low four bits of a byte. */
  function Hi(b: Byte): (n: nat)
    ensures n < 16
  {
    b / 16
  }

  function Lo(b: Byte): (n: nat)
    ensures n < 16
  {
    b % 16
  }

  /** `Buffer.toString('hex')`: two lower-case hex digits per byte, high
      nibble first (positions are given by `HexEncodeAt`). */
  function HexEncode(bs: seq<Byte>): (r: string)
    ensures |r| == 2 * |bs|
    ensures forall c :: c in r ==> c in LowerHexDigits
  {
    if bs == [] then []
    else [LowerHexDigits[Hi(bs[0])], LowerHexDigits[Lo(bs[0])]] + HexEncode(bs[1..])
  }

  /** Byte `i` is spelled at positions `2 * i` and `2 * i + 1`. */
  lemma {:induction false} HexEncodeAt(bs: seq<Byte>, i: nat)
    requires i < |bs|
    ensures HexEncode(bs)[2 * i] == LowerHexDigits[Hi(bs[i])]
    ensures HexEncode(bs)[2 * i + 1] == LowerHexDigits[Lo(bs[i])]
  {
    if i > 0 {
      HexEncodeAt(bs[1..], i - 1);
      assert bs[1..][i - 1] == bs[i];
    }
  }

  /** The value of an upper-case hex digit. */
  function HexValue(c: char): (v: int)
    requires IsUpperHex(c)
    ensures 0 <= v < 16 && UpperHexDigits[v] == c
  {
    if '0' <= c <= '9' then c as int - '0' as int else c as int - 'A' as int + 10
  }

  /** The byte two upper-case hex digits stand for, high nibble first. */
  function ByteOf(hi: char, lo: char): Byte
    requires IsUpperHex(hi) && IsUpperHex(lo)
  {
    HexValue(hi) * 16 + HexValue(lo)
  }

  /** Reads back the bytes of an upper-case hex string, two digits per byte
      (a last odd digit is ignored). */
  function HexDecode(s: string): (bs: seq<Byte>)
    requires forall i :: 0 <= i < |s| ==> IsUpperHex(s[i])
    ensures |bs| == |s| / 2
    ensures forall i :: 0 <= i < |bs| ==> bs[i] == ByteOf(s[2 * i], s[2 * i + 1])
  {
    seq(|s| / 2, i requires 0 <= i < |s| / 2 => ByteOf(s[2 * i], s[2 * i + 1]))
  }

  /** Whether `code` spells the bytes `bs` in upper-case hex. */
  ghost predicate Spells(code: string, bs: seq<Byte>)
  {
    && |code| == 2 * |bs|
    && forall i :: 0 <= i < |bs| ==>
         code[2 * i] == UpperHexDigits[Hi(bs[i])] && code[2 * i + 1] == UpperHexDigits[Lo(bs[i])]
  }

  /** One backup code built from random bytes: twice as many characters as
      bytes (8 for the 4 bytes the source draws), each an upper-case hex digit,
      spelling the bytes in order. */
  function BackupCodeText(bs: seq<Byte>): (code: string)
    ensures |code| == 2 * |bs|
    ensures forall i :: 0 <= i < |code| ==> IsUpperHex(code[i])
    ensures Spells(code, bs)
  {
    var lower := HexEncode(bs);
    var code := ToUpper(lower);
    forall i | 0 <= i < |code| ensures IsUpperHex(code[i]) {
      assert lower[i] in lower;
      UpperOfLowerDigits(lower[i]);
    }
    forall i | 0 <= i < |bs|
      ensures code[2 * i] == UpperHexDigits[Hi(bs[i])] && code[2 * i + 1] == UpperHexDigits[Lo(bs[i])]
    {
      HexEncodeAt(bs, i);
      UpperOfLowerDigit(Hi(bs[i]));
      UpperOfLowerDigit(Lo(bs[i]));
    }
    code
  }

  lemma UpperOfLowerDigits(c: char)
    requires c in LowerHexDigits
    ensures IsUpperHex(UpperChar(c))
  {
  }

  lemma UpperOfLowerDigit(n: int)
    requires 0 <= n < 16
    ensures UpperChar(LowerHexDigits[n]) == UpperHexDigits[n]
  {
  }

  lemma NibblesRecombine(b: Byte)
    ensures Hi(b) * 16 + Lo(b) == b
  {
  }

  lemma HexValueOfDigit(n: int)
    requires 0 <= n < 16
    ensures HexValue(UpperHexDigits[n]) == n
  {
  }

  /** Reading back an upper-case hex spelling gives the bytes it spells. */
  lemma DecodeSpelling(code: string, bs: seq<Byte>)
    requires Spells(code, bs)
    requires forall i :: 0 <= i < |code| ==> IsUpperHex(code[i])
    ensures HexDecode(code) == bs
  {
    var r := HexDecode(code);
    forall i | 0 <= i < |bs| ensures r[i] == bs[i] {
      DecodeByte(code, bs, i);
    }
  }

  /** The two digits spelling byte `i` read back as that byte. */
  lemma DecodeByte(code: string, bs: seq<Byte>, i: nat)
    requires Spells(code, bs) && i < |bs|
    ensures IsUpperHex(code[2 * i]) && IsUpperHex(code[2 * i + 1])
    ensures ByteOf(code[2 * i], code[2 * i + 1]) == bs[i]
  {
    var b := bs[i];
    HexValueOfDigit(Hi(b));
    HexValueOfDigit(Lo(b));
    NibblesRecombine(b);
  }

  /** Decoding a backup code gives back the random bytes it was made from. */
  lemma DecodeBackupCodeText(bs: seq<Byte>)
    ensures HexDecode(BackupCodeText(bs)) == bs
  {
    DecodeSpelling(BackupCodeText(bs), bs);
  }

  /** Distinct random bytes give distinct backup codes. */
  lemma BackupCodeTextInjective(a: seq<Byte>, b: seq<Byte>)
    requires BackupCodeText(a) == BackupCodeText(b)
    ensures a == b
  {
    DecodeBackupCodeText(a);
    DecodeBackupCodeText(b);
  }
}
