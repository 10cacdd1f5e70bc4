/** How a node's representation of recipient data is turned back into the committed text. */
module RecipientData {
  import opened Domain
  import opened PaymentRails
  import HopCommitment

  type Byte = HopCommitment.Byte

  /** The shapes a JSON field can take; Bytes is an array of byte values, Other any remaining value with its String() form. */
  datatype Field = Undefined | Null | Text(text: string) | Bytes(bytes: seq<Byte>) | Wrapped(raw: Field) | Other(shown: string)

  function TrimLeft(s: string): string {
    if |s| > 0 && IsSpace(s[0]) then TrimLeft(s[1..]) else s
  }

  function TrimRight(s: string): string {
    if |s| > 0 && IsSpace(s[|s| - 1]) then TrimRight(s[..|s| - 1]) else s
  }

  function HexValue(c: char): Option<int> {
    if '0' <= c <= '9' then Some(c as int - 48)
    else if 'a' <= c <= 'f' then Some(c as int - 87)
    else if 'A' <= c <= 'F' then Some(c as int - 55)
    else None
  }

  predicate IsHex(s: string) {
    |s| > 0 && |s| % 2 == 0 && forall i | 0 <= i < |s| :: HexValue(s[i]).Some?
  }

  function FromHex(s: string): seq<Byte>
    requires |s| % 2 == 0 && forall i | 0 <= i < |s| :: HexValue(s[i]).Some?
  {
    if |s| == 0 then []
    else
      assert 0 <= HexValue(s[0]).value < 16 && 0 <= HexValue(s[1]).value < 16;
      [HexValue(s[0]).value * 16 + HexValue(s[1]).value] + FromHex(s[2..])
  }

  function HexDigit(v: int): char
    requires 0 <= v < 16
  {
    if v < 10 then (v + 48) as char else (v + 87) as char
  }

  /** The hex a node writes. */
  function ToHex(bytes: seq<Byte>): string {
    if |bytes| == 0 then "" else [HexDigit(bytes[0] / 16), HexDigit(bytes[0] % 16)] + ToHex(bytes[1..])
  }

  function StripPrefix(s: string): string {
    if |s| >= 2 && s[0] == '0' && s[1] == 'x' then s[2..] else s
  }

  function Candidate(text: string): string {
    StripPrefix(TrimRight(TrimLeft(text)))
  }

  /** utf8 is Buffer.toString("utf8"); only its values on ASCII bytes and its length matter below. */
  function NormalizeText(text: string, utf8: seq<Byte> -> string): string {
    if IsHex(Candidate(text)) then utf8(FromHex(Candidate(text))) else text
  }

  function NormalizeRecipientData(field: Field, utf8: seq<Byte> -> string): Option<string> {
    match if field.Wrapped? then field.raw else field
    case Undefined => if field.Wrapped? then Some("undefined") else None
    case Null => if field.Wrapped? then Some("null") else None
    case Text(text) => Some(NormalizeText(text, utf8))
    case Bytes(bytes) => Some(utf8(bytes))
    case Other(shown) => Some(shown)
    case Wrapped(_) => Some("[object Object]")
  }

  predicate IsAscii(s: string) {
    forall i | 0 <= i < |s| :: s[i] as int < 128
  }

  function ToBytes(s: string): seq<Byte>
    requires IsAscii(s)
  {
    seq(|s|, i requires 0 <= i < |s| => s[i] as int)
  }

  ghost predicate DecodesAscii(utf8: seq<Byte> -> string) {
    forall s | IsAscii(s) :: utf8(ToBytes(s)) == s
  }

  /** Hex with nothing to trim and no prefix. */
  predicate IsPlainHex(h: string) {
    |h| % 2 == 0 && forall i | 0 <= i < |h| :: HexValue(h[i]).Some? && !IsSpace(h[i]) && h[i] != 'x'
  }

  lemma {:induction false} HexRoundTrip(bytes: seq<Byte>)
    ensures |ToHex(bytes)| == 2 * |bytes| && IsPlainHex(ToHex(bytes))
    ensures FromHex(ToHex(bytes)) == bytes
  {
    if |bytes| > 0 {
      HexRoundTrip(bytes[1..]);
      var h := ToHex(bytes);
      assert h[2..] == ToHex(bytes[1..]);
      assert HexValue(HexDigit(bytes[0] / 16)) == Some(bytes[0] / 16);
      assert HexValue(HexDigit(bytes[0] % 16)) == Some(bytes[0] % 16);
      assert bytes == [bytes[0]] + bytes[1..];
    }
  }

  lemma NothingToTrim(s: string)
    requires |s| > 0 ==> !IsSpace(s[0]) && !IsSpace(s[|s| - 1])
    ensures TrimRight(TrimLeft(s)) == s
  {
  }

  lemma PlainHexReadsBack(h: string, utf8: seq<Byte> -> string)
    requires |h| > 0 && IsPlainHex(h)
    ensures NormalizeText(h, utf8) == utf8(FromHex(h))
  {
    NothingToTrim(h);
  }

  lemma PrefixedHexReadsBack(h: string, utf8: seq<Byte> -> string)
    requires |h| > 0 && IsPlainHex(h)
    ensures NormalizeText("0x" + h, utf8) == utf8(FromHex(h))
  {
    var prefixed := "0x" + h;
    assert prefixed[|prefixed| - 1] == h[|h| - 1];
    NothingToTrim(prefixed);
    assert StripPrefix(prefixed) == h;
  }

  lemma HexReadsBack(bytes: seq<Byte>, h: string, utf8: seq<Byte> -> string)
    requires |bytes| > 0 && h == ToHex(bytes)
    ensures NormalizeText(h, utf8) == NormalizeText("0x" + h, utf8) == utf8(bytes)
  {
    HexRoundTrip(bytes);
    PlainHexReadsBack(h, utf8);
    PrefixedHexReadsBack(h, utf8);
  }

  /**
   * Every representation a node uses for nonempty ASCII text t comes back as t: plain hex, 0x-hex, byte array, and
   * each of these wrapped in { raw }. The text itself comes back exactly when it does not read as hex.
   */
  lemma EveryFormComesBack(t: string, utf8: seq<Byte> -> string)
    requires IsAscii(t) && t != "" && DecodesAscii(utf8)
    ensures NormalizeRecipientData(Text(ToHex(ToBytes(t))), utf8) == Some(t)
    ensures NormalizeRecipientData(Text("0x" + ToHex(ToBytes(t))), utf8) == Some(t)
    ensures NormalizeRecipientData(Bytes(ToBytes(t)), utf8) == Some(t)
    ensures NormalizeRecipientData(Wrapped(Text(ToHex(ToBytes(t)))), utf8) == Some(t)
    ensures NormalizeRecipientData(Wrapped(Text("0x" + ToHex(ToBytes(t)))), utf8) == Some(t)
    ensures NormalizeRecipientData(Wrapped(Bytes(ToBytes(t))), utf8) == Some(t)
  {
    HexReadsBack(ToBytes(t), ToHex(ToBytes(t)), utf8);
  }

  /** A byte decodes to at most one code unit. */
  ghost predicate NeverLengthens(utf8: seq<Byte> -> string) {
    forall bytes :: |utf8(bytes)| <= |bytes|
  }

  /** Text that reads as hex is decoded instead, and the shorter decoding is never the text itself. */
  lemma PlainTextComesBackUnlessHex(t: string, utf8: seq<Byte> -> string)
    requires NeverLengthens(utf8)
    ensures NormalizeRecipientData(Text(t), utf8) == Some(t) <==> !IsHex(Candidate(t))
  {
    if IsHex(Candidate(t)) {
      FromHexHalves(Candidate(t));
      TrimOnlyShortens(t);
    }
  }

  lemma {:induction false} FromHexHalves(s: string)
    requires |s| % 2 == 0 && forall i | 0 <= i < |s| :: HexValue(s[i]).Some?
    ensures 2 * |FromHex(s)| == |s|
  {
    if |s| > 0 { FromHexHalves(s[2..]); }
  }

  lemma {:induction false} TrimLeftShortens(s: string)
    ensures |TrimLeft(s)| <= |s|
  {
    if |s| > 0 && IsSpace(s[0]) { TrimLeftShortens(s[1..]); }
  }

  lemma {:induction false} TrimRightShortens(s: string)
    ensures |TrimRight(s)| <= |s|
  {
    if |s| > 0 && IsSpace(s[|s| - 1]) { TrimRightShortens(s[..|s| - 1]); }
  }

  lemma TrimOnlyShortens(s: string)
    ensures |Candidate(s)| <= |s|
  {
    TrimLeftShortens(s);
    TrimRightShortens(TrimLeft(s));
  }

  lemma {:induction false} TrimKeepsANonSpaceHead(s: string)
    requires |s| > 0 && !IsSpace(s[0])
    ensures |TrimRight(s)| > 0 && TrimRight(s)[0] == s[0]
    ensures |s| > 1 && !IsSpace(s[1]) ==> |TrimRight(s)| > 1 && TrimRight(s)[1] == s[1]
    decreases |s|
  {
    if IsSpace(s[|s| - 1]) { TrimKeepsANonSpaceHead(s[..|s| - 1]); }
  }

  /** A hop commitment never reads as hex, so it survives unencoded as well as in every encoded form. */
  lemma CommitmentComesBack(f: HopCommitment.HopFields, sha: HopCommitment.Digest, utf8: seq<Byte> -> string)
    ensures NormalizeRecipientData(Text(HopCommitment.OpaqueHopCommitment(f, sha)), utf8)
         == Some(HopCommitment.OpaqueHopCommitment(f, sha))
  {
    var t := HopCommitment.OpaqueHopCommitment(f, sha);
    TrimKeepsANonSpaceHead(t);
    assert Candidate(t)[1] == 'o';
  }
}
