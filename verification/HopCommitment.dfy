/** The opaque recipient-data commitment and its canonical pre-image. */
module HopCommitment {
  import opened Domain
  import opened PaymentRails
  import opened Text

  type Byte = b: int | 0 <= b < 256

  /** SHA-256 over the UTF-8 material: 32 bytes. */
  type Digest = string -> seq<Byte>

  ghost predicate IsSha256(sha: Digest) {
    forall m :: |sha(m)| == 32
  }

  datatype HopFields = HopFields(
    batonId: string,
    sequence: nat,
    currentHolder: string,
    recipient: string,
    nonce: string,
    wallets: seq<string>)

  function Keys(wallets: seq<string>): seq<string> {
    seq(|wallets|, i requires 0 <= i < |wallets| => AddressKey(wallets[i]))
  }

  /** Normalised, nonempty, first occurrences only, sorted; the holder alone when no wallet is given. */
  function CanonicalWallets(f: HopFields): seq<string> {
    Sort(Distinct(Keys(if |f.wallets| > 0 then f.wallets else [f.currentHolder]), {""}))
  }

  /** The set the canonical list stands for. */
  function WalletSet(f: HopFields): set<string> {
    Elements(Keys(if |f.wallets| > 0 then f.wallets else [f.currentHolder])) - {""}
  }

  function Lines(f: HopFields): seq<string> {
    ["carry-one-hop:v1", f.batonId, Decimal(f.sequence), f.currentHolder, f.recipient,
     "payment_wallets=" + Join(CanonicalWallets(f), ','), f.nonce]
  }

  function Material(f: HopFields): string {
    Join(Lines(f), '\n')
  }

  function Letter(sextet: int): char
    requires 0 <= sextet < 64
  {
    if sextet < 26 then (sextet + 65) as char
    else if sextet < 52 then (sextet + 71) as char
    else if sextet < 62 then (sextet - 4) as char
    else if sextet == 62 then '-' else '_'
  }

  /** Unpadded base64url. */
  function Base64Url(bytes: seq<Byte>): string {
    if |bytes| == 0 then ""
    else if |bytes| == 1 then [Letter(bytes[0] / 4), Letter(bytes[0] % 4 * 16)]
    else if |bytes| == 2 then
      [Letter(bytes[0] / 4), Letter(bytes[0] % 4 * 16 + bytes[1] / 16), Letter(bytes[1] % 16 * 4)]
    else
      [Letter(bytes[0] / 4), Letter(bytes[0] % 4 * 16 + bytes[1] / 16),
       Letter(bytes[1] % 16 * 4 + bytes[2] / 64), Letter(bytes[2] % 64)] + Base64Url(bytes[3..])
  }

  const COMMITMENT_PREFIX := "co:v1:"

  function OpaqueHopCommitment(f: HopFields, sha: Digest): string {
    COMMITMENT_PREFIX + Base64Url(sha(Material(f)))
  }

  /** Fields as the service produces them: no line break anywhere, no comma in an address. */
  predicate IsSeparatorFree(f: HopFields) {
    && '\n' !in f.batonId && '\n' !in f.currentHolder && '\n' !in f.recipient && '\n' !in f.nonce
    && ',' !in f.currentHolder && forall w | w in f.wallets :: ',' !in w
  }

  lemma {:induction false} Base64UrlLength(bytes: seq<Byte>)
    ensures |Base64Url(bytes)| == (4 * |bytes| + 2) / 3
  {
    if |bytes| >= 3 { Base64UrlLength(bytes[3..]); }
  }

  lemma LetterIsInjective(a: int, b: int)
    requires 0 <= a < 64 && 0 <= b < 64 && Letter(a) == Letter(b)
    ensures a == b
  {
  }

  /** A byte is recovered from its quotient and the remainder packed above u (or v) in the next sextet. */
  lemma Unpack(a: int, b: int, radix: int, u: int, v: int, room: int)
    requires (radix == 4 && room == 16) || (radix == 16 && room == 4) || (radix == 64 && room == 1)
    requires 0 <= u < room && 0 <= v < room
    requires a / radix == b / radix && a % radix * room + u == b % radix * room + v
    ensures a == b && u == v
  {
    assert a == radix * (a / radix) + a % radix && b == radix * (b / radix) + b % radix;
  }

  lemma {:induction false} Base64UrlIsInjective(a: seq<Byte>, b: seq<Byte>)
    requires |a| == |b| && Base64Url(a) == Base64Url(b)
    ensures a == b
    decreases |a|
  {
    var x, y := Base64Url(a), Base64Url(b);
    if |a| == 1 {
      assert x[0] == y[0] && x[1] == y[1];
      Unpack(a[0], b[0], 4, 0, 0, 16);
    } else if |a| == 2 {
      assert x[0] == y[0] && x[1] == y[1] && x[2] == y[2];
      Unpack(a[0], b[0], 4, a[1] / 16, b[1] / 16, 16);
      Unpack(a[1], b[1], 16, 0, 0, 4);
    } else if |a| >= 3 {
      FirstLetters(a);
      FirstLetters(b);
      LettersRecoverGroup(x, a[0], a[1], a[2], b[0], b[1], b[2]);
      assert x[4..] == Base64Url(a[3..]) && y[4..] == Base64Url(b[3..]);
      Base64UrlIsInjective(a[3..], b[3..]);
      assert a == [a[0], a[1], a[2]] + a[3..] && b == [b[0], b[1], b[2]] + b[3..];
    }
  }

  /** x starts with the four letters of three bytes. */
  predicate StartsWithGroup(x: string, b0: Byte, b1: Byte, b2: Byte) {
    && |x| >= 4 && x[0] == Letter(b0 / 4) && x[1] == Letter(b0 % 4 * 16 + b1 / 16)
    && x[2] == Letter(b1 % 16 * 4 + b2 / 64) && x[3] == Letter(b2 % 64)
  }

  lemma FirstLetters(a: seq<Byte>)
    requires |a| >= 3
    ensures StartsWithGroup(Base64Url(a), a[0], a[1], a[2])
  {
  }

  lemma GroupIsRecovered(a0: Byte, a1: Byte, a2: Byte, b0: Byte, b1: Byte, b2: Byte)
    requires a0 / 4 == b0 / 4 && a0 % 4 * 16 + a1 / 16 == b0 % 4 * 16 + b1 / 16
    requires a1 % 16 * 4 + a2 / 64 == b1 % 16 * 4 + b2 / 64 && a2 % 64 == b2 % 64
    ensures a0 == b0 && a1 == b1 && a2 == b2
  {
    Unpack(a0, b0, 4, a1 / 16, b1 / 16, 16);
    Unpack(a1, b1, 16, a2 / 64, b2 / 64, 4);
    Unpack(a2, b2, 64, 0, 0, 1);
  }

  lemma LettersRecoverGroup(x: string, a0: Byte, a1: Byte, a2: Byte, b0: Byte, b1: Byte, b2: Byte)
    requires StartsWithGroup(x, a0, a1, a2) && StartsWithGroup(x, b0, b1, b2)
    ensures a0 == b0 && a1 == b1 && a2 == b2
  {
    LetterIsInjective(a0 / 4, b0 / 4);
    LetterIsInjective(a0 % 4 * 16 + a1 / 16, b0 % 4 * 16 + b1 / 16);
    LetterIsInjective(a1 % 16 * 4 + a2 / 64, b1 % 16 * 4 + b2 / 64);
    LetterIsInjective(a2 % 64, b2 % 64);
    GroupIsRecovered(a0, a1, a2, b0, b1, b2);
  }

  /** The 64-byte limit on Nimiq recipient data is never reached, whatever the fields. */
  lemma CommitmentFits(f: HopFields, sha: Digest)
    requires IsSha256(sha)
    ensures |OpaqueHopCommitment(f, sha)| == 49 < 64
  {
    Base64UrlLength(sha(Material(f)));
  }

  lemma CanonicalWalletsAreSorted(f: HopFields)
    ensures Ascending(CanonicalWallets(f)) && Elements(CanonicalWallets(f)) == WalletSet(f)
  {
    var keys := Keys(if |f.wallets| > 0 then f.wallets else [f.currentHolder]);
    DistinctElements(keys, {""});
    SortIsAscending(Distinct(keys, {""}));
  }

  /** Order, repeats and spelling of the wallets do not matter: the list is a function of the key set, both ways. */
  lemma WalletListIsTheWalletSet(f: HopFields, g: HopFields)
    ensures CanonicalWallets(f) == CanonicalWallets(g) <==> WalletSet(f) == WalletSet(g)
  {
    CanonicalWalletsAreSorted(f);
    CanonicalWalletsAreSorted(g);
    if WalletSet(f) == WalletSet(g) {
      AscendingIsUnique(CanonicalWallets(f), CanonicalWallets(g));
    }
  }

  lemma {:induction false} KeyHasNoNewCharacters(address: string)
    ensures '\n' !in AddressKey(address)
    ensures ',' !in address ==> ',' !in AddressKey(address)
  {
    if address != "" { KeyHasNoNewCharacters(address[1..]); }
  }

  lemma {:induction false} JoinAddsOnlySeparators(parts: seq<string>, separator: char, c: char)
    requires c != separator && forall i | 0 <= i < |parts| :: c !in parts[i]
    ensures c !in Join(parts, separator)
  {
    if |parts| > 1 { JoinAddsOnlySeparators(parts[1..], separator, c); }
  }

  lemma CanonicalWalletsArePlain(f: HopFields)
    requires IsSeparatorFree(f)
    ensures ArePlain(CanonicalWallets(f), ',')
    ensures '\n' !in Join(CanonicalWallets(f), ',')
  {
    CanonicalWalletsAreSorted(f);
    var list := CanonicalWallets(f);
    var given := if |f.wallets| > 0 then f.wallets else [f.currentHolder];
    forall i | 0 <= i < |list| ensures list[i] != "" && ',' !in list[i] && '\n' !in list[i] {
      assert list[i] in Elements(list);
      var j :| 0 <= j < |given| && Keys(given)[j] == list[i];
      KeyHasNoNewCharacters(given[j]);
    }
    JoinAddsOnlySeparators(list, ',', '\n');
  }

  lemma LinesHaveNoBreaks(f: HopFields)
    requires IsSeparatorFree(f)
    ensures forall line | line in Lines(f) :: '\n' !in line
  {
    DecimalDigits(f.sequence);
    CanonicalWalletsArePlain(f);
  }

  /** The pre-image determines every committed field and the set of wallets allowed to pay. */
  lemma MaterialIsInjective(f: HopFields, g: HopFields)
    requires IsSeparatorFree(f) && IsSeparatorFree(g)
    ensures Material(f) == Material(g)
       <==> f.(wallets := []) == g.(wallets := []) && WalletSet(f) == WalletSet(g)
  {
    WalletListIsTheWalletSet(f, g);
    if Material(f) == Material(g) {
      LinesHaveNoBreaks(f);
      LinesHaveNoBreaks(g);
      JoinIsInjective(Lines(f), Lines(g), '\n');
      assert forall i | 0 <= i < 7 :: Lines(f)[i] == Lines(g)[i];
      assert Lines(f)[2] == Lines(g)[2] && Lines(f)[5] == Lines(g)[5] && Lines(f)[6] == Lines(g)[6];
      DecimalIsInjective(f.sequence, g.sequence);
      var tag := "payment_wallets=";
      assert Lines(f)[5][|tag|..] == Join(CanonicalWallets(f), ',');
      assert Lines(g)[5][|tag|..] == Join(CanonicalWallets(g), ',');
      CanonicalWalletsArePlain(f);
      CanonicalWalletsArePlain(g);
      ListIsRecovered(CanonicalWallets(f), CanonicalWallets(g), ',');
    }
  }

  /** The same committed fields, paid from the same set of wallets. */
  predicate IsSameHop(f: HopFields, g: HopFields) {
    f.(wallets := []) == g.(wallets := []) && WalletSet(f) == WalletSet(g)
  }

  /** Two different pre-images with one digest. */
  predicate IsCollision(f: HopFields, g: HopFields, sha: Digest) {
    Material(f) != Material(g) && sha(Material(f)) == sha(Material(g))
  }

  /** Equal commitments mean the same hop paid from the same wallets, or two pre-images that break the digest. */
  lemma CommitmentBindsTheHop(f: HopFields, g: HopFields, sha: Digest)
    requires IsSha256(sha) && IsSeparatorFree(f) && IsSeparatorFree(g)
    ensures OpaqueHopCommitment(f, sha) == OpaqueHopCommitment(g, sha) <==> IsSameHop(f, g) || IsCollision(f, g, sha)
    ensures IsSameHop(f, g) ==> !IsCollision(f, g, sha)
  {
    MaterialIsInjective(f, g);
    var x, y := OpaqueHopCommitment(f, sha), OpaqueHopCommitment(g, sha);
    if x == y {
      assert x[|COMMITMENT_PREFIX|..] == Base64Url(sha(Material(f)));
      assert y[|COMMITMENT_PREFIX|..] == Base64Url(sha(Material(g)));
      Base64UrlIsInjective(sha(Material(f)), sha(Material(g)));
    }
  }
}
