/** Address keys and the reserved `rail:` markers stored beside frozen wallets. */
module PaymentRails {
  import opened Domain

  predicate IsSpace(c: char) {
    c == ' ' || c == '\t' || c == '\n' || c == '\r' || c == '\U{000B}' || c == '\U{000C}' || c == '\U{00A0}'
  }

  function Upper(c: char): char {
    if 'a' <= c <= 'z' then (c as int - 32) as char else c
  }

  function Lower(c: char): char {
    if 'A' <= c <= 'Z' then (c as int + 32) as char else c
  }

  function ToLower(s: string): string {
    seq(|s|, i requires 0 <= i < |s| => Lower(s[i]))
  }

  /** Whitespace removed, upper-cased: the form in which addresses are compared. */
  function AddressKey(address: string): string {
    if address == "" then ""
    else (if IsSpace(address[0]) then "" else [Upper(address[0])]) + AddressKey(address[1..])
  }

  const RAIL_PREFIX := "rail:"

  function RailMarker(address: string): string {
    RAIL_PREFIX + AddressKey(address)
  }

  /** The key of the rail a frozen source denotes, or None for an ordinary wallet. */
  function RailAddress(source: string): Option<string> {
    if |source| < 5 || ToLower(source[..5]) != RAIL_PREFIX || AddressKey(source[5..]) == "" then None
    else Some(AddressKey(source[5..]))
  }

  /** User-friendly Nimiq addresses, the only wallet form the mission surface stores, start with NQ. */
  predicate IsNimiqAddress(wallet: string) {
    |wallet| >= 2 && wallet[0] == 'N' && wallet[1] == 'Q'
  }

  /** A source of the snapshot is a rail or a wallet, never both; whole snapshots split the same way. */
  function WalletKeys(sources: seq<string>): set<string> {
    set s | s in sources && RailAddress(s).None? :: AddressKey(s)
  }

  function RailKeys(sources: seq<string>): set<string> {
    set s | s in sources && RailAddress(s).Some? :: RailAddress(s).value
  }

  lemma {:induction false} AddressKeyIsNormal(address: string)
    ensures AddressKey(AddressKey(address)) == AddressKey(address)
  {
    if address != "" {
      AddressKeyIsNormal(address[1..]);
      var rest := AddressKey(address[1..]);
      if !IsSpace(address[0]) {
        var key := [Upper(address[0])] + rest;
        assert key[1..] == rest;
        assert Upper(Upper(address[0])) == Upper(address[0]);
      } else {
        assert AddressKey(address) == rest;
      }
    }
  }

  /** Addresses are compared letter by letter, without white space and without regard to case. */
  lemma {:induction false} KeyIsLetterwise(a: string, b: string)
    ensures AddressKey(a + b) == AddressKey(a) + AddressKey(b)
  {
    if a == "" {
      assert a + b == b;
    } else {
      KeyIsLetterwise(a[1..], b);
      JoinedAfterHead(a[0], a[1..], b);
      assert [a[0]] + a[1..] == a;
    }
  }

  lemma JoinedAfterHead(c: char, t: string, b: string)
    requires AddressKey(t + b) == AddressKey(t) + AddressKey(b)
    ensures AddressKey(([c] + t) + b) == AddressKey([c] + t) + AddressKey(b)
  {
    Associates([c], t, b);
    KeyOfHead(c, t);
    KeyOfHead(c, t + b);
    Associates(HeadKey(c), AddressKey(t), AddressKey(b));
  }

  lemma Associates(x: string, y: string, z: string)
    ensures (x + y) + z == x + (y + z)
  {
  }

  function HeadKey(c: char): string {
    if IsSpace(c) then "" else [Upper(c)]
  }

  lemma KeyOfHead(c: char, t: string)
    ensures AddressKey([c] + t) == HeadKey(c) + AddressKey(t)
  {
    assert ([c] + t)[1..] == t;
  }

  lemma KeyOfOneLetter(c: char)
    ensures c in {' ', '\t', '\n', '\r', '\U{000B}', '\U{000C}', '\U{00A0}'} ==> AddressKey([c]) == ""
    ensures c !in {' ', '\t', '\n', '\r', '\U{000B}', '\U{000C}', '\U{00A0}'} ==>
              AddressKey([c]) == if 'a' <= c <= 'z' then [(c as int - 'a' as int + 'A' as int) as char] else [c]
  {
    assert [c][1..] == "";
  }

  /** Reading a marker back gives the key it was made from; an empty key has no marker. */
  lemma MarkerRoundTrip(address: string)
    ensures RailAddress(RailMarker(address))
         == if AddressKey(address) == "" then None else Some(AddressKey(address))
  {
    AddressKeyIsNormal(address);
    var marker := RailMarker(address);
    assert marker[..5] == RAIL_PREFIX && marker[5..] == AddressKey(address);
    assert ToLower(RAIL_PREFIX) == RAIL_PREFIX;
  }

  lemma NimiqAddressIsAWallet(wallet: string)
    requires IsNimiqAddress(wallet)
    ensures RailAddress(wallet).None? && AddressKey(wallet) != ""
  {
    if |wallet| >= 5 {
      assert ToLower(wallet[..5])[0] == 'n';
    }
  }

  /** Two sources that differ only in case denote the same rail. */
  lemma CaseDoesNotChangeTheRail(a: string, b: string)
    requires ToLower(a) == ToLower(b)
    ensures RailAddress(a) == RailAddress(b)
  {
    assert |a| == |ToLower(a)| == |ToLower(b)| == |b|;
    forall i | 0 <= i < |a| ensures Lower(a[i]) == Lower(b[i]) {
      assert ToLower(a)[i] == ToLower(b)[i];
    }
    if |a| >= 5 {
      assert ToLower(a[..5]) == ToLower(b[..5]);
      SameLettersSameKey(a[5..], b[5..]);
    }
  }

  lemma {:induction false} SameLettersSameKey(a: string, b: string)
    requires |a| == |b| && forall i :: 0 <= i < |a| ==> Lower(a[i]) == Lower(b[i])
    ensures AddressKey(a) == AddressKey(b)
  {
    if a != "" {
      assert Lower(a[0]) == Lower(b[0]);
      assert IsSpace(a[0]) <==> IsSpace(b[0]);
      assert Upper(a[0]) == Upper(b[0]);
      SameLettersSameKey(a[1..], b[1..]);
    }
  }
}
