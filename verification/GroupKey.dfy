/** The group-key codec of node/partial.go: a slot or round key as the extension's groupID. */
module GroupKey {

  const Modulus: nat := 0x1_0000_0000

  predicate IsByte(b: nat) { b < 256 }

  // Big-endian value of a byte string.
  function Value(bytes: seq<nat>): nat {
    if bytes == [] then 0 else 256 * Value(bytes[..|bytes| - 1]) + bytes[|bytes| - 1]
  }

  // The low n bytes of a value, big-endian.
  function Low(value: nat, n: nat): seq<nat> {
    if n == 0 then [] else Low(value / 256, n - 1) + [value % 256]
  }

  // groupKeyBytes: the key truncated to 32 bits, in four bytes.
  function KeyBytes(group: nat): seq<nat> { Low(group % Modulus, 4) }

  // groupKeyFromID: the last four bytes, short inputs padded with zeros in front.
  function KeyFromID(id: seq<nat>): nat {
    var tail := if |id| > 4 then id[|id| - 4..] else id;
    Value(seq(4 - |tail|, i => 0) + tail)
  }

  lemma {:induction false} LowBytes(value: nat, n: nat)
    ensures |Low(value, n)| == n && forall b <- Low(value, n) :: IsByte(b)
  {
    if n > 0 { LowBytes(value / 256, n - 1); }
  }

  function Power(n: nat): nat { if n == 0 then 1 else 256 * Power(n - 1) }

  lemma {:induction false} ValueOfLow(value: nat, n: nat)
    requires value < Power(n)
    ensures Value(Low(value, n)) == value
  {
    if n > 0 {
      ValueOfLow(value / 256, n - 1);
      assert Low(value, n)[..n - 1] == Low(value / 256, n - 1) by { LowBytes(value / 256, n - 1); }
    }
  }

  lemma {:induction false} LowOfValue(bytes: seq<nat>)
    requires forall b <- bytes :: IsByte(b)
    ensures Value(bytes) < Power(|bytes|) && Low(Value(bytes), |bytes|) == bytes
  {
    if bytes != [] {
      var front := bytes[..|bytes| - 1];
      LowOfValue(front);
      assert bytes == front + [bytes[|bytes| - 1]];
      assert IsByte(bytes[|bytes| - 1]);
    }
  }

  lemma FourBytes()
    ensures Power(4) == Modulus
  {
    assert Power(1) == 256 * Power(0);
    assert Power(2) == 256 * Power(1);
    assert Power(3) == 256 * Power(2);
  }

  /** Decoding an encoded key gives the key back, exactly when it fits 32 bits. */
  lemma KeyRoundTrip(group: nat)
    ensures |KeyBytes(group)| == 4
    ensures KeyFromID(KeyBytes(group)) == group % Modulus
    ensures KeyFromID(KeyBytes(group)) == group <==> group < Modulus
  {
    FourBytes();
    LowBytes(group % Modulus, 4);
    ValueOfLow(group % Modulus, 4);
    assert seq(0, i => 0) + KeyBytes(group) == KeyBytes(group);
  }

  /** Encoding a decoded four-byte groupID gives it back, so no two groupIDs share a key. */
  lemma IDRoundTrip(id: seq<nat>)
    requires |id| == 4 && forall b <- id :: IsByte(b)
    ensures KeyBytes(KeyFromID(id)) == id
  {
    FourBytes();
    LowOfValue(id);
    assert seq(0, i => 0) + id == id;
  }

  /** On the wire the most significant byte comes first. */
  lemma BytesAreBigEndian(a: nat, b: nat, c: nat, d: nat)
    requires IsByte(a) && IsByte(b) && IsByte(c) && IsByte(d)
    ensures KeyFromID([a, b, c, d]) == 0x100_0000 * a + 0x1_0000 * b + 0x100 * c + d
    ensures KeyBytes(0x100_0000 * a + 0x1_0000 * b + 0x100 * c + d) == [a, b, c, d]
  {
    var id := [a, b, c, d];
    assert seq(0, i => 0) + id == id;
    assert [a][..0] == [] && Value([a]) == a;
    assert [a, b][..1] == [a] && Value([a, b]) == 256 * a + b;
    assert [a, b, c][..2] == [a, b] && Value([a, b, c]) == 256 * (256 * a + b) + c;
    assert id[..3] == [a, b, c] && Value(id) == 256 * (256 * (256 * a + b) + c) + d;
    IDRoundTrip(id);
  }

  lemma {:induction false} LeadingZero(bytes: seq<nat>)
    ensures Value([0] + bytes) == Value(bytes)
  {
    if bytes == [] {
      assert ([0] + bytes)[..0] == [];
    } else {
      assert ([0] + bytes)[..|bytes|] == [0] + bytes[..|bytes| - 1];
      LeadingZero(bytes[..|bytes| - 1]);
    }
  }

  lemma {:induction false} ZeroPadded(bytes: seq<nat>, n: nat)
    ensures Value(seq(n, i => 0) + bytes) == Value(bytes)
  {
    if n == 0 {
      assert seq(n, i => 0) + bytes == bytes;
    } else {
      ZeroPadded(bytes, n - 1);
      assert seq(n, i => 0) + bytes == [0] + (seq(n - 1, i => 0) + bytes);
      LeadingZero(seq(n - 1, i => 0) + bytes);
    }
  }

  /** Foreign groupIDs: a short one is its own big-endian value, a long one counts for its last four
      bytes, and the key always fits 32 bits. */
  lemma ForeignID(id: seq<nat>)
    requires forall b <- id :: IsByte(b)
    ensures |id| <= 4 ==> KeyFromID(id) == Value(id)
    ensures |id| > 4 ==> KeyFromID(id) == KeyFromID(id[|id| - 4..])
    ensures KeyFromID(id) < Modulus
  {
    var tail := if |id| > 4 then id[|id| - 4..] else id;
    var padded := seq(4 - |tail|, i => 0) + tail;
    ZeroPadded(tail, 4 - |tail|);
    FourBytes();
    LowOfValue(padded);
  }
}
