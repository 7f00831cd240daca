/** JOSE to DER: the signature form of section 3.4 of RFC 7518 rewritten as a DER SEQUENCE of two INTEGERs. */
module Jose {
  import opened Wrappers

  type byte = b: int | 0 <= b < 256


  // ---------------------------------------------------------------- Numbers

  /** Big-endian value. */
  function BE(s: seq<byte>): nat {
    if s == [] then 0 else 256 * BE(s[..|s| - 1]) + s[|s| - 1]
  }

  function Pow(n: nat): nat { if n == 0 then 1 else 256 * Pow(n - 1) }

  lemma {:induction false} BEUpper(s: seq<byte>)
    ensures BE(s) < Pow(|s|)
  {
    if s != [] {
      BEUpper(s[..|s| - 1]);
    }
  }

  lemma {:induction false} BELower(s: seq<byte>)
    requires s != [] && s[0] != 0
    ensures Pow(|s| - 1) <= BE(s)
  {
    if |s| > 1 {
      BELower(s[..|s| - 1]);
    } else {
      assert BE(s[..0]) == 0;
    }
  }

  lemma {:induction false} PowGrows(m: nat, n: nat)
    requires m <= n
    ensures Pow(m) <= Pow(n)
  {
    if m < n {
      PowGrows(m, n - 1);
    }
  }

  lemma {:induction false} BESkipsZero(s: seq<byte>)
    ensures BE([0] + s) == BE(s)
  {
    if s == [] {
      assert ([0] + s)[..0] == [];
    } else {
      BESkipsZero(s[..|s| - 1]);
      assert ([0] + s)[..|s|] == [0] + s[..|s| - 1];
    }
  }

  /** Byte strings of one length are told apart by their values. */
  lemma {:induction false} BEInjective(a: seq<byte>, b: seq<byte>)
    requires |a| == |b| && BE(a) == BE(b)
    ensures a == b
  {
    if a != [] {
      var n := |a| - 1;
      assert a[n] == BE(a) % 256 == BE(b) % 256 == b[n];
      BEInjective(a[..n], b[..n]);
      assert a == a[..n] + [a[n]] && b == b[..n] + [b[n]];
    }
  }

  // ---------------------------------------------------------------- The conversion

  /** The index of the first byte kept: leading zeros go, but the last byte stays. */
  function Leading(s: seq<byte>): (i: nat)
    ensures s != [] ==> i < |s|
    ensures s == [] ==> i == 0
  {
    if |s| > 1 && s[0] == 0 then 1 + Leading(s[1..]) else 0
  }

  function Trimmed(s: seq<byte>): seq<byte> { s[Leading(s)..] }

  method TrimLeadingZeros(buf: seq<byte>) returns (out: seq<byte>)
    ensures out == Trimmed(buf)
  {
    var i := 0;
    assert buf[0..] == buf;
    while i < |buf| - 1 && buf[i] == 0
      invariant 0 <= i <= |buf|
      invariant Leading(buf) == i + Leading(buf[i..])
    {
      assert buf[i..][1..] == buf[i + 1..];
      i := i + 1;
    }
    out := buf[i..];
  }

  /** A zero byte in front keeps a high first bit from reading as a sign. */
  function Body(s: seq<byte>): seq<byte> {
    if s != [] && s[0] >= 128 then [0] + s else s
  }

  function EncodeInteger(s: seq<byte>): seq<byte>
    requires |s| <= 254
  {
    [2, |Body(s)|] + Body(s)
  }

  function Convert(sig: seq<byte>): seq<byte> {
    if |sig| != 64 then sig
    else
      var body := EncodeInteger(Trimmed(sig[..32])) + EncodeInteger(Trimmed(sig[32..]));
      [0x30, |body|] + body
  }

  method JoseEcdsaToDer(sig: seq<byte>) returns (der: seq<byte>)
    ensures der == Convert(sig)
    ensures |sig| == 64 ==> Decode(der) == Some((BE(sig[..32]), BE(sig[32..])))
  {
    if |sig| != 64 {
      return sig;
    }
    var r := TrimLeadingZeros(sig[..32]);
    var s := TrimLeadingZeros(sig[32..]);
    var body := EncodeInteger(r) + EncodeInteger(s);
    der := [0x30, |body|] + body;
    RoundTrip(sig);
  }

  // ---------------------------------------------------------------- A strict DER reader

  /** Minimal contents of an INTEGER: the first nine bits are not all equal (section 8.3.2 of X.690). */
  predicate Minimal(body: seq<byte>) {
    body != [] && (|body| >= 2 ==> !(body[0] == 0 && body[1] < 128) && !(body[0] == 255 && body[1] >= 128))
  }

  /** Two's complement contents, read as a non-negative number only. */
  function DecodeBody(body: seq<byte>): Option<nat> {
    if !Minimal(body) || body[0] >= 128 then None else Some(BE(body))
  }

  /** One INTEGER in short form (section 8.1.3 of X.690) and the bytes after it. */
  function DecodeInteger(s: seq<byte>): Option<(nat, seq<byte>)> {
    if |s| < 2 || s[0] != 2 || s[1] >= 128 || |s| < 2 + s[1] then None
    else
      var v := DecodeBody(s[2..2 + s[1]]);
      if v.None? then None else Some((v.value, s[2 + s[1]..]))
  }

  /** A SEQUENCE of exactly two INTEGERs that takes up all of `s`. */
  function Decode(s: seq<byte>): Option<(nat, nat)> {
    if |s| < 2 || s[0] != 0x30 || s[1] >= 128 || |s| != 2 + s[1] then None
    else
      var first := DecodeInteger(s[2..]);
      if first.None? then None
      else
        var second := DecodeInteger(first.value.1);
        if second.None? || second.value.1 != [] then None else Some((first.value.0, second.value.0))
  }

  // ---------------------------------------------------------------- Round trip

  lemma {:induction false} TrimmedKeepsValue(s: seq<byte>)
    ensures BE(Trimmed(s)) == BE(s)
    ensures s != [] ==> Trimmed(s) != [] && (Trimmed(s)[0] != 0 || |Trimmed(s)| == 1)
    ensures |Trimmed(s)| <= |s|
  {
    if |s| > 1 && s[0] == 0 {
      TrimmedKeepsValue(s[1..]);
      BESkipsZero(s[1..]);
      assert s == [0] + s[1..];
      assert Trimmed(s) == Trimmed(s[1..]);
    }
  }

  lemma BodyDecodes(s: seq<byte>)
    requires s != [] && (s[0] != 0 || |s| == 1)
    ensures DecodeBody(Body(s)) == Some(BE(s))
  {
    BESkipsZero(s);
  }

  lemma IntegerDecodes(s: seq<byte>, rest: seq<byte>)
    requires 0 < |s| <= 32 && (s[0] != 0 || |s| == 1)
    ensures DecodeInteger(EncodeInteger(s) + rest) == Some((BE(s), rest))
  {
    var e, n := EncodeInteger(s) + rest, |Body(s)|;
    BodyDecodes(s);
    assert e[2..2 + n] == Body(s) && e[2 + n..] == rest;
  }

  /** Every 64-byte signature becomes well-formed DER from which both numbers are read back. */
  lemma RoundTrip(sig: seq<byte>)
    requires |sig| == 64
    ensures Decode(Convert(sig)) == Some((BE(sig[..32]), BE(sig[32..])))
  {
    var r, s := Trimmed(sig[..32]), Trimmed(sig[32..]);
    TrimmedKeepsValue(sig[..32]);
    TrimmedKeepsValue(sig[32..]);
    SequenceDecodes(r, s);
  }

  lemma SequenceDecodes(r: seq<byte>, s: seq<byte>)
    requires 0 < |r| <= 32 && (r[0] != 0 || |r| == 1) && 0 < |s| <= 32 && (s[0] != 0 || |s| == 1)
    ensures var body := EncodeInteger(r) + EncodeInteger(s);
      |body| < 128 && Decode([0x30, |body|] + body) == Some((BE(r), BE(s)))
  {
    var body := EncodeInteger(r) + EncodeInteger(s);
    IntegerDecodes(r, EncodeInteger(s));
    IntegerDecodes(s, []);
    assert EncodeInteger(s) + [] == EncodeInteger(s);
    assert ([0x30, |body|] + body)[2..] == body;
  }

  /** Different signatures never become the same DER. */
  lemma ConvertIsInjective(a: seq<byte>, b: seq<byte>)
    requires |a| == |b| == 64 && Convert(a) == Convert(b)
    ensures a == b
  {
    RoundTrip(a);
    RoundTrip(b);
    BEInjective(a[..32], b[..32]);
    BEInjective(a[32..], b[32..]);
    assert a == a[..32] + a[32..] && b == b[..32] + b[32..];
  }

  // ---------------------------------------------------------------- Canonical form

  lemma ShorterIsLess(a: seq<byte>, b: seq<byte>)
    requires |a| < |b| && b[0] != 0
    ensures BE(a) < BE(b)
  {
    BEUpper(a);
    BELower(b);
    PowGrows(|a|, |b| - 1);
  }

  /** Contents without a leading zero are determined by their value. */
  lemma NoLeadingZeroUnique(a: seq<byte>, b: seq<byte>)
    requires a != [] && b != [] && a[0] != 0 && b[0] != 0 && BE(a) == BE(b)
    ensures a == b
  {
    if |a| < |b| {
      ShorterIsLess(a, b);
    } else if |b| < |a| {
      ShorterIsLess(b, a);
    } else {
      BEInjective(a, b);
    }
  }

  /** Minimal non-negative contents: one zero byte, or the value without leading zeros, padded if need be. */
  function Stripped(body: seq<byte>): seq<byte>
    requires body != []
  {
    if body[0] == 0 && |body| > 1 then body[1..] else body
  }

  lemma BodyUnique(a: seq<byte>, b: seq<byte>)
    requires DecodeBody(a).Some? && DecodeBody(a) == DecodeBody(b)
    ensures a == b
  {
    var x, y := Stripped(a), Stripped(b);
    StrippedValue(a);
    StrippedValue(b);
    if x == [0] || y == [0] {
      OnlyZeroIsZero(x);
      OnlyZeroIsZero(y);
    } else {
      NoLeadingZeroUnique(x, y);
    }
  }

  lemma StrippedValue(body: seq<byte>)
    requires DecodeBody(body).Some?
    ensures var x := Stripped(body);
      && BE(x) == BE(body)
      && (x == [0] || x[0] != 0)
      && body == (if x[0] >= 128 then [0] + x else x)
  {
    if body[0] == 0 && |body| > 1 {
      BESkipsZero(body[1..]);
      assert body == [0] + body[1..];
    }
  }

  lemma OnlyZeroIsZero(x: seq<byte>)
    requires x == [0] || (x != [] && x[0] != 0)
    ensures BE(x) == 0 <==> x == [0]
  {
    if x == [0] {
      assert BE(x[..0]) == 0;
    } else {
      BELower(x);
      PowGrows(0, |x| - 1);
    }
  }

  lemma IntegerUnique(a: seq<byte>, b: seq<byte>)
    requires DecodeInteger(a).Some? && DecodeInteger(b).Some?
    requires DecodeInteger(a).value == DecodeInteger(b).value
    ensures a == b
  {
    BodyUnique(a[2..2 + a[1]], b[2..2 + b[1]]);
    assert |a[2..2 + a[1]]| == a[1] && |b[2..2 + b[1]]| == b[1];
    SamePieces(a, b, 2 + a[1]);
  }

  lemma SamePieces(a: seq<byte>, b: seq<byte>, n: nat)
    requires 2 <= n <= |a| && n <= |b| && a[0] == b[0] && a[1] == b[1] && a[2..n] == b[2..n] && a[n..] == b[n..]
    ensures a == b
  {
    assert |a| == n + |a[n..]| && |b| == n + |b[n..]|;
    forall i | 0 <= i < |a| ensures a[i] == b[i] {
      if 2 <= i < n {
        assert a[i] == a[2..n][i - 2] && b[i] == b[2..n][i - 2];
      } else if n <= i {
        assert a[i] == a[n..][i - n] && b[i] == b[n..][i - n];
      }
    }
  }

  /** The output is the one DER text for the two numbers: whatever else decodes to them is the same bytes. */
  lemma ConvertIsCanonical(sig: seq<byte>, der: seq<byte>)
    requires |sig| == 64 && Decode(der) == Some((BE(sig[..32]), BE(sig[32..])))
    ensures der == Convert(sig)
  {
    RoundTrip(sig);
    var other := Convert(sig);
    var a, b := DecodeInteger(der[2..]).value.1, DecodeInteger(other[2..]).value.1;
    IntegerUnique(a, b);
    IntegerUnique(der[2..], other[2..]);
    assert der[1] == |der[2..]| && other[1] == |other[2..]|;
    SamePieces(der, other, 2);
  }
}
