/** Texts as bytes: the encoding of RFC 3629, its length, and that bytes order texts as their characters do. */
module Utf8 {

  /** Section 3 of RFC 3629. */
  function Encoded(c: char): (bytes: seq<nat>)
    ensures bytes != []
  {
    var n := c as int;
    if n < 0x80 then [n]
    else if n < 0x800 then [0xC0 + n / 0x40, 0x80 + n % 0x40]
    else if n < 0x1_0000 then [0xE0 + n / 0x40 / 0x40, 0x80 + n / 0x40 % 0x40, 0x80 + n % 0x40]
    else [0xF0 + n / 0x40 / 0x40 / 0x40, 0x80 + n / 0x40 / 0x40 % 0x40, 0x80 + n / 0x40 % 0x40, 0x80 + n % 0x40]
  }

  function Encode(s: string): seq<nat> {
    if s == "" then [] else Encoded(s[0]) + Encode(s[1..])
  }

  predicate BytesBefore(a: seq<nat>, b: seq<nat>) {
    b != [] && (a == [] || a[0] < b[0] || (a[0] == b[0] && BytesBefore(a[1..], b[1..])))
  }

  predicate CharsBefore(a: string, b: string) {
    b != "" && (a == "" || a[0] < b[0] || (a[0] == b[0] && CharsBefore(a[1..], b[1..])))
  }

  lemma {:induction false} CommonHead(p: seq<nat>, x: seq<nat>, y: seq<nat>)
    ensures BytesBefore(p + x, p + y) <==> BytesBefore(x, y)
  {
    if p == [] {
      assert p + x == x && p + y == y;
    } else {
      assert (p + x)[1..] == p[1..] + x && (p + y)[1..] == p[1..] + y;
      CommonHead(p[1..], x, y);
    }
  }

  /** The first byte in which two sequences differ decides. */
  lemma FirstDifference(p: seq<nat>, q: seq<nat>, k: nat)
    requires k < |p| && k < |q| && p[..k] == q[..k] && p[k] < q[k]
    ensures BytesBefore(p, q) && !BytesBefore(q, p)
  {
    assert p == p[..k] + p[k..] && q == q[..k] + q[k..];
    CommonHead(p[..k], p[k..], q[k..]);
    CommonHead(p[..k], q[k..], p[k..]);
  }

  /** The leading byte tells the number of bytes. */
  function Class(n: int): nat { if n < 0x80 then 1 else if n < 0x800 then 2 else if n < 0x1_0000 then 3 else 4 }

  lemma Length(c: char)
    ensures |Encoded(c)| == Class(c as int)
  {
  }

  lemma FirstByte(c: char)
    requires c as int < 0x11_0000
    ensures match Class(c as int)
      case 1 => 0 <= Encoded(c)[0] < 0x80
      case 2 => 0xC2 <= Encoded(c)[0] < 0xE0
      case 3 => 0xE0 <= Encoded(c)[0] < 0xF0
      case _ => 0xF0 <= Encoded(c)[0] < 0xF8
  {
  }

  lemma Split64(n: nat, m: nat)
    requires n < m
    ensures n / 0x40 < m / 0x40 || (n / 0x40 == m / 0x40 && n % 0x40 < m % 0x40)
  {
  }

  /** `k` is the first byte in which the encodings differ, and there the first one is smaller. */
  predicate DifferAt(c: char, d: char, k: nat) {
    var p, q := Encoded(c), Encoded(d);
    k < |p| && k < |q| && p[k] < q[k] && forall i :: 0 <= i < k ==> p[i] == q[i]
  }

  lemma OrderTwo(c: char, d: char) returns (k: nat)
    requires c < d && Class(c as int) == Class(d as int) == 2
    ensures DifferAt(c, d, k)
  {
    Split64(c as int, d as int);
    return if c as int / 0x40 == d as int / 0x40 then 1 else 0;
  }

  lemma OrderThree(c: char, d: char) returns (k: nat)
    requires c < d && Class(c as int) == Class(d as int) == 3
    ensures DifferAt(c, d, k)
  {
    var n, m := c as int, d as int;
    Split64(n, m);
    if n / 0x40 == m / 0x40 {
      return 2;
    }
    Split64(n / 0x40, m / 0x40);
    return if n / 0x40 / 0x40 == m / 0x40 / 0x40 then 1 else 0;
  }

  lemma OrderFour(c: char, d: char) returns (k: nat)
    requires c < d && Class(c as int) == Class(d as int) == 4
    ensures DifferAt(c, d, k)
  {
    var n, m := c as int, d as int;
    Split64(n, m);
    if n / 0x40 == m / 0x40 {
      return 3;
    }
    Split64(n / 0x40, m / 0x40);
    if n / 0x40 / 0x40 == m / 0x40 / 0x40 {
      return 2;
    }
    Split64(n / 0x40 / 0x40, m / 0x40 / 0x40);
    return if n / 0x40 / 0x40 / 0x40 == m / 0x40 / 0x40 / 0x40 then 1 else 0;
  }

  /** Encodings of two characters differ in a byte that both have, and the smaller character has the smaller one. */
  lemma CharOrder(c: char, d: char) returns (k: nat)
    requires c < d
    ensures DifferAt(c, d, k)
  {
    var n, m := c as int, d as int;
    if Class(n) != Class(m) || Class(n) == 1 {
      FirstByte(c);
      FirstByte(d);
      return 0;
    } else if Class(n) == 2 {
      k := OrderTwo(c, d);
    } else if Class(n) == 3 {
      k := OrderThree(c, d);
    } else {
      k := OrderFour(c, d);
    }
  }

  lemma CharOrderAhead(c: char, d: char, x: seq<nat>, y: seq<nat>)
    requires c < d
    ensures BytesBefore(Encoded(c) + x, Encoded(d) + y) && !BytesBefore(Encoded(d) + y, Encoded(c) + x)
  {
    var k := CharOrder(c, d);
    var p, q := Encoded(c) + x, Encoded(d) + y;
    assert p[..k] == q[..k];
    FirstDifference(p, q, k);
  }

  /** Bytes order texts as characters do. */
  lemma {:induction false} BytesOrderLikeChars(a: string, b: string)
    ensures BytesBefore(Encode(a), Encode(b)) <==> CharsBefore(a, b)
  {
    if a != "" && b != "" {
      if a[0] < b[0] {
        CharOrderAhead(a[0], b[0], Encode(a[1..]), Encode(b[1..]));
      } else if b[0] < a[0] {
        CharOrderAhead(b[0], a[0], Encode(b[1..]), Encode(a[1..]));
      } else {
        CommonHead(Encoded(a[0]), Encode(a[1..]), Encode(b[1..]));
        BytesOrderLikeChars(a[1..], b[1..]);
      }
    }
  }
}
