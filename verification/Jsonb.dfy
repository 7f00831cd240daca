/** What the reminder table's columns do to a message: `jsonb` to the payload, `uuid` to the actor id. */
module Jsonb {
  import opened Wrappers
  import opened Reminders
  import opened Utf8

  // ---------------------------------------------------------------- The order of keys

  /** `jsonb` keeps the keys of an object by the number of their bytes, then by the bytes. */
  predicate Before(a: string, b: string) {
    |Encode(a)| < |Encode(b)| || (|Encode(a)| == |Encode(b)| && BytesBefore(Encode(a), Encode(b)))
  }

  /** Which is by the number of their bytes, then by their characters. */
  lemma BeforeByChars(a: string, b: string)
    ensures Before(a, b) <==> |Encode(a)| < |Encode(b)| || (|Encode(a)| == |Encode(b)| && CharsBefore(a, b))
  {
    BytesOrderLikeChars(a, b);
  }

  lemma {:induction false} CharsOrdered(a: string, b: string)
    ensures a == b || CharsBefore(a, b) || CharsBefore(b, a)
    ensures !(CharsBefore(a, b) && CharsBefore(b, a)) && (a == b ==> !CharsBefore(a, b))
  {
    if a != "" && b != "" {
      CharsOrdered(a[1..], b[1..]);
      assert a == [a[0]] + a[1..] && b == [b[0]] + b[1..];
    }
  }

  lemma {:induction false} CharsTransitive(a: string, b: string, c: string)
    requires CharsBefore(a, b) && CharsBefore(b, c)
    ensures CharsBefore(a, c)
  {
    if a != "" && a[0] == b[0] && b[0] == c[0] {
      CharsTransitive(a[1..], b[1..], c[1..]);
    }
  }

  /** The order of keys is total and strict. */
  lemma Ordered(a: string, b: string)
    ensures a == b || Before(a, b) || Before(b, a)
    ensures !(Before(a, b) && Before(b, a)) && (a == b ==> !Before(a, b))
  {
    CharsOrdered(a, b);
    BeforeByChars(a, b);
    BeforeByChars(b, a);
  }

  lemma Transitive(a: string, b: string, c: string)
    requires Before(a, b) && Before(b, c)
    ensures Before(a, c)
  {
    BeforeByChars(a, b);
    BeforeByChars(b, c);
    BeforeByChars(a, c);
    if |Encode(a)| == |Encode(b)| == |Encode(c)| {
      CharsTransitive(a, b, c);
    }
  }

  // ---------------------------------------------------------------- Objects

  predicate Canonical(fs: seq<Field>) {
    |fs| >= 2 ==> Before(fs[0].key, fs[1].key) && Canonical(fs[1..])
  }

  /** A later field replaces an earlier one with its key. */
  function Put(fs: seq<Field>, f: Field): seq<Field> {
    if fs == [] then [f]
    else if f.key == fs[0].key then [f] + fs[1..]
    else if Before(f.key, fs[0].key) then [f] + fs
    else [fs[0]] + Put(fs[1..], f)
  }

  function Sorted(fs: seq<Field>): seq<Field> {
    if fs == [] then [] else Put(Sorted(fs[..|fs| - 1]), fs[|fs| - 1])
  }

  /**
   * A value read back from the column. JavaScript puts array indices first again, so only the other names
   * of an object, at any depth, come back in another order.
   */
  function Render(j: Json): Json {
    match j
    case Atom(_) => j
    case List(items) => List(seq(|items|, i requires 0 <= i < |items| => Render(items[i])))
    case Object(indexed, named) =>
      Object(
        seq(|indexed|, i requires 0 <= i < |indexed| => Field(indexed[i].key, Render(indexed[i].value))),
        Sorted(seq(|named|, i requires 0 <= i < |named| => Field(named[i].key, Render(named[i].value)))))
  }

  predicate InOrder(j: Json) {
    match j
    case Atom(_) => true
    case List(items) => forall i :: 0 <= i < |items| ==> InOrder(items[i])
    case Object(indexed, named) =>
      && (forall i :: 0 <= i < |indexed| ==> InOrder(indexed[i].value))
      && (forall i :: 0 <= i < |named| ==> InOrder(named[i].value))
      && Canonical(named)
  }

  lemma {:induction false} PutCanonical(fs: seq<Field>, f: Field)
    requires Canonical(fs)
    ensures Canonical(Put(fs, f)) && Put(fs, f) != []
    ensures Put(fs, f)[0].key == f.key || (fs != [] && Put(fs, f)[0].key == fs[0].key)
  {
    if fs != [] {
      Ordered(f.key, fs[0].key);
      var rest := fs[1..];
      if f.key == fs[0].key {
        assert ([f] + rest)[1..] == rest;
      } else if Before(f.key, fs[0].key) {
        assert ([f] + fs)[1..] == fs;
      } else {
        PutCanonical(rest, f);
        assert ([fs[0]] + Put(rest, f))[1..] == Put(rest, f);
      }
    }
  }

  lemma {:induction false} SortedIsCanonical(fs: seq<Field>)
    ensures Canonical(Sorted(fs))
  {
    if fs != [] {
      SortedIsCanonical(fs[..|fs| - 1]);
      PutCanonical(Sorted(fs[..|fs| - 1]), fs[|fs| - 1]);
    }
  }

  lemma {:induction false} LastIsAfter(fs: seq<Field>, f: Field)
    requires Canonical(fs + [f]) && fs != []
    ensures Before(fs[0].key, f.key)
  {
    if |fs| > 1 {
      assert (fs + [f])[1..] == fs[1..] + [f];
      LastIsAfter(fs[1..], f);
      Transitive(fs[0].key, fs[1].key, f.key);
    }
  }

  lemma {:induction false} PutLast(fs: seq<Field>, f: Field)
    requires Canonical(fs + [f])
    ensures Put(fs, f) == fs + [f]
  {
    if fs != [] {
      var rest := fs[1..];
      assert f.key != fs[0].key && !Before(f.key, fs[0].key) by {
        LastIsAfter(fs, f);
        Ordered(fs[0].key, f.key);
      }
      assert (fs + [f])[1..] == rest + [f];
      PutLast(rest, f);
      assert [fs[0]] + (rest + [f]) == fs + [f];
    }
  }

  lemma {:induction false} PrefixCanonical(fs: seq<Field>, n: nat)
    requires Canonical(fs) && n <= |fs|
    ensures Canonical(fs[..n])
  {
    if n >= 2 {
      PrefixCanonical(fs[1..], n - 1);
      assert fs[..n][1..] == fs[1..][..n - 1];
    }
  }

  lemma {:induction false} SortedIff(fs: seq<Field>)
    ensures Sorted(fs) == fs <==> Canonical(fs)
  {
    SortedIsCanonical(fs);
    if Canonical(fs) && fs != [] {
      var before, last := fs[..|fs| - 1], fs[|fs| - 1];
      PrefixCanonical(fs, |fs| - 1);
      SortedIff(before);
      assert before + [last] == fs;
      PutLast(before, last);
    }
  }

  lemma {:induction false} OnlyKeysMatter(fs: seq<Field>, gs: seq<Field>)
    requires |fs| == |gs| && forall i :: 0 <= i < |fs| ==> fs[i].key == gs[i].key
    ensures Canonical(fs) <==> Canonical(gs)
  {
    if |fs| >= 2 {
      OnlyKeysMatter(fs[1..], gs[1..]);
    }
  }

  /** `put` is `named` with each value read back: sorting it gives `named` only if it was `named`. */
  lemma SortedBack(named: seq<Field>, put: seq<Field>)
    requires |named| == |put| && forall i :: 0 <= i < |named| ==> named[i].key == put[i].key
    ensures Sorted(put) == named <==> put == named && Canonical(named)
  {
    OnlyKeysMatter(named, put);
    SortedIsCanonical(put);
    SortedIff(put);
  }

  /** The column gives a value back unchanged exactly when every object in it has its names in order. */
  lemma {:induction false} UnchangedIffInOrder(j: Json)
    ensures Render(j) == j <==> InOrder(j)
  {
    match j
    case Atom(_) =>
    case List(items) =>
      forall i | 0 <= i < |items| ensures Render(items[i]) == items[i] <==> InOrder(items[i]) {
        UnchangedIffInOrder(items[i]);
      }
      var back := Render(j).items;
      assert back == items <==> forall i :: 0 <= i < |items| ==> back[i] == items[i];
    case Object(indexed, named) =>
      FieldsUnchanged(j, indexed);
      FieldsUnchanged(j, named);
      var put := seq(|named|, i requires 0 <= i < |named| => Field(named[i].key, Render(named[i].value)));
      SortedBack(named, put);
  }

  lemma {:induction false} FieldsUnchanged(j: Json, fs: seq<Field>)
    requires j.Object? && (fs == j.indexed || fs == j.named)
    ensures seq(|fs|, i requires 0 <= i < |fs| => Field(fs[i].key, Render(fs[i].value))) == fs <==>
            forall i :: 0 <= i < |fs| ==> InOrder(fs[i].value)
    decreases j, 0
  {
    forall i | 0 <= i < |fs| ensures Render(fs[i].value) == fs[i].value <==> InOrder(fs[i].value) {
      UnchangedIffInOrder(fs[i].value);
    }
    var back := seq(|fs|, i requires 0 <= i < |fs| => Field(fs[i].key, Render(fs[i].value)));
    assert back == fs <==> forall i :: 0 <= i < |fs| ==> back[i] == fs[i];
  }

  // ---------------------------------------------------------------- Actor ids

  predicate LowerHex(c: char) { '0' <= c <= '9' || 'a' <= c <= 'f' }

  predicate Hex(c: char) { LowerHex(c) || 'A' <= c <= 'F' }

  function Lower(c: char): char {
    if 'A' <= c <= 'F' then (c as int + 32) as char else c
  }

  function Upper(c: char): char {
    if 'a' <= c <= 'f' then (c as int - 32) as char else c
  }

  /**
   * The column takes 16 pairs of digits of either case, with a hyphen after any even number of pairs:
   * the digits of pair `i` and the later ones, which stand between positions `p` and `end`.
   */
  function Digits(s: string, p: nat, end: nat, i: nat): (d: Option<string>)
    requires p <= end <= |s| && i <= 16
    ensures d.Some? ==> |d.value| == 2 * (16 - i) && forall k :: 0 <= k < |d.value| ==> LowerHex(d.value[k])
    decreases end - p
  {
    if i == 16 then if p == end then Some("") else None
    else if end < p + 2 || !Hex(s[p]) || !Hex(s[p + 1]) then None
    else
      match Digits(s, AfterPair(s, p + 2, end, i), end, i + 1)
      case None => None
      case Some(d) => Some([Lower(s[p]), Lower(s[p + 1])] + d)
  }

  function AfterPair(s: string, p: nat, end: nat, i: nat): (q: nat)
    requires p <= end <= |s|
    ensures p <= q <= end
  {
    if p < end && s[p] == '-' && i % 2 == 1 && i < 15 then p + 1 else p
  }

  /** It prints them in lower case, with four hyphens. */
  function Printed(d: string): string
    requires |d| == 32
  {
    d[..8] + "-" + d[8..12] + "-" + d[12..16] + "-" + d[16..20] + "-" + d[20..]
  }

  /** A text put into a `uuid` column and read back; braces around it are allowed. */
  function Uuid(s: string): Option<string> {
    var d :=
      if s == "" || s[0] != '{' then Digits(s, 0, |s|, 0)
      else if |s| >= 2 && s[|s| - 1] == '}' then Digits(s, 1, |s| - 1, 0)
      else None;
    if d.None? then None else Some(Printed(d.value))
  }

  predicate Hyphen(k: int) { k == 8 || k == 13 || k == 18 || k == 23 }

  /** Five groups of lower-case digits: 8, 4, 4, 4 and 12. */
  predicate Plain(s: string) {
    |s| == 36 && forall k :: 0 <= k < 36 ==> if Hyphen(k) then s[k] == '-' else LowerHex(s[k])
  }

  /** Where digit `k` stands in a plain id. */
  function Place(k: nat): nat {
    k + if k < 8 then 0 else if k < 12 then 1 else if k < 16 then 2 else if k < 20 then 3 else 4
  }

  /** `t` is `s` with any of its letters in upper case. */
  predicate Recased(s: string, t: string) {
    |s| == |t| && forall k :: 0 <= k < |s| ==> t[k] == s[k] || t[k] == Upper(s[k])
  }

  lemma PrintedIsPlain(d: string)
    requires |d| == 32 && forall k :: 0 <= k < |d| ==> LowerHex(d[k])
    ensures Plain(Printed(d))
  {
  }

  /** The position of pair `i`, or the end. */
  function PairAt(i: nat): nat { if i >= 16 then 36 else Place(2 * i) }

  /** Pair `i` of a plain id, in either case, is read with the hyphen that follows it. */
  lemma PlainPair(s: string, t: string, i: nat)
    requires i < 16 && Plain(s) && Recased(s, t)
    ensures var p := Place(2 * i);
      && p + 2 <= 36 && Hex(t[p]) && Hex(t[p + 1]) && Lower(t[p]) == s[p] && Lower(t[p + 1]) == s[p + 1]
      && AfterPair(t, p + 2, 36, i) == PairAt(i + 1)
  {
    var p := Place(2 * i);
    assert !Hyphen(p) && !Hyphen(p + 1);
    if i < 15 {
      assert Hyphen(p + 2) <==> i == 3 || i == 5 || i == 7 || i == 9;
      assert t[p + 2] == s[p + 2] || t[p + 2] == Upper(s[p + 2]);
    }
  }

  /** The digits of a plain id from pair `i` on. */
  predicate DigitsFrom(s: string, i: nat, d: string) {
    |s| == 36 && i <= 16 && |d| == 32 - 2 * i && forall k :: 0 <= k < |d| ==> d[k] == s[Place(2 * i + k)]
  }

  lemma PairThenRest(s: string, i: nat, rest: string)
    requires i < 16 && DigitsFrom(s, i + 1, rest)
    ensures DigitsFrom(s, i, [s[Place(2 * i)], s[Place(2 * i) + 1]] + rest)
  {
    var d := [s[Place(2 * i)], s[Place(2 * i) + 1]] + rest;
    forall k | 0 <= k < |d| ensures d[k] == s[Place(2 * i + k)] {
      if k >= 2 {
        assert rest[k - 2] == s[Place(2 * (i + 1) + (k - 2))];
      }
    }
  }

  lemma {:induction false} PlainDigits(s: string, t: string, i: nat)
    requires i <= 16 && Plain(s) && Recased(s, t)
    ensures Digits(t, PairAt(i), 36, i).Some? && DigitsFrom(s, i, Digits(t, PairAt(i), 36, i).value)
    decreases 16 - i
  {
    if i < 16 {
      PlainPair(s, t, i);
      PlainDigits(s, t, i + 1);
      var rest := Digits(t, PairAt(i + 1), 36, i + 1).value;
      assert Digits(t, PairAt(i), 36, i) == Some([s[Place(2 * i)], s[Place(2 * i) + 1]] + rest);
      PairThenRest(s, i, rest);
    }
  }

  lemma PrintsBack(s: string, d: string)
    requires Plain(s) && |d| == 32 && forall k :: 0 <= k < 32 ==> d[k] == s[Place(k)]
    ensures Printed(d) == s
  {
    assert d[..8] == s[..8] && d[8..12] == s[9..13] && d[12..16] == s[14..18];
    assert d[16..20] == s[19..23] && d[20..] == s[24..];
    assert s == s[..8] + [s[8]] + s[9..13] + [s[13]] + s[14..18] + [s[18]] + s[19..23] + [s[23]] + s[24..];
  }

  /** A plain id with any of its letters in upper case comes back as the plain one. */
  lemma PlainUuid(s: string, t: string)
    requires Plain(s) && Recased(s, t)
    ensures Uuid(t) == Some(s)
  {
    PlainDigits(s, t, 0);
    assert !Hyphen(0) && LowerHex(s[0]) && t[0] != '{';
    PrintsBack(s, Digits(t, 0, 36, 0).value);
  }

  /** The column gives an id back unchanged exactly when it is a uuid as the column prints it. */
  lemma UuidIffPlain(s: string)
    ensures Uuid(s) == Some(s) <==> Plain(s)
  {
    if Plain(s) {
      PlainUuid(s, s);
    } else if Uuid(s).Some? {
      var d := if s == "" || s[0] != '{' then Digits(s, 0, |s|, 0) else Digits(s, 1, |s| - 1, 0);
      PrintedIsPlain(d.value);
    }
  }

  /** The digits of a text in lower case, and everything else in it left out. */
  function HexOf(s: string): string {
    if s == "" then "" else (if Hex(s[0]) then [Lower(s[0])] else "") + HexOf(s[1..])
  }

  lemma HexOfCons(c: char, s: string)
    ensures HexOf([c] + s) == (if Hex(c) then [Lower(c)] else "") + HexOf(s)
  {
    assert ([c] + s)[1..] == s;
  }

  lemma {:induction false} HexOfConcat(a: string, b: string)
    ensures HexOf(a + b) == HexOf(a) + HexOf(b)
  {
    if a == "" {
      assert a + b == b;
    } else {
      var c, rest := a[0], a[1..];
      var head := if Hex(c) then [Lower(c)] else "";
      assert HexOf(a + b) == head + HexOf(rest + b) by {
        assert a + b == [c] + (rest + b);
        HexOfCons(c, rest + b);
      }
      assert HexOf(a) == head + HexOf(rest) by {
        assert a == [c] + rest;
        HexOfCons(c, rest);
      }
      HexOfConcat(rest, b);
      Regrouped(head, HexOf(rest), HexOf(b));
    }
  }

  lemma Regrouped(a: string, b: string, c: string)
    ensures a + (b + c) == (a + b) + c
  {
  }

  lemma {:induction false} HexOfDigits(d: string)
    requires forall k :: 0 <= k < |d| ==> LowerHex(d[k])
    ensures HexOf(d) == d
  {
    if d != "" {
      HexOfDigits(d[1..]);
      assert d == [d[0]] + d[1..];
    }
  }

  /** Hyphens are all that may stand between the digits the column takes. */
  predicate HexOrHyphen(s: string) { forall k :: 0 <= k < |s| ==> Hex(s[k]) || s[k] == '-' }

  lemma {:induction false} DigitsAreAll(s: string, p: nat, end: nat, i: nat)
    requires p <= end <= |s| && i <= 16 && Digits(s, p, end, i).Some?
    ensures HexOf(s[p..end]) == Digits(s, p, end, i).value && HexOrHyphen(s[p..end])
    decreases 16 - i
  {
    if i < 16 {
      var q := AfterPair(s, p + 2, end, i);
      DigitsAreAll(s, q, end, i + 1);
      var gap, rest := s[p + 2..q], s[q..end];
      assert s[p..end] == ([s[p], s[p + 1]] + gap) + rest;
      assert gap == "" || gap == "-";
      HexOfPairs(s[p], s[p + 1], gap, rest);
    }
  }

  lemma HexOfPairs(a: char, b: char, gap: string, rest: string)
    requires Hex(a) && Hex(b) && (gap == "" || gap == "-")
    ensures HexOf(([a, b] + gap) + rest) == [Lower(a), Lower(b)] + HexOf(rest)
  {
    HexOfConcat([a, b] + gap, rest);
    HexOfConcat([a, b], gap);
    PairHex(a, b);
    assert HexOf(gap) == "" by {
      assert gap == "" || gap[1..] == "";
    }
    assert HexOf([a, b]) + "" == HexOf([a, b]);
  }

  lemma PairHex(a: char, b: char)
    requires Hex(a) && Hex(b)
    ensures HexOf([a, b]) == [Lower(a), Lower(b)]
  {
    assert [a, b][1..] == [b] && [b][1..] == "";
    assert HexOf([b]) == [Lower(b)] + "";
  }

  /** Without the braces that may enclose it. */
  function Unbraced(s: string): string {
    if |s| >= 2 && s[0] == '{' && s[|s| - 1] == '}' then s[1..|s| - 1] else s
  }

  /** What the column takes is 32 digits and hyphens, braces around them allowed, and it keeps the digits. */
  lemma UuidKeepsDigits(s: string)
    requires Uuid(s).Some?
    ensures HexOrHyphen(Unbraced(s)) && |HexOf(Unbraced(s))| == 32
    ensures Plain(Uuid(s).value) && HexOf(Uuid(s).value) == HexOf(Unbraced(s))
  {
    var lo, hi := if s == "" || s[0] != '{' then 0 else 1, if s == "" || s[0] != '{' then |s| else |s| - 1;
    var d := Digits(s, lo, hi, 0).value;
    DigitsAreAll(s, lo, hi, 0);
    assert s[lo..hi] == Unbraced(s);
    PrintedIsPlain(d);
    PrintedKeeps(d);
  }

  /** `n` groups of four digits, any two neighbours with at most one hyphen in between. */
  predicate Grouped(t: string, n: nat)
    decreases |t|
  {
    && n > 0 && |t| >= 4
    && Hex(t[0]) && Hex(t[1]) && Hex(t[2]) && Hex(t[3])
    && if n == 1 then |t| == 4
       else Grouped(t[4..], n - 1) || (|t| > 4 && t[4] == '-' && Grouped(t[5..], n - 1))
  }

  lemma {:induction false} DigitsIffGrouped(s: string, p: nat, end: nat, n: nat, i: nat)
    requires p <= end <= |s| && 0 < n <= 8 && i == 16 - 2 * n
    ensures Digits(s, p, end, i).Some? <==> Grouped(s[p..end], n)
    decreases n
  {
    var t := s[p..end];
    if end >= p + 4 {
      assert AfterPair(s, p + 2, end, i) == p + 2;
      assert t[0] == s[p] && t[1] == s[p + 1] && t[2] == s[p + 2] && t[3] == s[p + 3];
      var q := AfterPair(s, p + 4, end, i + 1);
      assert Digits(s, p, end, i).Some? <==>
        Hex(s[p]) && Hex(s[p + 1]) && Hex(s[p + 2]) && Hex(s[p + 3]) && Digits(s, q, end, i + 2).Some?;
      if n == 1 {
        assert Digits(s, q, end, 16).Some? <==> q == end;
      } else {
        DigitsIffGrouped(s, q, end, n - 1, i + 2);
        assert s[q..end] == t[q - p..];
        assert |t| > 4 ==> t[4] == s[p + 4];
      }
    }
  }

  lemma TakesIff(s: string, lo: nat, hi: nat)
    requires lo <= hi <= |s|
    ensures Digits(s, lo, hi, 0).Some? <==> Grouped(s[lo..hi], 8)
  {
    DigitsIffGrouped(s, lo, hi, 8, 0);
  }

  /** What the column takes: eight such groups, in braces or not, and nothing else. */
  lemma UuidTakesIff(s: string)
    ensures Uuid(s).Some? <==>
      Grouped(s, 8) || (|s| >= 2 && s[0] == '{' && s[|s| - 1] == '}' && Grouped(s[1..|s| - 1], 8))
  {
    if s == "" || s[0] != '{' {
      TakesIff(s, 0, |s|);
      assert s[0..|s|] == s;
    } else if |s| >= 2 && s[|s| - 1] == '}' {
      TakesIff(s, 1, |s| - 1);
    }
  }

  lemma HexAcrossHyphen(a: string, b: string)
    requires forall k :: 0 <= k < |b| ==> LowerHex(b[k])
    ensures HexOf(a + "-" + b) == HexOf(a) + b
  {
    assert HexOf("-") == "" by {
      assert "-"[1..] == "";
    }
    HexOfConcat(a, "-");
    HexOfConcat(a + "-", b);
    HexOfDigits(b);
    assert HexOf(a) + "" == HexOf(a);
  }

  lemma PrintedKeeps(d: string)
    requires |d| == 32 && forall k :: 0 <= k < |d| ==> LowerHex(d[k])
    ensures HexOf(Printed(d)) == d
  {
    var a := d[..8];
    var b := a + "-" + d[8..12];
    var c := b + "-" + d[12..16];
    var e := c + "-" + d[16..20];
    HexOfDigits(a);
    HexAcrossHyphen(a, d[8..12]);
    HexAcrossHyphen(b, d[12..16]);
    HexAcrossHyphen(c, d[16..20]);
    HexAcrossHyphen(e, d[20..]);
    assert d == d[..8] + d[8..12] + d[12..16] + d[16..20] + d[20..];
  }

  // ---------------------------------------------------------------- Messages

  /** `refuses` stands for what else the columns do not take, such as a NUL character. */
  function Stored(refuses: Text -> bool, t: Text): Option<Text> {
    if refuses(t) || Uuid(t.actorId).None? then None
    else Some(t.(actorId := Uuid(t.actorId).value, payload := Render(t.payload)))
  }

  function Columns(refuses: Text -> bool): Text -> Option<Text> {
    t => Stored(refuses, t)
  }

  /** A message the columns take comes back unchanged exactly when its id is plain and its names are in order. */
  lemma UnchangedIffCanonical(refuses: Text -> bool, t: Text)
    ensures Stored(refuses, t).Some? ==>
              (Stored(refuses, t) == Some(t) <==> Plain(t.actorId) && InOrder(t.payload))
  {
    UuidIffPlain(t.actorId);
    UnchangedIffInOrder(t.payload);
  }

  /** Reminders are queued and popped as promised if and only if their ids are plain and their names in order. */
  lemma ExactlyOnceIffCanonical(refuses: Text -> bool, uses: Text -> bool)
    ensures (forall steps :: Enqueues(steps, uses) ==> ExactlyOnce(Columns(refuses), steps)) <==>
            (forall t :: uses(t) && Stored(refuses, t).Some? ==> Plain(t.actorId) && InOrder(t.payload))
  {
    var stored := Columns(refuses);
    ExactlyOnceIff(stored, uses);
    forall t | Stored(refuses, t).Some?
      ensures stored(t) == Some(t) <==> Plain(t.actorId) && InOrder(t.payload)
    {
      UnchangedIffCanonical(refuses, t);
    }
  }

  // ---------------------------------------------------------------- Inputs that fail

  const Text0: Field := Field("text", Atom("\"hi\""))
  const To0: Field := Field("to", Atom("\"x\""))

  function HiToX(id: string): Text {
    Text(id, "Inbox", "ping", Object([], [Text0, To0]))
  }

  lemma TwoSwapped(f: Field, g: Field)
    requires Before(g.key, f.key)
    ensures Sorted([f, g]) == [g, f]
  {
    Ordered(f.key, g.key);
    assert [f, g][..1] == [f] && [f][..0] == [];
    assert Sorted([f]) == [f];
    assert Sorted([f, g]) == Put([f], g) == [g] + [f];
  }

  lemma HiToXSwapped()
    ensures Render(Object([], [Text0, To0])) == Object([], [To0, Text0])
  {
    var named := [Text0, To0];
    assert seq(2, i requires 0 <= i < 2 => Field(named[i].key, Render(named[i].value))) == named;
    TwoSwapped(Text0, To0);
  }

  /** The payload {"text":"hi","to":"x"} comes back with its names exchanged, and its reminder is popped twice. */
  lemma HiToXIsPoppedTwice(id: string)
    requires Plain(id)
    ensures var none := (_: Text) => false; var back := HiToX(id).(payload := Object([], [To0, Text0]));
      && Stored(none, HiToX(id)) == Some(back)
      && var w := Run(Columns(none), Again(HiToX(id), back));
         "r" in w.rows && "r" in w.texts && Popped(w, "r") == 2 && Cut(w, "r") == 0
  {
    var none := (_: Text) => false;
    var back := HiToX(id).(payload := Object([], [To0, Text0]));
    assert Stored(none, HiToX(id)) == Some(back) by {
      PlainUuid(id, id);
      HiToXSwapped();
    }
    ChangedTextIsPoppedTwice(Columns(none), HiToX(id), back);
  }

  /** A message to a uuid with letters in upper case is popped twice, whatever its payload. */
  lemma UpperCaseIdIsPoppedTwice(refuses: Text -> bool, id: string, t: Text)
    requires Plain(id) && Recased(id, t.actorId) && t.actorId != id && !refuses(t)
    ensures Stored(refuses, t) == Some(t.(actorId := id, payload := Render(t.payload)))
    ensures var w := Run(Columns(refuses), Again(t, Stored(refuses, t).value));
      "r" in w.rows && "r" in w.texts && Popped(w, "r") == 2 && Cut(w, "r") == 0
  {
    PlainUuid(id, t.actorId);
    ChangedTextIsPoppedTwice(Columns(refuses), t, Stored(refuses, t).value);
  }

  /** Names are measured in bytes: "ab" and "é" have two each, so "ab" comes first. */
  lemma AccentsCount()
    ensures Before("ab", "\U{00E9}") && !InOrder(Object([], [Field("\U{00E9}", Atom("1")), Field("ab", Atom("2"))]))
  {
    assert Encode("ab") == [0x61, 0x62] by {
      assert "ab"[1..] == "b" && "b"[1..] == "";
      assert Encode("b") == [0x62] + [] && Encode("") == [];
    }
    assert Encode("\U{00E9}") == [0xC3, 0xA9] by {
      assert "\U{00E9}"[1..] == "" && Encode("") == [];
    }
    Ordered("ab", "\U{00E9}");
  }
}
