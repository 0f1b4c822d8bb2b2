/** Numeric database keys (itob.go): 16 hexadecimal digits whose byte order is numeric order. */
module Keys {
  import opened Options

  type Key = string

  const KEY_LENGTH: nat := 16

  // Keys are printed from a uint64.
  const LIMIT: nat := 0x1_0000_0000_0000_0000

  function Digit(d: nat): char
    requires d < 16
  {
    "0123456789abcdef"[d]
  }

  /** The digits that the verb %x prints: no leading zero except for zero itself. */
  function Hex(v: nat): string {
    if v < 16 then [Digit(v)] else Hex(v / 16) + [Digit(v % 16)]
  }

  /** The verb %016x: the digits of %x, padded on the left with zeros to sixteen. */
  function Itob(v: nat): Key {
    var h := Hex(v);
    if |h| < KEY_LENGTH then seq(KEY_LENGTH - |h|, _ => '0') + h else h
  }

  /** Byte-lexicographic order, which is the order of keys in a bucket. */
  predicate Less(a: string, b: string) {
    b != [] && (a == [] || a[0] < b[0] || (a[0] == b[0] && Less(a[1..], b[1..])))
  }

  /** The n low digits of v. */
  ghost function Fixed(v: nat, n: nat): string {
    if n == 0 then [] else Fixed(v / 16, n - 1) + [Digit(v % 16)]
  }

  ghost function Pow16(n: nat): (p: nat)
    ensures p > 0
  {
    if n == 0 then 1 else 16 * Pow16(n - 1)
  }

  lemma LimitIsPow16()
    ensures Pow16(16) == LIMIT
  {
    assert Pow16(4) == 0x1_0000;
    assert Pow16(8) == 0x1_0000_0000;
    assert Pow16(12) == 0x1_0000_0000_0000;
  }

  lemma {:induction false} FixedLength(v: nat, n: nat)
    ensures |Fixed(v, n)| == n
  {
    if n == 0 {
    } else {
      FixedLength(v / 16, n - 1);
    }
  }

  lemma {:induction false} FixedZero(n: nat)
    ensures Fixed(0, n) == seq(n, _ => '0')
  {
    if n == 0 {
    } else {
      FixedZero(n - 1);
    }
  }

  // %x prints n digits exactly when v needs no more, and then padding completes the fixed form.
  lemma {:induction false} HexIsFixed(v: nat, n: nat)
    requires n > 0
    ensures |Hex(v)| <= n <==> v < Pow16(n)
    ensures v < Pow16(n) ==> Fixed(v, n) == seq(n - |Hex(v)|, _ => '0') + Hex(v)
  {
    if v < 16 {
      FixedZero(n - 1);
    } else if n > 1 {
      HexIsFixed(v / 16, n - 1);
    } else {
      assert |Hex(v / 16)| > 0;
    }
  }

  lemma {:induction false} LessSnoc(a: string, x: char, b: string, y: char)
    requires |a| == |b|
    ensures Less(a + [x], b + [y]) <==> Less(a, b) || (a == b && x < y)
  {
    if a == [] {
    } else {
      LessSnoc(a[1..], x, b[1..], y);
      assert (a + [x])[1..] == a[1..] + [x] && (b + [y])[1..] == b[1..] + [y];
      assert a == [a[0]] + a[1..] && b == [b[0]] + b[1..];
    }
  }

  lemma SameTail(a: string, x: char, b: string, y: char)
    ensures a + [x] == b + [y] <==> a == b && x == y
  {
    assert (a + [x])[..|a|] == a && (b + [y])[..|b|] == b;
  }

  lemma DigitOrder(c: nat, d: nat)
    requires c < 16 && d < 16
    ensures Digit(c) < Digit(d) <==> c < d
    ensures Digit(c) == Digit(d) <==> c == d
  {
  }

  lemma {:induction false} FixedOrder(u: nat, v: nat, n: nat)
    requires u < Pow16(n) && v < Pow16(n)
    ensures Less(Fixed(u, n), Fixed(v, n)) <==> u < v
    ensures Fixed(u, n) == Fixed(v, n) <==> u == v
  {
    if n == 0 {
    } else {
      FixedOrder(u / 16, v / 16, n - 1);
      FixedLength(u / 16, n - 1);
      FixedLength(v / 16, n - 1);
      LessSnoc(Fixed(u / 16, n - 1), Digit(u % 16), Fixed(v / 16, n - 1), Digit(v % 16));
      SameTail(Fixed(u / 16, n - 1), Digit(u % 16), Fixed(v / 16, n - 1), Digit(v % 16));
      DigitOrder(u % 16, v % 16);
      hide Less, Digit;
    }
  }

  /** A key has sixteen bytes exactly when the number is a uint64. */
  lemma KeyLength(v: nat)
    ensures |Itob(v)| == KEY_LENGTH <==> v < LIMIT
    ensures v < LIMIT ==> Itob(v) == Fixed(v, KEY_LENGTH)
  {
    LimitIsPow16();
    HexIsFixed(v, KEY_LENGTH);
  }

  /** Byte order of keys is numeric order, and the key determines the number. */
  lemma KeyOrder(u: nat, v: nat)
    requires u < LIMIT && v < LIMIT
    ensures Less(Itob(u), Itob(v)) <==> u < v
    ensures Itob(u) == Itob(v) <==> u == v
  {
    LimitIsPow16();
    KeyLength(u);
    KeyLength(v);
    FixedOrder(u, v, KEY_LENGTH);
  }

  function DigitValue(c: char): nat {
    if '0' <= c <= '9' then (c - '0') as nat
    else if 'a' <= c <= 'f' then 10 + (c - 'a') as nat
    else 0
  }

  function Value(s: string): nat {
    if s == [] then 0 else 16 * Value(s[..|s| - 1]) + DigitValue(s[|s| - 1])
  }

  /** The number whose key is k, if there is one. */
  function KeyNumber(k: Key): (n: Option<nat>)
    ensures n.Some? ==> Itob(n.value) == k
  {
    if Itob(Value(k)) == k then Some(Value(k)) else None
  }

  lemma ValueSnoc(s: string, c: char)
    ensures Value(s + [c]) == 16 * Value(s) + DigitValue(c)
  {
    assert (s + [c])[..|s|] == s;
  }

  lemma DigitIsValue(d: nat)
    requires d < 16
    ensures DigitValue(Digit(d)) == d
  {
  }

  lemma {:induction false} ValueOfHex(v: nat)
    ensures Value(Hex(v)) == v
  {
    if v >= 16 {
      ValueOfHex(v / 16);
      ValueSnoc(Hex(v / 16), Digit(v % 16));
      DigitIsValue(v % 16);
      hide Value, Digit, DigitValue;
    } else {
      DigitIsValue(v);
      ValueSnoc([], Digit(v));
      assert [] + [Digit(v)] == [Digit(v)];
    }
  }

  lemma {:induction false} ValueOfPadded(n: nat, s: string)
    ensures Value(seq(n, _ => '0') + s) == Value(s)
  {
    var z := seq(n, _ => '0');
    if s != [] {
      ValueOfPadded(n, s[..|s| - 1]);
      assert (z + s)[..n + |s| - 1] == z + s[..|s| - 1];
    } else if n > 0 {
      ValueOfPadded(n - 1, s);
      assert (z + s)[..n - 1] == seq(n - 1, _ => '0') + s;
    }
  }

  /** Every number is recovered from its key, at any width. */
  lemma KeyRoundTrip(v: nat)
    ensures KeyNumber(Itob(v)) == Some(v)
  {
    ValueOfHex(v);
    ValueOfPadded(if |Hex(v)| < KEY_LENGTH then KEY_LENGTH - |Hex(v)| else 0, Hex(v));
    assert [] + Hex(v) == Hex(v);
  }

  /** Digits are lower case. */
  lemma KeyOf255()
    ensures Itob(255) == "00000000000000ff"
  {
    assert Hex(15) == ['f'] && Hex(255) == ['f', 'f'];
  }

  /** The copy into a fresh buffer of sixteen zero bytes (searchkey.go, search.go). */
  function Copy16(src: string): (dst: string)
    ensures |dst| == KEY_LENGTH
    ensures |src| == KEY_LENGTH ==> dst == src
  {
    if |src| >= KEY_LENGTH then src[..KEY_LENGTH]
    else src + seq(KEY_LENGTH - |src|, _ => '\0')
  }

  /** Copying a key loses nothing. */
  lemma CopyKey(v: nat)
    requires v < LIMIT
    ensures Copy16(Itob(v)) == Itob(v)
  {
    KeyLength(v);
  }
}
