/** Sorting by bytes, as sort.Strings does, and by characters is the same. */
module ByteOrder {
  import opened ByteStrings
  import opened StringOrder

  /** Go's order on strings, byte by byte. */
  predicate BytesLe(a: Bytes, b: Bytes) {
    a == [] || (b != [] && (a[0] < b[0] || (a[0] == b[0] && BytesLe(a[1..], b[1..]))))
  }

  lemma {:induction false} CommonPrefix(p: Bytes, a: Bytes, b: Bytes)
    ensures BytesLe(p + a, p + b) <==> BytesLe(a, b)
  {
    if p == [] {
      assert p + a == a && p + b == b;
    } else {
      CommonPrefix(p[1..], a, b);
      assert (p + a)[1..] == p[1..] + a && (p + b)[1..] == p[1..] + b;
    }
  }

  /** What follows the first different byte does not matter. */
  lemma FirstDifference(x: Bytes, y: Bytes, j: nat, a: Bytes, b: Bytes)
    requires j < |x| && j < |y| && x[..j] == y[..j] && x[j] < y[j]
    ensures BytesLe(x + a, y + b) && !BytesLe(y + b, x + a)
  {
    var (u, v) := (x[j..] + a, y[j..] + b);
    assert x + a == x[..j] + u && y + b == x[..j] + v;
    CommonPrefix(x[..j], u, v);
    CommonPrefix(x[..j], v, u);
  }

  /** Numbers are ordered like their six-bit groups, the highest first. */
  lemma SixBitOrder(m: nat, n: nat)
    requires m < n
    ensures m / 0x40 < n / 0x40 || (m / 0x40 == n / 0x40 && m % 0x40 < n % 0x40)
  {
  }

  lemma Shifted(n: nat)
    ensures n / 0x40 / 0x40 == n / 0x1000 && n / 0x1000 / 0x40 == n / 0x40000
  {
  }

  lemma TwoGroups(m: nat, n: nat)
    requires m < n
    ensures m / 0x1000 < n / 0x1000
      || (m / 0x1000 == n / 0x1000
          && (m / 0x40 % 0x40 < n / 0x40 % 0x40 || (m / 0x40 == n / 0x40 && m % 0x40 < n % 0x40)))
  {
    Shifted(m);
    Shifted(n);
    SixBitOrder(m, n);
    if m / 0x40 < n / 0x40 {
      SixBitOrder(m / 0x40, n / 0x40);
    }
  }

  lemma ThreeGroups(m: nat, n: nat)
    requires m < n
    ensures m / 0x40000 < n / 0x40000
      || (m / 0x40000 == n / 0x40000
          && (m / 0x1000 % 0x40 < n / 0x1000 % 0x40
              || (m / 0x1000 == n / 0x1000
                  && (m / 0x40 % 0x40 < n / 0x40 % 0x40 || (m / 0x40 == n / 0x40 && m % 0x40 < n % 0x40)))))
  {
    Shifted(m);
    Shifted(n);
    TwoGroups(m, n);
    if m / 0x1000 < n / 0x1000 {
      SixBitOrder(m / 0x1000, n / 0x1000);
    }
  }

  /** The forms of two characters differ first where the smaller character has the smaller byte. */
  lemma FormOrder(c: char, d: char) returns (j: nat)
    requires c < d
    ensures var (x, y) := (Utf8Char(c), Utf8Char(d));
      j < |x| && j < |y| && x[..j] == y[..j] && x[j] < y[j]
  {
    var (m, n) := (c as int, d as int);
    if n < 0x80 || (m < 0x80 <= n) || (m < 0x800 <= n) || (m < 0x10000 <= n) {
      j := 0;
      LeadOrder(c, d);
    } else if n < 0x800 {
      SixBitOrder(m, n);
      j := if m / 0x40 < n / 0x40 then 0 else 1;
    } else if n < 0x10000 {
      TwoGroups(m, n);
      j := if m / 0x1000 < n / 0x1000 then 0 else if m / 0x40 % 0x40 < n / 0x40 % 0x40 then 1 else 2;
    } else {
      ThreeGroups(m, n);
      j := if m / 0x40000 < n / 0x40000 then 0
           else if m / 0x1000 % 0x40 < n / 0x1000 % 0x40 then 1
           else if m / 0x40 % 0x40 < n / 0x40 % 0x40 then 2 else 3;
    }
  }

  /** Longer forms have larger first bytes. */
  lemma LeadOrder(c: char, d: char)
    requires c < d
    requires d as int < 0x80 || c as int < 0x80 || c as int < 0x800 <= d as int || c as int < 0x10000 <= d as int
    ensures Utf8Char(c)[0] < Utf8Char(d)[0]
  {
  }

  /** Listing files or metadata keys in byte order is listing them by their characters. */
  lemma {:induction false} LeIsByteOrder(a: string, b: string)
    ensures Le(a, b) <==> BytesLe(Utf8(a), Utf8(b))
  {
    if a != "" && b != "" {
      var (x, y) := (Utf8Char(a[0]), Utf8Char(b[0]));
      var (u, v) := (Utf8(a[1..]), Utf8(b[1..]));
      Utf8Front(a);
      Utf8Front(b);
      if a[0] == b[0] {
        CommonPrefix(x, u, v);
        LeIsByteOrder(a[1..], b[1..]);
      } else if a[0] < b[0] {
        var j := FormOrder(a[0], b[0]);
        FirstDifference(x, y, j, u, v);
      } else {
        var j := FormOrder(b[0], a[0]);
        FirstDifference(y, x, j, v, u);
      }
    } else if a != "" {
      Utf8Front(a);
      Utf8CharDecodes(a[0]);
    }
  }
}
