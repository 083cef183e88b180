/** The metadata filter of a sandbox listing (list.go) and its decoder. */
module QueryEncoding {
  import opened ByteStrings
  import opened Options
  import Sequences
  import StringOrder
  import Text

  /** The unreserved characters of RFC 3986, section 2.3. */
  predicate IsUnreserved(c: char) {
    || 'a' <= c <= 'z' || 'A' <= c <= 'Z' || '0' <= c <= '9'
    || c in {'-', '_', '.', '~'}
  }

  function HexDigit(n: nat): (c: char)
    requires n < 16
    ensures IsUnreserved(c)
    ensures HexValue(c) == Some(n)
  {
    if n < 10 then '0' + n as char else 'A' + (n - 10) as char
  }

  function HexValue(c: char): Option<nat> {
    if '0' <= c <= '9' then Some((c - '0') as nat)
    else if 'A' <= c <= 'F' then Some((c - 'A') as nat + 10)
    else if 'a' <= c <= 'f' then Some((c - 'a') as nat + 10)
    else None
  }

  // Go strings are byte strings: keys and values may hold any bytes.

  /** url.QueryEscape on one byte: percent-encoding (RFC 3986, section 2.1) with space as '+'. */
  function EscapeByte(b: Byte): (r: string)
    ensures r != [] && '&' !in r && '=' !in r
  {
    if b < 128 && IsUnreserved(b as char) then [b as char]
    else if b == 0x20 then "+"
    else ['%', HexDigit(b / 16), HexDigit(b % 16)]
  }

  function Escape(s: Bytes): (r: string)
    ensures '&' !in r && '=' !in r
  {
    if s == [] then "" else EscapeByte(s[0]) + Escape(s[1..])
  }

  /** Unreserved bytes stay as they are, a space is "+", and every other byte is "%" and two capital hexadecimal digits. */
  lemma EscapedAs(b: Byte)
    ensures b < 128 && IsUnreserved(b as char) ==> EscapeByte(b) == [b as char]
    ensures b == 0x20 ==> EscapeByte(b) == "+"
    ensures !(b < 128 && IsUnreserved(b as char)) && b != 0x20 ==>
      EscapeByte(b) == ['%', "0123456789ABCDEF"[b / 16], "0123456789ABCDEF"[b % 16]]
  {
    CapitalDigit(b / 16);
    CapitalDigit(b % 16);
    hide HexDigit, HexValue;
  }

  lemma CapitalDigit(n: nat)
    requires n < 16
    ensures HexDigit(n) == "0123456789ABCDEF"[n]
  {
  }

  /** Only unreserved characters, '%' and '+' appear in escaped text. */
  lemma {:induction false} EscapeAlphabet(s: Bytes)
    ensures forall i :: 0 <= i < |Escape(s)| ==> IsUnreserved(Escape(s)[i]) || Escape(s)[i] in {'%', '+'}
  {
    if s != [] {
      EscapeAlphabet(s[1..]);
    }
  }

  /** url.QueryUnescape: fails on a '%' without two hexadecimal digits. */
  function Unescape(s: string): Option<Bytes> {
    if s == [] then Some([])
    else if s[0] == '%' then
      if |s| < 3 then None
      else match (HexValue(s[1]), HexValue(s[2]), Unescape(s[3..]))
        case (Some(hi), Some(lo), Some(rest)) => Some([16 * hi + lo] + rest)
        case _ => None
    else
      match Unescape(s[1..])
      case Some(rest) =>
        if s[0] == '+' then Some([0x20] + rest)
        else if s[0] as int < 256 then Some([s[0] as int] + rest)
        else None
      case None => None
  }

  lemma UnescapeByte(b: Byte, tail: string)
    requires Unescape(tail).Some?
    ensures Unescape(EscapeByte(b) + tail) == Some([b] + Unescape(tail).value)
  {
    var (head, text) := (EscapeByte(b), EscapeByte(b) + tail);
    assert text[|head|..] == tail;
    if |head| == 3 {
      assert text[0] == '%' && text[1] == HexDigit(b / 16) && text[2] == HexDigit(b % 16);
      assert 16 * (b / 16) + b % 16 == b;
    } else {
      assert text[0] == head[0];
    }
  }

  lemma {:induction false} UnescapeOfEscape(s: Bytes)
    ensures Unescape(Escape(s)) == Some(s)
  {
    if s != [] {
      UnescapeOfEscape(s[1..]);
      UnescapeByte(s[0], Escape(s[1..]));
      assert s == [s[0]] + s[1..];
    }
  }

  function Pair(k: Bytes, v: Bytes): string { Escape(k) + "=" + Escape(v) }

  function DecodePair(part: string): Option<(Bytes, Bytes)> {
    var halves := Text.Split(part, '=');
    if |halves| != 2 then None
    else match (Unescape(halves[0]), Unescape(halves[1]))
      case (Some(k), Some(v)) => Some((k, v))
      case _ => None
  }

  lemma DecodeOfPair(k: Bytes, v: Bytes)
    ensures DecodePair(Pair(k, v)) == Some((k, v))
    ensures '&' !in Pair(k, v) && Pair(k, v) != ""
  {
    var (key, value) := (Escape(k), Escape(v));
    assert Text.Split(Pair(k, v), '=') == [key, value] by {
      Text.SplitConcat(key, value, '=');
      Text.SplitWithoutSeparator(key, '=');
      Text.SplitWithoutSeparator(value, '=');
    }
    UnescapeOfEscape(k);
    UnescapeOfEscape(v);
    hide Text.Split, Unescape, Escape;
  }

  /** The pairs of `md`, in the order the map is iterated. */
  function Pairs(md: map<Bytes, Bytes>, order: seq<Bytes>): (r: seq<string>)
    requires forall k :: k in order ==> k in md
    ensures |r| == |order|
    ensures forall i :: 0 <= i < |r| ==> r[i] == Pair(order[i], md[order[i]])
  {
    if order == [] then [] else [Pair(order[0], md[order[0]])] + Pairs(md, order[1..])
  }

  /** What the encoder returns when the map is iterated in `order`. */
  function Encoded(md: map<Bytes, Bytes>, order: seq<Bytes>): string
    requires forall k :: k in order ==> k in md
  {
    Text.Join(StringOrder.Sort(Pairs(md, order)), '&')
  }

  /** The loop over the map, in whatever order it is iterated. */
  method CollectPairs(md: map<Bytes, Bytes>) returns (parts: seq<string>, ghost taken: seq<Bytes>)
    ensures Sequences.Enumerates(taken, md.Keys)
    ensures parts == Pairs(md, taken)
  {
    parts, taken := [], [];
    var left := md.Keys;
    while left != {}
      invariant left <= md.Keys
      invariant Sequences.Enumerates(taken, md.Keys - left)
      invariant parts == Pairs(md, taken)
    {
      var k :| k in left;
      PairsConcat(md, taken, [k]);
      parts := parts + [Escape(k) + "=" + Escape(md[k])];
      taken := taken + [k];
      left := left - {k};
    }
    assert md.Keys - {} == md.Keys;
  }

  /** The sorted, joined pairs: whichever order one assumes for the map, this is its encoding. */
  method EncodeMetadataQuery(md: map<Bytes, Bytes>) returns (q: string)
    ensures forall order :: Sequences.Enumerates(order, md.Keys) ==> q == Encoded(md, order)
  {
    if |md| == 0 {
      forall order | Sequences.Enumerates(order, md.Keys)
        ensures Encoded(md, order) == ""
      {
        EmptyExactlyWithoutMetadata(md, order);
      }
      return "";
    }
    var parts, taken := CollectPairs(md);
    q := Text.Join(StringOrder.Sort(parts), '&');
    assert q == Encoded(md, taken);
    hide Encoded, Pairs, Text.Join, StringOrder.Sort;
    forall order | Sequences.Enumerates(order, md.Keys)
      ensures Encoded(md, taken) == Encoded(md, order)
    {
      OrderIrrelevant(md, taken, order);
    }
  }

  lemma {:induction false} PairsConcat(md: map<Bytes, Bytes>, a: seq<Bytes>, b: seq<Bytes>)
    requires forall k :: k in a + b ==> k in md
    ensures (forall k :: k in a ==> k in md) && (forall k :: k in b ==> k in md)
    ensures Pairs(md, a + b) == Pairs(md, a) + Pairs(md, b)
  {
    hide Pairs, Pair;
    forall k | k in a || k in b ensures k in md { assert k in a + b; }
  }

  function DecodeParts(parts: seq<string>): Option<map<Bytes, Bytes>> {
    if parts == [] then Some(map[])
    else match (DecodePair(parts[0]), DecodeParts(parts[1..]))
      case (Some(pair), Some(rest)) => Some(rest[pair.0 := pair.1])
      case _ => None
  }

  function DecodeQuery(q: string): Option<map<Bytes, Bytes>> {
    if q == "" then Some(map[]) else DecodeParts(Text.Split(q, '&'))
  }

  /** Every part is the pair of a key of `md`. */
  ghost predicate PartsOf(md: map<Bytes, Bytes>, parts: seq<string>) {
    forall i :: 0 <= i < |parts| ==> IsPairOf(md, parts[i])
  }

  ghost predicate IsPairOf(md: map<Bytes, Bytes>, part: string) {
    exists k :: k in md && part == Pair(k, md[k])
  }

  lemma {:induction false} DecodePartsOf(md: map<Bytes, Bytes>, parts: seq<string>)
    requires PartsOf(md, parts)
    ensures DecodeParts(parts).Some?
    ensures forall k :: k in DecodeParts(parts).value <==> k in md && Pair(k, md[k]) in parts
    ensures forall k :: k in DecodeParts(parts).value ==> DecodeParts(parts).value[k] == md[k]
  {
    hide DecodePair, Pair;
    if parts != [] {
      assert IsPairOf(md, parts[0]);
      var k :| k in md && parts[0] == Pair(k, md[k]);
      DecodeOfPair(k, md[k]);
      DecodePartsOf(md, parts[1..]);
      assert parts == [parts[0]] + parts[1..];
      forall j | j in md && Pair(j, md[j]) == parts[0] ensures j == k {
        DecodeOfPair(j, md[j]);
      }
    }
  }

  /** The sorted list holds the pairs of the map and nothing else. */
  lemma SortedPairsHold(md: map<Bytes, Bytes>, order: seq<Bytes>)
    requires Sequences.Enumerates(order, md.Keys)
    ensures var parts := StringOrder.Sort(Pairs(md, order));
      && |parts| == |md|
      && PartsOf(md, parts)
      && (forall k :: k in md ==> Pair(k, md[k]) in parts)
  {
    var pairs := Pairs(md, order);
    var parts := StringOrder.Sort(pairs);
    Sequences.EnumerationAsMultiset(order, md.Keys);
    assert |order| == |multiset(order)| == |multiset(md.Keys)| == |md.Keys|;
    assert |parts| == |multiset(parts)| == |multiset(pairs)| == |pairs|;
    forall j | 0 <= j < |parts| ensures IsPairOf(md, parts[j]) {
      assert parts[j] in multiset(parts) && parts[j] in multiset(pairs);
      var i :| 0 <= i < |pairs| && pairs[i] == parts[j];
      assert order[i] in md;
    }
    forall k | k in md ensures Pair(k, md[k]) in parts {
      var i :| 0 <= i < |order| && order[i] == k;
      assert pairs[i] in multiset(pairs) && pairs[i] in multiset(parts);
    }
  }

  /** Splitting the joined pairs on '&' gives the pairs back. */
  lemma SplitPairs(md: map<Bytes, Bytes>, parts: seq<string>)
    requires parts != []
    requires PartsOf(md, parts)
    ensures Text.Split(Text.Join(parts, '&'), '&') == parts
    ensures Text.Join(parts, '&') != ""
  {
    hide Pair, DecodePair, Text.Split;
    forall i | 0 <= i < |parts| ensures '&' !in parts[i] && parts[i] != "" {
      assert IsPairOf(md, parts[i]);
      var k :| k in md && parts[i] == Pair(k, md[k]);
      DecodeOfPair(k, md[k]);
    }
    Text.SplitOfJoin(parts, '&');
  }

  /** Decoding gives back the map, for every map and every iteration order. */
  lemma DecodeOfEncode(md: map<Bytes, Bytes>, order: seq<Bytes>)
    requires Sequences.Enumerates(order, md.Keys)
    ensures DecodeQuery(Encoded(md, order)) == Some(md)
  {
    hide Pairs, Pair, Text.Split, StringOrder.Sort;
    var parts := StringOrder.Sort(Pairs(md, order));
    SortedPairsHold(md, order);
    if parts == [] {
      assert md == map[];
    } else {
      SplitPairs(md, parts);
      DecodePartsOf(md, parts);
      assert DecodeParts(parts).value == md;
    }
  }

  /** The filter is left out of the request exactly when there is no metadata. */
  lemma EmptyExactlyWithoutMetadata(md: map<Bytes, Bytes>, order: seq<Bytes>)
    requires Sequences.Enumerates(order, md.Keys)
    ensures Encoded(md, order) == "" <==> md == map[]
  {
    DecodeOfEncode(md, order);
    SortedPairsHold(md, order);
  }

  function Without<T>(s: seq<T>, i: nat): seq<T>
    requires i < |s|
  {
    s[..i] + s[i + 1..]
  }

  lemma WithoutMultiset<T>(s: seq<T>, i: nat)
    requires i < |s|
    ensures multiset(Without(s, i)) == multiset(s) - multiset{s[i]}
    ensures s[i] in multiset(s)
  {
    assert s == s[..i] + ([s[i]] + s[i + 1..]);
  }

  lemma PairsWithout(md: map<Bytes, Bytes>, s: seq<Bytes>, i: nat)
    requires i < |s| && forall k :: k in s ==> k in md
    ensures forall k :: k in Without(s, i) ==> k in md
    ensures Pairs(md, Without(s, i)) == Without(Pairs(md, s), i)
  {
    hide Pairs, Pair;
    var rest := Without(s, i);
    forall k | k in rest ensures k in md { assert k in s; }
  }

  lemma {:induction false} PairsMultiset(md: map<Bytes, Bytes>, a: seq<Bytes>, b: seq<Bytes>)
    requires multiset(a) == multiset(b)
    requires (forall k :: k in a ==> k in md) && (forall k :: k in b ==> k in md)
    ensures multiset(Pairs(md, a)) == multiset(Pairs(md, b))
  {
    hide Pairs, Pair;
    assert |a| == |multiset(a)| == |multiset(b)| == |b|;
    if a != [] {
      assert a[0] in multiset(b);
      var i :| 0 <= i < |b| && b[i] == a[0];
      WithoutMultiset(a, 0);
      WithoutMultiset(b, i);
      PairsWithout(md, a, 0);
      PairsWithout(md, b, i);
      PairsMultiset(md, Without(a, 0), Without(b, i));
      WithoutMultiset(Pairs(md, a), 0);
      WithoutMultiset(Pairs(md, b), i);
      AddBack(multiset(Pairs(md, a)), multiset(Pairs(md, b)), Pair(a[0], md[a[0]]));
    }
  }

  lemma AddBack<T>(a: multiset<T>, b: multiset<T>, x: T)
    requires x in a && x in b && a - multiset{x} == b - multiset{x}
    ensures a == b
  {
    assert a == a - multiset{x} + multiset{x};
    assert b == b - multiset{x} + multiset{x};
  }

  /** The encoding does not depend on the order in which the map is iterated. */
  lemma OrderIrrelevant(md: map<Bytes, Bytes>, order: seq<Bytes>, other: seq<Bytes>)
    requires Sequences.Enumerates(order, md.Keys) && Sequences.Enumerates(other, md.Keys)
    ensures Encoded(md, order) == Encoded(md, other)
  {
    Sequences.EnumerationAsMultiset(order, md.Keys);
    Sequences.EnumerationAsMultiset(other, md.Keys);
    PairsMultiset(md, order, other);
    StringOrder.SortedUnique(StringOrder.Sort(Pairs(md, order)), StringOrder.Sort(Pairs(md, other)));
  }
}
