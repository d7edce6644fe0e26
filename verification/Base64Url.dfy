/**
 Unpadded base64url (section 5 of RFC 4648). `Encode` is what
 Buffer.toString('base64url') writes; `Decode` is what Buffer.from reads out of
 characters of the alphabet, ignoring bits and characters it has no use for.
 */
module Base64Url {
  type Byte = n: int | 0 <= n < 256
  type Sextet = n: int | 0 <= n < 64

  predicate InAlphabet(c: char) {
    'A' <= c <= 'Z' || 'a' <= c <= 'z' || '0' <= c <= '9' || c == '-' || c == '_'
  }

  predicate AllInAlphabet(s: string) {
    forall i :: 0 <= i < |s| ==> InAlphabet(s[i])
  }

  function Symbol(n: Sextet): (c: char)
    ensures InAlphabet(c)
  {
    if n < 26 then (n + 65) as char
    else if n < 52 then (n + 71) as char
    else if n < 62 then (n - 4) as char
    else if n == 62 then '-'
    else '_'
  }

  function Index(c: char): Sextet
    requires InAlphabet(c)
  {
    if 'A' <= c <= 'Z' then c as int - 65
    else if 'a' <= c <= 'z' then c as int - 71
    else if '0' <= c <= '9' then c as int + 4
    else if c == '-' then 62
    else 63
  }

  function Symbols(q: seq<Sextet>): (s: string)
    ensures |s| == |q| && AllInAlphabet(s)
  {
    seq(|q|, i requires 0 <= i < |q| => Symbol(q[i]))
  }

  function Indices(s: string): (q: seq<Sextet>)
    requires AllInAlphabet(s)
    ensures |q| == |s|
  {
    seq(|s|, i requires 0 <= i < |s| => Index(s[i]))
  }

  function Encode(b: seq<Byte>): string {
    Symbols(ToSextets(b))
  }

  function Decode(s: string): seq<Byte>
    requires AllInAlphabet(s)
  {
    FromSextets(Indices(s))
  }

  // ----- groups of three bytes and four sextets -----

  function ToSextets(b: seq<Byte>): seq<Sextet> {
    if |b| == 0 then []
    else if |b| == 1 then [b[0] / 4, b[0] % 4 * 16]
    else if |b| == 2 then [b[0] / 4, b[0] % 4 * 16 + b[1] / 16, b[1] % 16 * 4]
    else [b[0] / 4, b[0] % 4 * 16 + b[1] / 16, b[1] % 16 * 4 + b[2] / 64, b[2] % 64] + ToSextets(b[3..])
  }

  function FirstByte(a: Sextet, b: Sextet): Byte { a * 4 + b / 16 }

  function SecondByte(b: Sextet, c: Sextet): Byte { b % 16 * 16 + c / 4 }

  function ThirdByte(c: Sextet, d: Sextet): Byte { c % 4 * 64 + d }

  function FromSextets(q: seq<Sextet>): seq<Byte> {
    if |q| < 2 then []
    else if |q| == 2 then [FirstByte(q[0], q[1])]
    else if |q| == 3 then [FirstByte(q[0], q[1]), SecondByte(q[1], q[2])]
    else [FirstByte(q[0], q[1]), SecondByte(q[1], q[2]), ThirdByte(q[2], q[3])] + FromSextets(q[4..])
  }

  lemma BytesBack(x: Byte, y: Byte, z: Byte)
    ensures FirstByte(x / 4, x % 4 * 16 + y / 16) == x
    ensures SecondByte(x % 4 * 16 + y / 16, y % 16 * 4 + z / 64) == y
    ensures ThirdByte(y % 16 * 4 + z / 64, z % 64) == z
  {
    SplitBack(x % 4, y / 16, 16);
    SplitBack(y % 16, z / 64, 4);
  }

  lemma SextetsBack(a: Sextet, b: Sextet, c: Sextet, d: Sextet)
    ensures FirstByte(a, b) / 4 == a && FirstByte(a, b) % 4 == b / 16
    ensures SecondByte(b, c) / 16 == b % 16 && SecondByte(b, c) % 16 == c / 4
    ensures ThirdByte(c, d) / 64 == c % 4 && ThirdByte(c, d) % 64 == d
  {
    SplitBack(a, b / 16, 4);
    SplitBack(b % 16, c / 4, 16);
    SplitBack(c % 4, d, 64);
  }

  lemma SplitBack(high: nat, low: nat, k: nat)
    requires low < k && k in {4, 16, 64}
    ensures (high * k + low) / k == high && (high * k + low) % k == low
  {
  }

  lemma {:induction false} FromTo(b: seq<Byte>)
    ensures FromSextets(ToSextets(b)) == b
  {
    if |b| == 1 {
      BytesBack(b[0], 0, 0);
    } else if |b| == 2 {
      BytesBack(b[0], b[1], 0);
    } else if |b| >= 3 {
      BytesBack(b[0], b[1], b[2]);
      FromTo(b[3..]);
      assert ToSextets(b)[4..] == ToSextets(b[3..]);
      assert b == [b[0], b[1], b[2]] + b[3..];
    }
  }

  /** Canonical bits (section 3.5 of RFC 4648): no lone last sextet, and spare bits all zero. */
  predicate CanonicalBits(q: seq<Sextet>) {
    && |q| % 4 != 1
    && (|q| % 4 == 2 ==> q[|q| - 1] % 16 == 0)
    && (|q| % 4 == 3 ==> q[|q| - 1] % 4 == 0)
  }

  lemma {:induction false} ToFrom(q: seq<Sextet>)
    ensures ToSextets(FromSextets(q)) == q <==> CanonicalBits(q)
  {
    if |q| == 2 {
      SextetsBack(q[0], q[1], 0, 0);
      assert ToSextets(FromSextets(q)) == [q[0], q[1] / 16 * 16];
      assert q == [q[0], q[1]];
    } else if |q| == 3 {
      SextetsBack(q[0], q[1], q[2], 0);
      assert ToSextets(FromSextets(q)) == [q[0], q[1], q[2] / 4 * 4];
      assert q == [q[0], q[1], q[2]];
    } else if |q| >= 4 {
      ToFrom(q[4..]);
      GroupBack(q);
      BitsOfRest(q);
      assert q == [q[0], q[1], q[2], q[3]] + q[4..];
      var again := ToSextets(FromSextets(q[4..]));
      assert ([q[0], q[1], q[2], q[3]] + again)[4..] == again;
    }
  }

  function ByteGroup(x: Byte, y: Byte, z: Byte): seq<Sextet> {
    [x / 4, x % 4 * 16 + y / 16, y % 16 * 4 + z / 64, z % 64]
  }

  lemma ConsGroup(x: Byte, y: Byte, z: Byte, rest: seq<Byte>)
    ensures ToSextets([x, y, z] + rest) == ByteGroup(x, y, z) + ToSextets(rest)
  {
    assert ([x, y, z] + rest)[3..] == rest;
  }

  lemma GroupSextets(a: Sextet, b: Sextet, c: Sextet, d: Sextet)
    ensures ByteGroup(FirstByte(a, b), SecondByte(b, c), ThirdByte(c, d)) == [a, b, c, d]
  {
    SextetsBack(a, b, c, d);
    assert b / 16 * 16 + b % 16 == b && c / 4 * 4 + c % 4 == c;
  }

  lemma FirstGroup(q: seq<Sextet>)
    requires |q| >= 4
    ensures FromSextets(q) == [FirstByte(q[0], q[1]), SecondByte(q[1], q[2]), ThirdByte(q[2], q[3])] + FromSextets(q[4..])
  {
  }

  lemma GroupBack(q: seq<Sextet>)
    requires |q| >= 4
    ensures ToSextets(FromSextets(q)) == [q[0], q[1], q[2], q[3]] + ToSextets(FromSextets(q[4..]))
  {
    hide ToSextets, FromSextets, FirstByte, SecondByte, ThirdByte;
    FirstGroup(q);
    RegroupOnce(q[0], q[1], q[2], q[3], FromSextets(q[4..]), FromSextets(q));
  }

  lemma RegroupOnce(a: Sextet, b: Sextet, c: Sextet, d: Sextet, rest: seq<Byte>, all: seq<Byte>)
    requires all == [FirstByte(a, b), SecondByte(b, c), ThirdByte(c, d)] + rest
    ensures ToSextets(all) == [a, b, c, d] + ToSextets(rest)
  {
    ConsGroup(FirstByte(a, b), SecondByte(b, c), ThirdByte(c, d), rest);
    GroupSextets(a, b, c, d);
  }

  lemma BitsOfRest(q: seq<Sextet>)
    requires |q| >= 4
    ensures CanonicalBits(q) <==> CanonicalBits(q[4..])
  {
    assert |q| > 4 ==> q[|q| - 1] == q[4..][|q[4..]| - 1];
  }

  // ----- characters -----

  lemma SymbolIndex(n: Sextet)
    ensures Index(Symbol(n)) == n
  {
  }

  lemma IndexSymbol(c: char)
    requires InAlphabet(c)
    ensures Symbol(Index(c)) == c
  {
  }

  lemma IndicesSymbols(q: seq<Sextet>)
    ensures Indices(Symbols(q)) == q
  {
    forall i | 0 <= i < |q|
      ensures Indices(Symbols(q))[i] == q[i]
    {
      SymbolIndex(q[i]);
    }
  }

  lemma SymbolsIndices(s: string)
    requires AllInAlphabet(s)
    ensures Symbols(Indices(s)) == s
  {
    forall i | 0 <= i < |s|
      ensures Symbols(Indices(s))[i] == s[i]
    {
      IndexSymbol(s[i]);
    }
  }

  // ----- the text -----

  lemma {:induction false} SextetCount(b: seq<Byte>)
    ensures |ToSextets(b)| == (4 * |b| + 2) / 3
  {
    if |b| >= 3 {
      SextetCount(b[3..]);
    }
  }

  lemma EncodeShape(b: seq<Byte>)
    ensures AllInAlphabet(Encode(b)) && |Encode(b)| == (4 * |b| + 2) / 3
  {
    SextetCount(b);
  }

  /** Decoding undoes encoding. */
  lemma DecodeEncode(b: seq<Byte>)
    ensures AllInAlphabet(Encode(b)) && Decode(Encode(b)) == b
  {
    IndicesSymbols(ToSextets(b));
    FromTo(b);
  }

  /** Encoding undoes decoding on the canonical spellings and on nothing else. */
  lemma EncodeDecode(s: string)
    requires AllInAlphabet(s)
    ensures Encode(Decode(s)) == s <==> CanonicalBits(Indices(s))
  {
    ToFrom(Indices(s));
    SymbolsIndices(s);
    IndicesSymbols(ToSextets(Decode(s)));
  }

  // ----- the number a text spells -----

  const UPPER: string := "ABCDEFGHIJKLMNOPQRSTUVWXYZ"
  const LOWER: string := "abcdefghijklmnopqrstuvwxyz"
  const OTHERS: string := "0123456789-_"

  /** Table 2 of RFC 4648, in order. */
  const ALPHABET: string := UPPER + LOWER + OTHERS

  /** Digits as written, the most significant first. */
  function Value(base: nat, digits: seq<nat>): nat {
    if digits == [] then 0 else Value(base, digits[..|digits| - 1]) * base + digits[|digits| - 1]
  }

  /** The zero bits that fill the last sextet, as a factor. */
  function Fill(bytes: nat): nat {
    if bytes % 3 == 0 then 1 else if bytes % 3 == 1 then 16 else 4
  }

  lemma UpperInOrder(n: nat)
    ensures |UPPER| == 26 && (n < 26 ==> UPPER[n] as int == n + 65)
  {
  }

  lemma LowerInOrder(n: nat)
    ensures |LOWER| == 26 && (n < 26 ==> LOWER[n] as int == n + 97)
  {
  }

  lemma OthersInOrder(n: nat)
    ensures |OTHERS| == 12 && (n < 10 ==> OTHERS[n] as int == n + 48) && OTHERS[10] == '-' && OTHERS[11] == '_'
  {
  }

  lemma SymbolsInOrder(n: Sextet)
    ensures |ALPHABET| == 64 && Symbol(n) == ALPHABET[n]
  {
    UpperInOrder(if n < 26 then n else 0);
    LowerInOrder(if 26 <= n < 52 then n - 26 else 0);
    OthersInOrder(if 52 <= n < 62 then n - 52 else 0);
  }

  lemma {:induction false} WholeGroupsFirst(front: seq<Byte>, rest: seq<Byte>)
    requires |front| % 3 == 0
    ensures ToSextets(front + rest) == ToSextets(front) + ToSextets(rest)
  {
    hide ToSextets, ByteGroup;
    if front == [] {
      assert front + rest == rest;
      Nothing();
    } else {
      var x, y, z, more := front[0], front[1], front[2], front[3..];
      WholeGroupsFirst(more, rest);
      assert front == [x, y, z] + more && front + rest == [x, y, z] + (more + rest);
      ConsGroup(x, y, z, more);
      ConsGroup(x, y, z, more + rest);
    }
  }

  lemma LastDigit(base: nat, front: seq<nat>, last: nat)
    ensures Value(base, front + [last]) == Value(base, front) * base + last
  {
    assert (front + [last])[..|front|] == front;
  }

  lemma LastSextets(front: seq<nat>, a: nat, b: nat, c: nat, d: nat)
    ensures Value(64, front + [a, b]) == Value(64, front) * 4096 + a * 64 + b
    ensures Value(64, front + [a, b, c]) == Value(64, front) * 262144 + a * 4096 + b * 64 + c
    ensures Value(64, front + [a, b, c, d]) == Value(64, front) * 16777216 + a * 262144 + b * 4096 + c * 64 + d
  {
    hide Value;
    LastDigit(64, front, a);
    LastDigit(64, front + [a], b);
    LastDigit(64, front + [a, b], c);
    LastDigit(64, front + [a, b, c], d);
    assert front + [a] + [b] == front + [a, b] && front + [a, b] + [c] == front + [a, b, c];
    assert front + [a, b, c] + [d] == front + [a, b, c, d];
  }

  lemma LastBytes(front: seq<nat>, x: nat, y: nat, z: nat)
    ensures Value(256, front + [x]) == Value(256, front) * 256 + x
    ensures Value(256, front + [x, y]) == Value(256, front) * 65536 + x * 256 + y
    ensures Value(256, front + [x, y, z]) == Value(256, front) * 16777216 + x * 65536 + y * 256 + z
  {
    hide Value;
    LastDigit(256, front, x);
    LastDigit(256, front + [x], y);
    LastDigit(256, front + [x, y], z);
    assert front + [x] + [y] == front + [x, y] && front + [x, y] + [z] == front + [x, y, z];
  }

  /** Twenty-four bits, as three bytes and as four sextets; and the shorter groups, filled. */
  lemma GroupNumber(x: nat, y: nat, z: nat)
    requires x < 256 && y < 256 && z < 256
    ensures x / 4 * 64 + x % 4 * 16 == x * 16
    ensures x / 4 * 4096 + (x % 4 * 16 + y / 16) * 64 + y % 16 * 4 == (x * 256 + y) * 4
    ensures x / 4 * 262144 + (x % 4 * 16 + y / 16) * 4096 + (y % 16 * 4 + z / 64) * 64 + z % 64 == x * 65536 + y * 256 + z
  {
    assert x / 4 * 4 + x % 4 == x && y / 16 * 16 + y % 16 == y && z / 64 * 64 + z % 64 == z;
  }

  lemma {:induction false} SextetsSpellTheNumber(b: seq<Byte>)
    ensures Value(64, ToSextets(b)) == Value(256, b) * Fill(|b|)
  {
    hide Value, ToSextets;
    if b == [] {
      Nothing();
    } else {
      var n := if |b| % 3 == 0 then |b| - 3 else |b| - |b| % 3;
      var front, group := b[..n], b[n..];
      SextetsSpellTheNumber(front);
      WholeGroupsFirst(front, group);
      assert b == front + group;
      if |group| == 1 {
        LastOfOne(front, group[0]);
        assert group == [group[0]];
      } else if |group| == 2 {
        LastOfTwo(front, group[0], group[1]);
        assert group == [group[0], group[1]];
      } else {
        LastOfThree(front, group[0], group[1], group[2]);
        assert group == [group[0], group[1], group[2]];
      }
    }
  }

  lemma Nothing()
    ensures Value(64, []) == 0 && Value(256, []) == 0 && ToSextets([]) == []
  {
  }

  lemma LastOfOne(front: seq<Byte>, x: Byte)
    ensures Value(64, ToSextets(front)) == Value(256, front) ==>
              Value(64, ToSextets(front) + ToSextets([x])) == Value(256, front + [x]) * 16
  {
    hide Value;
    GroupNumber(x, 0, 0);
    LastBytes(front, x, 0, 0);
    LastSextets(ToSextets(front), x / 4, x % 4 * 16, 0, 0);
  }

  lemma LastOfTwo(front: seq<Byte>, x: Byte, y: Byte)
    ensures Value(64, ToSextets(front)) == Value(256, front) ==>
              Value(64, ToSextets(front) + ToSextets([x, y])) == Value(256, front + [x, y]) * 4
  {
    hide Value;
    GroupNumber(x, y, 0);
    LastBytes(front, x, y, 0);
    LastSextets(ToSextets(front), x / 4, x % 4 * 16 + y / 16, y % 16 * 4, 0);
  }

  lemma LastOfThree(front: seq<Byte>, x: Byte, y: Byte, z: Byte)
    ensures Value(64, ToSextets(front)) == Value(256, front) ==>
              Value(64, ToSextets(front) + ToSextets([x, y, z])) == Value(256, front + [x, y, z])
  {
    hide Value, ToSextets;
    var a: nat, b: nat, c: nat, d: nat := x / 4, x % 4 * 16 + y / 16, y % 16 * 4 + z / 64, z % 64;
    assert a * 262144 + b * 4096 + c * 64 + d == x as int * 65536 + y as int * 256 + z as int by {
      GroupNumber(x, y, z);
    }
    assert ToSextets([x, y, z]) == [a, b, c, d] by {
      ConsGroup(x, y, z, []);
      Nothing();
      assert [x, y, z] + [] == [x, y, z];
    }
    LastBytes(front, x, y, z);
    LastSextets(ToSextets(front), a, b, c, d);
  }

  /**
   What the text is, told without its encoder: symbols of the alphabet, as many as
   the bytes need, whose places in it are the digits of the number the bytes
   spell, filled with zero bits at the end.
   */
  lemma EncodeSpellsTheNumber(b: seq<Byte>)
    ensures |Encode(b)| == (4 * |b| + 2) / 3
    ensures exists q: seq<nat> ::
              && |q| == |Encode(b)|
              && (forall i :: 0 <= i < |q| ==> q[i] < |ALPHABET| && Encode(b)[i] == ALPHABET[q[i]])
              && Value(64, q) == Value(256, b) * Fill(|b|)
  {
    hide Symbol, Value, ToSextets, Fill;
    var q: seq<nat> := ToSextets(b);
    EncodeShape(b);
    SextetsSpellTheNumber(b);
    forall i | 0 <= i < |q|
      ensures q[i] < |ALPHABET| && Encode(b)[i] == ALPHABET[q[i]]
    {
      SymbolsInOrder(q[i]);
    }
  }
}
