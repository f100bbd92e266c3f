/** URL-safe base64 with padding, section 5 of RFC 4648, as the operator writes a Fernet
    key: the encoder, the bits it stands for, and a strict decoder that inverts it. */
module Base64Url {
  import opened Text

  type Byte = bv8

  const UPPER := "ABCDEFGHIJKLMNOPQRSTUVWXYZ"
  const LOWER := "abcdefghijklmnopqrstuvwxyz"
  const DIGITS := "0123456789"
  const ALPHABET := UPPER + LOWER + DIGITS + "-_"

  lemma AlphabetSize()
    ensures |ALPHABET| == 64
  {
  }

  function Symbol(v: bv6): char {
    AlphabetSize();
    ALPHABET[v as int]
  }

  // ---------- the encoder ----------

  function At(chunk: seq<Byte>, i: nat): Byte {
    if i < |chunk| then chunk[i] else 0
  }

  /** The 24 bits of up to three bytes, absent ones read as zero. */
  function Group(chunk: seq<Byte>): bv32 {
    Join3(At(chunk, 0), At(chunk, 1), At(chunk, 2))
  }

  function Join3(a: Byte, b: Byte, c: Byte): bv32 {
    (a as bv32 << 16) | (b as bv32 << 8) | c as bv32
  }

  /** Six bits of the group: the shift is `18 - 6 * position`. */
  function Sextet(group: bv32, position: nat): bv6
    requires position < 4
  {
    if position == 0 then ((group >> 18) & 63) as bv6
    else if position == 1 then ((group >> 12) & 63) as bv6
    else if position == 2 then ((group >> 6) & 63) as bv6
    else (group & 63) as bv6
  }

  function CharAt(chunk: seq<Byte>, position: nat): char
    requires position < 4
  {
    if position <= |chunk| then Symbol(Sextet(Group(chunk), position)) else '='
  }

  function EncodeChunk(chunk: seq<Byte>): string {
    [CharAt(chunk, 0), CharAt(chunk, 1), CharAt(chunk, 2), CharAt(chunk, 3)]
  }

  function Least3(n: nat): nat {
    if n < 3 then n else 3
  }

  function Encode(bytes: seq<Byte>): string {
    if bytes == [] then "" else
      EncodeChunk(bytes[..Least3(|bytes|)]) + Encode(bytes[Least3(|bytes|)..])
  }

  lemma TakeDrop(bytes: seq<Byte>, m: nat, n: nat)
    requires m <= n <= |bytes|
    ensures bytes[..n][..m] == bytes[..m] && bytes[..n][m..] == bytes[m..n] && bytes[m..n] == bytes[m..][..n - m]
  {
  }

  lemma EncodeFirst(bytes: seq<Byte>, n: nat)
    requires 3 <= n <= |bytes|
    ensures Encode(bytes[..n]) == EncodeChunk(bytes[..3]) + Encode(bytes[3..][..n - 3])
  {
    TakeDrop(bytes, 3, n);
  }

  lemma EncodeStep(bytes: seq<Byte>, chunk: seq<Byte>, rest: seq<Byte>)
    requires bytes == chunk + rest && |chunk| == Least3(|bytes|) && chunk != []
    ensures Encode(bytes) == EncodeChunk(chunk) + Encode(rest)
  {
    assert bytes[..|chunk|] == chunk && bytes[|chunk|..] == rest;
  }

  lemma EncodeOne(chunk: seq<Byte>)
    requires 1 <= |chunk| <= 3
    ensures Encode(chunk) == EncodeChunk(chunk)
  {
    EncodeStep(chunk, chunk, []);
    assert EncodeChunk(chunk) + "" == EncodeChunk(chunk);
  }

  lemma SameChunk(bytes: seq<Byte>, k: nat, n: nat)
    requires 3 <= k <= n <= |bytes|
    ensures bytes[3..][k - 3..n - 3] == bytes[k..n]
  {
  }

  /** One more chunk at the end. */
  lemma {:induction false} EncodeSnoc(bytes: seq<Byte>, k: nat, n: nat)
    requires k < n <= |bytes| && k % 3 == 0 && n == k + Least3(|bytes| - k)
    ensures Encode(bytes[..n]) == Encode(bytes[..k]) + EncodeChunk(bytes[k..n])
    decreases k
  {
    if k == 0 {
      assert bytes[..0] == [] && bytes[..n] == bytes[0..n];
      EncodeOne(bytes[..n]);
    } else {
      EncodeSnoc(bytes[3..], k - 3, n - 3);
      EncodeFirst(bytes, n);
      EncodeFirst(bytes, k);
      SameChunk(bytes, k, n);
    }
  }

  /** The inner loop: four characters for one chunk. */
  method PushChunk(out: string, chunk: seq<Byte>) returns (more: string)
    ensures more == out + EncodeChunk(chunk)
  {
    var group := Group(chunk);
    more := out;
    for position := 0 to 4
      invariant more == out + EncodeChunk(chunk)[..position]
    {
      ChunkChar(chunk, position);
      if position <= |chunk| {
        more := more + [Symbol(Sextet(group, position))];
      } else {
        more := more + ['='];
      }
    }
  }

  lemma ChunkChar(chunk: seq<Byte>, position: nat)
    requires position < 4
    ensures EncodeChunk(chunk)[..position + 1] == EncodeChunk(chunk)[..position] + [CharAt(chunk, position)]
  {
    assert EncodeChunk(chunk)[position] == CharAt(chunk, position);
  }

  /** `base64_url`. */
  method EncodeUrl(bytes: seq<Byte>) returns (out: string)
    ensures out == Encode(bytes)
  {
    out := "";
    var k := 0;
    while k < |bytes|
      invariant k <= |bytes| && (k % 3 == 0 || k == |bytes|)
      invariant out == Encode(bytes[..k])
    {
      var next := k + Least3(|bytes| - k);
      EncodeSnoc(bytes, k, next);
      out := PushChunk(out, bytes[k..next]);
      k := next;
    }
    assert bytes[..k] == bytes;
  }

  // ---------- its bits ----------

  /** Bit `i` of a byte, the most significant one first. */
  predicate Bit8(b: Byte, i: nat)
    requires i < 8
  {
    b & (if i == 0 then 128 else if i == 1 then 64 else if i == 2 then 32 else if i == 3 then 16
         else if i == 4 then 8 else if i == 5 then 4 else if i == 6 then 2 else 1) != 0
  }

  predicate Bit6(v: bv6, i: nat)
    requires i < 6
  {
    v & (if i == 0 then 32 else if i == 1 then 16 else if i == 2 then 8 else if i == 3 then 4
         else if i == 4 then 2 else 1) != 0
  }

  /** The input as one string of bits, most significant first; zeros follow the last byte. */
  predicate StreamBit(bytes: seq<Byte>, i: nat) {
    i / 8 < |bytes| && Bit8(bytes[i / 8], i % 8)
  }

  lemma FirstSextet(a: Byte, b: Byte, c: Byte, j: nat)
    requires j < 6
    ensures Bit6(Sextet(Join3(a, b, c), 0), j) == Bit8(a, j)
  {
  }

  lemma SecondSextet(a: Byte, b: Byte, c: Byte, j: nat)
    requires j < 6
    ensures Bit6(Sextet(Join3(a, b, c), 1), j) == if j < 2 then Bit8(a, 6 + j) else Bit8(b, j - 2)
  {
  }

  lemma ThirdSextet(a: Byte, b: Byte, c: Byte, j: nat)
    requires j < 6
    ensures Bit6(Sextet(Join3(a, b, c), 2), j) == if j < 4 then Bit8(b, 4 + j) else Bit8(c, j - 4)
  {
  }

  lemma FourthSextet(a: Byte, b: Byte, c: Byte, j: nat)
    requires j < 6
    ensures Bit6(Sextet(Join3(a, b, c), 3), j) == Bit8(c, 2 + j)
  {
  }

  lemma ZeroBit(i: nat)
    requires i < 8
    ensures !Bit8(0, i)
  {
  }

  lemma StreamAt(chunk: seq<Byte>, i: nat)
    ensures StreamBit(chunk, i) == Bit8(At(chunk, i / 8), i % 8)
  {
    ZeroBit(i % 8);
  }

  /** Sextet `p` of a chunk holds bits `6p` to `6p + 5` of it. */
  lemma SextetBits(chunk: seq<Byte>, p: nat, j: nat)
    requires |chunk| <= 3 && p < 4 && j < 6
    ensures Bit6(Sextet(Group(chunk), p), j) == StreamBit(chunk, 6 * p + j)
  {
    var a, b, c := At(chunk, 0), At(chunk, 1), At(chunk, 2);
    StreamAt(chunk, 6 * p + j);
    if p == 0 {
      FirstSextet(a, b, c, j);
    } else if p == 1 {
      SecondSextet(a, b, c, j);
    } else if p == 2 {
      ThirdSextet(a, b, c, j);
    } else {
      FourthSextet(a, b, c, j);
    }
  }

  lemma {:induction false} EncodeLength(bytes: seq<Byte>)
    ensures |Encode(bytes)| == 4 * ((|bytes| + 2) / 3)
  {
    if bytes != [] {
      EncodeLength(bytes[Least3(|bytes|)..]);
    }
  }

  /** The symbol for six bits of the input, from bit `6k` on. */
  ghost predicate SymbolFor(c: char, bytes: seq<Byte>, k: nat) {
    exists v: bv6 :: c == Symbol(v) && forall j :: 0 <= j < 6 ==> Bit6(v, j) == StreamBit(bytes, 6 * k + j)
  }

  lemma ChunkStream(bytes: seq<Byte>, i: nat)
    requires i < 24
    ensures StreamBit(bytes[..Least3(|bytes|)], i) == StreamBit(bytes, i)
  {
  }

  lemma RestStream(bytes: seq<Byte>, i: nat)
    requires |bytes| >= 3
    ensures StreamBit(bytes[3..], i) == StreamBit(bytes, 24 + i)
  {
    assert (24 + i) / 8 == 3 + i / 8 && (24 + i) % 8 == i % 8;
  }

  lemma FirstSymbols(bytes: seq<Byte>, k: nat)
    requires bytes != [] && k < 4
    ensures var c := EncodeChunk(bytes[..Least3(|bytes|)])[k];
      if 6 * k < 8 * |bytes| then SymbolFor(c, bytes, k) else c == '='
  {
    var chunk := bytes[..Least3(|bytes|)];
    assert EncodeChunk(chunk)[k] == CharAt(chunk, k);
    if 6 * k < 8 * |bytes| {
      var v := Sextet(Group(chunk), k);
      forall j | 0 <= j < 6 ensures Bit6(v, j) == StreamBit(bytes, 6 * k + j) {
        SextetBits(chunk, k, j);
        ChunkStream(bytes, 6 * k + j);
      }
      assert SymbolFor(Symbol(v), bytes, k);
    }
  }

  lemma LaterSymbols(bytes: seq<Byte>, k: nat, c: char)
    requires |bytes| >= 3 && SymbolFor(c, bytes[3..], k)
    ensures SymbolFor(c, bytes, k + 4)
  {
    var v: bv6 :| c == Symbol(v) && forall j :: 0 <= j < 6 ==> Bit6(v, j) == StreamBit(bytes[3..], 6 * k + j);
    forall j | 0 <= j < 6 ensures Bit6(v, j) == StreamBit(bytes, 6 * (k + 4) + j) {
      RestStream(bytes, 6 * k + j);
    }
  }

  /** The output read as RFC 4648 defines it: one symbol for every six bits of the input,
      the last group filled up with zero bits, then `=` up to a multiple of four. */
  lemma {:induction false} EncodeBits(bytes: seq<Byte>, k: nat)
    requires k < |Encode(bytes)|
    ensures if 6 * k < 8 * |bytes| then SymbolFor(Encode(bytes)[k], bytes, k) else Encode(bytes)[k] == '='
  {
    var chunk := bytes[..Least3(|bytes|)];
    var rest := bytes[Least3(|bytes|)..];
    if k < 4 {
      FirstSymbols(bytes, k);
      assert Encode(bytes)[k] == EncodeChunk(chunk)[k];
    } else {
      assert Encode(bytes)[k] == Encode(rest)[k - 4];
      EncodeBits(rest, k - 4);
      if 6 * k < 8 * |bytes| {
        LaterSymbols(bytes, k - 4, Encode(bytes)[k]);
      }
    }
  }

  // ---------- the alphabet backwards ----------

  /** The place of a character in the alphabet, from the ranges of RFC 4648. */
  function Place(c: char): Option<nat> {
    if 'A' <= c <= 'Z' then Some(c as int - 'A' as int)
    else if 'a' <= c <= 'z' then Some(c as int - 'a' as int + 26)
    else if '0' <= c <= '9' then Some(c as int - '0' as int + 52)
    else if c == '-' then Some(62)
    else if c == '_' then Some(63)
    else None
  }

  lemma UpperPlace(i: nat)
    requires i < 26
    ensures Place(UPPER[i]) == Some(i)
  {
  }

  lemma LowerPlace(i: nat)
    requires i < 26
    ensures Place(LOWER[i]) == Some(26 + i)
  {
  }

  lemma DigitPlace(i: nat)
    requires i < 10
    ensures Place(DIGITS[i]) == Some(52 + i)
  {
  }

  lemma PlaceAt(i: nat)
    requires i < |ALPHABET|
    ensures Place(ALPHABET[i]) == Some(i)
  {
    if i < 26 {
      UpperPlace(i);
    } else if i < 52 {
      LowerPlace(i - 26);
    } else if i < 62 {
      DigitPlace(i - 52);
    }
  }

  function Value(c: char): Option<bv6> {
    var place := Place(c);
    if place.Some? then Some(place.value as bv6) else None
  }

  lemma ValueOfSymbol(v: bv6)
    ensures Value(Symbol(v)) == Some(v) && Symbol(v) != '='
  {
    AlphabetSize();
    PlaceAt(v as int);
  }

  lemma SymbolAt(i: nat)
    requires i < 64
    ensures |ALPHABET| == 64 && Symbol(i as bv6) == ALPHABET[i]
  {
    AlphabetSize();
    assert (i as bv6) as int == i;
  }

  lemma PlaceBound(c: char)
    ensures Place(c).Some? ==> Place(c).value < 64
  {
  }

  lemma SymbolOfValue(c: char)
    requires Value(c).Some?
    ensures Symbol(Value(c).value) == c
  {
    var i := Place(c).value;
    PlaceBound(c);
    SymbolAt(i);
    PlaceAt(i);
    PlaceInjective(ALPHABET[i], c);
  }

  lemma PlaceInjective(c: char, d: char)
    requires Place(c).Some? && Place(c) == Place(d)
    ensures c == d
  {
  }

  // ---------- the decoder ----------

  function First(v0: bv6, v1: bv6): Byte { (v0 as bv8 << 2) | (v1 as bv8 >> 4) }

  function Second(v1: bv6, v2: bv6): Byte { (v1 as bv8 << 4) | (v2 as bv8 >> 2) }

  function Third(v2: bv6, v3: bv6): Byte { (v2 as bv8 << 6) | v3 as bv8 }

  /** The bytes of four characters. Only the last four may be padded, and the bits no byte
      uses must be zero. */
  function DecodeQuad(q: string, last: bool): Option<seq<Byte>>
    requires |q| == 4
  {
    var v0, v1, v2, v3 := Value(q[0]), Value(q[1]), Value(q[2]), Value(q[3]);
    if v0 == None || v1 == None then None
    else if v2.Some? && v3.Some? then
      Some([First(v0.value, v1.value), Second(v1.value, v2.value), Third(v2.value, v3.value)])
    else if v2.Some? && q[3] == '=' && last && v2.value & 3 == 0 then
      Some([First(v0.value, v1.value), Second(v1.value, v2.value)])
    else if q[2] == '=' && q[3] == '=' && last && v1.value & 15 == 0 then
      Some([First(v0.value, v1.value)])
    else None
  }

  function Decode(s: string): Option<seq<Byte>>
    decreases |s|
  {
    if s == "" then Some([])
    else if |s| < 4 then None
    else
      var head, tail := DecodeQuad(s[..4], |s| == 4), Decode(s[4..]);
      if head.Some? && tail.Some? then Some(head.value + tail.value) else None
  }

  /** Three bytes and their four sextets determine each other. */
  lemma ThreeBytes(a: Byte, b: Byte, c: Byte)
    ensures var g := Join3(a, b, c);
      First(Sextet(g, 0), Sextet(g, 1)) == a && Second(Sextet(g, 1), Sextet(g, 2)) == b
      && Third(Sextet(g, 2), Sextet(g, 3)) == c
    ensures c == 0 ==> Sextet(Join3(a, b, c), 2) & 3 == 0
    ensures b == 0 && c == 0 ==> Sextet(Join3(a, b, c), 1) & 15 == 0
  {
  }

  lemma FourSextets(v0: bv6, v1: bv6, v2: bv6, v3: bv6)
    ensures var g := Join3(First(v0, v1), Second(v1, v2), Third(v2, v3));
      Sextet(g, 0) == v0 && Sextet(g, 1) == v1 && Sextet(g, 2) == v2 && Sextet(g, 3) == v3
  {
  }

  lemma ThreeSextets(v0: bv6, v1: bv6, v2: bv6)
    requires v2 & 3 == 0
    ensures var g := Join3(First(v0, v1), Second(v1, v2), 0);
      Sextet(g, 0) == v0 && Sextet(g, 1) == v1 && Sextet(g, 2) == v2
  {
  }

  lemma TwoSextets(v0: bv6, v1: bv6)
    requires v1 & 15 == 0
    ensures var g := Join3(First(v0, v1), 0, 0);
      Sextet(g, 0) == v0 && Sextet(g, 1) == v1
  {
  }

  /** What the decoder makes of four characters with known values. */
  lemma QuadOfFour(q: string, last: bool, v0: bv6, v1: bv6, v2: bv6, v3: bv6)
    requires |q| == 4 && Value(q[0]) == Some(v0) && Value(q[1]) == Some(v1)
    requires Value(q[2]) == Some(v2) && Value(q[3]) == Some(v3)
    ensures DecodeQuad(q, last) == Some([First(v0, v1), Second(v1, v2), Third(v2, v3)])
  {
  }

  lemma QuadOfThree(q: string, v0: bv6, v1: bv6, v2: bv6)
    requires |q| == 4 && Value(q[0]) == Some(v0) && Value(q[1]) == Some(v1)
    requires Value(q[2]) == Some(v2) && q[3] == '=' && v2 & 3 == 0
    ensures DecodeQuad(q, true) == Some([First(v0, v1), Second(v1, v2)])
  {
  }

  lemma QuadOfTwo(q: string, v0: bv6, v1: bv6)
    requires |q| == 4 && Value(q[0]) == Some(v0) && Value(q[1]) == Some(v1)
    requires q[2] == '=' && q[3] == '=' && v1 & 15 == 0
    ensures DecodeQuad(q, true) == Some([First(v0, v1)])
  {
  }

  lemma ChunkRoundTrip(chunk: seq<Byte>, last: bool)
    requires 1 <= |chunk| <= 3 && (|chunk| < 3 ==> last)
    ensures DecodeQuad(EncodeChunk(chunk), last) == Some(chunk)
  {
    var a, b, c, q := At(chunk, 0), At(chunk, 1), At(chunk, 2), EncodeChunk(chunk);
    var g := Group(chunk);
    var v0, v1, v2, v3 := Sextet(g, 0), Sextet(g, 1), Sextet(g, 2), Sextet(g, 3);
    ThreeBytes(a, b, c);
    ValueOfSymbol(v0);
    ValueOfSymbol(v1);
    if |chunk| == 3 {
      ValueOfSymbol(v2);
      ValueOfSymbol(v3);
      QuadOfFour(q, last, v0, v1, v2, v3);
      assert chunk == [a, b, c];
    } else if |chunk| == 2 {
      ValueOfSymbol(v2);
      QuadOfThree(q, v0, v1, v2);
      assert chunk == [a, b];
    } else {
      QuadOfTwo(q, v0, v1);
      assert chunk == [a];
    }
  }

  lemma DecodeStep(q: string, t: string, chunk: seq<Byte>, rest: seq<Byte>)
    requires |q| == 4 && DecodeQuad(q, t == "") == Some(chunk) && Decode(t) == Some(rest)
    ensures Decode(q + t) == Some(chunk + rest)
  {
    assert (q + t)[..4] == q && (q + t)[4..] == t;
  }

  lemma EncodeSplit(bytes: seq<Byte>) returns (chunk: seq<Byte>, rest: seq<Byte>)
    requires bytes != []
    ensures bytes == chunk + rest && 1 <= |chunk| <= 3 && (|chunk| < 3 ==> rest == [])
    ensures Encode(bytes) == EncodeChunk(chunk) + Encode(rest)
    ensures Encode(rest) == "" <==> rest == []
  {
    var n := Least3(|bytes|);
    chunk, rest := bytes[..n], bytes[n..];
    EncodeLength(rest);
  }

  /** Decoding what was encoded gives every byte back. */
  lemma {:induction false} EncodeDecode(bytes: seq<Byte>)
    ensures Decode(Encode(bytes)) == Some(bytes)
    decreases |bytes|
  {
    if bytes != [] {
      var chunk, rest := EncodeSplit(bytes);
      EncodeDecode(rest);
      ChunkRoundTrip(chunk, Encode(rest) == "");
      DecodeStep(EncodeChunk(chunk), Encode(rest), chunk, rest);
    }
  }

  lemma Injective(a: seq<Byte>, b: seq<Byte>)
    requires Encode(a) == Encode(b)
    ensures a == b
  {
    EncodeDecode(a);
    EncodeDecode(b);
  }

  lemma QuadRoundTrip(q: string, last: bool)
    requires |q| == 4 && DecodeQuad(q, last).Some?
    ensures var chunk := DecodeQuad(q, last).value;
      1 <= |chunk| <= 3 && (|chunk| < 3 ==> last) && EncodeChunk(chunk) == q
  {
    var chunk := DecodeQuad(q, last).value;
    var v0, v1 := Value(q[0]).value, Value(q[1]).value;
    SymbolOfValue(q[0]);
    SymbolOfValue(q[1]);
    if |chunk| == 1 {
      TwoSextets(v0, v1);
    } else {
      var v2 := Value(q[2]).value;
      SymbolOfValue(q[2]);
      if |chunk| == 2 {
        ThreeSextets(v0, v1, v2);
      } else {
        SymbolOfValue(q[3]);
        FourSextets(v0, v1, v2, Value(q[3]).value);
      }
    }
  }

  /** Whatever the strict decoder accepts is what the encoder writes: one text for each
      byte string. */
  lemma {:induction false} DecodeEncode(s: string)
    requires Decode(s).Some?
    ensures Encode(Decode(s).value) == s
    decreases |s|
  {
    if s != "" {
      QuadRoundTrip(s[..4], |s| == 4);
      DecodeEncode(s[4..]);
      var chunk, rest := DecodeQuad(s[..4], |s| == 4).value, Decode(s[4..]).value;
      var bytes := chunk + rest;
      if |s| == 4 {
        assert rest == [] && bytes == chunk;
        EncodeOne(chunk);
      } else {
        assert bytes[..3] == chunk && bytes[3..] == rest;
      }
      assert s == s[..4] + s[4..];
    }
  }

  // ---------- the Fernet key ----------

  /** 32 bytes come to 44 characters, the last one the only padding. */
  lemma FernetKeyShape(bytes: seq<Byte>)
    requires |bytes| == 32
    ensures |Encode(bytes)| == 44
    ensures Encode(bytes)[43] == '=' && forall k :: 0 <= k < 43 ==> Encode(bytes)[k] != '='
  {
    EncodeLength(bytes);
    EncodeBits(bytes, 43);
    forall k | 0 <= k < 43 ensures Encode(bytes)[k] != '=' {
      EncodeBits(bytes, k);
      var v: bv6 :| Encode(bytes)[k] == Symbol(v);
      ValueOfSymbol(v);
    }
  }

  /** The vectors of section 10 of RFC 4648. */
  lemma Vectors()
    ensures Encode([]) == ""
    ensures Encode([0x66]) == "Zg=="
    ensures Encode([0x66, 0x6f]) == "Zm8="
    ensures Encode([0x66, 0x6f, 0x6f]) == "Zm9v"
  {
    EncodeOne([0x66]);
    EncodeOne([0x66, 0x6f]);
    EncodeOne([0x66, 0x6f, 0x6f]);
  }
}
