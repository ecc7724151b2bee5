/** URL-safe base64 (section 5 of RFC 4648), with the padding stripped and put back by length. */
module Base64 {

  type Byte = b: int | 0 <= b < 256
  type Sextet = v: int | 0 <= v < 64

  // ---------- bytes and sextets ----------

  function First(x: Byte): Sextet { x / 4 }
  function Second(x: Byte, y: Byte): Sextet { x % 4 * 16 + y / 16 }
  function Third(y: Byte, z: Byte): Sextet { y % 16 * 4 + z / 64 }
  function Fourth(z: Byte): Sextet { z % 64 }

  function Byte0(a: Sextet, b: Sextet): Byte { a * 4 + b / 16 }
  function Byte1(b: Sextet, c: Sextet): Byte { b % 16 * 16 + c / 4 }
  function Byte2(c: Sextet, d: Sextet): Byte { c % 4 * 64 + d }

  lemma BitsComeBack(x: Byte, y: Byte, z: Byte)
    ensures Byte0(First(x), Second(x, y)) == x
    ensures Byte1(Second(x, y), Third(y, z)) == y
    ensures Byte2(Third(y, z), Fourth(z)) == z
  {
  }

  /** Three bytes make four sextets; one byte makes two, and two bytes make three. */
  function Sextets(data: seq<Byte>): seq<Sextet> {
    if data == [] then []
    else if |data| == 1 then [First(data[0]), Second(data[0], 0)]
    else if |data| == 2 then [First(data[0]), Second(data[0], data[1]), Third(data[1], 0)]
    else [First(data[0]), Second(data[0], data[1]), Third(data[1], data[2]), Fourth(data[2])] + Sextets(data[3..])
  }

  /** Left-over bits are dropped; a single sextet holds no byte. */
  function Bytes(vs: seq<Sextet>): seq<Byte> {
    if |vs| < 2 then []
    else if |vs| == 2 then [Byte0(vs[0], vs[1])]
    else if |vs| == 3 then [Byte0(vs[0], vs[1]), Byte1(vs[1], vs[2])]
    else [Byte0(vs[0], vs[1]), Byte1(vs[1], vs[2]), Byte2(vs[2], vs[3])] + Bytes(vs[4..])
  }

  lemma BytesOfGroup(a: Sextet, b: Sextet, c: Sextet, d: Sextet, rest: seq<Sextet>)
    ensures Bytes([a, b, c, d] + rest) == [Byte0(a, b), Byte1(b, c), Byte2(c, d)] + Bytes(rest)
  {
    assert ([a, b, c, d] + rest)[4..] == rest;
  }

  lemma SextetsOfGroup(x: Byte, y: Byte, z: Byte, rest: seq<Byte>)
    ensures Sextets([x, y, z] + rest) == [First(x), Second(x, y), Third(y, z), Fourth(z)] + Sextets(rest)
  {
    assert ([x, y, z] + rest)[3..] == rest;
  }

  lemma BytesOfTail(a: Sextet, b: Sextet, c: Sextet)
    ensures Bytes([a, b]) == [Byte0(a, b)] && Bytes([a, b, c]) == [Byte0(a, b), Byte1(b, c)]
  {
  }

  lemma OneComesBack(x: Byte)
    ensures Bytes([First(x), Second(x, 0)]) == [x]
  {
    BytesOfTail(First(x), Second(x, 0), 0);
    BitsComeBack(x, 0, 0);
  }

  lemma TwoComeBack(x: Byte, y: Byte)
    ensures Bytes([First(x), Second(x, y), Third(y, 0)]) == [x, y]
  {
    BytesOfTail(First(x), Second(x, y), Third(y, 0));
    BitsComeBack(x, y, 0);
  }

  lemma {:induction false} BytesComeBack(data: seq<Byte>)
    ensures Bytes(Sextets(data)) == data
  {
    if |data| == 1 {
      OneComesBack(data[0]);
      assert data == [data[0]];
    } else if |data| == 2 {
      TwoComeBack(data[0], data[1]);
      assert data == [data[0], data[1]];
    } else if |data| >= 3 {
      var x, y, z, rest := data[0], data[1], data[2], data[3..];
      BytesComeBack(rest);
      assert data == [x, y, z] + rest;
      SextetsOfGroup(x, y, z, rest);
      GroupComesBack(x, y, z, rest, Sextets(rest));
    }
  }

  lemma GroupComesBack(x: Byte, y: Byte, z: Byte, rest: seq<Byte>, vs: seq<Sextet>)
    requires Bytes(vs) == rest
    ensures Bytes([First(x), Second(x, y), Third(y, z), Fourth(z)] + vs) == [x, y, z] + rest
  {
    BitsComeBack(x, y, z);
    BytesOfGroup(First(x), Second(x, y), Third(y, z), Fourth(z), vs);
  }

  /** Never one more than a multiple of four. */
  lemma {:induction false} SextetsLength(data: seq<Byte>)
    ensures |Sextets(data)| % 4 != 1 && (data != [] ==> Sextets(data) != [])
  {
    if |data| >= 3 {
      SextetsLength(data[3..]);
      assert |Sextets(data)| == 4 + |Sextets(data[3..])|;
    }
  }

  lemma {:induction false} SextetsAreMore(data: seq<Byte>)
    ensures 3 * |Sextets(data)| >= 4 * |data|
  {
    if |data| >= 3 {
      SextetsAreMore(data[3..]);
      assert |Sextets(data)| == 4 + |Sextets(data[3..])|;
    }
  }

  // ---------- sextets and characters ----------

  function CharOf(v: Sextet): char {
    if v < 26 then 'A' + v as char
    else if v < 52 then 'a' + (v - 26) as char
    else if v < 62 then '0' + (v - 52) as char
    else if v == 62 then '-'
    else '_'
  }

  predicate InAlphabet(c: char) {
    'A' <= c <= 'Z' || 'a' <= c <= 'z' || '0' <= c <= '9' || c == '-' || c == '_'
  }

  function ValueOf(c: char): Sextet {
    if 'A' <= c <= 'Z' then (c - 'A') as int
    else if 'a' <= c <= 'z' then (c - 'a') as int + 26
    else if '0' <= c <= '9' then (c - '0') as int + 52
    else if c == '-' then 62
    else 63
  }

  lemma CharAndBack(v: Sextet)
    ensures InAlphabet(CharOf(v)) && ValueOf(CharOf(v)) == v
  {
  }

  function Chars(vs: seq<Sextet>): (s: string)
    ensures |s| == |vs| && forall i :: 0 <= i < |vs| ==> s[i] == CharOf(vs[i])
  {
    seq(|vs|, i requires 0 <= i < |vs| => CharOf(vs[i]))
  }

  function Values(s: string): (vs: seq<Sextet>)
    ensures |vs| == |s| && forall i :: 0 <= i < |s| ==> vs[i] == ValueOf(s[i])
  {
    seq(|s|, i requires 0 <= i < |s| => ValueOf(s[i]))
  }

  predicate AllInAlphabet(s: string) {
    forall i :: 0 <= i < |s| ==> InAlphabet(s[i])
  }

  lemma CharsAndBack(vs: seq<Sextet>)
    ensures AllInAlphabet(Chars(vs)) && Values(Chars(vs)) == vs
  {
    forall i | 0 <= i < |vs| ensures InAlphabet(Chars(vs)[i]) && Values(Chars(vs))[i] == vs[i] {
      CharAndBack(vs[i]);
    }
  }

  // ---------- padding ----------

  function Repeat(n: nat): (s: string)
    ensures |s| == n && forall i :: 0 <= i < n ==> s[i] == '='
  {
    seq(n, _ => '=')
  }

  /** -n % 4 */
  function PadCount(n: nat): (k: nat)
    ensures (n + k) % 4 == 0 && (n % 4 != 1 ==> k <= 2)
  {
    if n % 4 == 0 then 0 else 4 - n % 4
  }

  function Pad(s: string): string {
    s + Repeat(PadCount(|s|))
  }

  /** rstrip("=") */
  function Unpad(s: string): string {
    if s != "" && s[|s| - 1] == '=' then Unpad(s[..|s| - 1]) else s
  }

  lemma {:induction false} UnpadRepeat(body: string, n: nat)
    requires AllInAlphabet(body)
    ensures Unpad(body + Repeat(n)) == body
  {
    if n == 0 {
      assert body + Repeat(0) == body;
    } else {
      var s := body + Repeat(n);
      assert s[..|s| - 1] == body + Repeat(n - 1);
      UnpadRepeat(body, n - 1);
    }
  }

  // ---------- the codec ----------

  function Encode(data: seq<Byte>): string {
    Pad(Chars(Sextets(data)))
  }

  datatype Decoded = Plain(data: seq<Byte>) | Malformed

  /** Characters outside the alphabet are refused. */
  function Decode(s: string): Decoded {
    var body := Unpad(s);
    if |s| % 4 != 0 || |s| - |body| > 2 || !AllInAlphabet(body) then Malformed else Plain(Bytes(Values(body)))
  }

  lemma PaddedIs(body: string)
    requires AllInAlphabet(body) && |body| % 4 != 1
    ensures Unpad(Pad(body)) == body && Decode(Pad(body)) == Plain(Bytes(Values(body)))
  {
    UnpadRepeat(body, PadCount(|body|));
  }

  /** The unpadded form is plain text of the alphabet. */
  lemma UnpaddedIs(data: seq<Byte>)
    ensures Unpad(Encode(data)) == Chars(Sextets(data))
    ensures AllInAlphabet(Unpad(Encode(data))) && (data != [] ==> Unpad(Encode(data)) != "")
  {
    CharsAndBack(Sextets(data));
    SextetsLength(data);
    PaddedIs(Chars(Sextets(data)));
  }

  /** Stripping the padding loses nothing, as it comes back from the length. */
  lemma UnpaddedRoundTrip(data: seq<Byte>)
    ensures Decode(Pad(Unpad(Encode(data)))) == Plain(data)
  {
    UnpaddedIs(data);
    CharsAndBack(Sextets(data));
    SextetsLength(data);
    PaddedIs(Chars(Sextets(data)));
    BytesComeBack(data);
  }
}
