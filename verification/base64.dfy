/**
 * Base64 with the standard alphabet and `=` padding (section 4 of RFC 4648),
 * as PHP's `base64_encode` produces it and PHP's non-strict `base64_decode`
 * reads it.
 *
 * A PHP string is a sequence of bytes; the model writes it as a `string`
 * whose characters all have a code below 256.
 */
module Base64 {
  import opened Wrappers

  /** A PHP byte string: every character stands for one byte. */
  predicate IsByteString(s: string) {
    forall i :: 0 <= i < |s| ==> s[i] as int < 256
  }

  /** Every value is a 6-bit group. */
  predicate AreSextets(v: seq<nat>) {
    forall i :: 0 <= i < |v| ==> v[i] < 64
  }

  /** The character that encodes the 6-bit value `v` (table 1 of RFC 4648). */
  function Alphabet(v: nat): (c: char)
    requires v < 64
    ensures c != '=' && c != '?' && c != '#'
  {
    if v < 26 then ('A' as int + v) as char
    else if v < 52 then ('a' as int + (v - 26)) as char
    else if v < 62 then ('0' as int + (v - 52)) as char
    else if v == 62 then '+'
    else '/'
  }

  /** The 6-bit value of an alphabet character; `None` for `=` and every other character. */
  function SextetOf(c: char): (r: Option<nat>)
    ensures r.Some? ==> r.value < 64 && Alphabet(r.value) == c
    ensures c == '=' ==> r == None
  {
    if 'A' <= c <= 'Z' then Some(c as int - 'A' as int)
    else if 'a' <= c <= 'z' then Some(c as int - 'a' as int + 26)
    else if '0' <= c <= '9' then Some(c as int - '0' as int + 52)
    else if c == '+' then Some(62)
    else if c == '/' then Some(63)
    else None
  }

  lemma SextetOfAlphabet(v: nat)
    requires v < 64
    ensures SextetOf(Alphabet(v)) == Some(v)
  {
  }

  // ---------------------------------------------------------------- encoding

  /**
   * The 6-bit groups of a byte string, most significant bit first, without
   * padding: three bytes give four groups, a trailing one or two bytes give two
   * or three groups whose unused low bits are zero.
   */
  function EncodeSextets(s: string): (v: seq<nat>)
    requires IsByteString(s)
    ensures AreSextets(v)
    ensures |v| == (4 * |s| + 2) / 3
    decreases |s|
  {
    if |s| == 0 then []
    else
      var a := s[0] as int;
      if |s| == 1 then [a / 4, (a % 4) * 16]
      else
        var b := s[1] as int;
        if |s| == 2 then [a / 4, (a % 4) * 16 + b / 16, (b % 16) * 4]
        else
          var c := s[2] as int;
          [a / 4, (a % 4) * 16 + b / 16, (b % 16) * 4 + c / 64, c % 64] + EncodeSextets(s[3..])
  }

  /** The alphabet characters of a sequence of 6-bit groups. */
  function Chars(v: seq<nat>): (r: string)
    requires AreSextets(v)
    ensures |r| == |v|
    ensures forall i :: 0 <= i < |r| ==> r[i] == Alphabet(v[i])
  {
    if v == [] then "" else [Alphabet(v[0])] + Chars(v[1..])
  }

  /** The `=` characters that complete the last quantum of an input of length `n`. */
  function Padding(n: nat): (p: string)
    ensures |p| == (3 - n % 3) % 3
    ensures forall i :: 0 <= i < |p| ==> p[i] == '='
  {
    if n % 3 == 1 then "==" else if n % 3 == 2 then "=" else ""
  }

  lemma EncodedLength(n: nat)
    ensures (4 * n + 2) / 3 + (3 - n % 3) % 3 == 4 * ((n + 2) / 3)
  {
    var q := n / 3;
    assert n == 3 * q + n % 3;
  }

  /** `base64_encode`: the encoding of a byte string. */
  function Encode(s: string): (r: string)
    requires IsByteString(s)
    ensures |r| == 4 * ((|s| + 2) / 3)
    ensures forall i :: 0 <= i < |r| ==> r[i] != '?' && r[i] != '#'
    ensures forall i :: 0 <= i < |r| ==> r[i] == '=' || SextetOf(r[i]).Some?
  {
    var v := EncodeSextets(s);
    EncodedLength(|s|);
    Chars(v) + Padding(|s|)
  }

  // ---------------------------------------------------------------- decoding

  /**
   * The 6-bit values of the alphabet characters of `t`, in order. PHP's
   * non-strict decoder skips `=` and every character outside the alphabet.
   */
  function Sextets(t: string): (v: seq<nat>)
    ensures AreSextets(v)
    ensures |v| <= |t|
  {
    if t == "" then []
    else match SextetOf(t[0])
      case Some(x) => [x] + Sextets(t[1..])
      case None => Sextets(t[1..])
  }

  /**
   * Bytes from 6-bit groups: four groups give three bytes; a trailing group of
   * three gives two bytes, of two gives one byte, of one gives none.
   */
  function FromSextets(v: seq<nat>): (s: string)
    requires AreSextets(v)
    ensures IsByteString(s)
    ensures |s| == 3 * (|v| / 4) + (if |v| % 4 == 0 then 0 else |v| % 4 - 1)
  {
    if |v| >= 4 then
      [(v[0] * 4 + v[1] / 16) as char,
       ((v[1] % 16) * 16 + v[2] / 4) as char,
       ((v[2] % 4) * 64 + v[3]) as char] + FromSextets(v[4..])
    else if |v| == 3 then
      [(v[0] * 4 + v[1] / 16) as char, ((v[1] % 16) * 16 + v[2] / 4) as char]
    else if |v| == 2 then
      [(v[0] * 4 + v[1] / 16) as char]
    else ""
  }

  /** `base64_decode` in its default, non-strict mode. */
  function Decode(t: string): (s: string)
    ensures IsByteString(s)
  {
    FromSextets(Sextets(t))
  }

  // ---------------------------------------------------------------- round trip

  lemma {:induction false} SextetsAppend(a: string, b: string)
    ensures Sextets(a + b) == Sextets(a) + Sextets(b)
  {
    if a != "" {
      assert (a + b)[1..] == a[1..] + b;
      SextetsAppend(a[1..], b);
    } else {
      assert a + b == b;
    }
  }

  lemma {:induction false} SextetsOfChars(v: seq<nat>)
    requires AreSextets(v)
    ensures Sextets(Chars(v)) == v
  {
    if v != [] {
      SextetOfAlphabet(v[0]);
      assert Chars(v)[1..] == Chars(v[1..]);
      SextetsOfChars(v[1..]);
    }
  }

  lemma SextetsOfPadding(n: nat)
    ensures Sextets(Padding(n)) == []
  {
    assert Sextets("=") == [];
    assert Sextets("==") == [];
  }

  /** Decoding the groups of one, two or three bytes gives those bytes back. */
  lemma GroupRoundTrip(a: nat, b: nat, c: nat)
    requires a < 256 && b < 256 && c < 256
    ensures (a / 4) * 4 + ((a % 4) * 16 + b / 16) / 16 == a
    ensures (a / 4) * 4 + ((a % 4) * 16) / 16 == a
    ensures (((a % 4) * 16 + b / 16) % 16) * 16 + ((b % 16) * 4 + c / 64) / 4 == b
    ensures (((a % 4) * 16 + b / 16) % 16) * 16 + ((b % 16) * 4) / 4 == b
    ensures (((b % 16) * 4 + c / 64) % 4) * 64 + c % 64 == c
  {
  }

  /** A first group of three bytes decodes back to those bytes. */
  lemma FromSextetsGroup(v: seq<nat>, a: nat, b: nat, c: nat)
    requires a < 256 && b < 256 && c < 256
    requires AreSextets(v) && |v| >= 4
    requires v[..4] == [a / 4, (a % 4) * 16 + b / 16, (b % 16) * 4 + c / 64, c % 64]
    ensures FromSextets(v) == [a as char, b as char, c as char] + FromSextets(v[4..])
  {
    GroupRoundTrip(a, b, c);
  }

  /** The first three bytes give the first four groups. */
  lemma EncodeSextetsGroup(s: string)
    requires IsByteString(s) && |s| >= 3
    ensures var a, b, c := s[0] as int, s[1] as int, s[2] as int;
      EncodeSextets(s) == [a / 4, (a % 4) * 16 + b / 16, (b % 16) * 4 + c / 64, c % 64] + EncodeSextets(s[3..])
  {
  }

  lemma {:induction false} FromEncodeSextets(s: string)
    requires IsByteString(s)
    ensures FromSextets(EncodeSextets(s)) == s
    decreases |s|
  {
    if |s| == 1 || |s| == 2 {
      var a := s[0] as int;
      var b := if |s| > 1 then s[1] as int else 0;
      GroupRoundTrip(a, b, 0);
    } else if |s| >= 3 {
      var v := EncodeSextets(s);
      EncodeSextetsGroup(s);
      FromSextetsGroup(v, s[0] as int, s[1] as int, s[2] as int);
      assert v[4..] == EncodeSextets(s[3..]);
      FromEncodeSextets(s[3..]);
      assert s == s[..3] + s[3..];
    }
  }

  /** `base64_decode(base64_encode(s)) == s` for every byte string `s`. */
  lemma {:induction false} DecodeEncode(s: string)
    requires IsByteString(s)
    ensures Decode(Encode(s)) == s
  {
    var v := EncodeSextets(s);
    SextetsAppend(Chars(v), Padding(|s|));
    SextetsOfChars(v);
    SextetsOfPadding(|s|);
    assert Sextets(Encode(s)) == v;
    FromEncodeSextets(s);
  }

  /** Test vectors of section 10 of RFC 4648: one byte, two bytes, three bytes. */
  lemma TestVectorF()
    ensures Encode("f") == "Zg=="
  {
    assert EncodeSextets("f") == [25, 32];
    assert Chars([25, 32]) == "Zg";
  }

  lemma TestVectorFo()
    ensures Encode("fo") == "Zm8="
  {
    assert EncodeSextets("fo") == [25, 38, 60];
    assert Chars([25, 38, 60]) == "Zm8";
  }

  lemma TestVectorFoo()
    ensures Encode("foo") == "Zm9v"
  {
    assert "foo"[3..] == "";
    assert EncodeSextets("foo") == [25, 38, 61, 47];
    assert Chars([25, 38, 61, 47]) == "Zm9v";
  }

  /** Distinct byte strings have distinct encodings. */
  lemma EncodeInjective(s: string, s': string)
    requires IsByteString(s) && IsByteString(s')
    requires Encode(s) == Encode(s')
    ensures s == s'
  {
    DecodeEncode(s);
    DecodeEncode(s');
  }
}
