/**
 * Go's base64.RawURLEncoding and base64.RawStdEncoding: sections 5 and 4 of RFC 4648
 * without padding. As in Go, the decoder skips line breaks and does not look at the unused
 * low bits of the last character.
 */
module Base64 {
  import opened Basics

  /** The two alphabets differ in the characters for 62 and 63 only. */
  datatype Alphabet = Url | Std

  type sextet = x: int | 0 <= x < 64

  function EncodeSextet(a: Alphabet, v: sextet): char {
    if v < 26 then 'A' + v as char
    else if v < 52 then 'a' + (v - 26) as char
    else if v < 62 then '0' + (v - 52) as char
    else if v == 62 then (if a.Url? then '-' else '+')
    else (if a.Url? then '_' else '/')
  }

  function DecodeSextet(a: Alphabet, c: char): Option<sextet> {
    if 'A' <= c <= 'Z' then Some(c as int - 'A' as int)
    else if 'a' <= c <= 'z' then Some(c as int - 'a' as int + 26)
    else if '0' <= c <= '9' then Some(c as int - '0' as int + 52)
    else if c == (if a.Url? then '-' else '+') then Some(62)
    else if c == (if a.Url? then '_' else '/') then Some(63)
    else None
  }

  lemma SextetRoundTrip(a: Alphabet, v: sextet)
    ensures DecodeSextet(a, EncodeSextet(a, v)) == Some(v)
  {
  }

  /** One to three bytes as two to four sextets, zero bits added at the end. */
  function Cut(b: seq<byte>): (q: seq<sextet>)
    requires 1 <= |b| <= 3
    ensures |q| == |b| + 1
  {
    if |b| == 1 then [b[0] / 4, b[0] % 4 * 16]
    else if |b| == 2 then [b[0] / 4, b[0] % 4 * 16 + b[1] / 16, b[1] % 16 * 4]
    else [b[0] / 4, b[0] % 4 * 16 + b[1] / 16, b[1] % 16 * 4 + b[2] / 64, b[2] % 64]
  }

  /** Two to four sextets as one to three bytes, unused low bits dropped. */
  function Join(q: seq<sextet>): (b: seq<byte>)
    requires 2 <= |q| <= 4
    ensures |b| == |q| - 1
  {
    var x: int, y: int := q[0], q[1];
    if |q| == 2 then [x * 4 + y / 16]
    else
      var z: int := q[2];
      if |q| == 3 then [x * 4 + y / 16, y % 16 * 16 + z / 4]
      else [x * 4 + y / 16, y % 16 * 16 + z / 4, z % 4 * 64 + q[3]]
  }

  function EncodeSextets(a: Alphabet, q: seq<sextet>): (s: string)
    ensures |s| == |q|
  {
    seq(|q|, i requires 0 <= i < |q| => EncodeSextet(a, q[i]))
  }

  function DecodeSextets(a: Alphabet, s: string): (q: Option<seq<sextet>>)
    ensures q.Some? ==> |q.value| == |s|
    ensures q.Some? <==> forall c <- s :: InAlphabet(a, c)
  {
    if s == "" then Some([])
    else
      var head, tail := DecodeSextet(a, s[0]), DecodeSextets(a, s[1..]);
      assert s[0] in s && forall c <- s[1..] :: c in s;
      if head.None? || tail.None? then None else Some([head.value] + tail.value)
  }

  lemma {:induction false} SextetsRoundTrip(a: Alphabet, q: seq<sextet>)
    ensures DecodeSextets(a, EncodeSextets(a, q)) == Some(q)
  {
    if q != [] {
      var s := EncodeSextets(a, q);
      assert s[1..] == EncodeSextets(a, q[1..]);
      SextetsRoundTrip(a, q[1..]);
      SextetRoundTrip(a, q[0]);
      assert q == [q[0]] + q[1..];
    }
  }

  /** EncodeToString */
  function Encode(a: Alphabet, b: seq<byte>): string
    decreases |b|
  {
    if |b| == 0 then ""
    else if |b| <= 3 then EncodeSextets(a, Cut(b))
    else EncodeSextets(a, Cut(b[..3])) + Encode(a, b[3..])
  }

  predicate IsBreak(c: char) {
    c == '\n' || c == '\r'
  }

  function SkipBreaks(s: string): string {
    if s == "" then ""
    else if IsBreak(s[0]) then SkipBreaks(s[1..])
    else [s[0]] + SkipBreaks(s[1..])
  }

  function DecodeQuanta(a: Alphabet, s: string): Option<seq<byte>>
    decreases |s|
  {
    if |s| == 0 then Some([])
    else if |s| == 1 then None
    else
      var n := if |s| < 4 then |s| else 4;
      var head, tail := DecodeSextets(a, s[..n]), DecodeQuanta(a, s[n..]);
      if head.None? || tail.None? then None else Some(Join(head.value) + tail.value)
  }

  /** DecodeString: None stands for CorruptInputError. */
  function Decode(a: Alphabet, s: string): Option<seq<byte>> {
    DecodeQuanta(a, SkipBreaks(s))
  }

  predicate InAlphabet(a: Alphabet, c: char) {
    DecodeSextet(a, c).Some?
  }

  /** Encoded text holds alphabet characters only, so no '.', '|', '$' or line break. */
  lemma {:induction false} EncodedChars(a: Alphabet, b: seq<byte>)
    ensures forall c <- Encode(a, b) :: InAlphabet(a, c)
    decreases |b|
  {
    if |b| > 3 {
      SextetsRoundTrip(a, Cut(b[..3]));
      EncodedChars(a, b[3..]);
    } else if |b| > 0 {
      SextetsRoundTrip(a, Cut(b));
    }
  }

  lemma {:induction false} SkipNothing(s: string)
    requires forall c <- s :: !IsBreak(c)
    ensures SkipBreaks(s) == s
  {
    if s != "" {
      SkipNothing(s[1..]);
    }
  }

  lemma JoinHigh(x: byte, y: byte)
    ensures x / 4 * 4 + (x % 4 * 16 + y / 16) / 16 == x
    ensures (x % 4 * 16 + y / 16) % 16 == y / 16
  {
  }

  lemma JoinLow(y: byte, z: byte)
    ensures y / 16 * 16 + (y % 16 * 4 + z / 64) / 4 == y
    ensures (y % 16 * 4 + z / 64) % 4 == z / 64
  {
  }

  lemma CutAndJoin(b: seq<byte>)
    requires 1 <= |b| <= 3
    ensures Join(Cut(b)) == b
  {
    if |b| == 1 {
      JoinHigh(b[0], 0);
      assert b == [b[0]];
    } else {
      JoinHigh(b[0], b[1]);
      JoinLow(b[1], if |b| == 2 then 0 else b[2]);
      if |b| == 2 {
        assert b == [b[0], b[1]];
      } else {
        assert b == [b[0], b[1], b[2]];
      }
    }
  }

  lemma {:induction false} QuantaRoundTrip(a: Alphabet, b: seq<byte>)
    ensures DecodeQuanta(a, Encode(a, b)) == Some(b)
    decreases |b|
  {
    if |b| > 0 {
      var n := if |b| < 3 then |b| else 3;
      var head, s := b[..n], Encode(a, b);
      assert |b| <= 3 ==> head == b && b[n..] == [];
      var text := EncodeSextets(a, Cut(head));
      assert s == text + Encode(a, b[n..]);
      assert s[..n + 1] == text && s[n + 1..] == Encode(a, b[n..]);
      SextetsRoundTrip(a, Cut(head));
      CutAndJoin(head);
      QuantaRoundTrip(a, b[n..]);
      assert b == head + b[n..];
    }
  }

  lemma EncodedNoBreaks(a: Alphabet, b: seq<byte>)
    ensures SkipBreaks(Encode(a, b)) == Encode(a, b)
  {
    EncodedChars(a, b);
    SkipNothing(Encode(a, b));
  }

  /** Decoding inverts encoding, for all bytes and both alphabets. */
  lemma RoundTrip(a: Alphabet, b: seq<byte>)
    ensures Decode(a, Encode(a, b)) == Some(b)
  {
    EncodedNoBreaks(a, b);
    QuantaRoundTrip(a, b);
  }

  /** Examples from section 10 of RFC 4648, and the characters in which its two alphabets differ. */
  lemma Examples(a: Alphabet)
    ensures Encode(a, [102]) == "Zg" && Encode(a, [102, 111]) == "Zm8" && Encode(a, [102, 111, 111]) == "Zm9v"
    ensures EncodeSextet(Url, 62) == '-' && EncodeSextet(Url, 63) == '_'
    ensures EncodeSextet(Std, 62) == '+' && EncodeSextet(Std, 63) == '/'
  {
  }

  lemma PrefixChars(a: Alphabet, s: string, n: nat)
    requires n <= |s|
    ensures (forall c <- s :: InAlphabet(a, c)) <==>
            (forall c <- s[..n] :: InAlphabet(a, c)) && (forall c <- s[n..] :: InAlphabet(a, c))
  {
    assert s == s[..n] + s[n..];
  }

  /** A length of the form 4k + 1 leaves a single character over. */
  predicate GoodLength(n: nat) {
    n != 1 && (n >= 4 ==> GoodLength(n - 4))
  }

  lemma {:induction false} QuantaAccepted(a: Alphabet, s: string)
    ensures DecodeQuanta(a, s).Some? <==> GoodLength(|s|) && forall c <- s :: InAlphabet(a, c)
    decreases |s|
  {
    if |s| >= 4 {
      QuantaAccepted(a, s[4..]);
      PrefixChars(a, s, 4);
    } else if |s| >= 2 {
      assert s[..|s|] == s && s[|s|..] == "";
    }
  }

  lemma {:induction false} SkippedChars(a: Alphabet, s: string)
    ensures (forall c <- SkipBreaks(s) :: InAlphabet(a, c)) <==> forall c <- s :: IsBreak(c) || InAlphabet(a, c)
  {
    if s != "" {
      SkippedChars(a, s[1..]);
      assert s == [s[0]] + s[1..];
    }
  }

  /** What the decoder accepts: alphabet characters and line breaks, in any length but 4k + 1 once the breaks
      are skipped. */
  lemma DecodeAccepted(a: Alphabet, s: string)
    ensures Decode(a, s).Some? <==>
            GoodLength(|SkipBreaks(s)|) && forall c <- s :: IsBreak(c) || InAlphabet(a, c)
  {
    QuantaAccepted(a, SkipBreaks(s));
    SkippedChars(a, s);
  }
}
