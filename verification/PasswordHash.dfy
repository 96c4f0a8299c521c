/**
 * The Argon2id hash string (the algorithm is RFC 9106): how HashPassword prints it and how
 * VerifyPassword splits and scans it. The key function itself is a parameter.
 */
module PasswordHash {
  import opened Basics
  import Base64
  import Text

  const MAX_UINT32: int := 0xFFFF_FFFF
  const MAX_UINT8: int := 0xFF

  type uint32 = x: int | 0 <= x <= MAX_UINT32
  type uint8 = x: int | 0 <= x <= MAX_UINT8

  datatype Params = Params(memory: uint32, iterations: uint32, parallelism: uint8)

  /** password, salt, parameters, key length */
  type KeyFunction = (string, seq<byte>, Params, nat) -> seq<byte>

  /** A key function returns as many bytes as it is asked for. */
  ghost predicate ExactLength(kdf: KeyFunction) {
    forall pw, salt, ps, n :: |kdf(pw, salt, ps, n)| == n
  }

  /** Argon2 panics on zero passes or zero lanes. */
  predicate Runnable(ps: Params) {
    ps.iterations >= 1 && ps.parallelism >= 1
  }

  function PrintField(lit: string, v: nat, rest: string): string {
    lit + Text.Digits(v) + rest
  }

  function PrintParams(ps: Params): string {
    PrintField("m=", ps.memory, PrintField(",t=", ps.iterations, PrintField(",p=", ps.parallelism, "")))
  }

  /** $argon2id$v=19$m=<memory>,t=<iterations>,p=<parallelism>$<salt>$<hash> */
  function PrintHash(ps: Params, salt: seq<byte>, hash: seq<byte>): string {
    Text.Join(["", "argon2id", "v=19", PrintParams(ps),
               Base64.Encode(Base64.Std, salt), Base64.Encode(Base64.Std, hash)], '$')
  }

  /** None: the key function panics. */
  function HashPassword(kdf: KeyFunction, ps: Params, keyLength: uint32, password: string,
                        salt: seq<byte>): Option<string> {
    if !Runnable(ps) then None else Some(PrintHash(ps, salt, kdf(password, salt, ps, keyLength)))
  }

  // ----- fmt.Sscanf(s, "m=%d,t=%d,p=%d") -----

  function Literal(s: string, lit: string): Option<string> {
    if lit <= s then Some(s[|lit|..]) else None
  }

  predicate IsBlank(c: char) {
    c == ' ' || c == '\t'
  }

  function SkipBlanks(s: string): string {
    if s != "" && IsBlank(s[0]) then SkipBlanks(s[1..]) else s
  }

  /** Length of the longest prefix of digits. */
  function DigitRun(s: string): (n: nat)
    ensures n <= |s| && forall c <- s[..n] :: Text.IsDigit(c)
  {
    if s != "" && Text.IsDigit(s[0]) then
      var n := DigitRun(s[1..]);
      assert s[..n + 1] == [s[0]] + s[1..][..n];
      n + 1
    else 0
  }

  datatype Scanned = Scanned(value: nat, rest: string)

  /** An unsigned number that must fit, after optional blanks. */
  function ScanNumber(s: string, max: nat): (r: Option<Scanned>)
    ensures r.Some? ==> r.value.value <= max
  {
    var t := SkipBlanks(s);
    var n := DigitRun(t);
    if n == 0 then None
    else
      var v := Text.ParseDigits(t[..n]);
      if v > max then None else Some(Scanned(v, t[n..]))
  }

  function Field(s: string, lit: string, max: nat): (r: Option<Scanned>)
    ensures r.Some? ==> r.value.value <= max
  {
    var rest := Literal(s, lit);
    if rest.None? then None else ScanNumber(rest.value, max)
  }

  /** Text after the last number is ignored, as Sscanf does. */
  function ScanParams(s: string): Option<Params> {
    var m := Field(s, "m=", MAX_UINT32);
    if m.None? then None
    else
      var t := Field(m.value.rest, ",t=", MAX_UINT32);
      if t.None? then None
      else
        var p := Field(t.value.rest, ",p=", MAX_UINT8);
        if p.None? then None else Some(Params(m.value.value, t.value.value, p.value.value))
  }

  datatype Outcome = Match(same: bool) | BadFormat | BadParams | BadSalt | BadHash | Panic

  function VerifyPassword(kdf: KeyFunction, password: string, encoded: string): Outcome {
    var parts := Text.Split(encoded, '$');
    if |parts| != 6 || parts[1] != "argon2id" then BadFormat
    else
      var ps := ScanParams(parts[3]);
      if ps.None? then BadParams
      else
        var salt := Base64.Decode(Base64.Std, parts[4]);
        if salt.None? then BadSalt
        else
          var expected := Base64.Decode(Base64.Std, parts[5]);
          if expected.None? then BadHash
          else if !Runnable(ps.value) then Panic
          else Match(kdf(password, salt.value, ps.value, |expected.value|) == expected.value)
  }

  // ----- the round trip -----

  lemma {:induction false} DigitRunOf(d: string, rest: string)
    requires forall c <- d :: Text.IsDigit(c)
    requires rest != "" ==> !Text.IsDigit(rest[0])
    ensures DigitRun(d + rest) == |d|
  {
    if d == "" {
      assert d + rest == rest;
    } else {
      assert (d + rest)[1..] == d[1..] + rest;
      DigitRunOf(d[1..], rest);
    }
  }

  /** One printed field is scanned back and leaves what follows it. */
  lemma FieldRoundTrip(lit: string, v: nat, max: nat, rest: string)
    requires v <= max
    requires rest != "" ==> !Text.IsDigit(rest[0])
    ensures Field(PrintField(lit, v, rest), lit, max) == Some(Scanned(v, rest))
  {
    var d := Text.Digits(v);
    var s := lit + d + rest;
    assert lit <= s && s[|lit|..] == d + rest;
    assert Text.IsDigit(d[0]) && (d + rest)[0] == d[0];
    DigitRunOf(d, rest);
    assert (d + rest)[..|d|] == d && (d + rest)[|d|..] == rest;
    Text.ParsePrint(v);
  }

  lemma ParamsRoundTrip(ps: Params)
    ensures ScanParams(PrintParams(ps)) == Some(ps)
  {
    var p := PrintField(",p=", ps.parallelism, "");
    var t := PrintField(",t=", ps.iterations, p);
    assert p[0] == ',' && t[0] == ',';
    FieldRoundTrip("m=", ps.memory, MAX_UINT32, t);
    FieldRoundTrip(",t=", ps.iterations, MAX_UINT32, p);
    FieldRoundTrip(",p=", ps.parallelism, MAX_UINT8, "");
  }

  lemma FieldNoDollar(lit: string, v: nat, rest: string)
    requires '$' !in lit && '$' !in rest
    ensures '$' !in PrintField(lit, v, rest)
  {
  }

  lemma ParamsNoDollar(ps: Params)
    ensures '$' !in PrintParams(ps)
  {
    var p := PrintField(",p=", ps.parallelism, "");
    var t := PrintField(",t=", ps.iterations, p);
    FieldNoDollar(",p=", ps.parallelism, "");
    FieldNoDollar(",t=", ps.iterations, p);
    FieldNoDollar("m=", ps.memory, t);
  }

  /**
   * Whatever the parameters, salt and key, the printed string is parsed back exactly: checking any
   * password against it compares that password's key, under the stored parameters, with the stored key.
   */
  lemma VerifyPrinted(kdf: KeyFunction, ps: Params, salt: seq<byte>, hash: seq<byte>, password: string)
    requires Runnable(ps)
    ensures VerifyPassword(kdf, password, PrintHash(ps, salt, hash)) ==
            Match(kdf(password, salt, ps, |hash|) == hash)
  {
    Base64.EncodedChars(Base64.Std, salt);
    Base64.EncodedChars(Base64.Std, hash);
    ParamsNoDollar(ps);
    Text.SplitJoin(["", "argon2id", "v=19", PrintParams(ps),
                    Base64.Encode(Base64.Std, salt), Base64.Encode(Base64.Std, hash)], '$');
    ParamsRoundTrip(ps);
    Base64.RoundTrip(Base64.Std, salt);
    Base64.RoundTrip(Base64.Std, hash);
  }

  /** A password matches a stored hash iff its key equals the key of the password that was hashed. */
  lemma HashedPasswordMatches(kdf: KeyFunction, ps: Params, keyLength: uint32, password: string,
                              salt: seq<byte>, attempt: string)
    requires ExactLength(kdf) && Runnable(ps)
    ensures var stored := HashPassword(kdf, ps, keyLength, password, salt);
            && stored.Some?
            && VerifyPassword(kdf, password, stored.value) == Match(true)
            && (VerifyPassword(kdf, attempt, stored.value) == Match(true) <==>
                kdf(attempt, salt, ps, keyLength) == kdf(password, salt, ps, keyLength))
  {
    var hash := kdf(password, salt, ps, keyLength);
    assert |hash| == keyLength;
    VerifyPrinted(kdf, ps, salt, hash, password);
    VerifyPrinted(kdf, ps, salt, hash, attempt);
  }

  lemma JoinSix(a: string, b: string, c: string, d: string, e: string, f: string)
    ensures Text.Join([a, b, c, d, e, f], '$') == a + ['$'] + (b + ['$'] + (c + ['$'] + (d + ['$'] + (e + ['$'] + f))))
  {
    var x := [a, b, c, d, e, f];
    assert x[1..] == [b, c, d, e, f] && x[2..] == [c, d, e, f] && x[3..] == [d, e, f];
    assert x[4..] == [e, f] && x[5..] == [f] && x[1..][1..] == x[2..] && x[2..][1..] == x[3..];
    assert x[3..][1..] == x[4..] && x[4..][1..] == x[5..];
    assert Text.Join(x[4..], '$') == e + ['$'] + f;
    assert Text.Join(x[3..], '$') == d + ['$'] + Text.Join(x[4..], '$');
    assert Text.Join(x[2..], '$') == c + ['$'] + Text.Join(x[3..], '$');
    assert Text.Join(x[1..], '$') == b + ['$'] + Text.Join(x[2..], '$');
  }

  /** The six fields of a printed string, with the version and the order of the parameters. */
  lemma HashFormat(ps: Params, salt: seq<byte>, hash: seq<byte>)
    ensures var params := "m=" + Text.Digits(ps.memory) + (",t=" + Text.Digits(ps.iterations)
                                                           + (",p=" + Text.Digits(ps.parallelism) + ""));
            PrintHash(ps, salt, hash) ==
            "" + ['$'] + ("argon2id" + ['$'] + ("v=19" + ['$'] + (params + ['$'] + (
              Base64.Encode(Base64.Std, salt) + ['$'] + Base64.Encode(Base64.Std, hash)))))
  {
    JoinSix("", "argon2id", "v=19", PrintParams(ps), Base64.Encode(Base64.Std, salt), Base64.Encode(Base64.Std, hash));
  }

  // ----- what is accepted, for every text -----

  /** The text is a literal, blanks, a number and a rest that does not go on with a digit. */
  ghost predicate Reads(s: string, lit: string, v: nat, rest: string) {
    exists blanks: string, digits: string :: ReadsAs(s, lit, blanks, digits, v, rest)
  }

  ghost predicate ReadsAs(s: string, lit: string, blanks: string, digits: string, v: nat, rest: string) {
    && (forall c <- blanks :: IsBlank(c)) && digits != "" && (forall c <- digits :: Text.IsDigit(c))
    && s == lit + blanks + digits + rest && v == Text.ParseDigits(digits)
    && (rest != "" ==> !Text.IsDigit(rest[0]))
  }

  lemma {:induction false} BlanksSkipped(blanks: string, rest: string)
    requires (forall c <- blanks :: IsBlank(c)) && (rest != "" ==> !IsBlank(rest[0]))
    ensures SkipBlanks(blanks + rest) == rest
  {
    if blanks == "" {
      assert blanks + rest == rest;
    } else {
      assert (blanks + rest)[1..] == blanks[1..] + rest;
      BlanksSkipped(blanks[1..], rest);
    }
  }

  function LeadingBlanks(s: string): string {
    if s != "" && IsBlank(s[0]) then [s[0]] + LeadingBlanks(s[1..]) else ""
  }

  lemma {:induction false} SkippedBlanks(s: string)
    ensures s == LeadingBlanks(s) + SkipBlanks(s) && forall c <- LeadingBlanks(s) :: IsBlank(c)
  {
    if s != "" && IsBlank(s[0]) {
      SkippedBlanks(s[1..]);
      assert s == [s[0]] + s[1..];
    }
  }

  lemma {:induction false} DigitRunEnds(s: string)
    ensures DigitRun(s) < |s| ==> !Text.IsDigit(s[DigitRun(s)])
  {
    if s != "" && Text.IsDigit(s[0]) {
      DigitRunEnds(s[1..]);
    }
  }

  lemma ReadIsScanned(s: string, lit: string, max: nat, v: nat, rest: string)
    requires Reads(s, lit, v, rest) && v <= max
    ensures Field(s, lit, max) == Some(Scanned(v, rest))
  {
    var blanks, digits :| ReadsAs(s, lit, blanks, digits, v, rest);
    assert lit <= s && s[|lit|..] == blanks + (digits + rest);
    assert Text.IsDigit(digits[0]) && (digits + rest)[0] == digits[0];
    BlanksSkipped(blanks, digits + rest);
    DigitRunOf(digits, rest);
    assert (digits + rest)[..|digits|] == digits && (digits + rest)[|digits|..] == rest;
  }

  /** A scanned text is its blanks, its digits and its rest. */
  lemma NumberParts(text: string, max: nat)
    requires ScanNumber(text, max).Some?
    ensures var r, t := ScanNumber(text, max).value, SkipBlanks(text);
            var digits := t[..DigitRun(t)];
            && text == LeadingBlanks(text) + digits + r.rest
            && digits != "" && r.value == Text.ParseDigits(digits)
            && (r.rest != "" ==> !Text.IsDigit(r.rest[0]))
  {
    var t := SkipBlanks(text);
    SkippedBlanks(text);
    DigitRunEnds(t);
    assert t == t[..DigitRun(t)] + t[DigitRun(t)..];
  }

  lemma PartsRead(lit: string, blanks: string, digits: string, v: nat, rest: string)
    requires (forall c <- blanks :: IsBlank(c)) && digits != "" && (forall c <- digits :: Text.IsDigit(c))
    requires v == Text.ParseDigits(digits) && (rest != "" ==> !Text.IsDigit(rest[0]))
    ensures Reads(lit + (blanks + digits + rest), lit, v, rest)
  {
    assert lit + (blanks + digits + rest) == lit + blanks + digits + rest;
    assert ReadsAs(lit + (blanks + digits + rest), lit, blanks, digits, v, rest);
  }

  lemma ScannedIsRead(s: string, lit: string, max: nat)
    ensures var r := Field(s, lit, max); r.Some? ==> Reads(s, lit, r.value.value, r.value.rest)
  {
    var r := Field(s, lit, max);
    if r.Some? {
      var text := s[|lit|..];
      var t := SkipBlanks(text);
      NumberParts(text, max);
      SkippedBlanks(text);
      assert s == lit + text;
      PartsRead(lit, LeadingBlanks(text), t[..DigitRun(t)], r.value.value, r.value.rest);
    }
  }

  /** The three numbers in their order, whatever follows them. */
  ghost predicate ParamsRead(s: string, ps: Params) {
    exists r1: string, r2: string, r3: string ::
      Reads(s, "m=", ps.memory, r1) && Reads(r1, ",t=", ps.iterations, r2) && Reads(r2, ",p=", ps.parallelism, r3)
  }

  lemma ScanExactly(s: string, ps: Params)
    ensures ScanParams(s) == Some(ps) <==> ParamsRead(s, ps)
  {
    if ScanParams(s) == Some(ps) {
      var m := Field(s, "m=", MAX_UINT32).value;
      var t := Field(m.rest, ",t=", MAX_UINT32).value;
      ScannedIsRead(s, "m=", MAX_UINT32);
      ScannedIsRead(m.rest, ",t=", MAX_UINT32);
      ScannedIsRead(t.rest, ",p=", MAX_UINT8);
    }
    if ParamsRead(s, ps) {
      var r1: string, r2: string, r3: string :|
        Reads(s, "m=", ps.memory, r1) && Reads(r1, ",t=", ps.iterations, r2) && Reads(r2, ",p=", ps.parallelism, r3);
      ReadIsScanned(s, "m=", MAX_UINT32, ps.memory, r1);
      ReadIsScanned(r1, ",t=", MAX_UINT32, ps.iterations, r2);
      ReadIsScanned(r2, ",p=", MAX_UINT8, ps.parallelism, r3);
    }
  }

  /** Six fields between dollar signs, the second of which names the algorithm. */
  predicate Fields(encoded: string, parts: seq<string>) {
    && |parts| == 6 && (forall p <- parts :: '$' !in p) && encoded == Text.Join(parts, '$') && parts[1] == "argon2id"
  }

  ghost predicate Encodes(parts: seq<string>, ps: Params, salt: seq<byte>, hash: seq<byte>)
    requires |parts| == 6
  {
    && ParamsRead(parts[3], ps)
    && Base64.Decode(Base64.Std, parts[4]) == Some(salt) && Base64.Decode(Base64.Std, parts[5]) == Some(hash)
  }

  /** The text stores a key under these parameters and this salt. */
  ghost predicate Stores(encoded: string, ps: Params, salt: seq<byte>, hash: seq<byte>) {
    exists parts :: Fields(encoded, parts) && Encodes(parts, ps, salt, hash)
  }

  lemma FieldsAreSplit(encoded: string, parts: seq<string>)
    ensures Fields(encoded, parts) <==>
            |parts| == 6 && parts == Text.Split(encoded, '$') && parts[1] == "argon2id"
  {
    Text.JoinSplit(encoded, '$');
    if Fields(encoded, parts) {
      Text.SplitJoin(parts, '$');
    }
  }

  /**
   * For every text and password: the check compares keys iff the text stores some key under runnable parameters, and
   * then compares the password's key under those parameters with it; without six fields that name the algorithm the
   * text is of a bad format.
   */
  lemma VerifyExactly(kdf: KeyFunction, password: string, encoded: string, same: bool)
    ensures VerifyPassword(kdf, password, encoded) == Match(same) <==>
            exists ps, salt, hash :: && Stores(encoded, ps, salt, hash) && Runnable(ps)
                                     && same == (kdf(password, salt, ps, |hash|) == hash)
    ensures VerifyPassword(kdf, password, encoded) == BadFormat <==> !exists parts :: Fields(encoded, parts)
  {
    var split := Text.Split(encoded, '$');
    FieldsAreSplit(encoded, split);
    CheckedIsStored(kdf, password, encoded);
    if ps, salt, hash :| Stores(encoded, ps, salt, hash) && Runnable(ps)
                         && same == (kdf(password, salt, ps, |hash|) == hash) {
      StoredIsChecked(kdf, password, encoded, ps, salt, hash);
    }
    if parts :| Fields(encoded, parts) {
      FieldsAreSplit(encoded, parts);
    }
  }

  lemma CheckedIsStored(kdf: KeyFunction, password: string, encoded: string)
    ensures var v := VerifyPassword(kdf, password, encoded);
            v.Match? ==> exists ps, salt, hash :: && Stores(encoded, ps, salt, hash) && Runnable(ps)
                                                  && v.same == (kdf(password, salt, ps, |hash|) == hash)
  {
    var split := Text.Split(encoded, '$');
    FieldsAreSplit(encoded, split);
    if VerifyPassword(kdf, password, encoded).Match? {
      var ps := ScanParams(split[3]).value;
      var salt, hash := Base64.Decode(Base64.Std, split[4]).value, Base64.Decode(Base64.Std, split[5]).value;
      ScanExactly(split[3], ps);
      assert Encodes(split, ps, salt, hash);
      assert Stores(encoded, ps, salt, hash);
    }
  }

  lemma StoredIsChecked(kdf: KeyFunction, password: string, encoded: string, ps: Params, salt: seq<byte>,
                        hash: seq<byte>)
    requires Stores(encoded, ps, salt, hash) && Runnable(ps)
    ensures VerifyPassword(kdf, password, encoded) == Match(kdf(password, salt, ps, |hash|) == hash)
  {
    var parts :| Fields(encoded, parts) && Encodes(parts, ps, salt, hash);
    FieldsAreSplit(encoded, parts);
    ScanExactly(parts[3], ps);
  }

  /** Which refusal a text of six fields gets: the first that applies, in the order of the fields. */
  lemma RefusedExactly(kdf: KeyFunction, password: string, encoded: string, parts: seq<string>)
    requires Fields(encoded, parts)
    ensures var v := VerifyPassword(kdf, password, encoded);
            var salt, hash := Base64.Decode(Base64.Std, parts[4]), Base64.Decode(Base64.Std, parts[5]);
            && (v == BadParams <==> forall ps :: !ParamsRead(parts[3], ps))
            && (v == BadSalt <==> (exists ps :: ParamsRead(parts[3], ps)) && salt.None?)
            && (v == BadHash <==> (exists ps :: ParamsRead(parts[3], ps)) && salt.Some? && hash.None?)
            && (v == Panic <==> (exists ps :: ParamsRead(parts[3], ps) && !Runnable(ps)) && salt.Some? && hash.Some?)
  {
    FieldsAreSplit(encoded, parts);
    forall ps ensures ScanParams(parts[3]) == Some(ps) <==> ParamsRead(parts[3], ps) {
      ScanExactly(parts[3], ps);
    }
    if ScanParams(parts[3]).Some? {
      assert ParamsRead(parts[3], ScanParams(parts[3]).value);
    }
  }
}
