/** The two delimited messages of the crypto service: the text a device signs and the text a
    challenge seal covers. */
module Messages {
  import opened Basics
  import Base64
  import Text

  /** Three texts and a number, joined by a separator. */
  function Joined(sep: char, a: string, b: string, c: string, n: int): string {
    a + [sep] + b + [sep] + c + [sep] + Text.PrintInt(n)
  }

  /** BuildSignedPayload */
  function SignedPayload(nonce: string, deviceId: string, action: string, ts: int): string {
    Joined('.', nonce, deviceId, action, ts)
  }

  function SealMessage(nonce: string, deviceId: string, action: string, expiry: int): string {
    Joined('|', nonce, deviceId, action, Unix(expiry))
  }

  /** A separator that %d never prints. */
  predicate Separator(sep: char) {
    !Text.IsDigit(sep) && sep != '-'
  }

  lemma FirstField(sep: char, a: string, x: string, a': string, x': string)
    requires sep !in a && sep !in a'
    requires a + [sep] + x == a' + [sep] + x'
    ensures a == a' && x == x'
  {
    var s := a + [sep] + x;
    assert s[|a|] == sep && s[|a'|] == sep;
    assert a == s[..|a|] && a' == s[..|a'|];
    assert x == s[|a| + 1..] && x' == s[|a'| + 1..];
  }

  lemma LastField(sep: char, x: string, c: string, x': string, c': string)
    requires sep !in c && sep !in c'
    requires x + [sep] + c == x' + [sep] + c'
    ensures x == x' && c == c'
  {
    var s := x + [sep] + c;
    assert s[|x|] == sep && s[|x'|] == sep;
    assert x == s[..|x|] && x' == s[..|x'|];
    assert c == s[|x| + 1..] && c' == s[|x'| + 1..];
  }

  /** The number is always recovered: nothing it prints can be taken for a separator. */
  lemma NumberRecovered(sep: char, a: string, b: string, c: string, n: int,
                        a': string, b': string, c': string, n': int)
    requires Separator(sep)
    requires Joined(sep, a, b, c, n) == Joined(sep, a', b', c', n')
    ensures n == n'
    ensures a + [sep] + b + [sep] + c == a' + [sep] + b' + [sep] + c'
  {
    Text.PrintIntChars(n);
    Text.PrintIntChars(n');
    LastField(sep, a + [sep] + b + [sep] + c, Text.PrintInt(n), a' + [sep] + b' + [sep] + c', Text.PrintInt(n'));
    Text.PrintIntInjective(n, n');
  }

  /** With separator-free outer texts the message determines all four fields; the middle text is free. */
  lemma OuterFieldsClean(sep: char, a: string, b: string, c: string, n: int,
                         a': string, b': string, c': string, n': int)
    requires Separator(sep)
    requires sep !in a && sep !in c && sep !in a' && sep !in c'
    requires Joined(sep, a, b, c, n) == Joined(sep, a', b', c', n')
    ensures a == a' && b == b' && c == c' && n == n'
  {
    NumberRecovered(sep, a, b, c, n, a', b', c', n');
    LastField(sep, a + [sep] + b, c, a' + [sep] + b', c');
    FirstField(sep, a, b, a', b');
  }

  /** No other quadruple at all prints the same message. */
  ghost predicate Determined(sep: char, a: string, b: string, c: string, n: int) {
    forall a', b', c', n' :: Joined(sep, a, b, c, n) == Joined(sep, a', b', c', n') ==>
      a == a' && b == b' && c == c' && n == n'
  }

  lemma SeparatorCount(sep: char, a: string, b: string, c: string)
    ensures multiset(a + [sep] + b + [sep] + c)[sep] == multiset(a)[sep] + multiset(b)[sep] + multiset(c)[sep] + 2
  {
    assert multiset([sep])[sep] == 1;
    assert multiset(a + [sep] + b + [sep] + c) ==
           multiset(a) + multiset([sep]) + multiset(b) + multiset([sep]) + multiset(c);
  }

  lemma CleanIsDetermined(sep: char, a: string, b: string, c: string, n: int)
    requires Separator(sep)
    requires sep !in a && sep !in b && sep !in c
    ensures Determined(sep, a, b, c, n)
  {
    forall a', b', c', n' | Joined(sep, a, b, c, n) == Joined(sep, a', b', c', n')
      ensures a == a' && b == b' && c == c' && n == n'
    {
      NumberRecovered(sep, a, b, c, n, a', b', c', n');
      SeparatorCount(sep, a, b, c);
      SeparatorCount(sep, a', b', c');
      assert sep !in multiset(a) && sep !in multiset(b) && sep !in multiset(c);
      assert sep !in multiset(a') && sep !in multiset(c');
      OuterFieldsClean(sep, a, b, c, n, a', b', c', n');
    }
  }

  lemma ShiftFirst(sep: char, x: string, y: string, b: string, c: string, n: int)
    ensures Joined(sep, x + [sep] + y, b, c, n) == Joined(sep, x, y + [sep] + b, c, n)
  {
  }

  lemma ShiftMiddle(sep: char, a: string, x: string, y: string, c: string, n: int)
    ensures Joined(sep, a, x, y + [sep] + c, n) == Joined(sep, a, x + [sep] + y, c, n)
  {
  }

  function Before(s: string, sep: char): string
    requires sep in s
  {
    if s[0] == sep then "" else [s[0]] + Before(s[1..], sep)
  }

  function After(s: string, sep: char): (r: string)
    requires sep in s
    ensures s == Before(s, sep) + [sep] + r
  {
    if s[0] == sep then s[1..]
    else
      var r := After(s[1..], sep);
      assert s == [s[0]] + s[1..];
      r
  }

  /** A separator inside any text lets a different quadruple print the same message. */
  lemma DirtyIsAmbiguous(sep: char, a: string, b: string, c: string, n: int)
    requires sep in a || sep in b || sep in c
    ensures !Determined(sep, a, b, c, n)
  {
    if sep in a {
      ShiftFirst(sep, Before(a, sep), After(a, sep), b, c, n);
    } else if sep in b {
      ShiftFirst(sep, a, Before(b, sep), After(b, sep), c, n);
    } else {
      ShiftMiddle(sep, a, b, Before(c, sep), After(c, sep), n);
    }
  }

  /** Among all quadruples a signed payload is unambiguous exactly when its texts hold no dot. */
  lemma SignedPayloadDetermined(nonce: string, deviceId: string, action: string, ts: int)
    ensures Determined('.', nonce, deviceId, action, ts) <==>
            '.' !in nonce && '.' !in deviceId && '.' !in action
  {
    if '.' in nonce || '.' in deviceId || '.' in action {
      DirtyIsAmbiguous('.', nonce, deviceId, action, ts);
    } else {
      CleanIsDetermined('.', nonce, deviceId, action, ts);
    }
  }

  /** For the nonces and actions the service itself makes, any device ID text is safe. */
  lemma SignedPayloadUnambiguous(n: string, d: string, a: string, ts: int,
                                 n': string, d': string, a': string, ts': int)
    requires '.' !in n && '.' !in a && '.' !in n' && '.' !in a'
    ensures SignedPayload(n, d, a, ts) == SignedPayload(n', d', a', ts') <==>
            n == n' && d == d' && a == a' && ts == ts'
  {
    if SignedPayload(n, d, a, ts) == SignedPayload(n', d', a', ts') {
      OuterFieldsClean('.', n, d, a, ts, n', d', a', ts');
    }
  }

  datatype ChallengeAction = EnrollAction | AuthenticateAction | StepUpAction | RevokeAction

  function ActionName(a: ChallengeAction): (s: string)
    ensures '.' !in s && '|' !in s
  {
    match a
    case EnrollAction => "enroll"
    case AuthenticateAction => "authenticate"
    case StepUpAction => "step_up"
    case RevokeAction => "revoke"
  }

  lemma ActionNameInjective(a: ChallengeAction, b: ChallengeAction)
    requires ActionName(a) == ActionName(b)
    ensures a == b
  {
    assert ActionName(a)[0] == ActionName(b)[0];
  }

  /** Random nonces are base64url text, so neither separator can occur in them. */
  lemma NonceClean(random: seq<byte>)
    ensures var nonce := Base64.Encode(Base64.Url, random); '.' !in nonce && '|' !in nonce
  {
    Base64.EncodedChars(Base64.Url, random);
  }

  /** Two seals cover the same text iff they are for the same nonce bytes, device, action and expiry second. */
  lemma SealMessageUnambiguous(r: seq<byte>, d: string, a: ChallengeAction, e: int,
                               r': seq<byte>, d': string, a': ChallengeAction, e': int)
    ensures SealMessage(Base64.Encode(Base64.Url, r), d, ActionName(a), e) ==
            SealMessage(Base64.Encode(Base64.Url, r'), d', ActionName(a'), e') <==>
            r == r' && d == d' && a == a' && Unix(e) == Unix(e')
  {
    var n, n' := Base64.Encode(Base64.Url, r), Base64.Encode(Base64.Url, r');
    if SealMessage(n, d, ActionName(a), e) == SealMessage(n', d', ActionName(a'), e') {
      NonceClean(r);
      NonceClean(r');
      OuterFieldsClean('|', n, d, ActionName(a), Unix(e), n', d', ActionName(a'), Unix(e'));
      Base64.RoundTrip(Base64.Url, r);
      Base64.RoundTrip(Base64.Url, r');
      ActionNameInjective(a, a');
    }
  }

  // ----- the seal -----

  function Seal(hmac: (string, string) -> seq<byte>, secret: string,
                nonce: string, deviceId: string, action: string, expiry: int): string {
    Base64.Encode(Base64.Url, hmac(secret, SealMessage(nonce, deviceId, action, expiry)))
  }

  /** VerifyHMACChallenge: both sides are decoded before they are compared. */
  predicate SealMatches(hmac: (string, string) -> seq<byte>, secret: string,
                        nonce: string, deviceId: string, action: string, expiry: int, sig: string) {
    var got := Base64.Decode(Base64.Url, sig);
    var expected := Base64.Decode(Base64.Url, Seal(hmac, secret, nonce, deviceId, action, expiry));
    got.Some? && got.value == (if expected.Some? then expected.value else [])
  }

  /** A seal checks against the fields it was made from, and any accepted text decodes to that seal. */
  lemma SealChecks(hmac: (string, string) -> seq<byte>, secret: string,
                   nonce: string, deviceId: string, action: string, expiry: int, sig: string)
    ensures SealMatches(hmac, secret, nonce, deviceId, action, expiry,
                        Seal(hmac, secret, nonce, deviceId, action, expiry))
    ensures SealMatches(hmac, secret, nonce, deviceId, action, expiry, sig) <==>
            Base64.Decode(Base64.Url, sig) == Some(hmac(secret, SealMessage(nonce, deviceId, action, expiry)))
  {
    Base64.RoundTrip(Base64.Url, hmac(secret, SealMessage(nonce, deviceId, action, expiry)));
  }
}
