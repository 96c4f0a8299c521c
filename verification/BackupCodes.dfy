/** One-time backup codes of the legacy engine: generation, and removal from a slice in place. */
module BackupCodes {
  import opened Basics

  const CODE_COUNT := 10

  // ----- the slice as a value -----

  /** Position of the first match, or the length. */
  function IndexOf(s: seq<string>, x: string): (i: nat)
    ensures i <= |s|
    ensures i < |s| ==> s[i] == x
    ensures x !in s[..i]
    ensures i == |s| <==> x !in s
  {
    if s == [] then 0
    else if s[0] == x then 0
    else
      var i := IndexOf(s[1..], x);
      assert s[..i + 1] == [s[0]] + s[1..][..i];
      i + 1
  }

  function RemoveAt(s: seq<string>, i: nat): seq<string>
    requires i < |s|
  {
    s[..i] + s[i + 1..]
  }

  /** What verifyBackupCode leaves of the stored hashes. */
  function AfterAttempt(stored: seq<string>, hash: string): seq<string> {
    var i := IndexOf(stored, hash);
    if i < |stored| then RemoveAt(stored, i) else stored
  }

  // ----- runs -----

  /** The stored hashes, with what was generated and what was accepted since MFA was enabled. */
  datatype Account = Account(stored: seq<string>, generated: seq<string>, accepted: seq<string>)

  datatype Event = Enable(codes: seq<string>) | Disable | Attempt(code: string)

  function Hashes(hash: string -> string, codes: seq<string>): (h: seq<string>)
    ensures |h| == |codes|
  {
    if codes == [] then [] else Hashes(hash, codes[..|codes| - 1]) + [hash(codes[|codes| - 1])]
  }

  lemma {:induction false} HashesAt(hash: string -> string, codes: seq<string>, i: nat)
    requires i < |codes|
    ensures Hashes(hash, codes)[i] == hash(codes[i])
  {
    if i < |codes| - 1 {
      HashesAt(hash, codes[..|codes| - 1], i);
    }
  }

  function Accepts(hash: string -> string, a: Account, code: string): bool {
    hash(code) in a.stored
  }

  function Step(hash: string -> string, a: Account, e: Event): Account {
    match e
    case Enable(codes) => Account(Hashes(hash, codes), Hashes(hash, codes), [])
    case Disable => Account([], [], [])
    case Attempt(code) =>
      Account(AfterAttempt(a.stored, hash(code)), a.generated,
              if Accepts(hash, a, code) then a.accepted + [hash(code)] else a.accepted)
  }

  /** EnableMFA always generates ten codes. */
  predicate Possible(e: Event) {
    e.Enable? ==> |e.codes| == CODE_COUNT
  }

  function Run(hash: string -> string, a: Account, events: seq<Event>): Account
    decreases |events|
  {
    if events == [] then a else Run(hash, Step(hash, a, events[0]), events[1..])
  }

  /** `a` is `b` with some elements left out. */
  ghost predicate Subsequence(a: seq<string>, b: seq<string>) {
    exists at: seq<nat> :: Embeds(a, b, at)
  }

  ghost predicate Embeds(a: seq<string>, b: seq<string>, at: seq<nat>) {
    && |at| == |a|
    && (forall i, j :: 0 <= i < j < |at| ==> at[i] < at[j])
    && (forall i :: 0 <= i < |at| ==> at[i] < |b| && a[i] == b[at[i]])
  }

  ghost predicate Conserved(a: Account) {
    && multiset(a.stored) + multiset(a.accepted) == multiset(a.generated)
    && Subsequence(a.stored, a.generated)
    && |a.generated| <= CODE_COUNT
  }

  lemma RemoveCounts(s: seq<string>, i: nat)
    requires i < |s|
    ensures multiset(RemoveAt(s, i)) + multiset{s[i]} == multiset(s)
  {
    assert s == s[..i] + [s[i]] + s[i + 1..];
  }

  lemma RemoveKeepsOrder(s: seq<string>, b: seq<string>, i: nat)
    requires i < |s| && Subsequence(s, b)
    ensures Subsequence(RemoveAt(s, i), b)
  {
    var at :| Embeds(s, b, at);
    var at' := at[..i] + at[i + 1..];
    var s' := RemoveAt(s, i);
    assert forall k :: 0 <= k < |s'| ==>
           s'[k] == s[if k < i then k else k + 1] && at'[k] == at[if k < i then k else k + 1];
    assert Embeds(s', b, at');
  }

  lemma StepConserves(hash: string -> string, a: Account, e: Event)
    requires Conserved(a) && Possible(e)
    ensures Conserved(Step(hash, a, e))
  {
    match e
    case Enable(codes) =>
      var h := Hashes(hash, codes);
      assert Embeds(h, h, seq(|h|, i => i));
    case Disable =>
      assert Embeds([], [], []);
    case Attempt(code) =>
      AttemptConserves(hash, a, code);
  }

  lemma AttemptConserves(hash: string -> string, a: Account, code: string)
    requires Conserved(a)
    ensures Conserved(Step(hash, a, Attempt(code)))
  {
    var i, end := IndexOf(a.stored, hash(code)), Step(hash, a, Attempt(code));
    if i < |a.stored| {
      assert multiset(end.stored) + multiset(end.accepted) == multiset(a.generated) by {
        RemoveCounts(a.stored, i);
      }
      assert Subsequence(end.stored, a.generated) by {
        RemoveKeepsOrder(a.stored, a.generated, i);
      }
    }
  }

  /**
   * At every point of a run the stored hashes and the accepted ones make up exactly those generated, the stored
   * ones are in their original order, at most ten were accepted, and a code is accepted now iff its hash was
   * generated more often than it has been accepted.
   */
  lemma {:induction false} ConservedAlways(hash: string -> string, a: Account, events: seq<Event>, code: string)
    requires Conserved(a) && forall e <- events :: Possible(e)
    ensures var end := Run(hash, a, events);
            && Conserved(end)
            && |end.accepted| <= 10
            && (Accepts(hash, end, code) <==> multiset(end.accepted)[hash(code)] < multiset(end.generated)[hash(code)])
    decreases |events|
  {
    if events == [] {
      assert |multiset(a.stored)| + |multiset(a.accepted)| == |multiset(a.generated)|;
      assert hash(code) in a.stored <==> multiset(a.stored)[hash(code)] > 0;
    } else {
      StepConserves(hash, a, events[0]);
      ConservedAlways(hash, Step(hash, a, events[0]), events[1..], code);
    }
  }

  // ----- acceptance, told by the events -----

  /** The hashes of the codes handed out when MFA was last enabled; none since it was disabled. */
  function HandedOut(hash: string -> string, events: seq<Event>): seq<string> {
    if events == [] then []
    else
      var last := events[|events| - 1];
      match last
      case Enable(codes) => Hashes(hash, codes)
      case Disable => []
      case Attempt(_) => HandedOut(hash, events[..|events| - 1])
  }

  /** How often a code with hash `h` was tried since then. */
  function Tries(hash: string -> string, events: seq<Event>, h: string): nat {
    if events == [] || !events[|events| - 1].Attempt? then 0
    else
      Tries(hash, events[..|events| - 1], h) + if hash(events[|events| - 1].code) == h then 1 else 0
  }

  lemma {:induction false} RunLast(hash: string -> string, a: Account, events: seq<Event>, e: Event)
    ensures Run(hash, a, events + [e]) == Step(hash, Run(hash, a, events), e)
    decreases |events|
  {
    if events == [] {
      assert [] + [e] == [e] && [e][1..] == [];
    } else {
      assert (events + [e])[1..] == events[1..] + [e];
      RunLast(hash, Step(hash, a, events[0]), events[1..], e);
    }
  }

  /** An attempt takes one match away, if there is one. */
  lemma AttemptCounts(stored: seq<string>, x: string, h: string)
    ensures multiset(AfterAttempt(stored, x))[h] ==
            multiset(stored)[h] - if x == h && h in stored then 1 else 0
  {
    var i := IndexOf(stored, x);
    if i < |stored| {
      RemoveCounts(stored, i);
    } else {
      assert x !in multiset(stored);
    }
  }

  lemma {:induction false} StoredFromHistory(hash: string -> string, events: seq<Event>, h: string)
    ensures multiset(Run(hash, Account([], [], []), events).stored)[h] ==
            Max(0, multiset(HandedOut(hash, events))[h] - Tries(hash, events, h))
    decreases |events|
  {
    if events != [] {
      var init, last := events[..|events| - 1], events[|events| - 1];
      assert events == init + [last];
      RunLast(hash, Account([], [], []), init, last);
      if last.Attempt? {
        StoredFromHistory(hash, init, h);
        AttemptCounts(Run(hash, Account([], [], []), init).stored, hash(last.code), h);
      }
    }
  }

  /** After any events a code is accepted iff codes with its hash were handed out, when MFA was last enabled, more
      often than they have been tried since. */
  lemma AcceptedExactly(hash: string -> string, events: seq<Event>, code: string)
    ensures Accepts(hash, Run(hash, Account([], [], []), events), code) <==>
            Tries(hash, events, hash(code)) < multiset(HandedOut(hash, events))[hash(code)]
  {
    StoredFromHistory(hash, events, hash(code));
    var stored := Run(hash, Account([], [], []), events).stored;
    assert hash(code) in stored <==> multiset(stored)[hash(code)] > 0;
  }

  // ----- the codes -----

  function HexDigit(v: int): char
    requires 0 <= v < 16
  {
    if v < 10 then '0' + v as char else 'A' + (v - 10) as char
  }

  /** fmt's %X of bytes. */
  function Hex(b: seq<byte>): (s: string)
    ensures |s| == 2 * |b|
  {
    if b == [] then "" else [HexDigit(b[0] / 16), HexDigit(b[0] % 16)] + Hex(b[1..])
  }

  /** The random bytes of one code. */
  type FiveBytes = b: seq<byte> | |b| == 5 witness [0, 0, 0, 0, 0]

  function FormatCode(b: FiveBytes): string {
    Hex(b[..3]) + "-" + Hex(b[3..])
  }

  lemma {:induction false} HexInjective(a: seq<byte>, b: seq<byte>)
    requires |a| == |b| && Hex(a) == Hex(b)
    ensures a == b
  {
    if a != [] {
      assert Hex(a)[0] == Hex(b)[0] && Hex(a)[1] == Hex(b)[1];
      assert a[0] == b[0];
      assert Hex(a)[2..] == Hex(a[1..]) && Hex(b)[2..] == Hex(b[1..]);
      HexInjective(a[1..], b[1..]);
      assert a == [a[0]] + a[1..] && b == [b[0]] + b[1..];
    }
  }

  /** The value of an upper-case hexadecimal digit. */
  function HexValue(c: char): Option<int> {
    if '0' <= c <= '9' then Some(c as int - '0' as int)
    else if 'A' <= c <= 'F' then Some(c as int - 'A' as int + 10)
    else None
  }

  lemma {:induction false} HexAt(b: seq<byte>, i: nat)
    requires i < |b|
    ensures HexValue(Hex(b)[2 * i]) == Some(b[i] / 16) && HexValue(Hex(b)[2 * i + 1]) == Some(b[i] % 16)
  {
    if i > 0 {
      HexAt(b[1..], i - 1);
      assert Hex(b)[2..] == Hex(b[1..]);
    }
  }

  /** A code has eleven characters: the first three bytes in upper-case hexadecimal, a dash, and the other two. */
  lemma CodeFormat(b: FiveBytes, i: nat)
    requires i < 5
    ensures |FormatCode(b)| == 11 && FormatCode(b)[6] == '-'
    ensures var at := if i < 3 then 2 * i else 2 * i + 1;
            HexValue(FormatCode(b)[at]) == Some(b[i] / 16) && HexValue(FormatCode(b)[at + 1]) == Some(b[i] % 16)
  {
    if i < 3 {
      HexAt(b[..3], i);
    } else {
      HexAt(b[3..], i - 3);
    }
  }

  /** Different random bytes give different codes. */
  lemma FormatInjective(a: FiveBytes, b: FiveBytes)
    requires FormatCode(a) == FormatCode(b)
    ensures a == b
  {
    assert FormatCode(a)[..6] == Hex(a[..3]) && FormatCode(b)[..6] == Hex(b[..3]);
    assert FormatCode(a)[7..] == Hex(a[3..]) && FormatCode(b)[7..] == Hex(b[3..]);
    HexInjective(a[..3], b[..3]);
    HexInjective(a[3..], b[3..]);
    assert a == a[..3] + a[3..] && b == b[..3] + b[3..];
  }

  function Codes(random: seq<FiveBytes>): (c: seq<string>)
    ensures |c| == |random|
  {
    if random == [] then [] else Codes(random[..|random| - 1]) + [FormatCode(random[|random| - 1])]
  }

  lemma {:induction false} CodesAt(random: seq<FiveBytes>, i: nat)
    requires i < |random|
    ensures Codes(random)[i] == FormatCode(random[i])
  {
    if i < |random| - 1 {
      CodesAt(random[..|random| - 1], i);
    }
  }

  /** GenerateBackupCodes, given the random bytes of each code. */
  method Generate(hash: string -> string, random: seq<FiveBytes>) returns (codes: array<string>, hashes: array<string>)
    ensures fresh(codes) && fresh(hashes) && codes != hashes
    ensures codes[..] == Codes(random)
    ensures hashes[..] == Hashes(hash, codes[..])
  {
    codes := new string[|random|];
    hashes := new string[|random|];
    ghost var texts := Codes(random);
    ghost var digests := Hashes(hash, texts);
    for i := 0 to |random|
      invariant forall k :: 0 <= k < i ==> codes[k] == texts[k]
      invariant forall k :: 0 <= k < i ==> hashes[k] == digests[k]
    {
      var code := FormatCode(random[i]);
      CodesAt(random, i);
      HashesAt(hash, texts, i);
      codes[i] := code;
      hashes[i] := hash(code);
    }
    assert codes[..] == texts && hashes[..] == digests;
  }

  /** The user's slice of hashes: an array of which the first `len` cells are in use. */
  class Slice {
    var cells: array<string>
    var len: nat

    ghost predicate Valid()
      reads this
    {
      len <= cells.Length
    }

    ghost function Contents(): seq<string>
      requires Valid()
      reads this, cells
    {
      cells[..len]
    }

    constructor (hashes: array<string>)
      ensures Valid() && cells == hashes && Contents() == hashes[..]
    {
      cells := hashes;
      len := hashes.Length;
    }

    /** The part of EnableMFA that replaces the codes; the caller gets the plain ones. */
    method Enable(hash: string -> string, random: seq<FiveBytes>) returns (codes: array<string>)
      requires |random| == CODE_COUNT
      modifies this
      ensures Valid() && fresh(cells) && fresh(codes)
      ensures codes[..] == Codes(random) && Contents() == Hashes(hash, Codes(random))
    {
      var hashes;
      codes, hashes := Generate(hash, random);
      cells := hashes;
      len := hashes.Length;
    }

    /** verifyBackupCode: find the first match and shift the rest one cell down. */
    method Verify(hash: string -> string, code: string) returns (ok: bool)
      requires Valid()
      modifies this`len, cells
      ensures Valid() && cells == old(cells)
      ensures ok <==> hash(code) in old(Contents())
      ensures Contents() == AfterAttempt(old(Contents()), hash(code))
    {
      var h := hash(code);
      ghost var was := Contents();
      var i := 0;
      while i < len && cells[i] != h
        invariant 0 <= i <= len
        invariant forall k :: 0 <= k < i ==> was[k] != h
      {
        i := i + 1;
      }
      FirstMatch(was, h, i);
      if i == len {
        return false;
      }
      var j := i;
      while j + 1 < len
        modifies cells
        invariant i <= j < len
        invariant forall k :: 0 <= k < i ==> cells[k] == was[k]
        invariant forall k :: i <= k < j ==> cells[k] == was[k + 1]
        invariant forall k :: j < k < len ==> cells[k] == was[k]
      {
        cells[j] := cells[j + 1];
        j := j + 1;
      }
      len := len - 1;
      ok := true;
      ShiftedIsRemoved(was, cells[..len], i);
    }
  }

  lemma {:induction false} FirstMatch(s: seq<string>, x: string, i: nat)
    requires i <= |s| && (forall k :: 0 <= k < i ==> s[k] != x) && (i < |s| ==> s[i] == x)
    ensures IndexOf(s, x) == i
  {
    if i > 0 {
      FirstMatch(s[1..], x, i - 1);
    }
  }

  lemma ShiftedIsRemoved(was: seq<string>, now: seq<string>, i: nat)
    requires i < |was| && |now| == |was| - 1
    requires forall k :: 0 <= k < i ==> now[k] == was[k]
    requires forall k :: i <= k < |now| ==> now[k] == was[k + 1]
    ensures now == RemoveAt(was, i)
  {
  }
}
