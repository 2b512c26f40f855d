/**
 The short-ID generator `randSeq` of main.go.

 The random source is an oracle: `draws[i]` is the value `rand.Intn(62)`
 returned for the i-th character. Seeding and distribution are not modelled;
 only the shape of the token is.
 */
module Tokens {
  import opened Wrappers

  const Lower: string := "abcdefghijklmnopqrstuvwxyz"
  const Upper: string := "ABCDEFGHIJKLMNOPQRSTUVWXYZ"
  const Digits: string := "1234567890"

  /** The 62 runes `randSeq` picks from, in main.go's order (one literal there). */
  const Letters: string := Lower + Upper + Digits

  /** The token `randSeq` returns whenever IS_TEST is "true". */
  const TestToken: string := "1234567"

  /** The length PostGenerateShortURL asks `randSeq` for. */
  const ShortIDLength: nat := 7

  /** `make([]rune, n)` panics when `n` is negative. */
  datatype TokenError = LenOutOfRange

  predicate IsAlphanumeric(c: char) {
    ('a' <= c <= 'z') || ('A' <= c <= 'Z') || ('0' <= c <= '9')
  }

  /** A string of length `n` whose every character is one of `Letters`. */
  predicate IsToken(s: string, n: int) {
    |s| == n && forall i :: 0 <= i < |s| ==> s[i] in Letters
  }

  /** Every draw is a value `rand.Intn(len(letters))` can return. */
  predicate ValidDraws(draws: seq<int>) {
    forall i :: 0 <= i < |draws| ==> 0 <= draws[i] < |Letters|
  }

  /** The letter at position `k` of `Letters`, computed from `k`. */
  function LetterAt(k: nat): char
    requires k < 62
  {
    if k < 26 then ('a' as int + k) as char
    else if k < 52 then ('A' as int + (k - 26)) as char
    else if k < 61 then ('1' as int + (k - 52)) as char
    else '0'
  }

  /** The position of an alphanumeric character in `Letters`. */
  function Rank(c: char): (k: nat)
    requires IsAlphanumeric(c)
    ensures k < 62 && LetterAt(k) == c
  {
    if 'a' <= c <= 'z' then c as int - 'a' as int
    else if 'A' <= c <= 'Z' then 26 + (c as int - 'A' as int)
    else if c == '0' then 61
    else 52 + (c as int - '1' as int)
  }

  /** `Letters` is the closed form `LetterAt` spelled out. */
  lemma LettersClosedForm()
    ensures |Letters| == 62
    ensures forall k :: 0 <= k < 62 ==> Letters[k] == LetterAt(k)
  {
    forall k | 0 <= k < 62
      ensures Letters[k] == LetterAt(k)
    {
      if k < 26 {
        assert Letters[k] == Lower[k];
      } else if k < 52 {
        assert Letters[k] == Upper[k - 26];
      } else {
        assert Letters[k] == Digits[k - 52];
      }
    }
  }

  /** `LetterAt` and `Rank` are inverse on `[0, 62)`. */
  lemma RankOfLetterAt(k: nat)
    requires k < 62
    ensures IsAlphanumeric(LetterAt(k)) && Rank(LetterAt(k)) == k
  {
  }

  /**
   The alphabet is exactly the ASCII letters and digits, 62 of them, each once:
   distinct positions hold distinct runes.
   */
  lemma AlphabetIsAlphanumeric()
    ensures |Letters| == 62
    ensures forall c :: c in Letters <==> IsAlphanumeric(c)
    ensures forall i, j :: 0 <= i < j < |Letters| ==> Letters[i] != Letters[j]
  {
    LettersClosedForm();
    forall c | c in Letters
      ensures IsAlphanumeric(c)
    {
      var k :| 0 <= k < |Letters| && Letters[k] == c;
      RankOfLetterAt(k);
    }
    forall c | IsAlphanumeric(c)
      ensures c in Letters
    {
      assert Letters[Rank(c)] == c;
    }
    forall i, j | 0 <= i < j < |Letters|
      ensures Letters[i] != Letters[j]
    {
      RankOfLetterAt(i);
      RankOfLetterAt(j);
    }
  }

  /** The characters chosen by a run of draws, one per draw. */
  function Spell(draws: seq<int>): (s: string)
    requires ValidDraws(draws)
    ensures |s| == |draws|
  {
    seq(|draws|, i requires 0 <= i < |draws| => Letters[draws[i]])
  }

  /**
   What `randSeq(n)` returns: the sentinel in test mode whatever `n` is, a
   panic for a negative length, otherwise the runes picked by the first `n` draws.
   */
  function Generate(n: int, isTest: bool, draws: seq<int>): (r: Result<string, TokenError>)
    requires ValidDraws(draws)
    requires !isTest && n >= 0 ==> n <= |draws|
    ensures r.Failure? <==> !isTest && n < 0
    ensures r.Success? && isTest ==> r.value == TestToken
    ensures r.Success? && !isTest ==> IsToken(r.value, n)
  {
    if isTest then Success(TestToken)
    else if n < 0 then Failure(LenOutOfRange)
    else Success(Spell(draws[..n]))
  }

  /** `randSeq` as main.go writes it: allocate `n` zero runes, then fill each slot. */
  method RandSeq(n: int, isTest: bool, draws: seq<int>) returns (r: Result<string, TokenError>)
    requires ValidDraws(draws)
    requires !isTest && n >= 0 ==> n <= |draws|
    ensures r == Generate(n, isTest, draws)
    ensures r.Success? && !isTest ==> forall i :: 0 <= i < n ==> r.value[i] == Letters[draws[i]]
  {
    if isTest {
      return Success(TestToken);
    }
    if n < 0 {
      return Failure(LenOutOfRange);
    }
    var b: string := seq(n, _ => 0 as char);
    var i := 0;
    while i < n
      invariant 0 <= i <= n
      invariant |b| == n
      invariant forall j :: 0 <= j < i ==> b[j] == Letters[draws[j]]
    {
      b := b[i := Letters[draws[i]]];
      i := i + 1;
    }
    assert b == Spell(draws[..n]);
    return Success(b);
  }

  /** In test mode the token is always "1234567"; it has the requested length only for 7. */
  lemma TestModeSentinel(n: int, draws: seq<int>)
    requires ValidDraws(draws)
    ensures Generate(n, true, draws) == Success("1234567")
    ensures |Generate(n, true, draws).value| == n <==> n == 7
  {
  }

  /** Every alphanumeric string of length `n` is the token of some run of `n` draws. */
  lemma EveryTokenReachable(n: nat, t: string)
    requires |t| == n && forall i :: 0 <= i < |t| ==> IsAlphanumeric(t[i])
    ensures exists draws :: ValidDraws(draws) && |draws| == n && Generate(n, false, draws) == Success(t)
  {
    LettersClosedForm();
    var draws := seq(n, i requires 0 <= i < n => Rank(t[i]) as int);
    assert draws[..n] == draws;
    assert Spell(draws) == t;
  }

  /** Different draws give different tokens: the token space has 62^n members. */
  lemma DistinctDrawsDistinctTokens(n: nat, a: seq<int>, b: seq<int>)
    requires ValidDraws(a) && ValidDraws(b)
    requires |a| == n && |b| == n && a != b
    ensures Generate(n, false, a) != Generate(n, false, b)
  {
    AlphabetIsAlphanumeric();
    var i :| 0 <= i < n && a[i] != b[i];
    assert a[..n] == a && b[..n] == b;
    assert Spell(a)[i] != Spell(b)[i];
  }
}
