/** Ticket codes: the drawing alphabet, the shape of a generated candidate and the
    VIP shape rule shared by the scanner and the record store's filters. */
module Codes {

  /** The drawing alphabet of `generateRandomString`: upper-case letters, lower-case
      letters and digits, without the letters `I` and `i`. Written as its three runs;
      their concatenation is the source's 60-character literal. */
  const Upper: string := "ABCDEFGHJKLMNOPQRSTUVWXYZ"
  const Lower: string := "abcdefghjklmnopqrstuvwxyz"
  const Digits: string := "0123456789"
  const Characters: string := Upper + Lower + Digits

  /** The type name that selects the VIP prefix and suffix; any other name is Normal. */
  const VipType: string := "VIP"

  /** The `length` argument the batch passes to the generator. */
  const CodeLength: int := 20

  /** The marker and suffix of a VIP code. */
  const VipPrefix: string := "V"
  const VipSuffix: string := "IP"

  /** The pattern of the record store's VIP filters. */
  const VipPattern: string := "V%IP"

  predicate IsAsciiAlnum(c: char) {
    'A' <= c <= 'Z' || 'a' <= c <= 'z' || '0' <= c <= '9'
  }

  lemma UpperRun()
    ensures forall c :: c in Upper <==> 'A' <= c <= 'Z' && c != 'I'
  {
    assert forall k :: 0 <= k < |Upper| ==> 'A' <= Upper[k] <= 'Z' && Upper[k] != 'I';
    forall c | 'A' <= c <= 'Z' && c != 'I' ensures c in Upper {
      if c < 'I' {
        assert Upper[c as int - 'A' as int] == c;
      } else {
        assert Upper[c as int - 'A' as int - 1] == c;
      }
    }
  }

  lemma LowerRun()
    ensures forall c :: c in Lower <==> 'a' <= c <= 'z' && c != 'i'
  {
    assert forall k :: 0 <= k < |Lower| ==> 'a' <= Lower[k] <= 'z' && Lower[k] != 'i';
    forall c | 'a' <= c <= 'z' && c != 'i' ensures c in Lower {
      if c < 'i' {
        assert Lower[c as int - 'a' as int] == c;
      } else {
        assert Lower[c as int - 'a' as int - 1] == c;
      }
    }
  }

  lemma DigitRun()
    ensures forall c :: c in Digits <==> '0' <= c <= '9'
  {
    assert forall k :: 0 <= k < |Digits| ==> '0' <= Digits[k] <= '9';
    forall c | '0' <= c <= '9' ensures c in Digits {
      assert Digits[c as int - '0' as int] == c;
    }
  }

  /** The alphabet is exactly the ASCII letters and digits other than `I` and `i`. */
  lemma AlphabetContents()
    ensures |Characters| == 60
    ensures forall c :: c in Characters <==> IsAsciiAlnum(c) && c != 'I' && c != 'i'
  {
    UpperRun();
    LowerRun();
    DigitRun();
  }

  predicate StartsWith(s: string, prefix: string) {
    |prefix| <= |s| && s[..|prefix|] == prefix
  }

  predicate EndsWith(s: string, suffix: string) {
    |suffix| <= |s| && s[|s| - |suffix|..] == suffix
  }

  /** The scanner's VIP test: starts with "V" and ends with "IP". The prefix and the
      suffix cannot overlap, so a VIP text has at least three characters. */
  predicate IsVip(s: string): (vip: bool)
    ensures vip <==> |s| >= 3 && s[0] == 'V' && s[|s| - 2] == 'I' && s[|s| - 1] == 'P'
  {
    VipShape(s);
    StartsWith(s, VipPrefix) && EndsWith(s, VipSuffix)
  }

  datatype Category = Vip | Normal

  /** The category the scanner reports: VIP for the VIP shape, Normal for any other
      text, including empty or malformed text. */
  function Classify(s: string): (c: Category)
    ensures c == Vip <==> |s| >= 3 && s[0] == 'V' && s[|s| - 2] == 'I' && s[|s| - 1] == 'P'
  {
    if IsVip(s) then Vip else Normal
  }

  /** `startsWith("V") && endsWith("IP")` fixes the first and the last two characters. */
  lemma VipShape(s: string)
    ensures StartsWith(s, VipPrefix) && EndsWith(s, VipSuffix)
      <==> |s| >= 3 && s[0] == 'V' && s[|s| - 2] == 'I' && s[|s| - 1] == 'P'
  {
    if StartsWith(s, VipPrefix) && EndsWith(s, VipSuffix) {
      VipShapeNecessary(s);
    }
    if |s| >= 3 && s[0] == 'V' && s[|s| - 2] == 'I' && s[|s| - 1] == 'P' {
      assert s[..1] == [s[0]] == VipPrefix;
      assert s[|s| - 2..] == [s[|s| - 2], s[|s| - 1]] == VipSuffix;
    }
  }

  lemma VipShapeNecessary(s: string)
    requires StartsWith(s, VipPrefix) && EndsWith(s, VipSuffix)
    ensures |s| >= 3 && s[0] == 'V' && s[|s| - 2] == 'I' && s[|s| - 1] == 'P'
  {
    var head, tail := s[..1], s[|s| - 2..];
    assert head == VipPrefix && tail == VipSuffix;
    assert s[0] == head[0] == 'V';
    assert s[|s| - 2] == tail[0] == 'I';
    assert s[|s| - 1] == tail[1] == 'P';
  }

  /** SQL `LIKE` with `%` (any run of characters) and `_` (one character), compared
      character by character. */
  function Like(s: string, pattern: string): (matches: bool)
    ensures matches && (forall k :: 0 <= k < |pattern| ==> pattern[k] != '%') ==> |s| == |pattern|
    ensures pattern == "%" ==> matches
    decreases |s| + |pattern|
  {
    if pattern == [] then s == []
    else if pattern[0] == '%' then Like(s, pattern[1..]) || (s != [] && Like(s[1..], pattern))
    else if pattern[0] == '_' then s != [] && Like(s[1..], pattern[1..])
    else s != [] && s[0] == pattern[0] && Like(s[1..], pattern[1..])
  }

  lemma {:induction false} LikeExactly(s: string, lit: string)
    requires forall k :: 0 <= k < |lit| ==> lit[k] != '%' && lit[k] != '_'
    ensures Like(s, lit) <==> s == lit
    decreases |lit|
  {
    if lit != [] && s != [] {
      LikeExactly(s[1..], lit[1..]);
      if s[1..] == lit[1..] && s[0] == lit[0] {
        assert s == [s[0]] + s[1..];
        assert lit == [lit[0]] + lit[1..];
      }
    }
  }

  lemma {:induction false} LikeAnyThenSuffix(s: string)
    ensures Like(s, "%IP") <==> EndsWith(s, "IP")
    decreases |s|
  {
    assert "%IP"[0] == '%' && "%IP"[1..] == "IP";
    LikeExactly(s, "IP");
    if s != [] {
      LikeAnyThenSuffix(s[1..]);
      if |s| >= 3 {
        assert s[1..][|s[1..]| - 2..] == s[|s| - 2..];
      }
    }
  }

  /** The store's `LIKE 'V%IP'` selects exactly the codes the scanner calls VIP. */
  lemma VipPatternAgrees(s: string)
    ensures Like(s, VipPattern) <==> Classify(s) == Vip
  {
    assert VipPattern[0] == 'V' && VipPattern[1..] == "%IP";
    if s != [] {
      LikeAnyThenSuffix(s[1..]);
      if |s| >= 3 {
        assert s[1..][|s[1..]| - 2..] == s[|s| - 2..];
      }
    }
  }

  /** Number of characters drawn per attempt: `for (i in 0 until length - 2)`. */
  function BodyLength(length: int): nat {
    if length > 2 then length - 2 else 0
  }

  /** Draws stand for `random.nextInt(characters.length)`: indices into the alphabet. */
  predicate ValidDraws(draws: seq<int>) {
    forall k :: 0 <= k < |draws| ==> 0 <= draws[k] < |Characters|
  }

  /** The characters appended for a sequence of draws, in order. */
  function Body(draws: seq<int>): (body: string)
    requires ValidDraws(draws)
    ensures |body| == |draws|
    ensures forall k :: 0 <= k < |draws| ==> body[k] == Characters[draws[k]]
  {
    if draws == [] then [] else Body(draws[..|draws| - 1]) + [Characters[draws[|draws| - 1]]]
  }

  /** The candidate one attempt of the generator builds. */
  function Candidate(kind: string, length: int, draws: seq<int>): (c: string)
    requires |draws| == BodyLength(length) && ValidDraws(draws)
    ensures kind == VipType ==> (
      && |c| == |draws| + 3 && c[0] == 'V' && c[|c| - 2..] == "IP"
      && forall k :: 0 <= k < |draws| ==> c[k + 1] == Characters[draws[k]])
    ensures kind != VipType ==> (
      && |c| == |draws|
      && forall k :: 0 <= k < |draws| ==> c[k] == Characters[draws[k]])
  {
    (if kind == VipType then VipPrefix else "") + Body(draws) + (if kind == VipType then VipSuffix else "")
  }

  /** Every drawn character is an ASCII letter or digit, and never `I` or `i`. */
  lemma DrawnCharacters(draws: seq<int>)
    requires ValidDraws(draws)
    ensures forall k :: 0 <= k < |draws| ==>
      IsAsciiAlnum(Body(draws)[k]) && Body(draws)[k] != 'I' && Body(draws)[k] != 'i'
  {
    AlphabetContents();
    forall k | 0 <= k < |draws|
      ensures IsAsciiAlnum(Body(draws)[k]) && Body(draws)[k] != 'I' && Body(draws)[k] != 'i'
    {
      assert Body(draws)[k] in Characters;
    }
  }

  /** A VIP candidate is "V", then `length - 2` drawn characters, then "IP":
      `length + 1` characters in all when `length >= 2`. */
  lemma VipCandidateShape(length: int, draws: seq<int>)
    requires |draws| == BodyLength(length) && ValidDraws(draws)
    ensures var c := Candidate(VipType, length, draws);
      && |c| == |draws| + 3
      && c[0] == 'V' && c[|c| - 2] == 'I' && c[|c| - 1] == 'P'
      && (forall k :: 0 <= k < |draws| ==> c[k + 1] == Characters[draws[k]])
      && (length >= 2 ==> |c| == length + 1)
  {
  }

  /** A Normal candidate is exactly the `length - 2` drawn characters. */
  lemma NormalCandidateShape(kind: string, length: int, draws: seq<int>)
    requires kind != VipType
    requires |draws| == BodyLength(length) && ValidDraws(draws)
    ensures var c := Candidate(kind, length, draws);
      && |c| == |draws|
      && (forall k :: 0 <= k < |draws| ==> c[k] == Characters[draws[k]])
      && (length >= 2 ==> |c| == length - 2)
  {
  }

  /** The category the scanner reads off a candidate is the one it was generated as:
      a Normal candidate cannot end in "IP", since `I` is never drawn. */
  lemma CandidateCategory(kind: string, length: int, draws: seq<int>)
    requires |draws| == BodyLength(length) && ValidDraws(draws)
    ensures Classify(Candidate(kind, length, draws)) == (if kind == VipType then Vip else Normal)
  {
    var c := Candidate(kind, length, draws);
    if kind == VipType {
      VipCandidateShape(length, draws);
    } else {
      DrawnCharacters(draws);
      if |c| >= 3 {
        assert c[|c| - 2] == Body(draws)[|draws| - 2];
      }
    }
  }

  /** At the batch's call site (`length` 20) a VIP code has 21 characters and a
      Normal code 18. */
  lemma CallSiteLengths(kind: string, draws: seq<int>)
    requires |draws| == BodyLength(CodeLength) && ValidDraws(draws)
    ensures |Candidate(kind, CodeLength, draws)| == if kind == VipType then 21 else 18
  {
  }
}
