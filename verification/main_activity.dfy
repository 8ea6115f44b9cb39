/** The ticket-code lifecycle of the main screen: generating fresh codes against the
    store, the batch that generates and stores them, and redeeming a scanned code. The
    store calls the source makes from coroutines are taken here in program order. */
module Activity {
  import opened Wrappers
  import opened Codes
  import opened Dao
  import opened IntParse

  /** The random draws of successive attempts of one generation: each attempt draws
      `BodyLength(length)` indices into the alphabet. */
  predicate ValidAttempts(length: int, attempts: seq<seq<int>>) {
    forall k :: 0 <= k < |attempts| ==> |attempts[k]| == BodyLength(length) && ValidDraws(attempts[k])
  }

  /** What the batch promises of each code it makes: the requested category and the
      length the call site's `length` 20 gives. */
  predicate Shaped(kind: string, code: string) {
    Classify(code) == (if kind == VipType then Vip else Normal) && |code| == (if kind == VipType then 21 else 18)
  }

  /** The code is the candidate of one of the given attempts. */
  ghost predicate FromAttempts(kind: string, code: string, attempts: seq<seq<int>>)
    requires ValidAttempts(CodeLength, attempts)
  {
    exists k :: 0 <= k < |attempts| && code == Candidate(kind, CodeLength, attempts[k])
  }

  /** The i-th code of a batch is a candidate of the i-th generation's attempts. */
  ghost predicate DrawnFrom(kind: string, codes: seq<string>, draws: seq<seq<seq<int>>>)
    requires forall i :: 0 <= i < |draws| ==> ValidAttempts(CodeLength, draws[i])
  {
    forall i :: 0 <= i < |codes| ==> i < |draws| && FromAttempts(kind, codes[i], draws[i])
  }

  lemma DrawnFromSnoc(kind: string, codes: seq<string>, draws: seq<seq<seq<int>>>, code: string)
    requires forall i :: 0 <= i < |draws| ==> ValidAttempts(CodeLength, draws[i])
    requires DrawnFrom(kind, codes, draws)
    requires |codes| < |draws| && FromAttempts(kind, code, draws[|codes|])
    ensures DrawnFrom(kind, codes + [code], draws)
  {
    var longer := codes + [code];
    forall i | 0 <= i < |longer| ensures i < |draws| && FromAttempts(kind, longer[i], draws[i]) {
      if i < |codes| {
        assert longer[i] == codes[i];
      }
    }
  }

  /** Every candidate of the given attempts is already stored. */
  ghost predicate AllTaken(kind: string, attempts: seq<seq<int>>, ids: set<string>)
    requires ValidAttempts(CodeLength, attempts)
  {
    forall k :: 0 <= k < |attempts| ==> Candidate(kind, CodeLength, attempts[k]) in ids
  }

  /** One pass of the generator's `do` body: the prefix, one alphabet character per
      draw, the suffix, appended to a builder. */
  method BuildCandidate(kind: string, length: int, draws: seq<int>) returns (result: string)
    requires |draws| == BodyLength(length) && ValidDraws(draws)
    ensures result == Candidate(kind, length, draws)
  {
    var builder := "";
    if kind == VipType {
      builder := builder + VipPrefix;
    }
    var i := 0;
    while i < length - 2
      invariant 0 <= i <= |draws|
      invariant builder == (if kind == VipType then VipPrefix else "") + Body(draws[..i])
    {
      assert draws[..i + 1][..i] == draws[..i];
      assert Body(draws[..i + 1]) == Body(draws[..i]) + [Characters[draws[i]]];
      builder := builder + [Characters[draws[i]]];
      i := i + 1;
    }
    assert draws[..i] == draws;
    if kind == VipType {
      builder := builder + VipSuffix;
    }
    result := builder;
  }

  /** `isQRCodeExists`: whether the store's count for the code is positive. */
  function IsQrCodeExists(dao: QrCodeDao, qrCode: string): (taken: bool)
    reads dao
    requires dao.Valid()
    ensures taken <==> qrCode in dao.Ids()
  {
    dao.Exists(qrCode) > 0
  }

  /** `generateRandomString`: builds candidates until one is not in the store. The
      result is the first candidate of the supplied attempts that is free; every
      earlier one was taken. When every supplied attempt collides the result is None,
      where the source keeps on drawing. */
  method GenerateRandomString(dao: QrCodeDao, length: int, kind: string, attempts: seq<seq<int>>)
    returns (r: Option<string>)
    requires dao.Valid()
    requires ValidAttempts(length, attempts)
    ensures r.Some? ==> r.value !in dao.Ids()
    ensures r.Some? ==> exists k :: 0 <= k < |attempts| && r.value == Candidate(kind, length, attempts[k])
                                  && (forall j :: 0 <= j < k ==> Candidate(kind, length, attempts[j]) in dao.Ids())
    ensures r.Some? ==> Classify(r.value) == (if kind == VipType then Vip else Normal)
    ensures r.Some? ==> |r.value| == BodyLength(length) + (if kind == VipType then 3 else 0)
    ensures r.None? <==> forall k :: 0 <= k < |attempts| ==> Candidate(kind, length, attempts[k]) in dao.Ids()
  {
    var k := 0;
    while k < |attempts|
      invariant 0 <= k <= |attempts|
      invariant forall j :: 0 <= j < k ==> Candidate(kind, length, attempts[j]) in dao.Ids()
    {
      var result := BuildCandidate(kind, length, attempts[k]);
      if !IsQrCodeExists(dao, result) {
        CandidateCategory(kind, length, attempts[k]);
        return Some(result);
      }
      k := k + 1;
    }
    return None;
  }

  /** One round of the batch: `generateRandomString(20, type)`, then the insert that
      `generateQRCode` makes of the result. */
  method GenerateAndStore(dao: QrCodeDao, kind: string, attempts: seq<seq<int>>) returns (r: Option<string>)
    requires dao.Valid()
    requires ValidAttempts(CodeLength, attempts)
    modifies dao
    ensures dao.Valid()
    ensures r.None? ==> dao.rows == old(dao.rows) && AllTaken(kind, attempts, dao.Ids())
    ensures r.Some? ==> (
      && r.value !in old(dao.Ids())
      && dao.Ids() == old(dao.Ids()) + {r.value}
      && Shaped(kind, r.value)
      && FromAttempts(kind, r.value, attempts))
  {
    r := GenerateRandomString(dao, CodeLength, kind, attempts);
    if r.Some? {
      dao.Insert(r.value);
    }
  }

  /** The batch of the number dialog: parse the typed count (`toIntOrNull() ?: 0`), then
      `repeat` it: generate a `CodeLength` code and store it before the next one.
      `draws[i]` holds the attempts of the i-th generation; the batch stops early, with
      `complete` false, only when those run out without a free candidate. */
  method GenerateBatch(dao: QrCodeDao, kind: string, input: string, draws: seq<seq<seq<int>>>)
    returns (codes: seq<string>, complete: bool)
    requires dao.Valid()
    requires forall i :: 0 <= i < |draws| ==> ValidAttempts(CodeLength, draws[i])
    modifies dao
    ensures dao.Valid()
    ensures dao.Ids() == old(dao.Ids()) + IdSet(codes)
    ensures NoDuplicates(codes)
    ensures forall c :: c in codes ==> c !in old(dao.Ids())
    ensures forall c :: c in codes ==>
      Shaped(kind, c)
    ensures complete <==> |codes| == (if ParseCount(input) > 0 then ParseCount(input) else 0)
    ensures |codes| <= if ParseCount(input) > 0 then ParseCount(input) else 0
    ensures ParseCount(input) <= 0 ==> codes == [] && dao.rows == old(dao.rows)
    ensures DrawnFrom(kind, codes, draws)
    ensures !complete ==> (
      && |codes| < ParseCount(input)
      && (|codes| < |draws| ==> AllTaken(kind, draws[|codes|], dao.Ids())))
  {
    var number := ParseCount(input);
    codes := [];
    complete := true;
    var i := 0;
    while i < number
      invariant 0 <= i == |codes| <= (if number > 0 then number else 0)
      invariant complete
      invariant dao.Valid()
      invariant dao.Ids() == old(dao.Ids()) + IdSet(codes)
      invariant NoDuplicates(codes)
      invariant forall c :: c in codes ==> c !in old(dao.Ids())
      invariant forall c :: c in codes ==>
        Shaped(kind, c)
      invariant i == 0 ==> dao.rows == old(dao.rows)
      invariant DrawnFrom(kind, codes, draws)
    {
      var attempts := if i < |draws| then draws[i] else [];
      var r := GenerateAndStore(dao, kind, attempts);
      if r.None? {
        complete := false;
        break;
      }
      var code := r.value;
      DrawnFromSnoc(kind, codes, draws, code);
      NoDuplicatesSnoc(codes, code);
      IdSetSnoc(codes, code);
      codes := codes + [code];
      i := i + 1;
    }
  }

  /** The outcome the scanner shows: admitted in a category, or not on the list. */
  datatype Outcome = Admitted(category: Category) | Rejected

  /** What redeeming `text` against the table reports, and the table it leaves: a
      stored text is admitted in its category and only its row goes; any other text is
      rejected and the table is kept as it is. */
  function Redemption(rows: seq<string>, text: string): (r: (Outcome, seq<string>))
    ensures r.0.Admitted? <==> text in rows
    ensures r.0.Admitted? ==> r.0.category == Classify(text)
    ensures forall x :: x in r.1 <==> x in rows && x != text
    ensures text !in rows ==> r.1 == rows
  {
    if text in rows then (Admitted(Classify(text)), Remove(rows, text)) else (Rejected, rows)
  }

  /** The scan handler: a scanned text found among the stored codes is classified and
      deleted by id; any other text is rejected and the store is left alone. */
  method Redeem(dao: QrCodeDao, scannedText: string) returns (outcome: Outcome)
    requires dao.Valid()
    modifies dao
    ensures dao.Valid()
    ensures (outcome, dao.rows) == Redemption(old(dao.rows), scannedText)
    ensures scannedText in old(dao.Ids()) ==>
      outcome == Admitted(Classify(scannedText)) && dao.Ids() == old(dao.Ids()) - {scannedText}
    ensures scannedText !in old(dao.Ids()) ==> outcome == Rejected && dao.rows == old(dao.rows)
    ensures scannedText !in dao.Ids()
  {
    var qrCodes := dao.GetAllQRCodes();
    if scannedText in qrCodes {
      var isVip := IsVip(scannedText);
      var qrType := if isVip then Vip else Normal;
      dao.DeleteById(scannedText);
      outcome := Admitted(qrType);
    } else {
      outcome := Rejected;
    }
  }

  /** A stored code is admitted once, in the category its shape gives; redeeming the
      same text again is rejected and changes nothing. Every other code stays stored. */
  lemma RedeemOnce(rows: seq<string>, text: string)
    requires NoDuplicates(rows) && text in rows
    ensures Redemption(rows, text).0 == Admitted(Classify(text))
    ensures var after := Redemption(rows, text).1;
      && NoDuplicates(after)
      && |after| == |rows| - 1
      && (forall x :: x in after <==> x in rows && x != text)
      && Redemption(after, text) == (Rejected, after)
  {
    CountIsZeroOrOne(rows, text);
  }

  /** A code generated as VIP is admitted as VIP and one generated as Normal as
      Normal, while it is stored. */
  lemma RedeemGenerated(rows: seq<string>, kind: string, length: int, draws: seq<int>)
    requires |draws| == BodyLength(length) && ValidDraws(draws)
    requires Candidate(kind, length, draws) in rows
    ensures Redemption(rows, Candidate(kind, length, draws)).0
      == Admitted(if kind == VipType then Vip else Normal)
  {
    CandidateCategory(kind, length, draws);
  }
}
