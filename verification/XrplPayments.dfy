/** From a ledger transaction to a confirmed intent: parsing, the schema gate, matching. */
module XrplPayments {
  import opened Common
  import opened Money
  import opened Store
  import opened Database
  import opened PaymentIntents
  import R = Ranking

  // ---------------------------------------------------------- transactions

  /** A text given to Decimal(): a number, NaN or an infinity, or something it rejects. */
  datatype NumText = Finite(value: Decimal) | NonFinite | Garbage

  datatype Amount =
    | Drops(text: NumText)
    | Issued(value: Option<NumText>, currency: Option<string>, issuer: Option<string>)
    | Unsupported

  /** MemoData after hex and UTF-8 decoding. */
  datatype Memo = NoData | Undecodable | Text(text: string)

  datatype Tx = Tx(kind: string, memos: seq<Memo>, amount: Amount, destination: Option<string>,
                   hash: Option<string>, altHash: Option<string>)

  datatype Detected = Detected(reference: string, amount: NumText, currency: string, hash: string,
                               destination: Option<string>, issuer: Option<string>)

  /** Parsing ends in a payment, in the parse error the scanner skips, or in another exception. */
  datatype Parsed = Payment(detected: Detected) | ParseError | Raised

  function ExtractReference(memos: seq<Memo>): Option<string> {
    if memos == [] then None
    else match memos[0]
      case NoData => ExtractReference(memos[1..])
      case Undecodable => None
      case Text(t) => Some(t)
  }

  datatype ParsedAmount = Value(amount: NumText, currency: string, issuer: Option<string>) | AmountError | AmountRaised

  function ExtractAmount(a: Amount): ParsedAmount {
    match a
    case Drops(Finite(d)) => Value(Finite(DropsToXrp(d)), "XRP", None)
    case Drops(NonFinite) => Value(NonFinite, "XRP", None)
    case Drops(Garbage) => AmountRaised
    case Issued(Some(v), Some(c), issuer) => if v == Garbage then AmountRaised else Value(v, Upper(c), issuer)
    case Issued(_, _, _) => AmountError
    case Unsupported => AmountError
  }

  function FirstNonEmpty(a: Option<string>, b: Option<string>): Option<string> {
    if a.Some? && a.value != "" then a else if b.Some? && b.value != "" then b else None
  }

  function Parse(tx: Tx): Parsed {
    match ExtractReference(tx.memos)
    case None => ParseError
    case Some(reference) =>
      match ExtractAmount(tx.amount)
      case AmountError => ParseError
      case AmountRaised => Raised
      case Value(amount, currency, issuer) =>
        match (FirstNonEmpty(tx.destination, None), FirstNonEmpty(tx.hash, tx.altHash))
        case (Some(destination), Some(hash)) =>
          var d := Detected(reference, amount, currency, hash, Some(destination), issuer);
          if SchemaAccepts(d) then Payment(d) else Raised
        case _ => ParseError
  }

  predicate SchemaAccepts(d: Detected) {
    && 4 <= |d.reference| <= 64
    && d.amount.Finite? && d.amount.value.units > 0 && AtMostTwoPlaces(d.amount.value)
    && 3 <= |d.currency| <= 12
    && 64 <= |d.hash| <= 128
    && (d.destination.Some? ==> |d.destination.value| <= 128)
    && (d.issuer.Some? ==> |d.issuer.value| <= 128)
  }

  // -------------------------------------------------------------- matching

  /** scalar_one_or_none: the row with a reference, which is unique. */
  function ByReference(s: Store, reference: string): (r: Option<IntentId>)
    ensures r.Some? ==> r.value in s.intents && s.intents[r.value].reference == reference
    ensures r.None? ==> forall i <- s.intents :: s.intents[i].reference != reference
  {
    var hits := set i <- s.intents | s.intents[i].reference == reference :: R.Key(0, 0, 0, i);
    if hits == {} then
      assert forall i <- s.intents :: s.intents[i].reference == reference ==> R.Key(0, 0, 0, i) in hits;
      None
    else Some(R.Least(hits).id)
  }

  predicate Matches(i: Intent, d: Detected)
    requires d.amount.Finite?
  {
    && i.status == Pending
    && i.reference == Upper(d.reference)
    && i.cents == Cents(d.amount.value)
    && Upper(i.currency) == Upper(d.currency)
    && d.hash != ""
    && (i.destination.Some? ==> d.destination == i.destination)
  }

  datatype DetectReply = Matched(intent: IntentId) | NotFound | Mismatch | Unconfirmed(reply: Reply)

  function Detect(s: Store, d: Detected, now: int, dbNow: int, ids: seq<DeliveryId>): (Store, DetectReply)
    requires SchemaAccepts(d)
  {
    match ByReference(s, Upper(d.reference))
    case None => (s, NotFound)
    case Some(id) =>
      if !Matches(s.intents[id], d) then (s, Mismatch)
      else
        var (t, reply) := Confirm(s, id, d.hash, now, dbNow, ids);
        (t, if reply == Changed then Matched(id) else Unconfirmed(reply))
  }

  method ValidateAndConfirmDetectedPayment(db: Session, d: Detected, now: int, dbNow: int, ids: seq<DeliveryId>)
    returns (reply: DetectReply)
    requires db.Clean() && SchemaAccepts(d)
    modifies db
    ensures db.Clean() && (db.committed, reply) == Detect(old(db.committed), d, now, dbNow, ids)
  {
    var found := ByReference(db.working, Upper(d.reference));
    if found == None {
      return NotFound;
    }
    if !Matches(db.working.intents[found.value], d) {
      return Mismatch;
    }
    var r := ConfirmPaymentIntent(db, found.value, d.hash, now, dbNow, ids);
    return if r == Changed then Matched(found.value) else Unconfirmed(r);
  }

  /** How the scanner books a transaction. */
  datatype Verdict = Processed(intent: IntentId) | Skipped | Failed

  function Process(s: Store, tx: Tx, now: int, dbNow: int, ids: seq<DeliveryId>): (Store, Verdict) {
    if tx.kind != "Payment" then (s, Skipped)
    else
      match Parse(tx)
      case ParseError => (s, Skipped)
      case Raised => (s, Verdict.Failed)
      case Payment(d) =>
        var (t, reply) := Detect(s, d, now, dbNow, ids);
        (t, if reply.Matched? then Processed(reply.intent) else Verdict.Failed)
  }

  method ProcessCandidateTransaction(db: Session, tx: Tx, now: int, dbNow: int, ids: seq<DeliveryId>)
    returns (verdict: Verdict)
    requires db.Clean()
    modifies db
    ensures db.Clean() && (db.committed, verdict) == Process(old(db.committed), tx, now, dbNow, ids)
  {
    hide Detect;
    if tx.kind != "Payment" {
      return Skipped;
    }
    match Parse(tx) {
      case ParseError =>
        return Skipped;
      case Raised =>
        return Verdict.Failed;
      case Payment(d) =>
        var reply := ValidateAndConfirmDetectedPayment(db, d, now, dbNow, ids);
        return if reply.Matched? then Processed(reply.intent) else Verdict.Failed;
    }
  }

  // ------------------------------------------------------------- exactness

  ghost predicate UniqueReferences(s: Store) {
    forall i, j :: i in s.intents && j in s.intents && s.intents[i].reference == s.intents[j].reference ==> i == j
  }

  /** The first memo with data is the text `t`. */
  ghost predicate MemoSays(memos: seq<Memo>, t: string) {
    exists k :: 0 <= k < |memos| && memos[k] == Text(t) && forall j :: 0 <= j < k ==> memos[j] == NoData
  }

  /**
   * The amount of a transaction is `cents` of a currency.  Drops are
   * millionths of an XRP; an issued token counts in its own currency.
   */
  ghost predicate Worth(a: Amount, cents: int, currency: string) {
    match a
    case Drops(Finite(d)) => Upper(currency) == "XRP" && SameValue(d, Decimal(10000 * cents, 0))
    case Issued(Some(Finite(v)), Some(c), issuer) =>
      && Upper(c) == Upper(currency) && 3 <= |c| <= 12 && (issuer.Some? ==> |issuer.value| <= 128)
      && SameValue(v, Decimal(cents, 2))
    case _ => false
  }

  /** The transaction goes by the hash `h`, from the first of its two fields that is not empty. */
  ghost predicate HashIs(tx: Tx, h: string) {
    && 64 <= |h| <= 128
    && (tx.hash == Some(h) || ((tx.hash == None || tx.hash == Some("")) && tx.altHash == Some(h)))
  }

  /** The transaction, read field by field, names this intent and pays exactly its amount. */
  ghost predicate Pays(tx: Tx, i: Intent) {
    && tx.kind == "Payment"
    && (exists t :: MemoSays(tx.memos, t) && 4 <= |t| <= 64 && Upper(t) == i.reference)
    && i.cents > 0 && Worth(tx.amount, i.cents, i.currency)
    && tx.destination.Some? && 1 <= |tx.destination.value| <= 128
    && (i.destination.Some? ==> i.destination == tx.destination)
    && exists h :: HashIs(tx, h)
  }

  /** The scanner confirms an intent exactly when the transaction pays it, it is pending, and no id collides. */
  lemma ProcessedIffPaid(s: Store, tx: Tx, i: IntentId, now: int, dbNow: int, ids: seq<DeliveryId>)
    requires UniqueReferences(s)
    ensures Process(s, tx, now, dbNow, ids).1 == Processed(i)
       <==> && i in s.intents && s.intents[i].status == Pending && Pays(tx, s.intents[i])
            && FreshIds(s, ids, EnabledCount(s, s.intents[i].merchant))
  {
    hide Confirm, SchemaAccepts, ByReference, Pays, FreshIds, EnabledCount, Parse;
    if i in s.intents { PaysIffMatches(tx, s.intents[i]); }
    if Parse(tx).Payment? {
      var d := Parse(tx).detected;
      ParsedFacts(tx);
      var found := ByReference(s, Upper(d.reference));
      if i in s.intents { ConfirmReplies(s, i, d.hash, now, dbNow, ids); }
      if found.Some? { ConfirmReplies(s, found.value, d.hash, now, dbNow, ids); }
    }
  }

  /** A detected payment confirms the pending intent with its reference, amount, currency and destination. */
  lemma DetectIff(s: Store, d: Detected, i: IntentId, now: int, dbNow: int, ids: seq<DeliveryId>)
    requires UniqueReferences(s) && SchemaAccepts(d)
    ensures
      var (t, reply) := Detect(s, d, now, dbNow, ids);
      && (reply == Matched(i)
          <==> && i in s.intents && s.intents[i].status == Pending && s.intents[i].reference == Upper(d.reference)
               && SameValue(d.amount.value, Decimal(s.intents[i].cents, 2))
               && Upper(d.currency) == Upper(s.intents[i].currency)
               && (s.intents[i].destination.Some? ==> d.destination == s.intents[i].destination)
               && FreshIds(s, ids, EnabledCount(s, s.intents[i].merchant)))
      && (reply == Matched(i) ==> t.intents == s.intents[i := s.intents[i].(status := Confirmed, hash := Some(d.hash))])
      && (reply == NotFound <==> forall j <- s.intents :: s.intents[j].reference != Upper(d.reference))
      && (!reply.Matched? ==> t == s)
  {
    hide Confirm, ByReference, FreshIds, EnabledCount;
    var found := ByReference(s, Upper(d.reference));
    if i in s.intents { CentsIffSameValue(d.amount.value, s.intents[i].cents); }
    if found.Some? { ConfirmReplies(s, found.value, d.hash, now, dbNow, ids); }
  }

  /** What a confirmation writes: the status and the hash of the transaction, on the intent it pays. */
  lemma ProcessedWrites(s: Store, tx: Tx, i: IntentId, now: int, dbNow: int, ids: seq<DeliveryId>)
    requires Process(s, tx, now, dbNow, ids).1 == Processed(i)
    ensures i in s.intents
    ensures exists h :: HashIs(tx, h) && Process(s, tx, now, dbNow, ids).0.intents
                                         == s.intents[i := s.intents[i].(status := Confirmed, hash := Some(h))]
  {
    hide Confirm, SchemaAccepts, ByReference, Parse, Matches;
    var d := Parse(tx).detected;
    ParsedFacts(tx);
    ConfirmReplies(s, i, d.hash, now, dbNow, ids);
    assert HashIs(tx, d.hash);
  }

  /** Whether a parsed payment matches a pending intent is said by the fields of the transaction. */
  lemma PaysIffMatches(tx: Tx, i: Intent)
    ensures Pays(tx, i.(status := Pending)) == Pays(tx, i)
    ensures Pays(tx, i) <==>
      && tx.kind == "Payment" && Parse(tx).Payment? && Parse(tx).detected.amount.Finite?
      && Matches(i.(status := Pending), Parse(tx).detected)
  {
    hide ExtractReference, ExtractAmount, MemoSays, Worth, HashIs, FirstNonEmpty, AtMostTwoPlaces, Cents;
    MemoRead(tx.memos);
    HashRead(tx);
    DestinationRead(tx);
    AmountIsWorth(tx.amount, i.cents, i.currency);
  }

  lemma MemoRead(memos: seq<Memo>)
    ensures forall t :: MemoSays(memos, t) <==> ExtractReference(memos) == Some(t)
  {
    forall t ensures MemoSays(memos, t) <==> ExtractReference(memos) == Some(t) {
      ReferenceIsFirstData(memos, t);
    }
  }

  lemma HashRead(tx: Tx)
    ensures forall h :: HashIs(tx, h) <==> FirstNonEmpty(tx.hash, tx.altHash) == Some(h) && 64 <= |h| <= 128
  {
  }

  lemma DestinationRead(tx: Tx)
    ensures forall d :: FirstNonEmpty(tx.destination, None) == Some(d) <==> tx.destination == Some(d) && |d| >= 1
  {
  }

  /** The amount read from a transaction passes the schema and equals an intent's exactly when it is worth that. */
  lemma AmountIsWorth(a: Amount, cents: int, currency: string)
    ensures cents > 0 && Worth(a, cents, currency)
       <==> match ExtractAmount(a)
            case Value(Finite(v), c, issuer) =>
              && v.units > 0 && AtMostTwoPlaces(v) && Cents(v) == cents
              && 3 <= |c| <= 12 && (issuer.Some? ==> |issuer.value| <= 128) && Upper(c) == Upper(currency)
            case _ => false
  {
    match a
    case Drops(Finite(d)) =>
      assert Upper("XRP") == "XRP";
      DropsInCents(d, cents);
      CentsIffSameValue(DropsToXrp(d), cents);
    case Issued(Some(Finite(v)), Some(c), issuer) =>
      UpperTwice(c);
      CentsIffSameValue(v, cents);
    case _ =>
  }

  /** The reference is the text of the first memo that carries data, if that can be decoded. */
  lemma {:induction false} ReferenceIsFirstData(memos: seq<Memo>, t: string)
    ensures ExtractReference(memos) == Some(t) <==> MemoSays(memos, t)
  {
    if memos != [] && memos[0] == NoData {
      ReferenceIsFirstData(memos[1..], t);
      if ExtractReference(memos) == Some(t) {
        var k :| 0 <= k < |memos[1..]| && memos[1..][k] == Text(t) && forall j :: 0 <= j < k ==>
          memos[1..][j] == NoData;
        assert memos[k + 1] == Text(t) && forall j :: 0 <= j < k + 1 ==> j == 0 || memos[j] == memos[1..][j - 1];
      }
      if k :| 0 <= k < |memos| && memos[k] == Text(t) && forall j :: 0 <= j < k ==> memos[j] == NoData {
        assert memos[1..][k - 1] == Text(t) && forall j :: 0 <= j < k - 1 ==> memos[1..][j] == memos[j + 1];
      }
    } else if memos != [] && ExtractReference(memos) == Some(t) {
      assert memos[0] == Text(t);
    }
  }

  predicate Blank(field: Option<string>) {
    field.Some? ==> field.value == ""
  }

  /** A transaction that is no payment, or is not complete, is skipped; one that is complete never is. */
  lemma SkippedIff(s: Store, tx: Tx, now: int, dbNow: int, ids: seq<DeliveryId>)
    ensures Process(s, tx, now, dbNow, ids).1 == Skipped
       <==> || tx.kind != "Payment"
            || !(exists t :: MemoSays(tx.memos, t))
            || tx.amount == Unsupported
            || (tx.amount.Issued? && (tx.amount.value == None || tx.amount.currency == None))
            || (&& tx.amount != Drops(Garbage) && (tx.amount.Issued? ==> tx.amount.value != Some(Garbage))
                && (Blank(tx.destination) || (Blank(tx.hash) && Blank(tx.altHash))))
    ensures Process(s, tx, now, dbNow, ids).1.Processed? || Process(s, tx, now, dbNow, ids).0 == s
  {
    hide ExtractReference, Detect, SchemaAccepts;
    if ExtractReference(tx.memos).Some? {
      ReferenceIsFirstData(tx.memos, ExtractReference(tx.memos).value);
    }
    forall t | MemoSays(tx.memos, t) ensures ExtractReference(tx.memos) == Some(t) {
      ReferenceIsFirstData(tx.memos, t);
    }
    if tx.kind == "Payment" && Parse(tx).Payment? {
      DetectWritesOnMatch(s, Parse(tx).detected, now, dbNow, ids);
    }
  }

  lemma DetectWritesOnMatch(s: Store, d: Detected, now: int, dbNow: int, ids: seq<DeliveryId>)
    requires SchemaAccepts(d)
    ensures Detect(s, d, now, dbNow, ids).1.Matched? || Detect(s, d, now, dbNow, ids).0 == s
  {
    hide Confirm, Matches, SchemaAccepts, ByReference;
    var found := ByReference(s, Upper(d.reference));
    if found.Some? { ConfirmReplies(s, found.value, d.hash, now, dbNow, ids); }
  }

  lemma ParsedFacts(tx: Tx)
    requires Parse(tx).Payment?
    ensures SchemaAccepts(Parse(tx).detected) && Parse(tx).detected.hash != "" && HashIs(tx, Parse(tx).detected.hash)
    ensures Parse(tx).detected.amount.Finite? && AtMostTwoPlaces(Parse(tx).detected.amount.value)
  {
  }

  /** Passing the two-decimal gate with these cents is having that value. */
  lemma CentsIffSameValue(d: Decimal, c: int)
    ensures d.units > 0 && AtMostTwoPlaces(d) && Cents(d) == c <==> c > 0 && SameValue(d, Decimal(c, 2))
  {
    GatedIffWhole(d, c);
  }

  /** An XRP payment of a whole number of drops pays exactly the intents of drops / 10000 cents. */
  lemma DropsPayExactly(s: Store, tx: Tx, drops: int, i: IntentId, now: int, dbNow: int, ids: seq<DeliveryId>)
    requires UniqueReferences(s) && tx.amount == Drops(Finite(Decimal(drops, 0)))
    requires Process(s, tx, now, dbNow, ids).1 == Processed(i)
    ensures i in s.intents && drops == 10000 * s.intents[i].cents
  {
    hide Process, FreshIds, EnabledCount;
    ProcessedIffPaid(s, tx, i, now, dbNow, ids);
  }
}
