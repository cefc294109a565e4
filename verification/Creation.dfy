/**
 * Idempotent creation, split where other calls can come between: the first
 * lookup, the insert against the unique constraints, and the second lookup
 * after an integrity error.
 */
module Creation {
  import opened Common
  import opened Money
  import opened Fingerprint
  import opened Store
  import opened Database
  import R = Ranking
  import W = WebhookDelivery
  import X = XrplPayments

  type CallId = int

  /** Where a call stands; `keyTaken` tells whether its insert met the unique key. */
  datatype Stage =
    | Looking
    | Inserting
    | Rechecking(keyTaken: bool)
    | Returned(intent: IntentId, created: bool)
    | Conflicted
    | Raised

  datatype Call = Call(merchant: MerchantId, key: Option<string>, request: Request, startedAt: int, stage: Stage)

  function Begin(m: MerchantId, key: Option<string>, r: Request, now: int): Call {
    Call(m, key, r, now, if key.Some? then Looking else Inserting)
  }

  function FingerprintOf(c: Call): Option<string>
    requires Accepted(c.request)
  {
    if c.key.Some? then Some(CanonicalText(c.request)) else None
  }

  function ExpiresAt(c: Call): int {
    c.startedAt + c.request.lifetime * W.SECOND
  }

  function NewIntent(c: Call, reference: string, dbNow: int): Intent
    requires Accepted(c.request)
  {
    Intent(c.merchant, reference, Cents(c.request.amount), Upper(c.request.currency), c.request.description,
           c.request.destination, Pending, None, ExpiresAt(c), None, None, c.key, FingerprintOf(c), dbNow)
  }

  /** scalar_one_or_none: the merchant's row with an idempotency key, which is unique. */
  function ByKey(s: Store, m: MerchantId, key: string): (r: Option<IntentId>)
    ensures r.Some? ==> r.value in s.intents && s.intents[r.value].merchant == m && s.intents[r.value].key == Some(key)
    ensures r.None? ==> forall i <- s.intents :: s.intents[i].merchant == m ==> s.intents[i].key != Some(key)
  {
    var hits := set i <- s.intents | s.intents[i].merchant == m && s.intents[i].key == Some(key) :: R.Key(0, 0, 0, i);
    if hits == {} then
      assert forall i <- s.intents :: s.intents[i].merchant == m && s.intents[i].key == Some(key) ==>
        R.Key(0, 0, 0, i) in hits;
      None
    else Some(R.Least(hits).id)
  }

  /** The stage after a lookup; `missing` is where a call goes that finds no row. */
  function Lookup(s: Store, c: Call, missing: Stage): Stage
    requires Accepted(c.request) && c.key.Some?
  {
    match ByKey(s, c.merchant, c.key.value)
    case None => missing
    case Some(i) => if s.intents[i].fingerprint == FingerprintOf(c) then Returned(i, false) else Conflicted
  }

  predicate KeyTaken(s: Store, c: Call) {
    c.key.Some? && ByKey(s, c.merchant, c.key.value).Some?
  }

  function Insert(s: Store, c: Call, id: IntentId, reference: string, dbNow: int): (Store, Stage)
    requires Accepted(c.request)
  {
    if KeyTaken(s, c) || id in s.intents || X.ByReference(s, reference).Some? then
      (s, if c.key.None? then Raised else Rechecking(KeyTaken(s, c)))
    else
      (s.(intents := s.intents[id := NewIntent(c, reference, dbNow)]), Returned(id, true))
  }

  /** A whole call, with the rows other calls had committed by its insert and by its second lookup. */
  function WholeCall(s: Store, c: Call, atInsert: Store, atRecheck: Store, id: IntentId, reference: string,
                     dbNow: int): (Store, Stage)
    requires Accepted(c.request)
  {
    var first := if c.key.Some? then Lookup(s, c, Inserting) else Inserting;
    if first != Inserting then (s, first)
    else
      var (t, second) := Insert(atInsert, c, id, reference, dbNow);
      if !second.Rechecking? then (t, second) else (atRecheck, Lookup(atRecheck, c, Raised))
  }

  /** No row has the merchant and the key of the call; a call without a key is always free of one. */
  ghost predicate KeyUnused(s: Store, c: Call) {
    c.key.Some? ==> forall i <- s.intents :: !(s.intents[i].merchant == c.merchant && s.intents[i].key == c.key)
  }

  /** The three unique constraints of the table have room for the row. */
  ghost predicate RoomFor(s: Store, c: Call, id: IntentId, reference: string) {
    KeyUnused(s, c) && id !in s.intents && forall i <- s.intents :: s.intents[i].reference != reference
  }

  /** The row a call orders, column by column. */
  ghost predicate AsOrdered(row: Intent, c: Call, reference: string, dbNow: int)
    requires Accepted(c.request)
  {
    && row.merchant == c.merchant && row.reference == reference && row.status == Pending
    && SameValue(Decimal(row.cents, 2), c.request.amount) && row.currency == Upper(c.request.currency)
    && row.description == c.request.description && row.destination == c.request.destination
    && row.hash == None && row.cancelledAt == None && row.reason == None
    && row.expiresAt == c.startedAt + c.request.lifetime * 1_000_000 && row.createdAt == dbNow
    && row.key == c.key && row.fingerprint == (if c.key.Some? then Some(CanonicalText(c.request)) else None)
  }

  /** An insert creates its row exactly when the constraints have room for it, and changes no other row. */
  lemma InsertCreatesIff(s: Store, c: Call, id: IntentId, reference: string, dbNow: int)
    requires Accepted(c.request)
    ensures
      var (t, stage) := Insert(s, c, id, reference, dbNow);
      && (stage == Returned(id, true) <==> RoomFor(s, c, id, reference))
      && (RoomFor(s, c, id, reference) ==>
            && id in t.intents && AsOrdered(t.intents[id], c, reference, dbNow)
            && t == s.(intents := t.intents) && t.intents - {id} == s.intents)
      && (!RoomFor(s, c, id, reference) ==>
            && t == s
            && stage == if c.key.None? then Raised else Rechecking(!KeyUnused(s, c)))
  {
    hide CanonicalText, SameValue, Cents, Upper;
    GateIsExact(c.request.amount);
    if c.key.Some? {
      KeyOwner(s, c.merchant, c.key.value);
    }
  }

  /** A lookup goes on exactly when no row has the key; else it returns the row or reports the conflict. */
  lemma LookupMissesIff(s: Store, c: Call, missing: Stage)
    requires Accepted(c.request) && c.key.Some? && missing in {Inserting, Raised}
    ensures Lookup(s, c, missing) == missing <==> KeyUnused(s, c)
    ensures UniqueKeys(s) ==>
              forall i <- s.intents :: s.intents[i].merchant == c.merchant && s.intents[i].key == c.key ==>
                Lookup(s, c, missing)
                == if s.intents[i].fingerprint == Some(CanonicalText(c.request)) then Returned(i, false) else Conflicted
  {
    hide CanonicalText;
    KeyOwner(s, c.merchant, c.key.value);
  }

  /** A whole call creates its row exactly when its first lookup found no row with its key and its insert has room. */
  lemma WholeCallCreatesIff(s: Store, c: Call, atInsert: Store, atRecheck: Store, id: IntentId, reference: string,
                            dbNow: int)
    requires Accepted(c.request)
    ensures
      var (t, stage) := WholeCall(s, c, atInsert, atRecheck, id, reference, dbNow);
      && (stage == Returned(id, true) <==> KeyUnused(s, c) && RoomFor(atInsert, c, id, reference))
      && (stage == Returned(id, true) ==> id in t.intents && AsOrdered(t.intents[id], c, reference, dbNow))
  {
    hide Insert, Lookup, KeyUnused, AsOrdered;
    InsertCreatesIff(atInsert, c, id, reference, dbNow);
    if c.key.Some? {
      LookupMissesIff(s, c, Inserting);
      LookupMissesIff(atRecheck, c, Raised);
      NeverCreated(s, c, Inserting);
      NeverCreated(atRecheck, c, Raised);
    } else {
      KeylessIsUnused(s, c);
    }
  }

  /**
   * The other ends of a whole call: what the rows with its key say at its
   * first lookup or, when its insert found no room, at its second; a call
   * without a key, or with none of them there, raises.
   */
  lemma WholeCallReplies(s: Store, c: Call, atInsert: Store, atRecheck: Store, id: IntentId, reference: string,
                         dbNow: int, i: IntentId)
    requires Accepted(c.request) && UniqueKeys(s) && UniqueKeys(atRecheck)
    ensures
      var (t, stage) := WholeCall(s, c, atInsert, atRecheck, id, reference, dbNow);
      && (!KeyUnused(s, c) ==> t == s && (HasKey(s, c, i) ==> stage == KeyAnswer(s, c, i)))
      && (KeyUnused(s, c) && !RoomFor(atInsert, c, id, reference) ==>
            if c.key.None? then t == atInsert && stage == Raised
            else t == atRecheck && (HasKey(atRecheck, c, i) ==> stage == KeyAnswer(atRecheck, c, i))
                 && (KeyUnused(atRecheck, c) ==> stage == Raised))
  {
    hide Insert, Lookup, RoomFor, CanonicalText;
    InsertCreatesIff(atInsert, c, id, reference, dbNow);
    if c.key.Some? {
      LookupMissesIff(s, c, Inserting);
      LookupMissesIff(atRecheck, c, Raised);
    }
  }

  ghost predicate HasKey(s: Store, c: Call, i: IntentId) {
    c.key.Some? && i in s.intents && s.intents[i].merchant == c.merchant && s.intents[i].key == c.key
  }

  /** The answer to a call whose key row `i` has. */
  ghost function KeyAnswer(s: Store, c: Call, i: IntentId): Stage
    requires Accepted(c.request) && i in s.intents
  {
    if s.intents[i].fingerprint == Some(CanonicalText(c.request)) then Returned(i, false) else Conflicted
  }

  lemma NeverCreated(s: Store, c: Call, missing: Stage)
    requires Accepted(c.request) && c.key.Some? && missing in {Inserting, Raised}
    ensures !(Lookup(s, c, missing).Returned? && Lookup(s, c, missing).created)
  {
    hide ByKey, CanonicalText;
  }

  lemma KeylessIsUnused(s: Store, c: Call)
    requires c.key.None?
    ensures KeyUnused(s, c)
  {
  }

  method CreatePaymentIntent(db: Session, c: Call, atInsert: Store, atRecheck: Store, id: IntentId, reference: string,
                             dbNow: int)
    returns (stage: Stage)
    requires db.Clean() && Accepted(c.request)
    modifies db
    ensures db.Clean()
    ensures (db.committed, stage) == WholeCall(old(db.committed), c, atInsert, atRecheck, id, reference, dbNow)
    ensures stage == Returned(id, true) <==> KeyUnused(old(db.committed), c) && RoomFor(atInsert, c, id, reference)
    ensures stage == Returned(id, true) ==>
              id in db.committed.intents && AsOrdered(db.committed.intents[id], c, reference, dbNow)
  {
    hide KeyUnused, RoomFor, AsOrdered, CanonicalText;
    WholeCallCreatesIff(db.committed, c, atInsert, atRecheck, id, reference, dbNow);
    var fingerprint := None;
    if c.key.Some? {
      fingerprint := Some(CanonicalText(c.request));
      var existing := ByKey(db.working, c.merchant, c.key.value);
      if existing.Some? {
        return if db.working.intents[existing.value].fingerprint == fingerprint then Returned(existing.value, false)
          else Conflicted;
      }
    }
    var row := NewIntent(c, reference, dbNow);
    db.Observe(atInsert);
    var refused := KeyTaken(db.working, c) || id in db.working.intents || X.ByReference(db.working, reference).Some?;
    if !refused {
      db.working := db.working.(intents := db.working.intents[id := row]);
      db.Commit();
      return Returned(id, true);
    }
    db.Rollback();
    if c.key.None? {
      return Raised;
    }
    db.Observe(atRecheck);
    var concurrent := ByKey(db.working, c.merchant, c.key.value);
    if concurrent.None? {
      return Raised;
    }
    return if db.working.intents[concurrent.value].fingerprint == fingerprint then Returned(concurrent.value, false)
      else Conflicted;
  }

  // ------------------------------------------------------------- invariants

  ghost predicate UniqueKeys(s: Store) {
    forall i, j ::
      && i in s.intents && j in s.intents && s.intents[i].key.Some?
      && s.intents[i].merchant == s.intents[j].merchant && s.intents[i].key == s.intents[j].key
      ==> i == j
  }

  /** What a call has learned is, and stays, what the rows say. */
  ghost predicate CallOk(s: Store, c: Call) {
    && Accepted(c.request)
    && (c.stage in {Looking, Rechecking(true), Rechecking(false), Conflicted} ==> c.key.Some?)
    && (c.stage == Rechecking(true) ==> KeyTaken(s, c))
    && (c.stage == Conflicted ==> exists i :: Refutes(s, c, i))
    && (c.stage.Returned? ==> Answers(s, c, c.stage.intent) && (c.key.None? ==> c.stage.created))
    && (c.stage.Returned? && c.stage.created ==> Ordered(s, c, c.stage.intent))
  }

  /** The row says what the call asked for. */
  ghost predicate Ordered(s: Store, c: Call, i: IntentId) {
    && i in s.intents
    && s.intents[i].cents == Cents(c.request.amount) && s.intents[i].currency == Upper(c.request.currency)
    && s.intents[i].description == c.request.description && s.intents[i].destination == c.request.destination
    && s.intents[i].expiresAt == ExpiresAt(c)
  }

  /** The row a keyed call must not be given: same merchant and key, another payload. */
  ghost predicate Refutes(s: Store, c: Call, i: IntentId)
    requires Accepted(c.request)
  {
    && i in s.intents && s.intents[i].merchant == c.merchant && s.intents[i].key == c.key
    && s.intents[i].fingerprint != FingerprintOf(c)
  }

  /** The row a call may be given. */
  ghost predicate Answers(s: Store, c: Call, i: IntentId)
    requires Accepted(c.request)
  {
    && i in s.intents && s.intents[i].merchant == c.merchant && s.intents[i].key == c.key
    && s.intents[i].fingerprint == FingerprintOf(c)
  }

  predicate Made(calls: map<CallId, Call>, c: CallId, i: IntentId) {
    c in calls && calls[c].stage == Returned(i, true)
  }

  ghost predicate CallsOk(s: Store, calls: map<CallId, Call>) {
    && X.UniqueReferences(s) && UniqueKeys(s)
    && (forall c <- calls :: CallOk(s, calls[c]))
    && (forall i <- s.intents :: exists c :: Made(calls, c, i))
    && (forall c, d, i :: Made(calls, c, i) && Made(calls, d, i) ==> c == d)
  }

  /** Steps that insert no intent cannot disturb any call. */
  lemma CallsOkEvolves(s: Store, t: Store, calls: map<CallId, Call>)
    requires CallsOk(s, calls) && Evolves(s, t) && t.intents.Keys == s.intents.Keys
    ensures CallsOk(t, calls)
  {
    forall c <- calls ensures CallOk(t, calls[c]) {
      CallOkOutlasts(s, t, calls[c]);
    }
    forall i, j | i in t.intents && j in t.intents && t.intents[i].reference == t.intents[j].reference ensures i == j {
      assert IntentEvolves(s.intents[i], t.intents[i]) && IntentEvolves(s.intents[j], t.intents[j]);
    }
    forall i, j | i in t.intents && j in t.intents && t.intents[i].key.Some?
                  && t.intents[i].merchant == t.intents[j].merchant && t.intents[i].key == t.intents[j].key
      ensures i == j
    {
      assert IntentEvolves(s.intents[i], t.intents[i]) && IntentEvolves(s.intents[j], t.intents[j]);
    }
  }

  lemma CallOkOutlasts(s: Store, t: Store, c: Call)
    requires CallOk(s, c) && Evolves(s, t)
    ensures CallOk(t, c)
  {
    hide ByKey, CanonicalText;
    if c.stage == Conflicted {
      var i :| Refutes(s, c, i);
      assert IntentEvolves(s.intents[i], t.intents[i]);
      assert Refutes(t, c, i);
    }
    if c.stage == Rechecking(true) {
      var i := ByKey(s, c.merchant, c.key.value).value;
      KeyOwner(s, c.merchant, c.key.value);
      assert IntentEvolves(s.intents[i], t.intents[i]);
      KeyOwner(t, c.merchant, c.key.value);
    }
    if c.stage.Returned? {
      assert IntentEvolves(s.intents[c.stage.intent], t.intents[c.stage.intent]);
    }
  }

  lemma KeyOwner(s: Store, m: MerchantId, key: string)
    ensures
      var r := ByKey(s, m, key);
      && (r.Some? ==> r.value in s.intents && s.intents[r.value].merchant == m && s.intents[r.value].key == Some(key))
      && (r.None? ==> forall i <- s.intents :: s.intents[i].merchant == m ==> s.intents[i].key != Some(key))
  {
  }

  /** A lookup learns only what the rows say; after a key collision it always finds the row. */
  lemma LookupFacts(s: Store, c: Call, missing: Stage)
    requires CallOk(s, c) && c.key.Some? && missing in {Inserting, Raised}
    ensures CallOk(s, c.(stage := Lookup(s, c, missing)))
    ensures c.stage == Rechecking(true) ==> Lookup(s, c, missing) != missing
    ensures !(Lookup(s, c, missing).Returned? && Lookup(s, c, missing).created)
  {
    hide CanonicalText;
    var after := c.(stage := Lookup(s, c, missing));
    KeyOwner(s, c.merchant, c.key.value);
    if after.stage == Conflicted {
      assert Refutes(s, after, ByKey(s, c.merchant, c.key.value).value);
    }
  }

  /** The insert of one call, seen from all of them. */
  lemma InsertFacts(s: Store, calls: map<CallId, Call>, c: CallId, id: IntentId, reference: string, dbNow: int)
    requires CallsOk(s, calls) && OutboxOk(s) && (forall i <- s.intents :: IntentOk(s.intents[i]))
    requires c in calls && calls[c].stage == Inserting
    ensures
      var (t, stage) := Insert(s, calls[c], id, reference, dbNow);
      && CallsOk(t, calls[c := calls[c].(stage := stage)]) && Evolves(s, t) && StoreOk(t)
      && t == s.(intents := t.intents)
      && (t != s ==> id !in s.intents && t.intents == s.intents[id := NewIntent(calls[c], reference, dbNow)])
  {
    hide CanonicalText, ByKey, X.ByReference;
    var (t, stage) := Insert(s, calls[c], id, reference, dbNow);
    var after := calls[c := calls[c].(stage := stage)];
    InsertEvolves(s, calls[c], id, reference, dbNow);
    if stage == Returned(id, true) {
      forall d <- after ensures CallOk(t, after[d]) {
        if d != c { CallOkOutlasts(s, t, calls[d]); }
      }
      InsertKeepsUnique(s, calls[c], id, reference, dbNow);
      forall i <- t.intents ensures exists d :: Made(after, d, i) {
        if i == id {
          assert Made(after, c, id);
        } else {
          var d :| Made(calls, d, i);
          assert Made(after, d, i);
        }
      }
      forall d, e, i | Made(after, d, i) && Made(after, e, i) ensures d == e {
        assert d != c ==> CallOk(s, calls[d]) && Made(calls, d, i);
        assert e != c ==> CallOk(s, calls[e]) && Made(calls, e, i);
      }
    } else {
      StageKeepsCalls(s, calls, c, stage);
    }
  }

  /** A call that moves on without inserting leaves the makers of all rows as they were. */
  lemma StageKeepsCalls(s: Store, calls: map<CallId, Call>, c: CallId, stage: Stage)
    requires CallsOk(s, calls) && c in calls && !(calls[c].stage.Returned? && calls[c].stage.created)
    requires CallOk(s, calls[c].(stage := stage)) && !(stage.Returned? && stage.created)
    ensures CallsOk(s, calls[c := calls[c].(stage := stage)])
  {
    hide CallOk, X.UniqueReferences, UniqueKeys;
    var after := calls[c := calls[c].(stage := stage)];
    forall d, i ensures Made(after, d, i) <==> Made(calls, d, i) {
    }
    forall i <- s.intents ensures exists d :: Made(after, d, i) {
      var d :| Made(calls, d, i);
      assert Made(after, d, i);
    }
  }

  lemma InsertEvolves(s: Store, c: Call, id: IntentId, reference: string, dbNow: int)
    requires Accepted(c.request) && StoreOk(s)
    ensures Evolves(s, Insert(s, c, id, reference, dbNow).0) && StoreOk(Insert(s, c, id, reference, dbNow).0)
  {
    hide CanonicalText, ByKey, X.ByReference, OutboxOk;
    var t := Insert(s, c, id, reference, dbNow).0;
    if t != s {
      PendingRowKeepsOutbox(s, id, NewIntent(c, reference, dbNow));
    }
  }

  lemma PendingRowKeepsOutbox(s: Store, id: IntentId, row: Intent)
    requires OutboxOk(s) && id !in s.intents && row.status == Pending
    ensures OutboxOk(s.(intents := s.intents[id := row]))
  {
    var t := s.(intents := s.intents[id := row]);
    forall d <- t.deliveries ensures DeliveryOk(t, d) {
      assert DeliveryOk(s, d);
    }
    forall i <- t.fanout, e | e in t.fanout[i] ensures Served(t, i, e) {
      assert Served(s, i, e);
      var d :| IsFor(s, d, i, e);
      assert IsFor(t, d, i, e);
    }
    forall d, d', i, e | IsFor(t, d, i, e) && IsFor(t, d', i, e) ensures d == d' {
      assert IsFor(s, d, i, e) && IsFor(s, d', i, e);
    }
  }

  lemma InsertKeepsUnique(s: Store, c: Call, id: IntentId, reference: string, dbNow: int)
    requires Accepted(c.request) && X.UniqueReferences(s) && UniqueKeys(s)
    ensures X.UniqueReferences(Insert(s, c, id, reference, dbNow).0)
    ensures UniqueKeys(Insert(s, c, id, reference, dbNow).0)
  {
    hide CanonicalText;
  }

  // ---------------------------------------------------------------- results

  /** All answers to one key of one merchant are the same intent, and for the same order. */
  lemma AnswersAgree(s: Store, calls: map<CallId, Call>, c: CallId, d: CallId)
    requires CallsOk(s, calls) && c in calls && d in calls
    requires calls[c].stage.Returned? && calls[d].stage.Returned?
    requires calls[c].key.Some? && calls[c].key == calls[d].key && calls[c].merchant == calls[d].merchant
    ensures calls[c].stage.intent == calls[d].stage.intent
    ensures SameOrder(calls[c].request, calls[d].request)
    ensures calls[c].stage.created && calls[d].stage.created ==> c == d
  {
    hide CanonicalText;
    assert CallOk(s, calls[c]) && CallOk(s, calls[d]);
    FingerprintIsCanonical(calls[c].request, calls[d].request);
    var i := calls[c].stage.intent;
    if calls[c].stage.created && calls[d].stage.created {
      assert Made(calls, c, i) && Made(calls, d, i);
    }
  }

  /** Every answered intent was made by exactly one call, for the same merchant, key and order. */
  lemma AnswersHaveOneMaker(s: Store, calls: map<CallId, Call>, c: CallId) returns (maker: CallId)
    requires CallsOk(s, calls) && c in calls && calls[c].stage.Returned?
    ensures Made(calls, maker, calls[c].stage.intent)
    ensures calls[maker].merchant == calls[c].merchant && calls[maker].key == calls[c].key
    ensures calls[c].key.Some? ==> SameOrder(calls[maker].request, calls[c].request)
    ensures forall d :: Made(calls, d, calls[c].stage.intent) ==> d == maker
  {
    hide CanonicalText;
    assert CallOk(s, calls[c]);
    maker :| Made(calls, maker, calls[c].stage.intent);
    assert CallOk(s, calls[maker]);
    if calls[c].key.Some? {
      FingerprintIsCanonical(calls[maker].request, calls[c].request);
    }
  }

  /** Whoever made it, the intent a call is given is worth exactly the amount it asked for, in its currency. */
  lemma AnswersMatchTheOrder(s: Store, calls: map<CallId, Call>, c: CallId)
    requires CallsOk(s, calls) && c in calls && calls[c].stage.Returned?
    ensures
      var i := calls[c].stage.intent;
      && i in s.intents
      && SameValue(Decimal(s.intents[i].cents, 2), calls[c].request.amount)
      && s.intents[i].currency == Upper(calls[c].request.currency)
      && s.intents[i].description == calls[c].request.description
      && s.intents[i].destination == calls[c].request.destination
      && (calls[c].stage.created ==> s.intents[i].expiresAt == ExpiresAt(calls[c]))
  {
    hide CanonicalText;
    assert CallOk(s, calls[c]);
    GateIsExact(calls[c].request.amount);
    if calls[c].key.Some? {
      var maker := AnswersHaveOneMaker(s, calls, c);
      assert CallOk(s, calls[maker]);
      GatedCentsDecide(calls[maker].request.amount, calls[c].request.amount);
    }
  }

  /** A conflict is raised only against a row made for a different order. */
  lemma ConflictsAreReal(s: Store, calls: map<CallId, Call>, c: CallId, d: CallId)
    requires CallsOk(s, calls) && c in calls && calls[c].stage == Conflicted
    requires d in calls && calls[d].stage.Returned? && calls[d].merchant == calls[c].merchant
      && calls[d].key == calls[c].key
    ensures !SameOrder(calls[c].request, calls[d].request)
  {
    hide CanonicalText;
    assert CallOk(s, calls[c]) && CallOk(s, calls[d]);
    var i :| Refutes(s, calls[c], i);
    assert i == calls[d].stage.intent;
    FingerprintIsCanonical(calls[c].request, calls[d].request);
  }

  /** The key of one merchant means nothing to another. */
  lemma KeysAreScoped(s: Store, c: Call, id: IntentId, reference: string, dbNow: int, m: MerchantId, key: string)
    requires Accepted(c.request) && UniqueKeys(s) && m != c.merchant
    ensures ByKey(Insert(s, c, id, reference, dbNow).0, m, key) == ByKey(s, m, key)
  {
    hide ByKey, CanonicalText;
    var t := Insert(s, c, id, reference, dbNow).0;
    KeyOwner(s, m, key);
    KeyOwner(t, m, key);
    var before, after := ByKey(s, m, key), ByKey(t, m, key);
    if before.Some? { assert t.intents[before.value] == s.intents[before.value]; }
    if after.Some? { assert s.intents[after.value] == t.intents[after.value]; }
    assert before.Some? <==> after.Some?;
    assert before.Some? ==> before.value == after.value;
    assert before == after;
  }
}
