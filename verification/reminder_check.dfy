/** `verificarLembretes`: compute the key of the date ten days ahead, query the
    undelivered reminders with that key, and for each one call the WhatsApp
    sender and then mark the document delivered. The per-document callbacks
    run one after another here. */
module ReminderCheck {
  import opened Wrappers
  import opened CivilDate
  import opened Digits
  import opened IsoFormat
  import opened JsValues
  import opened Reminders
  import opened WhatsApp

  /** How many days ahead of today a reminder is sent. */
  const LeadDays: nat := 10

  /** The civil date the scan looks for. */
  function TargetDate(today: Date): (target: Date)
    requires Valid(today)
    ensures Valid(target)
    ensures DayNumber(target) == DayNumber(today) + LeadDays
  {
    AddDaysNumber(today, LeadDays);
    AddDays(today, LeadDays)
  }

  /** `dataFormatada`: the key the query compares `data` with. */
  function TargetKey(today: Date): (key: string)
    requires Valid(today)
    ensures ParseIso(key) == Some(TargetDate(today))
  {
    FormatParseRoundTrip(TargetDate(today));
    FormatIso(TargetDate(today))
  }

  predicate Distinct(ids: seq<Id>) {
    forall i, j :: 0 <= i < j < |ids| ==> ids[i] != ids[j]
  }

  /** The query's snapshot: every document whose `data` equals `key` and whose
      `enviado` is false, each once, in an order the store chooses. */
  method QueryDue(store: Store, key: string) returns (snapshot: seq<Id>)
    ensures Distinct(snapshot)
    ensures forall id :: id in snapshot <==> id in store && IsDue(store[id], key)
  {
    snapshot := [];
    var rest := store.Keys;
    while rest != {}
      invariant rest <= store.Keys
      invariant Distinct(snapshot)
      invariant forall id :: id in snapshot <==> id in store && id !in rest && IsDue(store[id], key)
      decreases rest
    {
      var id :| id in rest;
      if IsDue(store[id], key) {
        snapshot := snapshot + [id];
      }
      rest := rest - {id};
    }
  }

  /** One callback of the scan: the send attempt for a document and the report
      it produced. */
  datatype Attempt = Attempt(id: Id, report: SendReport)

  datatype ScanResult = ScanResult(store: Store, attempts: seq<Attempt>)

  function AttemptIds(attempts: seq<Attempt>): (ids: seq<Id>)
    ensures |ids| == |attempts|
    ensures forall i :: 0 <= i < |attempts| ==> ids[i] == attempts[i].id
  {
    seq(|attempts|, i requires 0 <= i < |attempts| => attempts[i].id)
  }

  lemma MarkOneMore(store: Store, done: set<Id>, id: Id)
    requires id in store
    ensures MarkDelivered(store, done + {id})
         == MarkDelivered(store, done)[id := store[id].(enviado := true)]
  {
  }

  /** The body of `snapshot.forEach`, run for each document in turn: the send
      attempt, then the update of `enviado`, whatever the attempt reported. */
  method ProcessSnapshot(store: Store, snapshot: seq<Id>, ready: bool, sendFails: Id -> bool)
    returns (r: ScanResult)
    requires forall id :: id in snapshot ==> id in store
    ensures r.store == MarkDelivered(store, set j | 0 <= j < |snapshot| :: snapshot[j])
    ensures |r.attempts| == |snapshot|
    ensures forall j :: 0 <= j < |snapshot| ==>
      r.attempts[j] == Attempt(snapshot[j], SendWhatsApp(store[snapshot[j]].produto, ready, sendFails(snapshot[j])))
  {
    var current := store;
    var attempts: seq<Attempt> := [];
    for i := 0 to |snapshot|
      invariant current == MarkDelivered(store, set j | 0 <= j < i :: snapshot[j])
      invariant |attempts| == i
      invariant forall j :: 0 <= j < i ==>
        attempts[j] == Attempt(snapshot[j], SendWhatsApp(store[snapshot[j]].produto, ready, sendFails(snapshot[j])))
    {
      var id := snapshot[i];
      var report := SendWhatsApp(store[id].produto, ready, sendFails(id));
      MarkOneMore(store, set j | 0 <= j < i :: snapshot[j], id);
      assert (set j | 0 <= j < i + 1 :: snapshot[j]) == (set j | 0 <= j < i :: snapshot[j]) + {id};
      current := current[id := current[id].(enviado := true)];
      attempts := attempts + [Attempt(id, report)];
    }
    r := ScanResult(current, attempts);
  }

  /** One run of the scan. `ready` says whether the WhatsApp client exists,
      `sendFails` which documents' sends reject, `queryFails` whether the query
      rejects. A failed query is caught and logged and changes nothing;
      otherwise every selected document gets exactly one send attempt and is
      then marked delivered, whatever the attempt reported. */
  method CheckReminders(today: Date, store: Store, ready: bool, sendFails: Id -> bool, queryFails: bool)
    returns (r: ScanResult)
    requires Valid(today)
    ensures queryFails ==> r.store == store && r.attempts == []
    ensures !queryFails ==> r.store == ScanTransition(store, TargetKey(today))
    ensures DueIds(store, TargetKey(today)) == {} ==> r.store == store && r.attempts == []
    ensures Distinct(AttemptIds(r.attempts))
    ensures forall a :: a in r.attempts <==>
      && !queryFails
      && a.id in DueIds(store, TargetKey(today))
      && a.report == SendWhatsApp(store[a.id].produto, ready, sendFails(a.id))
  {
    if queryFails {
      return ScanResult(store, []);
    }
    var key := TargetKey(today);
    var snapshot := QueryDue(store, key);
    if |snapshot| == 0 {
      assert DueIds(store, key) == {};
      EmptySelectionNoChange(store, key);
      return ScanResult(store, []);
    }
    assert (set j | 0 <= j < |snapshot| :: snapshot[j]) == DueIds(store, key);
    assert snapshot[0] in DueIds(store, key);
    r := ProcessSnapshot(store, snapshot, ready, sendFails);
    AttemptsCoverSelection(store, key, snapshot, r.attempts, ready, sendFails);
  }

  /** The attempts made for a snapshot of the selection are one per selected
      document, in snapshot order, each with the report of its own send. */
  lemma AttemptsCoverSelection(store: Store, key: string, snapshot: seq<Id>, attempts: seq<Attempt>,
                               ready: bool, sendFails: Id -> bool)
    requires forall id :: id in snapshot <==> id in DueIds(store, key)
    requires |attempts| == |snapshot|
    requires forall j :: 0 <= j < |snapshot| ==>
      attempts[j] == Attempt(snapshot[j], SendWhatsApp(store[snapshot[j]].produto, ready, sendFails(snapshot[j])))
    ensures AttemptIds(attempts) == snapshot
    ensures forall a :: a in attempts <==>
      && a.id in DueIds(store, key)
      && a.report == SendWhatsApp(store[a.id].produto, ready, sendFails(a.id))
  {
    assert forall a :: a in attempts <==> exists j :: 0 <= j < |snapshot| && a == attempts[j];
    assert AttemptIds(attempts) == snapshot;
  }

  /** When every stored document came through intake, the message sent for a
      selected document names a non-empty product. */
  lemma SelectedMessageNamesProduct(store: Store, key: string, id: Id)
    requires WellFormed(store)
    requires id in DueIds(store, key)
    ensures var named := ProductInMessage(MessageText(store[id].produto));
      named.Some? && |named.value| > 0
  {
    MessageRoundTrip(store[id].produto);
  }

  /** A due reminder is undelivered and its `data` is the key of the date
      exactly ten days after today, spelled as FormatIso spells it. A text that
      merely parses to that date (`+002024-06-10` for 2024-06-10) is not
      selected, since the query compares strings. */
  lemma DueIsTenDaysAhead(store: Store, today: Date, id: Id)
    requires Valid(today)
    requires id in DueIds(store, TargetKey(today))
    ensures !store[id].enviado
    ensures exists e :: Valid(e) && DayNumber(e) == DayNumber(today) + LeadDays
                        && store[id].data == Str(FormatIso(e))
    ensures store[id].data.Str? && ParseIso(store[id].data.s) == Some(TargetDate(today))
  {
    var e := TargetDate(today);
    assert Valid(e) && DayNumber(e) == DayNumber(today) + LeadDays && store[id].data == Str(FormatIso(e));
  }

  /** The converse: an undelivered reminder stored with the key of the date
      ten days after today is due on today's scan. */
  lemma TenDaysAheadIsDue(store: Store, today: Date, id: Id, e: Date)
    requires Valid(today) && Valid(e)
    requires id in store && !store[id].enviado && store[id].data == Str(FormatIso(e))
    requires DayNumber(e) == DayNumber(today) + LeadDays
    ensures id in DueIds(store, TargetKey(today))
  {
    AddDaysExact(today, LeadDays, e);
  }

  lemma YearText2024()
    ensures YearText(2024) == "2024"
  {
    assert NatToDigits(2) == "2";
    assert NatToDigits(20) == "20";
    assert NatToDigits(202) == "202";
    assert NatToDigits(2024) == "2024";
  }

  lemma Key20240610()
    ensures FormatIso(Date(2024, 6, 10)) == "2024-06-10"
  {
    YearText2024();
    var m := PadLeft(6, 2);
    var d := PadLeft(10, 2);
    assert m == "06" by {
      assert Zeros(1) == "0";
    }
    assert d == "10" by {
      assert NatToDigits(1) == "1";
    }
    assert FormatIso(Date(2024, 6, 10)) == YearText(2024) + "-" + m + "-" + d;
  }

  /** A scan on 2024-05-31 looks for 2024-06-10; the next day's scan looks for
      2024-06-11 and so no longer selects a reminder for 2024-06-10. */
  lemma EndOfMonthExample()
    ensures TargetDate(Date(2024, 5, 31)) == Date(2024, 6, 10)
    ensures TargetKey(Date(2024, 5, 31)) == "2024-06-10"
    ensures TargetKey(Date(2024, 6, 1)) != "2024-06-10"
  {
    assert AddDays(Date(2024, 6, 1), 9) == Date(2024, 6, 10);
    assert TargetDate(Date(2024, 6, 1)) == Date(2024, 6, 11);
    Key20240610();
    FormatInjective(Date(2024, 6, 11), Date(2024, 6, 10));
  }

  lemma YearEndExample()
    ensures TargetDate(Date(2024, 12, 25)) == Date(2025, 1, 4)
  {
    assert AddDays(Date(2025, 1, 1), 3) == Date(2025, 1, 4);
  }

  lemma LeapFebruaryExamples()
    ensures TargetDate(Date(2024, 2, 25)) == Date(2024, 3, 6)
    ensures TargetDate(Date(2000, 2, 25)) == Date(2000, 3, 6)
  {
    assert AddDays(Date(2024, 3, 1), 5) == Date(2024, 3, 6);
    assert AddDays(Date(2000, 3, 1), 5) == Date(2000, 3, 6);
  }

  lemma CommonFebruaryExamples()
    ensures TargetDate(Date(2023, 2, 25)) == Date(2023, 3, 7)
    ensures TargetDate(Date(1900, 2, 25)) == Date(1900, 3, 7)
  {
    assert AddDays(Date(2023, 3, 1), 6) == Date(2023, 3, 7);
    assert AddDays(Date(1900, 3, 1), 6) == Date(1900, 3, 7);
  }

  /** Ten days after 2024-12-25 is 2025-01-04; across February, leap years
      (2024, 2000) and common years (2023, 1900) give different dates. */
  lemma RollOverExamples()
    ensures TargetDate(Date(2024, 12, 25)) == Date(2025, 1, 4)
    ensures TargetDate(Date(2024, 2, 25)) == Date(2024, 3, 6)
    ensures TargetDate(Date(2023, 2, 25)) == Date(2023, 3, 7)
    ensures TargetDate(Date(2000, 2, 25)) == Date(2000, 3, 6)
    ensures TargetDate(Date(1900, 2, 25)) == Date(1900, 3, 7)
  {
    YearEndExample();
    LeapFebruaryExamples();
    CommonFebruaryExamples();
  }
}
