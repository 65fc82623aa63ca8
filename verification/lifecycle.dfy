/** The store over a sequence of requests and scans. Intake only adds fresh
    documents and a scan only sets `enviado`, so a delivered reminder never
    changes again and no reminder is selected by two scans. */
module Lifecycle {
  import opened Reminders

  datatype Event =
    | Post(req: Request, id: Id, writeFails: bool)   // a `POST /lembrete`, with the id the store generates
    | Scan(key: string, queryFails: bool)           // one scan looking for `key`

  /** The store generates an id no document has yet. */
  predicate Admissible(store: Store, e: Event) {
    e.Post? ==> e.id !in store
  }

  function Step(store: Store, e: Event): Store
    requires Admissible(store, e)
  {
    match e
    case Post(req, id, writeFails) => CreateReminder(store, req, id, writeFails).store
    case Scan(key, queryFails) => if queryFails then store else ScanTransition(store, key)
  }

  /** The documents an event hands to the sender: a scan's selection. */
  function Selected(store: Store, e: Event): set<Id> {
    if e.Scan? && !e.queryFails then DueIds(store, e.key) else {}
  }

  predicate AdmissibleRun(store: Store, events: seq<Event>)
    decreases |events|
  {
    |events| == 0
    || (Admissible(store, events[0]) && AdmissibleRun(Step(store, events[0]), events[1..]))
  }

  function Run(store: Store, events: seq<Event>): Store
    requires AdmissibleRun(store, events)
    decreases |events|
  {
    if |events| == 0 then store else Run(Step(store, events[0]), events[1..])
  }

  /** The selection of each event of a run, in order. */
  function Selections(store: Store, events: seq<Event>): (sel: seq<set<Id>>)
    requires AdmissibleRun(store, events)
    ensures |sel| == |events|
    decreases |events|
  {
    if |events| == 0 then []
    else [Selected(store, events[0])] + Selections(Step(store, events[0]), events[1..])
  }

  /** A delivered reminder is never changed by any later request or scan. */
  lemma {:induction false} DeliveredStaysDelivered(store: Store, events: seq<Event>, id: Id)
    requires AdmissibleRun(store, events)
    requires id in store && store[id].enviado
    ensures id in Run(store, events) && Run(store, events)[id] == store[id]
    decreases |events|
  {
    if |events| > 0 {
      var next := Step(store, events[0]);
      if events[0].Scan? && !events[0].queryFails {
        ScanTransitionFrame(store, events[0].key);
      }
      assert id in next && next[id] == store[id];
      DeliveredStaysDelivered(next, events[1..], id);
    }
  }

  /** A delivered reminder is in no later scan's selection. */
  lemma {:induction false} NeverReselected(store: Store, events: seq<Event>, id: Id)
    requires AdmissibleRun(store, events)
    requires id in store && store[id].enviado
    ensures forall k :: 0 <= k < |events| ==> id !in Selections(store, events)[k]
    decreases |events|
  {
    if |events| > 0 {
      var next := Step(store, events[0]);
      if events[0].Scan? && !events[0].queryFails {
        ScanTransitionFrame(store, events[0].key);
      }
      assert id in next && next[id] == store[id];
      NeverReselected(next, events[1..], id);
      var sel := Selections(store, events);
      forall k | 0 <= k < |events| ensures id !in sel[k] {
        if k > 0 {
          assert sel[k] == Selections(next, events[1..])[k - 1];
        }
      }
    }
  }

  /** No reminder is selected, and so sent, by two different scans of a run. */
  lemma {:induction false} AtMostOnce(store: Store, events: seq<Event>)
    requires AdmissibleRun(store, events)
    ensures forall i, j :: 0 <= i < j < |events| ==>
      Selections(store, events)[i] !! Selections(store, events)[j]
    decreases |events|
  {
    if |events| > 0 {
      var next := Step(store, events[0]);
      var sel := Selections(store, events);
      var rest := Selections(next, events[1..]);
      AtMostOnce(next, events[1..]);
      if events[0].Scan? && !events[0].queryFails {
        ScanTransitionFrame(store, events[0].key);
      }
      forall id | id in sel[0] ensures forall k :: 0 <= k < |rest| ==> id !in rest[k] {
        NeverReselected(next, events[1..], id);
      }
      forall i, j | 0 <= i < j < |events| ensures sel[i] !! sel[j] {
        assert sel[j] == rest[j - 1];
        if i > 0 {
          assert sel[i] == rest[i - 1];
        }
      }
    }
  }
}
