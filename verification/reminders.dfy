/** The `lembretes` collection as an in-memory map from document id to record,
    the `POST /lembrete` intake, the due query's filter, and the scan's
    state transition. */
module Reminders {
  import opened JsValues

  type Id = string

  /** One stored document: `{ produto, data, enviado }`. */
  datatype Reminder = Reminder(produto: Value, data: Value, enviado: bool)

  type Store = map<Id, Reminder>

  /** The two fields intake reads from the request body. */
  datatype Request = Request(produto: Value, data: Value)

  datatype Response =
    | Created(message: string, id: Id)
    | BadRequest(error: string)
    | ServerError(error: string)
  {
    function Status(): int {
      match this
      case Created(_, _) => 200
      case BadRequest(_) => 400
      case ServerError(_) => 500
    }
  }

  datatype IntakeResult = IntakeResult(store: Store, response: Response)

  const MissingFieldsError := "Produto e data são obrigatórios"
  const CreatedMessage := "Lembrete cadastrado!"
  const CreateFailedError := "Erro ao cadastrar lembrete"

  /** Every stored reminder was admitted by intake: both fields are truthy. */
  predicate WellFormed(store: Store) {
    forall id :: id in store ==> Truthy(store[id].produto) && Truthy(store[id].data)
  }

  /** `POST /lembrete`: reject a body whose `produto` or `data` is falsy with
      400, otherwise add a new undelivered document under the id the store
      generates; a failing write answers 500 and stores nothing. */
  function CreateReminder(store: Store, req: Request, freshId: Id, writeFails: bool): (r: IntakeResult)
    requires freshId !in store
    ensures r.response.Status() == 400 <==> !Truthy(req.produto) || !Truthy(req.data)
    ensures r.response.Status() == 500 <==> Truthy(req.produto) && Truthy(req.data) && writeFails
    ensures r.response.Status() != 200 ==> r.store == store
    ensures r.response.Status() == 200 ==>
      && r.response == Created(CreatedMessage, freshId)
      && r.store.Keys == store.Keys + {freshId}
      && |r.store| == |store| + 1
      && r.store[freshId] == Reminder(req.produto, req.data, false)
      && forall id :: id in store ==> r.store[id] == store[id]
  {
    if !Truthy(req.produto) || !Truthy(req.data) then
      IntakeResult(store, BadRequest(MissingFieldsError))
    else if writeFails then
      IntakeResult(store, ServerError(CreateFailedError))
    else
      IntakeResult(store[freshId := Reminder(req.produto, req.data, false)], Created(CreatedMessage, freshId))
  }

  lemma CreatePreservesWellFormed(store: Store, req: Request, freshId: Id, writeFails: bool)
    requires freshId !in store && WellFormed(store)
    ensures WellFormed(CreateReminder(store, req, freshId, writeFails).store)
  {
  }

  /** The query's filter: `data == key` and `enviado == false`. */
  predicate IsDue(r: Reminder, key: string) {
    r.data == Str(key) && !r.enviado
  }

  /** The documents the query returns. A delivered document is never among
      them, and a document holding another date's key is not either. */
  function DueIds(store: Store, key: string): (ids: set<Id>)
    ensures ids <= store.Keys
    ensures forall id :: id in ids ==> !store[id].enviado && store[id].data == Str(key)
    ensures forall id :: id in store && !store[id].enviado && store[id].data == Str(key) ==> id in ids
  {
    set id | id in store && IsDue(store[id], key)
  }

  /** Sets `enviado` on the documents in `ids`. */
  function MarkDelivered(store: Store, ids: set<Id>): Store {
    map id | id in store :: if id in ids then store[id].(enviado := true) else store[id]
  }

  /** What one scan does to the store: every due document becomes delivered. */
  function ScanTransition(store: Store, key: string): (after: Store)
    ensures after.Keys == store.Keys
    ensures forall id :: id in store ==>
      && after[id].produto == store[id].produto
      && after[id].data == store[id].data
      && (after[id].enviado <==> store[id].enviado || store[id].data == Str(key))
  {
    MarkDelivered(store, DueIds(store, key))
  }

  /** A scan keeps every document, leaves the ones it did not select as they
      were, changes only `enviado` in the ones it selected, and never turns
      `enviado` back to false. */
  lemma ScanTransitionFrame(store: Store, key: string)
    ensures var after := ScanTransition(store, key);
      && after.Keys == store.Keys
      && (forall id :: id in store && id !in DueIds(store, key) ==> after[id] == store[id])
      && (forall id :: id in DueIds(store, key) ==>
            after[id].enviado && after[id] == store[id].(enviado := true))
      && (forall id :: id in store && store[id].enviado ==> after[id].enviado)
  {
  }

  /** A record intake has just created is due on the scan whose key is its
      `data` string. */
  lemma CreatedIsDueOnItsDate(store: Store, req: Request, freshId: Id, key: string)
    requires freshId !in store
    requires Truthy(req.produto) && Truthy(req.data) && req.data == Str(key)
    ensures freshId in DueIds(CreateReminder(store, req, freshId, false).store, key)
  {
  }

  /** After a scan nothing is due for the same key any more, so a second scan
      with that key selects nothing and changes nothing. */
  lemma ScanTransitionSettles(store: Store, key: string)
    ensures DueIds(ScanTransition(store, key), key) == {}
    ensures ScanTransition(ScanTransition(store, key), key) == ScanTransition(store, key)
  {
    var after := ScanTransition(store, key);
    assert forall id :: id in after && IsDue(after[id], key) ==> false;
    assert DueIds(after, key) == {};
  }

  /** A scan with nothing due leaves the store as it was. */
  lemma EmptySelectionNoChange(store: Store, key: string)
    requires DueIds(store, key) == {}
    ensures ScanTransition(store, key) == store
  {
  }

  lemma ScanPreservesWellFormed(store: Store, key: string)
    requires WellFormed(store)
    ensures WellFormed(ScanTransition(store, key))
  {
  }
}
