/**
 The chat tables under concurrent transactions: what each statement of an append locks,
 reads and writes, and when the writes become visible. A transaction's writes are its own
 until it commits; a lock is held until the transaction ends.
 */
module ChatSequences {
  import opened Wrappers

  datatype Identity =
    | EventId(tenant: string, namespace: string, run: string, index: nat)
    | MessageId(tenant: string, message: string)

  datatype Kind = EventKind | MessageKind

  datatype Scope = Scope(kind: Kind, tenant: string, namespace: string, session: string)

  /** `body` stands for the other immutable columns, `times` for the timestamps. */
  datatype Draft = Draft(id: Identity, scope: Scope, run: string, message: string, body: nat, times: nat)

  datatype Projection = Projection(event: Draft, message: Option<Draft>)

  datatype Row = Row(draft: Draft, number: nat)

  datatype Tables = Tables(rows: map<Identity, Row>, counters: map<Scope, nat>)

  /** The first of `items` is the one being saved. */
  datatype Pc =
    | Idle
    | Locking(items: seq<Draft>)
    | Reading(items: seq<Draft>)
    | Allocating(items: seq<Draft>)
    | Inserting(items: seq<Draft>, number: nat)
    | Failed

  /** `seqs` holds the counters the transaction has locked and set. */
  datatype Transaction = Transaction(locks: set<Identity>, pending: map<Identity, Row>, seqs: map<Scope, nat>, pc: Pc)

  datatype Database = Database(tables: Tables, open: map<nat, Transaction>)

  datatype Action = Begin(t: nat) | Append(t: nat, projection: Projection) | Run(t: nat) | Commit(t: nat) | Abort(t: nat)

  // ----- drafts -------------------------------------------------------------------------

  predicate WellScoped(d: Draft) {
    && d.scope.tenant == d.id.tenant
    && match d.id
       case EventId(_, namespace, run, _) => d.scope.kind == EventKind && d.scope.namespace == namespace && d.run == run
       case MessageId(_, message) => d.scope.kind == MessageKind && d.message == message
  }

  /** A final message belongs to the same conversation and run as its event. */
  predicate ProjectionOk(p: Projection) {
    p.message.Some? ==>
      && p.event.message == p.message.value.message
      && p.event.scope == p.message.value.scope.(kind := EventKind)
      && p.event.run == p.message.value.run
  }

  predicate Shaped(p: Projection) {
    && WellScoped(p.event) && p.event.id.EventId?
    && (p.message.Some? ==> WellScoped(p.message.value) && p.message.value.id.MessageId?)
  }

  function Items(p: Projection): seq<Draft> {
    [p.event] + if p.message.Some? then [p.message.value] else []
  }

  /** The saved row repeats the draft; a message may differ in its timestamps. */
  predicate SameFacts(row: Row, d: Draft) {
    if d.id.EventId? then row.draft == d else row.draft.(times := d.times) == d
  }

  // ----- statements -----------------------------------------------------------------------

  function Counter(tables: Tables, scope: Scope): nat {
    if scope in tables.counters then tables.counters[scope] else 0
  }

  predicate IdentityFree(db: Database, t: nat, id: Identity) {
    forall other | other in db.open && other != t :: id !in db.open[other].locks
  }

  predicate ScopeFree(db: Database, t: nat, scope: Scope) {
    forall other | other in db.open && other != t :: scope !in db.open[other].seqs
  }

  function Next(items: seq<Draft>): Pc {
    if items == [] then Idle else Locking(items)
  }

  /** What a read inside the transaction sees: its own writes over the committed rows. */
  function Seen(tables: Tables, tx: Transaction, id: Identity): Option<Row> {
    if id in tx.pending then Some(tx.pending[id]) else if id in tables.rows then Some(tables.rows[id]) else None
  }

  /** One statement; a statement that has to wait for a lock changes nothing yet. */
  function Advance(db: Database, t: nat): Transaction
    requires t in db.open
  {
    var tx := db.open[t];
    match tx.pc
    case Locking(items) =>
      if items == [] || !IdentityFree(db, t, items[0].id) then tx
      else tx.(locks := tx.locks + {items[0].id}, pc := Reading(items))
    case Reading(items) =>
      if items == [] then tx
      else
        var existing := Seen(db.tables, tx, items[0].id);
        if existing.None? then tx.(pc := Allocating(items))
        else if SameFacts(existing.value, items[0]) then tx.(pc := Next(items[1..]))
        else tx.(pc := Failed)
    case Allocating(items) =>
      if items == [] || !ScopeFree(db, t, items[0].scope) then tx
      else
        var scope := items[0].scope;
        var number := (if scope in tx.seqs then tx.seqs[scope] else Counter(db.tables, scope)) + 1;
        tx.(seqs := tx.seqs[scope := number], pc := Inserting(items, number))
    case Inserting(items, number) =>
      if items == [] then tx
      else tx.(pending := tx.pending[items[0].id := Row(items[0], number)], pc := Next(items[1..]))
    case _ => tx
  }

  function Put(db: Database, t: nat, tx: Transaction): Database {
    db.(open := db.open[t := tx])
  }

  function Act(db: Database, action: Action): Database {
    match action
    case Begin(t) => if t in db.open then db else Put(db, t, Transaction({}, map[], map[], Idle))
    case Append(t, p) =>
      if t !in db.open || !db.open[t].pc.Idle? || !Shaped(p) then db
      else Put(db, t, db.open[t].(pc := if ProjectionOk(p) then Locking(Items(p)) else Failed))
    case Run(t) => if t in db.open then Put(db, t, Advance(db, t)) else db
    case Commit(t) =>
      if t !in db.open || !db.open[t].pc.Idle? then db
      else
        var tx := db.open[t];
        Database(Tables(db.tables.rows + tx.pending, db.tables.counters + tx.seqs), db.open - {t})
    case Abort(t) => db.(open := db.open - {t})
  }

  function Executed(db: Database, actions: seq<Action>): Database {
    if actions == [] then db else Act(Executed(db, actions[..|actions| - 1]), actions[|actions| - 1])
  }

  // ----- reading ------------------------------------------------------------------------------

  /** The page a reader gets: rows of the scope after `after`, ascending, at most `limit`, leaving out only later ones. */
  ghost predicate IsPage(tables: Tables, scope: Scope, after: nat, limit: nat, page: seq<Row>) {
    && |page| <= limit
    && (forall i | 0 <= i < |page| :: InScope(tables, scope, page[i]) && page[i].number > after)
    && (forall i, j | 0 <= i < j < |page| :: page[i].number < page[j].number)
    && (forall row: Row | InScope(tables, scope, row) && row.number > after ::
          row in page || (|page| == limit && limit > 0 && page[limit - 1].number < row.number))
  }

  predicate InScope(tables: Tables, scope: Scope, row: Row) {
    row.draft.id in tables.rows && tables.rows[row.draft.id] == row && row.draft.scope == scope
  }
}
