/**
 Over every interleaving of chat transactions: committed numbers of a conversation are
 exactly 1..n for each kind, rows never change, saving the same projection again writes
 nothing, and a reader that pages by the last number sees every row once, in order.
 */
module ChatSafety {
  import opened Wrappers
  import opened ChatSequences

  // ----- density ---------------------------------------------------------------------

  predicate Numbered(rows: map<Identity, Row>, scope: Scope, n: nat, id: Identity) {
    id in rows && rows[id].draft.scope == scope && rows[id].number == n
  }

  ghost predicate Taken(rows: map<Identity, Row>, scope: Scope, n: nat) {
    exists id :: Numbered(rows, scope, n, id)
  }

  /** The rows of the scope are numbered 1..top, each number once. */
  ghost predicate Dense(rows: map<Identity, Row>, scope: Scope, top: nat) {
    && (forall id | id in rows && rows[id].draft.scope == scope :: 1 <= rows[id].number <= top)
    && (forall a, b | a in rows && b in rows && rows[a].draft.scope == rows[b].draft.scope == scope && rows[a].number == rows[b].number :: a == b)
    && (forall n: nat | 1 <= n <= top :: Taken(rows, scope, n))
  }

  /** The number the open insert of a transaction has allocated and not used yet. */
  function Unused(tx: Transaction, scope: Scope): nat {
    if tx.pc.Inserting? && tx.pc.items != [] && tx.pc.items[0].scope == scope then 1 else 0
  }

  /** The last used number of a scope as the transaction sees it. */
  function Top(tables: Tables, tx: Transaction, scope: Scope): int {
    if scope in tx.seqs then tx.seqs[scope] - Unused(tx, scope) else Counter(tables, scope)
  }

  ghost predicate TablesOk(tables: Tables) {
    && (forall scope :: Dense(tables.rows, scope, Counter(tables, scope)))
    && (forall id | id in tables.rows :: tables.rows[id].draft.id == id)
  }

  ghost predicate PcOk(tables: Tables, tx: Transaction) {
    match tx.pc
    case Locking(items) => items != []
    case Reading(items) => items != [] && items[0].id in tx.locks
    case Allocating(items) => items != [] && items[0].id in tx.locks && items[0].id !in tables.rows && items[0].id !in tx.pending
    case Inserting(items, number) =>
      && items != [] && items[0].id in tx.locks && items[0].id !in tables.rows && items[0].id !in tx.pending
      && items[0].scope in tx.seqs && tx.seqs[items[0].scope] == number >= 1
    case _ => true
  }

  ghost predicate PendingOk(tables: Tables, tx: Transaction) {
    forall id | id in tx.pending ::
      id in tx.locks && id !in tables.rows && tx.pending[id].draft.id == id && tx.pending[id].draft.scope in tx.seqs
  }

  /** With its own rows, the transaction sees a dense scope up to the number it has used last. */
  ghost predicate DenseFor(tables: Tables, tx: Transaction, scope: Scope) {
    Top(tables, tx, scope) >= 0 && Dense(tables.rows + tx.pending, scope, Top(tables, tx, scope))
  }

  ghost predicate WritesOk(tables: Tables, tx: Transaction) {
    PendingOk(tables, tx) && forall scope | scope in tx.seqs :: DenseFor(tables, tx, scope)
  }

  ghost predicate LocksOk(db: Database) {
    forall t, u | t in db.open && u in db.open && t != u :: Apart(db.open[t], db.open[u])
  }

  predicate Apart(a: Transaction, b: Transaction) {
    a.locks !! b.locks && a.seqs.Keys !! b.seqs.Keys
  }

  ghost predicate Inv(db: Database) {
    && TablesOk(db.tables)
    && LocksOk(db)
    && forall t | t in db.open :: PcOk(db.tables, db.open[t]) && WritesOk(db.tables, db.open[t])
  }

  // ----- density is a matter of one scope -----------------------------------------------------

  /** Two tables have the same rows of the scope. */
  ghost predicate SameRows(a: map<Identity, Row>, b: map<Identity, Row>, scope: Scope) {
    && (forall id | id in a && a[id].draft.scope == scope :: id in b && b[id] == a[id])
    && (forall id | id in b && b[id].draft.scope == scope :: id in a && a[id] == b[id])
  }

  lemma SameRowsDense(a: map<Identity, Row>, b: map<Identity, Row>, scope: Scope, top: nat)
    requires SameRows(a, b, scope) && Dense(a, scope, top)
    ensures Dense(b, scope, top)
  {
    forall n: nat | 1 <= n <= top
      ensures Taken(b, scope, n)
    {
      assert Taken(a, scope, n);
      var id :| Numbered(a, scope, n, id);
      assert Numbered(b, scope, n, id);
    }
  }

  /** The next number extends density by one. */
  lemma NextRowDense(rows: map<Identity, Row>, scope: Scope, top: nat, id: Identity, row: Row)
    requires Dense(rows, scope, top) && id !in rows && row.draft.scope == scope && row.number == top + 1
    ensures Dense(rows[id := row], scope, top + 1)
  {
    var after := rows[id := row];
    forall n: nat | 1 <= n <= top + 1
      ensures Taken(after, scope, n)
    {
      if n <= top {
        assert Taken(rows, scope, n);
        var other :| Numbered(rows, scope, n, other);
        assert Numbered(after, scope, n, other);
      } else {
        assert Numbered(after, scope, n, id);
      }
    }
  }

  // ----- each statement keeps the invariant -------------------------------------------------------

  /** What another transaction may rely on: `tx` only takes locks that were free. */
  predicate TakesFree(db: Database, t: nat, tx: Transaction)
    requires t in db.open
  {
    && (forall id | id in tx.locks && id !in db.open[t].locks :: IdentityFree(db, t, id))
    && (forall scope | scope in tx.seqs && scope !in db.open[t].seqs :: ScopeFree(db, t, scope))
  }

  lemma AdvanceTakesFree(db: Database, t: nat)
    requires t in db.open
    ensures TakesFree(db, t, Advance(db, t))
  {
  }

  lemma PutKeepsInv(db: Database, t: nat, tx: Transaction)
    requires Inv(db) && t in db.open && TakesFree(db, t, tx)
    requires PcOk(db.tables, tx) && WritesOk(db.tables, tx)
    ensures Inv(Put(db, t, tx))
  {
    forall u | u in db.open && u != t
      ensures Apart(tx, db.open[u])
    {
      assert Apart(db.open[t], db.open[u]);
    }
  }

  /** A statement that writes nothing keeps what the transaction sees. */
  lemma SameWrites(tables: Tables, tx: Transaction, after: Transaction)
    requires WritesOk(tables, tx) && !tx.pc.Inserting? && !after.pc.Inserting?
    requires after.pending == tx.pending && after.seqs == tx.seqs && tx.locks <= after.locks
    ensures WritesOk(tables, after)
  {
    forall scope | scope in after.seqs
      ensures DenseFor(tables, after, scope)
    {
      assert DenseFor(tables, tx, scope) && Top(tables, after, scope) == Top(tables, tx, scope);
    }
  }

  lemma ReadKeepsPc(db: Database, t: nat)
    requires t in db.open && PcOk(db.tables, db.open[t]) && (db.open[t].pc.Locking? || db.open[t].pc.Reading?)
    ensures PcOk(db.tables, Advance(db, t))
  {
  }

  lemma ReadKeeps(db: Database, t: nat)
    requires Inv(db) && t in db.open && (db.open[t].pc.Locking? || db.open[t].pc.Reading?)
    ensures PcOk(db.tables, Advance(db, t)) && WritesOk(db.tables, Advance(db, t))
  {
    ReadKeepsPc(db, t);
    SameWrites(db.tables, db.open[t], Advance(db, t));
  }

  lemma AllocateKeeps(db: Database, t: nat)
    requires Inv(db) && t in db.open && db.open[t].pc.Allocating?
    ensures PcOk(db.tables, Advance(db, t)) && WritesOk(db.tables, Advance(db, t))
  {
    var tx, after := db.open[t], Advance(db, t);
    assert PcOk(db.tables, tx) && WritesOk(db.tables, tx);
    var mine := tx.pc.items[0].scope;
    forall scope | scope in after.seqs
      ensures DenseFor(db.tables, after, scope)
    {
      assert Top(db.tables, after, scope) == Top(db.tables, tx, scope);
      if scope !in tx.seqs {
        SameRowsDense(db.tables.rows, db.tables.rows + tx.pending, scope, Counter(db.tables, scope));
      }
    }
  }

  lemma InsertKeeps(db: Database, t: nat)
    requires Inv(db) && t in db.open && db.open[t].pc.Inserting?
    ensures PcOk(db.tables, Advance(db, t)) && WritesOk(db.tables, Advance(db, t))
  {
    var tx, after := db.open[t], Advance(db, t);
    assert PcOk(db.tables, tx) && WritesOk(db.tables, tx);
    forall scope | scope in after.seqs
      ensures DenseFor(db.tables, after, scope)
    {
      assert DenseFor(db.tables, tx, scope);
      InsertedDense(db.tables, tx, after, scope);
    }
  }

  lemma InsertedDense(tables: Tables, tx: Transaction, after: Transaction, scope: Scope)
    requires tx.pc.Inserting? && PcOk(tables, tx) && scope in tx.seqs && DenseFor(tables, tx, scope)
    requires after == tx.(pending := tx.pending[tx.pc.items[0].id := Row(tx.pc.items[0], tx.pc.number)], pc := Next(tx.pc.items[1..]))
    ensures DenseFor(tables, after, scope)
  {
    var draft, number := tx.pc.items[0], tx.pc.number;
    var rows := tables.rows + tx.pending;
    assert tables.rows + after.pending == rows[draft.id := Row(draft, number)];
    if scope == draft.scope {
      NextRowDense(rows, scope, number - 1, draft.id, Row(draft, number));
    } else {
      SameRowsDense(rows, tables.rows + after.pending, scope, Top(tables, tx, scope));
    }
  }

  // ----- commit ---------------------------------------------------------------------------------

  function Committed(tables: Tables, tx: Transaction): Tables {
    Tables(tables.rows + tx.pending, tables.counters + tx.seqs)
  }

  lemma CommitKeepsTables(tables: Tables, tx: Transaction)
    requires TablesOk(tables) && WritesOk(tables, tx) && tx.pc.Idle?
    ensures TablesOk(Committed(tables, tx))
  {
    var after := Committed(tables, tx);
    forall scope
      ensures Dense(after.rows, scope, Counter(after, scope))
    {
      if scope in tx.seqs {
        assert Top(tables, tx, scope) == tx.seqs[scope] == Counter(after, scope);
      } else {
        assert Counter(after, scope) == Counter(tables, scope);
        SameRowsDense(tables.rows, after.rows, scope, Counter(tables, scope));
      }
    }
  }

  /** A commit by another transaction touches nothing this one has locked. */
  lemma CommitKeepsOther(tables: Tables, tx: Transaction, other: Transaction)
    requires WritesOk(tables, tx) && WritesOk(tables, other) && PcOk(tables, other) && Apart(tx, other)
    ensures WritesOk(Committed(tables, tx), other) && PcOk(Committed(tables, tx), other)
  {
    var after := Committed(tables, tx);
    forall scope | scope in other.seqs
      ensures DenseFor(after, other, scope)
    {
      assert DenseFor(tables, other, scope);
      OtherDense(tables, tx, other, scope);
    }
  }

  lemma OtherDense(tables: Tables, tx: Transaction, other: Transaction, scope: Scope)
    requires PendingOk(tables, tx) && PendingOk(tables, other) && Apart(tx, other)
    requires scope in other.seqs && DenseFor(tables, other, scope)
    ensures DenseFor(Committed(tables, tx), other, scope)
  {
    var before, after := tables.rows + other.pending, Committed(tables, tx).rows + other.pending;
    assert scope !in tx.seqs;
    forall id | id in tx.pending
      ensures tx.pending[id].draft.scope != scope && id !in before
    {
    }
    assert SameRows(before, after, scope);
    SameRowsDense(before, after, scope, Top(tables, other, scope));
  }

  lemma ActKeepsInv(db: Database, action: Action)
    requires Inv(db)
    ensures Inv(Act(db, action))
  {
    match action
    case Begin(t) =>
    case Append(t, p) =>
      if t in db.open && db.open[t].pc.Idle? && Shaped(p) {
        AppendKeepsInv(db, t, p);
      }
    case Run(t) =>
      if t in db.open {
        assert PcOk(db.tables, db.open[t]) && WritesOk(db.tables, db.open[t]);
        AdvanceTakesFree(db, t);
        match db.open[t].pc {
          case Locking(_) => ReadKeeps(db, t);
          case Reading(_) => ReadKeeps(db, t);
          case Allocating(_) => AllocateKeeps(db, t);
          case Inserting(_, _) => InsertKeeps(db, t);
          case _ =>
        }
        PutKeepsInv(db, t, Advance(db, t));
      }
    case Commit(t) =>
      if t in db.open && db.open[t].pc.Idle? {
        CommitKeepsInv(db, t);
      }
    case Abort(t) =>
  }

  lemma MayKeepInv(db: Database, action: Action)
    ensures Inv(db) ==> Inv(Act(db, action))
  {
    if Inv(db) {
      ActKeepsInv(db, action);
    }
  }

  lemma AppendKeepsInv(db: Database, t: nat, p: Projection)
    requires Inv(db) && t in db.open && db.open[t].pc.Idle?
    ensures Inv(Put(db, t, db.open[t].(pc := if ProjectionOk(p) then Locking(Items(p)) else Failed)))
  {
    var tx := db.open[t];
    var after := tx.(pc := if ProjectionOk(p) then Locking(Items(p)) else Failed);
    SameWrites(db.tables, tx, after);
    PutKeepsInv(db, t, after);
  }

  lemma CommitKeepsInv(db: Database, t: nat)
    requires Inv(db) && t in db.open && db.open[t].pc.Idle?
    ensures Inv(Act(db, Commit(t)))
  {
    var tx, after := db.open[t], Act(db, Commit(t));
    assert WritesOk(db.tables, tx);
    CommitKeepsTables(db.tables, tx);
    assert after.tables == Committed(db.tables, tx);
    forall u | u in after.open
      ensures WritesOk(after.tables, after.open[u]) && PcOk(after.tables, after.open[u])
    {
      assert Apart(tx, db.open[u]);
      assert PcOk(db.tables, db.open[u]) && WritesOk(db.tables, db.open[u]);
      CommitKeepsOther(db.tables, tx, db.open[u]);
    }
  }

  // ----- whole runs ---------------------------------------------------------------------------------

  const Empty := Database(Tables(map[], map[]), map[])

  lemma {:induction false} ExecutedKeepsInv(actions: seq<Action>)
    ensures Inv(Executed(Empty, actions))
  {
    if actions != [] {
      ExecutedKeepsInv(actions[..|actions| - 1]);
      ActKeepsInv(Executed(Empty, actions[..|actions| - 1]), actions[|actions| - 1]);
    }
  }

  /** At every moment the committed numbers of every conversation and kind are exactly 1..n, each once. */
  lemma CommittedNumbersAreDense(actions: seq<Action>, scope: Scope)
    ensures var tables := Executed(Empty, actions).tables; Dense(tables.rows, scope, Counter(tables, scope))
  {
    ExecutedKeepsInv(actions);
  }

  ghost predicate TablesGrow(a: Tables, b: Tables) {
    && (forall id | id in a.rows :: id in b.rows && b.rows[id] == a.rows[id])
    && (forall scope :: Counter(a, scope) <= Counter(b, scope))
  }

  lemma ActGrows(db: Database, action: Action)
    requires Inv(db)
    ensures TablesGrow(db.tables, Act(db, action).tables)
  {
    if action.Commit? && action.t in db.open && db.open[action.t].pc.Idle? {
      var tx := db.open[action.t];
      assert WritesOk(db.tables, tx);
      forall scope
        ensures Counter(db.tables, scope) <= Counter(Committed(db.tables, tx), scope)
      {
        if scope in tx.seqs {
          TopAtLeast(db.tables, tx, scope);
        }
      }
    }
  }

  /** A transaction's counter is at least the committed one. */
  lemma TopAtLeast(tables: Tables, tx: Transaction, scope: Scope)
    requires TablesOk(tables) && WritesOk(tables, tx) && scope in tx.seqs && tx.pc.Idle?
    ensures Counter(tables, scope) <= tx.seqs[scope]
  {
    var n := Counter(tables, scope);
    if n > 0 {
      assert Dense(tables.rows, scope, n);
      assert Taken(tables.rows, scope, n);
      var id :| Numbered(tables.rows, scope, n, id);
      assert Numbered(tables.rows + tx.pending, scope, n, id);
      assert DenseFor(tables, tx, scope);
    }
  }

  lemma {:induction false} ExecutedGrows(actions: seq<Action>, n: nat)
    requires n <= |actions|
    ensures TablesGrow(Executed(Empty, actions[..n]).tables, Executed(Empty, actions).tables)
    decreases |actions|
  {
    if n < |actions| {
      var before := actions[..|actions| - 1];
      ExecutedGrows(before, n);
      assert before[..n] == actions[..n];
      ExecutedKeepsInv(before);
      ActGrows(Executed(Empty, before), actions[|actions| - 1]);
    } else {
      assert actions[..n] == actions;
    }
  }

  /** An insert never meets a row with its identity, nor another row with its number. */
  lemma InsertNeverCollides(db: Database, t: nat)
    requires Inv(db) && t in db.open && db.open[t].pc.Inserting?
    ensures var (tx, draft) := (db.open[t], db.open[t].pc.items[0]);
      && draft.id !in db.tables.rows
      && (forall u | u in db.open :: draft.id !in db.open[u].pending)
      && (forall id | id in db.tables.rows && db.tables.rows[id].draft.scope == draft.scope :: db.tables.rows[id].number < tx.pc.number)
      && (forall u, id | u in db.open && id in db.open[u].pending && db.open[u].pending[id].draft.scope == draft.scope ::
            db.open[u].pending[id].number < tx.pc.number)
  {
    var tx, draft := db.open[t], db.open[t].pc.items[0];
    assert PcOk(db.tables, tx) && WritesOk(db.tables, tx);
    var rows := db.tables.rows + tx.pending;
    assert DenseFor(db.tables, tx, draft.scope);
    forall u | u in db.open && u != t
      ensures draft.id !in db.open[u].pending
      ensures forall id | id in db.open[u].pending :: db.open[u].pending[id].draft.scope != draft.scope
    {
      assert Apart(tx, db.open[u]) && WritesOk(db.tables, db.open[u]);
    }
    forall id | id in db.tables.rows && db.tables.rows[id].draft.scope == draft.scope
      ensures db.tables.rows[id].number < tx.pc.number
    {
      assert id in rows && rows[id] == db.tables.rows[id];
    }
    forall id | id in tx.pending && tx.pending[id].draft.scope == draft.scope
      ensures tx.pending[id].number < tx.pc.number
    {
      assert id in rows && rows[id] == tx.pending[id];
    }
  }

  // ----- paging readers --------------------------------------------------------------------------

  /** On dense tables the page after `after` holds the numbers after+1, after+2, ... without a hole. */
  lemma {:induction false} PageIsConsecutive(tables: Tables, scope: Scope, after: nat, limit: nat, page: seq<Row>, i: nat)
    requires TablesOk(tables) && IsPage(tables, scope, after, limit, page) && i < |page|
    ensures page[i].number == after + 1 + i
    decreases i
  {
    var top := Counter(tables, scope);
    assert Dense(tables.rows, scope, top);
    if i > 0 {
      PageIsConsecutive(tables, scope, after, limit, page, i - 1);
    }
    assert InScope(tables, scope, page[i]);
    assert page[i].number >= after + 1 + i;
    if page[i].number > after + 1 + i {
      assert Taken(tables.rows, scope, after + 1 + i);
      var id :| Numbered(tables.rows, scope, after + 1 + i, id);
      var row := tables.rows[id];
      assert InScope(tables, scope, row);
      NumberMissing(page, row, i);
    }
  }

  /** A row whose number lies between two neighbours of an ascending page is not on it. */
  lemma NumberMissing(page: seq<Row>, row: Row, i: nat)
    requires i < |page| && (forall a, b | 0 <= a < b < |page| :: page[a].number < page[b].number)
    requires row.number < page[i].number && (i > 0 ==> page[i - 1].number < row.number)
    ensures row !in page
    ensures page[|page| - 1].number > row.number
  {
    forall k | 0 <= k < |page|
      ensures page[k] != row
    {
      if k < i {
        assert page[k].number <= page[i - 1].number;
      } else {
        assert page[k].number >= page[i].number;
      }
    }
  }

  /** What a reader of one conversation has collected: the rows 1..|seen| as committed. */
  ghost predicate ReaderOk(tables: Tables, scope: Scope, seen: seq<Row>) {
    forall i | 0 <= i < |seen| :: InScope(tables, scope, seen[i]) && seen[i].number == i + 1
  }

  /** Collecting the page after the last number keeps the reader gapless. */
  lemma ReadPage(tables: Tables, scope: Scope, limit: nat, seen: seq<Row>, page: seq<Row>)
    requires TablesOk(tables) && ReaderOk(tables, scope, seen) && IsPage(tables, scope, |seen|, limit, page)
    ensures ReaderOk(tables, scope, seen + page)
  {
    forall i | 0 <= i < |page|
      ensures page[i].number == |seen| + 1 + i && InScope(tables, scope, page[i])
    {
      PageIsConsecutive(tables, scope, |seen|, limit, page, i);
    }
  }

  /** What has been read stays right whatever commits meanwhile. */
  lemma ReaderSurvives(a: Tables, b: Tables, scope: Scope, seen: seq<Row>)
    requires ReaderOk(a, scope, seen) && TablesGrow(a, b)
    ensures ReaderOk(b, scope, seen)
  {
  }

  /** A reader that gets an empty page has seen every committed row of the conversation, each once. */
  lemma CaughtUp(tables: Tables, scope: Scope, limit: nat, seen: seq<Row>, row: Row)
    requires TablesOk(tables) && ReaderOk(tables, scope, seen) && limit > 0 && IsPage(tables, scope, |seen|, limit, [])
    requires InScope(tables, scope, row)
    ensures 1 <= row.number <= |seen| && seen[row.number - 1] == row
  {
    assert Dense(tables.rows, scope, Counter(tables, scope));
    assert row.number <= |seen|;
    assert InScope(tables, scope, seen[row.number - 1]);
  }

  /** One reading session: page `i` is read after `times[i]` actions of the run. */
  ghost predicate Reads(actions: seq<Action>, scope: Scope, times: seq<nat>, limits: seq<nat>, pages: seq<seq<Row>>) {
    && |times| == |limits| == |pages|
    && (forall i, j | 0 <= i < j < |times| :: times[i] <= times[j])
    && (forall i | 0 <= i < |times| :: PageRead(actions, scope, times, limits, pages, i))
  }

  ghost predicate PageRead(actions: seq<Action>, scope: Scope, times: seq<nat>, limits: seq<nat>, pages: seq<seq<Row>>, i: nat)
    requires i < |times| == |limits| == |pages|
  {
    times[i] <= |actions| && IsPage(Executed(Empty, actions[..times[i]]).tables, scope, |Flat(pages[..i])|, limits[i], pages[i])
  }

  function Flat(pages: seq<seq<Row>>): seq<Row> {
    if pages == [] then [] else Flat(pages[..|pages| - 1]) + pages[|pages| - 1]
  }

  /**
   A reader that pages by the last number it got, while transactions come and go, collects
   the rows 1, 2, 3, ... of the conversation: none twice, none skipped.
   */
  lemma {:induction false} ReaderSeesEachOnce(actions: seq<Action>, scope: Scope, times: seq<nat>, limits: seq<nat>, pages: seq<seq<Row>>)
    requires Reads(actions, scope, times, limits, pages)
    ensures ReaderOk(Executed(Empty, actions).tables, scope, Flat(pages))
    decreases |pages|
  {
    if pages != [] {
      var n := |pages| - 1;
      assert PageRead(actions, scope, times, limits, pages, n);
      var early := actions[..times[n]];
      assert Reads(early, scope, times[..n], limits[..n], pages[..n]) by {
        forall i | 0 <= i < n
          ensures PageRead(early, scope, times[..n], limits[..n], pages[..n], i)
        {
          assert PageRead(actions, scope, times, limits, pages, i);
          assert early[..times[i]] == actions[..times[i]];
          assert pages[..n][..i] == pages[..i];
        }
      }
      ReaderSeesEachOnce(early, scope, times[..n], limits[..n], pages[..n]);
      ExecutedKeepsInv(early);
      ReadPage(Executed(Empty, early).tables, scope, limits[n], Flat(pages[..n]), pages[n]);
      ExecutedGrows(actions, times[n]);
      ReaderSurvives(Executed(Empty, early).tables, Executed(Empty, actions).tables, scope, Flat(pages));
    }
  }

  // ----- saving again ------------------------------------------------------------------------------

  /** The projection is already in the tables, unchanged. */
  predicate Saved(tables: Tables, items: seq<Draft>) {
    forall i | 0 <= i < |items| :: items[i].id in tables.rows && SameFacts(tables.rows[items[i].id], items[i])
  }

  /** A transaction that has only saved known rows so far. */
  predicate Quiet(tables: Tables, tx: Transaction) {
    && tx.pending == map[] && tx.seqs == map[]
    && (match tx.pc
        case Idle => true
        case Locking(items) => Saved(tables, items)
        case Reading(items) => Saved(tables, items)
        case _ => false)
  }

  /** Saving what is already saved never allocates a number and never writes a row. */
  lemma QuietAdvance(db: Database, t: nat)
    requires t in db.open && Quiet(db.tables, db.open[t])
    ensures Quiet(db.tables, Advance(db, t))
  {
    var tx := db.open[t];
    if tx.pc.Reading? && tx.pc.items != [] {
      var items := tx.pc.items;
      forall i | 0 <= i < |items[1..]|
        ensures items[1..][i].id in db.tables.rows && SameFacts(db.tables.rows[items[1..][i].id], items[1..][i])
      {
        assert items[1..][i] == items[i + 1];
      }
    }
  }

  lemma QuietSurvives(a: Tables, b: Tables, tx: Transaction)
    requires Quiet(a, tx) && TablesGrow(a, b)
    ensures Quiet(b, tx)
  {
  }

  lemma QuietStep(db: Database, action: Action, t: nat)
    requires Inv(db) && t in db.open && Quiet(db.tables, db.open[t])
    requires action.Append? && action.t == t ==> ProjectionOk(action.projection) && Saved(db.tables, Items(action.projection))
    ensures t in Act(db, action).open ==> Quiet(Act(db, action).tables, Act(db, action).open[t])
    ensures action == Commit(t) ==> Act(db, action).tables == db.tables
  {
    ActGrows(db, action);
    if action == Run(t) {
      QuietAdvance(db, t);
    } else if action.Commit? && action.t != t {
      QuietSurvives(db.tables, Act(db, action).tables, db.open[t]);
    } else if action == Commit(t) {
      assert db.tables.rows + map[] == db.tables.rows && db.tables.counters + map[] == db.tables.counters;
    }
  }

  lemma SavedSurvives(a: Tables, b: Tables, items: seq<Draft>)
    requires Saved(a, items) && TablesGrow(a, b)
    ensures Saved(b, items)
  {
  }

  predicate SavesAgain(tables: Tables, action: Action, t: nat) {
    action.Append? && action.t == t ==> ProjectionOk(action.projection) && Saved(tables, Items(action.projection))
  }

  /** However a transaction that only repeats saved projections is interleaved with others, its commit changes nothing. */
  lemma {:induction false} SavingAgainChangesNothing(db: Database, actions: seq<Action>, t: nat)
    requires Inv(db) && t in db.open && db.open[t] == Transaction({}, map[], map[], Idle)
    requires forall i | 0 <= i < |actions| :: SavesAgain(db.tables, actions[i], t)
    ensures var after := Executed(db, actions);
      && Inv(after) && TablesGrow(db.tables, after.tables)
      && (t in after.open ==> Quiet(after.tables, after.open[t]))
      && Act(after, Commit(t)).tables == after.tables
  {
    if actions != [] {
      var last := actions[|actions| - 1];
      SavingAgainChangesNothing(db, actions[..|actions| - 1], t);
      var before := Executed(db, actions[..|actions| - 1]);
      assert SavesAgain(db.tables, last, t);
      if last.Append? && last.t == t {
        SavedSurvives(db.tables, before.tables, Items(last.projection));
      }
      ActKeepsInv(before, last);
      ActGrows(before, last);
      if t in before.open {
        QuietStep(before, last, t);
      }
    }
    var after := Executed(db, actions);
    if t in after.open {
      QuietStep(after, Commit(t), t);
    }
  }

  /** A projection that contradicts a saved row is refused: the transaction can only end without effect. */
  lemma DriftIsRefused(db: Database, t: nat)
    requires t in db.open && db.open[t].pc.Reading? && db.open[t].pc.items != []
    requires var existing := Seen(db.tables, db.open[t], db.open[t].pc.items[0].id);
      existing.Some? && !SameFacts(existing.value, db.open[t].pc.items[0])
    ensures var after := Act(db, Run(t));
      && after.tables == db.tables && after.open[t].pc.Failed?
      && Act(after, Commit(t)) == after && Act(after, Run(t)) == after && Act(after, Abort(t)).tables == db.tables
  {
    var after := Act(db, Run(t));
    assert Put(after, t, after.open[t]) == after;
  }
}
