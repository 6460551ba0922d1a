/**
 The chat tables as an object that transactions update in place: one method per statement,
 each exactly the step of the state machine. A statement that must wait for a lock returns
 false and changes nothing.
 */
module ChatDatabase {
  import opened Wrappers
  import S = ChatSequences
  import C = ChatSafety

  class Chat {
    var rows: map<S.Identity, S.Row>
    var counters: map<S.Scope, nat>
    var open: map<nat, S.Transaction>

    function State(): S.Database
      reads this
    {
      S.Database(S.Tables(rows, counters), open)
    }

    /** Locks and writes of the open transactions fit, and committed numbers are dense. */
    ghost predicate Valid()
      reads this
    {
      C.Inv(State())
    }

    constructor ()
      ensures State() == S.Database(S.Tables(map[], map[]), map[])
      ensures Valid()
    {
      rows, counters, open := map[], map[], map[];
    }

    method Begin(t: nat)
      requires t !in open
      modifies this`open
      ensures State() == S.Act(old(State()), S.Begin(t))
      ensures old(Valid()) ==> Valid()
    {
      C.MayKeepInv(State(), S.Begin(t));
      open := open[t := S.Transaction({}, map[], map[], S.Idle)];
    }

    method Append(t: nat, p: S.Projection) returns (accepted: bool)
      requires t in open && open[t].pc.Idle? && S.Shaped(p)
      modifies this`open
      ensures State() == S.Act(old(State()), S.Append(t, p))
      ensures old(Valid()) ==> Valid()
      ensures accepted <==> S.ProjectionOk(p)
    {
      C.MayKeepInv(State(), S.Append(t, p));
      accepted := S.ProjectionOk(p);
      open := open[t := open[t].(pc := if accepted then S.Locking(S.Items(p)) else S.Failed)];
    }

    /** The advisory lock on the identity of the item being saved. */
    method LockIdentity(t: nat) returns (locked: bool)
      requires t in open && open[t].pc.Locking? && open[t].pc.items != []
      modifies this`open
      ensures State() == S.Act(old(State()), S.Run(t))
      ensures old(Valid()) ==> Valid()
      ensures locked <==> S.IdentityFree(old(State()), t, old(open[t]).pc.items[0].id)
    {
      C.MayKeepInv(State(), S.Run(t));
      var tx := open[t];
      locked := S.IdentityFree(State(), t, tx.pc.items[0].id);
      open := open[t := if locked then tx.(locks := tx.locks + {tx.pc.items[0].id}, pc := S.Reading(tx.pc.items)) else tx];
    }

    /** Looks for the saved row of the item and compares it. */
    method FindExisting(t: nat) returns (existing: Option<S.Row>)
      requires t in open && open[t].pc.Reading? && open[t].pc.items != []
      modifies this`open
      ensures State() == S.Act(old(State()), S.Run(t))
      ensures old(Valid()) ==> Valid()
      ensures existing == S.Seen(S.Tables(rows, counters), old(open[t]), old(open[t]).pc.items[0].id)
    {
      C.MayKeepInv(State(), S.Run(t));
      var tx := open[t];
      var item := tx.pc.items[0];
      existing := None;
      if item.id in tx.pending {
        existing := Some(tx.pending[item.id]);
      } else if item.id in rows {
        existing := Some(rows[item.id]);
      }
      var pc := S.Allocating(tx.pc.items);
      if existing.Some? {
        pc := if S.SameFacts(existing.value, item) then S.Next(tx.pc.items[1..]) else S.Failed;
      }
      open := open[t := tx.(pc := pc)];
    }

    /** Locks the sequence row of the conversation and takes the next number. */
    method NextSeq(t: nat) returns (number: Option<nat>)
      requires t in open && open[t].pc.Allocating? && open[t].pc.items != []
      modifies this`open
      ensures State() == S.Act(old(State()), S.Run(t))
      ensures old(Valid()) ==> Valid()
      ensures number.Some? <==> S.ScopeFree(old(State()), t, old(open[t]).pc.items[0].scope)
      ensures number.Some? ==> open[t].pc == S.Inserting(old(open[t]).pc.items, number.value)
    {
      C.MayKeepInv(State(), S.Run(t));
      var tx := open[t];
      var scope := tx.pc.items[0].scope;
      if !S.ScopeFree(State(), t, scope) {
        open := open[t := tx];
        return None;
      }
      var last := S.Counter(S.Tables(rows, counters), scope);
      if scope in tx.seqs {
        last := tx.seqs[scope];
      }
      open := open[t := tx.(seqs := tx.seqs[scope := last + 1], pc := S.Inserting(tx.pc.items, last + 1))];
      return Some(last + 1);
    }

    method Insert(t: nat) returns (row: S.Row)
      requires t in open && open[t].pc.Inserting? && open[t].pc.items != []
      modifies this`open
      ensures State() == S.Act(old(State()), S.Run(t))
      ensures old(Valid()) ==> Valid()
      ensures row == S.Row(old(open[t]).pc.items[0], old(open[t]).pc.number)
    {
      C.MayKeepInv(State(), S.Run(t));
      var tx := open[t];
      row := S.Row(tx.pc.items[0], tx.pc.number);
      open := open[t := tx.(pending := tx.pending[row.draft.id := row], pc := S.Next(tx.pc.items[1..]))];
    }

    method Commit(t: nat)
      requires t in open && open[t].pc.Idle?
      modifies this
      ensures State() == S.Act(old(State()), S.Commit(t))
      ensures old(Valid()) ==> Valid()
    {
      C.MayKeepInv(State(), S.Commit(t));
      rows, counters := rows + open[t].pending, counters + open[t].seqs;
      open := open - {t};
    }

    method Abort(t: nat)
      modifies this`open
      ensures State() == S.Act(old(State()), S.Abort(t))
      ensures old(Valid()) ==> Valid()
    {
      C.MayKeepInv(State(), S.Abort(t));
      open := open - {t};
    }
  }
}
