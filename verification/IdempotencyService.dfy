/** run_idempotent as one call executes it (app/apps/common/idempotency.py), tied to the protocol's steps. */
module IdempotencyService {
  import opened Rows
  import opened Idempotency

  class RecordTable {
    var rows: seq<Option<Record>>

    /** None is an IntegrityError. */
    method Create(record: Record) returns (key: Option<nat>)
      modifies this
      ensures Taken(old(rows), record.actor, record.key) ==> key == None && rows == old(rows)
      ensures !Taken(old(rows), record.actor, record.key) ==>
                key == Some(|old(rows)|) && rows == old(rows) + [Some(record)]
    {
      if Taken(rows, record.actor, record.key) { return None; }
      key := Some(|rows|);
      rows := rows + [Some(record)];
    }

    /** The first record of the actor with this key. */
    method First(actor: Actor, key: string) returns (row: Option<Record>)
      ensures row == var found := FirstMatch(rows, actor, key);
                     if found.Some? then rows[found.value] else None
    {
      var i := 0;
      while i < |rows|
        invariant i <= |rows|
        invariant forall k :: 0 <= k < i ==> !Matches(rows[k], actor, key)
      {
        if Matches(rows[i], actor, key) {
          FirstIs(rows, actor, key, i);
          return rows[i];
        }
        i := i + 1;
      }
      row := None;
    }

    method Delete(i: nat)
      requires i < |rows|
      modifies this
      ensures rows == old(rows)[i := None]
    {
      rows := rows[i := None];
    }

    method Complete(i: nat, body: string)
      requires i < |rows| && rows[i].Some?
      modifies this
      ensures rows == old(rows)[i := Some(old(rows)[i].value.(body := Some(body)))]
    {
      rows := rows[i := Some(rows[i].value.(body := Some(body)))];
    }
  }

  lemma {:induction false} FirstIs(table: seq<Option<Record>>, actor: Actor, key: string, i: nat)
    requires i < |table| && Matches(table[i], actor, key)
    requires forall k :: 0 <= k < i ==> !Matches(table[k], actor, key)
    ensures FirstMatch(table, actor, key) == Some(i)
  {
    if i < |table| - 1 {
      FirstIs(table[..|table| - 1], actor, key, i);
    }
  }

  /** The protocol's steps of one call that nothing interrupts. A step that is not due does nothing. */
  function Uninterrupted(rows: seq<Option<Record>>, call: Call, result: Option<string>): System {
    var s := System(rows, [Process(call, Arrived)]);
    Take(Take(Take(Take(Take(s, Insert(0)), Find(0)), Handle(0, result)), Delete(0)), Complete(0))
  }

  /** `result` is what the handler would return, None if it would raise. */
  method RunIdempotent(table: RecordTable, call: Call, result: Option<string>) returns (phase: Phase)
    modifies table
    ensures System(table.rows, [Process(call, phase)]) == Uninterrupted(old(table.rows), call, result)
  {
    if call.key.None? {
      if call.required { return KeyMissing; }
      return Unkeyed(result);
    }
    var record := Record(call.actor, call.key.value, call.endpoint, call.hash, None);
    var created := table.Create(record);
    if created.None? {
      var row := table.First(call.actor, call.key.value);
      if row.None? { return Conflict; }
      if row.value.hash != call.hash || row.value.endpoint != call.endpoint { return Conflict; }
      if row.value.body.None? { return Conflict; }
      return Replayed(row.value.body.value);
    }
    if result.None? {
      table.Delete(created.value);
      return Failed(created.value);
    }
    table.Complete(created.value, result.value);
    phase := Answered(created.value, result.value);
  }

  /** The first record of the call's actor and key. */
  ghost predicate FirstRecord(rows: seq<Option<Record>>, call: Call, k: nat)
    requires k < |rows|
  {
    Holds(rows[k], call) && FirstHold(rows, call, k)
  }

  /** What one call is answered and leaves, by its key and the records it finds: without a key it writes nothing and is
      refused if the key was required; a key that is in use gives the stored body to the same request and a conflict to
      any other or while the first is unfinished, again without writing; a free key runs the handler, and only a
      result is kept. */
  lemma CallAnswers(rows: seq<Option<Record>>, call: Call, result: Option<string>)
    ensures var s := Uninterrupted(rows, call, result);
            && |s.processes| == 1 && s.processes[0].call == call
            && var phase := s.processes[0].phase;
               if call.key.None? then
                 s.table == rows && phase == if call.required then KeyMissing else Unkeyed(result)
               else if call.actor.id.Some? && exists k :: 0 <= k < |rows| && Holds(rows[k], call) then
                 && s.table == rows
                 && exists k :: 0 <= k < |rows| && FirstRecord(rows, call, k)
                      && var record := rows[k].value;
                         phase == if record.endpoint == call.endpoint && record.hash == call.hash && record.body.Some?
                                  then Replayed(record.body.value) else Conflict
               else if result.Some? then
                 && phase == Answered(|rows|, result.value)
                 && s.table == rows + [Some(Record(call.actor, call.key.value, call.endpoint, call.hash, result))]
               else
                 phase == Failed(|rows|) && s.table == rows + [None]
  {
    if call.key.Some? && call.actor.id.Some? && exists k :: 0 <= k < |rows| && Holds(rows[k], call) {
      var k :| 0 <= k < |rows| && Holds(rows[k], call);
      assert Matches(rows[k], call.actor, call.key.value);
      var found := FirstMatch(rows, call.actor, call.key.value);
      FirstMatchIsFirst(rows, call.actor, call.key.value);
      assert found.Some?;
      assert FirstRecord(rows, call, found.value);
    } else if call.key.Some? {
      assert !Taken(rows, call.actor, call.key.value) by {
        forall k | 0 <= k < |rows| && call.actor.id.Some? ensures !Matches(rows[k], call.actor, call.key.value) {
          assert !Holds(rows[k], call);
        }
      }
    }
  }

  /** After a call that succeeded, a repeat with the same endpoint and payload gets the same body without running
      its handler, and a different one gets a conflict; neither writes anything. After a call that failed, the
      key is as free as before. */
  lemma RepeatAfterCall(
    rows: seq<Option<Record>>, first: Call, result: Option<string>, again: Call, other: Option<string>)
    requires first.key.Some? && first.actor.id.Some? && !Taken(rows, first.actor, first.key.value)
    requires again.key == first.key && again.actor == first.actor
    ensures var s := Uninterrupted(rows, first, result);
            && (result.Some? ==>
                  && s.processes[0].phase == Answered(|rows|, result.value)
                  && Uninterrupted(s.table, again, other)
                     == System(s.table, [Process(again,
                          if again.hash == first.hash && again.endpoint == first.endpoint
                          then Replayed(result.value) else Conflict)]))
            && (result.None? ==>
                  && s.processes[0].phase == Failed(|rows|)
                  && !Taken(s.table, first.actor, first.key.value))
  {
    hide Uninterrupted;
    var s := Uninterrupted(rows, first, result);
    forall k | 0 <= k < |rows| ensures !Holds(rows[k], first) && !Holds(rows[k], again) {
      assert !Matches(rows[k], first.actor, first.key.value);
    }
    CallAnswers(rows, first, result);
    CallAnswers(s.table, again, other);
    if result.Some? {
      assert forall k :: 0 <= k < |rows| ==> s.table[k] == rows[k];
      assert Holds(s.table[|rows|], again);
    }
  }
}
