/** The idempotency protocol (app/apps/common/idempotency.py): any number of calls, each a few atomic steps on
    a table with a unique key, interleaved in any order. */
module Idempotency {
  import opened Rows

  datatype ActorType = USER_ACTOR | ADMIN | DIRECTOR | SYSTEM

  /** SYSTEM actors have no id. */
  datatype Actor = Actor(kind: ActorType, id: Option<nat>)

  /** IdempotencyRecord; `body` is set together with completed_at. */
  datatype Record = Record(actor: Actor, key: string, endpoint: string, hash: string, body: Option<string>)

  datatype Call = Call(actor: Actor, key: Option<string>, required: bool, endpoint: string, hash: string)

  /** How far a call has come. The numbers are the primary keys of records. */
  datatype Phase =
    | Arrived
    | Collided                              // the insert raised IntegrityError
    | Running(record: nat)                  // the record is in, the handler is not done
    | Ran(record: nat, body: string)        // the handler committed
    | Raised(record: nat)                   // the handler raised
    | Answered(record: nat, body: string)   // 200 with the handler's result, stored
    | Failed(record: nat)                   // the record is deleted, the exception goes on
    | Replayed(body: string)                // 200 with a stored result
    | Conflict                              // 409
    | KeyMissing                            // 400
    | Unkeyed(result: Option<string>)       // no key: the handler ran unprotected

  datatype Process = Process(call: Call, phase: Phase)

  /** Deleted records leave None behind; processes only arrive. */
  datatype System = System(table: seq<Option<Record>>, processes: seq<Process>)

  predicate Matches(row: Option<Record>, actor: Actor, key: string) {
    row.Some? && row.value.actor == actor && row.value.key == key
  }

  /** The unique constraint: a NULL actor id equals nothing. */
  predicate Taken(table: seq<Option<Record>>, actor: Actor, key: string) {
    actor.id.Some? && exists i :: 0 <= i < |table| && Matches(table[i], actor, key)
  }

  function FirstMatch(table: seq<Option<Record>>, actor: Actor, key: string): (r: Option<nat>)
    ensures r.Some? ==> r.value < |table| && Matches(table[r.value], actor, key)
    ensures r.None? ==> forall i :: 0 <= i < |table| ==> !Matches(table[i], actor, key)
  {
    if table == [] then None
    else
      var before := FirstMatch(table[..|table| - 1], actor, key);
      if before.Some? then before
      else if Matches(table[|table| - 1], actor, key) then Some(|table| - 1) else None
  }

  datatype Step =
    | Arrive(call: Call)
    | Insert(process: nat)
    | Find(process: nat)
    | Handle(process: nat, result: Option<string>)   // None: the handler raises
    | Delete(process: nat)
    | Complete(process: nat)

  function With(s: System, i: nat, phase: Phase): System
    requires i < |s.processes|
  {
    s.(processes := s.processes[i := s.processes[i].(phase := phase)])
  }

  /** The answer to a call that lost the race for its key. */
  function AnswerOf(row: Option<Record>, call: Call): Phase {
    if row.None? || row.value.hash != call.hash || row.value.endpoint != call.endpoint || row.value.body.None?
    then Conflict else Replayed(row.value.body.value)
  }

  /** One atomic step; a step that is not the process's next one does nothing. */
  function Take(s: System, step: Step): System {
    if step.Arrive? then s.(processes := s.processes + [Process(step.call, Arrived)])
    else if step.process >= |s.processes| then s
    else
      var i, call, phase := step.process, s.processes[step.process].call, s.processes[step.process].phase;
      match step
      case Insert(_) =>
        if !phase.Arrived? then s
        else if call.key.None? then (if call.required then With(s, i, KeyMissing) else s)
        else if Taken(s.table, call.actor, call.key.value) then With(s, i, Collided)
        else
          With(s, i, Running(|s.table|)).(
            table := s.table + [Some(Record(call.actor, call.key.value, call.endpoint, call.hash, None))])
      case Find(_) =>
        if !phase.Collided? || call.key.None? then s
        else
          var found := FirstMatch(s.table, call.actor, call.key.value);
          With(s, i, AnswerOf(if found.Some? then s.table[found.value] else None, call))
      case Handle(_, result) =>
        if phase.Running? then
          With(s, i, if result.Some? then Ran(phase.record, result.value) else Raised(phase.record))
        else if phase.Arrived? && call.key.None? && !call.required then With(s, i, Unkeyed(result))
        else s
      case Delete(_) =>
        if !phase.Raised? || phase.record >= |s.table| then s
        else With(s, i, Failed(phase.record)).(table := s.table[phase.record := None])
      case Complete(_) =>
        if !phase.Ran? || phase.record >= |s.table| || s.table[phase.record].None? then s
        else
          With(s, i, Answered(phase.record, phase.body)).(
            table := s.table[phase.record := Some(s.table[phase.record].value.(body := Some(phase.body)))])
  }

  function Interleave(s: System, steps: seq<Step>): System {
    if steps == [] then s else Take(Interleave(s, steps[..|steps| - 1]), steps[|steps| - 1])
  }

  const EMPTY := System([], [])

  // ---- the invariant ----

  predicate Owns(phase: Phase) {
    phase.Running? || phase.Ran? || phase.Raised? || phase.Answered? || phase.Failed?
  }

  /** A process's record is its own call's, live until the handler's failure is cleaned up, and completed
      exactly when the answer is given. */
  ghost predicate OwnRecord(s: System, i: nat)
    requires i < |s.processes|
  {
    var call, phase := s.processes[i].call, s.processes[i].phase;
    && (phase.Collided? || phase.Replayed? ==> call.key.Some? && call.actor.id.Some?)
    && (Owns(phase) ==>
         && phase.record < |s.table| && call.key.Some?
         && (phase.Failed? <==> s.table[phase.record].None?)
         && (!phase.Failed? ==>
               s.table[phase.record].value
               == Record(call.actor, call.key.value, call.endpoint, call.hash,
                         if phase.Answered? then Some(phase.body) else None)))
  }

  /** A replayed body is what a process with the same actor, key, endpoint and hash was answered. */
  ghost predicate ReplaySource(s: System, i: nat)
    requires i < |s.processes|
  {
    s.processes[i].phase.Replayed? ==>
      exists j :: 0 <= j < |s.processes| && Answers(s.processes[j], s.processes[i].call, s.processes[i].phase.body)
  }

  predicate Answers(process: Process, call: Call, body: string) {
    && process.phase.Answered? && process.phase.body == body
    && process.call.actor == call.actor && process.call.key == call.key
    && process.call.endpoint == call.endpoint && process.call.hash == call.hash
  }

  ghost predicate Owned(s: System, k: nat) {
    exists i :: 0 <= i < |s.processes| && Owns(s.processes[i].phase) && s.processes[i].phase.record == k
  }

  ghost predicate ProtocolInv(s: System) {
    && (forall i :: 0 <= i < |s.processes| ==> OwnRecord(s, i))
    && (forall i :: 0 <= i < |s.processes| ==> ReplaySource(s, i))
    && (forall i, j :: 0 <= i < j < |s.processes| && Owns(s.processes[i].phase) && Owns(s.processes[j].phase) ==>
          s.processes[i].phase.record != s.processes[j].phase.record)
    && (forall k :: 0 <= k < |s.table| ==> Owned(s, k))
    && (forall k, l :: 0 <= k < l < |s.table| && s.table[k].Some? && s.table[l].Some? ==>
          s.table[k].value.actor.id.None?
          || s.table[k].value.actor != s.table[l].value.actor || s.table[k].value.key != s.table[l].value.key)
  }

  /** Processes only move on: an answer, once given, stands. */
  lemma AnswersStand(s: System, step: Step, j: nat)
    requires j < |s.processes|
    ensures var u := Take(s, step);
            && j < |u.processes| && u.processes[j].call == s.processes[j].call
            && (s.processes[j].phase.Answered? ==> u.processes[j] == s.processes[j])
  {
  }

  lemma ReplaysStand(s: System, step: Step, i: nat)
    requires i < |s.processes| && ReplaySource(s, i) && Take(s, step).processes[i] == s.processes[i]
    ensures ReplaySource(Take(s, step), i)
  {
    if s.processes[i].phase.Replayed? {
      var j :| 0 <= j < |s.processes| && Answers(s.processes[j], s.processes[i].call, s.processes[i].phase.body);
      AnswersStand(s, step, j);
    }
  }

  lemma OwnedStands(s: System, step: Step, k: nat)
    requires Owned(s, k)
    ensures Owned(Take(s, step), k)
  {
    var i :| 0 <= i < |s.processes| && Owns(s.processes[i].phase) && s.processes[i].phase.record == k;
    var u := Take(s, step);
    assert Owns(u.processes[i].phase) && u.processes[i].phase.record == k;
  }

  lemma FindKeepsReplays(s: System, i: nat)
    requires ProtocolInv(s) && i < |s.processes| && s.processes[i].phase.Collided?
    ensures ReplaySource(Take(s, Find(i)), i)
  {
    assert OwnRecord(s, i);
    var call := s.processes[i].call;
    var found := FirstMatch(s.table, call.actor, call.key.value);
    var u := Take(s, Find(i));
    if u.processes[i].phase.Replayed? {
      assert Owned(s, found.value);
      var j :| 0 <= j < |s.processes| && Owns(s.processes[j].phase) && s.processes[j].phase.record == found.value;
      assert OwnRecord(s, j);
      assert Answers(u.processes[j], call, u.processes[i].phase.body);
    }
  }

  lemma TableStaysUnique(s: System, step: Step, k: nat, l: nat)
    requires ProtocolInv(s) && k < l < |Take(s, step).table|
    ensures var u := Take(s, step).table;
            u[k].Some? && u[l].Some? ==>
              u[k].value.actor.id.None? || u[k].value.actor != u[l].value.actor || u[k].value.key != u[l].value.key
  {
    var u := Take(s, step).table;
    if l < |s.table| && s.table[k].Some? && s.table[l].Some? {
      assert s.table[k].value.actor.id.None?
        || s.table[k].value.actor != s.table[l].value.actor || s.table[k].value.key != s.table[l].value.key;
    } else if l == |s.table| && u[k].Some? {
      var call := s.processes[step.process].call;
      assert !Taken(s.table, call.actor, call.key.value);
      assert u[k] == s.table[k];
    }
  }

  lemma OwnRecordStands(s: System, step: Step, i: nat)
    requires ProtocolInv(s) && i < |Take(s, step).processes|
    ensures OwnRecord(Take(s, step), i)
  {
    if i < |s.processes| {
      assert OwnRecord(s, i);
      if !step.Arrive? && step.process < |s.processes| && step.process != i {
        assert OwnRecord(s, step.process);
      }
    }
  }

  lemma OwnersStayApart(s: System, step: Step, i: nat, j: nat)
    requires ProtocolInv(s) && i < j < |Take(s, step).processes|
    ensures var u := Take(s, step).processes;
            Owns(u[i].phase) && Owns(u[j].phase) ==> u[i].phase.record != u[j].phase.record
  {
    if j < |s.processes| {
      assert OwnRecord(s, i) && OwnRecord(s, j);
    }
  }

  lemma TakeKeeps(s: System, step: Step)
    requires ProtocolInv(s)
    ensures ProtocolInv(Take(s, step))
  {
    var u := Take(s, step);
    forall i | 0 <= i < |u.processes| ensures OwnRecord(u, i) { OwnRecordStands(s, step, i); }
    forall i | 0 <= i < |u.processes| ensures ReplaySource(u, i) {
      if i < |s.processes| {
        assert ReplaySource(s, i);
        if u.processes[i] == s.processes[i] {
          ReplaysStand(s, step, i);
        } else if step == Find(i) {
          FindKeepsReplays(s, i);
        }
      }
    }
    forall i, j | 0 <= i < j < |u.processes| && Owns(u.processes[i].phase) && Owns(u.processes[j].phase)
      ensures u.processes[i].phase.record != u.processes[j].phase.record
    {
      OwnersStayApart(s, step, i, j);
    }
    forall k | 0 <= k < |u.table| ensures Owned(u, k) {
      if k < |s.table| {
        OwnedStands(s, step, k);
      } else {
        assert Owns(u.processes[step.process].phase);
      }
    }
    forall k, l | 0 <= k < l < |u.table| && u.table[k].Some? && u.table[l].Some?
      ensures u.table[k].value.actor.id.None?
              || u.table[k].value.actor != u.table[l].value.actor || u.table[k].value.key != u.table[l].value.key
    {
      TableStaysUnique(s, step, k, l);
    }
  }

  lemma {:induction false} InterleaveKeeps(steps: seq<Step>)
    ensures ProtocolInv(Interleave(EMPTY, steps))
  {
    if steps != [] {
      InterleaveKeeps(steps[..|steps| - 1]);
      TakeKeeps(Interleave(EMPTY, steps[..|steps| - 1]), steps[|steps| - 1]);
    }
  }

  // ---- what the protocol promises ----

  /** The process's handler committed under the given actor and key. */
  predicate Succeeded(process: Process, actor: Actor, key: string) {
    && process.call.actor == actor && process.call.key == Some(key)
    && (process.phase.Ran? || process.phase.Answered?)
  }

  ghost predicate AtMostOnce(s: System, actor: Actor, key: string) {
    forall i, j :: 0 <= i < |s.processes| && 0 <= j < |s.processes| ==>
      (Succeeded(s.processes[i], actor, key) && Succeeded(s.processes[j], actor, key) ==> i == j)
  }

  lemma IdentifiedActorsOnce(steps: seq<Step>, actor: Actor, key: string)
    requires actor.id.Some?
    ensures AtMostOnce(Interleave(EMPTY, steps), actor, key)
  {
    var s := Interleave(EMPTY, steps);
    InterleaveKeeps(steps);
    forall i, j | 0 <= i < |s.processes| && 0 <= j < |s.processes|
      && Succeeded(s.processes[i], actor, key) && Succeeded(s.processes[j], actor, key)
      ensures i == j
    {
      assert OwnRecord(s, i) && OwnRecord(s, j);
    }
  }

  /** Two calls of a nameless actor with one key, both running their handler. */
  function TwiceNameless(actor: Actor, key: string): seq<Step> {
    var call := Call(actor, Some(key), true, "", "");
    [Arrive(call), Arrive(call), Insert(0), Insert(1), Handle(0, Some("")), Handle(1, Some(""))]
  }

  lemma NamelessActorsTwice(actor: Actor, key: string)
    requires actor.id.None?
    ensures !AtMostOnce(Interleave(EMPTY, TwiceNameless(actor, key)), actor, key)
  {
    var call := Call(actor, Some(key), true, "", "");
    var record := Some(Record(actor, key, "", "", None));
    var steps := TwiceNameless(actor, key);
    var s0 := System([], [Process(call, Arrived), Process(call, Arrived)]);
    assert Interleave(EMPTY, steps[..2]) == s0 by {
      assert steps[..2][..1] == steps[..1] && steps[..1][..0] == [];
      assert Interleave(EMPTY, steps[..1]) == System([], [Process(call, Arrived)]);
    }
    var s1 := System([record], [Process(call, Running(0)), Process(call, Arrived)]);
    assert Interleave(EMPTY, steps[..3]) == s1 by { assert steps[..3][..2] == steps[..2]; }
    var s2 := System([record, record], [Process(call, Running(0)), Process(call, Running(1))]);
    assert Interleave(EMPTY, steps[..4]) == s2 by { assert steps[..4][..3] == steps[..3]; }
    var s3 := System([record, record], [Process(call, Ran(0, "")), Process(call, Running(1))]);
    assert Interleave(EMPTY, steps[..5]) == s3 by { assert steps[..5][..4] == steps[..4]; }
    var s4 := System([record, record], [Process(call, Ran(0, "")), Process(call, Ran(1, ""))]);
    assert Interleave(EMPTY, steps) == s4 by { assert steps[..|steps| - 1] == steps[..5]; }
    assert Succeeded(s4.processes[0], actor, key) && Succeeded(s4.processes[1], actor, key);
  }

  /** A handler runs to success at most once per actor and key, in every interleaving of any number of calls,
      exactly when the actor has an id: the unique constraint does not see SYSTEM actors. */
  lemma AtMostOnceIffIdentified(actor: Actor, key: string)
    ensures (forall steps: seq<Step> :: AtMostOnce(Interleave(EMPTY, steps), actor, key)) <==> actor.id.Some?
  {
    if actor.id.Some? {
      forall steps: seq<Step> ensures AtMostOnce(Interleave(EMPTY, steps), actor, key) {
        IdentifiedActorsOnce(steps, actor, key);
      }
    } else {
      NamelessActorsTwice(actor, key);
    }
  }

  /** Every replay returns the body of the one call that ran under its actor and key, and that call was for the
      same endpoint and payload. */
  lemma ReplaysAreFaithful(steps: seq<Step>, i: nat)
    requires i < |Interleave(EMPTY, steps).processes| && Interleave(EMPTY, steps).processes[i].phase.Replayed?
    ensures var s := Interleave(EMPTY, steps);
            var call, body := s.processes[i].call, s.processes[i].phase.body;
            && call.key.Some?
            && (exists j :: 0 <= j < |s.processes| && Answers(s.processes[j], call, body))
            && (forall j :: 0 <= j < |s.processes| && Succeeded(s.processes[j], call.actor, call.key.value) ==>
                  Answers(s.processes[j], call, body))
  {
    InterleaveKeeps(steps);
    var s := Interleave(EMPTY, steps);
    assert OwnRecord(s, i) && ReplaySource(s, i);
    var call := s.processes[i].call;
    IdentifiedActorsOnce(steps, call.actor, call.key.value);
  }

  /** A call whose handler raised has left no record of its own, so its key is free for an identified actor
      unless another call has taken it since. */
  lemma FailureLeavesNothing(steps: seq<Step>, i: nat)
    requires i < |Interleave(EMPTY, steps).processes| && Interleave(EMPTY, steps).processes[i].phase.Failed?
    ensures var s := Interleave(EMPTY, steps);
            && s.processes[i].phase.record < |s.table| && s.table[s.processes[i].phase.record].None?
            && forall k :: 0 <= k < |s.table| && s.table[k].Some? ==>
                 exists j :: 0 <= j < |s.processes| && j != i && Owns(s.processes[j].phase)
                             && s.processes[j].phase.record == k
  {
    InterleaveKeeps(steps);
    var s := Interleave(EMPTY, steps);
    assert OwnRecord(s, i);
    forall k | 0 <= k < |s.table| && s.table[k].Some?
      ensures exists j :: 0 <= j < |s.processes| && j != i && Owns(s.processes[j].phase)
                          && s.processes[j].phase.record == k
    {
      assert Owned(s, k);
    }
  }

  // ---- calls without a key ----

  /** A call without a key is refused if it needs one and otherwise runs unprotected; with a key it is neither. */
  ghost predicate KeyRespected(s: System, i: nat)
    requires i < |s.processes|
  {
    var call, phase := s.processes[i].call, s.processes[i].phase;
    && (call.key.None? && call.required ==> phase.Arrived? || phase.KeyMissing?)
    && (call.key.None? && !call.required ==> phase.Arrived? || phase.Unkeyed?)
    && (call.key.Some? ==> !phase.KeyMissing? && !phase.Unkeyed?)
  }

  lemma TakeRespectsKeys(s: System, step: Step, i: nat)
    requires forall j :: 0 <= j < |s.processes| ==> KeyRespected(s, j)
    requires i < |Take(s, step).processes|
    ensures KeyRespected(Take(s, step), i)
  {
    if i < |s.processes| {
      assert KeyRespected(s, i);
    }
  }

  /** In every interleaving: a call that lacks a required key is only ever answered 400, so its handler never runs. */
  lemma {:induction false} KeysAreRespected(steps: seq<Step>, i: nat)
    requires i < |Interleave(EMPTY, steps).processes|
    ensures KeyRespected(Interleave(EMPTY, steps), i)
  {
    var s := Interleave(EMPTY, steps[..|steps| - 1]);
    forall j | 0 <= j < |s.processes| ensures KeyRespected(s, j) {
      KeysAreRespected(steps[..|steps| - 1], j);
    }
    TakeRespectsKeys(s, steps[|steps| - 1], i);
  }

  /** No step of a call without a key touches the table, and its next step decides it. */
  lemma KeylessStep(s: System, step: Step, result: Option<string>)
    requires !step.Arrive? && step.process < |s.processes|
    requires s.processes[step.process].call.key.None? && KeyRespected(s, step.process)
    ensures Take(s, step).table == s.table
    ensures s.processes[step.process].phase.Arrived? ==>
              if s.processes[step.process].call.required
              then Take(s, Insert(step.process)).processes[step.process].phase == KeyMissing
                   && Take(s, Handle(step.process, result)) == s
              else Take(s, Handle(step.process, result)).processes[step.process].phase == Unkeyed(result)
                   && Take(s, Insert(step.process)) == s
  {
  }

  // ---- how a call moves ----

  /** A live record of another try under the call's key. */
  ghost predicate Holds(row: Option<Record>, call: Call) {
    row.Some? && call.key.Some? && row.value.actor == call.actor && row.value.key == call.key.value
  }

  /** The moves of a call that has a key, and what the table must show for each. */
  ghost predicate Moves(table: seq<Option<Record>>, call: Call, was: Phase, now: Phase)
    requires call.key.Some?
  {
    match now
    case Collided => was == Arrived && call.actor.id.Some? && exists k :: 0 <= k < |table| && Holds(table[k], call)
    case Running(k) =>
      was == Arrived && k == |table|
      && (call.actor.id.None? || forall j :: 0 <= j < |table| ==> !Holds(table[j], call))
    case Ran(k, _) => was == Running(k)
    case Raised(k) => was == Running(k)
    case Answered(k, body) => was == Ran(k, body)
    case Failed(k) => was == Raised(k)
    case Replayed(body) =>
      was == Collided
      && exists k :: 0 <= k < |table| && Holds(table[k], call) && table[k].value.endpoint == call.endpoint
                     && table[k].value.hash == call.hash && table[k].value.body == Some(body)
    case Conflict =>
      was == Collided
      && forall k :: 0 <= k < |table| && Holds(table[k], call) && FirstHold(table, call, k) ==>
           table[k].value.endpoint != call.endpoint || table[k].value.hash != call.hash || table[k].value.body.None?
    case _ => false
  }

  ghost predicate FirstHold(table: seq<Option<Record>>, call: Call, k: nat)
    requires k <= |table|
  {
    forall j :: 0 <= j < k ==> !Holds(table[j], call)
  }

  lemma {:induction false} FirstMatchIsFirst(table: seq<Option<Record>>, actor: Actor, key: string)
    ensures FirstMatch(table, actor, key).Some? ==>
              forall j :: 0 <= j < FirstMatch(table, actor, key).value ==> !Matches(table[j], actor, key)
  {
    if table != [] {
      FirstMatchIsFirst(table[..|table| - 1], actor, key);
    }
  }

  /** Every step moves at most its own call, and that one along its path: it collides exactly with a live record of its
      key, it is replayed only a completed record of the same request, it is refused only when the first record of
      its key is of another request or not completed. */
  lemma CallsMoveAlong(s: System, step: Step, i: nat)
    requires i < |s.processes| && s.processes[i].call.key.Some?
    ensures i < |Take(s, step).processes| && Take(s, step).processes[i].call == s.processes[i].call
    ensures var was, now := s.processes[i].phase, Take(s, step).processes[i].phase;
            was == now || (!step.Arrive? && step.process == i && Moves(s.table, s.processes[i].call, was, now))
  {
    if !step.Arrive? && step.process == i {
      var call := s.processes[i].call;
      FirstMatchIsFirst(s.table, call.actor, call.key.value);
      if step.Insert? && s.processes[i].phase.Arrived? && Taken(s.table, call.actor, call.key.value) {
        var k :| 0 <= k < |s.table| && Matches(s.table[k], call.actor, call.key.value);
        assert Holds(s.table[k], call);
      } else if step.Find? && s.processes[i].phase.Collided? {
        FindMoves(s, i);
      }
    }
  }

  lemma FindMoves(s: System, i: nat)
    requires i < |s.processes| && s.processes[i].call.key.Some? && s.processes[i].phase.Collided?
    ensures Moves(s.table, s.processes[i].call, Collided, Take(s, Find(i)).processes[i].phase)
  {
    var call := s.processes[i].call;
    var found := FirstMatch(s.table, call.actor, call.key.value);
    FirstMatchIsFirst(s.table, call.actor, call.key.value);
    if found.Some? {
      assert Holds(s.table[found.value], call);
      forall k | 0 <= k < |s.table| && Holds(s.table[k], call) && FirstHold(s.table, call, k)
        ensures k == found.value
      {
        assert Matches(s.table[k], call.actor, call.key.value);
      }
    } else {
      forall k | 0 <= k < |s.table| ensures !Holds(s.table[k], call) {
        assert !Matches(s.table[k], call.actor, call.key.value);
      }
    }
  }
}
