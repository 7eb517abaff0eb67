/** Inserting actions with conflict resolution by priority. */
module ActionTables {
  import opened Grammar
  import opened Tables

  datatype Warning =
    | PriorityConflictInGrammarDef
    | ShiftReduceConflictInGrammarDef
    | ReduceReduceConflictInGrammarDef
    | ShiftShiftConflictInGrammarDef

  type Key = (nat, int)

  /** Actions and their priorities, the warnings so far, and the number of conflicts solved by priority. */
  datatype TableState = TableState(actions: map<Key, Action>, priorities: map<Key, Priority>, warnings: seq<Warning>,
      solved: nat)

  /** Nothing was warned about and nothing was decided by priority. */
  predicate Clean(t: TableState) {
    t.warnings == [] && t.solved == 0
  }

  predicate SameType(a: Action, b: Action) {
    (a.Shift? <==> b.Shift?) && (a.Reduce? <==> b.Reduce?)
  }

  function Warn(t: TableState, w: Warning): TableState {
    t.(warnings := t.warnings + [w])
  }

  function Solve(t: TableState): TableState {
    t.(solved := t.solved + 1)
  }

  function Replace(t: TableState, key: Key, action: Action, priority: Priority): TableState {
    t.(actions := t.actions[key := action], priorities := t.priorities[key := priority])
  }

  /** The table after inserting an action: the first one stays unless its priority is lower, or equal
      with an associativity that speaks for the new one. */
  function Inserted(t: TableState, key: Key, action: Action, priority: Priority): TableState {
    if key !in t.actions then Replace(t, key, action, priority)
    else if key !in t.priorities then t.(priorities := t.priorities[key := priority])
    else
      var present, given := t.actions[key], t.priorities[key];
      if SameType(action, present) then
        if present == action then t
        else Warn(t, if action.Shift? then ShiftShiftConflictInGrammarDef else ReduceReduceConflictInGrammarDef)
      else if priority.Defined() != given.Defined() then Warn(t, ShiftReduceConflictInGrammarDef)
      else if priority.value > given.value then Solve(Replace(t, key, action, priority))
      else if priority.value < given.value then Solve(t)
      else if priority.assoziativity != given.assoziativity || priority.assoziativity == Undefined then
           Warn(t, ShiftReduceConflictInGrammarDef)
      else if priority.assoziativity == (if action.Reduce? then Left else Right) then
           Solve(Replace(t, key, action, priority))
      else Solve(t)
  }

  class ActionTable {
    var actions: map<Key, Action>
    var priorities: map<Key, Priority>
    var gotos: map<(nat, nat), nat>
    var warnings: seq<Warning>
    var solved: nat

    function State(): TableState
      reads this
    {
      TableState(actions, priorities, warnings, solved)
    }

    constructor ()
      ensures State() == TableState(map[], map[], [], 0) && gotos == map[]
    {
      actions, priorities, gotos, warnings, solved := map[], map[], map[], [], 0;
    }

    method InsertAction(key: Key, action: Action, priority: Priority)
      modifies this
      ensures State() == Inserted(old(State()), key, action, priority) && gotos == old(gotos)
    {
      var isNew := key !in actions;
      if isNew {
        actions := actions[key := action];
      }
      if key !in priorities || isNew {
        priorities := priorities[key := priority];
      } else if SameType(action, actions[key]) {
        if actions[key] != action {
          warnings := warnings + [if action.Shift? then ShiftShiftConflictInGrammarDef else
              ReduceReduceConflictInGrammarDef];
        }
      } else if priority.Defined() != priorities[key].Defined() {
        warnings := warnings + [ShiftReduceConflictInGrammarDef];
      } else if priority.value > priorities[key].value {
        actions, priorities := actions[key := action], priorities[key := priority];
        solved := solved + 1;
      } else if priority.value == priorities[key].value {
        if priority.assoziativity != priorities[key].assoziativity || priority.assoziativity == Undefined {
          warnings := warnings + [ShiftReduceConflictInGrammarDef];
        } else {
          if action.Reduce? {
            if priority.assoziativity == Left {
              actions, priorities := actions[key := action], priorities[key := priority];
            }
          } else {
            if priority.assoziativity == Right {
              actions, priorities := actions[key := action], priorities[key := priority];
            }
          }
          solved := solved + 1;
        }
      } else {
        solved := solved + 1;
      }
    }

    method SetAccept(key: Key, action: Action)
      modifies this`actions
      ensures State() == old(State()).(actions := old(actions)[key := action])
    {
      actions := actions[key := action];
    }

    method AddWarnings(more: seq<Warning>)
      modifies this`warnings
      ensures State() == old(State()).(warnings := old(warnings) + more)
    {
      warnings := warnings + more;
    }
  }

  /** When the later table is still clean, so was the earlier one, and it lost no entry. */
  ghost predicate Later(a: TableState, b: TableState) {
    Clean(b) ==> Clean(a) && forall key | key in a.actions :: key in b.actions && b.actions[key] == a.actions[key]
  }

  /** If the table is clean it has this entry. */
  ghost predicate Covered(t: TableState, key: Key, action: Action) {
    Clean(t) ==> key in t.actions && t.actions[key] == action
  }

  lemma {:induction false} LaterTrans(a: TableState, b: TableState, c: TableState)
    requires Later(a, b) && Later(b, c)
    ensures Later(a, c)
  {
  }

  lemma {:induction false} CoveredLater(a: TableState, b: TableState, key: Key, action: Action)
    requires Covered(a, key, action) && Later(a, b)
    ensures Covered(b, key, action)
  {
  }

  lemma {:induction false} InsertLater(t: TableState, key: Key, action: Action, priority: Priority)
    ensures Later(t, Inserted(t, key, action, priority))
  {
  }

  /** An inserted action is in the table, or there was a warning or a conflict solved by priority. */
  lemma {:induction false} InsertCovers(t: TableState, key: Key, action: Action, priority: Priority)
    requires key in t.actions ==> key in t.priorities
    ensures Covered(Inserted(t, key, action, priority), key, action)
  {
  }

  /** The first action inserted at an accept entry changes nothing but the priority. */
  lemma {:induction false} InsertAtAccept(t: TableState, key: Key, action: Action, priority: Priority)
    requires key in t.actions && key !in t.priorities
    ensures Inserted(t, key, action, priority).actions == t.actions
  {
  }

  /** Every entry after an insertion was there before or is the inserted action. */
  lemma {:induction false} InsertEntries(t: TableState, key: Key, action: Action, priority: Priority)
    ensures var t' := Inserted(t, key, action, priority);
            && t'.actions.Keys == t.actions.Keys + {key}
            && (forall k | k in t'.actions ::
                (k in t.actions && t'.actions[k] == t.actions[k]) || (k == key && t'.actions[k] == action))
            && t'.priorities.Keys == t.priorities.Keys + {key}
  {
  }

  /** Which of a shift and a reduction with these priorities belongs in the table; Undecided where a warning is due. */
  datatype Winner = ShiftWins | ReduceWins | Undecided

  function Decide(shift: Priority, reduce: Priority): Winner {
    if (shift.value == 0 && shift.assoziativity == Undefined) != (reduce.value == 0
        && reduce.assoziativity == Undefined)
    then Undecided
    else if shift.value > reduce.value then ShiftWins
    else if shift.value < reduce.value then ReduceWins
    else if shift.assoziativity != reduce.assoziativity then Undecided
    else match shift.assoziativity
      case Left => ReduceWins
      case Right => ShiftWins
      case Undefined => Undecided
  }

  /** A shift/reduce conflict has the same outcome whichever action comes first: higher priority wins, at equal
      priority left associativity reduces and right associativity shifts, anything else is warned about. */
  lemma {:induction false} ConflictOutcomeIgnoresOrder(t: TableState, key: Key, shift: Action, reduce: Action,
                                                       ps: Priority, pr: Priority)
    requires key !in t.actions && shift.Shift? && reduce.Reduce?
    ensures var a := Inserted(Inserted(t, key, shift, ps), key, reduce, pr);
            var b := Inserted(Inserted(t, key, reduce, pr), key, shift, ps);
            match Decide(ps, pr)
            case ShiftWins => a.actions[key] == b.actions[key] == shift && a.warnings == b.warnings == t.warnings
                              && a.solved == b.solved == t.solved + 1
            case ReduceWins => a.actions[key] == b.actions[key] == reduce && a.warnings == b.warnings == t.warnings
                               && a.solved == b.solved == t.solved + 1
            case Undecided => a.warnings == b.warnings == t.warnings + [ShiftReduceConflictInGrammarDef]
                              && a.solved == b.solved == t.solved
  {
    var a1, b1 := Inserted(t, key, shift, ps), Inserted(t, key, reduce, pr);
    assert a1.actions[key] == shift && a1.priorities[key] == ps;
    assert b1.actions[key] == reduce && b1.priorities[key] == pr;
  }
}
