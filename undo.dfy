/** UndoManager<T> (Undo/UndoManager.cs): the undo and redo stacks, the save
    position that says whether the document is dirty, and the merge flag. An
    action is a value with an identity; what it does to the editor is left to the
    action and recorded here in the order the manager asks for it. */
module Undo {
  import opened Wrappers

  /** An action as the manager sees it: its identity, its concrete type, whether
      it can absorb a later action of that type, and its cancel flag as SetEditor
      leaves it. */
  datatype Action = Action(id: nat, kind: string, canMerge: bool, cancel: bool)

  /** A call the manager makes on an action. */
  datatype Effect = Redone(a: Action) | Undone(a: Action) | Merged(into: Action, from: Action)

  /** The manager's state; the top of each stack is its last element. */
  datatype State = State(undo: seq<Action>, redo: seq<Action>, merge: bool, savePos: int)

  function Top(s: seq<Action>): Action
    requires |s| > 0
  {
    s[|s| - 1]
  }

  /** s reversed: the order in which the actions of s leave a stack. */
  function Reversed<T>(s: seq<T>): (r: seq<T>)
    ensures |r| == |s|
  {
    if s == [] then [] else Reversed(s[1..]) + [s[0]]
  }

  /** Dirty: the undo count is not the one recorded at the last save. */
  predicate IsDirty(st: State)
  {
    st.savePos != |st.undo|
  }

  /** Do merges the action into the undo top exactly when merging is on and the top
      can merge and has the action's type. */
  predicate MergesInto(st: State, a: Action)
  {
    st.merge && |st.undo| > 0 && Top(st.undo).canMerge && Top(st.undo).kind == a.kind
  }

  /** The state after Do(a) on an action that is not cancelled. */
  function DoStep(st: State, a: Action): (r: State)
  {
    var undo := if MergesInto(st, a) then st.undo else st.undo + [a];
    State(undo, [], true, if |undo| <= st.savePos then -1 else st.savePos)
  }

  /** The state after UndoLast on a non-empty undo stack. */
  function UndoStep(st: State): (r: State)
    requires |st.undo| > 0
  {
    State(st.undo[..|st.undo| - 1], st.redo + [Top(st.undo)], false, st.savePos)
  }

  /** The state after RedoLast on a non-empty redo stack. */
  function RedoStep(st: State): (r: State)
    requires |st.redo| > 0
  {
    State(st.undo + [Top(st.redo)], st.redo[..|st.redo| - 1], false, st.savePos)
  }

  /** The last index of a in s, or -1. */
  function LastIndex(s: seq<Action>, a: Action): (k: int)
    ensures -1 <= k < |s|
    ensures k == -1 <==> a !in s
    ensures k >= 0 ==> s[k] == a
  {
    if s == [] then -1
    else if s[|s| - 1] == a then |s| - 1
    else LastIndex(s[..|s| - 1], a)
  }

  /** No action above the last index of a is a. */
  lemma {:induction false} NoneAboveLast(s: seq<Action>, a: Action, j: nat)
    requires LastIndex(s, a) < j < |s|
    ensures s[j] != a
  {
    if s[|s| - 1] != a && j < |s| - 1 {
      NoneAboveLast(s[..|s| - 1], a, j);
    }
  }

  /** An index of a at or above its last index is its last index. */
  lemma LastIsLast(s: seq<Action>, a: Action, j: nat)
    requires LastIndex(s, a) <= j < |s| && s[j] == a
    ensures j == LastIndex(s, a)
  {
    if j > LastIndex(s, a) {
      NoneAboveLast(s, a, j);
    }
  }

  /** The state after UndoOrRedoUpTo(a): the actions above a and a itself moved to
      the other stack one at a time, or an error when a is on neither stack. */
  function UpToStep(st: State, a: Action): (r: Result<State>)
  {
    if a in st.undo then Ok(UndoneTo(st, LastIndex(st.undo, a)))
    else if a in st.redo then Ok(RedoneTo(st, LastIndex(st.redo, a)))
    else Err(UnknownUndoAction(a.id))
  }

  /** The log l once the actions of s from index m up have been undone, the top
      first. */
  function UndoLog(l: seq<Effect>, s: seq<Action>, m: nat): (r: seq<Effect>)
    requires m <= |s|
    decreases |s| - m
  {
    if m == |s| then l else UndoLog(l, s, m + 1) + [Undone(s[m])]
  }

  /** The log l once the actions of s from index m up have been redone, the top
      first. */
  function RedoLog(l: seq<Effect>, s: seq<Action>, m: nat): (r: seq<Effect>)
    requires m <= |s|
    decreases |s| - m
  {
    if m == |s| then l else RedoLog(l, s, m + 1) + [Redone(s[m])]
  }

  class UndoManager {
    var undo: seq<Action>
    var redo: seq<Action>
    var merge: bool
    var savePos: int
    /** The calls made on actions so far. */
    var log: seq<Effect>

    function Current(): State
      reads this
    {
      State(undo, redo, merge, savePos)
    }

    constructor ()
      ensures Current() == State([], [], true, 0) && log == []
      ensures !IsDirty(Current())
    {
      undo, redo, merge, savePos, log := [], [], true, 0, [];
    }

    /** Do(a, performAction): a cancelled action changes nothing; otherwise it is
        redone if asked, merged into the undo top or pushed, the redo stack is
        cleared and merging is turned back on. */
    method Do(a: Action, performAction: bool)
      modifies this
      ensures a.cancel ==> Current() == old(Current()) && log == old(log)
      ensures !a.cancel ==> Current() == DoStep(old(Current()), a)
      ensures !a.cancel ==> log == old(log) + (if performAction then [Redone(a)] else []) +
                                 (if MergesInto(old(Current()), a) then [Merged(Top(old(undo)), a)] else [])
    {
      if a.cancel {
        return;
      }
      if performAction {
        log := log + [Redone(a)];
      }
      if merge && |undo| > 0 && Top(undo).canMerge && Top(undo).kind == a.kind {
        log := log + [Merged(Top(undo), a)];
      } else {
        undo := undo + [a];
      }
      if |undo| <= savePos {
        savePos := -1;
      }
      redo := [];
      merge := true;
    }

    /** Perform(a): the action is redone without being recorded. */
    method Perform(a: Action)
      modifies this`log
      ensures log == old(log) + (if a.cancel then [] else [Redone(a)])
    {
      if a.cancel {
        return;
      }
      log := log + [Redone(a)];
    }

    function Dirty(): (r: bool)
      reads this
      ensures r == IsDirty(Current())
    {
      savePos != |undo|
    }

    method Clean()
      modifies this`savePos
      ensures savePos == |undo| && !Dirty()
    {
      savePos := |undo|;
    }

    method ForceDirty()
      modifies this`savePos
      ensures savePos == -1 && Dirty()
    {
      savePos := -1;
    }

    method ForceNoMerge()
      modifies this`merge
      ensures !merge
    {
      merge := false;
    }

    /** UndoLast: the undo top is undone and moved to the redo stack. Stack.Pop on
        an empty stack throws before anything changes. */
    method UndoLast() returns (r: Result<Action>)
      modifies this
      ensures |old(undo)| == 0 ==> r == Err(EmptyStack) && Current() == old(Current()) && log == old(log)
      ensures |old(undo)| > 0 ==>
        r == Ok(Top(old(undo))) && Current() == UndoStep(old(Current())) && log == old(log) + [Undone(r.value)]
    {
      if |undo| == 0 {
        return Err(EmptyStack);
      }
      var a := Top(undo);
      undo := undo[..|undo| - 1];
      log := log + [Undone(a)];
      redo := redo + [a];
      merge := false;
      r := Ok(a);
    }

    /** RedoLast: the redo top is redone and moved back to the undo stack. */
    method RedoLast() returns (r: Result<Action>)
      modifies this
      ensures |old(redo)| == 0 ==> r == Err(EmptyStack) && Current() == old(Current()) && log == old(log)
      ensures |old(redo)| > 0 ==>
        r == Ok(Top(old(redo))) && Current() == RedoStep(old(Current())) && log == old(log) + [Redone(r.value)]
    {
      if |redo| == 0 {
        return Err(EmptyStack);
      }
      var a := Top(redo);
      redo := redo[..|redo| - 1];
      log := log + [Redone(a)];
      undo := undo + [a];
      merge := false;
      r := Ok(a);
    }

    /** UndoOrRedoUpTo(a): undo (or redo) one action at a time until a itself has
        moved; an action on neither stack throws. */
    method UndoOrRedoUpTo(a: Action) returns (r: Result<()>)
      modifies this
      ensures UpToStep(old(Current()), a).Err? ==>
        r == Err(UnknownUndoAction(a.id)) && Current() == old(Current()) && log == old(log)
      ensures UpToStep(old(Current()), a).Ok? ==> r == Ok(()) && Current() == UpToStep(old(Current()), a).value
      ensures a in old(undo) ==> log == UndoLog(old(log), old(undo), LastIndex(old(undo), a))
      ensures a !in old(undo) && a in old(redo) ==> log == RedoLog(old(log), old(redo), LastIndex(old(redo), a))
    {
      if a in undo {
        UndoUpTo(a);
        r := Ok(());
      } else if a in redo {
        RedoUpTo(a);
        r := Ok(());
      } else {
        r := Err(UnknownUndoAction(a.id));
      }
    }

    /** while (UndoLastAndGet() != a); */
    method UndoUpTo(a: Action)
      requires a in undo
      modifies this
      ensures var k := LastIndex(old(undo), a);
        Current() == UndoneTo(old(Current()), k) && log == UndoLog(old(log), old(undo), k)
    {
      ghost var st0, l0, k := Current(), log, LastIndex(undo, a);
      FirstUndo(st0);
      var r := UndoLast();
      var last := r.value;
      ghost var n := |st0.undo| - 1;
      while last != a
        invariant k <= n < |st0.undo| && last == st0.undo[n]
        invariant Current() == UndoneTo(st0, n) && log == UndoLog(l0, st0.undo, n)
        invariant n == k ==> last == a
        decreases n
      {
        last := UndoNext(st0, l0, n);
        n := n - 1;
      }
      LastIsLast(st0.undo, a, n);
    }

    /** One more step of UndoUpTo: the action at index n - 1 moves. */
    method UndoNext(ghost st0: State, ghost l0: seq<Effect>, ghost n: nat) returns (last: Action)
      requires 0 < n <= |st0.undo| && Current() == UndoneTo(st0, n) && log == UndoLog(l0, st0.undo, n)
      modifies this
      ensures Current() == UndoneTo(st0, n - 1) && log == UndoLog(l0, st0.undo, n - 1)
      ensures last == st0.undo[n - 1]
    {
      UndoOneMore(st0, n);
      var r := UndoLast();
      last := r.value;
    }

    /** while (RedoLastAndGet() != a); */
    method RedoUpTo(a: Action)
      requires a in redo
      modifies this
      ensures var k := LastIndex(old(redo), a);
        Current() == RedoneTo(old(Current()), k) && log == RedoLog(old(log), old(redo), k)
    {
      ghost var st0, l0, k := Current(), log, LastIndex(redo, a);
      FirstRedo(st0);
      var r := RedoLast();
      var last := r.value;
      ghost var n := |st0.redo| - 1;
      while last != a
        invariant k <= n < |st0.redo| && last == st0.redo[n]
        invariant Current() == RedoneTo(st0, n) && log == RedoLog(l0, st0.redo, n)
        invariant n == k ==> last == a
        decreases n
      {
        last := RedoNext(st0, l0, n);
        n := n - 1;
      }
      LastIsLast(st0.redo, a, n);
    }

    /** One more step of RedoUpTo: the action at index n - 1 moves. */
    method RedoNext(ghost st0: State, ghost l0: seq<Effect>, ghost n: nat) returns (last: Action)
      requires 0 < n <= |st0.redo| && Current() == RedoneTo(st0, n) && log == RedoLog(l0, st0.redo, n)
      modifies this
      ensures Current() == RedoneTo(st0, n - 1) && log == RedoLog(l0, st0.redo, n - 1)
      ensures last == st0.redo[n - 1]
    {
      RedoOneMore(st0, n);
      var r := RedoLast();
      last := r.value;
    }
  }

  /** The state once the undo actions from index m up have been undone. */
  function UndoneTo(st: State, m: nat): State
    requires m <= |st.undo|
  {
    State(st.undo[..m], st.redo + Reversed(st.undo[m..]), false, st.savePos)
  }

  /** The state once the redo actions from index m up have been redone. */
  function RedoneTo(st: State, m: nat): State
    requires m <= |st.redo|
  {
    State(st.undo + Reversed(st.redo[m..]), st.redo[..m], false, st.savePos)
  }

  lemma FirstUndo(st: State)
    requires |st.undo| > 0
    ensures UndoStep(st) == UndoneTo(st, |st.undo| - 1)
  {
    assert Reversed(st.undo[|st.undo| - 1..]) == [Top(st.undo)];
  }

  lemma FirstRedo(st: State)
    requires |st.redo| > 0
    ensures RedoStep(st) == RedoneTo(st, |st.redo| - 1)
  {
    assert Reversed(st.redo[|st.redo| - 1..]) == [Top(st.redo)];
  }

  lemma UndoOneMore(st: State, m: nat)
    requires 0 < m <= |st.undo|
    ensures |UndoneTo(st, m).undo| > 0 && Top(UndoneTo(st, m).undo) == st.undo[m - 1]
    ensures UndoStep(UndoneTo(st, m)) == UndoneTo(st, m - 1)
  {
    MovedOneMore(st.undo, m - 1);
    assert st.undo[..m][..m - 1] == st.undo[..m - 1];
    var r := Reversed(st.undo[m..]);
    assert st.redo + r + [st.undo[m - 1]] == st.redo + (r + [st.undo[m - 1]]);
  }

  lemma RedoOneMore(st: State, m: nat)
    requires 0 < m <= |st.redo|
    ensures |RedoneTo(st, m).redo| > 0 && Top(RedoneTo(st, m).redo) == st.redo[m - 1]
    ensures RedoStep(RedoneTo(st, m)) == RedoneTo(st, m - 1)
  {
    MovedOneMore(st.redo, m - 1);
    assert st.redo[..m][..m - 1] == st.redo[..m - 1];
    var r := Reversed(st.redo[m..]);
    assert st.undo + r + [st.redo[m - 1]] == st.undo + (r + [st.redo[m - 1]]);
  }

  /** Moving the action at index i after those above it extends the reversed run by
      that action. */
  lemma MovedOneMore<T>(s: seq<T>, i: nat)
    requires i < |s|
    ensures Reversed(s[i..]) == Reversed(s[i + 1..]) + [s[i]]
  {
    assert s[i..][1..] == s[i + 1..];
  }

  /** The undo log is l followed by one Undone per moved action, the top first. */
  lemma {:induction false} UndoLogContents(l: seq<Effect>, s: seq<Action>, m: nat)
    requires m <= |s|
    ensures var r := UndoLog(l, s, m);
      |r| == |l| + |s| - m && r[..|l|] == l &&
      forall j :: |l| <= j < |r| ==> r[j] == Undone(s[|s| + |l| - 1 - j])
    decreases |s| - m
  {
    if m < |s| {
      UndoLogContents(l, s, m + 1);
    }
  }

  /** The redo log is l followed by one Redone per moved action, the top first. */
  lemma {:induction false} RedoLogContents(l: seq<Effect>, s: seq<Action>, m: nat)
    requires m <= |s|
    ensures var r := RedoLog(l, s, m);
      |r| == |l| + |s| - m && r[..|l|] == l &&
      forall j :: |l| <= j < |r| ==> r[j] == Redone(s[|s| + |l| - 1 - j])
    decreases |s| - m
  {
    if m < |s| {
      RedoLogContents(l, s, m + 1);
    }
  }

  /** Reversed(s) holds the elements of s from the last to the first. */
  lemma {:induction false} ReversedAt<T>(s: seq<T>)
    ensures forall i :: 0 <= i < |s| ==> Reversed(s)[i] == s[|s| - 1 - i]
  {
    if s != [] {
      ReversedAt(s[1..]);
    }
  }

  /** Undoing the top and redoing it gives the stacks back; merging is left off. */
  lemma UndoThenRedo(st: State)
    requires |st.undo| > 0
    ensures |UndoStep(st).redo| > 0 && RedoStep(UndoStep(st)) == st.(merge := false)
  {
    assert st.undo[..|st.undo| - 1] + [Top(st.undo)] == st.undo;
  }

  /** Redoing the top and undoing it gives the stacks back; merging is left off. */
  lemma RedoThenUndo(st: State)
    requires |st.redo| > 0
    ensures |RedoStep(st).undo| > 0 && UndoStep(RedoStep(st)) == st.(merge := false)
  {
    assert st.redo[..|st.redo| - 1] + [Top(st.redo)] == st.redo;
  }

  /** After Do the document is dirty, whatever the save position was: either the
      undo count moved away from it or the save position was passed and forced to
      -1. */
  lemma DoneIsDirty(st: State, a: Action)
    ensures IsDirty(DoStep(st, a))
    ensures DoStep(st, a).savePos == st.savePos || DoStep(st, a).savePos == -1
  {
  }

  /** An action Do pushed is undone by one UndoStep, which takes the undo stack back
      to what it was and leaves only that action to redo. */
  lemma DoThenUndo(st: State, a: Action)
    requires !MergesInto(st, a)
    ensures var d := DoStep(st, a);
      |d.undo| > 0 && UndoStep(d).undo == st.undo && UndoStep(d).redo == [a]
  {
    assert (st.undo + [a])[..|st.undo|] == st.undo;
  }

  /** A forced dirty state (save position -1) stays dirty through every step until
      Clean. */
  lemma ForcedDirtyStays(st: State, a: Action, b: Action)
    requires st.savePos == -1
    ensures DoStep(st, a).savePos == -1 && IsDirty(DoStep(st, a))
    ensures |st.undo| > 0 ==> UndoStep(st).savePos == -1 && IsDirty(UndoStep(st))
    ensures |st.redo| > 0 ==> RedoStep(st).savePos == -1 && IsDirty(RedoStep(st))
    ensures UpToStep(st, b).Ok? ==> UpToStep(st, b).value.savePos == -1 && IsDirty(UpToStep(st, b).value)
  {
  }

  /** UndoOrRedoUpTo fails exactly when the action is on neither stack; otherwise
      the actions keep their number, merging is off, the save position is kept and
      the action is on top of the stack it moved to, with nothing equal to it moved
      before it. */
  lemma UpToMoves(st: State, a: Action)
    ensures UpToStep(st, a).Err? <==> a !in st.undo && a !in st.redo
    ensures UpToStep(st, a).Ok? ==> var r := UpToStep(st, a).value;
      |r.undo| + |r.redo| == |st.undo| + |st.redo| && !r.merge && r.savePos == st.savePos
    ensures a in st.undo ==> var r := UpToStep(st, a).value;
      |r.redo| > |st.redo| && Top(r.redo) == a && a !in r.redo[|st.redo|..|r.redo| - 1]
    ensures a !in st.undo && a in st.redo ==> var r := UpToStep(st, a).value;
      |r.undo| > |st.undo| && Top(r.undo) == a && a !in r.undo[|st.undo|..|r.undo| - 1]
  {
    if a in st.undo {
      MovedAbove(st.undo, a);
    } else if a in st.redo {
      MovedAbove(st.redo, a);
    }
  }

  /** The actions moved off s up to and including the last a: a comes last, and
      none before it is a. */
  lemma MovedAbove(s: seq<Action>, a: Action)
    requires a in s
    ensures var m := Reversed(s[LastIndex(s, a)..]);
      |m| > 0 && m[|m| - 1] == a && a !in m[..|m| - 1]
  {
    var k := LastIndex(s, a);
    var m := Reversed(s[k..]);
    ReversedAt(s[k..]);
    forall i | 0 <= i < |m| - 1
      ensures m[i] != a
    {
      NoneAboveLast(s, a, |s| - 1 - i);
    }
  }

  /** The state after n single undo steps. */
  function UndoTimes(st: State, n: nat): (r: State)
    requires n <= |st.undo|
    ensures |r.undo| == |st.undo| - n
  {
    if n == 0 then st else UndoStep(UndoTimes(st, n - 1))
  }

  /** The state after n single redo steps. */
  function RedoTimes(st: State, n: nat): (r: State)
    requires n <= |st.redo|
    ensures |r.redo| == |st.redo| - n
  {
    if n == 0 then st else RedoStep(RedoTimes(st, n - 1))
  }

  /** Undoing up to index m is the same as m fewer single undo steps than there
      are actions, so UpToStep agrees with UndoLast repeated. */
  lemma {:induction false} UndoTimesIsUndoneTo(st: State, n: nat)
    requires 0 < n <= |st.undo|
    ensures UndoTimes(st, n) == UndoneTo(st, |st.undo| - n)
  {
    if n == 1 {
      FirstUndo(st);
    } else {
      UndoTimesIsUndoneTo(st, n - 1);
      UndoOneMore(st, |st.undo| - n + 1);
    }
  }

  /** Redoing up to index m is the same as m fewer single redo steps than there
      are actions. */
  lemma {:induction false} RedoTimesIsRedoneTo(st: State, n: nat)
    requires 0 < n <= |st.redo|
    ensures RedoTimes(st, n) == RedoneTo(st, |st.redo| - n)
  {
    if n == 1 {
      FirstRedo(st);
    } else {
      RedoTimesIsRedoneTo(st, n - 1);
      RedoOneMore(st, |st.redo| - n + 1);
    }
  }
}
