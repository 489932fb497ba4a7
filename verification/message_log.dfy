/**
 The chat client's conversation log and the reducer that edits it. The log is an
 ordered list of turns; every change goes through one action interpreted by
 `Reduce`, so a session's effect on the log is the replay of the actions it
 dispatched.
 */
module MessageLog {
  import opened Base

  datatype Role = User | Assistant

  /** One turn. `error` is set only on the turn that replaces a failed answer. */
  datatype Turn = Turn(id: string, role: Role, content: string, error: bool)

  type Log = seq<Turn>

  /** The commands the reducer understands; `Unrecognized` stands for any other action type. */
  datatype Action =
    | AddMessage(payload: Turn)
    | UpdateLastMessage(content: string)
    | RemoveLastMessage
    | UpdateMessageById(id: string, content: string)
    | SetMessages(messages: Log)
    | Unrecognized(tag: string)

  /** The same turn with only its content replaced (`{ ...msg, content }`). */
  function WithContent(t: Turn, content: string): (r: Turn)
    ensures r.id == t.id && r.role == t.role && r.error == t.error && r.content == content
  {
    t.(content := content)
  }

  /** `ADD_MESSAGE`: the payload goes at the end and every earlier turn stays as it was. */
  function Add(log: Log, t: Turn): (r: Log)
    ensures |r| == |log| + 1
    ensures r[|log|] == t
    ensures forall i :: 0 <= i < |log| ==> r[i] == log[i]
  {
    log + [t]
  }

  /** `UPDATE_LAST_MESSAGE`: only the last turn's content changes; an empty log stays empty. */
  function UpdateLast(log: Log, content: string): (r: Log)
    ensures |r| == |log|
    ensures forall i :: 0 <= i < |log| - 1 ==> r[i] == log[i]
    ensures |log| > 0 ==> r[|log| - 1] == WithContent(log[|log| - 1], content)
  {
    seq(|log|, i requires 0 <= i < |log| => if i == |log| - 1 then WithContent(log[i], content) else log[i])
  }

  /** `REMOVE_LAST_MESSAGE` (`slice(0, -1)`): drops the last turn; on an empty log it is a no-op. */
  function RemoveLast(log: Log): (r: Log)
    ensures |log| == 0 ==> r == []
    ensures |log| > 0 ==> |r| == |log| - 1 && r + [log[|log| - 1]] == log
  {
    if |log| == 0 then [] else log[..|log| - 1]
  }

  /**
   `UPDATE_MESSAGE_BY_ID`: every turn whose id matches gets the new content; ids,
   roles, error flags, order and length are untouched.
   */
  function UpdateById(log: Log, id: string, content: string): (r: Log)
    ensures |r| == |log|
    ensures forall i :: 0 <= i < |log| ==>
      r[i].id == log[i].id && r[i].role == log[i].role && r[i].error == log[i].error
    ensures forall i :: 0 <= i < |log| ==>
      r[i].content == (if log[i].id == id then content else log[i].content)
  {
    seq(|log|, i requires 0 <= i < |log| => if log[i].id == id then WithContent(log[i], content) else log[i])
  }

  /** The reducer: one action applied to the log. */
  function Reduce(log: Log, action: Action): Log {
    match action
    case AddMessage(t) => Add(log, t)
    case UpdateLastMessage(c) => UpdateLast(log, c)
    case RemoveLastMessage => RemoveLast(log)
    case UpdateMessageById(id, c) => UpdateById(log, id, c)
    case SetMessages(m) => m
    case Unrecognized(_) => log
  }

  /** Dispatching a list of actions in order. */
  function Replay(log: Log, actions: seq<Action>): Log
    decreases |actions|
  {
    if actions == [] then log else Replay(Reduce(log, actions[0]), actions[1..])
  }

  predicate HasId(log: Log, id: string) {
    exists i :: 0 <= i < |log| && log[i].id == id
  }

  /** Position `i` holds the first turn carrying `id`. */
  predicate FirstWithId(log: Log, id: string, i: int) {
    0 <= i < |log| && log[i].id == id && forall j :: 0 <= j < i ==> log[j].id != id
  }

  /** `log.find(m => m.id === id)`: the first turn with that id. */
  function Find(log: Log, id: string): Option<Turn> {
    if log == [] then None
    else if log[0].id == id then Some(log[0])
    else Find(log[1..], id)
  }

  /** The lookup finds nothing exactly when no turn has the id, and otherwise the first turn that has it. */
  lemma {:induction false} FindIsFirstMatch(log: Log, id: string)
    ensures Find(log, id).None? <==> !HasId(log, id)
    ensures Find(log, id).Some? ==> exists i :: FirstWithId(log, id, i) && log[i] == Find(log, id).value
  {
    if log == [] {
    } else if log[0].id == id {
      assert FirstWithId(log, id, 0);
    } else {
      FindIsFirstMatch(log[1..], id);
      var r := Find(log[1..], id);
      assert HasId(log[1..], id) ==> HasId(log, id) by {
        if HasId(log[1..], id) {
          var i :| 0 <= i < |log[1..]| && log[1..][i].id == id;
          assert log[i + 1].id == id;
        }
      }
      assert HasId(log, id) ==> HasId(log[1..], id) by {
        if HasId(log, id) {
          var i :| 0 <= i < |log| && log[i].id == id;
          assert i > 0 && log[1..][i - 1].id == id;
        }
      }
      if r.Some? {
        var i :| FirstWithId(log[1..], id, i) && log[1..][i] == r.value;
        assert FirstWithId(log, id, i + 1) by {
          forall j | 0 <= j < i + 1 ensures log[j].id != id {
            if j > 0 { assert log[j] == log[1..][j - 1]; }
          }
        }
      }
    }
  }

  /** `find(...)?.content || ''`: the content of the first turn with that id, or empty. */
  function ContentOf(log: Log, id: string): string {
    match Find(log, id)
    case Some(t) => t.content
    case None => ""
  }

  // ---------------------------------------------------------------------------
  // Properties relating the commands to each other.
  // ---------------------------------------------------------------------------

  /** Removing the last turn undoes adding one. */
  lemma RemoveUndoesAdd(log: Log, t: Turn)
    ensures RemoveLast(Add(log, t)) == log
  {
    assert (log + [t])[..|log|] == log;
  }

  /** Patching by an id nobody carries leaves the log exactly as it was. */
  lemma UpdateUnknownIdIsNoOp(log: Log, id: string, content: string)
    requires !HasId(log, id)
    ensures UpdateById(log, id, content) == log
  {
    var r := UpdateById(log, id, content);
    forall i | 0 <= i < |log| ensures r[i] == log[i] {
      assert log[i].id != id;
    }
  }

  /** Patching twice with the same id: only the later content survives. */
  lemma UpdateByIdOverwrites(log: Log, id: string, c1: string, c2: string)
    ensures UpdateById(UpdateById(log, id, c1), id, c2) == UpdateById(log, id, c2)
  {
  }

  /** Patches of two different ids commute. */
  lemma UpdateByIdCommutes(log: Log, id1: string, c1: string, id2: string, c2: string)
    requires id1 != id2
    ensures UpdateById(UpdateById(log, id1, c1), id2, c2) == UpdateById(UpdateById(log, id2, c2), id1, c1)
  {
  }

  /** When the last turn is the only one with its id, patching it by id is patching the last turn. */
  lemma UpdateLastAgreesWithUpdateById(log: Log, content: string)
    requires |log| > 0
    requires forall i :: 0 <= i < |log| - 1 ==> log[i].id != log[|log| - 1].id
    ensures UpdateLast(log, content) == UpdateById(log, log[|log| - 1].id, content)
  {
  }

  /** After a patch, looking the id up yields the patched content; other ids read as before. */
  lemma {:induction false} ContentAfterUpdate(log: Log, id: string, content: string, other: string)
    ensures HasId(log, id) ==> ContentOf(UpdateById(log, id, content), id) == content
    ensures other != id ==> ContentOf(UpdateById(log, id, content), other) == ContentOf(log, other)
  {
    var r := UpdateById(log, id, content);
    if log != [] {
      assert r[1..] == UpdateById(log[1..], id, content);
      ContentAfterUpdate(log[1..], id, content, other);
      if log[0].id != id && HasId(log, id) {
        var i :| 0 <= i < |log| && log[i].id == id;
        assert log[1..][i - 1].id == id;
      }
    }
  }

  /** Replaying a single action is applying it. */
  lemma ReplayOne(log: Log, x: Action)
    ensures Replay(log, [x]) == Reduce(log, x)
  {
    assert [x][1..] == [];
  }

  /** Replaying two batches is replaying their concatenation. */
  lemma {:induction false} ReplayAppend(log: Log, a: seq<Action>, b: seq<Action>)
    ensures Replay(log, a + b) == Replay(Replay(log, a), b)
    decreases |a|
  {
    if a == [] {
      assert a + b == b;
    } else {
      assert (a + b)[0] == a[0] && (a + b)[1..] == a[1..] + b;
      ReplayAppend(Reduce(log, a[0]), a[1..], b);
    }
  }

  /** A lookup skips a prefix that does not carry the id. */
  lemma {:induction false} FindSkipsPrefix(log: Log, rest: Log, id: string)
    requires !HasId(log, id)
    ensures Find(log + rest, id) == Find(rest, id)
  {
    if log == [] {
      assert log + rest == rest;
    } else {
      assert log[0].id != id && (log + rest)[0] == log[0];
      assert (log + rest)[1..] == log[1..] + rest;
      FindSkipsPrefix(log[1..], rest, id);
    }
  }
}
