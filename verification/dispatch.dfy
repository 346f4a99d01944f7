/**
 * Key-event dispatch: maps a piano key to a render-table index and keeps the
 * registry of the rising animation started for each index.
 */
module KeyDispatch {

  /** A message from the keyboard: its type name ("note_on", "note_off",
      "clock", ...), key number and velocity. */
  datatype Message = Message(kind: string, note: int, velocity: int)

  datatype Direction = Rising | Falling

  /** An animation task the handler created: the table index it animates and
      its direction. A task's handle is its position in the log of tasks. */
  datatype Launch = Launch(index: int, direction: Direction)

  /** What handling a message ends in: normally, or with the lookup error
      raised when a release finds no task registered for its index. */
  datatype Outcome = Done | KeyError(key: int)

  /** Lowest key of an 88-key piano (A0). */
  const LowestKey := 21
  const KeyCount := 88

  /** Integer division that truncates toward zero, as a cast of a quotient
      to an integer does. */
  function TruncDiv(x: int, d: int): (q: int)
    requires d > 0
    ensures x >= 0 ==> 0 <= x - q * d < d
    ensures x < 0 ==> -d < x - q * d <= 0
  {
    if x >= 0 then x / d else -((-x) / d)
  }

  /** The table index of key `note` on a strip of `ledCount` LEDs: the key's
      offset from the lowest key, scaled from 88 keys to the strip and
      truncated toward zero. */
  function NoteIndex(note: int, ledCount: nat): int
  {
    TruncDiv((note - LowestKey) * ledCount, KeyCount)
  }

  /** Every key of the piano lands on the strip. */
  lemma KeyIndexInRange(note: int, ledCount: nat)
    requires LowestKey <= note < LowestKey + KeyCount && ledCount > 0
    ensures 0 <= NoteIndex(note, ledCount) < ledCount
  {
    var x := (note - LowestKey) * ledCount;
    assert 0 <= x <= (KeyCount - 1) * ledCount by {
      assert note - LowestKey <= KeyCount - 1;
    }
    assert x < KeyCount * ledCount;
    var q := NoteIndex(note, ledCount);
    assert q * KeyCount <= x;
  }

  /** Keys further up the piano never land further down the strip. */
  lemma NoteIndexMonotone(a: int, b: int, ledCount: nat)
    requires LowestKey <= a <= b
    ensures NoteIndex(a, ledCount) <= NoteIndex(b, ledCount)
  {
    var x, y := (a - LowestKey) * ledCount, (b - LowestKey) * ledCount;
    assert x <= y by {
      assert y - x == (b - a) * ledCount;
    }
  }

  predicate IsPress(m: Message) { m.kind == "note_on" && m.velocity != 0 }

  predicate IsRelease(m: Message) { m.kind == "note_on" && m.velocity == 0 }

  class Scheduler {
    const ledCount: nat
    var tasks: map<int, nat>   // table index -> handle of its registered task
    var launched: seq<Launch>  // every task created, by handle
    var cancelled: set<nat>    // handles of the tasks cancelled

    /** The registry only holds rising tasks that were created for the index
        they are registered under, and only created tasks are cancelled. */
    ghost predicate Valid()
      reads this
    {
      (forall idx :: idx in tasks ==> tasks[idx] < |launched| && launched[tasks[idx]] == Launch(idx, Rising)) &&
      (forall t :: t in cancelled ==> t < |launched|)
    }

    constructor (ledCount: nat)
      ensures Valid() && this.ledCount == ledCount
      ensures tasks == map[] && launched == [] && cancelled == {}
    {
      this.ledCount := ledCount;
      tasks, launched, cancelled := map[], [], {};
    }

    /** Handles one keyboard message. A press starts a rising task and
        registers it under the key's index, replacing, without cancelling,
        any task registered there. A release cancels and unregisters the
        index's task, then starts a falling task that is not registered; with
        nothing registered it fails before changing anything. Every other
        message changes nothing. */
    method HandleKeypress(msg: Message) returns (outcome: Outcome)
      requires Valid()
      modifies this
      ensures Valid()
      ensures IsPress(msg) ==>
                var idx := NoteIndex(msg.note, ledCount);
                outcome == Done &&
                launched == old(launched) + [Launch(idx, Rising)] &&
                tasks == old(tasks)[idx := |old(launched)|] &&
                cancelled == old(cancelled)
      ensures IsRelease(msg) && NoteIndex(msg.note, ledCount) in old(tasks) ==>
                var idx := NoteIndex(msg.note, ledCount);
                outcome == Done &&
                launched == old(launched) + [Launch(idx, Falling)] &&
                tasks == old(tasks) - {idx} &&
                cancelled == old(cancelled) + {old(tasks)[idx]}
      ensures IsRelease(msg) && NoteIndex(msg.note, ledCount) !in old(tasks) ==>
                outcome == KeyError(NoteIndex(msg.note, ledCount)) && unchanged(this)
      ensures !IsPress(msg) && !IsRelease(msg) ==> outcome == Done && unchanged(this)
    {
      outcome := Done;
      if msg.kind == "note_on" && msg.velocity != 0 {
        var note := NoteIndex(msg.note, ledCount);
        var task := |launched|;
        launched := launched + [Launch(note, Rising)];
        tasks := tasks[note := task];
      } else if msg.kind == "note_on" && msg.velocity == 0 {
        var note := NoteIndex(msg.note, ledCount);
        if note !in tasks {
          return KeyError(note);
        }
        cancelled := cancelled + {tasks[note]};
        tasks := tasks - {note};
        launched := launched + [Launch(note, Falling)];
      }
    }
  }

  /** A key pressed twice and then released: the release cancels only the
      second rising task, and the first is neither cancelled nor registered
      any more, so nothing can stop it. */
  method RepeatedPress(ledCount: nat, note: int, velocity: int)
    returns (firstCancelled: bool, firstRegistered: bool, secondCancelled: bool)
    requires velocity != 0
    ensures !firstCancelled && !firstRegistered && secondCancelled
  {
    var s := new Scheduler(ledCount);
    var o1 := s.HandleKeypress(Message("note_on", note, velocity));
    var o2 := s.HandleKeypress(Message("note_on", note, velocity));
    var o3 := s.HandleKeypress(Message("note_on", note, 0));
    firstCancelled := 0 in s.cancelled;
    firstRegistered := 0 in s.tasks.Values;
    secondCancelled := 1 in s.cancelled;
  }

  /** A release whose press was never seen ends in the lookup error and
      starts no task. */
  method StrayRelease(ledCount: nat, note: int) returns (outcome: Outcome, started: nat)
    ensures outcome == KeyError(NoteIndex(note, ledCount)) && started == 0
  {
    var s := new Scheduler(ledCount);
    outcome := s.HandleKeypress(Message("note_on", note, 0));
    started := |s.launched|;
  }

  /** A "note_off" message is ignored: the task started by the press stays
      registered and nothing is cancelled. */
  method NoteOffIgnored(ledCount: nat, note: int, velocity: int) returns (registered: bool, cancelledCount: nat)
    requires velocity != 0
    ensures registered && cancelledCount == 0
  {
    var s := new Scheduler(ledCount);
    var o1 := s.HandleKeypress(Message("note_on", note, velocity));
    var o2 := s.HandleKeypress(Message("note_off", note, 0));
    registered := NoteIndex(note, ledCount) in s.tasks;
    cancelledCount := |s.cancelled|;
  }
}
