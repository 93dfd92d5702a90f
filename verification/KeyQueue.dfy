/** The drop-oldest ring buffer of the keypad driver. */
module KeyQueue {
  import opened Wrappers

  type UInt8 = n: int | 0 <= n < 0x100
  type UInt16 = n: int | 0 <= n < 0x1_0000
  type UInt32 = n: int | 0 <= n < 0x1_0000_0000

  /** EFI_KEY_DATA */
  datatype KeyData = KeyData(scanCode: UInt16, unicodeChar: UInt16, keyShiftState: UInt32, keyToggleState: UInt8) {

    /** Neither a scan code nor a character: a partial keystroke. */
    predicate Partial() {
      scanCode == 0 && unicodeChar == 0
    }
  }

  const KEYPAD_EFI_KEY_MAX_COUNT := 256
  const CAPACITY := KEYPAD_EFI_KEY_MAX_COUNT - 1

  // ---- specification: a queue and its history since the last reset ----

  /** How a key left the queue. */
  datatype Departure = Removed(key: KeyData) | Evicted(key: KeyData)

  datatype QueueState = QueueState(pending: seq<KeyData>, entered: seq<KeyData>, gone: seq<Departure>)

  datatype QueueOp = Push(key: KeyData) | Pop | Reset

  function Pushed(q: seq<KeyData>, key: KeyData): seq<KeyData> {
    (if |q| == CAPACITY then q[1..] else q) + [key]
  }

  function Step(s: QueueState, op: QueueOp): QueueState {
    match op
    case Push(key) =>
      QueueState(Pushed(s.pending, key), s.entered + [key],
                 if |s.pending| == CAPACITY then s.gone + [Evicted(s.pending[0])] else s.gone)
    case Pop =>
      if s.pending == [] then s
      else QueueState(s.pending[1..], s.entered, s.gone + [Removed(s.pending[0])])
    case Reset => QueueState([], [], [])
  }

  function Keys(gone: seq<Departure>): (r: seq<KeyData>)
    ensures |r| == |gone|
    ensures forall i :: 0 <= i < |gone| ==> r[i] == gone[i].key
  {
    seq(|gone|, i requires 0 <= i < |gone| => gone[i].key)
  }

  /** What is pending is exactly the latest keys that entered, and every other key left in order. */
  predicate Conserves(s: QueueState) {
    Keys(s.gone) + s.pending == s.entered && |s.pending| <= CAPACITY
  }

  lemma StepConserves(s: QueueState, op: QueueOp)
    requires Conserves(s)
    ensures Conserves(Step(s, op))
  {
    var next := Step(s, op);
    match op
    case Push(key) =>
      if |s.pending| == CAPACITY {
        assert Keys(next.gone) == Keys(s.gone) + [s.pending[0]];
        assert s.pending == [s.pending[0]] + s.pending[1..];
      }
      assert Keys(next.gone) + next.pending == s.entered + [key];
    case Pop =>
      if s.pending != [] {
        assert Keys(next.gone) == Keys(s.gone) + [s.pending[0]];
        assert s.pending == [s.pending[0]] + s.pending[1..];
      }
    case Reset =>
  }

  function Run(ops: seq<QueueOp>): QueueState {
    if ops == [] then QueueState([], [], [])
    else Step(Run(ops[..|ops| - 1]), ops[|ops| - 1])
  }

  /** The keys pushed since the last reset, read off the operations. */
  function PushedSince(ops: seq<QueueOp>): seq<KeyData> {
    if ops == [] then []
    else
      match ops[|ops| - 1]
      case Push(key) => PushedSince(ops[..|ops| - 1]) + [key]
      case Pop => PushedSince(ops[..|ops| - 1])
      case Reset => []
  }

  /** Over every run of push, pop and reset: the queue is a suffix of the keys pushed since the reset,
      at most 255 long, and pushed = left (removed or evicted, in order) + pending. */
  lemma {:induction false} RunConserves(ops: seq<QueueOp>)
    ensures Conserves(Run(ops))
    ensures var s := Run(ops);
            && s.entered == PushedSince(ops)
            && |s.pending| <= 255 && |s.pending| <= |s.entered|
            && s.pending == s.entered[|s.entered| - |s.pending|..]
  {
    if ops != [] {
      RunConserves(ops[..|ops| - 1]);
      StepConserves(Run(ops[..|ops| - 1]), ops[|ops| - 1]);
    }
    var s := Run(ops);
    assert s.entered[|Keys(s.gone)|..] == s.pending;
  }

  function Evictions(gone: seq<Departure>): nat {
    if gone == [] then 0
    else Evictions(gone[..|gone| - 1]) + if gone[|gone| - 1].Evicted? then 1 else 0
  }

  /** A key is evicted by a push into a full queue and by nothing else. */
  lemma EvictedOnlyWhenFull(s: QueueState, op: QueueOp)
    requires Conserves(s) && !op.Reset?
    ensures Evictions(Step(s, op).gone) == Evictions(s.gone) + (if op.Push? && |s.pending| == 255 then 1 else 0)
    ensures op.Pop? && s.pending != [] ==>
      Step(s, op).gone == s.gone + [Removed(s.entered[|s.gone|])] && Step(s, op).pending == s.pending[1..]
    ensures op.Pop? && s.pending == [] ==> Step(s, op) == s
  {
    var next := Step(s, op);
    if next.gone != s.gone {
      assert next.gone[..|s.gone|] == s.gone;
    }
    if s.pending != [] {
      assert (Keys(s.gone) + s.pending)[|s.gone|] == s.pending[0];
    }
  }

  // ---- several pushes ----

  function PushedAll(q: seq<KeyData>, keys: seq<KeyData>): seq<KeyData> {
    if keys == [] then q
    else Pushed(PushedAll(q, keys[..|keys| - 1]), keys[|keys| - 1])
  }

  /** The last 255 keys. */
  function Latest(keys: seq<KeyData>): seq<KeyData> {
    if |keys| <= CAPACITY then keys else keys[|keys| - CAPACITY..]
  }

  /** A batch of pushes keeps the latest 255 of what was queued and what came. */
  lemma {:induction false} PushedAllIsLatest(q: seq<KeyData>, keys: seq<KeyData>)
    requires |q| <= CAPACITY
    ensures PushedAll(q, keys) == Latest(q + keys)
  {
    if keys == [] {
      assert q + keys == q;
    } else {
      var last := |keys| - 1;
      PushedAllIsLatest(q, keys[..last]);
      assert q + keys == (q + keys[..last]) + [keys[last]];
    }
  }

  lemma {:induction false} PushedAllAppend(q: seq<KeyData>, a: seq<KeyData>, b: seq<KeyData>)
    ensures PushedAll(q, a + b) == PushedAll(PushedAll(q, a), b)
  {
    if b == [] {
      assert a + b == a;
    } else {
      var last := |b| - 1;
      assert (a + b)[..|a + b| - 1] == a + b[..last];
      PushedAllAppend(q, a, b[..last]);
    }
  }

  // ---- the ring buffer ----

  predicate Slots(b: seq<KeyData>, head: nat, tail: nat) {
    |b| == KEYPAD_EFI_KEY_MAX_COUNT && head < KEYPAD_EFI_KEY_MAX_COUNT && tail < KEYPAD_EFI_KEY_MAX_COUNT
  }

  function Next(i: nat): nat {
    (i + 1) % KEYPAD_EFI_KEY_MAX_COUNT
  }

  /** The slots from head round to tail. */
  function Ring(b: seq<KeyData>, head: nat, tail: nat): (s: seq<KeyData>)
    requires Slots(b, head, tail)
    ensures |s| == if head <= tail then tail - head else tail + KEYPAD_EFI_KEY_MAX_COUNT - head
  {
    if head <= tail then b[head..tail] else b[head..] + b[..tail]
  }

  lemma RingFull(b: seq<KeyData>, head: nat, tail: nat)
    requires Slots(b, head, tail)
    ensures |Ring(b, head, tail)| == CAPACITY <==> Next(tail) == head
  {
    if tail == KEYPAD_EFI_KEY_MAX_COUNT - 1 {
      assert Next(tail) == 0;
    } else {
      assert Next(tail) == tail + 1;
    }
  }

  lemma RingPop(b: seq<KeyData>, head: nat, tail: nat)
    requires Slots(b, head, tail) && head != tail
    ensures Ring(b, head, tail) == [b[head]] + Ring(b, Next(head), tail)
  {
    if head == KEYPAD_EFI_KEY_MAX_COUNT - 1 {
      assert Next(head) == 0;
      assert b[head..] == [b[head]];
      assert b[..tail] == b[0..tail];
    } else {
      assert Next(head) == head + 1;
    }
  }

  lemma RingPush(b: seq<KeyData>, head: nat, tail: nat, key: KeyData)
    requires Slots(b, head, tail) && Next(tail) != head
    ensures Ring(b[tail := key], head, Next(tail)) == Ring(b, head, tail) + [key]
  {
    if tail == KEYPAD_EFI_KEY_MAX_COUNT - 1 {
      assert Next(tail) == 0;
    } else {
      assert Next(tail) == tail + 1;
    }
  }

  class EfiKeyQueue {
    const buffer: array<KeyData>
    var head: nat
    var tail: nat

    // The keys pushed since the last reset, and how those no longer pending left.
    ghost var entered: seq<KeyData>
    ghost var gone: seq<Departure>

    ghost predicate Shape()
      reads this, buffer
    {
      Slots(buffer[..], head, tail)
    }

    ghost function Contents(): seq<KeyData>
      reads this, buffer
      requires Shape()
    {
      Ring(buffer[..], head, tail)
    }

    ghost function State(): QueueState
      reads this, buffer
      requires Shape()
    {
      QueueState(Contents(), entered, gone)
    }

    ghost predicate Valid()
      reads this, buffer
    {
      Shape() && Conserves(State())
    }

    constructor ()
      ensures Valid() && fresh(buffer)
      ensures State() == QueueState([], [], [])
    {
      buffer := new KeyData[KEYPAD_EFI_KEY_MAX_COUNT](_ => KeyData(0, 0, 0, 0));
      head, tail := 0, 0;
      entered, gone := [], [];
    }

    /** IsEfikeyBufEmpty */
    predicate IsEmpty()
      reads this, buffer
      requires Valid()
      ensures IsEmpty() <==> Contents() == []
    {
      head == tail
    }

    /** PopEfikeyBufHead; None stands for EFI_NOT_READY. */
    method PopHead() returns (r: Option<KeyData>)
      requires Valid()
      modifies this
      ensures Valid() && State() == Step(old(State()), Pop)
      ensures r == if old(Contents()) == [] then None else Some(old(Contents())[0])
    {
      if IsEmpty() {
        return None;
      }
      StepConserves(State(), Pop);
      r := Some(buffer[head]);
      AdvanceHead();
      gone := gone + [Removed(r.value)];
    }

    method AdvanceHead()
      requires Shape() && head != tail
      modifies this`head
      ensures Shape()
      ensures old(Contents()) == [buffer[old(head)]] + Contents()
      ensures Contents() == old(Contents())[1..]
    {
      RingPop(buffer[..], head, tail);
      head := (head + 1) % KEYPAD_EFI_KEY_MAX_COUNT;
    }

    /** PushEfikeyBufTail */
    method PushTail(key: KeyData)
      requires Valid()
      modifies this, buffer
      ensures Valid() && State() == Step(old(State()), Push(key))
    {
      StepConserves(State(), Push(key));
      MakeRoom();
      Store(key);
      entered := entered + [key];
    }

    /** A full queue loses its oldest key. */
    method MakeRoom()
      requires Valid()
      modifies this
      ensures Shape() && Next(tail) != head
      ensures var q := old(Contents());
              && Contents() == (if |q| == CAPACITY then q[1..] else q)
              && gone == (if |q| == CAPACITY then old(gone) + [Evicted(q[0])] else old(gone))
              && entered == old(entered)
    {
      RingFull(buffer[..], head, tail);
      ghost var before := gone;
      if (tail + 1) % KEYPAD_EFI_KEY_MAX_COUNT == head {
        var oldest := PopHead();
        gone := before + [Evicted(oldest.value)];
      }
      RingFull(buffer[..], head, tail);
    }

    method Store(key: KeyData)
      requires Shape() && Next(tail) != head
      modifies this`tail, buffer
      ensures Shape() && Contents() == old(Contents()) + [key]
    {
      RingPush(buffer[..], head, tail, key);
      ghost var slots := buffer[..];
      buffer[tail] := key;
      assert buffer[..] == slots[tail := key];
      tail := (tail + 1) % KEYPAD_EFI_KEY_MAX_COUNT;
    }

    /** The queue half of InitKeypad */
    method Clear()
      requires Valid()
      modifies this
      ensures Valid() && State() == Step(old(State()), Reset)
    {
      head, tail := 0, 0;
      entered, gone := [], [];
    }
  }
}
