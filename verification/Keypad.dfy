/** The keypad driver: console-in device, its two queues and its list of key notifications. */
module Keypad {
  import opened Bits
  import opened KeyQueue
  import opened KeyNotify
  import opened KeypadSpec
  import opened Wrappers

  const COUNTER_RANGE := 0x1_0000_0000_0000_0000

  datatype Status = Success | InvalidParameter | OutOfResources | StatusDeviceError

  /** KEYPAD_CONSOLE_IN_EX_NOTIFY; a reference to one is the handle callers hold. */
  class Registration {
    const keyData: KeyData
    const fn: NotifyFunction

    constructor (keyData: KeyData, fn: NotifyFunction)
      ensures this.keyData == keyData && this.fn == fn
    {
      this.keyData, this.fn := keyData, fn;
    }
  }

  function Patterns(list: seq<Registration>): (r: seq<Pattern>)
    ensures |r| == |list|
    ensures forall i :: 0 <= i < |list| ==> r[i] == Pattern(list[i].keyData, list[i].fn)
  {
    seq(|list|, i requires 0 <= i < |list| => Pattern(list[i].keyData, list[i].fn))
  }

  lemma WithoutEntry(list: seq<Registration>, i: nat)
    requires NoDuplicates(list) && i < |list|
    ensures NoDuplicates(list[..i] + list[i + 1..])
    ensures list[i] !in list[..i] + list[i + 1..]
    ensures Patterns(list[..i] + list[i + 1..]) == Unregistered(Patterns(list), i)
  {
    var shorter := list[..i] + list[i + 1..];
    assert forall j :: 0 <= j < |shorter| ==> shorter[j] == if j < i then list[j] else list[j + 1];
  }

  predicate NoDuplicates(list: seq<Registration>) {
    forall i, j :: 0 <= i < j < |list| ==> list[i] != list[j]
  }

  /** What the device hands over during one run of the timer handler. */
  datatype TimerPoll = TimerPoll(counter: nat, keys: seq<KeyData>)

  function KeysOf(polls: seq<TimerPoll>): (r: seq<seq<KeyData>>)
    ensures |r| == |polls|
    ensures forall i :: 0 <= i < |polls| ==> r[i] == polls[i].keys
  {
    seq(|polls|, i requires 0 <= i < |polls| => polls[i].keys)
  }

  class KeypadConsoleInDev {
    const efiKeyQueue: EfiKeyQueue
    const efiKeyQueueForNotify: EfiKeyQueue
    var notifyList: seq<Registration>
    var keypadErr: bool
    var isSupportPartialKey: bool
    var scrollLock: bool
    var numLock: bool
    var capsLock: bool
    var last: nat
    var keyNotifyProcessSignalled: bool

    // The notification functions called so far, with the key each got.
    ghost var calls: seq<(NotifyFunction, KeyData)>

    ghost function Repr(): set<object> {
      {this, efiKeyQueue, efiKeyQueue.buffer, efiKeyQueueForNotify, efiKeyQueueForNotify.buffer}
    }

    ghost predicate Valid()
      reads Repr()
    {
      && efiKeyQueue != efiKeyQueueForNotify && efiKeyQueue.buffer != efiKeyQueueForNotify.buffer
      && efiKeyQueue.Valid() && efiKeyQueueForNotify.Valid()
      && NoDuplicates(notifyList) && NoneSuperfluous(Patterns(notifyList))
      && !(scrollLock && numLock) && !(scrollLock && capsLock) && !(numLock && capsLock)
    }

    ghost function View(): Dev
      requires Valid()
      reads Repr()
    {
      Dev(efiKeyQueue.Contents(), efiKeyQueueForNotify.Contents(), Patterns(notifyList), keypadErr,
          isSupportPartialKey,
          if scrollLock then ScrollLock else if numLock then NumLock else if capsLock then CapsLock else NoLock,
          calls)
    }

    constructor ()
      ensures Valid() && fresh(Repr())
      ensures View() == Dev([], [], [], false, false, NoLock, [])
    {
      efiKeyQueue := new EfiKeyQueue();
      efiKeyQueueForNotify := new EfiKeyQueue();
      notifyList := [];
      keypadErr, isSupportPartialKey, scrollLock, numLock, capsLock := false, false, false, false, false;
      last := COUNTER_RANGE - 1;
      keyNotifyProcessSignalled := false;
      calls := [];
    }

    /** The loop of KeypadReturnApiPushEfikeyBufTail: one copy of the key for each matching registration */
    method PushForNotify(key: KeyData)
      requires Valid()
      modifies efiKeyQueueForNotify, efiKeyQueueForNotify.buffer, `keyNotifyProcessSignalled
      ensures Valid()
      ensures View() == old(View()).(notify := PushedAll(old(View()).notify, Copies(old(View()).list, key)))
      ensures keyNotifyProcessSignalled ==
        (old(keyNotifyProcessSignalled) || MatchCount(Patterns(notifyList), key) > 0)
    {
      hide IsKeyRegistered, PushedAll, Copies, Calls, NoneSuperfluous, NoDuplicates;
      ghost var patterns := Patterns(notifyList);
      ghost var before := View();
      NoCopies(patterns, key, before.notify);
      for i := 0 to |notifyList|
        invariant Valid() && notifyList == old(notifyList)
        invariant View() == before.(notify := PushedAll(before.notify, Copies(patterns[..i], key)))
        invariant keyNotifyProcessSignalled ==
          (old(keyNotifyProcessSignalled) || MatchCount(patterns[..i], key) > 0)
      {
        NextCopy(patterns, i, key, before.notify);
        if IsKeyRegistered(notifyList[i].keyData, key) {
          efiKeyQueueForNotify.PushTail(key);
          keyNotifyProcessSignalled := true;
        }
      }
      assert patterns[..|patterns|] == patterns;
    }

    /** KeypadReturnApiPushEfikeyBufTail */
    method PushEfikeyBufTail(key: KeyData)
      requires Valid()
      modifies Repr() - {this}, `keyNotifyProcessSignalled
      ensures Valid() && View() == Received(old(View()), key)
      ensures keyNotifyProcessSignalled ==
        (old(keyNotifyProcessSignalled) || (Accepts(old(View()), key) && MatchCount(Patterns(notifyList), key) > 0))
    {
      hide PushedAll, Copies, Calls, NoneSuperfluous, NoDuplicates;
      if key.Partial() {
        if !isSupportPartialKey {
          return;
        }
      }
      PushForNotify(key);
      efiKeyQueue.PushTail(key);
    }

    /** KeypadTimerHandler, with the counter it reads and the keys GetKeys hands over */
    method TimerHandler(poll: TimerPoll) returns (deltaCounter: nat)
      requires Valid() && last < COUNTER_RANGE && poll.counter < COUNTER_RANGE
      modifies Repr()
      ensures Valid() && View() == Polled(old(View()), poll.keys)
      ensures notifyList == old(notifyList)
      ensures last == if keypadErr then old(last) else poll.counter
      ensures deltaCounter == if keypadErr then 0 else (poll.counter - old(last)) % 0x1_0000_0000_0000_0000
    {
      if keypadErr {
        return 0;
      }
      deltaCounter := (poll.counter - last) % COUNTER_RANGE;
      last := poll.counter;
      ghost var before := View();
      assert poll.keys[..0] == [];
      for i := 0 to |poll.keys|
        invariant Valid() && View() == ReceivedAll(before, poll.keys[..i])
        invariant last == poll.counter && notifyList == old(notifyList) && !keypadErr
      {
        assert poll.keys[..i + 1][..i] == poll.keys[..i];
        PushEfikeyBufTail(poll.keys[i]);
      }
      assert poll.keys[..|poll.keys|] == poll.keys;
    }

    /** KeypadReadKeyStrokeWorker, which is also KeypadReadKeyStrokeEx */
    method ReadKeyStrokeWorker(poll: TimerPoll) returns (r: ReadResult, keyData: KeyData)
      requires Valid() && last < COUNTER_RANGE && poll.counter < COUNTER_RANGE
      modifies Repr()
      ensures Valid() && last < COUNTER_RANGE
      ensures var polled := Polled(old(View()), poll.keys);
              && View() == PopMain(polled)
              && (r == DeviceError <==> polled.err)
              && (r == NotReady <==> !polled.err && polled.main == [])
              && (r.Ready? ==> polled.main != [] && keyData == polled.main[0]
                               && View() == polled.(main := polled.main[1..])
                               && r == Ready(keyData.scanCode, keyData.unicodeChar))
              && (!r.Ready? ==> View() == polled)
    {
      keyData := KeyData(0, 0, 0, 0);
      var _ := TimerHandler(poll);
      if keypadErr {
        return DeviceError, keyData;
      }
      var popped := efiKeyQueue.PopHead();
      if popped.None? {
        return NotReady, keyData;
      }
      return Ready(popped.value.scanCode, popped.value.unicodeChar), popped.value;
    }

    /** KeypadReadKeyStroke. The loop ends for any finite script of polls: a turn uses up a poll, or
        the device has no more keys and the queue gets shorter. */
    method ReadKeyStroke(polls: seq<TimerPoll>) returns (r: ReadResult)
      requires Valid() && last < COUNTER_RANGE
      requires forall i :: 0 <= i < |polls| ==> polls[i].counter < COUNTER_RANGE
      modifies Repr()
      ensures Valid()
      ensures (View(), r) == ReadSpec(old(View()), KeysOf(polls))
    {
      ghost var goal := ReadSpec(View(), KeysOf(polls));
      var rest := polls;
      while true
        invariant Valid() && last < COUNTER_RANGE
        invariant forall i :: 0 <= i < |rest| ==> rest[i].counter < COUNTER_RANGE
        invariant ReadSpec(View(), KeysOf(rest)) == goal
        decreases |rest|, |View().main|
      {
        var poll := if rest == [] then TimerPoll(last, []) else rest[0];
        ghost var before := View();
        assert FirstPoll(KeysOf(rest)) == poll.keys;
        var keyData;
        r, keyData := ReadKeyStrokeWorker(poll);
        if !r.Ready? {
          return;
        }
        assert LaterPolls(KeysOf(rest)) == KeysOf(if rest == [] then [] else rest[1..]);
        rest := if rest == [] then [] else rest[1..];
        if keyData.scanCode == 0 && keyData.unicodeChar == 0 {
          continue;
        }
        r := TranslateKey(keyData);
        return;
      }
    }

    /** KeypadWaitForKey; the result says whether it signalled the event. */
    method WaitForKey(poll: TimerPoll) returns (signalled: bool)
      requires Valid() && last < COUNTER_RANGE && poll.counter < COUNTER_RANGE
      modifies Repr()
      ensures Valid()
      ensures (View(), signalled) == Waited(Polled(old(View()), poll.keys))
    {
      var _ := TimerHandler(poll);
      signalled := false;
      if !keypadErr {
        ghost var polled := View();
        while !efiKeyQueue.IsEmpty()
          invariant Valid() && !signalled
          invariant View() == polled.(main := View().main)
          invariant DropPartial(View().main) == DropPartial(polled.main)
          decreases |View().main|
        {
          RingPop(efiKeyQueue.buffer[..], efiKeyQueue.head, efiKeyQueue.tail);
          var keyData := efiKeyQueue.buffer[efiKeyQueue.head];
          if keyData.scanCode == 0 && keyData.unicodeChar == 0 {
            var _ := efiKeyQueue.PopHead();
            continue;
          }
          signalled := true;
          break;
        }
      }
    }

    /** KeypadEfiReset over InitKeypad */
    method Reset() returns (status: Status)
      requires Valid()
      modifies Repr()
      ensures Valid() && View() == ResetDone(old(View()))
      ensures status == if keypadErr then StatusDeviceError else Success
      ensures !keypadErr ==> efiKeyQueue.Contents() == [] && efiKeyQueueForNotify.Contents() == []
      ensures !keypadErr ==> !scrollLock && !numLock && !capsLock && !isSupportPartialKey
    {
      if keypadErr {
        return StatusDeviceError;
      }
      efiKeyQueue.Clear();
      efiKeyQueueForNotify.Clear();
      capsLock, numLock, scrollLock := false, false, false;
      isSupportPartialKey := false;
      return Success;
    }

    /** KeypadSetState */
    method SetState(keyToggleState: UInt8) returns (r: SetStateResult)
      requires Valid()
      modifies this
      ensures Valid() && (View(), r) == SetStateDone(old(View()), keyToggleState)
      ensures r == StateSet ==>
        && scrollLock == Bit(keyToggleState, 0)
        && numLock == (!Bit(keyToggleState, 0) && Bit(keyToggleState, 1))
        && capsLock == (!Bit(keyToggleState, 0) && !Bit(keyToggleState, 1) && Bit(keyToggleState, 2))
    {
      SetStateBits(View(), keyToggleState);
      if keypadErr {
        return StateDeviceError;
      } else if And(keyToggleState, EFI_TOGGLE_STATE_VALID) != EFI_TOGGLE_STATE_VALID {
        return StateUnsupported;
      }
      scrollLock, numLock, capsLock, isSupportPartialKey := false, false, false, false;
      if And(keyToggleState, EFI_SCROLL_LOCK_ACTIVE) == EFI_SCROLL_LOCK_ACTIVE {
        scrollLock := true;
      } else if And(keyToggleState, EFI_NUM_LOCK_ACTIVE) == EFI_NUM_LOCK_ACTIVE {
        numLock := true;
      } else if And(keyToggleState, EFI_CAPS_LOCK_ACTIVE) == EFI_CAPS_LOCK_ACTIVE {
        capsLock := true;
      } else if And(keyToggleState, EFI_KEY_STATE_EXPOSED) == EFI_KEY_STATE_EXPOSED {
        isSupportPartialKey := true;
      }
      return StateSet;
    }

    /** KeypadRegisterKeyNotify; poolAvailable says whether the pool allocation would succeed. */
    method RegisterKeyNotify(keyData: Option<KeyData>, fn: Option<NotifyFunction>, poolAvailable: bool)
      returns (status: Status, notifyHandle: Registration?)
      requires Valid()
      modifies `notifyList
      ensures Valid()
      ensures status == InvalidParameter <==> keyData.None? || fn.None?
      ensures status in {Success, InvalidParameter, OutOfResources}
      ensures status != Success ==> notifyList == old(notifyList) && notifyHandle == null
      ensures status == OutOfResources ==>
        !poolAvailable && Registered(Patterns(notifyList), Pattern(keyData.value, fn.value)) != Patterns(notifyList)
      ensures status == Success ==>
        var p := Pattern(keyData.value, fn.value);
        var i := FirstSubsuming(old(Patterns(notifyList)), p, 0);
        && Patterns(notifyList) == Registered(old(Patterns(notifyList)), p)
        && old(notifyList) <= notifyList
        && i < |notifyList| && notifyHandle == notifyList[i]
    {
      if keyData.None? || fn.None? {
        return InvalidParameter, null;
      }
      var p := Pattern(keyData.value, fn.value);
      ghost var patterns := Patterns(notifyList);
      for i := 0 to |notifyList|
        invariant FirstSubsuming(patterns, p, i) == FirstSubsuming(patterns, p, 0)
      {
        if IsKeyRegistered(notifyList[i].keyData, p.keyData) {
          if notifyList[i].fn == p.fn {
            return Success, notifyList[i];
          }
        }
      }
      if !poolAvailable {
        return OutOfResources, null;
      }
      var newNotify := new Registration(p.keyData, p.fn);
      ListStepKeeps(patterns, Register(p));
      notifyList := notifyList + [newNotify];
      assert Patterns(notifyList) == patterns + [p];
      return Success, newNotify;
    }

    /** KeypadUnregisterKeyNotify: removes exactly the named entry and keeps the order of the rest. */
    method UnregisterKeyNotify(notificationHandle: Registration?) returns (status: Status)
      requires Valid()
      modifies `notifyList
      ensures Valid()
      ensures status == Success <==> notificationHandle != null && notificationHandle in old(notifyList)
      ensures status in {Success, InvalidParameter}
      ensures status != Success ==> notifyList == old(notifyList)
      ensures status == Success ==>
        && notificationHandle !in notifyList
        && exists i :: 0 <= i < |old(notifyList)| && old(notifyList)[i] == notificationHandle
                       && notifyList == old(notifyList)[..i] + old(notifyList)[i + 1..]
                       && Patterns(notifyList) == Unregistered(old(Patterns(notifyList)), i)
    {
      if notificationHandle == null {
        return InvalidParameter;
      }
      for i := 0 to |notifyList|
        invariant forall j :: 0 <= j < i ==> notifyList[j] != notificationHandle
      {
        if notifyList[i] == notificationHandle {
          WithoutEntry(notifyList, i);
          ListStepKeeps(Patterns(notifyList), Unregister(i));
          notifyList := notifyList[..i] + notifyList[i + 1..];
          assert old(notifyList)[i] == notificationHandle;
          return Success;
        }
      }
      return InvalidParameter;
    }

    /** KbdFreeNotifyList */
    method FreeNotifyList()
      requires Valid()
      modifies `notifyList
      ensures Valid() && notifyList == []
    {
      while notifyList != []
        invariant Valid()
        decreases |notifyList|
      {
        WithoutEntry(notifyList, 0);
        ListStepKeeps(Patterns(notifyList), Unregister(0));
        assert notifyList[..0] + notifyList[1..] == notifyList[1..];
        notifyList := notifyList[1..];
      }
    }

    /** The inner loop of KeyNotifyProcessHandler */
    method CallMatching(key: KeyData)
      requires Valid()
      modifies `calls
      ensures Valid() && View() == old(View()).(calls := old(calls) + Calls(Patterns(notifyList), key))
    {
      ghost var patterns := Patterns(notifyList);
      assert patterns[..0] == [];
      for i := 0 to |notifyList|
        invariant calls == old(calls) + Calls(patterns[..i], key)
      {
        assert patterns[..i + 1][..i] == patterns[..i];
        if IsKeyRegistered(notifyList[i].keyData, key) {
          calls := calls + [(notifyList[i].fn, key)];
        }
      }
      assert patterns[..|patterns|] == patterns;
    }

    /** KeyNotifyProcessHandler. Between its turns the timer may bring more keys. */
    method KeyNotifyProcessHandler(polls: seq<TimerPoll>)
      requires Valid() && last < COUNTER_RANGE
      requires forall i :: 0 <= i < |polls| ==> polls[i].counter < COUNTER_RANGE
      modifies Repr()
      ensures Valid() && View() == Handled(old(View()), KeysOf(polls))
    {
      ghost var goal := Handled(View(), KeysOf(polls));
      var rest := polls;
      while true
        invariant Valid() && last < COUNTER_RANGE
        invariant forall i :: 0 <= i < |rest| ==> rest[i].counter < COUNTER_RANGE
        invariant Handled(View(), KeysOf(rest)) == goal
        decreases |rest|, |View().notify|
      {
        var done := HandlerStep(if rest == [] then TimerPoll(last, []) else rest[0]);
        if done {
          break;
        }
        assert LaterPolls(KeysOf(rest)) == KeysOf(if rest == [] then [] else rest[1..]);
        rest := if rest == [] then [] else rest[1..];
      }
    }

    /** One turn of the handler and the poll after it; the result says that the queue was empty. */
    method HandlerStep(poll: TimerPoll) returns (done: bool)
      requires Valid() && last < COUNTER_RANGE && poll.counter < COUNTER_RANGE
      modifies Repr()
      ensures Valid() && last < COUNTER_RANGE
      ensures done == (old(View()).notify == [])
      ensures View() == if done then old(View()) else Polled(DispatchedOne(old(View())), poll.keys)
    {
      ghost var turn := View();
      var popped := efiKeyQueueForNotify.PopHead();
      if popped.None? {
        return true;
      }
      CallMatching(popped.value);
      assert View() == DispatchedOne(turn);
      var _ := TimerHandler(poll);
      return false;
    }
  }

  lemma NoCopies(patterns: seq<Pattern>, key: KeyData, q: seq<KeyData>)
    ensures MatchCount(patterns[..0], key) == 0 && PushedAll(q, Copies(patterns[..0], key)) == q
  {
    assert patterns[..0] == [];
  }

  lemma NextCopy(patterns: seq<Pattern>, i: nat, key: KeyData, q: seq<KeyData>)
    requires i < |patterns|
    ensures var a, b := Copies(patterns[..i], key), Copies(patterns[..i + 1], key);
            if IsKeyRegistered(patterns[i].keyData, key) then
              PushedAll(q, b) == Pushed(PushedAll(q, a), key) && |b| == |a| + 1
            else b == a
  {
    assert patterns[..i + 1][..i] == patterns[..i];
    var a, b := Copies(patterns[..i], key), Copies(patterns[..i + 1], key);
    if IsKeyRegistered(patterns[i].keyData, key) {
      assert b[..|b| - 1] == a;
    }
  }

  /** The character translation at the end of KeypadReadKeyStroke */
  method TranslateKey(keyData: KeyData) returns (r: ReadResult)
    ensures r == Translate(keyData)
  {
    var c: UInt16 := keyData.unicodeChar;
    if And(keyData.keyShiftState, EFI_CONTROL_PRESSED) != 0 {
      if 'a' as int <= c <= 'z' as int {
        c := c - 'a' as int + 1;
      } else if 'A' as int <= c <= 'Z' as int {
        c := c - 'A' as int + 1;
      }
    }
    return Ready(keyData.scanCode, c);
  }

  // ---- elapsed time ----

  /** The deltas of successive polls, each taken modulo the counter range. */
  function DeltaSum(last: nat, counters: seq<nat>): nat
    decreases |counters|
  {
    if counters == [] then 0
    else (counters[0] - last) % COUNTER_RANGE + DeltaSum(counters[0], counters[1..])
  }

  /** However often the counter wraps, the deltas add up to the counter's own advance, modulo its range. */
  lemma {:induction false} DeltasAddUp(last: nat, counters: seq<nat>)
    requires counters != []
    ensures (DeltaSum(last, counters) - (counters[|counters| - 1] - last)) % 0x1_0000_0000_0000_0000 == 0
    decreases |counters|
  {
    var d := counters[0] - last;
    assert (d % COUNTER_RANGE - d) % COUNTER_RANGE == 0;
    if |counters| > 1 {
      DeltasAddUp(counters[0], counters[1..]);
    }
  }
}
