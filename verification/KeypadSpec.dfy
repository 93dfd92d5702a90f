/** What the keypad driver does, over plain values: polling, fan-out, reading, waiting, dispatch. */
module KeypadSpec {
  import opened Bits
  import opened KeyQueue
  import opened KeyNotify

  // Shift and toggle state bits of the UEFI simple text input protocol.
  const EFI_CONTROL_PRESSED := 0x0C            // right 0x04, left 0x08
  const EFI_TOGGLE_STATE_VALID := 0x80
  const EFI_KEY_STATE_EXPOSED := 0x40
  const EFI_CAPS_LOCK_ACTIVE := 0x04
  const EFI_NUM_LOCK_ACTIVE := 0x02
  const EFI_SCROLL_LOCK_ACTIVE := 0x01

  datatype Locks = NoLock | ScrollLock | NumLock | CapsLock

  /** The driver's state; calls is the history of notification callbacks. */
  datatype Dev = Dev(
    main: seq<KeyData>,
    notify: seq<KeyData>,
    list: seq<Pattern>,
    err: bool,
    partialOk: bool,
    locks: Locks,
    calls: seq<(NotifyFunction, KeyData)>)

  datatype ReadResult = Ready(scanCode: UInt16, unicodeChar: UInt16) | NotReady | DeviceError

  // ---- keys coming in ----

  predicate Accepts(d: Dev, key: KeyData) {
    key.Partial() ==> d.partialOk
  }

  function AcceptedKeys(d: Dev, keys: seq<KeyData>): seq<KeyData> {
    if keys == [] then []
    else
      var last := |keys| - 1;
      var a := AcceptedKeys(d, keys[..last]);
      if Accepts(d, keys[last]) then a + [keys[last]] else a
  }

  /** The fan-out of one key: a copy to the notify queue per match, then the key to the main queue. */
  function Received(d: Dev, key: KeyData): Dev {
    if !Accepts(d, key) then d
    else d.(notify := PushedAll(d.notify, Copies(d.list, key)), main := Pushed(d.main, key))
  }

  /** A key that has a scan code or a character always enters: the main queue takes it, and the notify queue a
      copy for each registration that matches. One that has neither enters if and only if such keys are
      exposed. */
  lemma KeyEntersIff(d: Dev, key: KeyData)
    ensures var r := Received(d, key);
            var copies := seq(|Calls(d.list, key)|, _ => key);
            if key.scanCode != 0 || key.unicodeChar != 0 || d.partialOk then
              && r.main == Pushed(d.main, key) && r.main[|r.main| - 1] == key
              && r.notify == PushedAll(d.notify, copies)
              && (|d.main| <= 255 ==> r.main == Latest(d.main + [key]))
              && (|d.notify| <= 255 ==> r.notify == Latest(d.notify + copies))
              && r == d.(main := r.main, notify := r.notify)
            else r == d
  {
    if |d.notify| <= 255 {
      PushedAllIsLatest(d.notify, Copies(d.list, key));
    }
    if |d.main| <= 255 {
      PushedAllIsLatest(d.main, [key]);
    }
    assert [key][..0] == [];
    assert PushedAll(d.main, [key]) == Pushed(d.main, key);
    assert Copies(d.list, key) == seq(|Calls(d.list, key)|, _ => key);
  }

  function ReceivedAll(d: Dev, keys: seq<KeyData>): Dev {
    if keys == [] then d else Received(ReceivedAll(d, keys[..|keys| - 1]), keys[|keys| - 1])
  }

  /** One run of the timer handler with the keys the device hands over. */
  function Polled(d: Dev, keys: seq<KeyData>): Dev {
    if d.err then d else ReceivedAll(d, keys)
  }

  lemma {:induction false} ReceivedAllIs(d: Dev, keys: seq<KeyData>)
    ensures var r := ReceivedAll(d, keys);
            && r.list == d.list && r.partialOk == d.partialOk && r.err == d.err && r.locks == d.locks
            && r.calls == d.calls
            && r.main == PushedAll(d.main, AcceptedKeys(d, keys))
            && r.notify == PushedAll(d.notify, CopiesOfAll(d.list, AcceptedKeys(d, keys)))
  {
    if keys != [] {
      var last := |keys| - 1;
      ReceivedAllIs(d, keys[..last]);
      var a := AcceptedKeys(d, keys[..last]);
      if Accepts(d, keys[last]) {
        var more := a + [keys[last]];
        assert more[..|a|] == a && more[|a|] == keys[last];
        PushedAllAppend(d.notify, CopiesOfAll(d.list, a), Copies(d.list, keys[last]));
      }
    }
  }

  // ---- notification ----

  /** One turn of KeyNotifyProcessHandler: pop a key, call every match. */
  function DispatchedOne(d: Dev): Dev {
    if d.notify == [] then d
    else d.(notify := d.notify[1..], calls := d.calls + Calls(d.list, d.notify[0]))
  }

  /** The handler leaves its critical section between keys, so keys may come in between its turns. */
  datatype NotifyStep = KeyIn(key: KeyData) | HandlerTurn

  function NotifyRun(d: Dev, steps: seq<NotifyStep>): Dev {
    if steps == [] then d
    else
      var before := NotifyRun(d, steps[..|steps| - 1]);
      match steps[|steps| - 1]
      case KeyIn(key) => Received(before, key)
      case HandlerTurn => DispatchedOne(before)
  }

  function KeysIn(d: Dev, steps: seq<NotifyStep>): seq<KeyData> {
    if steps == [] then []
    else
      var last := |steps| - 1;
      var keys := KeysIn(d, steps[..last]);
      if steps[last].KeyIn? && Accepts(d, steps[last].key) then keys + [steps[last].key] else keys
  }

  /** Every key that comes in finds room for all its copies. */
  predicate NoOverflow(d: Dev, steps: seq<NotifyStep>) {
    forall i :: 0 <= i < |steps| && steps[i].KeyIn? && Accepts(d, steps[i].key) ==>
      |NotifyRun(d, steps[..i]).notify| + MatchCount(d.list, steps[i].key) <= CAPACITY
  }

  lemma {:induction false} RunKeepsList(d: Dev, steps: seq<NotifyStep>)
    ensures NotifyRun(d, steps).list == d.list && NotifyRun(d, steps).partialOk == d.partialOk
  {
    if steps != [] {
      RunKeepsList(d, steps[..|steps| - 1]);
    }
  }

  lemma {:induction false} RoomForAll(q: seq<KeyData>, keys: seq<KeyData>)
    requires |q| + |keys| <= CAPACITY
    ensures PushedAll(q, keys) == q + keys
  {
    PushedAllIsLatest(q, keys);
  }

  /** However handler turns interleave with incoming keys, callbacks made plus callbacks still owed
      are exactly those owed for the keys that came in, in order. */
  lemma {:induction false} CallbacksConserved(d: Dev, steps: seq<NotifyStep>)
    requires NoOverflow(d, steps)
    ensures var r := NotifyRun(d, steps);
            r.calls + Dispatch(d.list, r.notify)
            == d.calls + Dispatch(d.list, d.notify + CopiesOfAll(d.list, KeysIn(d, steps)))
  {
    if steps == [] {
      assert d.notify + [] == d.notify;
    } else {
      var last := |steps| - 1;
      var earlier := steps[..last];
      assert forall i :: 0 <= i < last ==> earlier[..i] == steps[..i];
      CallbacksConserved(d, earlier);
      RunKeepsList(d, earlier);
      var before := NotifyRun(d, earlier);
      match steps[last]
      case KeyIn(key) =>
        if Accepts(d, key) {
          OneKeyIn(d, before, KeysIn(d, earlier), key);
          var keys := KeysIn(d, earlier);
          assert (keys + [key])[..|keys|] == keys;
        }
      case HandlerTurn =>
        TurnKeepsOwed(before);
    }
  }

  // ---- and when there is no room ----

  /** The keys that fall out of q while keys are pushed. */
  function Dropped(q: seq<KeyData>, keys: seq<KeyData>): seq<KeyData> {
    if keys == [] then []
    else
      var before := PushedAll(q, keys[..|keys| - 1]);
      Dropped(q, keys[..|keys| - 1]) + if |before| == CAPACITY then [before[0]] else []
  }

  lemma {:induction false} DroppedAndKept(q: seq<KeyData>, keys: seq<KeyData>)
    requires |q| <= CAPACITY
    ensures Dropped(q, keys) + PushedAll(q, keys) == q + keys && |PushedAll(q, keys)| <= CAPACITY
    ensures Dropped(q, keys) == [] <==> |q| + |keys| <= CAPACITY
  {
    PushedAllIsLatest(q, keys);
    if keys == [] {
      assert [] + q == q + [];
    } else {
      var last := |keys| - 1;
      DroppedAndKept(q, keys[..last]);
      var before := PushedAll(q, keys[..last]);
      assert q + keys == (q + keys[..last]) + [keys[last]];
      if |before| == CAPACITY {
        assert before == [before[0]] + before[1..];
      }
    }
  }

  /** The copies a run loses before the handler gets to them. */
  function Lost(d: Dev, steps: seq<NotifyStep>): seq<KeyData> {
    if steps == [] then []
    else
      var last := |steps| - 1;
      var before := NotifyRun(d, steps[..last]);
      Lost(d, steps[..last])
      + if steps[last].KeyIn? && Accepts(d, steps[last].key) then
          Dropped(before.notify, Copies(d.list, steps[last].key))
        else []
  }

  /** The callbacks for queued keys, without their order. */
  function Callbacks(list: seq<Pattern>, pending: seq<KeyData>): multiset<(NotifyFunction, KeyData)> {
    multiset(Dispatch(list, pending))
  }

  lemma CallbacksAppend(list: seq<Pattern>, a: seq<KeyData>, b: seq<KeyData>)
    ensures Callbacks(list, a + b) == Callbacks(list, a) + Callbacks(list, b)
  {
    DispatchAppend(list, a, b);
  }

  /** From d to r, with lost copies, for the copies of the keys that came in: callbacks made, still owed and
      lost are together those due. */
  predicate Accounted(d: Dev, r: Dev, lost: seq<KeyData>, copies: seq<KeyData>) {
    multiset(r.calls) + Callbacks(d.list, r.notify) + Callbacks(d.list, lost)
    == multiset(d.calls) + Callbacks(d.list, d.notify) + Callbacks(d.list, copies)
  }

  lemma TurnAccounted(d: Dev, before: Dev, lost: seq<KeyData>, copies: seq<KeyData>)
    requires before.list == d.list && Accounted(d, before, lost, copies)
    ensures Accounted(d, DispatchedOne(before), lost, copies)
  {
    var r := DispatchedOne(before);
    TurnKeepsOwed(before);
    assert multiset(r.calls + Dispatch(d.list, r.notify)) == multiset(before.calls + Dispatch(d.list, before.notify));
  }

  lemma PushAccounted(d: Dev, before: Dev, lost: seq<KeyData>, copies: seq<KeyData>, more: seq<KeyData>)
    requires |before.notify| <= CAPACITY && Accounted(d, before, lost, copies)
    ensures Accounted(d, before.(notify := PushedAll(before.notify, more)),
                      lost + Dropped(before.notify, more), copies + more)
  {
    hide Callbacks, PushedAll, Dropped;
    var q := before.notify;
    DroppedAndKept(q, more);
    CallbacksAppend(d.list, Dropped(q, more), PushedAll(q, more));
    CallbacksAppend(d.list, q, more);
    CallbacksAppend(d.list, lost, Dropped(q, more));
    CallbacksAppend(d.list, copies, more);
    Trade(multiset(before.calls), Callbacks(d.list, q), Callbacks(d.list, PushedAll(q, more)),
          Callbacks(d.list, lost), Callbacks(d.list, Dropped(q, more)), Callbacks(d.list, more));
  }

  /** What is pushed into a queue is kept in it or drops out of it. */
  lemma Trade<T>(made: multiset<T>, queued: multiset<T>, kept: multiset<T>, lost: multiset<T>,
                 dropped: multiset<T>, pushed: multiset<T>)
    requires dropped + kept == queued + pushed
    ensures made + kept + (lost + dropped) == made + queued + lost + pushed
  {
    assert made + kept + (lost + dropped) == made + lost + (dropped + kept);
    assert made + lost + (queued + pushed) == made + queued + lost + pushed;
  }

  lemma KeyInAccounted(d: Dev, before: Dev, lost: seq<KeyData>, copies: seq<KeyData>, key: KeyData)
    requires before.list == d.list && Accepts(before, key)
    requires |before.notify| <= CAPACITY && Accounted(d, before, lost, copies)
    ensures Accounted(d, Received(before, key), lost + Dropped(before.notify, Copies(d.list, key)),
                      copies + Copies(d.list, key))
  {
    hide Callbacks, PushedAll, Dropped, Copies;
    PushAccounted(d, before, lost, copies, Copies(d.list, key));
  }

  /** What one more key adds to what was lost and to what came in. */
  lemma KeyInNext(d: Dev, steps: seq<NotifyStep>)
    requires steps != [] && steps[|steps| - 1].KeyIn? && Accepts(d, steps[|steps| - 1].key)
    ensures var earlier, copies := steps[..|steps| - 1], Copies(d.list, steps[|steps| - 1].key);
            && Lost(d, steps) == Lost(d, earlier) + Dropped(NotifyRun(d, earlier).notify, copies)
            && CopiesOfAll(d.list, KeysIn(d, steps)) == CopiesOfAll(d.list, KeysIn(d, earlier)) + copies
  {
    hide NotifyRun, Dropped, Copies;
    var keys := KeysIn(d, steps[..|steps| - 1]);
    assert (keys + [steps[|steps| - 1].key])[..|keys|] == keys;
  }

  lemma {:induction false} NotifyBounded(d: Dev, steps: seq<NotifyStep>)
    requires |d.notify| <= CAPACITY
    ensures |NotifyRun(d, steps).notify| <= CAPACITY
  {
    if steps != [] {
      NotifyBounded(d, steps[..|steps| - 1]);
      var before := NotifyRun(d, steps[..|steps| - 1]);
      if steps[|steps| - 1].KeyIn? {
        DroppedAndKept(before.notify, Copies(before.list, steps[|steps| - 1].key));
      }
    }
  }

  /** Every callback of every run is accounted for, whether or not the notify queue overflows: callbacks
      made, still owed and lost with a dropped copy are together those due for the keys that came in. A
      reachable notify queue meets the bound (ReachableStates). */
  lemma {:induction false} CallbacksAccounted(d: Dev, steps: seq<NotifyStep>)
    requires |d.notify| <= CAPACITY
    ensures Accounted(d, NotifyRun(d, steps), Lost(d, steps), CopiesOfAll(d.list, KeysIn(d, steps)))
  {
    hide Accounted, Received, DispatchedOne, Dropped, Copies;
    if steps == [] {
      NothingAccounted(d);
    } else {
      var earlier := steps[..|steps| - 1];
      CallbacksAccounted(d, earlier);
      RunKeepsList(d, earlier);
      NotifyBounded(d, earlier);
      var before := NotifyRun(d, earlier);
      var copies := CopiesOfAll(d.list, KeysIn(d, earlier));
      assert Lost(d, earlier) + [] == Lost(d, earlier);
      match steps[|steps| - 1]
      case KeyIn(key) =>
        if Accepts(d, key) {
          KeyInAccounted(d, before, Lost(d, earlier), copies, key);
          KeyInNext(d, steps);
        } else {
          NotReceived(before, key);
        }
      case HandlerTurn =>
        TurnAccounted(d, before, Lost(d, earlier), copies);
    }
  }

  lemma NothingAccounted(d: Dev)
    ensures Accounted(d, d, [], [])
  {
  }

  lemma NotReceived(d: Dev, key: KeyData)
    requires !Accepts(d, key)
    ensures Received(d, key) == d
  {
  }

  /** No copy is lost if and only if every key finds room for all its copies. */
  lemma {:induction false} NothingLostIff(d: Dev, steps: seq<NotifyStep>)
    requires |d.notify| <= CAPACITY
    ensures Lost(d, steps) == [] <==> NoOverflow(d, steps)
  {
    if steps != [] {
      var last := |steps| - 1;
      var earlier := steps[..last];
      NothingLostIff(d, earlier);
      NotifyBounded(d, earlier);
      OverflowNext(d, steps);
      if steps[last].KeyIn? && Accepts(d, steps[last].key) {
        KeyInNext(d, steps);
        DroppedAndKept(NotifyRun(d, earlier).notify, Copies(d.list, steps[last].key));
      }
    }
  }

  lemma OverflowNext(d: Dev, steps: seq<NotifyStep>)
    requires steps != []
    ensures var last := |steps| - 1;
            NoOverflow(d, steps) <==>
              NoOverflow(d, steps[..last]) && (steps[last].KeyIn? && Accepts(d, steps[last].key) ==>
                |NotifyRun(d, steps[..last]).notify| + MatchCount(d.list, steps[last].key) <= CAPACITY)
  {
    hide NotifyRun, MatchCount, Accepts;
    var last := |steps| - 1;
    var earlier := steps[..last];
    assert forall i :: 0 <= i < last ==> earlier[..i] == steps[..i] && earlier[i] == steps[i];
  }

  lemma TurnKeepsOwed(d: Dev)
    ensures DispatchedOne(d).calls + Dispatch(d.list, DispatchedOne(d).notify) == d.calls + Dispatch(d.list, d.notify)
  {
    if d.notify != [] {
      var called, owed := Calls(d.list, d.notify[0]), Dispatch(d.list, d.notify[1..]);
      assert (d.calls + called) + owed == d.calls + (called + owed);
    }
  }

  lemma OneKeyIn(d: Dev, before: Dev, keys: seq<KeyData>, key: KeyData)
    requires before.list == d.list && |before.notify| + MatchCount(d.list, key) <= CAPACITY
    requires before.calls + Dispatch(d.list, before.notify)
          == d.calls + Dispatch(d.list, d.notify + CopiesOfAll(d.list, keys))
    ensures before.calls + Dispatch(d.list, PushedAll(before.notify, Copies(d.list, key)))
         == d.calls + Dispatch(d.list, d.notify + (CopiesOfAll(d.list, keys) + Copies(d.list, key)))
  {
    hide Dispatch, PushedAll, Copies, CopiesOfAll;
    var copies := Copies(d.list, key);
    RoomForAll(before.notify, copies);
    DispatchAppend(d.list, before.notify, copies);
    var owed := d.notify + CopiesOfAll(d.list, keys);
    assert d.notify + (CopiesOfAll(d.list, keys) + copies) == owed + copies;
    DispatchAppend(d.list, owed, copies);
    var more := Dispatch(d.list, copies);
    assert before.calls + (Dispatch(d.list, before.notify) + more)
        == (before.calls + Dispatch(d.list, before.notify)) + more;
    assert (d.calls + Dispatch(d.list, owed)) + more == d.calls + (Dispatch(d.list, owed) + more);
  }

  /** With a fixed list and no overflow, once the notify queue is empty the callbacks made are those
      of every incoming key, m(k) * m(k) for each key k with m(k) matches, in registration order for
      each copy. */
  lemma ExactNotificationCount(d: Dev, steps: seq<NotifyStep>)
    requires d.notify == [] && NoOverflow(d, steps) && NotifyRun(d, steps).notify == []
    ensures NotifyRun(d, steps).calls == d.calls + Dispatch(d.list, CopiesOfAll(d.list, KeysIn(d, steps)))
    ensures |NotifyRun(d, steps).calls| == |d.calls| + SumOfSquares(d.list, KeysIn(d, steps))
  {
    CallbacksConserved(d, steps);
    var copies := CopiesOfAll(d.list, KeysIn(d, steps));
    assert [] + copies == copies;
    assert Dispatch(d.list, []) == [];
    var r := NotifyRun(d, steps);
    assert r.calls + [] == r.calls;
    DispatchCount(d.list, KeysIn(d, steps));
  }

  // ---- reading ----

  /** Control and a letter become the control code 1 to 26. */
  function Translate(key: KeyData): (r: ReadResult)
    ensures r.Ready? && r.scanCode == key.scanCode
  {
    var c := key.unicodeChar;
    if And(key.keyShiftState, EFI_CONTROL_PRESSED) == 0 then Ready(key.scanCode, c)
    else if 'a' as int <= c <= 'z' as int then Ready(key.scanCode, c - 'a' as int + 1)
    else if 'A' as int <= c <= 'Z' as int then Ready(key.scanCode, c - 'A' as int + 1)
    else Ready(key.scanCode, c)
  }

  /** Exactly a letter under either control key is changed, and a letter and its capital give the
      same code. */
  lemma ControlLetters(key: KeyData)
    ensures var control := Bit(key.keyShiftState, 2) || Bit(key.keyShiftState, 3);
            var c := key.unicodeChar;
            && (control && 65 <= c <= 90 ==> Translate(key).unicodeChar == c - 64)
            && (control && 97 <= c <= 122 ==> Translate(key).unicodeChar == c - 96)
            && (!(control && (65 <= c <= 90 || 97 <= c <= 122)) ==> Translate(key).unicodeChar == c)
  {
    var s := key.keyShiftState;
    assert 'a' as int == 97 && 'z' as int == 122 && 'A' as int == 65 && 'Z' as int == 90;
    ControlBits(s);
  }

  lemma ControlBits(s: nat)
    ensures And(s, EFI_CONTROL_PRESSED) != 0 <==> Bit(s, 2) || Bit(s, 3)
  {
    assert Pow2(2) == 4 && Pow2(3) == 8;
    assert Or(4, 8) == 12;
    AndPow2(s, 2);
    AndPow2(s, 3);
    AndOfOr(s);
  }

  lemma AndOfOr(s: nat)
    ensures And(s, 12) != 0 <==> And(s, 4) != 0 || And(s, 8) != 0
  {
    assert And(s, 12) == 2 * And(s / 2, 6);
    assert And(s / 2, 6) == 2 * And(s / 2 / 2, 3);
    assert And(s, 4) == 2 * And(s / 2, 2);
    assert And(s / 2, 2) == 2 * And(s / 2 / 2, 1);
    assert And(s, 8) == 2 * And(s / 2, 4);
    assert And(s / 2, 4) == 2 * And(s / 2 / 2, 2);
  }

  /** The poll scripts of successive reads; a device that has no more keys hands over none. */
  function FirstPoll(polls: seq<seq<KeyData>>): seq<KeyData> {
    if polls == [] then [] else polls[0]
  }

  function LaterPolls(polls: seq<seq<KeyData>>): seq<seq<KeyData>> {
    if polls == [] then [] else polls[1..]
  }

  /** KeypadReadKeyStroke: poll and pop until something other than a partial keystroke comes. */
  function ReadSpec(d: Dev, polls: seq<seq<KeyData>>): (Dev, ReadResult)
    decreases |polls|, |d.main|
  {
    var d1 := Polled(d, FirstPoll(polls));
    if d1.err then (d1, DeviceError)
    else if d1.main == [] then (d1, NotReady)
    else
      var d2 := d1.(main := d1.main[1..]);
      if d1.main[0].Partial() then ReadSpec(d2, LaterPolls(polls))
      else (d2, Translate(d1.main[0]))
  }

  function DropPartial(q: seq<KeyData>): seq<KeyData> {
    if q != [] && q[0].Partial() then DropPartial(q[1..]) else q
  }

  /** KeypadWaitForKey after its poll: the state it leaves, and whether it signals. */
  function Waited(d: Dev): (Dev, bool) {
    if d.err then (d, false)
    else (d.(main := DropPartial(d.main)), DropPartial(d.main) != [])
  }

  predicate AllPartial(q: seq<KeyData>) {
    forall i :: 0 <= i < |q| ==> q[i].scanCode == 0 && q[i].unicodeChar == 0
  }

  /** Waiting removes exactly the leading partial keys. */
  lemma {:induction false} DropPartialIs(q: seq<KeyData>)
    ensures |DropPartial(q)| <= |q|
    ensures var n := |q| - |DropPartial(q)|;
            && AllPartial(q[..n]) && DropPartial(q) == q[n..]
            && (n < |q| ==> q[n].scanCode != 0 || q[n].unicodeChar != 0)
  {
    if q != [] && q[0].Partial() {
      DropPartialIs(q[1..]);
      var n := |q| - |DropPartial(q)|;
      assert q[..n] == [q[0]] + q[1..][..n - 1];
    }
  }

  /** Wait and read agree. Without a keypad error, waiting signals exactly when some queued key is not
      partial. If it signals and the next poll does not overflow the main queue, the next read returns
      the first such key, whatever comes after. If it does not signal, the queue is empty. */
  lemma WaitReadAgreement(d: Dev, polls: seq<seq<KeyData>>)
    requires !d.err && |d.main| <= CAPACITY
    ensures Waited(d).1 <==> !AllPartial(d.main)
    ensures !Waited(d).1 ==> Waited(d).0.main == [] && ReadSpec(Waited(d).0, []).1 == NotReady
    ensures var (w, signalled) := Waited(d);
            var arrived := AcceptedKeys(w, FirstPoll(polls));
            signalled && |w.main| + |arrived| <= CAPACITY ==>
              ReadSpec(w, polls).1 == Translate(w.main[0])
              && ReadSpec(w, polls).0.main == w.main[1..] + arrived
  {
    hide ReceivedAll, Translate, CopiesOfAll;
    DropPartialIs(d.main);
    var n := |d.main| - |DropPartial(d.main)|;
    if n == |d.main| {
      assert d.main[..n] == d.main;
    }
    var w := Waited(d).0;
    var arrived := AcceptedKeys(w, FirstPoll(polls));
    ReceivedAllIs(w, FirstPoll(polls));
    ReceivedAllIs(w, []);
    if w.main != [] && |w.main| + |arrived| <= CAPACITY {
      RoomForAll(w.main, arrived);
      assert (w.main + arrived)[1..] == w.main[1..] + arrived;
    }
  }

  /** A driver in error signals nothing, reads nothing and changes nothing. */
  lemma NothingAfterError(d: Dev, polls: seq<seq<KeyData>>)
    requires d.err
    ensures Polled(d, FirstPoll(polls)) == d && Waited(d) == (d, false) && ReadSpec(d, polls) == (d, DeviceError)
  {
  }

  /** The state after n turns of a read that each polled and took a key. */
  function Skipped(d: Dev, polls: seq<seq<KeyData>>, n: nat): Dev {
    if n == 0 then d else PolledAndTaken(Skipped(d, polls, n - 1), PollAt(polls, n - 1))
  }

  function PolledAndTaken(d: Dev, keys: seq<KeyData>): Dev {
    var polled := Polled(d, keys);
    if polled.main == [] then polled else polled.(main := polled.main[1..])
  }

  function PollAt(polls: seq<seq<KeyData>>, i: nat): seq<KeyData> {
    if i < |polls| then polls[i] else []
  }

  /** The same with the poll of the turn after them. */
  function Turned(d: Dev, polls: seq<seq<KeyData>>, n: nat): Dev {
    Polled(Skipped(d, polls, n), PollAt(polls, n))
  }

  /** A read takes keys without scan code and character, one a turn, and then reports an error, an empty queue
      or the first other key. */
  lemma {:induction false} ReadSkips(d: Dev, polls: seq<seq<KeyData>>) returns (n: nat)
    ensures forall i :: 0 <= i < n ==> BothZeroFirst(Turned(d, polls, i))
    ensures var t := Turned(d, polls, n);
            if t.err then ReadSpec(d, polls) == (t, DeviceError)
            else if t.main == [] then ReadSpec(d, polls) == (t, NotReady)
            else
              && (t.main[0].scanCode != 0 || t.main[0].unicodeChar != 0)
              && ReadSpec(d, polls) == (t.(main := t.main[1..]), Translate(t.main[0]))
    decreases |polls|, |d.main|
  {
    var d1 := Polled(d, FirstPoll(polls));
    assert Turned(d, polls, 0) == d1;
    if d1.err || d1.main == [] || !d1.main[0].Partial() {
      n := 0;
    } else {
      var d2 := d1.(main := d1.main[1..]);
      var more := ReadSkips(d2, LaterPolls(polls));
      n := more + 1;
      assert Skipped(d, polls, 0) == d && Skipped(d, polls, 1) == d2;
      TurnedLater(d, polls, more);
      forall i | 0 <= i < n
        ensures BothZeroFirst(Turned(d, polls, i))
      {
        if i > 0 {
          TurnedLater(d, polls, i - 1);
          assert BothZeroFirst(Turned(d2, LaterPolls(polls), i - 1));
        }
      }
    }
  }

  /** The oldest key in the queue has neither scan code nor character. */
  predicate BothZeroFirst(d: Dev) {
    !d.err && d.main != [] && d.main[0].scanCode == 0 && d.main[0].unicodeChar == 0
  }

  lemma {:induction false} SkippedLater(d: Dev, polls: seq<seq<KeyData>>, n: nat)
    ensures Skipped(d, polls, n + 1) == Skipped(Skipped(d, polls, 1), LaterPolls(polls), n)
  {
    if n > 0 {
      SkippedLater(d, polls, n - 1);
      assert PollAt(polls, n) == PollAt(LaterPolls(polls), n - 1);
    }
  }

  lemma TurnedLater(d: Dev, polls: seq<seq<KeyData>>, n: nat)
    ensures Turned(d, polls, n + 1) == Turned(Skipped(d, polls, 1), LaterPolls(polls), n)
  {
    SkippedLater(d, polls, n);
    assert PollAt(polls, n + 1) == PollAt(LaterPolls(polls), n);
  }

  /** What the first pop of a read sees in general: the oldest of the latest 255 keys. */
  lemma FirstPopAfterPoll(d: Dev, keys: seq<KeyData>)
    requires !d.err && |d.main| <= CAPACITY
    ensures Polled(d, keys).main == Latest(d.main + AcceptedKeys(d, keys))
  {
    ReceivedAllIs(d, keys);
    PushedAllIsLatest(d.main, AcceptedKeys(d, keys));
  }

  // ---- the handler ----

  /** KeyNotifyProcessHandler: a turn per queued key, with a poll after each turn until the device hands
      over no more keys. */
  function Handled(d: Dev, polls: seq<seq<KeyData>>): Dev
    decreases |polls|, |d.notify|
  {
    if d.notify == [] then d else Handled(Polled(DispatchedOne(d), FirstPoll(polls)), LaterPolls(polls))
  }

  lemma {:induction false} RunAppend(d: Dev, a: seq<NotifyStep>, b: seq<NotifyStep>)
    ensures NotifyRun(d, a + b) == NotifyRun(NotifyRun(d, a), b)
  {
    if b == [] {
      assert a + b == a;
    } else {
      var last := |b| - 1;
      assert (a + b)[..|a + b| - 1] == a + b[..last];
      RunAppend(d, a, b[..last]);
    }
  }

  function KeySteps(keys: seq<KeyData>): seq<NotifyStep> {
    if keys == [] then [] else KeySteps(keys[..|keys| - 1]) + [KeyIn(keys[|keys| - 1])]
  }

  lemma {:induction false} KeyStepsRun(d: Dev, keys: seq<KeyData>)
    ensures NotifyRun(d, KeySteps(keys)) == ReceivedAll(d, keys)
  {
    if keys != [] {
      KeyStepsRun(d, keys[..|keys| - 1]);
      var steps := KeySteps(keys[..|keys| - 1]);
      assert (steps + [KeyIn(keys[|keys| - 1])])[..|steps|] == steps;
    }
  }

  lemma TurnRun(d: Dev)
    ensures NotifyRun(d, [HandlerTurn]) == DispatchedOne(d)
  {
    assert [HandlerTurn][..0] == [];
  }

  /** The handler is one of the interleavings: it takes turns until the notify queue is empty, and the
      keys of its polls come in between. */
  lemma {:induction false} HandledIsRun(d: Dev, polls: seq<seq<KeyData>>) returns (steps: seq<NotifyStep>)
    ensures NotifyRun(d, steps) == Handled(d, polls) && Handled(d, polls).notify == []
    decreases |polls|, |d.notify|
  {
    if d.notify == [] {
      steps := [];
    } else {
      var keys := if d.err then [] else FirstPoll(polls);
      var next := Polled(DispatchedOne(d), FirstPoll(polls));
      var rest := HandledIsRun(next, LaterPolls(polls));
      TurnRun(d);
      KeyStepsRun(DispatchedOne(d), keys);
      RunAppend(d, [HandlerTurn], KeySteps(keys));
      RunAppend(d, [HandlerTurn] + KeySteps(keys), rest);
      steps := [HandlerTurn] + KeySteps(keys) + rest;
    }
  }

  // ---- reset and state ----

  /** KeypadEfiReset over InitKeypad */
  function ResetDone(d: Dev): Dev {
    if d.err then d else d.(main := [], notify := [], partialOk := false, locks := NoLock)
  }

  datatype SetStateResult = StateSet | StateDeviceError | StateUnsupported

  function SetStateDone(d: Dev, toggle: UInt8): (Dev, SetStateResult) {
    if d.err then (d, StateDeviceError)
    else if And(toggle, EFI_TOGGLE_STATE_VALID) != EFI_TOGGLE_STATE_VALID then (d, StateUnsupported)
    else if And(toggle, EFI_SCROLL_LOCK_ACTIVE) == EFI_SCROLL_LOCK_ACTIVE then
      (d.(partialOk := false, locks := ScrollLock), StateSet)
    else if And(toggle, EFI_NUM_LOCK_ACTIVE) == EFI_NUM_LOCK_ACTIVE then
      (d.(partialOk := false, locks := NumLock), StateSet)
    else if And(toggle, EFI_CAPS_LOCK_ACTIVE) == EFI_CAPS_LOCK_ACTIVE then
      (d.(partialOk := false, locks := CapsLock), StateSet)
    else (d.(partialOk := And(toggle, EFI_KEY_STATE_EXPOSED) == EFI_KEY_STATE_EXPOSED, locks := NoLock), StateSet)
  }

  /** What each toggle bit does: bit 7 says that the rest counts; bits 0, 1 and 2 ask for scroll, number and
      capitals lock, the lowest wins; bit 6 exposes partial keys if no lock is asked for. */
  lemma SetStateBits(d: Dev, toggle: UInt8)
    ensures var (r, status) := SetStateDone(d, toggle);
            var locks := if Bit(toggle, 0) then ScrollLock
                         else if Bit(toggle, 1) then NumLock
                         else if Bit(toggle, 2) then CapsLock else NoLock;
            if d.err then r == d && status == StateDeviceError
            else if !Bit(toggle, 7) then r == d && status == StateUnsupported
            else
              && status == StateSet
              && r == d.(locks := locks,
                         partialOk := Bit(toggle, 6) && !Bit(toggle, 0) && !Bit(toggle, 1) && !Bit(toggle, 2))
  {
    assert Pow2(3) == 8 && Pow2(6) == 64 && Pow2(7) == 128;
    AndPow2Is(toggle, 0);
    AndPow2Is(toggle, 1);
    AndPow2Is(toggle, 2);
    AndPow2Is(toggle, 6);
    AndPow2Is(toggle, 7);
  }

  // ---- whole runs ----

  datatype DevOp =
    | Poll(keys: seq<KeyData>)
    | Read(polls: seq<seq<KeyData>>)
    | ReadEx(keys: seq<KeyData>)
    | Wait(keys: seq<KeyData>)
    | ResetDev
    | SetState(toggle: UInt8)
    | ChangeList(op: ListOp)
    | Handler(polls: seq<seq<KeyData>>)
    | Turn

  function PopMain(d: Dev): Dev {
    if d.err || d.main == [] then d else d.(main := d.main[1..])
  }

  function DevStep(d: Dev, op: DevOp): Dev {
    match op
    case Poll(keys) => Polled(d, keys)
    case Read(polls) => ReadSpec(d, polls).0
    case ReadEx(keys) => PopMain(Polled(d, keys))
    case Wait(keys) => Waited(Polled(d, keys)).0
    case ResetDev => ResetDone(d)
    case SetState(toggle) => SetStateDone(d, toggle).0
    case ChangeList(o) => d.(list := ListStep(d.list, o))
    case Handler(polls) => Handled(d, polls)
    case Turn => DispatchedOne(d)
  }

  function DevRun(ops: seq<DevOp>): Dev {
    if ops == [] then Dev([], [], [], false, false, NoLock, [])
    else DevStep(DevRun(ops[..|ops| - 1]), ops[|ops| - 1])
  }

  predicate NoPartial(q: seq<KeyData>) {
    forall i :: 0 <= i < |q| ==> q[i].scanCode != 0 || q[i].unicodeChar != 0
  }

  /** Some SetState since the last reset turned partial keys on. */
  predicate PartialTurnedOn(ops: seq<DevOp>) {
    ops != [] &&
    match ops[|ops| - 1]
    case ResetDev => false
    case SetState(toggle) =>
      || PartialTurnedOn(ops[..|ops| - 1])
      || SetStateDone(Dev([], [], [], false, false, NoLock, []), toggle).0.partialOk
    case _ => PartialTurnedOn(ops[..|ops| - 1])
  }

  predicate Bounded(d: Dev) {
    |d.main| <= CAPACITY && |d.notify| <= CAPACITY && NoneSuperfluous(d.list) && !d.err
  }

  /** No partial key is queued and none would be accepted. */
  predicate Clean(d: Dev) {
    NoPartial(d.main) && !d.partialOk
  }

  lemma {:induction false} PushedKeeps(q: seq<KeyData>, keys: seq<KeyData>)
    requires |q| <= CAPACITY
    ensures |PushedAll(q, keys)| <= CAPACITY
    ensures NoPartial(q) && NoPartial(keys) ==> NoPartial(PushedAll(q, keys))
  {
    PushedAllIsLatest(q, keys);
  }

  lemma {:induction false} CleanAccepts(d: Dev, keys: seq<KeyData>)
    requires !d.partialOk
    ensures NoPartial(AcceptedKeys(d, keys))
  {
    if keys != [] {
      CleanAccepts(d, keys[..|keys| - 1]);
    }
  }

  lemma PolledKeeps(d: Dev, keys: seq<KeyData>)
    requires Bounded(d)
    ensures Bounded(Polled(d, keys))
    ensures Clean(d) ==> Clean(Polled(d, keys))
  {
    ReceivedAllIs(d, keys);
    PushedKeeps(d.main, AcceptedKeys(d, keys));
    PushedKeeps(d.notify, CopiesOfAll(d.list, AcceptedKeys(d, keys)));
    if !d.partialOk {
      CleanAccepts(d, keys);
    }
  }

  lemma {:induction false} ReadKeeps(d: Dev, polls: seq<seq<KeyData>>)
    requires Bounded(d)
    ensures Bounded(ReadSpec(d, polls).0)
    ensures Clean(d) ==> Clean(ReadSpec(d, polls).0)
    decreases |polls|, |d.main|
  {
    var d1 := Polled(d, FirstPoll(polls));
    PolledKeeps(d, FirstPoll(polls));
    if d1.main != [] && d1.main[0].Partial() {
      ReadKeeps(d1.(main := d1.main[1..]), LaterPolls(polls));
    }
  }

  lemma {:induction false} HandledKeeps(d: Dev, polls: seq<seq<KeyData>>)
    requires Bounded(d)
    ensures Bounded(Handled(d, polls))
    ensures Clean(d) ==> Clean(Handled(d, polls))
    decreases |polls|, |d.notify|
  {
    if d.notify != [] {
      PolledKeeps(DispatchedOne(d), FirstPoll(polls));
      HandledKeeps(Polled(DispatchedOne(d), FirstPoll(polls)), LaterPolls(polls));
    }
  }

  lemma DevStepKeeps(d: Dev, op: DevOp)
    requires Bounded(d)
    ensures Bounded(DevStep(d, op))
    ensures Clean(d) && !op.SetState? ==> Clean(DevStep(d, op))
    ensures op.ResetDev? ==> Clean(DevStep(d, op))
  {
    match op
    case Poll(keys) => PolledKeeps(d, keys);
    case Read(polls) => ReadKeeps(d, polls);
    case ReadEx(keys) => PolledKeeps(d, keys);
    case Wait(keys) =>
      PolledKeeps(d, keys);
      DropPartialIs(Polled(d, keys).main);
    case ResetDev =>
    case SetState(_) =>
    case ChangeList(o) => ListStepKeeps(d.list, o);
    case Handler(polls) => HandledKeeps(d, polls);
    case Turn =>
  }

  /** Every reachable state of the driver, also between the turns of the handler: both queues within 255
      keys, no superfluous registration, and no partial key queued unless partial keys were turned on since
      the last reset. */
  lemma {:induction false} ReachableStates(ops: seq<DevOp>)
    ensures Bounded(DevRun(ops))
    ensures !PartialTurnedOn(ops) ==> Clean(DevRun(ops))
  {
    if ops != [] {
      var earlier, op := ops[..|ops| - 1], ops[|ops| - 1];
      ReachableStates(earlier);
      DevStepKeeps(DevRun(earlier), op);
    }
  }

  /** Hence without partial keys a read never skips: it returns the oldest key of the queue. */
  lemma CleanReadTakesOldest(d: Dev, polls: seq<seq<KeyData>>)
    requires Bounded(d) && Clean(d)
    ensures var d1 := Polled(d, FirstPoll(polls));
            ReadSpec(d, polls).1 == if d1.main == [] then NotReady else Translate(d1.main[0])
  {
    PolledKeeps(d, FirstPoll(polls));
  }

  // ---- a reset forgets ----

  function KeysOfPolls(polls: seq<seq<KeyData>>): set<KeyData> {
    set keys, key | keys in polls && key in keys :: key
  }

  /** The keys an operation lets the device hand over. */
  function KeysOfOp(op: DevOp): set<KeyData> {
    match op
    case Poll(keys) => set key | key in keys
    case Read(polls) => KeysOfPolls(polls)
    case ReadEx(keys) => set key | key in keys
    case Wait(keys) => set key | key in keys
    case Handler(polls) => KeysOfPolls(polls)
    case _ => {}
  }

  function KeysOfOps(ops: seq<DevOp>): set<KeyData> {
    if ops == [] then {} else KeysOfOps(ops[..|ops| - 1]) + KeysOfOp(ops[|ops| - 1])
  }

  /** What is queued, and what the callbacks after the first count got, is among keys. */
  predicate OnlyAbout(d: Dev, keys: set<KeyData>, count: nat) {
    && (forall key :: key in d.main ==> key in keys)
    && (forall key :: key in d.notify ==> key in keys)
    && (forall i :: count <= i < |d.calls| ==> d.calls[i].1 in keys)
  }

  predicate AllIn(q: seq<KeyData>, keys: set<KeyData>) {
    forall key :: key in q ==> key in keys
  }

  lemma {:induction false} PushedAllFrom(q: seq<KeyData>, more: seq<KeyData>, keys: set<KeyData>)
    requires AllIn(q, keys) && AllIn(more, keys)
    ensures AllIn(PushedAll(q, more), keys)
  {
    if more != [] {
      PushedAllFrom(q, more[..|more| - 1], keys);
    }
  }

  lemma {:induction false} ReceivedFrom(d: Dev, more: seq<KeyData>, keys: set<KeyData>, count: nat)
    requires OnlyAbout(d, keys, count) && AllIn(more, keys)
    ensures OnlyAbout(ReceivedAll(d, more), keys, count)
  {
    if more != [] {
      var last := |more| - 1;
      ReceivedFrom(d, more[..last], keys, count);
      var before := ReceivedAll(d, more[..last]);
      PushedAllFrom(before.notify, Copies(before.list, more[last]), keys);
    }
  }

  lemma PolledFrom(d: Dev, more: seq<KeyData>, keys: set<KeyData>, count: nat)
    requires OnlyAbout(d, keys, count) && AllIn(more, keys)
    ensures OnlyAbout(Polled(d, more), keys, count)
  {
    ReceivedFrom(d, more, keys, count);
  }

  lemma {:induction false} CallsFrom(list: seq<Pattern>, key: KeyData)
    ensures forall i :: 0 <= i < |Calls(list, key)| ==> Calls(list, key)[i].1 == key
  {
    if list != [] {
      CallsFrom(list[..|list| - 1], key);
    }
  }

  lemma TurnFrom(d: Dev, keys: set<KeyData>, count: nat)
    requires OnlyAbout(d, keys, count)
    ensures OnlyAbout(DispatchedOne(d), keys, count)
  {
    if d.notify != [] {
      CallsFrom(d.list, d.notify[0]);
    }
  }

  predicate PollsIn(polls: seq<seq<KeyData>>, keys: set<KeyData>) {
    forall i :: 0 <= i < |polls| ==> AllIn(polls[i], keys)
  }

  lemma {:induction false} ReadFrom(d: Dev, polls: seq<seq<KeyData>>, keys: set<KeyData>, count: nat)
    requires OnlyAbout(d, keys, count) && PollsIn(polls, keys)
    ensures OnlyAbout(ReadSpec(d, polls).0, keys, count)
    decreases |polls|, |d.main|
  {
    PolledFrom(d, FirstPoll(polls), keys, count);
    var d1 := Polled(d, FirstPoll(polls));
    if !d1.err && d1.main != [] && d1.main[0].Partial() {
      ReadFrom(d1.(main := d1.main[1..]), LaterPolls(polls), keys, count);
    }
  }

  lemma {:induction false} HandledFrom(d: Dev, polls: seq<seq<KeyData>>, keys: set<KeyData>, count: nat)
    requires OnlyAbout(d, keys, count) && PollsIn(polls, keys)
    ensures OnlyAbout(Handled(d, polls), keys, count)
    decreases |polls|, |d.notify|
  {
    if d.notify != [] {
      TurnFrom(d, keys, count);
      PolledFrom(DispatchedOne(d), FirstPoll(polls), keys, count);
      HandledFrom(Polled(DispatchedOne(d), FirstPoll(polls)), LaterPolls(polls), keys, count);
    }
  }

  lemma StepFrom(d: Dev, op: DevOp, keys: set<KeyData>, count: nat)
    requires OnlyAbout(d, keys, count) && KeysOfOp(op) <= keys
    ensures OnlyAbout(DevStep(d, op), keys, count)
  {
    match op
    case Poll(more) => PolledFrom(d, more, keys, count);
    case Read(polls) =>
      assert PollsIn(polls, keys);
      ReadFrom(d, polls, keys, count);
    case ReadEx(more) => PolledFrom(d, more, keys, count);
    case Wait(more) =>
      PolledFrom(d, more, keys, count);
      DropPartialIs(Polled(d, more).main);
    case Handler(polls) =>
      assert PollsIn(polls, keys);
      HandledFrom(d, polls, keys, count);
    case Turn => TurnFrom(d, keys, count);
    case _ =>
  }

  /** A reset leaves the registrations, the history and nothing else. */
  lemma ResetEmpties(d: Dev)
    requires !d.err
    ensures ResetDone(d) == Dev([], [], d.list, false, false, NoLock, d.calls)
  {
  }

  /** Nothing the device handed over before a reset is read or leads to a callback after it: whatever comes
      next, queued keys and further callbacks are about keys that came in since. */
  lemma {:induction false} ResetForgets(ops: seq<DevOp>, more: seq<DevOp>)
    ensures OnlyAbout(DevRun(ops + [ResetDev] + more), KeysOfOps(more), |DevRun(ops).calls|)
  {
    if more == [] {
      ReachableStates(ops);
      var reset := ops + [ResetDev];
      assert reset + [] == reset && reset[..|ops|] == ops;
    } else {
      var last := |more| - 1;
      var run := ops + [ResetDev] + more;
      assert run[..|run| - 1] == ops + [ResetDev] + more[..last] && run[|run| - 1] == more[last];
      ResetForgets(ops, more[..last]);
      StepFrom(DevRun(run[..|run| - 1]), more[last], KeysOfOps(more), |DevRun(ops).calls|);
    }
  }
}
