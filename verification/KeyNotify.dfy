/** Key notification patterns and the list of registrations. */
module KeyNotify {
  import opened KeyQueue

  /** An EFI_KEY_NOTIFY_FUNCTION; only its identity matters. */
  type NotifyFunction = nat

  /** IsKeyRegistered: zero shift or toggle state in the registered data matches any. */
  predicate IsKeyRegistered(registered: KeyData, input: KeyData) {
    if registered.scanCode != input.scanCode || registered.unicodeChar != input.unicodeChar then false
    else if registered.keyShiftState != 0 && registered.keyShiftState != input.keyShiftState then false
    else if registered.keyToggleState != 0 && registered.keyToggleState != input.keyToggleState then false
    else true
  }

  /** Which keys a registration matches: scan code and character are the same, and so are shift and toggle
      state unless the registration leaves them zero. */
  lemma MatchesIff(registered: KeyData, input: KeyData)
    ensures IsKeyRegistered(registered, input) <==>
            && input.scanCode == registered.scanCode && input.unicodeChar == registered.unicodeChar
            && registered.keyShiftState in {0, input.keyShiftState}
            && registered.keyToggleState in {0, input.keyToggleState}
  {
  }

  /** As an order between patterns it is partial: reflexive, antisymmetric and transitive. */
  lemma IsKeyRegisteredIsPartialOrder(a: KeyData, b: KeyData, c: KeyData)
    ensures IsKeyRegistered(a, a)
    ensures IsKeyRegistered(a, b) && IsKeyRegistered(b, a) ==> a == b
    ensures IsKeyRegistered(a, b) && IsKeyRegistered(b, c) ==> IsKeyRegistered(a, c)
  {
  }

  datatype Pattern = Pattern(keyData: KeyData, fn: NotifyFunction)

  /** One pattern makes another superfluous: same function, and it matches at least the same keys. */
  predicate Subsumes(p: Pattern, q: Pattern) {
    p.fn == q.fn && IsKeyRegistered(p.keyData, q.keyData)
  }

  /** No earlier entry makes a later one superfluous. */
  predicate NoneSuperfluous(list: seq<Pattern>) {
    forall i, j :: 0 <= i < j < |list| ==> !Subsumes(list[i], list[j])
  }

  /** The first entry that subsumes a request, searching from entry k. */
  function FirstSubsuming(list: seq<Pattern>, p: Pattern, k: nat): (r: nat)
    requires k <= |list|
    ensures k <= r <= |list|
    ensures r < |list| ==> Subsumes(list[r], p)
    ensures forall i :: k <= i < r ==> !Subsumes(list[i], p)
    decreases |list| - k
  {
    if k == |list| || Subsumes(list[k], p) then k else FirstSubsuming(list, p, k + 1)
  }

  function Registered(list: seq<Pattern>, p: Pattern): seq<Pattern> {
    if FirstSubsuming(list, p, 0) < |list| then list else list + [p]
  }

  function Unregistered(list: seq<Pattern>, i: nat): seq<Pattern>
    requires i < |list|
  {
    list[..i] + list[i + 1..]
  }

  datatype ListOp = Register(p: Pattern) | Unregister(index: nat) | FreeAll

  function ListStep(list: seq<Pattern>, op: ListOp): seq<Pattern> {
    match op
    case Register(p) => Registered(list, p)
    case Unregister(i) => if i < |list| then Unregistered(list, i) else list
    case FreeAll => []
  }

  function ListRun(ops: seq<ListOp>): seq<Pattern> {
    if ops == [] then [] else ListStep(ListRun(ops[..|ops| - 1]), ops[|ops| - 1])
  }

  /** Every reachable list is free of superfluous entries. */
  lemma {:induction false} ReachableListsNoneSuperfluous(ops: seq<ListOp>)
    ensures NoneSuperfluous(ListRun(ops))
  {
    if ops != [] {
      ReachableListsNoneSuperfluous(ops[..|ops| - 1]);
      ListStepKeeps(ListRun(ops[..|ops| - 1]), ops[|ops| - 1]);
    }
  }

  lemma ListStepKeeps(list: seq<Pattern>, op: ListOp)
    requires NoneSuperfluous(list)
    ensures NoneSuperfluous(ListStep(list, op))
  {
  }

  /** After a registration the entry found or added answers for the request: it calls the same function
      on every key the request would match. */
  lemma RegistrationCovers(list: seq<Pattern>, p: Pattern, key: KeyData)
    requires IsKeyRegistered(p.keyData, key)
    ensures var i := FirstSubsuming(list, p, 0);
            var after := Registered(list, p);
            i < |after| && after[i].fn == p.fn && IsKeyRegistered(after[i].keyData, key)
  {
    var i := FirstSubsuming(list, p, 0);
    if i < |list| {
      IsKeyRegisteredIsPartialOrder(list[i].keyData, p.keyData, key);
    } else {
      assert (list + [p])[i] == p;
    }
  }

  // ---- matching ----

  /** The functions called for a key, in registration order. */
  function Calls(list: seq<Pattern>, key: KeyData): seq<(NotifyFunction, KeyData)> {
    if list == [] then []
    else
      var last := |list| - 1;
      var calls := Calls(list[..last], key);
      if IsKeyRegistered(list[last].keyData, key) then calls + [(list[last].fn, key)] else calls
  }

  predicate Increasing(at: seq<nat>) {
    forall i, j :: 0 <= i < j < |at| ==> at[i] < at[j]
  }

  /** Every matching registration is called, no other, and in the order of registration. */
  lemma {:induction false} CallsInOrder(list: seq<Pattern>, key: KeyData) returns (at: seq<nat>)
    ensures Increasing(at) && |at| == |Calls(list, key)|
    ensures forall i :: 0 <= i < |at| ==> at[i] < |list| && Calls(list, key)[i] == (list[at[i]].fn, key)
    ensures forall j: nat :: j in at <==> j < |list| && IsKeyRegistered(list[j].keyData, key)
  {
    if list == [] {
      at := [];
    } else {
      var last := |list| - 1;
      at := CallsInOrder(list[..last], key);
      assert forall j: nat :: j in at ==> j < last;
      if IsKeyRegistered(list[last].keyData, key) {
        at := at + [last];
      }
    }
  }

  /** m(k): how many registrations match. */
  function MatchCount(list: seq<Pattern>, key: KeyData): nat {
    |Calls(list, key)|
  }

  /** The callbacks of a drained notify queue. */
  function Dispatch(list: seq<Pattern>, pending: seq<KeyData>): seq<(NotifyFunction, KeyData)> {
    if pending == [] then [] else Calls(list, pending[0]) + Dispatch(list, pending[1..])
  }

  lemma {:induction false} DispatchAppend(list: seq<Pattern>, a: seq<KeyData>, b: seq<KeyData>)
    ensures Dispatch(list, a + b) == Dispatch(list, a) + Dispatch(list, b)
  {
    if a == [] {
      assert a + b == b;
    } else {
      assert (a + b)[1..] == a[1..] + b;
      DispatchAppend(list, a[1..], b);
    }
  }

  /** The copies of a key that go to the notify queue: one per matching registration. */
  function Copies(list: seq<Pattern>, key: KeyData): (r: seq<KeyData>)
    ensures |r| == MatchCount(list, key)
    ensures forall i :: 0 <= i < |r| ==> r[i] == key
  {
    seq(MatchCount(list, key), _ => key)
  }

  function CopiesOfAll(list: seq<Pattern>, keys: seq<KeyData>): seq<KeyData> {
    if keys == [] then [] else CopiesOfAll(list, keys[..|keys| - 1]) + Copies(list, keys[|keys| - 1])
  }

  /** The sum over keys of m(k) * m(k). */
  function SumOfSquares(list: seq<Pattern>, keys: seq<KeyData>): nat {
    if keys == [] then 0
    else
      var key := keys[|keys| - 1];
      SumOfSquares(list, keys[..|keys| - 1]) + MatchCount(list, key) * MatchCount(list, key)
  }

  lemma {:induction false} DispatchOfCopies(list: seq<Pattern>, key: KeyData, copies: seq<KeyData>)
    requires forall i :: 0 <= i < |copies| ==> copies[i] == key
    ensures |Dispatch(list, copies)| == |copies| * MatchCount(list, key)
  {
    if copies != [] {
      DispatchOfCopies(list, key, copies[1..]);
    }
  }

  /** One copy is queued per match and each copy is dispatched to every match. */
  lemma {:induction false} DispatchCount(list: seq<Pattern>, keys: seq<KeyData>)
    ensures |Dispatch(list, CopiesOfAll(list, keys))| == SumOfSquares(list, keys)
  {
    if keys != [] {
      var last := |keys| - 1;
      DispatchCount(list, keys[..last]);
      DispatchAppend(list, CopiesOfAll(list, keys[..last]), Copies(list, keys[last]));
      DispatchOfCopies(list, keys[last], Copies(list, keys[last]));
    }
  }

  /** Every matching registration is called exactly once for a key press if and only if at most one
      registration matches. */
  lemma CalledOnceIff(list: seq<Pattern>, key: KeyData)
    ensures Dispatch(list, Copies(list, key)) == Calls(list, key) <==> MatchCount(list, key) <= 1
  {
    var copies := Copies(list, key);
    DispatchOfCopies(list, key, copies);
    if |copies| == 1 {
      assert copies[1..] == [];
      assert Dispatch(list, copies) == Calls(list, key) + [];
    } else if |copies| >= 2 {
      assert |Dispatch(list, copies)| >= 2 * MatchCount(list, key);
    }
  }

  /** One function registered for a key with and then without shift state is called four times for one
      shifted key press. */
  lemma FourCallsForOneKey()
    ensures var shifted, plain := KeyData(1, 0, 0x8000_0001, 0), KeyData(1, 0, 0, 0);
            var list := Registered(Registered([], Pattern(shifted, 9)), Pattern(plain, 9));
            |list| == 2 && |Dispatch(list, Copies(list, shifted))| == 4
  {
    var shifted, plain := KeyData(1, 0, 0x8000_0001, 0), KeyData(1, 0, 0, 0);
    var one := Registered([], Pattern(shifted, 9));
    assert one == [Pattern(shifted, 9)];
    var list := Registered(one, Pattern(plain, 9));
    assert list == [Pattern(shifted, 9), Pattern(plain, 9)];
    assert list[..1] == one && one[..0] == [];
    assert Calls(one, shifted) == [(9, shifted)];
    DispatchOfCopies(list, shifted, Copies(list, shifted));
  }
}
