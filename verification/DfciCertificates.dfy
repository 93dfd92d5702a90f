/** Saving the TLS CA certificate variable, putting the recovery certificate in its place and restoring
    it, with every variable service and every allocation free to fail. */
module DfciCertificates {
  import opened Bytes
  import opened DfciHttp
  import opened Struct
  import opened Wrappers

  datatype Variable = Variable(attributes: nat, bytes: seq<byte>)

  // EFI_VARIABLE_NON_VOLATILE | EFI_VARIABLE_BOOTSERVICE_ACCESS
  const NV_BS := 3

  /** A pool buffer with the old certificates in it. */
  datatype Saved = Saved(buffer: nat, bytes: seq<byte>)

  /** The variable, the three statics of the client, and the pool. */
  datatype Certs = Certs(
    variable: Option<Variable>,
    list: Option<Saved>,
    attributes: nat,
    size: nat,
    calls: nat,
    asked: nat,
    allocations: nat,
    freed: seq<nat>)

  /** What goes wrong, by number: variable service calls and allocations. */
  datatype Faults = Faults(call: nat -> Option<Failure>, memory: nat -> bool)

  // ---- the services, after section 8.2 of the UEFI standard ----

  /** GetVariable without a buffer: only a variable that outgrows the given size asks for a buffer. */
  function Sized(c: Certs, f: Faults): (Certs, EfiStatus) {
    var next := c.(calls := c.calls + 1);
    if f.call(c.calls).Some? then (next, f.call(c.calls).value)
    else if c.variable.None? then (next, NotFound)
    else if |c.variable.value.bytes| > c.size then (next.(size := |c.variable.value.bytes|), BufferTooSmall)
    else (next, InvalidParameter)
  }

  /** GetVariable into a buffer that is large enough. */
  function Read(c: Certs, f: Faults, buffer: nat): (Certs, EfiStatus) {
    var next := c.(calls := c.calls + 1);
    if f.call(c.calls).Some? then (next, f.call(c.calls).value)
    else if c.variable.None? then (next, NotFound)
    else
      var v := c.variable.value;
      (next.(list := Some(Saved(buffer, v.bytes)), attributes := v.attributes, size := |v.bytes|), Success)
  }

  /** SetVariable: no attributes or no data delete, and a variable that exists keeps its attributes. */
  function Written(c: Certs, f: Faults, attributes: nat, bytes: seq<byte>): (Certs, EfiStatus) {
    var next := c.(calls := c.calls + 1);
    if f.call(c.calls).Some? then (next, f.call(c.calls).value)
    else if attributes == 0 || bytes == [] then
      if c.variable.None? then (next, NotFound) else (next.(variable := None), Success)
    else if c.variable.Some? && c.variable.value.attributes != attributes then (next, InvalidParameter)
    else (next.(variable := Some(Variable(attributes, bytes))), Success)
  }

  // ---- the client ----

  /** RestoreCertificates */
  function Restored(c: Certs, f: Faults): Certs {
    match c.list
    case None => c
    case Some(Saved(buffer, bytes)) =>
      Written(c, f, c.attributes, bytes).0.(list := None, freed := c.freed + [buffer])
  }

  /** The first half of EnableDfciCertificate: the old variable is saved if it can be and deleted. The
      flag is false when there was no memory to save it in. */
  function PutAside(c: Certs, f: Faults): (Certs, bool) {
    var (c1, s) := Sized(c, f);
    if s != BufferTooSmall then (c1, true)
    else if !f.memory(c1.asked) then (c1.(asked := c1.asked + 1), false)
    else
      var buffer := c1.allocations;
      var c2 := c1.(asked := c1.asked + 1, allocations := buffer + 1);
      var (c3, s3) := Read(c2, f, buffer);
      var c4 := if EfiError(s3) then c3.(list := None, freed := c3.freed + [buffer]) else c3;
      (Written(c4, f, 0, []).0, true)
  }

  /** The second half: the recovery certificate becomes the variable. */
  function PutInPlace(c: Certs, f: Faults, packaged: seq<byte>): (Certs, EfiStatus) {
    if !f.memory(c.asked) then (c.(asked := c.asked + 1), OutOfResources)
    else
      var buffer := c.allocations;
      Put(c.(asked := c.asked + 1, allocations := buffer + 1), f, packaged, buffer)
  }

  /** The packaged certificate is written and freed; a failure restores at once. */
  function Put(c: Certs, f: Faults, packaged: seq<byte>, buffer: nat): (Certs, EfiStatus) {
    var (c1, s) := Written(c, f, NV_BS, packaged);
    var c2 := if EfiError(s) then Restored(c1, f) else c1;
    (c2.(freed := c2.freed + [buffer]), s)
  }

  /** EnableDfciCertificate */
  function Enabled(c: Certs, f: Faults, packaged: seq<byte>): (Certs, EfiStatus) {
    var (c1, ok) := PutAside(c, f);
    if !ok then (c1, OutOfResources) else PutInPlace(c1, f, packaged)
  }

  /** ProcessDfciNetworkRequest as far as the certificates go; requests are made if Enabled succeeds,
      and every path restores. */
  function Processed(c: Certs, f: Faults, initialized: EfiStatus, packaged: seq<byte>): Certs {
    if EfiError(initialized) then Restored(c, f) else Restored(Enabled(c, f, packaged).0, f)
  }

  /** The class of the module-level variables and the services they are used with. */
  class CertificateKeeper {
    var variable: Option<Variable>
    var list: Option<Saved>
    var attributes: nat
    var size: nat
    var calls: nat
    var asked: nat
    var allocations: nat
    var freed: seq<nat>

    ghost function View(): Certs
      reads this
    {
      Certs(variable, list, attributes, size, calls, asked, allocations, freed)
    }

    constructor (variable: Option<Variable>)
      ensures View() == Certs(variable, None, 0, 0, 0, 0, 0, [])
    {
      this.variable, list, attributes, size, calls := variable, None, 0, 0, 0;
      asked, allocations, freed := 0, 0, [];
    }

    method AllocatePool(f: Faults) returns (buffer: Option<nat>)
      modifies this`asked, this`allocations
      ensures asked == old(asked) + 1
      ensures if f.memory(old(asked)) then buffer == Some(old(allocations)) && allocations == old(allocations) + 1
              else buffer == None && allocations == old(allocations)
    {
      buffer := if f.memory(asked) then Some(allocations) else None;
      asked := asked + 1;
      if buffer.Some? {
        allocations := allocations + 1;
      }
    }

    method FreePool(buffer: nat)
      modifies this`freed
      ensures freed == old(freed) + [buffer]
    {
      freed := freed + [buffer];
    }

    method GetVariable(f: Faults, into: Option<nat>) returns (status: EfiStatus)
      modifies this
      ensures (View(), status) ==
              if into.None? then Sized(old(View()), f) else Read(old(View()), f, into.value)
    {
      var fault := f.call(calls);
      calls := calls + 1;
      if fault.Some? {
        return fault.value;
      }
      if variable.None? {
        return NotFound;
      }
      if into.Some? {
        list := Some(Saved(into.value, variable.value.bytes));
        attributes, size := variable.value.attributes, |variable.value.bytes|;
        return Success;
      }
      if |variable.value.bytes| > size {
        size := |variable.value.bytes|;
        return BufferTooSmall;
      }
      status := InvalidParameter;
    }

    method SetVariable(f: Faults, attributes: nat, bytes: seq<byte>) returns (status: EfiStatus)
      modifies this`variable, this`calls
      ensures (View(), status) == Written(old(View()), f, attributes, bytes)
    {
      var fault := f.call(calls);
      calls := calls + 1;
      if fault.Some? {
        status := fault.value;
      } else if attributes == 0 || |bytes| == 0 {
        if variable.None? {
          status := NotFound;
        } else {
          variable := None;
          status := Success;
        }
      } else if variable.Some? && variable.value.attributes != attributes {
        status := InvalidParameter;
      } else {
        variable := Some(Variable(attributes, bytes));
        status := Success;
      }
    }

    method RestoreCertificates(f: Faults)
      modifies this
      ensures View() == Restored(old(View()), f)
    {
      if list.None? {
        return;
      }
      var _ := SetVariable(f, attributes, list.value.bytes);
      FreePool(list.value.buffer);
      list := None;
    }

    method PutOldAside(f: Faults) returns (ok: bool)
      modifies this
      ensures (View(), ok) == PutAside(old(View()), f)
    {
      hide Sized, Read, Written;
      var status := GetVariable(f, None);
      ok := true;
      if status == BufferTooSmall {
        var buffer := AllocatePool(f);
        if buffer.None? {
          return false;
        }
        status := GetVariable(f, buffer);
        if EfiError(status) {
          FreePool(buffer.value);
          list := None;
        }
        var _ := SetVariable(f, 0, []);
      }
    }

    method EnableDfciCertificate(f: Faults, packaged: seq<byte>) returns (status: EfiStatus)
      modifies this
      ensures (View(), status) == Enabled(old(View()), f, packaged)
    {
      var ok := PutOldAside(f);
      if !ok {
        return OutOfResources;
      }
      var cert := AllocatePool(f);
      if cert.None? {
        return OutOfResources;
      }
      status := SetVariable(f, NV_BS, packaged);
      if EfiError(status) {
        RestoreCertificates(f);
      }
      FreePool(cert.value);
    }
  }

  // ---- what the client promises ----

  /** Of the buffers allocated so far, exactly those in live have not been freed, and the others have
      been freed once. */
  predicate FreedOnce(freed: seq<nat>, allocations: nat, live: set<nat>) {
    && (forall i, j :: 0 <= i < j < |freed| ==> freed[i] != freed[j])
    && (forall b :: b in freed ==> b < allocations && b !in live)
    && (forall b :: b in live ==> b < allocations)
    && (forall b: nat :: b < allocations ==> b in live || b in freed)
  }

  predicate Accounted(c: Certs, live: set<nat>) {
    FreedOnce(c.freed, c.allocations, live)
  }

  /** Nothing is saved and every buffer has been freed. */
  predicate Balanced(c: Certs) {
    Accounted(c, {}) && c.list.None?
  }

  function Held(c: Certs): set<nat> {
    if c.list.Some? then {c.list.value.buffer} else {}
  }

  lemma FreeMoves(c: Certs, b: nat, live: set<nat>)
    requires Accounted(c, {b} + live) && b !in live
    ensures Accounted(c.(freed := c.freed + [b]), live)
  {
    var after := c.freed + [b];
    forall x: nat | x < c.allocations ensures x in live || x in after {
      if x == b {
        assert after[|c.freed|] == b;
      } else if x in c.freed {
        var k :| 0 <= k < |c.freed| && c.freed[k] == x;
        assert after[k] == x;
      }
    }
  }

  lemma AllocationMoves(c: Certs, live: set<nat>)
    requires Accounted(c, live)
    ensures Accounted(c.(asked := c.asked + 1, allocations := c.allocations + 1), {c.allocations} + live)
    ensures c.allocations !in live
  {
  }

  lemma WrittenAccounts(c: Certs, f: Faults, attributes: nat, bytes: seq<byte>, live: set<nat>)
    requires Accounted(c, live)
    ensures var r := Written(c, f, attributes, bytes).0;
            Accounted(r, live) && r.list == c.list
  {
  }

  lemma RestoreFrees(c: Certs, f: Faults, others: set<nat>)
    requires Accounted(c, Held(c) + others) && Held(c) !! others
    ensures Accounted(Restored(c, f), others) && Restored(c, f).list.None?
  {
    if c.list.Some? {
      WrittenAccounts(c, f, c.attributes, c.list.value.bytes, Held(c) + others);
      FreeMoves(Written(c, f, c.attributes, c.list.value.bytes).0, c.list.value.buffer, others);
    } else {
      assert {} + others == others;
    }
  }

  lemma PutAsideAccounts(c: Certs, f: Faults)
    requires Balanced(c)
    ensures var r := PutAside(c, f).0;
            Accounted(r, Held(r))
  {
    hide FreedOnce, Written;
    var (c1, s) := Sized(c, f);
    if s == BufferTooSmall && f.memory(c1.asked) {
      var b := c1.allocations;
      AllocationMoves(c1, {});
      assert {b} + {} == {b};
      var (c3, s3) := Read(c1.(asked := c1.asked + 1, allocations := b + 1), f, b);
      if EfiError(s3) {
        FreeMoves(c3, b, {});
        var c4 := c3.(list := None, freed := c3.freed + [b]);
        WrittenAccounts(c4, f, 0, [], {});
        assert PutAside(c, f).0 == Written(c4, f, 0, []).0;
      } else {
        WrittenAccounts(c3, f, 0, [], {b});
        assert PutAside(c, f).0 == Written(c3, f, 0, []).0;
      }
    } else {
      assert Held(PutAside(c, f).0) == {};
    }
  }

  lemma PutAccounts(c: Certs, f: Faults, packaged: seq<byte>, b: nat)
    requires Accounted(c, {b} + Held(c)) && b !in Held(c)
    ensures var r := Put(c, f, packaged, b).0;
            Accounted(r, Held(r))
  {
    WrittenAccounts(c, f, NV_BS, packaged, {b} + Held(c));
    var (c1, s) := Written(c, f, NV_BS, packaged);
    if EfiError(s) {
      assert {b} + Held(c1) == Held(c1) + {b};
      RestoreFrees(c1, f, {b});
      assert {b} + {} == {b};
      FreeMoves(Restored(c1, f), b, {});
    } else {
      FreeMoves(c1, b, Held(c));
    }
  }

  lemma PutInPlaceAccounts(c: Certs, f: Faults, packaged: seq<byte>)
    requires Accounted(c, Held(c))
    ensures var r := PutInPlace(c, f, packaged).0;
            Accounted(r, Held(r))
  {
    hide FreedOnce, Put;
    if f.memory(c.asked) {
      var b := c.allocations;
      AllocationMoves(c, Held(c));
      var c0 := c.(asked := c.asked + 1, allocations := b + 1);
      assert Held(c0) == Held(c);
      PutAccounts(c0, f, packaged, b);
      assert PutInPlace(c, f, packaged) == Put(c0, f, packaged, b);
    } else {
      var r := c.(asked := c.asked + 1);
      assert Held(r) == Held(c);
      assert PutInPlace(c, f, packaged).0 == r;
    }
  }

  lemma EnabledAccounts(c: Certs, f: Faults, packaged: seq<byte>)
    requires Balanced(c)
    ensures var r := Enabled(c, f, packaged).0;
            Accounted(r, Held(r))
  {
    PutAsideAccounts(c, f);
    var (c1, ok) := PutAside(c, f);
    if ok {
      PutInPlaceAccounts(c1, f, packaged);
    }
  }

  /** Under every combination of failing services and failing allocations, each buffer is freed exactly
      once and nothing stays saved, so that another restore changes nothing. */
  lemma FreedExactlyOnce(c: Certs, f: Faults, initialized: EfiStatus, packaged: seq<byte>)
    requires Balanced(c)
    ensures var r := Processed(c, f, initialized, packaged);
            Balanced(r)
  {
    if !EfiError(initialized) {
      EnabledAccounts(c, f, packaged);
      var e := Enabled(c, f, packaged).0;
      assert Held(e) + {} == Held(e);
      RestoreFrees(e, f, {});
    }
  }

  /** Where the call that puts the recovery certificate in place comes, and whether there is memory before it:
      without an old variable whose size is known it is the second call, otherwise the fourth. */
  function PutCall(c: Certs, f: Faults): nat {
    if SizeKnown(c, f) then c.calls + 3 else c.calls + 1
  }

  predicate MemoryHolds(c: Certs, f: Faults) {
    f.memory(c.asked) && (SizeKnown(c, f) ==> f.memory(c.asked + 1))
  }

  /** What enabling ends with: OUT_OF_RESOURCES if an allocation fails; otherwise, unless that call fails or an old
      variable with other attributes is still there, SUCCESS with the variable holding the recovery
      certificate as non-volatile and boot-service data. A write that fails is answered by restoring at once,
      and the size that was asked for is kept. */
  lemma EnabledIs(c: Certs, f: Faults, packaged: seq<byte>)
    requires packaged != [] && SizeNotFaked(c, f)
    ensures var (r, s) := Enabled(c, f, packaged);
            if !MemoryHolds(c, f) then s == OutOfResources
            else if f.call(PutCall(c, f)).Some? then s == f.call(PutCall(c, f)).value
            else if c.variable.Some? && c.variable.value.attributes != 0x3
                    && (SizeKnown(c, f) ==> f.call(c.calls + 2).Some?) then s == InvalidParameter
            else s == Success && r.variable == Some(Variable(0x3, packaged))
    ensures var (r, s) := Enabled(c, f, packaged);
            && (MemoryHolds(c, f) && EfiError(s) ==> r.list.None?)
            && (SizeKnown(c, f) ==> r.size == |c.variable.value.bytes|)
  {
  }

  /** A variable that exists. */
  predicate Proper(v: Variable) {
    v.attributes != 0 && v.bytes != []
  }

  /** The first call does not fail with BUFFER_TOO_SMALL, which is how it reports a size. */
  predicate SizeNotFaked(c: Certs, f: Faults) {
    f.call(c.calls) != Some(BufferTooSmall)
  }

  /** The old variable outgrows the size the client starts from, and its size can be asked for. */
  predicate SizeKnown(c: Certs, f: Faults) {
    c.variable.Some? && |c.variable.value.bytes| > c.size && f.call(c.calls).None?
  }

  /** When the old variable is there in the end, in terms of what fails: the calls, in order, ask for the
      size, read, delete, put the recovery certificate in place and restore. */
  predicate ComesBack(c: Certs, f: Faults)
    requires c.variable.Some?
  {
    var same := c.variable.value.attributes == NV_BS;
    if !f.memory(c.asked) then true
    else if !SizeKnown(c, f) then f.call(c.calls + 1).Some? || !same
    else
      var deleted := f.call(c.calls + 2).None?;
      var placed := f.memory(c.asked + 1) && f.call(c.calls + 3).None? && (deleted || same);
      if f.call(c.calls + 1).Some? then !deleted && !placed
      else if placed then same && f.call(c.calls + 4).None?
      else !deleted || f.call(if f.memory(c.asked + 1) then c.calls + 4 else c.calls + 3).None?
  }

  lemma PutAsideOnce(c: Certs, f: Faults)
    requires c.list.None? && c.variable.Some? && Proper(c.variable.value) && SizeNotFaked(c, f)
    ensures var (r, ok) := PutAside(c, f);
            && (ok <==> !SizeKnown(c, f) || f.memory(c.asked))
            && (!SizeKnown(c, f) ==> r == c.(calls := c.calls + 1))
            && (!ok ==> r.variable == c.variable && r.list.None?)
            && (SizeKnown(c, f) && ok ==>
                  && r.calls == c.calls + 3 && r.asked == c.asked + 1
                  && (r.variable == if f.call(c.calls + 2).None? then None else c.variable)
                  && (f.call(c.calls + 1).Some? ==> r.list.None?)
                  && (f.call(c.calls + 1).None? ==>
                        r.list.Some? && r.list.value.bytes == c.variable.value.bytes
                        && r.attributes == c.variable.value.attributes))
  {
  }

  /** Under every combination of failing calls and failing allocations, the old variable is there in the
      end exactly in these cases. */
  lemma RestoredIff(c: Certs, f: Faults, initialized: EfiStatus, packaged: seq<byte>)
    requires c.list.None? && c.variable.Some? && Proper(c.variable.value) && SizeNotFaked(c, f)
    requires packaged != [] && c.variable != Some(Variable(NV_BS, packaged))
    ensures Processed(c, f, initialized, packaged).variable == c.variable <==> EfiError(initialized) || ComesBack(c, f)
  {
    hide PutAside;
    PutAsideOnce(c, f);
    var (c1, ok) := PutAside(c, f);
    if !EfiError(initialized) && ok {
      var (c2, _) := PutInPlace(c1, f, packaged);
      assert Processed(c, f, initialized, packaged) == Restored(c2, f);
    }
  }

  /** No call after the one that reads fails, and the one that would read fails only if it is one. */
  ghost predicate WritesWork(c: Certs, f: Faults) {
    && (forall i :: i > c.calls + 1 ==> f.call(i).None?)
    && (!SizeKnown(c, f) ==> f.call(c.calls + 1).None?)
  }

  /** In particular, if no write is refused or fails, the old variable is back if and only if it could be
      read or was never touched; one that cannot be read is replaced all the same. */
  lemma RestoredIffReadable(c: Certs, f: Faults, initialized: EfiStatus, packaged: seq<byte>)
    requires c.list.None? && c.variable.Some? && Proper(c.variable.value) && SizeNotFaked(c, f)
    requires packaged != [] && c.variable != Some(Variable(NV_BS, packaged))
    requires WritesWork(c, f) && c.variable.value.attributes == NV_BS
    ensures Processed(c, f, initialized, packaged).variable == c.variable <==>
            EfiError(initialized) || !f.memory(c.asked) || (SizeKnown(c, f) && f.call(c.calls + 1).None?)
  {
    RestoredIff(c, f, initialized, packaged);
  }

  ghost predicate NoFaults(f: Faults) {
    (forall i :: f.call(i).None?) && (forall i :: f.memory(i))
  }

  /** With services that work, the write that restores fails exactly when the old attributes are not
      those of the recovery certificate: unlike EnableDfciCertificate, RestoreCertificates does not
      delete the variable first. */
  lemma RestoredIffSameAttributes(c: Certs, f: Faults, packaged: seq<byte>)
    requires NoFaults(f) && c.list.None? && c.variable.Some? && Proper(c.variable.value)
    requires |c.variable.value.bytes| > c.size
    requires packaged != [] && c.variable != Some(Variable(NV_BS, packaged))
    ensures var r := Processed(c, f, Success, packaged);
            && (r.variable == c.variable <==> c.variable.value.attributes == 0x3)
            && (r.variable != c.variable ==> r.variable == Some(Variable(NV_BS, packaged)))
  {
  }

  /** With no old variable the recovery certificate stays behind whenever it could be put in place. */
  lemma NothingToRestore(c: Certs, f: Faults, initialized: EfiStatus, packaged: seq<byte>)
    requires c.list.None? && c.variable.None? && packaged != []
    requires SizeNotFaked(c, f)
    ensures Processed(c, f, initialized, packaged).variable ==
            if !EfiError(initialized) && Enabled(c, f, packaged).1 == Success then Some(Variable(NV_BS, packaged))
            else None
  {
  }

  /** A number of runs in one session. */
  function Ran(c: Certs, f: Faults, packaged: seq<byte>, runs: nat): Certs {
    if runs == 0 then c else Processed(Ran(c, f, packaged, runs - 1), f, Success, packaged)
  }

  lemma StaysReplaced(c: Certs, f: Faults, packaged: seq<byte>)
    requires NoFaults(f) && c.list.None? && packaged != []
    requires c.variable == Some(Variable(NV_BS, packaged))
    ensures var r := Processed(c, f, Success, packaged);
            r.list.None? && r.variable == c.variable
  {
  }

  lemma NotAskedFor(c: Certs, f: Faults, packaged: seq<byte>)
    requires NoFaults(f) && c.list.None? && packaged != []
    requires c.variable.Some? && c.variable.value.attributes == NV_BS && c.size >= |c.variable.value.bytes|
    ensures var r := Processed(c, f, Success, packaged);
            r.list.None? && r.variable == Some(Variable(NV_BS, packaged))
  {
  }

  lemma FirstRunRestores(c: Certs, f: Faults, packaged: seq<byte>)
    requires NoFaults(f) && c.list.None? && c.variable.Some? && Proper(c.variable.value)
    requires |c.variable.value.bytes| > c.size && c.variable.value.attributes == NV_BS && packaged != []
    ensures var r := Processed(c, f, Success, packaged);
            r.list.None? && r.variable == c.variable && r.size == |c.variable.value.bytes|
  {
  }

  /** The size kept from one run makes the size query of the next one fail with INVALID_PARAMETER. So
      even with services that work and with the right attributes, the old variable survives one run and
      is replaced for good by a second one. */
  lemma {:induction false} RestoredIffOneRun(c: Certs, f: Faults, packaged: seq<byte>, runs: nat)
    requires NoFaults(f) && c.list.None? && c.variable.Some? && Proper(c.variable.value)
    requires |c.variable.value.bytes| > c.size && c.variable.value.attributes == NV_BS
    requires packaged != [] && c.variable != Some(Variable(NV_BS, packaged))
    ensures var r := Ran(c, f, packaged, runs);
            && r.list.None? && (runs == 1 ==> r.size == |c.variable.value.bytes|)
            && r.variable == if runs <= 1 then c.variable else Some(Variable(NV_BS, packaged))
  {
    hide Processed;
    if runs > 0 {
      RestoredIffOneRun(c, f, packaged, runs - 1);
      var before := Ran(c, f, packaged, runs - 1);
      if runs == 1 {
        FirstRunRestores(before, f, packaged);
      } else if runs == 2 {
        NotAskedFor(before, f, packaged);
      } else {
        StaysReplaced(before, f, packaged);
      }
    }
  }

  // ---- the signature list ----

  /** The signature list of one certificate, written as the variable's content; both sizes are stored
      as 32-bit values. */
  function SignatureList(signatureType: seq<byte>, owner: seq<byte>, certificate: seq<byte>): seq<byte> {
    Pack(ListHeader(signatureType, owner, |certificate|)) + certificate
  }

  const LIST_HEADER := [KText(16), K32, K32, K32, KText(16)]

  function ListHeader(signatureType: seq<byte>, owner: seq<byte>, length: nat): seq<Item> {
    [Text(16, signatureType), U32((44 + length) % 0x1_0000_0000), U32(0), U32((16 + length) % 0x1_0000_0000),
     Text(16, owner)]
  }

  /** A reader of the variable finds one list that spans it and one signature behind the list header. */
  lemma SignatureListReads(signatureType: seq<byte>, owner: seq<byte>, certificate: seq<byte>)
    requires |signatureType| == 16 && |owner| == 16 && 44 + |certificate| < 0x1_0000_0000
    ensures var s := SignatureList(signatureType, owner, certificate);
            && |s| == 44 + |certificate| && s[44..] == certificate
            && Unpack(LIST_HEADER, s) ==
               Some([Text(16, signatureType), U32(|s|), U32(0), U32(|s| - 28), Text(16, owner)])
  {
    hide Unpack, Pack, Kinds, ReadItems, AllFit, Size;
    var items := ListHeader(signatureType, owner, |certificate|);
    ListHeaderItems(signatureType, owner, |certificate|);
    UnpackPack(items, certificate);
    PackedSize(items);
    ListHeaderSize();
    TakeDrop(Pack(items), certificate);
  }

  lemma ListHeaderItems(signatureType: seq<byte>, owner: seq<byte>, length: nat)
    requires |signatureType| == 16 && |owner| == 16
    ensures var items := ListHeader(signatureType, owner, length);
            AllFit(items) && Kinds(items) == LIST_HEADER && ReadItems(items) == items
  {
    assert signatureType + Zeros(0) == signatureType && owner + Zeros(0) == owner;
  }

  lemma ListHeaderSize()
    ensures Size(LIST_HEADER) == 44
  {
    assert LIST_HEADER[1..] == [K32, K32, K32, KText(16)];
    assert LIST_HEADER[1..][1..] == [K32, K32, KText(16)];
    assert LIST_HEADER[1..][1..][1..] == [K32, KText(16)];
    assert LIST_HEADER[1..][1..][1..][1..] == [KText(16)];
    assert LIST_HEADER[1..][1..][1..][1..][1..] == [];
  }
}
