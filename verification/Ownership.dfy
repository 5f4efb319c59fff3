/**
 Who drives a session: the phone or the Mac, at which size; and what becomes of input
 and sizes that arrive before the child runs or while its process tree is frozen.
*/
module Ownership {
  import opened Wrappers
  import opened Bytes

  datatype Role = Desktop | Mobile
  datatype Size = Size(cols: nat, rows: nat)
  datatype LifeState = Running | Hibernating | Hibernated | Waking

  function AtLeast2(n: nat): nat { if n < 2 then 2 else n }

  function LaunchSize(s: Size): Size { Size(AtLeast2(s.cols), AtLeast2(s.rows)) }

  function Last(before: bool, values: seq<bool>): bool {
    if values == [] then before else values[|values| - 1]
  }

  /** Each value differs from the one before it, the first from `before`. */
  ghost predicate Alternates(before: bool, values: seq<bool>) {
    values == [] ||
    (var init := values[..|values| - 1]; Alternates(before, init) && values[|values| - 1] != Last(before, init))
  }

  lemma AlternatesMore(before: bool, values: seq<bool>, v: bool)
    requires Alternates(before, values) && v != Last(before, values)
    ensures Alternates(before, values + [v]) && Last(before, values + [v]) == v
  {
    assert (values + [v])[..|values|] == values;
  }

  // ---- what the clients have said -------------------------------------------------

  datatype Call = Sized(size: Size, role: Role) | Attached(id: nat, role: Role) | Detached(id: nat) | Owned(role: Role)

  /** Who is attached, and whether the Mac has reclaimed the session. */
  datatype Control = Control(roles: map<nat, Role>, hold: bool) {
    predicate PhoneOwns() { Mobile in roles.Values && !hold }
  }

  function ControlAfter(c: Control, call: Call): Control {
    match call
    case Sized(_, _) => c
    case Attached(id, role) => Control(c.roles[id := role], c.hold && role != Mobile)
    case Detached(id) =>
      var left := c.roles - {id};
      Control(left, c.hold && !(id in c.roles && c.roles[id] == Mobile) && Desktop in left.Values)
    case Owned(role) => c.(hold := role == Desktop)
  }

  function ControlOf(calls: seq<Call>): Control {
    if calls == [] then Control(map[], false)
    else ControlAfter(ControlOf(calls[..|calls| - 1]), calls[|calls| - 1])
  }

  /** The last viewport a role has told, and the last anyone has. */
  function LastTold(calls: seq<Call>, role: Role): Option<Size> {
    if calls == [] then None
    else
      var last := calls[|calls| - 1];
      if last.Sized? && last.role == role then Some(last.size) else LastTold(calls[..|calls| - 1], role)
  }

  function LastSized(calls: seq<Call>): Option<Size> {
    if calls == [] then None
    else if calls[|calls| - 1].Sized? then Some(calls[|calls| - 1].size)
    else LastSized(calls[..|calls| - 1])
  }

  function OwnerTold(calls: seq<Call>): Option<Size> {
    LastTold(calls, if ControlOf(calls).PhoneOwns() then Mobile else Desktop)
  }

  /** With these calls before the exec and those during it, the child starts at its owner's
      size: the owner has told none, or its last one is also the last anyone told before. */
  predicate LaunchFits(initial: Size, before: seq<Call>, during: seq<Call>) {
    OwnerTold(before + during) == None ||
    OwnerTold(before + during) == Some(GetOr(LastSized(before), initial))
  }

  lemma CallsMore(calls: seq<Call>, call: Call)
    ensures ControlOf(calls + [call]) == ControlAfter(ControlOf(calls), call)
    ensures forall role :: LastTold(calls + [call], role) ==
              if call.Sized? && call.role == role then Some(call.size) else LastTold(calls, role)
    ensures LastSized(calls + [call]) == if call.Sized? then Some(call.size) else LastSized(calls)
  {
    assert (calls + [call])[..|calls|] == calls;
  }

  /** A viewport that comes during the launch is not the one the child starts at. */
  lemma ResizeDuringLaunch(initial: Size, a: Size, b: Size)
    requires a != b
    ensures !LaunchFits(initial, [Sized(a, Desktop)], [Sized(b, Desktop)])
  {
    CallsMore([], Sized(a, Desktop));
    CallsMore([Sized(a, Desktop)], Sized(b, Desktop));
    assert [] + [Sized(a, Desktop)] == [Sized(a, Desktop)];
    assert ControlOf([]) == Control(map[], false);
  }

  /** Nor is a viewport the owner told first, when someone else told another before the exec. */
  lemma ResizeByTheOther(initial: Size, id: nat, phone: Size, mac: Size)
    requires phone != mac
    ensures !LaunchFits(initial, [Attached(id, Mobile), Sized(phone, Mobile), Sized(mac, Desktop)], [])
  {
    var c1, c2, c3 := [Attached(id, Mobile)], [Attached(id, Mobile), Sized(phone, Mobile)],
      [Attached(id, Mobile), Sized(phone, Mobile), Sized(mac, Desktop)];
    CallsMore([], Attached(id, Mobile));
    CallsMore(c1, Sized(phone, Mobile));
    CallsMore(c2, Sized(mac, Desktop));
    assert [] + c1 == c1 && c1 + [Sized(phone, Mobile)] == c2 && c2 + [Sized(mac, Desktop)] == c3 && c3 + [] == c3;
    assert ControlOf(c3).roles[id] == Mobile;
  }

  /** What a session has on record of its clients until its child runs. */
  datatype Arbitration = Arbitration(control: Control, desktop: Option<Size>, mobile: Option<Size>, pending: Size)

  function Told(a: Arbitration, call: Call, launched: bool): Arbitration {
    var b := a.(control := ControlAfter(a.control, call));
    if !call.Sized? then b
    else
      var c := if call.role == Desktop then b.(desktop := Some(call.size)) else b.(mobile := Some(call.size));
      if launched then c else c.(pending := call.size)
  }

  function Heard(initial: Size, before: seq<Call>, during: seq<Call>): Arbitration {
    if during != [] then Told(Heard(initial, before, during[..|during| - 1]), during[|during| - 1], true)
    else if before != [] then Told(Heard(initial, before[..|before| - 1], []), before[|before| - 1], false)
    else Arbitration(Control(map[], false), None, None, initial)
  }

  lemma HeardMore(initial: Size, before: seq<Call>, during: seq<Call>, call: Call)
    ensures Heard(initial, before, during + [call]) == Told(Heard(initial, before, during), call, true)
    ensures Heard(initial, before + [call], []) == Told(Heard(initial, before, []), call, false)
  {
    assert (during + [call])[..|during|] == during;
    assert (before + [call])[..|before|] == before;
  }

  ghost predicate Says(a: Arbitration, calls: seq<Call>, pending: Size) {
    a.control == ControlOf(calls) && a.desktop == LastTold(calls, Desktop) && a.mobile == LastTold(calls, Mobile) &&
    a.pending == pending
  }

  lemma SaysMore(a: Arbitration, calls: seq<Call>, call: Call, launched: bool)
    requires Says(a, calls, a.pending)
    ensures Says(Told(a, call, launched), calls + [call], if call.Sized? && !launched then call.size else a.pending)
  {
    CallsMore(calls, call);
  }

  /** The record is what the calls say: control and sizes from all of them, the size to
      launch at from those before the exec. */
  lemma {:induction false} HeardIs(initial: Size, before: seq<Call>, during: seq<Call>)
    ensures Says(Heard(initial, before, during), before + during, GetOr(LastSized(before), initial))
    decreases |before| + |during|
  {
    if during != [] {
      var init, last := during[..|during| - 1], during[|during| - 1];
      HeardIs(initial, before, init);
      SaysMore(Heard(initial, before, init), before + init, last, true);
      Assoc(before, init, [last]);
      assert init + [last] == during;
    } else if before != [] {
      HeardBefore(initial, before);
      Neutral(before);
    } else {
      Neutral(before);
    }
  }

  lemma {:induction false} HeardBefore(initial: Size, before: seq<Call>)
    ensures Says(Heard(initial, before, []), before, GetOr(LastSized(before), initial))
  {
    if before != [] {
      var init, last := before[..|before| - 1], before[|before| - 1];
      HeardBefore(initial, init);
      SaysMore(Heard(initial, init, []), init, last, false);
      assert init + [last] == before;
    }
  }

  class AgentSession {
    var launched: bool
    var holder: bool
    var exited: bool
    var lifeState: LifeState
    var hibernationInfo: Option<nat>
    var sinkRoles: map<nat, Role>
    var desktopHold: bool
    var lastRemoteActive: bool
    var desktopSize: Option<Size>
    var mobileSize: Option<Size>
    var pending: Size
    var queuedResize: Option<Size>
    var queuedInput: seq<Byte>
    var queuedLaunchInput: seq<Byte>

    /** Bytes passed in, bytes handed to the holder in order, sizes likewise, ownership
        changes announced, whether the exec has begun and not ended, and whether the
        session was asked to end. */
    ghost var received: seq<Byte>
    ghost var sent: seq<Byte>
    ghost var applied: Option<Size>
    ghost var announced: seq<bool>
    ghost var launching: bool
    ghost var ending: bool
    /** What clients have said before the exec and during it, and the size before any. */
    ghost var before: seq<Call>
    ghost var during: seq<Call>
    ghost const initial: Size

    predicate RemoteActive()
      reads this`sinkRoles, this`desktopHold
    {
      Mobile in sinkRoles.Values && !desktopHold
    }

    /** The owner's last size, when it has told one. */
    function OwnerSize(): Option<Size>
      reads this`sinkRoles, this`desktopHold, this`mobileSize, this`desktopSize
    {
      if RemoteActive() then mobileSize else desktopSize
    }

    /** Hibernation state and its record go together. */
    ghost predicate LifeOK()
      reads this`lifeState, this`hibernationInfo, this`holder, this`exited, this`ending, this`queuedResize,
            this`launching, this`launched
    {
      && (lifeState == Running || lifeState == Hibernated)
      && (lifeState == Hibernated <==> hibernationInfo.Some?)
      && (lifeState == Hibernated ==> holder || exited)
      && (lifeState == Running && !ending ==> queuedResize.None?)
      && (launching ==> launched && !holder && lifeState == Running)
    }

    /** Until the end: what was sent and what is queued is what was received. */
    ghost predicate InputOK()
      reads this`exited, this`ending, this`sent, this`queuedLaunchInput, this`queuedInput, this`received,
            this`holder, this`lifeState
    {
      (exited ==> ending) &&
      (!ending ==>
         && sent + queuedLaunchInput + queuedInput == received
         && (holder ==> queuedLaunchInput == [])
         && (lifeState == Running ==> queuedInput == []))
    }

    /** The size in force is the recorded one, but for a launch at less than 2 by 2. */
    ghost predicate SizeOK()
      reads this`holder, this`launched, this`applied, this`pending
    {
      (holder ==> launched) &&
      (holder && applied.Some? ==> LaunchSize(applied.value) == LaunchSize(pending))
    }

    ghost function Record(): Arbitration
      reads this`sinkRoles, this`desktopHold, this`desktopSize, this`mobileSize, this`pending
    {
      Arbitration(Control(sinkRoles, desktopHold), desktopSize, mobileSize, pending)
    }

    /** Until the child runs, the record is what the calls make it. */
    ghost predicate CallsOK()
      reads this`sinkRoles, this`desktopHold, this`desktopSize, this`mobileSize, this`pending, this`launched,
            this`launching, this`before, this`during
    {
      && (!launched ==> during == [] && !launching)
      && (!launched || launching ==> Record() == Heard(initial, before, during))
    }

    ghost predicate AnnouncedOK()
      reads this`announced, this`lastRemoteActive
    {
      Alternates(false, announced) && lastRemoteActive == Last(false, announced)
    }

    ghost predicate Valid()
      reads this
    {
      LifeOK() && InputOK() && SizeOK() && AnnouncedOK() && CallsOK()
    }

    /** The size in force, or to be in force on waking, is the owner's. */
    ghost predicate Settled()
      reads this
    {
      OwnerSize().Some? && holder ==>
        OwnerSize().value == if lifeState == Hibernated then GetOr(queuedResize, pending) else pending
    }

    constructor (initial: Size)
      ensures Valid() && !launched && !holder && !exited && received == [] && announced == []
      ensures pending == initial && sinkRoles == map[] && desktopSize == mobileSize == None
      ensures before == during == [] && this.initial == initial
    {
      launched, holder, exited, lifeState, hibernationInfo := false, false, false, Running, None;
      sinkRoles, desktopHold, lastRemoteActive, desktopSize, mobileSize := map[], false, false, None, None;
      pending, queuedResize, queuedInput, queuedLaunchInput := initial, None, [], [];
      received, sent, applied, announced, launching, ending := [], [], None, [], false, false;
      before, during, this.initial := [], [], initial;
    }

    ghost predicate Noted(late: bool, earlier: seq<Call>, later: seq<Call>, call: Call)
      reads this`before, this`during
    {
      if late then before == earlier && during == later + [call] else before == earlier + [call] && during == later
    }

    /** Notes a call; the fields must follow. */
    ghost method Hear(call: Call)
      requires CallsOK()
      modifies this`before, this`during
      ensures Noted(launched, old(before), old(during), call)
      ensures !launched || launching ==> Heard(initial, before, during) == Told(Record(), call, launched)
    {
      HeardMore(initial, before, during, call);
      if launched {
        during := during + [call];
      } else {
        before := before + [call];
      }
    }

    // ---- launch -------------------------------------------------------------------

    /** The exec begins; until it is over other calls may come in between. */
    method LaunchBegin() returns (size: Size)
      requires Valid() && !launched && !holder && lifeState == Running
      modifies this`launched, this`launching
      ensures Valid() && launched && launching && size == LaunchSize(pending)
    {
      launched, launching := true, true;
      size := LaunchSize(pending);
    }

    /** The holder answers: input queued so far goes first. Viewports that came since the exec
        began are on record but not in force, and neither is one that another overtook. */
    method LaunchReady(size: Size)
      requires Valid() && launching && size == LaunchSize(pending)
      modifies this`holder, this`applied, this`queuedLaunchInput, this`sent, this`launching
      ensures Valid() && holder && applied == Some(size) && (!ending ==> sent == received)
      ensures Settled() <==> LaunchFits(initial, before, during)
    {
      FitsExactly();
      holder, launching := true, false;
      applied := Some(size);
      FlushQueuedLaunchInput();
    }

    method FlushQueuedLaunchInput()
      modifies this`queuedLaunchInput, this`sent
      ensures queuedLaunchInput == [] && sent == old(sent + queuedLaunchInput)
    {
      Neutral(sent);
      if queuedLaunchInput != [] {
        sent := sent + queuedLaunchInput;
        queuedLaunchInput := [];
      }
    }

    lemma FitsExactly()
      requires CallsOK() && launching
      ensures (OwnerSize() == None || OwnerSize() == Some(pending)) <==> LaunchFits(initial, before, during)
    {
      HeardIs(initial, before, during);
    }

    method LaunchFailed()
      requires Valid() && launching
      modifies this`exited, this`ending, this`launching
      ensures Valid() && exited
    {
      exited, ending, launching := true, true, false;
    }

    /** Adopts a child that outlived an earlier daemon. */
    method Reattach(size: Option<Size>, hibernation: Option<nat>)
      requires Valid() && !launched && !holder && lifeState == Running && received == []
      modifies this`holder, this`launched, this`pending, this`applied, this`hibernationInfo, this`lifeState
      ensures Valid() && holder && pending == GetOr(size, old(pending)) && applied == size
      ensures hibernationInfo == hibernation && (lifeState == Hibernated <==> hibernation.Some?)
    {
      holder, launched := true, true;
      if size.Some? {
        pending := size.value;
      }
      applied := size;
      hibernationInfo := hibernation;
      lifeState := if hibernation.None? then Running else Hibernated;
    }

    // ---- input --------------------------------------------------------------------

    method Write(data: seq<Byte>, signalOK: bool)
      requires Valid()
      modifies this`queuedInput, this`queuedLaunchInput, this`received, this`sent, this`lifeState,
               this`hibernationInfo, this`pending, this`queuedResize, this`applied
      ensures Valid() && received == old(received) + data
      ensures holder && (lifeState == Running) && !ending ==> sent == received
      ensures holder && old(lifeState) == Running ==> sent == old(sent) + data
      ensures !holder && exited && old(lifeState) == Running ==> sent == old(sent) && queuedLaunchInput == old(queuedLaunchInput)
      ensures old(Settled()) ==> Settled()
    {
      if lifeState == Hibernated {
        DeliverViaWake(data, signalOK);
      } else {
        received := received + data;
        WriteRaw(data);
      }
    }

    /** Never writes to a frozen tree: queues, and wakes it. */
    method DeliverViaWake(data: seq<Byte>, signalOK: bool)
      requires Valid() && lifeState == Hibernated
      modifies this`queuedInput, this`queuedLaunchInput, this`received, this`sent, this`lifeState,
               this`hibernationInfo, this`pending, this`queuedResize, this`applied
      ensures Valid() && received == old(received) + data
      ensures holder && (lifeState == Running) && !ending ==> sent == received
      ensures old(Settled()) ==> Settled()
    {
      Assoc(sent + queuedLaunchInput, queuedInput, data);
      received := received + data;
      queuedInput := queuedInput + data;
      Wake(signalOK);
    }

    method WriteRaw(data: seq<Byte>)
      requires lifeState == Running
      modifies this`queuedLaunchInput, this`sent
      ensures holder ==> sent == old(sent) + data && queuedLaunchInput == old(queuedLaunchInput)
      ensures !holder && !exited ==> sent == old(sent) && queuedLaunchInput == old(queuedLaunchInput) + data
      ensures exited && !holder ==> sent == old(sent) && queuedLaunchInput == old(queuedLaunchInput)
    {
      if data == [] {
        assert sent + data == sent && queuedLaunchInput + data == queuedLaunchInput;
        return;
      }
      if !holder {
        if !exited {
          queuedLaunchInput := queuedLaunchInput + data;
        }
        return;
      }
      sent := sent + data;
    }

    // ---- hibernation --------------------------------------------------------------

    method Hibernate(info: nat, signalOK: bool)
      requires Valid()
      modifies this`lifeState, this`hibernationInfo
      ensures Valid() && (old(Settled()) && !ending ==> Settled())
      ensures lifeState == if launched && holder && !exited && signalOK then Hibernated else old(lifeState)
      ensures hibernationInfo ==
                if launched && holder && !exited && signalOK && old(lifeState) == Running then Some(info) else old(hibernationInfo)
    {
      if exited || !launched || !holder || lifeState != Running {
        return;
      }
      lifeState := Hibernating;
      if !signalOK {
        lifeState := Running;
        return;
      }
      hibernationInfo := Some(info);
      lifeState := Hibernated;
    }

    /** Continues the tree, then hands over what waited: input first, then the size. */
    method Wake(signalOK: bool)
      requires Valid()
      modifies this`queuedInput, this`queuedLaunchInput, this`sent, this`lifeState, this`hibernationInfo,
               this`pending, this`queuedResize, this`applied
      ensures Valid() && queuedLaunchInput == old(queuedLaunchInput)
      ensures old(lifeState) == Hibernated && holder && signalOK ==>
                lifeState == Running && queuedInput == [] && sent == old(sent + queuedInput) &&
                queuedResize == None && pending == GetOr(old(queuedResize), old(pending))
      ensures !(old(lifeState) == Hibernated && holder && signalOK) ==>
                lifeState == old(lifeState) && sent == old(sent) && queuedInput == old(queuedInput) &&
                queuedResize == old(queuedResize) && pending == old(pending)
    {
      if lifeState != Hibernated || hibernationInfo.None? || !holder {
        return;
      }
      lifeState := Waking;
      if !signalOK {
        lifeState := Hibernated;
        return;
      }
      hibernationInfo := None;
      lifeState := Running;
      FlushQueuedInput();
      if queuedResize.Some? {
        var size := queuedResize.value;
        queuedResize := None;
        ApplyResize(size, true);
      }
    }

    method FlushQueuedInput()
      requires lifeState == Running && holder
      modifies this`queuedInput, this`queuedLaunchInput, this`sent
      ensures queuedInput == [] && sent == old(sent + queuedInput) && queuedLaunchInput == old(queuedLaunchInput)
    {
      if queuedInput != [] {
        var data := queuedInput;
        queuedInput := [];
        WriteRaw(data);
      }
    }

    // ---- geometry -----------------------------------------------------------------

    method ApplyResize(size: Size, force: bool)
      requires SizeOK()
      modifies this`pending, this`applied
      ensures SizeOK()
      ensures pending == if holder && lifeState != Hibernated then size else old(pending)
      ensures applied == if pending != old(pending) || (force && holder && lifeState != Hibernated) then Some(size) else old(applied)
    {
      if !holder || lifeState == Hibernated {
        return;
      }
      if !force && size == pending {
        return;
      }
      pending := size;
      applied := Some(size);
    }

    /** The owner's size, or a fallback for an owner that has told none, is handed to a running
        child that has another, and waits for a frozen one. */
    ghost predicate Enforced(fallback: Size, was: Size, queued: Option<Size>)
      reads this
    {
      if lifeState == Hibernated then pending == was && queuedResize == Some(GetOr(OwnerSize(), fallback))
      else
        queuedResize == queued && pending == (if holder then GetOr(OwnerSize(), fallback) else was) &&
        (pending != was ==> applied == Some(pending))
    }

    /** A client's viewport. Before the exec the latest size, whoever's, is the launch size. */
    method Resize(size: Size, role: Role)
      requires Valid()
      modifies this`desktopSize, this`mobileSize, this`pending, this`queuedResize, this`applied, this`before, this`during
      ensures Valid() && Noted(old(launched), old(before), old(during), Sized(size, role))
      ensures (role == Desktop ==> desktopSize == Some(size) && mobileSize == old(mobileSize)) &&
              (role == Mobile ==> mobileSize == Some(size) && desktopSize == old(desktopSize))
      ensures !old(launched) ==> pending == size
      ensures launched ==> Settled()
      ensures launched && !holder ==> pending == old(pending)
      ensures launched ==> Enforced(size, old(pending), old(queuedResize))
    {
      RecordSize(size, role);
      if !launched {
        return;
      }
      var effective := GetOr(OwnerSize(), size);
      if lifeState == Hibernated {
        queuedResize := Some(effective);
        return;
      }
      ApplyResize(effective, false);
    }

    method RecordSize(size: Size, role: Role)
      requires Valid()
      modifies this`desktopSize, this`mobileSize, this`pending, this`before, this`during
      ensures Valid() && Noted(launched, old(before), old(during), Sized(size, role))
      ensures desktopSize == (if role == Desktop then Some(size) else old(desktopSize))
      ensures mobileSize == (if role == Mobile then Some(size) else old(mobileSize))
      ensures pending == if launched then old(pending) else size
    {
      Hear(Sized(size, role));
      if role == Desktop {
        desktopSize := Some(size);
      } else {
        mobileSize := Some(size);
      }
      if !launched {
        pending := size;
      }
    }

    /** Recomputes the size for the current owner and announces a change of owner. */
    method ApplyOwnership()
      requires Valid()
      modifies this`pending, this`queuedResize, this`applied, this`lastRemoteActive, this`announced
      ensures Valid() && lastRemoteActive == RemoteActive()
      ensures !holder ==> pending == old(pending)
      ensures launched ==> Settled()
      ensures announced == old(announced) + if RemoteActive() == old(lastRemoteActive) then [] else [RemoteActive()]
      ensures launched ==> Enforced(old(pending), old(pending), old(queuedResize))
    {
      if launched {
        var effective := GetOr(OwnerSize(), pending);
        if lifeState == Hibernated {
          queuedResize := Some(effective);
        } else {
          ApplyResize(effective, false);
        }
      }
      Announce();
    }

    method Announce()
      requires AnnouncedOK()
      modifies this`lastRemoteActive, this`announced
      ensures AnnouncedOK() && lastRemoteActive == RemoteActive()
      ensures announced == old(announced) + if RemoteActive() == old(lastRemoteActive) then [] else [RemoteActive()]
    {
      var active := RemoteActive();
      if active != lastRemoteActive {
        AlternatesMore(false, announced, active);
        lastRemoteActive := active;
        announced := announced + [active];
      }
    }

    /** A phone that opens takes control. */
    method Attach(id: nat, role: Role, signalOK: bool)
      requires Valid()
      modifies this`sinkRoles, this`desktopHold, this`before, this`during, this`queuedInput, this`queuedLaunchInput, this`sent,
               this`lifeState, this`hibernationInfo, this`pending, this`queuedResize, this`applied,
               this`lastRemoteActive, this`announced
      ensures Valid() && (launched ==> Settled()) && lastRemoteActive == RemoteActive()
      ensures sinkRoles == old(sinkRoles)[id := role] && desktopHold == (old(desktopHold) && role != Mobile)
      ensures Noted(old(launched), old(before), old(during), Attached(id, role)) && (!holder ==> pending == old(pending))
      ensures role == Mobile ==> RemoteActive()
      ensures received == old(received) && (holder && signalOK ==> lifeState == Running)
    {
      Join(id, role);
      EnsureAwakeForAttach(signalOK);
      ApplyOwnership();
    }

    method EnsureAwakeForAttach(signalOK: bool)
      requires Valid()
      modifies this`queuedInput, this`queuedLaunchInput, this`sent, this`lifeState, this`hibernationInfo,
               this`pending, this`queuedResize, this`applied
      ensures Valid() && (holder && signalOK ==> lifeState == Running) && (!holder ==> pending == old(pending))
    {
      if lifeState == Hibernated {
        Wake(signalOK);
      }
    }

    method Join(id: nat, role: Role)
      requires Valid()
      modifies this`sinkRoles, this`desktopHold, this`before, this`during
      ensures Valid() && Noted(launched, old(before), old(during), Attached(id, role))
      ensures sinkRoles == old(sinkRoles)[id := role] && desktopHold == (old(desktopHold) && role != Mobile)
      ensures role == Mobile ==> RemoteActive()
    {
      Hear(Attached(id, role));
      sinkRoles := sinkRoles[id := role];
      if role == Mobile {
        assert sinkRoles[id] == Mobile;
        desktopHold := false;
      }
    }

    /** Control falls back when the phone leaves, and is released when the last Mac does. */
    method Detach(id: nat)
      requires Valid()
      modifies this`sinkRoles, this`desktopHold, this`before, this`during, this`pending, this`queuedResize, this`applied,
               this`lastRemoteActive, this`announced
      ensures Valid() && (launched ==> Settled()) && lastRemoteActive == RemoteActive()
      ensures sinkRoles == old(sinkRoles) - {id}
      ensures desktopHold <==> old(desktopHold) && Desktop in sinkRoles.Values &&
                               !(id in old(sinkRoles) && old(sinkRoles)[id] == Mobile)
      ensures Noted(old(launched), old(before), old(during), Detached(id)) && (!holder ==> pending == old(pending))
      ensures Desktop !in sinkRoles.Values ==> (RemoteActive() <==> Mobile in sinkRoles.Values)
    {
      Leave(id);
      ApplyOwnership();
    }

    method Leave(id: nat)
      requires Valid()
      modifies this`sinkRoles, this`desktopHold, this`before, this`during
      ensures Valid() && Noted(launched, old(before), old(during), Detached(id))
      ensures Control(sinkRoles, desktopHold) == ControlAfter(old(Control(sinkRoles, desktopHold)), Detached(id))
    {
      Hear(Detached(id));
      DropSink(id);
    }

    method DropSink(id: nat)
      modifies this`sinkRoles, this`desktopHold
      ensures Control(sinkRoles, desktopHold) == ControlAfter(old(Control(sinkRoles, desktopHold)), Detached(id))
    {
      var removed := if id in sinkRoles then Some(sinkRoles[id]) else None;
      sinkRoles := sinkRoles - {id};
      if removed == Some(Mobile) {
        desktopHold := false;
      }
      if Desktop !in sinkRoles.Values {
        desktopHold := false;
      }
    }

    method SetOwner(role: Role)
      requires Valid()
      modifies this`desktopHold, this`before, this`during, this`pending, this`queuedResize, this`applied, this`lastRemoteActive,
               this`announced
      ensures Valid() && (launched ==> Settled()) && lastRemoteActive == RemoteActive()
      ensures Noted(old(launched), old(before), old(during), Owned(role)) && (!holder ==> pending == old(pending))
      ensures desktopHold <==> role == Desktop
      ensures role == Desktop ==> !RemoteActive()
      ensures role == Mobile ==> (RemoteActive() <==> Mobile in sinkRoles.Values)
    {
      Hear(Owned(role));
      desktopHold := role == Desktop;
      ApplyOwnership();
    }

    // ---- the end ------------------------------------------------------------------

    method Terminate()
      requires Valid()
      modifies this`ending, this`launched, this`exited, this`lifeState, this`hibernationInfo
      ensures Valid() && ending && lifeState == (if old(holder && !exited) then Running else old(lifeState))
    {
      ending := true;
      if exited {
        return;
      }
      if !holder {
        launched, exited := true, true;
        return;
      }
      if hibernationInfo.Some? {
        hibernationInfo := None;
        lifeState := Running;
      }
    }

    method HandleExit()
      requires Valid()
      modifies this`ending, this`exited, this`holder
      ensures Valid() && exited && (!old(exited) ==> !holder)
    {
      ending := true;
      if exited {
        return;
      }
      exited := true;
      holder := false;
    }
  }
}
