/** The connection-slot table and the decisions the coordinator takes on it. */
module Coordinator {
  import opened Types
  import opened Utf8
  import opened Scanner
  import opened Reconnect

  datatype ErrorTag = ScanFailed | ConnectFailed | HidNotFound | NotifyFailed

  /** One connection slot. */
  datatype Slot = Slot(address: Option<Address>, name: Name, connected: bool, connecting: bool)

  const FREE: Slot := Slot(None, "", false, false)

  function Connecting(d: Device): Slot {
    Slot(Some(d.address), d.name, false, true)
  }

  function Connected(d: Device): Slot {
    Slot(Some(d.address), d.name, true, false)
  }

  predicate IsOccupied(s: Slot) {
    s.connected || s.connecting
  }

  type Table = t: seq<Slot> | |t| == MAX_CONNECTIONS witness [FREE, FREE]

  /** UI-facing events the coordinator wants emitted. */
  datatype UiEvent = LinkUp(summary: Name) | AllDown | Failed(tag: ErrorTag)

  /** Side effects the shell must perform. */
  datatype Action =
    | DisconnectSlot(slot: nat)
    | ConnectSlot(slot: nat, device: Device)
    | PersistDevice(device: Device)
    | Emit(event: UiEvent)

  // ─── Queries ───────────────────────────────────────────────────────────────

  function FindEmpty(t: Table): Option<nat> {
    if !IsOccupied(t[0]) then Some(0) else if !IsOccupied(t[1]) then Some(1) else None
  }

  function Count(b: bool): nat {
    if b then 1 else 0
  }

  function ActiveCount(t: Table): nat {
    Count(t[0].connected) + Count(t[1].connected)
  }

  function OccupiedCount(t: Table): nat {
    Count(IsOccupied(t[0])) + Count(IsOccupied(t[1]))
  }

  predicate AddressInUse(t: Table, a: Address) {
    exists i | 0 <= i < |t| :: IsOccupied(t[i]) && t[i].address == Some(a)
  }

  /** Names of the connected slots from slot `i` on. */
  function NamesFrom(t: Table, i: nat): seq<Name>
    requires i <= MAX_CONNECTIONS
    decreases MAX_CONNECTIONS - i
  {
    if i == MAX_CONNECTIONS then []
    else if t[i].connected then [t[i].name] + NamesFrom(t, i + 1)
    else NamesFrom(t, i + 1)
  }

  /** `connection_summary`. */
  function Summary(t: Table): Name {
    var names := NamesFrom(t, 0);
    if |names| == 0 then ConnectedText() else if |names| == 1 then names[0] else TwoDevicesText()
  }

  function ConnectedText(): Name {
    assert |Encode("Connected")| <= NAME_CAPACITY by {
      var s := "Connected";
      assert s[0] == 'C' && s[1] == 'o' && s[2] == 'n' && s[3] == 'n' && s[4] == 'e' && s[5] == 'c'
             && s[6] == 't' && s[7] == 'e' && s[8] == 'd';
      AsciiLength(s);
    }
    "Connected"
  }

  function TwoDevicesText(): Name {
    assert |Encode("2 devices")| <= NAME_CAPACITY by {
      var s := "2 devices";
      assert s[0] == '2' && s[1] == ' ' && s[2] == 'd' && s[3] == 'e' && s[4] == 'v' && s[5] == 'i'
             && s[6] == 'c' && s[7] == 'e' && s[8] == 's';
      AsciiLength(s);
    }
    "2 devices"
  }

  // ─── Reducers as functions on the table ────────────────────────────────────

  function DisconnectFrom(t: Table, i: nat): seq<Action>
    requires i <= MAX_CONNECTIONS
    decreases MAX_CONNECTIONS - i
  {
    if i == MAX_CONNECTIONS then []
    else if IsOccupied(t[i]) then [DisconnectSlot(i)] + DisconnectFrom(t, i + 1)
    else DisconnectFrom(t, i + 1)
  }

  function PlanDisconnect(t: Table): seq<Action> {
    DisconnectFrom(t, 0)
  }

  function PlanStartScan(t: Table): seq<Action> {
    if OccupiedCount(t) >= MAX_CONNECTIONS then DisconnectFrom(t, 0) else []
  }

  function PlanConnect(t: Table, devices: seq<Device>, index: nat): (Table, seq<Action>) {
    if index >= |devices| then (t, [Emit(Failed(ConnectFailed))]) else
    var device := devices[index];
    if AddressInUse(t, device.address) then (t, []) else
    match FindEmpty(t)
    case None => (t, [Emit(Failed(ConnectFailed))])
    case Some(slot) => (t[slot := Connecting(device)], [ConnectSlot(slot, device)])
  }

  function Status(t: Table): Action {
    if ActiveCount(t) == 0 then Emit(AllDown) else Emit(LinkUp(Summary(t)))
  }

  /** The table with slot `i` replaced; an index beyond the table changes nothing. */
  function SetSlot(t: Table, i: nat, s: Slot): Table {
    if i < MAX_CONNECTIONS then t[i := s] else t
  }

  function OnConnected(t: Table, slot: nat, device: Device): (Table, seq<Action>) {
    var t' := SetSlot(t, slot, Connected(device));
    (t', [PersistDevice(device), Emit(LinkUp(Summary(t')))])
  }

  function OnDisconnected(t: Table, slot: nat): (Table, seq<Action>) {
    var t' := SetSlot(t, slot, FREE);
    (t', [Status(t')])
  }

  function OnError(t: Table, slot: nat, tag: ErrorTag): (Table, seq<Action>) {
    var t' := SetSlot(t, slot, FREE);
    (t', [Emit(Failed(tag)), Status(t')])
  }

  // ─── What the answers mean ─────────────────────────────────────────────────

  /** Slot `i` is free and every slot before it is taken. */
  predicate IsFirstFree(t: Table, i: nat) {
    i < MAX_CONNECTIONS && !t[i].connected && !t[i].connecting
    && forall j | 0 <= j < i :: t[j].connected || t[j].connecting
  }

  predicate AllTaken(t: Table) {
    forall j | 0 <= j < MAX_CONNECTIONS :: t[j].connected || t[j].connecting
  }

  /** The first free slot is found exactly if some slot is free. */
  lemma FindEmptyMeaning(t: Table)
    ensures forall i: nat :: FindEmpty(t) == Some(i) <==> IsFirstFree(t, i)
    ensures FindEmpty(t).None? <==> AllTaken(t)
  {}

  lemma SizeOfTwo(chosen: set<int>, first: bool, second: bool)
    requires forall i :: i in chosen <==> (i == 0 && first) || (i == 1 && second)
    ensures |chosen| == Count(first) + Count(second)
  {
    var a: set<int> := if first then {0} else {};
    var b: set<int> := if second then {1} else {};
    assert forall i :: i in chosen <==> i in a || i in b;
    assert chosen == a + b && a !! b;
  }

  lemma CountsMeaning(t: Table)
    ensures ActiveCount(t) == |set i | 0 <= i < MAX_CONNECTIONS && t[i].connected|
    ensures OccupiedCount(t) == |set i | 0 <= i < MAX_CONNECTIONS && IsOccupied(t[i])|
    ensures OccupiedCount(t) >= MAX_CONNECTIONS <==> AllTaken(t)
  {
    var active := set i | 0 <= i < MAX_CONNECTIONS && t[i].connected;
    var occupied := set i | 0 <= i < MAX_CONNECTIONS && IsOccupied(t[i]);
    SizeOfTwo(active, t[0].connected, t[1].connected);
    SizeOfTwo(occupied, IsOccupied(t[0]), IsOccupied(t[1]));
  }

  /** The actions are one DisconnectSlot for each of the slots chosen by `chosen`, in slot order. */
  ghost predicate Disconnects(actions: seq<Action>, chosen: nat -> bool) {
    && (forall a | a in actions :: a.DisconnectSlot? && a.slot < MAX_CONNECTIONS)
    && (forall i: nat | i < MAX_CONNECTIONS :: DisconnectSlot(i) in actions <==> chosen(i))
    && forall j, k | 0 <= j < k < |actions| :: actions[j].slot < actions[k].slot
  }

  /**
   Disconnecting names exactly the slots that are taken; making room for a scan names all of them
   if all are taken, and none as long as one is free.
   */
  lemma DisconnectsMeaning(t: Table)
    ensures Disconnects(PlanDisconnect(t), (i: nat) => i < MAX_CONNECTIONS && (t[i].connected || t[i].connecting))
    ensures Disconnects(PlanStartScan(t), (i: nat) => i < MAX_CONNECTIONS && AllTaken(t))
  {
    assert DisconnectFrom(t, 2) == [];
    assert DisconnectFrom(t, 1) == if IsOccupied(t[1]) then [DisconnectSlot(1)] else [];
    var second := DisconnectFrom(t, 1);
    assert DisconnectFrom(t, 0) == if IsOccupied(t[0]) then [DisconnectSlot(0)] + second else second;
    CountsMeaning(t);
  }

  /** The table has a connecting slot for the device at `i` and is otherwise as before. */
  ghost predicate ReservesFor(t: Table, t': Table, i: nat, d: Device) {
    && i < MAX_CONNECTIONS
    && t'[i] == Slot(Some(d.address), d.name, false, true)
    && forall j | 0 <= j < MAX_CONNECTIONS && j != i :: t'[j] == t[j]
  }

  /** A taken slot has the address. */
  predicate Holds(t: Table, a: Address) {
    exists i | 0 <= i < MAX_CONNECTIONS :: (t[i].connected || t[i].connecting) && t[i].address == Some(a)
  }

  /**
   A Connect is refused aloud if there is no such row, or no free slot for an address that is
   not held; it is dropped if the address is held; otherwise the first free slot is reserved.
   */
  lemma ConnectMeaning(t: Table, devices: seq<Device>, index: nat)
    ensures var (t', actions) := PlanConnect(t, devices, index);
            if index >= |devices| || (!Holds(t, devices[index].address) && AllTaken(t)) then
              t' == t && actions == [Emit(Failed(ConnectFailed))]
            else if Holds(t, devices[index].address) then
              t' == t && actions == []
            else
              exists i: nat :: && IsFirstFree(t, i) && ReservesFor(t, t', i, devices[index])
                               && actions == [ConnectSlot(i, devices[index])]
  {
    FindEmptyMeaning(t);
    if index < |devices| {
      assert AddressInUse(t, devices[index].address) == Holds(t, devices[index].address);
      if FindEmpty(t).Some? {
        assert IsFirstFree(t, FindEmpty(t).value);
      }
    }
  }

  /**
   The text for the UI: a fixed one for two links, the name of the only one, or a fixed one for
   none. The names are listed in slot order.
   */
  lemma SummaryMeaning(t: Table)
    ensures t[0].connected && t[1].connected ==> Summary(t) == "2 devices"
    ensures t[0].connected && !t[1].connected ==> Summary(t) == t[0].name
    ensures !t[0].connected && t[1].connected ==> Summary(t) == t[1].name
    ensures !t[0].connected && !t[1].connected ==> Summary(t) == "Connected"
    ensures NamesFrom(t, 0) == (if t[0].connected then [t[0].name] else []) + (if t[1].connected then [t[1].name] else [])
  {
    assert NamesFrom(t, 2) == [];
    assert NamesFrom(t, 1) == if t[1].connected then [t[1].name] else [];
    var second := NamesFrom(t, 1);
    assert NamesFrom(t, 0) == if t[0].connected then [t[0].name] + second else second;
  }

  /** The last thing the UI is told after a link ended: how things stand. */
  predicate TellsStatus(t: Table, a: Action) {
    if t[0].connected || t[1].connected then a == Emit(LinkUp(Summary(t))) else a == Emit(AllDown)
  }

  /** Slot `i` is `s`, if there is such a slot, and the others are as before. */
  predicate Replaces(t: Table, t': Table, i: nat, s: Slot) {
    forall j | 0 <= j < MAX_CONNECTIONS :: t'[j] == if j == i then s else t[j]
  }

  /**
   A link that came up is persisted before the UI is told of it; one that went down, or never
   came up, frees its slot, and the UI is told of the failure, if any, before the status.
   */
  lemma ReducersMeaning(t: Table, i: nat, d: Device, tag: ErrorTag)
    ensures var (t', actions) := OnConnected(t, i, d);
            && Replaces(t, t', i, Slot(Some(d.address), d.name, true, false))
            && actions == [PersistDevice(d), Emit(LinkUp(Summary(t')))]
    ensures var (t', actions) := OnDisconnected(t, i);
            Replaces(t, t', i, Slot(None, "", false, false)) && |actions| == 1 && TellsStatus(t', actions[0])
    ensures var (t', actions) := OnError(t, i, tag);
            && Replaces(t, t', i, Slot(None, "", false, false))
            && |actions| == 2 && actions[0] == Emit(Failed(tag)) && TellsStatus(t', actions[1])
  {}

  // ─── The table as the firmware keeps it ────────────────────────────────────

  class ConnManager {
    const slots: array<Slot>

    ghost predicate Valid() {
      slots.Length == MAX_CONNECTIONS
    }

    ghost function Value(): Table
      requires Valid()
      reads slots
    {
      slots[..]
    }

    constructor ()
      ensures Valid() && fresh(slots) && Value() == [FREE, FREE]
    {
      slots := new Slot[MAX_CONNECTIONS](_ => FREE);
    }

    method FindEmptySlot() returns (slot: Option<nat>)
      requires Valid()
      ensures slot == FindEmpty(Value())
      ensures match slot
              case Some(i) => IsFirstFree(Value(), i)
              case None => forall j | 0 <= j < MAX_CONNECTIONS :: IsOccupied(slots[j])
    {
      for i := 0 to MAX_CONNECTIONS
        invariant forall j | 0 <= j < i :: IsOccupied(slots[j])
      {
        if !IsOccupied(slots[i]) {
          return Some(i);
        }
      }
      return None;
    }

    method ActiveSlots() returns (n: nat)
      requires Valid()
      ensures n == ActiveCount(Value()) == |set i | 0 <= i < MAX_CONNECTIONS && Value()[i].connected|
    {
      n := 0;
      CountsMeaning(Value());
      for i := 0 to MAX_CONNECTIONS
        invariant n == (if i > 0 then Count(slots[0].connected) else 0)
                       + (if i > 1 then Count(slots[1].connected) else 0)
      {
        if slots[i].connected {
          n := n + 1;
        }
      }
    }

    method OccupiedSlots() returns (n: nat)
      requires Valid()
      ensures n == OccupiedCount(Value()) == |set i | 0 <= i < MAX_CONNECTIONS && IsOccupied(Value()[i])|
    {
      n := 0;
      CountsMeaning(Value());
      for i := 0 to MAX_CONNECTIONS
        invariant n == (if i > 0 then Count(IsOccupied(slots[0])) else 0)
                       + (if i > 1 then Count(IsOccupied(slots[1])) else 0)
      {
        if IsOccupied(slots[i]) {
          n := n + 1;
        }
      }
    }

    method IsConnectedAddress(address: Address) returns (inUse: bool)
      requires Valid()
      ensures inUse == AddressInUse(Value(), address)
    {
      for i := 0 to MAX_CONNECTIONS
        invariant forall j | 0 <= j < i :: !(IsOccupied(slots[j]) && slots[j].address == Some(address))
      {
        if IsOccupied(slots[i]) && slots[i].address == Some(address) {
          assert Value()[i] == slots[i];
          return true;
        }
      }
      return false;
    }

    method ConnectedNames() returns (names: seq<Name>)
      requires Valid()
      ensures names == NamesFrom(Value(), 0)
    {
      names := [];
      for i := 0 to MAX_CONNECTIONS
        invariant names + NamesFrom(Value(), i) == NamesFrom(Value(), 0)
      {
        if slots[i].connected {
          names := names + [slots[i].name];
        }
      }
    }

    method ConnectionSummary() returns (summary: Name)
      requires Valid()
      ensures summary == Summary(Value())
    {
      var names := ConnectedNames();
      if |names| == 0 {
        return ConnectedText();
      } else if |names| == 1 {
        return names[0];
      } else {
        return TwoDevicesText();
      }
    }

    /** `plan_start_scan`: frees every slot, but only when all are busy. */
    method StartScan() returns (actions: seq<Action>)
      requires Valid()
      ensures actions == PlanStartScan(Value())
    {
      actions := [];
      var occupied := OccupiedSlots();
      if occupied >= MAX_CONNECTIONS {
        actions := Disconnect();
      }
    }

    /** `plan_disconnect`. */
    method Disconnect() returns (actions: seq<Action>)
      requires Valid()
      ensures actions == PlanDisconnect(Value())
    {
      actions := [];
      for slot := 0 to MAX_CONNECTIONS
        invariant actions + DisconnectFrom(Value(), slot) == PlanDisconnect(Value())
      {
        if IsOccupied(slots[slot]) {
          actions := actions + [DisconnectSlot(slot)];
        }
      }
    }

    /** `plan_connect`: reserves a slot before the worker knows about it. */
    method Connect(devices: seq<Device>, index: nat) returns (actions: seq<Action>)
      requires Valid()
      modifies slots
      ensures (Value(), actions) == PlanConnect(old(Value()), devices, index)
    {
      if index >= |devices| {
        return [Emit(Failed(ConnectFailed))];
      }
      var device := devices[index];
      var inUse := IsConnectedAddress(device.address);
      if inUse {
        return [];
      }
      var slot := FindEmptySlot();
      match slot {
        case None => return [Emit(Failed(ConnectFailed))];
        case Some(i) =>
          slots[i] := Connecting(device);
          return [ConnectSlot(i, device)];
      }
    }

    /** `connect_slot` and `disconnect_slot`: an index beyond the table is ignored. */
    method WriteSlot(slot: nat, s: Slot)
      requires Valid()
      modifies slots
      ensures Value() == SetSlot(old(Value()), slot, s)
    {
      if slot < MAX_CONNECTIONS {
        slots[slot] := s;
      }
    }

    /** `on_slot_connected`. */
    method SlotConnected(slot: nat, device: Device) returns (actions: seq<Action>)
      requires Valid()
      modifies slots
      ensures (Value(), actions) == OnConnected(old(Value()), slot, device)
    {
      WriteSlot(slot, Connected(device));
      var summary := ConnectionSummary();
      return [PersistDevice(device), Emit(LinkUp(summary))];
    }

    method CurrentStatus() returns (status: Action)
      requires Valid()
      ensures status == Status(Value())
    {
      var active := ActiveSlots();
      if active == 0 {
        return Emit(AllDown);
      }
      var summary := ConnectionSummary();
      return Emit(LinkUp(summary));
    }

    /** `on_slot_disconnected`. */
    method SlotDisconnected(slot: nat) returns (actions: seq<Action>)
      requires Valid()
      modifies slots
      ensures (Value(), actions) == OnDisconnected(old(Value()), slot)
    {
      WriteSlot(slot, FREE);
      var status := CurrentStatus();
      return [status];
    }

    /** `on_slot_error`. */
    method SlotError(slot: nat, tag: ErrorTag) returns (actions: seq<Action>)
      requires Valid()
      modifies slots
      ensures (Value(), actions) == OnError(old(Value()), slot, tag)
    {
      WriteSlot(slot, FREE);
      var status := CurrentStatus();
      return [Emit(Failed(tag)), status];
    }
  }
}
