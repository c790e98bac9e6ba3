/** The screen machine of the UI task and the event half of its loop. */
module Ui {
  import opened Types
  import opened Utf8
  import opened Scanner
  import Coordinator

  const MAX_LISTED: nat := 8

  datatype Screen = Home | Scanning | DeviceList | Connected | Error

  datatype ButtonEvent = Up | Down | Select

  /** A command for the coordinator (`BleCommand`). */
  datatype Command = StartScan | Connect(index: nat) | Disconnect

  /** What the coordinator publishes for the UI. */
  datatype BleEvent =
    | ScanStarted
    | DeviceFound(device: Device)
    | ScanComplete
    | LinkUp(summary: Name)
    | AllDown
    | Failed(tag: Coordinator.ErrorTag)

  datatype Redraw = NoRedraw | RedrawScanning | RedrawDeviceList | RedrawHome

  datatype ButtonOutcome = ButtonOutcome(
    screen: Screen, selected: nat, resetDevices: bool, command: Option<Command>, redraw: Redraw)

  /** `on_button`. */
  function OnButton(screen: Screen, btn: ButtonEvent, selected: nat, deviceCount: nat): ButtonOutcome {
    match (screen, btn)
    case (Home, Select) => ButtonOutcome(Scanning, 0, true, Some(StartScan), RedrawScanning)
    case (Error, Select) => ButtonOutcome(Scanning, 0, true, Some(StartScan), RedrawScanning)
    case (DeviceList, Up) =>
      ButtonOutcome(DeviceList, if selected > 0 then selected - 1 else 0, false, None, RedrawDeviceList)
    case (DeviceList, Down) =>
      if selected + 1 < deviceCount then ButtonOutcome(DeviceList, selected + 1, false, None, RedrawDeviceList)
      else ButtonOutcome(DeviceList, selected, false, None, NoRedraw)
    case (DeviceList, Select) => ButtonOutcome(Scanning, selected, false, Some(Connect(selected)), RedrawScanning)
    case (Connected, Select) => ButtonOutcome(Scanning, 0, true, Some(StartScan), RedrawScanning)
    case (Connected, Down) => ButtonOutcome(Home, selected, false, Some(Disconnect), RedrawHome)
    case _ => ButtonOutcome(screen, selected, false, None, NoRedraw)
  }

  /**
   A scan is asked for exactly by Select away from a running scan and from the device list,
   a connection by Select on the list, a disconnection by Down on the connected screen. Only
   commands change the screen and the list is dropped exactly with a new scan. On the list, Up
   goes to the row above and Down to the row below, as long as there is one; a new scan selects
   row 0 and nothing else moves the selection. What is redrawn is the screen gone to, or the list
   if Up was pressed or the selection moved.
   */
  lemma ButtonMeaning(screen: Screen, btn: ButtonEvent, selected: nat, deviceCount: nat)
    ensures var out := OnButton(screen, btn, selected, deviceCount);
            && (out.command == Some(StartScan) <==> btn.Select? && !screen.Scanning? && !screen.DeviceList?)
            && (out.command == Some(Connect(selected)) <==> btn.Select? && screen.DeviceList?)
            && (out.command == Some(Disconnect) <==> btn.Down? && screen.Connected?)
            && (out.command.Some? ==> out.command.value in {StartScan, Connect(selected), Disconnect})
            && (out.resetDevices <==> out.command == Some(StartScan))
            && (out.command.None? <==> out.screen == screen)
            && (out.command.Some? ==> out.screen == if out.command == Some(Disconnect) then Home else Scanning)
            && (selected < deviceCount ==> out.selected < deviceCount)
            && (screen.DeviceList? && btn.Up? ==> out.selected == if selected == 0 then 0 else selected - 1)
            && (screen.DeviceList? && btn.Down? && selected < deviceCount ==>
                  out.selected == if selected + 1 == deviceCount then selected else selected + 1)
            && (!(screen.DeviceList? && (btn.Up? || btn.Down?)) ==>
                  out.selected == if out.resetDevices then 0 else selected)
            && (out.redraw.RedrawDeviceList? <==> screen.DeviceList? && (btn.Up? || (btn.Down? && out.selected != selected)))
            && (out.redraw.RedrawScanning? <==> out.command.Some? && out.screen.Scanning?)
            && (out.redraw.RedrawHome? <==> out.command.Some? && out.screen.Home?)
  {}

  /** `on_scan_complete`. */
  function OnScanComplete(deviceCount: nat): Screen {
    if deviceCount > 0 then DeviceList else Error
  }

  /** The variables of the UI loop that events and buttons change. */
  datatype View = View(
    screen: Screen, selected: nat, deviceCount: nat, devices: seq<Name>, connectedName: Name, bleConnected: bool)

  const START: View := View(Home, 0, 0, [], "", false)

  function Pressed(v: View, btn: ButtonEvent): (View, Option<Command>) {
    var out := OnButton(v.screen, btn, v.selected, v.deviceCount);
    var moved := v.(screen := out.screen, selected := out.selected);
    (if out.resetDevices then moved.(deviceCount := 0, devices := []) else moved, out.command)
  }

  function Shown(v: View, event: BleEvent): View {
    match event
    case ScanStarted => v.(screen := Scanning, selected := 0, deviceCount := 0, devices := [])
    case DeviceFound(d) =>
      var devices := if |v.devices| < MAX_LISTED then v.devices + [d.name] else v.devices;
      v.(devices := devices, deviceCount := |devices|)
    case ScanComplete =>
      var screen := OnScanComplete(v.deviceCount);
      if screen == DeviceList
      then v.(screen := screen, selected := if v.selected < v.deviceCount then v.selected else v.deviceCount - 1)
      else v.(screen := screen)
    case LinkUp(summary) => v.(screen := Connected, devices := [], connectedName := summary, bleConnected := true)
    case AllDown => View(Home, 0, 0, [], "", false)
    case Failed(_) => v.(screen := Error)
  }

  /** A press keeps the connection shown, and the listed devices unless it asks for a scan. */
  lemma PressMeaning(v: View, btn: ButtonEvent)
    ensures var (v', command) := Pressed(v, btn);
            && command == OnButton(v.screen, btn, v.selected, v.deviceCount).command
            && v'.connectedName == v.connectedName && v'.bleConnected == v.bleConnected
            && (command == Some(StartScan) ==> v'.devices == [] && v'.deviceCount == 0 && v'.selected == 0)
            && (command != Some(StartScan) ==> v'.devices == v.devices && v'.deviceCount == v.deviceCount)
            && (command.None? ==> v'.screen == v.screen)
            && (command == Some(Disconnect) ==> v'.screen == Home)
            && (command.Some? && command != Some(Disconnect) ==> v'.screen == Scanning)
  {}

  function PressTimes(v: View, btn: ButtonEvent, n: nat): View {
    if n == 0 then v else Pressed(PressTimes(v, btn, n - 1), btn).0
  }

  /** From any row of the list, `n` times Down goes `n` rows down and `n` times Up goes `n` rows up, to the end at most. */
  lemma {:induction false} RowsAreReached(v: View, n: nat)
    requires v.screen.DeviceList? && v.selected < v.deviceCount
    ensures PressTimes(v, Down, n)
            == v.(selected := if v.selected + n < v.deviceCount then v.selected + n else v.deviceCount - 1)
    ensures PressTimes(v, Up, n) == v.(selected := if n < v.selected then v.selected - n else 0)
  {
    if n > 0 {
      RowsAreReached(v, n - 1);
    }
  }

  /**
   The screen follows the last event, a device found apart. A connection is shown from LinkUp to
   AllDown; rows are dropped by a scan, a link and AllDown; up to eight are listed in order.
   */
  lemma EventMeaning(v: View, e: BleEvent)
    ensures var v' := Shown(v, e);
            && v'.screen == (match e
                             case ScanStarted => Scanning
                             case DeviceFound(_) => v.screen
                             case ScanComplete => if v.deviceCount > 0 then DeviceList else Error
                             case LinkUp(_) => Connected
                             case AllDown => Home
                             case Failed(_) => Error)
            && v'.devices == (if e.DeviceFound? && |v.devices| < 8 then v.devices + [e.device.name]
                              else if e.ScanStarted? || e.LinkUp? || e.AllDown? then [] else v.devices)
            && v'.deviceCount == (if e.DeviceFound? then |v'.devices|
                                  else if e.ScanStarted? || e.AllDown? then 0 else v.deviceCount)
            && (e.ScanStarted? || e.AllDown? ==> v'.selected == 0)
            && (e.ScanComplete? && v.selected >= v.deviceCount > 0 ==> v'.selected == v.deviceCount - 1)
            && (!e.ScanStarted? && !e.AllDown? && (e.ScanComplete? ==> v.selected < v.deviceCount || v.deviceCount == 0) ==>
                  v'.selected == v.selected)
            && v'.connectedName == (if e.LinkUp? then e.summary else if e.AllDown? then "" else v.connectedName)
            && v'.bleConnected == (e.LinkUp? || (v.bleConnected && !e.AllDown?))
  {}

  /** The state of the UI loop, changed in place. */
  class UiLoop {
    var screen: Screen
    var selected: nat
    var deviceCount: nat
    var devices: seq<Name>
    var connectedName: Name
    var bleConnected: bool

    ghost function Value(): View
      reads this
    {
      View(screen, selected, deviceCount, devices, connectedName, bleConnected)
    }

    constructor ()
      ensures Value() == START
    {
      screen, selected, deviceCount, devices := Home, 0, 0, [];
      connectedName, bleConnected := "", false;
    }

    /** The button arm while the display is on. */
    method HandleButton(btn: ButtonEvent) returns (command: Option<Command>)
      modifies this
      ensures (Value(), command) == Pressed(old(Value()), btn)
    {
      var outcome := OnButton(screen, btn, selected, deviceCount);
      screen := outcome.screen;
      selected := outcome.selected;
      if outcome.resetDevices {
        deviceCount := 0;
        devices := [];
      }
      command := outcome.command;
    }

    /** The BLE-event arm. */
    method HandleEvent(event: BleEvent)
      modifies this
      ensures Value() == Shown(old(Value()), event)
    {
      match event {
        case ScanStarted =>
          screen, selected, deviceCount, devices := Scanning, 0, 0, [];
        case DeviceFound(d) =>
          if |devices| < MAX_LISTED {
            devices := devices + [d.name];
          }
          deviceCount := |devices|;
        case ScanComplete =>
          screen := OnScanComplete(deviceCount);
          if screen == DeviceList {
            selected := if selected < deviceCount then selected else deviceCount - 1;
          }
        case LinkUp(summary) =>
          screen, devices, connectedName, bleConnected := Connected, [], summary, true;
        case AllDown =>
          screen, devices, selected, deviceCount := Home, [], 0, 0;
          connectedName, bleConnected := "", false;
        case Failed(_) =>
          screen := Error;
      }
    }
  }
}
