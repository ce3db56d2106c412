/**
 * The networked, battery-powered devices `DoorLock` and `Camera`: a device with an id, a
 * location, a connection flag and a battery level that is kept within 0..100.
 *
 * Both classes have the same state and the same behaviour and differ only in the name their
 * status line starts with, so the battery guard and the status line are defined once here.
 */
module Devices {
  import opened Wrappers
  import opened Exceptions
  import opened Text

  /** The range `setBatteryPercent` accepts. */
  predicate BatteryInRange(percent: int) {
    0 <= percent <= 100
  }

  /** The message of the `IllegalArgumentException` a rejected battery level raises. */
  const BatteryMessage: string := "battery 0..100"

  /** The guard of `setBatteryPercent`: it throws before assigning when the level is out of range. */
  function BatteryCheck(percent: int): (o: Outcome<Exception>)
    ensures o.Pass? <==> BatteryInRange(percent)
    ensures o.Fail? ==> o.error == IllegalArgument(BatteryMessage)
  {
    if percent < 0 || percent > 100 then Fail(IllegalArgument(BatteryMessage)) else Pass
  }

  /** How the status line shows the connection flag. */
  function ConnectionText(connected: bool): (t: string)
    ensures |t| >= 2
    ensures t[0] == 'u' <==> connected
  {
    if connected then "up" else "down"
  }

  /** The part of the status line before the connection text. */
  function StatusHead(kind: string, id: string, location: string): string {
    kind + "[id=" + id + ", loc=" + location + ", conn="
  }

  /** The part of the status line after the connection text. */
  function BatteryText(battery: int): string {
    ", batt=" + IntToString(battery) + "%]"
  }

  /** `getStatus`: `<kind>[id=<id>, loc=<location>, conn=<up|down>, batt=<n>%]`. */
  function StatusLine(kind: string, id: string, location: string, connected: bool, battery: int): string {
    StatusHead(kind, id, location) + (ConnectionText(connected) + BatteryText(battery))
  }

  /** Two strings with the same head are equal exactly when their tails are. */
  lemma SameHead(a: string, x: string, y: string)
    ensures a + x == a + y <==> x == y
  {
    if a + x == a + y {
      assert (a + x)[|a|..] == x;
      assert (a + y)[|a|..] == y;
    }
  }

  /** Two strings with the same tail are equal exactly when their heads are. */
  lemma SameTail(x: string, y: string, b: string)
    ensures x + b == y + b <==> x == y
  {
    if x + b == y + b {
      assert |x| == |y|;
      assert (x + b)[..|x|] == x;
      assert (y + b)[..|y|] == y;
    }
  }

  /** The status line starts with the device kind and says whether the device is up. */
  lemma StatusLineShape(kind: string, id: string, location: string, connected: bool, battery: int)
    ensures var s := StatusLine(kind, id, location, connected, battery);
      var h := StatusHead(kind, id, location);
      |s| > |h| + 1 && s[..|kind| + 1] == kind + "[" && s[|h|] == (if connected then 'u' else 'd')
      && s[|s| - 2..] == "%]"
  {
    var s := StatusLine(kind, id, location, connected, battery);
    var h := StatusHead(kind, id, location);
    var rest := ConnectionText(connected) + BatteryText(battery);
    assert s[|h|] == rest[0] == ConnectionText(connected)[0];
    assert h[..|kind| + 1] == kind + "[";
    assert s[..|kind| + 1] == h[..|kind| + 1];
    var i := ", batt=" + IntToString(battery);
    assert BatteryText(battery)[|i|..] == "%]";
    assert s[|s| - 2..] == BatteryText(battery)[|i|..];
  }

  /** The battery text shows the level as a decimal numeral, so it determines it. */
  lemma BatteryTextInjective(b1: int, b2: int)
    requires BatteryInRange(b1) && BatteryInRange(b2)
    ensures BatteryText(b1) == BatteryText(b2) <==> b1 == b2
  {
    if BatteryText(b1) == BatteryText(b2) {
      SameTail(", batt=" + IntToString(b1), ", batt=" + IntToString(b2), "%]");
      SameHead(", batt=", IntToString(b1), IntToString(b2));
      NatToStringInjective(b1, b2);
    }
  }

  /**
   * For one device (same kind, id and location), the status line determines the connection
   * flag and the battery level, and is determined by them.
   */
  lemma StatusLineDeterminesState(kind: string, id: string, location: string,
                                  c1: bool, b1: int, c2: bool, b2: int)
    requires BatteryInRange(b1) && BatteryInRange(b2)
    ensures StatusLine(kind, id, location, c1, b1) == StatusLine(kind, id, location, c2, b2)
      <==> c1 == c2 && b1 == b2
  {
    var h := StatusHead(kind, id, location);
    if StatusLine(kind, id, location, c1, b1) == StatusLine(kind, id, location, c2, b2) {
      SameHead(h, ConnectionText(c1) + BatteryText(b1), ConnectionText(c2) + BatteryText(b2));
      var t1 := ConnectionText(c1) + BatteryText(b1);
      assert t1[0] == ConnectionText(c1)[0];
      assert c1 == c2;
      SameHead(ConnectionText(c1), BatteryText(b1), BatteryText(b2));
      BatteryTextInjective(b1, b2);
    }
  }

  /** A door lock's status line is never a camera's. */
  lemma KindsAreDistinguished(id1: string, loc1: string, c1: bool, b1: int,
                              id2: string, loc2: string, c2: bool, b2: int)
    ensures StatusLine("DoorLock", id1, loc1, c1, b1) != StatusLine("Camera", id2, loc2, c2, b2)
  {
    StatusLineShape("DoorLock", id1, loc1, c1, b1);
    StatusLineShape("Camera", id2, loc2, c2, b2);
    assert StatusLine("DoorLock", id1, loc1, c1, b1)[0] == 'D';
  }

  /** `DoorLock`: a `Device` that is `Networked` and `BatteryPowered`. */
  class DoorLock {
    var id: string
    var location: string
    var connected: bool
    var batteryPercent: int

    /** The class invariant the battery guard maintains. */
    ghost predicate Valid()
      reads this
    {
      BatteryInRange(batteryPercent)
    }

    /** Allocation once the level has passed the guard; `Create` is the Java constructor. */
    constructor Init(id: string, location: string, initialBattery: int)
      requires BatteryInRange(initialBattery)
      ensures Valid()
      ensures this.id == id && this.location == location
      ensures !connected && batteryPercent == initialBattery
    {
      this.id := id;
      this.location := location;
      this.connected := false;
      this.batteryPercent := initialBattery;
    }

    /** `new DoorLock(id, location, initialBattery)`: throws when the level is out of range. */
    static method Create(id: string, location: string, initialBattery: int) returns (r: Result<DoorLock, Exception>)
      ensures r.Success? <==> BatteryInRange(initialBattery)
      ensures r.Failure? ==> r.error == IllegalArgument(BatteryMessage)
      ensures r.Success? ==> fresh(r.value) && r.value.Valid()
      ensures r.Success? ==> r.value.id == id && r.value.location == location
      ensures r.Success? ==> !r.value.connected && r.value.batteryPercent == initialBattery
    {
      var check := BatteryCheck(initialBattery);
      if check.Fail? {
        return Failure(check.error);
      }
      var d := new DoorLock.Init(id, location, initialBattery);
      return Success(d);
    }

    /** `connect`: the device is up; nothing else changes. */
    method Connect()
      modifies this
      ensures connected
      ensures id == old(id) && location == old(location) && batteryPercent == old(batteryPercent)
    {
      connected := true;
    }

    /** `disconnect`: the device is down; nothing else changes. */
    method Disconnect()
      modifies this
      ensures !connected
      ensures id == old(id) && location == old(location) && batteryPercent == old(batteryPercent)
    {
      connected := false;
    }

    /** `isConnected`. */
    function IsConnected(): (b: bool)
      reads this
      ensures b <==> connected
    {
      connected
    }

    /** `getBatteryPercent`: always a percentage while the invariant holds. */
    function GetBatteryPercent(): (p: int)
      reads this
      ensures p == batteryPercent
      ensures Valid() ==> 0 <= p <= 100
    {
      batteryPercent
    }

    /**
     * `setBatteryPercent`: an accepted level is stored; a rejected one throws and leaves the
     * level as it was. Either way the invariant is kept.
     */
    method SetBatteryPercent(percent: int) returns (o: Outcome<Exception>)
      modifies this
      ensures o == BatteryCheck(percent)
      ensures batteryPercent == if o.Pass? then percent else old(batteryPercent)
      ensures old(Valid()) ==> Valid()
      ensures id == old(id) && location == old(location) && connected == old(connected)
    {
      if percent < 0 || percent > 100 {
        return Fail(IllegalArgument(BatteryMessage));
      }
      batteryPercent := percent;
      return Pass;
    }

    /** `getStatus`: the `DoorLock` status line of the current state. */
    function GetStatus(): (s: string)
      reads this
      ensures s == StatusLine("DoorLock", id, location, connected, batteryPercent)
      ensures s[..9] == "DoorLock["
      ensures s[|StatusHead("DoorLock", id, location)|] == 'u' <==> connected
    {
      StatusLineShape("DoorLock", id, location, connected, batteryPercent);
      StatusLine("DoorLock", id, location, connected, batteryPercent)
    }
  }

  /** `Camera`: a `Device` that is `Networked` and `BatteryPowered`. */
  class Camera {
    var id: string
    var location: string
    var connected: bool
    var batteryPercent: int

    /** The class invariant the battery guard maintains. */
    ghost predicate Valid()
      reads this
    {
      BatteryInRange(batteryPercent)
    }

    /** Allocation once the level has passed the guard; `Create` is the Java constructor. */
    constructor Init(id: string, location: string, initialBattery: int)
      requires BatteryInRange(initialBattery)
      ensures Valid()
      ensures this.id == id && this.location == location
      ensures !connected && batteryPercent == initialBattery
    {
      this.id := id;
      this.location := location;
      this.connected := false;
      this.batteryPercent := initialBattery;
    }

    /** `new Camera(id, location, initialBattery)`: throws when the level is out of range. */
    static method Create(id: string, location: string, initialBattery: int) returns (r: Result<Camera, Exception>)
      ensures r.Success? <==> BatteryInRange(initialBattery)
      ensures r.Failure? ==> r.error == IllegalArgument(BatteryMessage)
      ensures r.Success? ==> fresh(r.value) && r.value.Valid()
      ensures r.Success? ==> r.value.id == id && r.value.location == location
      ensures r.Success? ==> !r.value.connected && r.value.batteryPercent == initialBattery
    {
      var check := BatteryCheck(initialBattery);
      if check.Fail? {
        return Failure(check.error);
      }
      var c := new Camera.Init(id, location, initialBattery);
      return Success(c);
    }

    /** `connect`: the device is up; nothing else changes. */
    method Connect()
      modifies this
      ensures connected
      ensures id == old(id) && location == old(location) && batteryPercent == old(batteryPercent)
    {
      connected := true;
    }

    /** `disconnect`: the device is down; nothing else changes. */
    method Disconnect()
      modifies this
      ensures !connected
      ensures id == old(id) && location == old(location) && batteryPercent == old(batteryPercent)
    {
      connected := false;
    }

    /** `isConnected`. */
    function IsConnected(): (b: bool)
      reads this
      ensures b <==> connected
    {
      connected
    }

    /** `getBatteryPercent`: always a percentage while the invariant holds. */
    function GetBatteryPercent(): (p: int)
      reads this
      ensures p == batteryPercent
      ensures Valid() ==> 0 <= p <= 100
    {
      batteryPercent
    }

    /**
     * `setBatteryPercent`: an accepted level is stored; a rejected one throws and leaves the
     * level as it was. Either way the invariant is kept.
     */
    method SetBatteryPercent(percent: int) returns (o: Outcome<Exception>)
      modifies this
      ensures o == BatteryCheck(percent)
      ensures batteryPercent == if o.Pass? then percent else old(batteryPercent)
      ensures old(Valid()) ==> Valid()
      ensures id == old(id) && location == old(location) && connected == old(connected)
    {
      if percent < 0 || percent > 100 {
        return Fail(IllegalArgument(BatteryMessage));
      }
      batteryPercent := percent;
      return Pass;
    }

    /** `getStatus`: the `Camera` status line of the current state. */
    function GetStatus(): (s: string)
      reads this
      ensures s == StatusLine("Camera", id, location, connected, batteryPercent)
      ensures s[..7] == "Camera["
      ensures s[|StatusHead("Camera", id, location)|] == 'u' <==> connected
    {
      StatusLineShape("Camera", id, location, connected, batteryPercent);
      StatusLine("Camera", id, location, connected, batteryPercent)
    }
  }
}
