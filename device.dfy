/** The `Device` object: the current screen geometry, shared by the video
    and input paths, the single rotation-listener slot, and the rotation
    watcher callback that keeps the geometry up to date. Each call and each
    callback is one atomic step (Java's `synchronized` serialises them on the
    device's monitor). */
module DeviceModel {
  import opened JavaInt
  import opened Geometry
  import opened PointMapping

  /** The exception a Java integer division by zero raises. */
  datatype JavaException = ArithmeticException

  /** How a Java call ends: it returns a value or throws. */
  datatype Outcome<T> = Returned(value: T) | Thrown(exception: JavaException)

  /** An `android.graphics.Point`: two public, mutable coordinates. */
  class Point {
    var x: Int32
    var y: Int32

    constructor (x: Int32, y: Int32)
      ensures this.x == x && this.y == y
    {
      this.x := x;
      this.y := y;
    }
  }

  /** One call of a listener: the rotation it was told, and the geometry it
      reads from the device at that moment. */
  datatype Notification = Notification(rotation: Int32, observed: ScreenInfo)

  /** A `Device.RotationListener`. What the listener does with a rotation is
      outside this model; this one asks its device for the current geometry
      when it is called, as a capture path woken by a rotation does, and
      `received` records every call in order. */
  class RotationListener {
    const device: Device
    var received: seq<Notification>

    constructor (device: Device)
      ensures this.device == device && received == []
    {
      this.device := device;
      received := [];
    }

    method OnRotationChanged(rotation: Int32)
      modifies this
      ensures received == old(received) + [Notification(rotation, device.screenInfo)]
    {
      var observed := device.GetScreenInfo();
      received := received + [Notification(rotation, observed)];
    }
  }

  class Device {
    var screenInfo: ScreenInfo
    var rotationListener: RotationListener?

    /** `ScreenInfo.withRotation`, which is not part of this model: the
        device is given it and assumes nothing about what it returns. */
    const withRotation: (ScreenInfo, Int32) -> ScreenInfo

    /** The device starts from the geometry derived from the display
        service's report, with no listener. Registering the rotation
        watcher with the window service is the caller's side: it then
        calls OnRotationChanged for each rotation. */
    constructor (displayInfo: DisplayInfo, withRotation: (ScreenInfo, Int32) -> ScreenInfo)
      ensures screenInfo == ComputeScreenInfo(displayInfo)
      ensures rotationListener == null
      ensures this.withRotation == withRotation
    {
      screenInfo := ComputeScreenInfo(displayInfo);
      rotationListener := null;
      this.withRotation := withRotation;
    }

    /** The rotation watcher's callback: the geometry is replaced first, then
        the listener in the slot, if any, is told the new rotation exactly
        once; nothing else is notified and the slot keeps its listener. A
        listener that reads this device's geometry when it is called sees the
        geometry already rotated. */
    method OnRotationChanged(rotation: Int32)
      modifies this, rotationListener
      ensures screenInfo == withRotation(old(screenInfo), rotation)
      ensures rotationListener == old(rotationListener)
      ensures rotationListener != null ==>
        rotationListener.received
          == old(rotationListener.received) + [Notification(rotation, rotationListener.device.screenInfo)]
      ensures rotationListener != null && rotationListener.device == this ==>
        rotationListener.received
          == old(rotationListener.received) + [Notification(rotation, withRotation(old(screenInfo), rotation))]
    {
      screenInfo := withRotation(screenInfo, rotation);
      if rotationListener != null {
        rotationListener.OnRotationChanged(rotation);
      }
    }

    /** A snapshot of the current geometry. */
    method GetScreenInfo() returns (s: ScreenInfo)
      ensures s == screenInfo
    {
      s := screenInfo;
    }

    /** Puts `listener` in the slot, replacing whatever was there; `null`
        empties it. */
    method SetRotationListener(listener: RotationListener?)
      modifies this`rotationListener
      ensures rotationListener == listener
    {
      rotationListener := listener;
    }

    /** Remaps `point`, sent by a client whose video frame has size
        `screenSize`, into the content rectangle, in place. On the fast path
        the point is returned untouched; otherwise each coordinate is
        scaled, and a zero dimension of `screenSize` throws from the
        division that uses it. The device's own state is only read. */
    method GetPhysicalPoint(point: Point, screenSize: Size) returns (r: Outcome<Point>)
      modifies point
      ensures var m := PhysicalPoint(old(point.x), old(point.y), screenSize, screenInfo.contentRect);
        && point.x == m.x && point.y == m.y
        && r == if m.thrown then Thrown(ArithmeticException) else Returned(point)
    {
      var screenInfo := GetScreenInfo();
      var contentRect := screenInfo.contentRect;
      if contentRect.Width() == screenSize.width
        && contentRect.Height() == screenSize.height
        && contentRect.left == 0
        && contentRect.top == 0
      {
        return Returned(point);
      }
      if screenSize.width == 0 {
        return Thrown(ArithmeticException);
      }
      point.x := Add(contentRect.left, Div(Mul(point.x, contentRect.Width()), screenSize.width));
      if screenSize.height == 0 {
        return Thrown(ArithmeticException);
      }
      point.y := Add(contentRect.top, Div(Mul(point.y, contentRect.Height()), screenSize.height));
      return Returned(point);
    }
  }

  /** The geometry after a run of rotation events, each applied to the
      geometry the previous one left. */
  function RotatedBy(withRotation: (ScreenInfo, Int32) -> ScreenInfo, s: ScreenInfo, rotations: seq<Int32>): (s': ScreenInfo)
    decreases |rotations|
  {
    if rotations == [] then s
    else RotatedBy(withRotation, withRotation(s, rotations[0]), rotations[1..])
  }

  /** Applying two runs of rotation events one after the other is applying
      their concatenation: the geometry depends only on the whole sequence
      of events received, not on how they were batched. */
  lemma {:induction false} RotatedByAppend(withRotation: (ScreenInfo, Int32) -> ScreenInfo, s: ScreenInfo,
                                           first: seq<Int32>, second: seq<Int32>)
    ensures RotatedBy(withRotation, s, first + second)
         == RotatedBy(withRotation, RotatedBy(withRotation, s, first), second)
    decreases |first|
  {
    if first == [] {
      assert first + second == second;
    } else {
      assert (first + second)[0] == first[0];
      assert (first + second)[1..] == first[1..] + second;
      RotatedByAppend(withRotation, withRotation(s, first[0]), first[1..], second);
    }
  }

  /** The notifications a run of rotation events produces for a listener of
      the device: each rotation with the geometry after applying it. */
  function Notifications(withRotation: (ScreenInfo, Int32) -> ScreenInfo, s: ScreenInfo,
                         rotations: seq<Int32>): (ns: seq<Notification>)
    decreases |rotations|
  {
    if rotations == [] then []
    else
      var next := withRotation(s, rotations[0]);
      [Notification(rotations[0], next)] + Notifications(withRotation, next, rotations[1..])
  }

  /** Two runs of events notify what each run notifies, the second one
      starting from the geometry the first left. */
  lemma {:induction false} NotificationsAppend(withRotation: (ScreenInfo, Int32) -> ScreenInfo, s: ScreenInfo,
                                               first: seq<Int32>, second: seq<Int32>)
    ensures Notifications(withRotation, s, first + second)
         == Notifications(withRotation, s, first)
          + Notifications(withRotation, RotatedBy(withRotation, s, first), second)
    decreases |first|
  {
    if first == [] {
      assert first + second == second;
    } else {
      assert (first + second)[0] == first[0];
      assert (first + second)[1..] == first[1..] + second;
      NotificationsAppend(withRotation, withRotation(s, first[0]), first[1..], second);
    }
  }

  /** Notification i carries rotation i and the geometry that reflects the
      first i + 1 events, never an older one. */
  lemma {:induction false} NotificationsObserveCurrentGeometry(withRotation: (ScreenInfo, Int32) -> ScreenInfo,
                                                              s: ScreenInfo, rotations: seq<Int32>, i: nat)
    requires i < |rotations|
    ensures |Notifications(withRotation, s, rotations)| == |rotations|
    ensures Notifications(withRotation, s, rotations)[i]
         == Notification(rotations[i], RotatedBy(withRotation, s, rotations[..i + 1]))
    decreases i
  {
    var next := withRotation(s, rotations[0]);
    var rest := rotations[1..];
    if i == 0 {
      NotificationsLength(withRotation, next, rest);
      assert rotations[..1][1..] == [];
    } else {
      NotificationsObserveCurrentGeometry(withRotation, next, rest, i - 1);
      assert rotations[..i + 1][1..] == rest[..i];
    }
  }

  lemma {:induction false} NotificationsLength(withRotation: (ScreenInfo, Int32) -> ScreenInfo, s: ScreenInfo,
                                               rotations: seq<Int32>)
    ensures |Notifications(withRotation, s, rotations)| == |rotations|
    decreases |rotations|
  {
    if rotations != [] {
      NotificationsLength(withRotation, withRotation(s, rotations[0]), rotations[1..]);
    }
  }

  /** The window service delivering rotation events to the watcher one
      after another: a listener of the device registered before the first
      event is told every rotation once, in arrival order, each time seeing
      the geometry that already reflects it, and the device ends with the
      geometry that reflects all of them. */
  method DeliverRotations(device: Device, listener: RotationListener, rotations: seq<Int32>)
    requires listener.device == device
    modifies device, listener
    ensures listener.received
         == old(listener.received) + Notifications(device.withRotation, old(device.screenInfo), rotations)
    ensures device.screenInfo == RotatedBy(device.withRotation, old(device.screenInfo), rotations)
    ensures device.rotationListener == listener
  {
    device.SetRotationListener(listener);
    var i := 0;
    while i < |rotations|
      invariant 0 <= i <= |rotations|
      invariant device.rotationListener == listener
      invariant listener.received
             == old(listener.received) + Notifications(device.withRotation, old(device.screenInfo), rotations[..i])
      invariant device.screenInfo == RotatedBy(device.withRotation, old(device.screenInfo), rotations[..i])
    {
      assert rotations[..i + 1] == rotations[..i] + [rotations[i]];
      RotatedByAppend(device.withRotation, old(device.screenInfo), rotations[..i], [rotations[i]]);
      NotificationsAppend(device.withRotation, old(device.screenInfo), rotations[..i], [rotations[i]]);
      assert Notifications(device.withRotation, device.screenInfo, [rotations[i]])
          == [Notification(rotations[i], device.withRotation(device.screenInfo, rotations[i]))];
      device.OnRotationChanged(rotations[i]);
      i := i + 1;
    }
    assert rotations[..i] == rotations;
  }

  /** The listener slot is last-writer-wins: after registering `first` and
      then `second`, a rotation reaches `second` only. */
  method LastListenerWins(device: Device, first: RotationListener, second: RotationListener, rotation: Int32)
    requires first != second
    modifies device, first, second
    ensures first.received == old(first.received)
    ensures second.received == old(second.received) + [Notification(rotation, second.device.screenInfo)]
    ensures device.screenInfo == device.withRotation(old(device.screenInfo), rotation)
  {
    device.SetRotationListener(first);
    device.SetRotationListener(second);
    device.OnRotationChanged(rotation);
  }

  /** With the slot emptied, a rotation changes the geometry and notifies
      no listener. */
  method NoListenerNoNotification(device: Device, former: RotationListener, rotation: Int32)
    modifies device, former
    ensures former.received == old(former.received)
    ensures device.screenInfo == device.withRotation(old(device.screenInfo), rotation)
    ensures device.rotationListener == null
  {
    device.SetRotationListener(null);
    device.OnRotationChanged(rotation);
  }
}
