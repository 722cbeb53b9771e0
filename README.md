# Screen geometry of the scrcpy server's `Device`

This project models the geometry core of `com.genymobile.scrcpy.Device`, the
object the scrcpy server uses to describe the Android screen it mirrors. It covers:

- the video size, which is the content size with each dimension rounded down
  to a multiple of 8 for the H.264 encoder;
- the initial `ScreenInfo`, derived from the display's rotation and size;
- the remapping of a client's pointer position into the device's content
  rectangle (`getPhysicalPoint`);
- `flipRect`;
- the small state machine of the device object: the current `ScreenInfo`,
  the single rotation-listener slot, and the rotation-watcher callback that
  replaces the geometry and notifies the listener.

Java `int` arithmetic is modelled exactly (module `JavaInt`):
- `+`, `-` and `*` wrap around modulo 2^32;
- `/` truncates toward zero, and `MIN / -1` wraps to `MIN`; division by zero is excluded there, and the `ArithmeticException` it raises is modelled where the code divides, in `PointMapping.PhysicalPoint` and `DeviceModel.Device.GetPhysicalPoint`;
- `w & ~7` is `w - w % 8` with Dafny's Euclidean `%`, negative `w` included;
- `(r & 1) != 0` is `r % 2 == 1`.

Files:
- `java_int.dfy` (module `JavaInt`): the 32-bit integer operations.
- `geometry.dfy` (module `Geometry`): `Size`, `Rect`, `DisplayInfo`, `ScreenInfo`, `computeVideoSize`, `computeScreenInfo`, `flipRect`.
- `point_mapping.dfy` (module `PointMapping`): what `getPhysicalPoint` does to a point, as a function, and its properties.
- `device.dfy` (module `DeviceModel`): the `Device`, `Point` and `RotationListener` classes with their methods, and client scenarios of the rotation protocol.

Edge behaviour of the code that the model keeps:
- A dimension in 0..7 rounds to a video size of 0, and the code returns it without rejecting it. A negative dimension rounds down to a negative multiple of 8 (`-3` gives `-8`).
- A zero dimension of the client's frame size is not checked up front.
  - On the fast path the content rectangle is at the origin with that same size, so nothing is divided and the point comes back untouched.
  - Otherwise the division throws `ArithmeticException`. When only the height is 0, `point.x` has already been overwritten when the exception is raised.
- Rotation values outside 0..3 are not rejected. The initial geometry uses only the parity of the display's rotation, negative values included. The rotation callback passes the whole value on, to `withRotation` and to the listener.
- A rotation does not recompute the geometry from the display's natural size. The callback applies `withRotation` to the previous `ScreenInfo`. `ScreenInfo.java` is not part of this model, so `withRotation` is a function the device is constructed with, and nothing is assumed about it.

## Model

| member | source | states |
|---|---|---|
| JavaInt.ClearLow3Bits | server/server/src/main/java/com/genymobile/scrcpy/Device.java:77-78 | `w & ~7` yields a multiple of 8 with `w - 8 < r <= w`, for negative `w` as well |
| JavaInt.LowBitSet | server/server/src/main/java/com/genymobile/scrcpy/Device.java:46 | `(r & 1) != 0` holds exactly when Java's truncating `r % 2` is not 0, negative `r` included |
| JavaInt.Quot | server/server/src/main/java/com/genymobile/scrcpy/Device.java:127-128 | Java's int division rounds toward zero: the remainder has the dividend's sign and is smaller than the divisor in magnitude |
| JavaInt.Div | server/server/src/main/java/com/genymobile/scrcpy/Device.java:127-128 | Java's int `/` is the truncating quotient for every operand pair except `MIN / -1`, which wraps to `MIN` |
| JavaInt.QuotTruncates | server/server/src/main/java/com/genymobile/scrcpy/Device.java:127-128 | `-7 / 2` is `-3` in Java where Euclidean division gives `-4`; a negative divisor also truncates toward zero |
| JavaInt.DivOverflow | server/server/src/main/java/com/genymobile/scrcpy/Device.java:127-128 | the one overflowing int division, `MIN / -1`, wraps to `MIN` |
| Geometry.ComputeVideoSize | server/server/src/main/java/com/genymobile/scrcpy/Device.java:70-106 | each video dimension is a multiple of 8, at most its input and more than input - 8; it is 0 for an input in 0..7 and non-negative for non-negative input |
| Geometry.VideoSizeIsLargestMultipleOf8 | server/server/src/main/java/com/genymobile/scrcpy/Device.java:77-78 | no multiple of 8 lies strictly between the rounded dimension and the input: rounding goes down to the nearest one |
| Geometry.VideoSizeIdempotent | server/server/src/main/java/com/genymobile/scrcpy/Device.java:77-78 | rounding a size that is already rounded returns it unchanged |
| Geometry.VideoSizeKeepsExactly | server/server/src/main/java/com/genymobile/scrcpy/Device.java:77-78 | a dimension is kept exactly when it is already a multiple of 8 |
| Geometry.ComputeScreenInfo | server/server/src/main/java/com/genymobile/scrcpy/Device.java:44-63 | `rotated` holds exactly when the rotation is odd; the content rectangle starts at (0, 0) and has the display's width and height; the video size is the rounded content size |
| Geometry.InitialVideoFitsContent | server/server/src/main/java/com/genymobile/scrcpy/Device.java:46-61 | for a non-negative display size the content rectangle is (0, 0, width, height) and the video size is non-negative and no larger than it |
| Geometry.ComputeScreenInfoExamples | server/server/src/main/java/com/genymobile/scrcpy/Device.java:44-63 | concrete geometries: 1080x2340 in rotation 1 gives video 1080x2336 and rotated; 7x13 in rotation 2 gives video 0x8, not rotated |
| Geometry.FlipRect | server/server/src/main/java/com/genymobile/scrcpy/Device.java:152-154 | the flipped rectangle's width is the original's height and its height the original's width |
| Geometry.FlipRectInvolution | server/server/src/main/java/com/genymobile/scrcpy/Device.java:152-154 | flipping twice gives back the original rectangle |
| PointMapping.IsIdentity | server/server/src/main/java/com/genymobile/scrcpy/Device.java:121-124 | the fast-path test holds exactly when the content rectangle is the rectangle from the origin to the client frame's size |
| PointMapping.PhysicalPoint | server/server/src/main/java/com/genymobile/scrcpy/Device.java:120-129 | on the fast path the point is unchanged and nothing throws; off it x is `Scale`d by the content width over the frame width, then y by the heights; an exception is raised exactly when the fast path is not taken and a frame dimension is 0, leaving the point untouched when the width is 0 and y untouched when only the height is 0 |
| PointMapping.PhysicalPointFormula | server/server/src/main/java/com/genymobile/scrcpy/Device.java:120-129 | when nothing overflows and the frame has positive size, the result is `(left + x * width / screenW, top + y * height / screenH)` with truncating division, on the fast path as well |
| PointMapping.PhysicalPointWithinContent | server/server/src/main/java/com/genymobile/scrcpy/Device.java:120-129 | a point with `0 <= x <= screenW` and `0 <= y <= screenH` lands inside `[left, left + width] x [top, top + height]` without throwing |
| PointMapping.Scale | server/server/src/main/java/com/genymobile/scrcpy/Device.java:127-128 | one coordinate `origin + v * length / screen` in Java int arithmetic; when nothing overflows it is the exact formula with division truncating toward zero |
| PointMapping.FastPathAgreesWithScaling | server/server/src/main/java/com/genymobile/scrcpy/Device.java:121-128 | when the fast-path condition holds, the general formula would also return the point, provided `v * length` does not overflow |
| PointMapping.ScaleWithinContent | server/server/src/main/java/com/genymobile/scrcpy/Device.java:127-128 | a coordinate in `[0, screen]` maps into `[origin, origin + length]` |
| PointMapping.ScaleMonotone | server/server/src/main/java/com/genymobile/scrcpy/Device.java:127-128 | remapping preserves the order of coordinates when nothing overflows |
| PointMapping.PhysicalPointScalesUp | server/server/src/main/java/com/genymobile/scrcpy/Device.java:120-129 | content (0,0,800,600), frame 400x300, point (100,100) gives (200,200) |
| PointMapping.PhysicalPointOffsets | server/server/src/main/java/com/genymobile/scrcpy/Device.java:120-129 | content (50,50,450,350), frame 400x300, point (10,10) gives (60,60) |
| PointMapping.PhysicalPointTruncatesTowardZero | server/server/src/main/java/com/genymobile/scrcpy/Device.java:127-128 | a negative coordinate is divided toward zero, giving -1 where Euclidean division would give -2 |
| PointMapping.PhysicalPointZeroFrame | server/server/src/main/java/com/genymobile/scrcpy/Device.java:121-129 | a zero frame on the fast path returns the point; off it the call throws, with x already remapped when only the height is 0 |
| DeviceModel.Device.constructor | server/server/src/main/java/com/genymobile/scrcpy/Device.java:23-24 | the device starts with the geometry computed from the display info and an empty listener slot |
| DeviceModel.Device.OnRotationChanged | server/server/src/main/java/com/genymobile/scrcpy/Device.java:27-35 | the geometry becomes `withRotation(old geometry, rotation)`; then the listener in the slot, if any, is called exactly once with the rotation, and a listener reading this device's geometry during the call sees the new one; the slot is unchanged and nothing else is modified |
| DeviceModel.Device.GetScreenInfo | server/server/src/main/java/com/genymobile/scrcpy/Device.java:40-42 | returns the current geometry and changes nothing |
| DeviceModel.Device.SetRotationListener | server/server/src/main/java/com/genymobile/scrcpy/Device.java:148-150 | the given listener, or none, replaces the slot's content; the geometry is untouched |
| DeviceModel.Device.GetPhysicalPoint | server/server/src/main/java/com/genymobile/scrcpy/Device.java:108-130 | the point is left as `PhysicalPoint` describes and the same object is returned, or an `ArithmeticException` is thrown; only the point is modified |
| DeviceModel.RotationListener.OnRotationChanged | server/server/src/main/java/com/genymobile/scrcpy/Device.java:14-16 | a listener's record grows by one notification: the rotation it was told and the geometry its device holds at that moment |
| DeviceModel.RotatedByAppend | server/server/src/main/java/com/genymobile/scrcpy/Device.java:28-29 | each callback applies `withRotation` to the geometry the previous one left, so applying two runs of rotations in turn is applying their concatenation |
| DeviceModel.NotificationsAppend | server/server/src/main/java/com/genymobile/scrcpy/Device.java:28-34 | the notifications of two runs of rotation events are those of the first run followed by those of the second, started from the geometry the first left |
| DeviceModel.NotificationsObserveCurrentGeometry | server/server/src/main/java/com/genymobile/scrcpy/Device.java:28-34 | the i-th notification of a run carries the i-th rotation and the geometry reflecting the first i + 1 events, never an older one |
| DeviceModel.DeliverRotations | server/server/src/main/java/com/genymobile/scrcpy/Device.java:25-37 | with a listener of the device registered before the first event, a run of rotation events reaches it once each, in arrival order, each time with the geometry already updated; the device ends with the fold of `withRotation` over them |
| DeviceModel.LastListenerWins | server/server/src/main/java/com/genymobile/scrcpy/Device.java:148-150 | after registering A and then B, a rotation reaches B once and leaves A's record unchanged |
| DeviceModel.NoListenerNoNotification | server/server/src/main/java/com/genymobile/scrcpy/Device.java:32-34 | with the slot emptied, a rotation updates the geometry and notifies no one |

## Left out

- The `ServiceManager` calls are not modelled; they are Android IPC passthroughs with no logic of their own (Device.java:45, 136-146):
  - the display-info lookup is replaced by a `DisplayInfo` parameter to the constructor;
  - `injectInputEvent`, `isScreenOn` and `registerRotationWatcher` are left out.
- The window service's delivery of rotation events is modelled only as sequential calls to `Device.OnRotationChanged`.
- `getDeviceName` (`Build.MODEL`) is left out. It reads a platform constant.
- `synchronized` and the asynchronous thread that delivers rotations are not modelled. Each call and each callback is one atomic step, so interleavings, lock reentrancy and deadlock are outside the model.
- The `System.err` log line of `computeVideoSize` is left out. It is output only.
- The commented-out code is left out: crop intersection, max-size scaling, corrected values and the stale-frame check in `getPhysicalPoint`. It does not run.
- `ScreenInfo.withRotation` is a function parameter of the device. `ScreenInfo.java` is not part of this model, so no property of the rotated geometry is claimed.
- `Size`, `Rect` and `DisplayInfo` are immutable values. The Android `Rect` is mutable, but this code never mutates one after building it.
- `Size.java`, `DisplayInfo.java` and the Android `Point` and `Rect` classes are not part of this model. Only the fields and the `width()`/`height()` subtractions used here are modelled.
- The `Options` constructor parameter is not modelled. The constructor reads nothing from it.
- DeviceModel.Device.GetPhysicalPoint: `point` and `screenSize` are non-null references here. In Java a null `screenSize` throws `NullPointerException` at Device.java:121, and a null `point` is returned as null on the fast path but throws at Device.java:127 off it. Those null paths are not modelled.
- A listener's reading of its device's geometry during a notification is how the model makes the update-then-notify order observable. The Java listener receives only the rotation; what it does with it is outside this model.
- PointMapping.PhysicalPointFormula: proved only when the products, quotients and sums fit in an `int`, and for a frame of positive size. `PhysicalPoint` itself covers every input, wrap-around and throws included.
- PointMapping.PhysicalPointWithinContent: proved only when `x * width`, `y * height` and the far edges fit in an `int`, for the same reason.
- PointMapping.ScaleWithinContent: proved only when `v * length` and `origin + length` fit in an `int`. Past that point Java's wrap-around can put the coordinate anywhere, and `PhysicalPoint` models that wrap-around exactly.
- PointMapping.FastPathAgreesWithScaling: proved only when `v * length` fits in an `int`, for the same reason.
- PointMapping.ScaleMonotone: proved only when neither coordinate's computation overflows, for the same reason.
