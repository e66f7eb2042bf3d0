# Cinder-LeapMotion in Dafny

A model of the Cinder block that connects the Leap Motion controller to the
Cinder framework, and of the TracerApp sample that draws a fading ribbon
behind every tracked finger.

- `base.dfy`: shared vocabulary.
  - `Wrappers.Option` stands for a nullable pointer.
  - `BoundedInts` holds the `int32_t`, `uint32_t` and `int64_t` ranges and `uint32_t` addition modulo 2^32.
  - `Orders` describes `std::map`'s ascending key order (`SortedKeys`) and subsequences.
- `cinder.dfy`: the host library's `Vec3f`, `Vec4f`, `Matrix33f` and `Matrix44f` as values, with `setRow`.
- `leap.dfy`: the shapes of the vendor SDK's values. Palm, ball, normal and velocity may be absent; the SDK returns them as nullable pointers.
- `leap_motion.dfy`: the newer binding (namespace `LeapMotion`).
  - It covers the vector and matrix converters, the `Listener` callbacks and the `Device`.
  - The `Device` hands the single pending frame to one registered handler.
  - Each class method is proved against a pure step function (`OnCallback`, `Step`).
  - Trace lemmas over sequences of events say which frames reach the handler, and in what order.
- `leap_sdk.dfy`: the older binding (namespace `LeapSdk`).
  - `onFrame` converts each vendor frame into maps keyed by hand and finger id.
  - The `Device` keeps a registry of callbacks under `uint32_t` ids (`addCallback`, `removeCallback`, the destructor).
  - `update` fires the signal once per pending frame.
- `ribbon.dfy`: TracerApp's `Ribbon`.
  - `addPoint` appends a point.
  - `update` ages the points, erases the spent ones while iterating, then rebuilds the triangle strip.
  - `draw` reads the strip four vertices at a time.
- `tracer_app.dfy`: the bookkeeping part of `TracerApp::update`.
  - Fingers are visited in `std::map` order.
  - Each appends one point to its ribbon, which is created on first sight.
  - The finger count and the centroid are accumulated.
  - Then every ribbon is updated once.

Each callback and each `update` is treated as one atomic step. The newer
binding's mutex makes them so; the older binding's `Device::update` takes no
lock, so there the atomicity is assumed. Reals stand for `float`/`double`. Vector length and
normalisation are passed in as functions.

Where the code and the behaviour described for it differ, the model
follows the code:

- With several frames arriving between two updates, the code keeps the first
  one (`onFrame` does nothing while a frame is pending), not the last.
- In the newer binding, when the gate is open and no handler was ever
  connected, `update` calls an empty `std::function`. That call throws before
  the pending flag is cleared (outcome `Threw`), rather than dropping the
  frame.

## Model

| member | source | states |
|---|---|---|
| LeapMotion.VectorConversionsInverse | src/Cinder-LeapMotion.cpp:90-98 | `toVec3f` and `toLeapVector` copy x, y, z, so each undoes the other in both directions |
| LeapMotion.FlatIndexLayout | src/Cinder-LeapMotion.cpp:51-54 | every flat index `n*i + j` the row loops read is below n*n, and distinct (i, j) give distinct indices |
| LeapMotion.ToMatrix33f | src/Cinder-LeapMotion.cpp:47-57 | row i is flat elements 3i, 3i+1, 3i+2; flattening the result row by row gives back the first nine entries of the array |
| LeapMotion.ToMatrix44f | src/Cinder-LeapMotion.cpp:68-78 | row i is flat elements 4i..4i+3; flattening the result gives back the whole 16-entry array |
| LeapMotion.ToLeapMatrix33 | src/Cinder-LeapMotion.cpp:59-66 | the x, y and z bases are rows 0, 1, 2 of the matrix; the origin keeps the `Leap::Matrix` default |
| LeapMotion.ToLeapMatrix44 | src/Cinder-LeapMotion.cpp:80-88 | the bases are the first three components of rows 0-2, and the origin is those of row 3 |
| LeapMotion.ToLeapMatrix44ExtendsThe33 | src/Cinder-LeapMotion.cpp:59-88 | the 4x4 conversion is the 3x3 conversion of the upper-left block plus the row-3 origin; m03, m13, m23 and m33 never change the result |
| LeapMotion.Listener.constructor | src/Cinder-LeapMotion.cpp:102-109 | a fresh listener has all five flags false and no frame pending |
| LeapMotion.Listener.OnConnect | src/Cinder-LeapMotion.cpp:111-115 | sets `connected` and changes no other field |
| LeapMotion.Listener.OnDisconnect | src/Cinder-LeapMotion.cpp:117-121 | clears `connected` and changes no other field |
| LeapMotion.Listener.OnExit | src/Cinder-LeapMotion.cpp:123-127 | sets `exited` and changes no other field |
| LeapMotion.Listener.OnFocusGained | src/Cinder-LeapMotion.cpp:129-133 | sets `focused` and changes no other field |
| LeapMotion.Listener.OnFocusLost | src/Cinder-LeapMotion.cpp:135-139 | clears `focused` and changes no other field |
| LeapMotion.Listener.OnFrame | src/Cinder-LeapMotion.cpp:141-148 | with a frame pending, nothing changes and the new frame is dropped; otherwise the controller's frame is stored and marked pending |
| LeapMotion.Listener.OnInit | src/Cinder-LeapMotion.cpp:150-154 | sets `initialized` and changes no other field |
| LeapMotion.Device.constructor | src/Cinder-LeapMotion.cpp:163-169 | a new device has a fresh listener, no handler and no handler calls |
| LeapMotion.Device.ConnectEventHandler | src/Cinder-LeapMotion.cpp:200-203 | replaces any earlier handler with the new one (a single slot); an empty `std::function` empties the slot again |
| LeapMotion.Device.Update | src/Cinder-LeapMotion.cpp:205-212 | only when connected, initialized and with a frame pending is the handler called once with that frame and the flag cleared; with no handler set the call throws and the flag stays; otherwise nothing happens |
| LeapMotion.InitializedAndExitedStick | src/Cinder-LeapMotion.cpp:111-154 | no sequence of callbacks, registrations or updates resets `initialized` or `exited` |
| LeapMotion.ConnectedKept | src/Cinder-LeapMotion.cpp:111-121 | only a disconnect callback clears `connected` |
| LeapMotion.PendingFrameKept | src/Cinder-LeapMotion.cpp:141-148 | once a frame is pending, no events without an update change it or un-pend it |
| LeapMotion.DeliveredInOfferOrder | src/Cinder-LeapMotion.cpp:141-212 | the frames handed to the handler, followed by the still-pending one, are a subsequence of the initially pending frame followed by the frames offered since: delivery in arrival order, each frame at most once |
| LeapMotion.DeliveriesBounded | src/Cinder-LeapMotion.cpp:141-212 | there are never more handler calls than frames pending or offered |
| LeapMotion.GateClosedNoDelivery | src/Cinder-LeapMotion.cpp:205-212 | a device that stays unconnected, or stays uninitialized, never calls its handler |
| LeapMotion.NoDeliveryWithoutUpdate | src/Cinder-LeapMotion.cpp:205-212 | the handler is called only from `update` |
| LeapMotion.EmptyHandlerResetThrows | src/Cinder-LeapMotion.cpp:200-212 | after a working handler is replaced by an empty one, the next update with the gate open throws, calls nothing and keeps the frame pending |
| LeapMotion.MissingHandlerKeepsFrame | src/Cinder-LeapMotion.cpp:205-212 | with the gate open and no handler, `update` throws and changes nothing; once a handler is connected, the next update delivers the kept frame |
| LeapMotion.ThreeFramesDeliverFirst | src/Cinder-LeapMotion.cpp:141-148 | after init, connect and three frames with no update between them, one update calls the handler once, with the first frame |
| LeapSdk.AbsentPartsDefaultToZero | src/Cinder-LeapSdk.cpp:243-293 | a missing ball, palm, normal or finger velocity gives zero vectors and radius 0 (for the palm direction and the normal, before the constructor's normalisation, which is not modelled); a hand's velocity is always zero; a bare hand converts to the default `Hand` and an all-zero finger to the default `Finger` |
| LeapSdk.CollectedKeys | src/Cinder-LeapSdk.cpp:271-294 | the map built by `m[id] = value` has one key per distinct id in the list |
| LeapSdk.CollectedLastWins | src/Cinder-LeapSdk.cpp:271-294 | on a repeated id the later element's value wins |
| LeapSdk.ConvertFrame | src/Cinder-LeapSdk.cpp:297-300 | the stored frame keeps the vendor frame's id and timestamp and has one hand per distinct vendor hand id |
| LeapSdk.BuildFingerMap | src/Cinder-LeapSdk.cpp:271-291 | the inner loop of `onFrame` builds exactly the id-keyed map of converted fingers |
| LeapSdk.BuildHandMap | src/Cinder-LeapSdk.cpp:242-295 | the outer loop builds exactly the id-keyed map of converted hands, each with its finger map |
| LeapSdk.ConvertedFrameKeys | src/Cinder-LeapSdk.cpp:239-300 | hands and fingers are keyed by their distinct vendor ids, and the entry under an id is the conversion of the last element carrying it |
| LeapSdk.Listener.constructor | src/Cinder-LeapSdk.cpp:216-221 | a fresh listener is not connected, not initialized, has no frame pending and holds the default frame |
| LeapSdk.Listener.OnConnect | src/Cinder-LeapSdk.cpp:223-227 | sets `connected`; the other fields stay |
| LeapSdk.Listener.OnDisconnect | src/Cinder-LeapSdk.cpp:229-233 | clears `connected`; the other fields stay |
| LeapSdk.Listener.OnInit | src/Cinder-LeapSdk.cpp:304-308 | sets `initialized`; the other fields stay |
| LeapSdk.Listener.OnFrame | src/Cinder-LeapSdk.cpp:235-302 | with a frame pending it does nothing; otherwise it stores the converted controller frame and marks it pending; the status flags stay |
| BoundedInts.AddUInt32 | src/Cinder-LeapSdk.h:184 | `uint32_t` addition is exact below 2^32 and wraps by 2^32 above |
| LeapSdk.NextIdIsFresh | src/Cinder-LeapSdk.h:184 | while the largest registered id is below 2^32-1, the computed id exceeds every registered id and so is free |
| LeapSdk.NextIdWraps | src/Cinder-LeapSdk.h:184-186 | with 2^32-1 registered, the id wraps to 0, which is already taken when 0 is registered |
| LeapSdk.RemovingLargestIdReusesIt | src/Cinder-LeapSdk.h:184 | with ids 0..n registered the next id is n+1; after n is removed, n is handed out again |
| LeapSdk.Disconnected | src/Cinder-LeapSdk.cpp:325 | after disconnecting a set of connections, exactly the slots of other connections stay connected |
| LeapSdk.DisconnectedTwice | src/Cinder-LeapSdk.cpp:322-328 | disconnecting one connection at a time ends where disconnecting them all at once does |
| LeapSdk.DisconnectedIsSubSeq | src/Cinder-LeapSdk.cpp:355-361 | disconnecting only deletes slots: the rest stay in their order |
| LeapSdk.DisconnectedKeepsOrder | src/Cinder-LeapSdk.cpp:322-361 | slots listed in connection order stay in connection order after any disconnect |
| LeapSdk.Device.constructor | src/Cinder-LeapSdk.cpp:317-320 | a new device has no callbacks, no slots, no calls and a fresh listener |
| LeapSdk.Device.AddCallback | src/Cinder-LeapSdk.h:182-187 | the id returned is 0 for an empty registry, else the largest id plus one modulo 2^32; a slot is always connected; the registry gains that id only when it was free |
| LeapSdk.Device.RemoveCallback | src/Cinder-LeapSdk.cpp:355-361 | a registered id is erased and its connection's slot disconnected; an unknown id changes nothing |
| LeapSdk.Device.Destroy | src/Cinder-LeapSdk.cpp:322-328 | leaves the registry empty, with every registered connection disconnected and other slots untouched |
| LeapSdk.Device.Update | src/Cinder-LeapSdk.cpp:386-392 | with a frame pending, it fires the signal once with it and clears the flag, even with no callback registered, calling the connected slots in the order they were connected; otherwise nothing is called |
| LeapSdk.FirstFrameWins | src/Cinder-LeapSdk.cpp:235-238 | two frames with no update between them: the update calls the callback once, with the first frame |
| LeapSdk.UpdateWithoutCallbacksConsumes | src/Cinder-LeapSdk.cpp:386-392 | an update with no callback still consumes the pending frame, so the next frame is accepted |
| Ribbons.Ribbon.constructor | samples/TracerApp/src/Ribbon.cpp:16-20 | a new ribbon has its id and no points or strip |
| Ribbons.Ribbon.AddPoint | samples/TracerApp/src/Ribbon.cpp:27-31 | appends exactly one point, with alpha 1, the position and the width; earlier points and the strip stay |
| Ribbons.SurvivorsKeepOrder | samples/TracerApp/src/Ribbon.cpp:74-83 | aging erases exactly the points whose new alpha or width is not positive; the others stay, aged, in their original order |
| Ribbons.SurvivorsAreAged | samples/TracerApp/src/Ribbon.cpp:74-83 | every point left after aging is an aged input point that did not expire |
| Ribbons.TrailFadesOut | samples/TracerApp/src/Ribbon.cpp:74-83 | after k updates with no new points, every alpha is at most 1 - k/100, so in exact reals the trail is empty after 100 updates (with `float` steps of 0.01f, rounding can leave alpha slightly above 0 after 100 updates, so the points go one update later) |
| Ribbons.Ribbon.AgePoints | samples/TracerApp/src/Ribbon.cpp:74-83 | the erase-while-iterating loop leaves exactly the survivors |
| Ribbons.Ribbon.BuildStrip | samples/TracerApp/src/Ribbon.cpp:85-104 | the rebuilt strip has two vertices per segment: the start point pushed back by the width-scaled offset, then the end point pushed forward by it |
| Ribbons.Ribbon.Update | samples/TracerApp/src/Ribbon.cpp:72-105 | the points become the survivors, and the strip is rebuilt from them |
| Ribbons.Ribbon.Draw | samples/TracerApp/src/Ribbon.cpp:43-70 | with fewer than 2 points nothing is drawn; otherwise segment i draws points[i]'s alpha and strip vertices 2i..2i+3; it stays in bounds exactly when `DrawInBounds` holds, and otherwise throws after the segments already drawn |
| Ribbons.AddPointBeforeDrawBreaksBounds | samples/TracerApp/src/Ribbon.cpp:45-57 | a strip built for the current points is always in bounds for `draw`; one more point added to two or more makes `draw` read past the end |
| Ribbons.UpdatedIsDrawable | samples/TracerApp/src/Ribbon.cpp:43-105 | after `update` a ribbon can be drawn; adding a point to two or more survivors before the next update breaks that |
| Ribbons.AddAfterUpdateBreaksDraw | samples/TracerApp/src/Ribbon.cpp:43-70 | two points, an update, then a third point: `draw` throws |
| TracerApp.Tracer.constructor | samples/TracerApp/src/TracerApp.cpp:201-203 | no hands and no ribbons, and the camera target starts at (0, 250, 0) |
| TracerApp.Tracer.OnFrame | samples/TracerApp/src/TracerApp.cpp:157-160 | the stored hands are replaced wholesale by the frame's hands |
| TracerApp.AscendingIds | samples/TracerApp/src/TracerApp.cpp:263-267 | the ids are listed in `std::map` order, smallest first |
| TracerApp.FingerEntriesAscending | samples/TracerApp/src/TracerApp.cpp:266-267 | within a hand the fingers are visited once each, in ascending id order |
| TracerApp.FingerEntriesExact | samples/TracerApp/src/TracerApp.cpp:266-268 | a finger is visited exactly when the hand holds it under that id |
| TracerApp.TrailCoversFingers | samples/TracerApp/src/TracerApp.cpp:263-268 | over the first n hands, a finger is visited exactly when one of those hands holds it |
| TracerApp.FingerTrailExact | samples/TracerApp/src/TracerApp.cpp:263-268 | over all hands, a finger is visited exactly when some current hand holds it |
| TracerApp.AppendedPoints | samples/TracerApp/src/TracerApp.cpp:270-281 | existing ribbons are never replaced: each keeps its id and strip and gains exactly the points of the visited fingers with its id, in order; the map gains one ribbon per new id |
| TracerApp.AppendedKeyed | samples/TracerApp/src/TracerApp.cpp:270-281 | every ribbon stays stored under its own id |
| TracerApp.FingerGetsRibbon | samples/TracerApp/src/TracerApp.cpp:263-279 | after `update`, every finger of a current hand has a ribbon under its id |
| TracerApp.RibbonsOnlyGrow | samples/TracerApp/src/TracerApp.cpp:263-295 | after `update` the ribbons are the old ones plus one per visited finger id; none is erased |
| TracerApp.StaleRibbonOnlyAges | samples/TracerApp/src/TracerApp.cpp:263-295 | a ribbon whose finger is gone stays in the map and is only updated |
| TracerApp.AgedUpToAt | samples/TracerApp/src/TracerApp.cpp:293-295 | updating ribbons id by id in increasing order leaves those visited updated once and the rest untouched |
| TracerApp.AscendingStrict | samples/TracerApp/src/TracerApp.cpp:293-295 | iterating the ribbon map visits ids in strictly increasing order, so no ribbon is visited twice |
| TracerApp.AscendingCovers | samples/TracerApp/src/TracerApp.cpp:293-295 | iterating the ribbon map to its end visits every id |
| TracerApp.AgedUpToAll | samples/TracerApp/src/TracerApp.cpp:293-295 | visiting every id of the map once updates every ribbon exactly once |
| TracerApp.AgeAllDrawable | samples/TracerApp/src/TracerApp.cpp:293-295 | after the last loop every ribbon is under its id and can be drawn |
| TracerApp.Tracer.AddHandAt | samples/TracerApp/src/TracerApp.cpp:263-284 | one pass of the hand loop extends the appended trail by that hand's fingers, adding their number to `count` and their positions to `centroid` |
| TracerApp.Tracer.AddHandPoints | samples/TracerApp/src/TracerApp.cpp:266-284 | one hand's finger loop appends one point per finger, creating absent ribbons, and returns the finger count and the sum of the positions |
| TracerApp.Tracer.AddFingerPoints | samples/TracerApp/src/TracerApp.cpp:261-285 | the nested loops append one point per finger of every hand, in visiting order; `count` is the number of fingers and `centroid` the sum of their positions |
| TracerApp.Tracer.AgeRibbons | samples/TracerApp/src/TracerApp.cpp:293-295 | the last loop updates every ribbon, old or new, once |
| TracerApp.Tracer.Update | samples/TracerApp/src/TracerApp.cpp:260-295 | ribbons = every ribbon updated after the fingers' points are appended; `count` = the number of fingers; the camera target moves to their centroid only when `count` is positive; every ribbon can then be drawn |

## Left out

- Threads, mutexes and `volatile`: every callback and `update` is one atomic step. The older binding's `run`, `start` and `stop` thread loop is not modelled.
- Host wiring:
  - `Device::create` and the `getController` and `getListener` accessors;
  - the newer device's subscription to the application's update signal;
  - `boost::signals2` internals: the signal is the sequence of connected slots, and `disconnect` removes one.
- Float rounding: alpha, width, positions and the centroid are exact reals.
- Vector length and normalisation are passed in as functions (`norm`, `normalize`).
- LeapSdk.AbsentPartsDefaultToZero: the zero palm direction and zero normal it states hold only because the model leaves out the `Hand` constructor's normalisation. The source stores `Vec3f::zero().normalized()`, which divides by a zero length.
- TracerApp.Tracer.Update: `count` is a `float` in the source and a `nat` here; rounding above 2^24 fingers is not modelled.
- The constructors of `Finger` and `Hand` normalise `direction` and `normal`. The model stores the vectors as given, so a converted hand's direction and normal are the un-normalised vendor vectors.
- The getters (`hasExited`, `hasFocus`, `isConnected`, `isInitialized`) are modelled as functions that read the listener's flag, with no contract of their own. `ConvertFinger` and `ConvertHand`, the loop bodies of `onFrame`, have no contract of their own either; what they produce is stated by `LeapSdk.AbsentPartsDefaultToZero`, `LeapSdk.BuildFingerMap`, `LeapSdk.BuildHandMap` and `LeapSdk.ConvertedFrameKeys`.
- Vendor internals are inputs:
  - `Leap::Matrix::toArray3x3` and `toArray4x4` become the flat array passed in;
  - `Controller::frame()` becomes the frame passed to `OnFrame`;
  - the default `Leap::Matrix` is taken to be the identity.
- `toChannel8u`: it is declared in the header but its definition is not part of this model.
- The ribbon's colour and the random vector it is made from: they are only drawn.
- `draw`'s GL calls: the emitted triangles are returned as values instead.
- TracerApp:
  - the frame rate, full-screen toggle and device `update` call at the start of `update`;
  - the `lerp` of `mLookAt` and the camera;
  - the FBO and shader passes;
  - `setup` beyond the camera target;
  - `shutdown`.
- TracerApp.Tracer.AddHandPoints: `mRibbons` holds `Ribbon`s by value. The in-place `mRibbons[id].addPoint(...)` and `iter->second.update()` are modelled as replacing the entry with the value that `Ribbons.Ribbon.AddPoint` and `Ribbons.Ribbon.Update` are proved to produce (`WithPoint`, `Updated`).
