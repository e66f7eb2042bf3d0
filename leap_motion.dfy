/**
 * The newer binding (namespace `LeapMotion`): conversions between the
 * vendor's vector/matrix types and the host framework's, the Listener that
 * receives the vendor's callbacks, and the Device that hands the buffered
 * frame to a single registered handler once per application update.
 *
 * The mutex is not modelled: each vendor callback and each `update` is one
 * atomic step. `DeviceState` and `Step` are the pure specification of those
 * steps; the `Listener` and `Device` classes are proved against them, and
 * the trace lemmas at the end say what any sequence of steps does.
 */
module LeapMotion {
  import opened Wrappers
  import opened Cinder
  import opened Orders
  import Leap

  // ---------------------------------------------------------------------
  // Vector and matrix conversions

  function ToVec3f(v: Leap.Vector): Vec3f {
    Vec3f(v.x, v.y, v.z)
  }

  function ToLeapVector(v: Vec3f): Leap.Vector {
    Leap.Vector(v.x, v.y, v.z)
  }

  /** The two vector conversions copy x, y and z, so each undoes the other. */
  lemma VectorConversionsInverse(v: Leap.Vector, w: Vec3f)
    ensures ToLeapVector(ToVec3f(v)) == v
    ensures ToVec3f(ToLeapVector(w)) == w
  {
  }

  /** The vendor's flat `FloatArray`: 16 floats, of which a 3x3 export uses the first 9. */
  type FloatArray = a: seq<real> | |a| == 16 witness seq(16, _ => 0.0)

  /** Position of element (i, j) in a row-major n-by-n flat array. */
  function FlatIndex(n: nat, i: nat, j: nat): nat {
    n * i + j
  }

  /** Row-major positions of an n-by-n matrix are below n*n and distinct. */
  lemma FlatIndexLayout(n: nat, i: nat, j: nat, i': nat, j': nat)
    requires i < n && j < n && i' < n && j' < n
    ensures FlatIndex(n, i, j) < n * n
    ensures FlatIndex(n, i, j) == FlatIndex(n, i', j') ==> i == i' && j == j'
  {
    assert n * i + j < n * i + n == n * (i + 1) <= n * n by {
      MulMonotone(n, i + 1, n);
    }
    if i < i' {
      MulMonotone(n, i + 1, i');
    } else if i' < i {
      MulMonotone(n, i' + 1, i);
    }
  }

  lemma MulMonotone(n: nat, a: nat, b: nat)
    requires a <= b
    ensures n * a <= n * b
  {
  }

  /** The first nine entries of the flat array, in row-major order, as a 3x3 matrix's rows give them. */
  function Flatten33(m: Matrix33f): seq<real> {
    [m.m00, m.m01, m.m02, m.m10, m.m11, m.m12, m.m20, m.m21, m.m22]
  }

  function Flatten44(m: Matrix44f): seq<real> {
    [m.m00, m.m01, m.m02, m.m03, m.m10, m.m11, m.m12, m.m13,
     m.m20, m.m21, m.m22, m.m23, m.m30, m.m31, m.m32, m.m33]
  }

  /**
   * `toMatrix33f`: row i of the result is flat elements 3i, 3i+1, 3i+2 of
   * the vendor's `toArray3x3` export, so flattening the result row by row
   * gives back the first nine entries.
   */
  method ToMatrix33f(a: FloatArray) returns (mtx: Matrix33f)
    ensures forall i :: 0 <= i < 3 ==>
      mtx.Row(i) == Vec3f(a[FlatIndex(3, i, 0)], a[FlatIndex(3, i, 1)], a[FlatIndex(3, i, 2)])
    ensures Flatten33(mtx) == a[..9]
  {
    mtx := Identity33;
    for i := 0 to 3
      invariant forall r :: 0 <= r < i ==>
        mtx.Row(r) == Vec3f(a[FlatIndex(3, r, 0)], a[FlatIndex(3, r, 1)], a[FlatIndex(3, r, 2)])
    {
      var j := i * 3;
      var row := Vec3f(a[j + 0], a[j + 1], a[j + 2]);
      mtx := mtx.SetRow(i, row);
    }
    assert mtx.Row(0) == Vec3f(a[0], a[1], a[2]);
    assert mtx.Row(1) == Vec3f(a[3], a[4], a[5]);
    assert mtx.Row(2) == Vec3f(a[6], a[7], a[8]);
  }

  /** `toMatrix44f`: row i of the result is flat elements 4i .. 4i+3 of `toArray4x4`. */
  method ToMatrix44f(a: FloatArray) returns (mtx: Matrix44f)
    ensures forall i :: 0 <= i < 4 ==>
      mtx.Row(i) == Vec4f(a[FlatIndex(4, i, 0)], a[FlatIndex(4, i, 1)], a[FlatIndex(4, i, 2)], a[FlatIndex(4, i, 3)])
    ensures Flatten44(mtx) == a
  {
    mtx := Identity44;
    for i := 0 to 4
      invariant forall r :: 0 <= r < i ==>
        mtx.Row(r) == Vec4f(a[FlatIndex(4, r, 0)], a[FlatIndex(4, r, 1)], a[FlatIndex(4, r, 2)], a[FlatIndex(4, r, 3)])
    {
      var j := i * 4;
      var row := Vec4f(a[j + 0], a[j + 1], a[j + 2], a[j + 3]);
      mtx := mtx.SetRow(i, row);
    }
    assert mtx.Row(0) == Vec4f(a[0], a[1], a[2], a[3]);
    assert mtx.Row(1) == Vec4f(a[4], a[5], a[6], a[7]);
    assert mtx.Row(2) == Vec4f(a[8], a[9], a[10], a[11]);
    assert mtx.Row(3) == Vec4f(a[12], a[13], a[14], a[15]);
  }

  function Vec3Of(v: Vec4f): Vec3f {
    Vec3f(v.x, v.y, v.z)
  }

  /**
   * `toLeapMatrix` from a 3x3 matrix: the bases are the matrix's rows and
   * the origin keeps the vendor matrix's default.
   */
  function ToLeapMatrix33(m: Matrix33f): (r: Leap.Matrix)
    ensures r.xBasis == ToLeapVector(m.Row(0))
    ensures r.yBasis == ToLeapVector(m.Row(1))
    ensures r.zBasis == ToLeapVector(m.Row(2))
    ensures r.origin == Leap.IdentityMatrix.origin
  {
    Leap.IdentityMatrix.(
      xBasis := Leap.Vector(m.m00, m.m01, m.m02),
      yBasis := Leap.Vector(m.m10, m.m11, m.m12),
      zBasis := Leap.Vector(m.m20, m.m21, m.m22))
  }

  /**
   * `toLeapMatrix` from a 4x4 matrix: the bases are the first three
   * components of rows 0-2, the origin those of row 3; column 3 is unused.
   */
  function ToLeapMatrix44(m: Matrix44f): (r: Leap.Matrix)
    ensures r.xBasis == ToLeapVector(Vec3Of(m.Row(0)))
    ensures r.yBasis == ToLeapVector(Vec3Of(m.Row(1)))
    ensures r.zBasis == ToLeapVector(Vec3Of(m.Row(2)))
    ensures r.origin == ToLeapVector(Vec3Of(m.Row(3)))
  {
    Leap.IdentityMatrix.(
      xBasis := Leap.Vector(m.m00, m.m01, m.m02),
      yBasis := Leap.Vector(m.m10, m.m11, m.m12),
      zBasis := Leap.Vector(m.m20, m.m21, m.m22),
      origin := Leap.Vector(m.m30, m.m31, m.m32))
  }

  /** The upper-left 3x3 block of a 4x4 matrix. */
  function Upper33(m: Matrix44f): Matrix33f {
    Matrix33f(m.m00, m.m01, m.m02, m.m10, m.m11, m.m12, m.m20, m.m21, m.m22)
  }

  /**
   * The 4x4 conversion is the 3x3 conversion of the upper-left block with
   * the origin taken from row 3; m03, m13, m23 and m33 never matter.
   */
  lemma ToLeapMatrix44ExtendsThe33(m: Matrix44f, m': Matrix44f)
    ensures ToLeapMatrix44(m) == ToLeapMatrix33(Upper33(m)).(origin := ToLeapVector(Vec3Of(m.Row(3))))
    ensures m' == m.(m03 := m'.m03, m13 := m'.m13, m23 := m'.m23, m33 := m'.m33) ==>
      ToLeapMatrix44(m') == ToLeapMatrix44(m)
  {
  }

  // ---------------------------------------------------------------------
  // The Listener's state and the vendor callbacks

  /** The Listener's fields: status flags and the single pending-frame slot. */
  datatype ListenerState = ListenerState(
    connected: bool,
    exited: bool,
    focused: bool,
    initialized: bool,
    newFrame: bool,
    frame: Leap.Frame)

  /** A freshly constructed Listener: every flag false, no frame pending. */
  const FreshListener: ListenerState :=
    ListenerState(false, false, false, false, false, Leap.InvalidFrame)

  /** The vendor's callbacks; `FrameReady` carries the controller's current frame. */
  datatype Callback =
    | Connect | Disconnect | Exit | FocusGained | FocusLost | Init
    | FrameReady(current: Leap.Frame)

  /**
   * What one callback does to the Listener. Each sets its own flag; a frame
   * is stored only when none is pending, otherwise it is dropped.
   */
  function OnCallback(s: ListenerState, c: Callback): ListenerState {
    match c
    case Connect => s.(connected := true)
    case Disconnect => s.(connected := false)
    case Exit => s.(exited := true)
    case FocusGained => s.(focused := true)
    case FocusLost => s.(focused := false)
    case Init => s.(initialized := true)
    case FrameReady(f) => if s.newFrame then s else s.(frame := f, newFrame := true)
  }

  /** The vendor's callback target. */
  class Listener {
    var connected: bool
    var exited: bool
    var focused: bool
    var initialized: bool
    var newFrame: bool
    var frame: Leap.Frame

    function State(): ListenerState
      reads this
    {
      ListenerState(connected, exited, focused, initialized, newFrame, frame)
    }

    constructor ()
      ensures State() == FreshListener
    {
      connected, exited, focused, initialized, newFrame := false, false, false, false, false;
      frame := Leap.InvalidFrame;
    }

    method OnConnect()
      modifies this
      ensures State() == OnCallback(old(State()), Connect)
    {
      connected := true;
    }

    method OnDisconnect()
      modifies this
      ensures State() == OnCallback(old(State()), Disconnect)
    {
      connected := false;
    }

    method OnExit()
      modifies this
      ensures State() == OnCallback(old(State()), Exit)
    {
      exited := true;
    }

    method OnFocusGained()
      modifies this
      ensures State() == OnCallback(old(State()), FocusGained)
    {
      focused := true;
    }

    method OnFocusLost()
      modifies this
      ensures State() == OnCallback(old(State()), FocusLost)
    {
      focused := false;
    }

    /** `current` is what `controller.frame()` returns at the time of the callback. */
    method OnFrame(current: Leap.Frame)
      modifies this
      ensures State() == OnCallback(old(State()), FrameReady(current))
      ensures old(newFrame) ==> unchanged(this)
      ensures !old(newFrame) ==> frame == current && newFrame
    {
      if !newFrame {
        frame := current;
        newFrame := true;
      }
    }

    method OnInit()
      modifies this
      ensures State() == OnCallback(old(State()), Init)
    {
      initialized := true;
    }
  }

  // ---------------------------------------------------------------------
  // The Device: one handler slot, gated delivery

  /** Identifies a registered frame handler (a `std::function` target). */
  type HandlerId = nat

  /** One invocation of a handler with a frame. */
  datatype Delivery = Delivery(handler: HandlerId, frame: Leap.Frame)

  datatype DeviceState = DeviceState(listener: ListenerState, handler: Option<HandlerId>)

  /** What one `update` does: nothing, call the handler, or throw because no handler is set. */
  datatype Outcome = Idle | Delivered(delivery: Delivery) | Threw

  /**
   * `update` calls the handler only when the device is connected and
   * initialized and a frame is pending. Calling an empty handler throws.
   */
  function UpdateOutcome(d: DeviceState): Outcome {
    if d.listener.connected && d.listener.initialized && d.listener.newFrame then
      match d.handler
      case None => Threw
      case Some(h) => Delivered(Delivery(h, d.listener.frame))
    else Idle
  }

  /** `update` clears the pending flag only after a successful call. */
  function AfterUpdate(d: DeviceState): DeviceState {
    if UpdateOutcome(d).Delivered? then d.(listener := d.listener.(newFrame := false)) else d
  }

  /**
   * Everything that can happen to a device: a vendor callback, a handler
   * registration (None is an empty `std::function`), an update.
   */
  datatype Event = Vendor(callback: Callback) | ConnectHandler(h: Option<HandlerId>) | Update

  function Step(d: DeviceState, e: Event): DeviceState {
    match e
    case Vendor(c) => d.(listener := OnCallback(d.listener, c))
    case ConnectHandler(h) => d.(handler := h)
    case Update => AfterUpdate(d)
  }

  function StepOutcome(d: DeviceState, e: Event): Outcome {
    if e.Update? then UpdateOutcome(d) else Idle
  }

  class Device {
    const listener: Listener
    var handler: Option<HandlerId>
    /** Every handler call made so far, in order. */
    var delivered: seq<Delivery>

    function State(): DeviceState
      reads this, listener
    {
      DeviceState(listener.State(), handler)
    }

    constructor ()
      ensures State() == DeviceState(FreshListener, None)
      ensures delivered == [] && fresh(listener)
    {
      listener := new Listener();
      handler := None;
      delivered := [];
    }

    function HasExited(): bool reads this, listener { listener.exited }
    function HasFocus(): bool reads this, listener { listener.focused }
    function IsConnected(): bool reads this, listener { listener.connected }
    function IsInitialized(): bool reads this, listener { listener.initialized }

    /**
     * Replaces any previously registered handler; an empty handler (None)
     * empties the slot again.
     */
    method ConnectEventHandler(h: Option<HandlerId>)
      modifies this
      ensures State() == Step(old(State()), ConnectHandler(h))
      ensures handler == h && delivered == old(delivered)
    {
      handler := h;
    }

    method Update() returns (outcome: Outcome)
      modifies this, listener
      ensures outcome == StepOutcome(old(State()), Event.Update)
      ensures State() == Step(old(State()), Event.Update)
      ensures delivered == old(delivered) + (if outcome.Delivered? then [outcome.delivery] else [])
    {
      if listener.connected && listener.initialized && listener.newFrame {
        match handler {
          case None =>
            outcome := Threw;
          case Some(h) =>
            outcome := Delivered(Delivery(h, listener.frame));
            delivered := delivered + [outcome.delivery];
            listener.newFrame := false;
        }
      } else {
        outcome := Idle;
      }
    }
  }

  // ---------------------------------------------------------------------
  // Traces

  /** The state after a sequence of events. */
  function Run(d: DeviceState, es: seq<Event>): DeviceState
    decreases |es|
  {
    if |es| == 0 then d else Step(Run(d, es[..|es| - 1]), es[|es| - 1])
  }

  /** The handler calls made along a sequence of events, in order. */
  function Deliveries(d: DeviceState, es: seq<Event>): seq<Delivery>
    decreases |es|
  {
    if |es| == 0 then []
    else
      var o := StepOutcome(Run(d, es[..|es| - 1]), es[|es| - 1]);
      Deliveries(d, es[..|es| - 1]) + if o.Delivered? then [o.delivery] else []
  }

  /** The frames the vendor offered along a sequence of events. */
  function Arrivals(es: seq<Event>): seq<Leap.Frame>
    decreases |es|
  {
    if |es| == 0 then []
    else
      var e := es[|es| - 1];
      Arrivals(es[..|es| - 1]) + if e.Vendor? && e.callback.FrameReady? then [e.callback.current] else []
  }

  function Pending(d: DeviceState): seq<Leap.Frame> {
    if d.listener.newFrame then [d.listener.frame] else []
  }

  function FramesOf(ds: seq<Delivery>): seq<Leap.Frame>
    ensures |FramesOf(ds)| == |ds|
    decreases |ds|
  {
    if |ds| == 0 then [] else FramesOf(ds[..|ds| - 1]) + [ds[|ds| - 1].frame]
  }

  /** Nothing ever resets `initialized` or `exited`. */
  lemma {:induction false} InitializedAndExitedStick(d: DeviceState, es: seq<Event>)
    ensures d.listener.initialized ==> Run(d, es).listener.initialized
    ensures d.listener.exited ==> Run(d, es).listener.exited
    decreases |es|
  {
    if |es| > 0 {
      InitializedAndExitedStick(d, es[..|es| - 1]);
    }
  }

  /**
   * Keep the first, drop the later ones: once a frame is pending, no
   * sequence of events without an `update` changes it or un-pends it.
   */
  lemma {:induction false} PendingFrameKept(d: DeviceState, es: seq<Event>)
    requires d.listener.newFrame
    requires forall i :: 0 <= i < |es| ==> !es[i].Update?
    ensures Run(d, es).listener.newFrame
    ensures Run(d, es).listener.frame == d.listener.frame
    decreases |es|
  {
    if |es| > 0 {
      PendingFrameKept(d, es[..|es| - 1]);
    }
  }

  /**
   * Frames reach the handler in the order the vendor offered them, each
   * offer at most once: the delivered frames followed by the still-pending
   * one form a subsequence of the initially pending frame followed by every
   * frame offered since.
   */
  lemma {:induction false} DeliveredInOfferOrder(d: DeviceState, es: seq<Event>)
    ensures SubSeq(FramesOf(Deliveries(d, es)) + Pending(Run(d, es)), Pending(d) + Arrivals(es))
    decreases |es|
  {
    if |es| == 0 {
      SubSeqRefl(Pending(d));
      assert FramesOf([]) + Pending(d) == Pending(d);
      assert Pending(d) + Arrivals(es) == Pending(d);
    } else {
      var init := es[..|es| - 1];
      var e := es[|es| - 1];
      var prev := Run(d, init);
      var before := FramesOf(Deliveries(d, init));
      var offered := Pending(d) + Arrivals(init);
      DeliveredInOfferOrder(d, init);
      assert SubSeq(before + Pending(prev), offered);
      var o := StepOutcome(prev, e);
      assert Deliveries(d, es) == Deliveries(d, init) + if o.Delivered? then [o.delivery] else [];
      assert Run(d, es) == Step(prev, e);
      if e.Vendor? && e.callback.FrameReady? {
        assert Pending(d) + Arrivals(es) == offered + [e.callback.current];
        assert Deliveries(d, es) == Deliveries(d, init);
        if prev.listener.newFrame {
          assert Pending(Run(d, es)) == Pending(prev);
          SubSeqExtendRight(before + Pending(prev), offered, e.callback.current);
        } else {
          assert Pending(Run(d, es)) == [e.callback.current];
          assert before + Pending(prev) == before;
          SubSeqExtendBoth(before, offered, e.callback.current);
        }
      } else {
        assert Pending(d) + Arrivals(es) == offered;
        if o.Delivered? {
          assert FramesOf(Deliveries(d, es)) == before + [prev.listener.frame];
          assert Pending(prev) == [prev.listener.frame];
          assert Pending(Run(d, es)) == [];
          assert FramesOf(Deliveries(d, es)) + Pending(Run(d, es)) == before + Pending(prev);
        } else {
          assert Deliveries(d, es) == Deliveries(d, init);
          assert Pending(Run(d, es)) == Pending(prev);
        }
      }
    }
  }

  /** Hence no more frames are delivered than were pending or offered. */
  lemma DeliveriesBounded(d: DeviceState, es: seq<Event>)
    ensures |Deliveries(d, es)| <= |Pending(d)| + |Arrivals(es)|
  {
    DeliveredInOfferOrder(d, es);
    SubSeqLength(FramesOf(Deliveries(d, es)) + Pending(Run(d, es)), Pending(d) + Arrivals(es));
  }

  /**
   * A device that is not connected and sees no connect callback, or is not
   * initialized and sees no init callback, never calls its handler.
   */
  lemma {:induction false} GateClosedNoDelivery(d: DeviceState, es: seq<Event>)
    requires (!d.listener.connected && forall i :: 0 <= i < |es| ==> es[i] != Vendor(Connect))
          || (!d.listener.initialized && forall i :: 0 <= i < |es| ==> es[i] != Vendor(Init))
    ensures Deliveries(d, es) == []
    ensures !d.listener.connected && (forall i :: 0 <= i < |es| ==> es[i] != Vendor(Connect)) ==>
      !Run(d, es).listener.connected
    ensures !d.listener.initialized && (forall i :: 0 <= i < |es| ==> es[i] != Vendor(Init)) ==>
      !Run(d, es).listener.initialized
    decreases |es|
  {
    if |es| > 0 {
      GateClosedNoDelivery(d, es[..|es| - 1]);
    }
  }

  /**
   * Registering an empty handler over a working one empties the slot: the
   * next update with the gate open throws, keeps the frame pending and
   * calls nothing.
   */
  lemma EmptyHandlerResetThrows(d: DeviceState, h: HandlerId)
    requires d.listener.connected && d.listener.initialized && d.listener.newFrame
    ensures StepOutcome(Run(d, [ConnectHandler(Some(h))]), Update).Delivered?
    ensures StepOutcome(Run(d, [ConnectHandler(Some(h)), ConnectHandler(None)]), Update) == Threw
    ensures Run(d, [ConnectHandler(Some(h)), ConnectHandler(None), Update]).listener == d.listener
    ensures Deliveries(d, [ConnectHandler(Some(h)), ConnectHandler(None), Update]) == []
  {
    var es := [ConnectHandler(Some(h)), ConnectHandler(None), Update];
    assert es[..1] == [ConnectHandler(Some(h))];
    assert es[..2][..1] == es[..1];
    assert es[..2] == [ConnectHandler(Some(h)), ConnectHandler(None)];
    assert Run(d, es[..1]) == d.(handler := Some(h));
    assert Run(d, es[..2]) == d.(handler := None);
    assert Deliveries(d, es[..1]) == [];
    assert Deliveries(d, es[..2]) == [];
  }

  /**
   * An update whose gate is open but which finds no handler throws and
   * leaves the frame pending; registering a handler then delivers it.
   */
  lemma MissingHandlerKeepsFrame(d: DeviceState, h: HandlerId)
    requires d.listener.connected && d.listener.initialized && d.listener.newFrame
    requires d.handler == None
    ensures UpdateOutcome(d) == Threw && AfterUpdate(d) == d
    ensures Deliveries(d, [Update, ConnectHandler(Some(h)), Update]) == [Delivery(h, d.listener.frame)]
  {
    var es := [Update, ConnectHandler(Some(h)), Update];
    assert es[..2][..1] == es[..1] == [Update];
    assert es[..2] == [Update, ConnectHandler(Some(h))];
    assert Run(d, es[..1]) == d;
    assert Deliveries(d, es[..1]) == [];
    assert Run(d, es[..2]) == d.(handler := Some(h));
    assert Deliveries(d, es[..2]) == [];
  }

  /**
   * Initialization, connection, then three frames with no update between
   * them: the one update that follows calls the handler once, with the
   * FIRST of the three frames.
   */
  lemma ThreeFramesDeliverFirst(h: HandlerId, a: Leap.Frame, b: Leap.Frame, c: Leap.Frame)
    ensures
      var es := [ConnectHandler(Some(h)), Vendor(Init), Vendor(Connect),
                 Vendor(FrameReady(a)), Vendor(FrameReady(b)), Vendor(FrameReady(c)), Update];
      Deliveries(DeviceState(FreshListener, None), es) == [Delivery(h, a)]
      && !Run(DeviceState(FreshListener, None), es).listener.newFrame
  {
    var d0 := DeviceState(FreshListener, None);
    var es := [ConnectHandler(Some(h)), Vendor(Init), Vendor(Connect),
               Vendor(FrameReady(a)), Vendor(FrameReady(b)), Vendor(FrameReady(c)), Update];
    var pre := es[..6];
    assert pre == [ConnectHandler(Some(h)), Vendor(Init), Vendor(Connect),
                   Vendor(FrameReady(a)), Vendor(FrameReady(b)), Vendor(FrameReady(c))];
    var ready := DeviceState(FreshListener.(initialized := true, connected := true), Some(h));
    assert Run(d0, pre[..3]) == ready by {
      assert pre[..3][..2][..1] == [ConnectHandler(Some(h))];
      assert pre[..3][..2] == [ConnectHandler(Some(h)), Vendor(Init)];
      assert Run(d0, pre[..3][..2][..1]) == d0.(handler := Some(h)) by {
        assert pre[..3][..2][..1][..0] == [];
      }
      assert Run(d0, pre[..3][..2]) == d0.(handler := Some(h), listener := FreshListener.(initialized := true));
    }
    PendingFrameKept(Step(ready, pre[3]), pre[4..]);
    RunSplit(d0, pre[..3], pre[3..]);
    assert pre[..3] + pre[3..] == pre;
    RunSplit(Step(ready, pre[3]), [], pre[4..]);
    assert Run(ready, pre[3..]) == Run(Step(ready, pre[3]), pre[4..]) by {
      RunSplit(ready, [pre[3]], pre[4..]);
      assert [pre[3]] + pre[4..] == pre[3..];
      assert Run(ready, [pre[3]]) == Step(ready, pre[3]) by {
        assert [pre[3]][..0] == [];
      }
    }
    var last := Run(d0, pre);
    assert last.listener.frame == a && last.listener.newFrame && last.handler == Some(h);
    assert last.listener.connected && last.listener.initialized by {
      InitializedAndExitedStick(ready, pre[3..]);
      ConnectedKept(ready, pre[3..]);
    }
    NoDeliveryWithoutUpdate(d0, pre);
    assert es[..6] == pre;
  }

  lemma {:induction false} ConnectedKept(d: DeviceState, es: seq<Event>)
    requires d.listener.connected
    requires forall i :: 0 <= i < |es| ==> es[i] != Vendor(Disconnect)
    ensures Run(d, es).listener.connected
    decreases |es|
  {
    if |es| > 0 {
      ConnectedKept(d, es[..|es| - 1]);
    }
  }

  lemma {:induction false} NoDeliveryWithoutUpdate(d: DeviceState, es: seq<Event>)
    requires forall i :: 0 <= i < |es| ==> !es[i].Update?
    ensures Deliveries(d, es) == []
    decreases |es|
  {
    if |es| > 0 {
      NoDeliveryWithoutUpdate(d, es[..|es| - 1]);
    }
  }

  /** Running two event sequences one after the other is running their concatenation. */
  lemma {:induction false} RunSplit(d: DeviceState, xs: seq<Event>, ys: seq<Event>)
    ensures Run(d, xs + ys) == Run(Run(d, xs), ys)
    decreases |ys|
  {
    if |ys| == 0 {
      assert xs + ys == xs;
    } else {
      RunSplit(d, xs, ys[..|ys| - 1]);
      assert (xs + ys)[..|xs + ys| - 1] == xs + ys[..|ys| - 1];
    }
  }
}
