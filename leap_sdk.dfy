/**
 * The older binding (namespace `LeapSdk`): the vendor frame is converted on
 * arrival into the binding's own Finger/Hand/Frame values keyed by id, and
 * the Device fans the buffered frame out to every callback registered under
 * a `uint32_t` id.
 *
 * The mutex and the unlocked flag reads are not modelled: each callback and
 * each `update` is one atomic step. The signal is the sequence of its
 * connected slots; disconnecting a connection removes its slot.
 */
module LeapSdk {
  import opened Wrappers
  import opened BoundedInts
  import opened Cinder
  import opened Orders
  import Leap

  // ---------------------------------------------------------------------
  // The binding's value types

  /**
   * A finger or tool. The C++ constructor normalises `direction`; the model
   * keeps the vector as handed to the constructor.
   */
  datatype Finger = Finger(
    position: Vec3f,
    direction: Vec3f,
    velocity: Vec3f,
    length: real,
    width: real,
    isTool: bool)

  /** A default-constructed Finger. */
  const DefaultFinger: Finger := Finger(Zero, Zero, Zero, 0.0, 0.0, false)

  type FingerMap = map<Int32, Finger>

  /**
   * A hand. The C++ constructor normalises `direction` and `normal`; the
   * model keeps the vectors as handed to the constructor.
   */
  datatype Hand = Hand(
    fingers: FingerMap,
    position: Vec3f,
    direction: Vec3f,
    velocity: Vec3f,
    normal: Vec3f,
    ballPosition: Vec3f,
    ballRadius: real)

  /** A default-constructed Hand. */
  const DefaultHand: Hand := Hand(map[], Zero, Zero, Zero, Zero, Zero, 0.0)

  type HandMap = map<Int32, Hand>

  datatype Frame = Frame(hands: HandMap, id: Int64, timestamp: Int64)

  /** A default-constructed Frame (only the Listener can make one). */
  const DefaultFrame: Frame := Frame(map[], 0, 0)

  // ---------------------------------------------------------------------
  // Converting a vendor frame

  function VecOf(v: Leap.Vector): Vec3f {
    Vec3f(v.x, v.y, v.z)
  }

  function ConvertFinger(f: Leap.Finger): Finger {
    Finger(
      VecOf(f.tip.position),
      VecOf(f.tip.direction),
      match f.velocity case Some(v) => VecOf(v) case None => Zero,
      f.length,
      f.width,
      f.isTool)
  }

  /** A hand's velocity is never read from the vendor hand: it stays zero. */
  function ConvertHand(h: Leap.Hand): Hand {
    Hand(
      FingerMapOf(h.fingers),
      match h.palm case Some(p) => VecOf(p.position) case None => Zero,
      match h.palm case Some(p) => VecOf(p.direction) case None => Zero,
      Zero,
      match h.normal case Some(n) => VecOf(n) case None => Zero,
      match h.ball case Some(b) => VecOf(b.position) case None => Zero,
      match h.ball case Some(b) => b.radius case None => 0.0)
  }

  /**
   * Missing optional parts give zeros: no ball means a zero ball position
   * and radius, no palm a zero position and direction, no normal a zero
   * normal, no finger velocity a zero velocity. A hand's velocity is always
   * zero. A hand with none of the optional parts and no fingers converts to
   * the default Hand, and an all-zero finger with no velocity to the default
   * Finger. The zero direction and normal are those of this un-normalised
   * model (see the Finger and Hand types).
   */
  lemma AbsentPartsDefaultToZero(h: Leap.Hand, f: Leap.Finger)
    ensures h.ball.None? ==> ConvertHand(h).ballPosition == Zero && ConvertHand(h).ballRadius == 0.0
    ensures h.palm.None? ==> ConvertHand(h).position == Zero && ConvertHand(h).direction == Zero
    ensures h.normal.None? ==> ConvertHand(h).normal == Zero
    ensures ConvertHand(h).velocity == Zero
    ensures f.velocity.None? ==> ConvertFinger(f).velocity == Zero
    ensures h.ball.None? && h.palm.None? && h.normal.None? && h.fingers == [] ==>
      ConvertHand(h) == DefaultHand
    ensures (f.velocity.None? && VecOf(f.tip.position) == Zero && VecOf(f.tip.direction) == Zero
             && f.length == 0.0 && f.width == 0.0 && !f.isTool) ==> ConvertFinger(f) == DefaultFinger
  {
  }

  /**
   * Folding a list into a map keyed by `key`, in list order, so that a later
   * element overwrites an earlier one with the same key (`m[id] = value`).
   */
  function Collected<T, V>(xs: seq<T>, key: T -> Int32, conv: T -> V): map<Int32, V>
    decreases |xs|
  {
    if |xs| == 0 then map[]
    else
      var last := xs[|xs| - 1];
      Collected(xs[..|xs| - 1], key, conv)[key(last) := conv(last)]
  }

  /** The map has exactly one key per distinct key in the list. */
  lemma {:induction false} CollectedKeys<T, V>(xs: seq<T>, key: T -> Int32, conv: T -> V)
    ensures Collected(xs, key, conv).Keys == set i | 0 <= i < |xs| :: key(xs[i])
    decreases |xs|
  {
    if |xs| > 0 {
      var init := xs[..|xs| - 1];
      CollectedKeys(init, key, conv);
      var want := set i | 0 <= i < |xs| :: key(xs[i]);
      var had := set i | 0 <= i < |init| :: key(init[i]);
      assert want == had + {key(xs[|xs| - 1])} by {
        forall k | k in want ensures k in had + {key(xs[|xs| - 1])} {
          var i :| 0 <= i < |xs| && key(xs[i]) == k;
          if i < |init| {
            assert key(init[i]) == k;
          }
        }
        forall k | k in had ensures k in want {
          var i :| 0 <= i < |init| && key(init[i]) == k;
          assert key(xs[i]) == k;
        }
      }
    }
  }

  /** Each key maps to the converted LAST element carrying that key. */
  lemma {:induction false} CollectedLastWins<T, V>(xs: seq<T>, key: T -> Int32, conv: T -> V, k: nat)
    requires k < |xs|
    requires forall j :: k < j < |xs| ==> key(xs[j]) != key(xs[k])
    ensures key(xs[k]) in Collected(xs, key, conv)
    ensures Collected(xs, key, conv)[key(xs[k])] == conv(xs[k])
    decreases |xs|
  {
    if k < |xs| - 1 {
      var init := xs[..|xs| - 1];
      assert init[k] == xs[k];
      CollectedLastWins(init, key, conv, k);
    }
  }

  function FingerKey(f: Leap.Finger): Int32 { f.id }

  function HandKey(h: Leap.Hand): Int32 { h.id }

  function FingerMapOf(fs: seq<Leap.Finger>): FingerMap {
    Collected(fs, FingerKey, ConvertFinger)
  }

  function HandMapOf(hs: seq<Leap.Hand>): HandMap {
    Collected(hs, HandKey, ConvertHand)
  }

  /** The Frame the Listener stores for a vendor frame. */
  function ConvertFrame(f: Leap.Frame): (r: Frame)
    ensures r.id == f.id && r.timestamp == f.timestamp
    ensures r.hands.Keys == set i | 0 <= i < |f.hands| :: f.hands[i].id
  {
    CollectedKeys(f.hands, HandKey, ConvertHand);
    Frame(HandMapOf(f.hands), f.id, f.timestamp)
  }

  /**
   * The inner loop of `onFrame`: one map entry per finger, in list order,
   * later duplicates overwriting earlier ones.
   */
  method BuildFingerMap(fingers: seq<Leap.Finger>) returns (fingerMap: FingerMap)
    ensures fingerMap == FingerMapOf(fingers)
  {
    fingerMap := map[];
    for i := 0 to |fingers|
      invariant fingerMap == FingerMapOf(fingers[..i])
    {
      var f := fingers[i];
      var direction := VecOf(f.tip.direction);
      var position := VecOf(f.tip.position);
      var velocity := Zero;
      match f.velocity {
        case Some(v) => velocity := VecOf(v);
        case None =>
      }
      fingerMap := fingerMap[f.id := Finger(position, direction, velocity, f.length, f.width, f.isTool)];
      assert fingers[..i + 1][..i] == fingers[..i];
    }
    assert fingers[..|fingers|] == fingers;
  }

  /** The outer loop of `onFrame`: one entry per hand, each with its finger map. */
  method BuildHandMap(hands: seq<Leap.Hand>) returns (handMap: HandMap)
    ensures handMap == HandMapOf(hands)
  {
    handMap := map[];
    for i := 0 to |hands|
      invariant handMap == HandMapOf(hands[..i])
    {
      var h := hands[i];
      var ballRadius := 0.0;
      var ballPosition, direction, normal, position, velocity := Zero, Zero, Zero, Zero, Zero;
      match h.ball {
        case Some(b) =>
          ballPosition := VecOf(b.position);
          ballRadius := b.radius;
        case None =>
      }
      match h.palm {
        case Some(p) =>
          direction := VecOf(p.direction);
          position := VecOf(p.position);
        case None =>
      }
      match h.normal {
        case Some(n) => normal := VecOf(n);
        case None =>
      }
      var fingerMap := BuildFingerMap(h.fingers);
      handMap := handMap[h.id := Hand(fingerMap, position, direction, velocity, normal, ballPosition, ballRadius)];
      assert hands[..i + 1][..i] == hands[..i];
    }
    assert hands[..|hands|] == hands;
  }

  /**
   * The converted frame has one hand per distinct vendor hand id and, in
   * each hand, one finger per distinct finger id; on a repeated id the
   * later element wins.
   */
  lemma ConvertedFrameKeys(f: Leap.Frame, k: nat, j: nat)
    requires k < |f.hands| && j < |f.hands[k].fingers|
    requires forall k' :: k < k' < |f.hands| ==> f.hands[k'].id != f.hands[k].id
    requires forall j' :: j < j' < |f.hands[k].fingers| ==> f.hands[k].fingers[j'].id != f.hands[k].fingers[j].id
    ensures ConvertFrame(f).hands.Keys == set i | 0 <= i < |f.hands| :: f.hands[i].id
    ensures ConvertFrame(f).hands[f.hands[k].id] == ConvertHand(f.hands[k])
    ensures ConvertFrame(f).hands[f.hands[k].id].fingers.Keys ==
      set i | 0 <= i < |f.hands[k].fingers| :: f.hands[k].fingers[i].id
    ensures ConvertFrame(f).hands[f.hands[k].id].fingers[f.hands[k].fingers[j].id] ==
      ConvertFinger(f.hands[k].fingers[j])
  {
    CollectedLastWins(f.hands, HandKey, ConvertHand, k);
    CollectedKeys(f.hands[k].fingers, FingerKey, ConvertFinger);
    CollectedLastWins(f.hands[k].fingers, FingerKey, ConvertFinger, j);
  }

  // ---------------------------------------------------------------------
  // The Listener

  class Listener {
    var connected: bool
    var initialized: bool
    var newFrame: bool
    var frame: Frame

    constructor ()
      ensures !connected && !initialized && !newFrame && frame == DefaultFrame
    {
      connected, initialized, newFrame := false, false, false;
      frame := DefaultFrame;
    }

    method OnConnect()
      modifies this
      ensures connected
      ensures initialized == old(initialized) && newFrame == old(newFrame) && frame == old(frame)
    {
      connected := true;
    }

    method OnDisconnect()
      modifies this
      ensures !connected
      ensures initialized == old(initialized) && newFrame == old(newFrame) && frame == old(frame)
    {
      connected := false;
    }

    method OnInit()
      modifies this
      ensures initialized
      ensures connected == old(connected) && newFrame == old(newFrame) && frame == old(frame)
    {
      initialized := true;
    }

    /**
     * With a frame already pending the callback does nothing; otherwise it
     * converts the controller's current frame, stores it and marks it pending.
     */
    method OnFrame(current: Leap.Frame)
      modifies this
      ensures old(newFrame) ==> unchanged(this)
      ensures !old(newFrame) ==> newFrame && frame == ConvertFrame(current)
      ensures connected == old(connected) && initialized == old(initialized)
    {
      if !newFrame {
        var handMap := BuildHandMap(current.hands);
        var id := current.id;
        var timestamp := current.timestamp;
        frame := Frame(handMap, id, timestamp);
        newFrame := true;
      }
    }
  }

  // ---------------------------------------------------------------------
  // Callback registry and the Device

  /** Identifies the bound member function a callback slot calls. */
  type HandlerId = nat

  /** A slot connected to the signal; `connection` numbers connections in the order they were made. */
  datatype Slot = Slot(connection: nat, handler: HandlerId)

  datatype Delivery = Delivery(handler: HandlerId, frame: Frame)

  /**
   * The id `addCallback` computes: 0 for an empty registry, otherwise the
   * largest registered id plus one in `uint32_t` arithmetic.
   */
  ghost function NextId(ids: set<UInt32>): UInt32 {
    if ids == {} then 0 else AddUInt32(MaxOf(ids), 1)
  }

  /** Below the top of the range the computed id is larger than every registered id, hence fresh. */
  lemma NextIdIsFresh(ids: set<UInt32>)
    requires ids == {} || MaxOf(ids) < UINT32_MAX
    ensures forall k :: k in ids ==> k < NextId(ids)
    ensures NextId(ids) !in ids
  {
  }

  /**
   * Once UINT32_MAX is registered the id wraps to 0; if 0 is registered
   * too, the returned id is one that is already taken.
   */
  lemma NextIdWraps(ids: set<UInt32>)
    requires UINT32_MAX in ids
    ensures NextId(ids) == 0
    ensures 0 in ids ==> NextId(ids) in ids
  {
  }

  /**
   * A registry holding exactly the ids 0 .. n hands out n + 1 next; after
   * its largest id n is removed, n is handed out again.
   */
  lemma RemovingLargestIdReusesIt(ids: set<UInt32>, n: nat)
    requires n < UINT32_MAX
    requires forall k: UInt32 :: k in ids <==> k <= n
    ensures NextId(ids) == n + 1
    ensures NextId(ids - {n as UInt32}) == n
  {
    assert n as UInt32 in ids;
    assert MaxOf(ids) == n;
    if n > 0 {
      var rest := ids - {n as UInt32};
      assert (n - 1) as UInt32 in rest;
      assert MaxOf(rest) == n - 1;
    } else {
      assert ids - {n as UInt32} == {};
    }
  }

  /** The slots left after disconnecting every connection in `gone`. */
  function Disconnected(slots: seq<Slot>, gone: set<nat>): (r: seq<Slot>)
    ensures forall s :: s in r <==> s in slots && s.connection !in gone
    decreases |slots|
  {
    if |slots| == 0 then []
    else
      var last := slots[|slots| - 1];
      Disconnected(slots[..|slots| - 1], gone) + if last.connection in gone then [] else [last]
  }

  /** The slots are listed in the order they were connected. */
  ghost predicate ConnectionsIncrease(slots: seq<Slot>) {
    forall i, j :: 0 <= i < j < |slots| ==> slots[i].connection < slots[j].connection
  }

  /** Disconnecting deletes slots and keeps the others in their order. */
  lemma {:induction false} DisconnectedIsSubSeq(slots: seq<Slot>, gone: set<nat>)
    ensures SubSeq(Disconnected(slots, gone), slots)
    decreases |slots|
  {
    if |slots| > 0 {
      var init := slots[..|slots| - 1];
      var last := slots[|slots| - 1];
      DisconnectedIsSubSeq(init, gone);
      assert init + [last] == slots;
      if last.connection in gone {
        assert Disconnected(slots, gone) == Disconnected(init, gone);
        SubSeqExtendRight(Disconnected(init, gone), init, last);
      } else {
        assert Disconnected(slots, gone) == Disconnected(init, gone) + [last];
        SubSeqExtendBoth(Disconnected(init, gone), init, last);
      }
    }
  }

  /** Slots listed in connection order stay so after a disconnect. */
  lemma {:induction false} DisconnectedKeepsOrder(slots: seq<Slot>, gone: set<nat>)
    requires ConnectionsIncrease(slots)
    ensures ConnectionsIncrease(Disconnected(slots, gone))
    decreases |slots|
  {
    if |slots| > 0 {
      var init := slots[..|slots| - 1];
      var last := slots[|slots| - 1];
      DisconnectedKeepsOrder(init, gone);
      var r := Disconnected(init, gone);
      if last.connection !in gone {
        forall i | 0 <= i < |r| ensures r[i].connection < last.connection {
          assert r[i] in init;
          var k :| 0 <= k < |init| && init[k] == r[i];
        }
        assert Disconnected(slots, gone) == r + [last];
      }
    }
  }

  lemma {:induction false} DisconnectedTwice(slots: seq<Slot>, a: set<nat>, b: set<nat>)
    ensures Disconnected(Disconnected(slots, a), b) == Disconnected(slots, a + b)
    decreases |slots|
  {
    if |slots| > 0 {
      var init := slots[..|slots| - 1];
      var last := slots[|slots| - 1];
      DisconnectedTwice(init, a, b);
      var once := Disconnected(init, a) + if last.connection in a then [] else [last];
      assert Disconnected(slots, a) == once;
      if last.connection !in a {
        assert once[..|once| - 1] == Disconnected(init, a);
      } else {
        assert once == Disconnected(init, a);
      }
    }
  }

  /** Firing the signal calls every connected slot, in slot order, with the frame. */
  function Fire(slots: seq<Slot>, frame: Frame): (r: seq<Delivery>)
    ensures |r| == |slots|
    ensures forall i :: 0 <= i < |slots| ==> r[i] == Delivery(slots[i].handler, frame)
  {
    seq(|slots|, i requires 0 <= i < |slots| => Delivery(slots[i].handler, frame))
  }

  class Device {
    const listener: Listener
    /** `mCallbacks`: callback id to the connection it holds. */
    var callbacks: map<UInt32, nat>
    /** The signal's connected slots. */
    var slots: seq<Slot>
    /** Connections made so far; the next one is numbered `connections`. */
    var connections: nat
    /** Every slot call made so far, in order. */
    var delivered: seq<Delivery>

    ghost predicate Valid()
      reads this
    {
      && (forall id :: id in callbacks ==> callbacks[id] < connections)
      && (forall i :: 0 <= i < |slots| ==> slots[i].connection < connections)
      && ConnectionsIncrease(slots)
    }

    constructor ()
      ensures Valid() && fresh(listener)
      ensures callbacks == map[] && slots == [] && delivered == []
      ensures !listener.connected && !listener.initialized && !listener.newFrame
    {
      listener := new Listener();
      callbacks := map[];
      slots := [];
      connections := 0;
      delivered := [];
    }

    function IsConnected(): bool reads this, listener { listener.connected }
    function IsInitialized(): bool reads this, listener { listener.initialized }

    /**
     * Connects a new slot and files its connection under the computed id.
     * When that id is already taken the map keeps its old entry, yet the
     * new slot stays connected and the taken id is returned.
     */
    method AddCallback(h: HandlerId) returns (id: UInt32)
      requires Valid()
      modifies this
      ensures Valid()
      ensures id == NextId(old(callbacks).Keys)
      ensures slots == old(slots) + [Slot(old(connections), h)]
      ensures connections == old(connections) + 1
      ensures callbacks == if id in old(callbacks) then old(callbacks) else old(callbacks)[id := old(connections)]
      ensures delivered == old(delivered)
    {
      if callbacks == map[] {
        id := 0;
      } else {
        HasExtremes(callbacks.Keys);
        var top :| IsMax(callbacks.Keys, top);
        assert top == MaxOf(callbacks.Keys);
        id := AddUInt32(top, 1);
      }
      var c := connections;
      connections := connections + 1;
      slots := slots + [Slot(c, h)];
      if id !in callbacks {
        callbacks := callbacks[id := c];
      }
    }

    /** Removes and disconnects one entry; an unknown id changes nothing. */
    method RemoveCallback(id: UInt32)
      requires Valid()
      modifies this
      ensures Valid()
      ensures id in old(callbacks) ==>
        callbacks == old(callbacks) - {id} && slots == Disconnected(old(slots), {old(callbacks)[id]})
      ensures id !in old(callbacks) ==> callbacks == old(callbacks) && slots == old(slots)
      ensures connections == old(connections) && delivered == old(delivered)
    {
      if id in callbacks {
        DisconnectedBelow(slots, {callbacks[id]}, connections);
        DisconnectedKeepsOrder(slots, {callbacks[id]});
        slots := Disconnected(slots, {callbacks[id]});
        callbacks := callbacks - {id};
      }
    }

    /** The destructor: disconnects and erases every entry, in id order. */
    method Destroy()
      requires Valid()
      modifies this`callbacks, this`slots
      ensures Valid()
      ensures callbacks == map[]
      ensures slots == Disconnected(old(slots), old(callbacks).Values)
      ensures connections == old(connections) && delivered == old(delivered)
    {
      ghost var gone: set<nat> := {};
      assert slots == Disconnected(slots, {}) by {
        DisconnectedNone(slots);
      }
      while callbacks != map[]
        invariant Valid()
        invariant gone + callbacks.Values == old(callbacks).Values
        invariant slots == Disconnected(old(slots), gone)
        decreases |callbacks|
      {
        HasExtremes(callbacks.Keys);
        var id :| IsMin(callbacks.Keys, id);
        var c := callbacks[id];
        DisconnectedTwice(old(slots), gone, {c});
        DisconnectedBelow(slots, {c}, connections);
        DisconnectedKeepsOrder(slots, {c});
        ValuesAfterErase(callbacks, id);
        slots := Disconnected(slots, {c});
        callbacks := callbacks - {id};
        gone := gone + {c};
      }
      assert callbacks.Values == {};
    }

    /**
     * With a frame pending: fire the signal once with it, then clear the
     * flag, whether or not any slot is connected. Otherwise nothing. The
     * slots are called in the order they were connected.
     */
    method Update()
      requires Valid()
      modifies this, listener
      ensures Valid()
      ensures old(listener.newFrame) ==>
        delivered == old(delivered) + Fire(old(slots), old(listener.frame)) && !listener.newFrame
      ensures !old(listener.newFrame) ==> delivered == old(delivered) && !listener.newFrame
      ensures listener.frame == old(listener.frame)
      ensures listener.connected == old(listener.connected) && listener.initialized == old(listener.initialized)
      ensures callbacks == old(callbacks) && slots == old(slots) && connections == old(connections)
      ensures old(listener.newFrame) ==> forall i, j :: 0 <= i < j < |slots| ==>
        && slots[i].connection < slots[j].connection
        && delivered[|old(delivered)| + i] == Delivery(slots[i].handler, old(listener.frame))
        && delivered[|old(delivered)| + j] == Delivery(slots[j].handler, old(listener.frame))
    {
      if listener.newFrame {
        delivered := delivered + Fire(slots, listener.frame);
        listener.newFrame := false;
      }
    }
  }

  lemma ValuesAfterErase(m: map<UInt32, nat>, id: UInt32)
    requires id in m
    ensures (m - {id}).Values + {m[id]} == m.Values
  {
    var r := m - {id};
    forall v | v in m.Values ensures v in r.Values + {m[id]} {
      var k :| k in m && m[k] == v;
      if k != id {
        assert r[k] == v;
      }
    }
  }

  /** Disconnecting slots never brings in a connection number not handed out. */
  lemma DisconnectedBelow(slots: seq<Slot>, gone: set<nat>, n: nat)
    requires forall i :: 0 <= i < |slots| ==> slots[i].connection < n
    ensures forall i :: 0 <= i < |Disconnected(slots, gone)| ==> Disconnected(slots, gone)[i].connection < n
  {
    var r := Disconnected(slots, gone);
    forall i | 0 <= i < |r| ensures r[i].connection < n {
      assert r[i] in slots;
      var j :| 0 <= j < |slots| && slots[j] == r[i];
    }
  }

  lemma DisconnectedNone(slots: seq<Slot>)
    ensures Disconnected(slots, {}) == slots
    decreases |slots|
  {
    if |slots| > 0 {
      DisconnectedNone(slots[..|slots| - 1]);
    }
  }

  // ---------------------------------------------------------------------
  // Scenarios

  /**
   * Two frames arrive with no update between them: the one update that
   * follows calls the registered callback once, with the first frame.
   */
  method FirstFrameWins(h: HandlerId, a: Leap.Frame, b: Leap.Frame) returns (calls: seq<Delivery>)
    ensures calls == [Delivery(h, ConvertFrame(a))]
  {
    var device := new Device();
    var id := device.AddCallback(h);
    device.listener.OnFrame(a);
    device.listener.OnFrame(b);
    device.Update();
    calls := device.delivered;
  }

  /**
   * An update with no callback registered still consumes the pending
   * frame, so the next frame to arrive is accepted.
   */
  method UpdateWithoutCallbacksConsumes(a: Leap.Frame, b: Leap.Frame) returns (pending: bool, stored: Frame)
    ensures pending && stored == ConvertFrame(b)
  {
    var device := new Device();
    device.listener.OnFrame(a);
    device.Update();
    device.listener.OnFrame(b);
    pending, stored := device.listener.newFrame, device.listener.frame;
  }
}
