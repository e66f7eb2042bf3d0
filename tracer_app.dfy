/**
 * The TracerApp sample's bookkeeping: the hands of the last frame, one
 * ribbon per finger id ever seen, and the point the camera heads for.
 * Per update, fingers are visited hand by hand and finger by finger in
 * ascending id order (the order of `std::map`), each appends one point to
 * its ribbon (created on first sight), and then every ribbon is updated.
 * The ribbon map holds ribbons by value, as `std::map<int32_t, Ribbon>`
 * does; an entry changes to the value the `Ribbon` methods produce.
 */
module TracerApp {
  import opened Cinder
  import opened BoundedInts
  import opened Orders
  import opened Ribbons
  import LeapSdk

  type RibbonMap = map<Int32, RibbonState>

  /** One visited finger: its map key and its data. */
  datatype Entry = Entry(id: Int32, finger: LeapSdk.Finger)

  /** The fingers of one hand with the first `n` ids of `ks`, visited in that order. */
  ghost function EntriesOf(fingers: LeapSdk.FingerMap, ks: seq<Int32>, n: nat): (es: seq<Entry>)
    requires n <= |ks| && forall i :: 0 <= i < |ks| ==> ks[i] in fingers
    ensures |es| == n
  {
    if n == 0 then [] else EntriesOf(fingers, ks, n - 1) + [Entry(ks[n - 1], fingers[ks[n - 1]])]
  }

  /** Entry `i` is finger `ks[i]` under its id. */
  lemma {:induction false} EntriesOfAt(fingers: LeapSdk.FingerMap, ks: seq<Int32>, n: nat, i: nat)
    requires n <= |ks| && forall j :: 0 <= j < |ks| ==> ks[j] in fingers
    requires i < n
    ensures EntriesOf(fingers, ks, n)[i] == Entry(ks[i], fingers[ks[i]])
    decreases n
  {
    if i < n - 1 {
      EntriesOfAt(fingers, ks, n - 1, i);
    }
  }

  /** A set of ids in ascending order, with the element type kept. */
  ghost function Ascending(s: set<Int32>): seq<Int32>
    decreases |s|
  {
    if s == {} then []
    else
      var m := MinOf(s);
      [m as Int32] + Ascending(s - {m as Int32})
  }

  /** Every id listed in ascending order is a member of the set. */
  lemma AscendingMembers(s: set<Int32>)
    ensures forall j :: 0 <= j < |Ascending(s)| ==> Ascending(s)[j] in s
  {
    AscendingIsSorted(s);
    assert forall x :: x in Ascending(s) ==> x in s;
  }

  /** With the element type widened, the ascending listing is `SortedKeys`. */
  lemma {:induction false} AscendingIsSorted(s: set<Int32>)
    ensures Ascending(s) == SortedKeys(s)
    decreases |s|
  {
    if s != {} {
      var m := MinOf(s);
      AscendingIsSorted(s - {m as Int32});
    }
  }

  /** The fingers of one hand in visiting order. */
  ghost function FingerEntries(fingers: LeapSdk.FingerMap): seq<Entry> {
    var ks := Ascending(fingers.Keys);
    AscendingMembers(fingers.Keys);
    EntriesOf(fingers, ks, |ks|)
  }

  /** The fingers of the hands with the first `n` ids of `hks`, hand after hand. */
  ghost function HandsTrail(hands: LeapSdk.HandMap, hks: seq<Int32>, n: nat): seq<Entry>
    requires n <= |hks| && forall i :: 0 <= i < |hks| ==> hks[i] in hands
  {
    if n == 0 then [] else HandsTrail(hands, hks, n - 1) + FingerEntries(hands[hks[n - 1]].fingers)
  }

  /** Every finger of every hand, in the order `update` visits them. */
  ghost function FingerTrail(hands: LeapSdk.HandMap): seq<Entry> {
    var hks := Ascending(hands.Keys);
    AscendingMembers(hands.Keys);
    HandsTrail(hands, hks, |hks|)
  }

  /** The width of the point a finger adds; `norm` is the vector length. */
  function PointWidth(f: LeapSdk.Finger, norm: Vec3f -> real): real {
    (f.width + norm(f.velocity)) * 0.01
  }

  /** The ribbon `update` finds for `id`, or the empty one it creates. */
  function RibbonFor(m: RibbonMap, id: Int32): RibbonState {
    if id in m then m[id] else RibbonState(id, [], [])
  }

  /** The ribbons after one visited finger: its ribbon gains a point. */
  function AppendOne(m: RibbonMap, e: Entry, norm: Vec3f -> real): RibbonMap {
    m[e.id := WithPoint(RibbonFor(m, e.id), e.finger.position, PointWidth(e.finger, norm))]
  }

  /** The ribbons after a sequence of visited fingers. */
  function Appended(m: RibbonMap, es: seq<Entry>, norm: Vec3f -> real): RibbonMap
    decreases |es|
  {
    if |es| == 0 then m
    else AppendOne(Appended(m, es[..|es| - 1], norm), es[|es| - 1], norm)
  }

  /** The ids of a sequence of visited fingers. */
  function IdsOf(es: seq<Entry>): set<Int32>
    decreases |es|
  {
    if |es| == 0 then {} else IdsOf(es[..|es| - 1]) + {es[|es| - 1].id}
  }

  /** The points a sequence of visited fingers adds to ribbon `id`, in order. */
  function PointsFor(es: seq<Entry>, id: Int32, norm: Vec3f -> real): seq<Point>
    decreases |es|
  {
    if |es| == 0 then []
    else
      var e := es[|es| - 1];
      PointsFor(es[..|es| - 1], id, norm)
      + if e.id == id then [NewPoint(e.finger.position, PointWidth(e.finger, norm))] else []
  }

  /** Every ribbon updated once. */
  function AgeAll(m: RibbonMap, normalize: Vec3f -> Vec3f): (r: RibbonMap)
    ensures r.Keys == m.Keys
  {
    map k | k in m :: Updated(m[k], normalize)
  }

  /** Sum of the visited fingers' positions. */
  function SumPositions(es: seq<Entry>): Vec3f
    decreases |es|
  {
    if |es| == 0 then Zero else Add(SumPositions(es[..|es| - 1]), es[|es| - 1].finger.position)
  }

  /** Every ribbon is stored under its own id. */
  predicate KeyedById(m: RibbonMap) {
    forall k :: k in m ==> m[k].id == k
  }

  /**
   * Appending never replaces a ribbon: each one keeps its id and strip and
   * gains exactly the points of the fingers with its id, in visiting order;
   * the ribbons are those that existed plus one per visited id.
   */
  lemma {:induction false} AppendedPoints(m: RibbonMap, es: seq<Entry>, norm: Vec3f -> real)
    ensures Appended(m, es, norm).Keys == m.Keys + IdsOf(es)
    ensures forall id ::
              RibbonFor(Appended(m, es, norm), id)
              == RibbonFor(m, id).(points := RibbonFor(m, id).points + PointsFor(es, id, norm))
    decreases |es|
  {
    if |es| > 0 {
      var init := es[..|es| - 1];
      AppendedPoints(m, init, norm);
      var e := es[|es| - 1];
      forall id
        ensures RibbonFor(Appended(m, es, norm), id)
                == RibbonFor(m, id).(points := RibbonFor(m, id).points + PointsFor(es, id, norm))
      {
        assert RibbonFor(m, id).points + PointsFor(es, id, norm)
          == RibbonFor(m, id).points + PointsFor(init, id, norm)
             + if e.id == id then [NewPoint(e.finger.position, PointWidth(e.finger, norm))] else [];
      }
    }
  }

  /** Appending keeps every ribbon under its own id. */
  lemma {:induction false} AppendedKeyed(m: RibbonMap, es: seq<Entry>, norm: Vec3f -> real)
    requires KeyedById(m)
    ensures KeyedById(Appended(m, es, norm))
    decreases |es|
  {
    if |es| > 0 {
      AppendedKeyed(m, es[..|es| - 1], norm);
    }
  }

  lemma AppendedSnoc(m: RibbonMap, es: seq<Entry>, e: Entry, norm: Vec3f -> real)
    ensures Appended(m, es + [e], norm) == AppendOne(Appended(m, es, norm), e, norm)
  {
    assert (es + [e])[..|es|] == es;
  }

  lemma SumSnoc(es: seq<Entry>, e: Entry)
    ensures SumPositions(es + [e]) == Add(SumPositions(es), e.finger.position)
  {
    assert (es + [e])[..|es|] == es;
  }

  lemma {:induction false} AppendedConcat(m: RibbonMap, a: seq<Entry>, b: seq<Entry>, norm: Vec3f -> real)
    ensures Appended(m, a + b, norm) == Appended(Appended(m, a, norm), b, norm)
    decreases |b|
  {
    if |b| > 0 {
      AppendedConcat(m, a, b[..|b| - 1], norm);
      assert (a + b)[..|a + b| - 1] == a + b[..|b| - 1];
      assert (a + b)[|a + b| - 1] == b[|b| - 1];
    } else {
      assert a + b == a;
    }
  }

  lemma {:induction false} SumConcat(a: seq<Entry>, b: seq<Entry>)
    ensures SumPositions(a + b) == Add(SumPositions(a), SumPositions(b))
    decreases |b|
  {
    if |b| > 0 {
      SumConcat(a, b[..|b| - 1]);
      assert (a + b)[..|a + b| - 1] == a + b[..|b| - 1];
      assert (a + b)[|a + b| - 1] == b[|b| - 1];
    } else {
      assert a + b == a;
    }
  }

  /** Within one hand the trail visits a finger exactly when the hand holds it. */
  lemma FingerEntriesExact(fingers: LeapSdk.FingerMap, e: Entry)
    ensures e in FingerEntries(fingers) <==> e.id in fingers && e.finger == fingers[e.id]
  {
    var ks := Ascending(fingers.Keys);
    var es := FingerEntries(fingers);
    AscendingIsSorted(fingers.Keys);
    AscendingMembers(fingers.Keys);
    if e in es {
      var i :| 0 <= i < |es| && es[i] == e;
      EntriesOfAt(fingers, ks, |ks|, i);
    }
    if e.id in fingers && e.finger == fingers[e.id] {
      assert e.id in ks;
      var i :| 0 <= i < |ks| && ks[i] == e.id;
      EntriesOfAt(fingers, ks, |ks|, i);
    }
  }

  /** Within one hand the trail is ascending by id and visits every finger once. */
  lemma FingerEntriesAscending(fingers: LeapSdk.FingerMap)
    ensures |FingerEntries(fingers)| == |fingers|
    ensures forall i, j :: 0 <= i < j < |FingerEntries(fingers)| ==>
      FingerEntries(fingers)[i].id < FingerEntries(fingers)[j].id
  {
    var ks := Ascending(fingers.Keys);
    var es := FingerEntries(fingers);
    SortedKeysAscending(fingers.Keys);
    AscendingIsSorted(fingers.Keys);
    AscendingMembers(fingers.Keys);
    assert |fingers.Keys| == |fingers|;
    forall i, j | 0 <= i < j < |es| ensures es[i].id < es[j].id {
      EntriesOfAt(fingers, ks, |ks|, i);
      EntriesOfAt(fingers, ks, |ks|, j);
    }
  }

  /** `hand` holds finger `e` under `e`'s id. */
  predicate Holds(hand: LeapSdk.Hand, e: Entry) {
    e.id in hand.fingers && e.finger == hand.fingers[e.id]
  }

  /** The trail over the first `n` hands visits a finger exactly when one of those hands holds it. */
  lemma {:induction false} TrailCoversFingers(hands: LeapSdk.HandMap, hks: seq<Int32>, n: nat, e: Entry)
    requires n <= |hks| && forall i :: 0 <= i < |hks| ==> hks[i] in hands
    ensures e in HandsTrail(hands, hks, n) <==> exists i :: 0 <= i < n && Holds(hands[hks[i]], e)
    decreases n
  {
    if n > 0 {
      var hand := hands[hks[n - 1]];
      var before := HandsTrail(hands, hks, n - 1);
      assert HandsTrail(hands, hks, n) == before + FingerEntries(hand.fingers);
      TrailCoversFingers(hands, hks, n - 1, e);
      FingerEntriesExact(hand.fingers, e);
      if e in HandsTrail(hands, hks, n) {
        if e in before {
          var i :| 0 <= i < n - 1 && Holds(hands[hks[i]], e);
          assert 0 <= i < n && Holds(hands[hks[i]], e);
        } else {
          assert 0 <= n - 1 < n && Holds(hands[hks[n - 1]], e);
        }
      }
      if exists i :: 0 <= i < n && Holds(hands[hks[i]], e) {
        var i :| 0 <= i < n && Holds(hands[hks[i]], e);
        if i < n - 1 {
          assert e in before;
        } else {
          assert e in FingerEntries(hand.fingers);
        }
      }
    }
  }

  /** The whole trail lists exactly the fingers the current hands hold. */
  lemma FingerTrailExact(hands: LeapSdk.HandMap, e: Entry)
    ensures e in FingerTrail(hands) <==> exists hid :: hid in hands && Holds(hands[hid], e)
  {
    var hks := Ascending(hands.Keys);
    AscendingMembers(hands.Keys);
    TrailCoversFingers(hands, hks, |hks|, e);
    if exists hid :: hid in hands && Holds(hands[hid], e) {
      var hid :| hid in hands && Holds(hands[hid], e);
      AscendingIsSorted(hands.Keys);
      assert hid in hks;
      var i :| 0 <= i < |hks| && hks[i] == hid;
    }
  }

  lemma {:induction false} IdsOfMember(es: seq<Entry>, e: Entry)
    requires e in es
    ensures e.id in IdsOf(es)
    decreases |es|
  {
    if es[|es| - 1] != e {
      assert e in es[..|es| - 1];
      IdsOfMember(es[..|es| - 1], e);
    }
  }

  /** After `update`, every finger some current hand holds has a ribbon under its id. */
  lemma FingerGetsRibbon(m: RibbonMap, hands: LeapSdk.HandMap, norm: Vec3f -> real, normalize: Vec3f -> Vec3f,
                         hid: Int32, e: Entry)
    requires hid in hands && Holds(hands[hid], e)
    ensures e.id in AgeAll(Appended(m, FingerTrail(hands), norm), normalize)
  {
    FingerTrailExact(hands, e);
    IdsOfMember(FingerTrail(hands), e);
    AppendedPoints(m, FingerTrail(hands), norm);
  }

  lemma {:induction false} PointsForAbsent(es: seq<Entry>, id: Int32, norm: Vec3f -> real)
    requires id !in IdsOf(es)
    ensures PointsFor(es, id, norm) == []
    decreases |es|
  {
    if |es| > 0 {
      PointsForAbsent(es[..|es| - 1], id, norm);
    }
  }

  /**
   * A ribbon whose finger is gone is kept and only updated: it fades out
   * and is never erased from the map.
   */
  lemma StaleRibbonOnlyAges(m: RibbonMap, hands: LeapSdk.HandMap, norm: Vec3f -> real, normalize: Vec3f -> Vec3f, id: Int32)
    requires id in m && id !in IdsOf(FingerTrail(hands))
    ensures id in AgeAll(Appended(m, FingerTrail(hands), norm), normalize)
    ensures AgeAll(Appended(m, FingerTrail(hands), norm), normalize)[id] == Updated(m[id], normalize)
  {
    var es := FingerTrail(hands);
    var appended := Appended(m, es, norm);
    AppendedPoints(m, es, norm);
    PointsForAbsent(es, id, norm);
    assert RibbonFor(m, id).points + [] == m[id].points;
    assert appended[id] == RibbonFor(appended, id) == m[id];
  }

  /**
   * `update` never erases a ribbon: afterwards the map holds the ribbons it
   * held before plus one for each finger id visited, and no others.
   */
  lemma RibbonsOnlyGrow(m: RibbonMap, hands: LeapSdk.HandMap, norm: Vec3f -> real, normalize: Vec3f -> Vec3f)
    ensures AgeAll(Appended(m, FingerTrail(hands), norm), normalize).Keys == m.Keys + IdsOf(FingerTrail(hands))
  {
    AppendedPoints(m, FingerTrail(hands), norm);
  }

  /** After the last loop of `update` every ribbon is under its id and can be drawn. */
  lemma AgeAllDrawable(m: RibbonMap, normalize: Vec3f -> Vec3f)
    requires KeyedById(m)
    ensures KeyedById(AgeAll(m, normalize))
    ensures forall k :: k in AgeAll(m, normalize) ==> Drawable(AgeAll(m, normalize)[k])
  {
    forall k | k in m ensures Drawable(AgeAll(m, normalize)[k]) {
      UpdatedIsDrawable(m[k], normalize, Zero, 0.0);
    }
  }

  /** The ids of a finite set, smallest first. */
  method AscendingIds(s: set<Int32>) returns (ks: seq<Int32>)
    ensures ks == Ascending(s)
  {
    ks := [];
    var rest := s;
    while rest != {}
      invariant rest <= s
      invariant ks + SortedKeys(rest) == SortedKeys(s)
      decreases |rest|
    {
      HasLeast(rest);
      var m: Int32 :| m in rest && IsMin(rest, m);
      TakeLeast(ks, rest, m);
      ks := ks + [m];
      rest := rest - {m};
    }
    AscendingIsSorted(s);
  }

  lemma HasLeast(s: set<Int32>)
    requires s != {}
    ensures exists m: Int32 :: m in s && IsMin(s, m)
  {
    HasExtremes(s);
    var m :| IsMin(s, m);
    assert m in s;
  }

  /** Taking the least id off the rest appends it to the ids taken so far. */
  lemma TakeLeast(ks: seq<int>, s: set<int>, m: int)
    requires IsMin(s, m)
    ensures (ks + [m]) + SortedKeys(s - {m}) == ks + SortedKeys(s)
  {
    MinIsUnique(s, m, MinOf(s));
    assert SortedKeys(s) == [m] + SortedKeys(s - {m});
  }

  /** The first `i` ids of `ids`, as a set. */
  function IdsUpTo(ids: seq<Int32>, i: nat): set<Int32>
    requires i <= |ids|
  {
    if i == 0 then {} else IdsUpTo(ids, i - 1) + {ids[i - 1]}
  }

  lemma {:induction false} UpToBelow(ids: seq<Int32>, i: nat, x: Int32)
    requires i <= |ids| && forall j :: 0 <= j < i ==> ids[j] < x
    ensures x !in IdsUpTo(ids, i)
  {
    if i > 0 {
      UpToBelow(ids, i - 1, x);
    }
  }

  lemma {:induction false} UpToIsPrefix(ids: seq<Int32>, i: nat)
    requires i <= |ids|
    ensures forall x :: x in IdsUpTo(ids, i) <==> x in ids[..i]
  {
    if i > 0 {
      UpToIsPrefix(ids, i - 1);
      assert ids[..i] == ids[..i - 1] + [ids[i - 1]];
    }
  }

  /** Listing a set in ascending order repeats no id: the ids strictly increase. */
  lemma AscendingStrict(s: set<Int32>)
    ensures forall a, b :: 0 <= a < b < |Ascending(s)| ==> Ascending(s)[a] < Ascending(s)[b]
  {
    SortedKeysAscending(s);
    AscendingIsSorted(s);
  }

  /** Listing a set in ascending order leaves no member out. */
  lemma AscendingCovers(s: set<Int32>)
    ensures IdsUpTo(Ascending(s), |Ascending(s)|) == s
  {
    var ks := Ascending(s);
    AscendingIsSorted(s);
    UpToIsPrefix(ks, |ks|);
    assert ks[..|ks|] == ks;
  }

  /** The ribbons after those with the first `i` ids of `ids` are updated, one at a time. */
  function AgedUpTo(m: RibbonMap, ids: seq<Int32>, i: nat, normalize: Vec3f -> Vec3f): RibbonMap
    requires i <= |ids|
  {
    if i == 0 then m
    else
      var before := AgedUpTo(m, ids, i - 1, normalize);
      var id := ids[i - 1];
      if id in before then before[id := Updated(before[id], normalize)] else before
  }

  /** Updating ribbons one id at a time keeps the set of ribbons. */
  lemma {:induction false} AgedUpToKeys(m: RibbonMap, ids: seq<Int32>, i: nat, normalize: Vec3f -> Vec3f)
    requires i <= |ids|
    ensures AgedUpTo(m, ids, i, normalize).Keys == m.Keys
  {
    if i > 0 {
      AgedUpToKeys(m, ids, i - 1, normalize);
    }
  }

  /**
   * Updating ribbons one id at a time, ids in increasing order, leaves the
   * ribbons already visited updated once and the others untouched.
   */
  lemma {:induction false} AgedUpToAt(m: RibbonMap, ids: seq<Int32>, i: nat, normalize: Vec3f -> Vec3f, k: Int32)
    requires i <= |ids| && forall a, b :: 0 <= a < b < |ids| ==> ids[a] < ids[b]
    requires k in m
    ensures k in AgedUpTo(m, ids, i, normalize)
    ensures AgedUpTo(m, ids, i, normalize)[k] == if k in IdsUpTo(ids, i) then Updated(m[k], normalize) else m[k]
  {
    if i > 0 {
      AgedUpToAt(m, ids, i - 1, normalize, k);
      var id := ids[i - 1];
      UpToBelow(ids, i - 1, id);
      var before := AgedUpTo(m, ids, i - 1, normalize);
      if k != id {
        assert AgedUpTo(m, ids, i, normalize)[k] == before[k];
      } else {
        assert AgedUpTo(m, ids, i, normalize)[k] == Updated(before[k], normalize);
      }
    }
  }

  /** Updating every id of the ribbon map once, in increasing order, updates every ribbon once. */
  lemma AgedUpToAll(m: RibbonMap, ids: seq<Int32>, normalize: Vec3f -> Vec3f)
    requires forall a, b :: 0 <= a < b < |ids| ==> ids[a] < ids[b]
    requires IdsUpTo(ids, |ids|) == m.Keys
    ensures AgedUpTo(m, ids, |ids|, normalize) == AgeAll(m, normalize)
  {
    AgedUpToKeys(m, ids, |ids|, normalize);
    forall k | k in m ensures AgedUpTo(m, ids, |ids|, normalize)[k] == AgeAll(m, normalize)[k] {
      AgedUpToAt(m, ids, |ids|, normalize, k);
    }
  }

  /** One pass of the inner finger loop: the next id is a finger of the hand and adds one entry. */
  lemma FingerStep(m: RibbonMap, fingers: LeapSdk.FingerMap, ks: seq<Int32>, f: nat, norm: Vec3f -> real)
    requires f < |ks| && forall i :: 0 <= i < |ks| ==> ks[i] in fingers
    ensures Appended(m, EntriesOf(fingers, ks, f + 1), norm)
            == AppendOne(Appended(m, EntriesOf(fingers, ks, f), norm), Entry(ks[f], fingers[ks[f]]), norm)
    ensures SumPositions(EntriesOf(fingers, ks, f + 1))
            == Add(SumPositions(EntriesOf(fingers, ks, f)), fingers[ks[f]].position)
  {
    var es := EntriesOf(fingers, ks, f);
    var e := Entry(ks[f], fingers[ks[f]]);
    assert EntriesOf(fingers, ks, f + 1) == es + [e];
    AppendedSnoc(m, es, e, norm);
    SumSnoc(es, e);
  }

  /** One pass of the outer hand loop: the next hand's fingers follow the trail so far. */
  lemma HandStep(m: RibbonMap, hands: LeapSdk.HandMap, hks: seq<Int32>, h: nat, norm: Vec3f -> real)
    requires h < |hks| && forall i :: 0 <= i < |hks| ==> hks[i] in hands
    ensures Appended(m, HandsTrail(hands, hks, h + 1), norm)
            == Appended(Appended(m, HandsTrail(hands, hks, h), norm), FingerEntries(hands[hks[h]].fingers), norm)
    ensures |HandsTrail(hands, hks, h + 1)| == |HandsTrail(hands, hks, h)| + |FingerEntries(hands[hks[h]].fingers)|
    ensures SumPositions(HandsTrail(hands, hks, h + 1))
            == Add(SumPositions(HandsTrail(hands, hks, h)), SumPositions(FingerEntries(hands[hks[h]].fingers)))
  {
    var done := HandsTrail(hands, hks, h);
    var next := FingerEntries(hands[hks[h]].fingers);
    assert HandsTrail(hands, hks, h + 1) == done + next;
    AppendedConcat(m, done, next, norm);
    SumConcat(done, next);
  }

  /** One pass of the last loop: the next id still has a ribbon, and updating it advances the pass. */
  lemma AgeStep(m: RibbonMap, ids: seq<Int32>, i: nat, normalize: Vec3f -> Vec3f)
    requires i < |ids| && ids[i] in m
    ensures ids[i] in AgedUpTo(m, ids, i, normalize)
    ensures AgedUpTo(m, ids, i + 1, normalize)
            == AgedUpTo(m, ids, i, normalize)[ids[i] := Updated(AgedUpTo(m, ids, i, normalize)[ids[i]], normalize)]
  {
    AgedUpToKeys(m, ids, i, normalize);
  }

  class Tracer {
    var hands: LeapSdk.HandMap
    var ribbons: RibbonMap
    var lookAtDest: Vec3f

    /** Each ribbon is stored under its own id. */
    ghost predicate Valid()
      reads this`ribbons
    {
      KeyedById(ribbons)
    }

    /** The state after `setup`: no hands, no ribbons, the camera aimed at (0, 250, 0). */
    constructor ()
      ensures Valid() && hands == map[] && ribbons == map[]
      ensures lookAtDest == Vec3f(0.0, 250.0, 0.0)
    {
      hands := map[];
      ribbons := map[];
      lookAtDest := Vec3f(0.0, 250.0, 0.0);
    }

    /** The frame handler: the hands are replaced wholesale, nothing else changes. */
    method OnFrame(frame: LeapSdk.Frame)
      modifies this`hands
      ensures hands == frame.hands
    {
      hands := frame.hands;
    }

    /**
     * The hand-processing part of `update`: every finger of the current
     * hands adds one point to its ribbon (created if absent), `count`
     * is the number of fingers, the camera target moves to their centroid
     * when there is one, and then every ribbon is updated once, after
     * which each can be drawn.
     */
    method Update(norm: Vec3f -> real, normalize: Vec3f -> Vec3f) returns (count: nat)
      requires Valid()
      modifies this`ribbons, this`lookAtDest
      ensures Valid()
      ensures ribbons == AgeAll(Appended(old(ribbons), FingerTrail(hands), norm), normalize)
      ensures forall k :: k in ribbons ==> Drawable(ribbons[k])
      ensures count == |FingerTrail(hands)|
      ensures count > 0 ==> lookAtDest == Scale(SumPositions(FingerTrail(hands)), 1.0 / count as real)
      ensures count == 0 ==> lookAtDest == old(lookAtDest)
    {
      var centroid;
      count, centroid := AddFingerPoints(norm);
      if count > 0 {
        lookAtDest := Scale(centroid, 1.0 / count as real);
      }
      AppendedKeyed(old(ribbons), FingerTrail(hands), norm);
      AgeRibbons(normalize);
      AgeAllDrawable(Appended(old(ribbons), FingerTrail(hands), norm), normalize);
    }

    /** The nested hand and finger loops of `update`. */
    method AddFingerPoints(norm: Vec3f -> real) returns (count: nat, centroid: Vec3f)
      modifies this`ribbons
      ensures ribbons == Appended(old(ribbons), FingerTrail(hands), norm)
      ensures count == |FingerTrail(hands)| && centroid == SumPositions(FingerTrail(hands))
    {
      count := 0;
      centroid := Zero;
      ghost var start := ribbons;
      var current := hands;
      var handIds := AscendingIds(current.Keys);
      AscendingMembers(current.Keys);
      for h := 0 to |handIds|
        invariant ribbons == Appended(start, HandsTrail(current, handIds, h), norm)
        invariant count == |HandsTrail(current, handIds, h)| && centroid == SumPositions(HandsTrail(current, handIds, h))
      {
        var added, sum := AddHandAt(current, handIds, h, norm, start);
        count := count + added;
        centroid := Add(centroid, sum);
      }
      assert HandsTrail(current, handIds, |handIds|) == FingerTrail(hands);
    }

    /** One pass of the hand loop: the fingers of hand `handIds[h]` extend the trail. */
    method AddHandAt(current: LeapSdk.HandMap, handIds: seq<Int32>, h: nat, norm: Vec3f -> real, ghost start: RibbonMap)
        returns (added: nat, sum: Vec3f)
      requires h < |handIds| && forall i :: 0 <= i < |handIds| ==> handIds[i] in current
      requires ribbons == Appended(start, HandsTrail(current, handIds, h), norm)
      modifies this`ribbons
      ensures ribbons == Appended(start, HandsTrail(current, handIds, h + 1), norm)
      ensures |HandsTrail(current, handIds, h + 1)| == |HandsTrail(current, handIds, h)| + added
      ensures SumPositions(HandsTrail(current, handIds, h + 1)) == Add(SumPositions(HandsTrail(current, handIds, h)), sum)
    {
      var fingers := current[handIds[h]].fingers;
      HandStep(start, current, handIds, h, norm);
      added, sum := AddHandPoints(fingers, norm);
    }

    /** The inner loop of `update` over one hand's fingers. */
    method AddHandPoints(fingers: LeapSdk.FingerMap, norm: Vec3f -> real) returns (added: nat, sum: Vec3f)
      modifies this`ribbons
      ensures ribbons == Appended(old(ribbons), FingerEntries(fingers), norm)
      ensures added == |FingerEntries(fingers)| && sum == SumPositions(FingerEntries(fingers))
    {
      added := 0;
      sum := Zero;
      var fingerIds := AscendingIds(fingers.Keys);
      AscendingMembers(fingers.Keys);
      for f := 0 to |fingerIds|
        invariant ribbons == Appended(old(ribbons), EntriesOf(fingers, fingerIds, f), norm)
        invariant added == f && sum == SumPositions(EntriesOf(fingers, fingerIds, f))
      {
        var id := fingerIds[f];
        var finger := fingers[id];
        FingerStep(old(ribbons), fingers, fingerIds, f, norm);
        var ribbon := if id in ribbons then ribbons[id] else RibbonState(id, [], []);
        var width := (finger.width + norm(finger.velocity)) * 0.01;
        ribbons := ribbons[id := WithPoint(ribbon, finger.position, width)];
        sum := Add(sum, finger.position);
        added := added + 1;
      }
    }

    /** The last loop of `update`: every ribbon, old or new, is updated once. */
    method AgeRibbons(normalize: Vec3f -> Vec3f)
      modifies this`ribbons
      ensures ribbons == AgeAll(old(ribbons), normalize)
    {
      var ids := AscendingIds(ribbons.Keys);
      AscendingMembers(ribbons.Keys);
      for i := 0 to |ids|
        invariant ribbons == AgedUpTo(old(ribbons), ids, i, normalize)
      {
        AgeStep(old(ribbons), ids, i, normalize);
        var id := ids[i];
        ribbons := ribbons[id := Updated(ribbons[id], normalize)];
      }
      AscendingStrict(old(ribbons).Keys);
      AscendingCovers(old(ribbons).Keys);
      AgedUpToAll(old(ribbons), ids, normalize);
    }
  }
}
