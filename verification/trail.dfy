/** The orbit trail a `PlanetWidget` keeps: after every tick one snapshot is
    appended and, once there are more than 400, the oldest is dropped. */
module Trail {

  /** The most entries a trail keeps. */
  const TRAIL_LENGTH: nat := 400

  /** The newest `n` entries of `s`, in their original order. */
  function Newest<T>(s: seq<T>, n: nat): (r: seq<T>)
    ensures |r| == if |s| <= n then |s| else n
    ensures forall k :: 0 <= k < |r| ==> r[k] == s[|s| - |r| + k]
  {
    if |s| <= n then s else s[|s| - n..]
  }

  /** The tail of `update_pos`: `trail.append(save)`, then `trail.pop(0)` if
      the trail has grown past `TRAIL_LENGTH`. */
  function Record<T>(trail: seq<T>, save: T): (r: seq<T>)
    ensures |trail| <= TRAIL_LENGTH ==> r == Newest(trail + [save], TRAIL_LENGTH)
    ensures |trail| >= TRAIL_LENGTH ==> r == trail[1..] + [save]
    ensures |trail| <= TRAIL_LENGTH ==> |r| <= TRAIL_LENGTH
  {
    var t := trail + [save];
    if |t| > TRAIL_LENGTH then t[1..] else t
  }

  /** One `Record` per snapshot of `saves`, oldest first. */
  function RecordAll<T>(trail: seq<T>, saves: seq<T>): (r: seq<T>)
    decreases |saves|
  {
    if |saves| == 0 then trail
    else Record(RecordAll(trail, saves[..|saves| - 1]), saves[|saves| - 1])
  }

  /** Keeping the newest `n` and then appending is appending and then keeping
      the newest `n`, as long as `n` is positive. */
  lemma NewestThenAppend<T>(s: seq<T>, e: T, n: nat)
    requires n > 0
    ensures Newest(Newest(s, n) + [e], n) == Newest(s + [e], n)
  {
    var a := Newest(Newest(s, n) + [e], n);
    var b := Newest(s + [e], n);
    assert |a| == |b|;
    forall k | 0 <= k < |a|
      ensures a[k] == b[k]
    {
      if k == |a| - 1 {
        assert a[k] == e;
      }
    }
  }

  /** However many snapshots are recorded, a trail that starts within its
      bound keeps exactly the newest `TRAIL_LENGTH` entries of everything it
      has seen, in order, and so never exceeds the bound. */
  lemma {:induction false} RecordAllKeepsNewest<T>(trail: seq<T>, saves: seq<T>)
    requires |trail| <= TRAIL_LENGTH
    ensures RecordAll(trail, saves) == Newest(trail + saves, TRAIL_LENGTH)
    ensures |RecordAll(trail, saves)| <= TRAIL_LENGTH
    decreases |saves|
  {
    if |saves| == 0 {
      assert trail + saves == trail;
    } else {
      var init := saves[..|saves| - 1];
      var e := saves[|saves| - 1];
      RecordAllKeepsNewest(trail, init);
      NewestThenAppend(trail + init, e, TRAIL_LENGTH);
      assert trail + init + [e] == trail + saves;
    }
  }

}
