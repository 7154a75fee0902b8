/** The per-object trail buffers and the tap selection of `SimCanvas`.

    Every drawing pass walks the frame's objects in order. An object seen for the
    first time gets an empty trail (and no trail is drawn for it); then, unless a
    selection is pending no more, the first object that the tap hits is selected;
    finally the object's trail drops its front entry if it is full or that entry is
    too old, and the object's current offset is appended with the frame counter.
    Screen offsets and the hit test are opaque: they are passed in as functions. */
module Trails {
  import opened Objects

  datatype Offset = Offset(x: real, y: real)

  const ZeroOffset := Offset(0.0, 0.0)

  /** An entry older than this many frames (four seconds at 60 frames) is evicted. */
  const TrailLifetime: int := 60 * 4

  /** A trail point: the object's offset and the frame counter when it was recorded. */
  datatype Entry = Entry(offset: Offset, stamp: int)

  datatype Option<T> = None | Some(value: T)

  /** The eviction condition of one trail update. */
  predicate Evicts(q: seq<Entry>, frames: int, maxHistory: int)
  {
    |q| >= maxHistory || (|q| > 0 && frames - q[0].stamp >= TrailLifetime)
  }

  /** Stamps do not decrease from front to back and none is later than `frames`. */
  predicate Ordered(q: seq<Entry>, frames: int)
  {
    && (forall i, j :: 0 <= i < j < |q| ==> q[i].stamp <= q[j].stamp)
    && (forall i :: 0 <= i < |q| ==> q[i].stamp <= frames)
  }

  /** One trail update: evict the front entry if needed, then append. `None` is the
      `NoSuchElementException` of `removeFirst` on an empty trail, which happens
      exactly when `maxHistory <= 0` and the trail is empty. */
  function UpdateTrail(q: seq<Entry>, offset: Offset, frames: int, maxHistory: int): (r: Option<seq<Entry>>)
    ensures r.None? <==> q == [] && maxHistory <= 0
    ensures r.Some? ==> |r.value| > 0 && r.value[|r.value| - 1] == Entry(offset, frames)
    ensures r.Some? ==> |q| <= |r.value| <= |q| + 1
    ensures r.Some? ==> (|r.value| == |q| <==> Evicts(q, frames, maxHistory))
  {
    if Evicts(q, frames, maxHistory) then
      if q == [] then None else Some(q[1..] + [Entry(offset, frames)])
    else
      Some(q + [Entry(offset, frames)])
  }

  /** An update removes entries only from the front: what precedes the new entry is
      what remains of the old trail after dropping `|q| + 1 - |r|` entries (0 or 1). */
  lemma UpdateTrailKeepsRest(q: seq<Entry>, offset: Offset, frames: int, maxHistory: int)
    requires UpdateTrail(q, offset, frames, maxHistory).Some?
    ensures var r := UpdateTrail(q, offset, frames, maxHistory).value;
      r[..|r| - 1] == q[|q| + 1 - |r|..]
  {
  }

  /** A trail within `maxHistory` entries stays within it. */
  lemma UpdateTrailBounded(q: seq<Entry>, offset: Offset, frames: int, maxHistory: int)
    requires 1 <= maxHistory && |q| <= maxHistory
    ensures UpdateTrail(q, offset, frames, maxHistory).Some?
    ensures |UpdateTrail(q, offset, frames, maxHistory).value| <= maxHistory
  {
  }

  /** An ordered trail stays ordered. */
  lemma UpdateTrailOrdered(q: seq<Entry>, offset: Offset, frames: int, maxHistory: int)
    requires maxHistory >= 1 && Ordered(q, frames)
    ensures Ordered(UpdateTrail(q, offset, frames, maxHistory).value, frames)
  {
    var e := Entry(offset, frames);
    if Evicts(q, frames, maxHistory) {
      if q != [] {
        var kept := q[1..];
        assert UpdateTrail(q, offset, frames, maxHistory).value == kept + [e];
        assert forall i :: 0 <= i < |kept| ==> kept[i] == q[i + 1];
      }
    } else {
      assert UpdateTrail(q, offset, frames, maxHistory).value == q + [e];
    }
  }

  /** The trail update of one object in a map of trails; a new object starts empty. */
  function Record(hist: map<SimObject, seq<Entry>>, o: SimObject, offset: Offset,
                  frames: int, maxHistory: int): map<SimObject, seq<Entry>>
    requires maxHistory >= 1
  {
    var q := if o in hist then hist[o] else [];
    hist[o := UpdateTrail(q, offset, frames, maxHistory).value]
  }

  /** Recording gives `o` a trail ending in the new entry and leaves every other trail. */
  lemma RecordEffect(hist: map<SimObject, seq<Entry>>, o: SimObject, offset: Offset,
                     frames: int, maxHistory: int)
    requires maxHistory >= 1
    ensures var r := Record(hist, o, offset, frames, maxHistory);
      && r.Keys == hist.Keys + {o}
      && (forall p :: p in hist && p != o ==> r[p] == hist[p])
      && |r[o]| > 0 && r[o][|r[o]| - 1] == Entry(offset, frames)
  {
  }

  /** The trails after updating the first `n` objects of `frame`, in order, starting from `h`. */
  function Histories(h: map<SimObject, seq<Entry>>, frame: seq<SimObject>, n: nat,
                     offsetOf: SimObject -> Offset, frames: int, maxHistory: int): map<SimObject, seq<Entry>>
    requires n <= |frame| && maxHistory >= 1
  {
    if n == 0 then h
    else Record(Histories(h, frame, n - 1, offsetOf, frames, maxHistory), frame[n - 1],
                offsetOf(frame[n - 1]), frames, maxHistory)
  }

  /** The position of the first of the first `n` objects of `s` that the tap hits. */
  function FirstHit(s: seq<SimObject>, n: nat, hit: SimObject -> bool): (r: Option<nat>)
    requires n <= |s|
    ensures r.Some? ==> r.value < n && hit(s[r.value]) && forall k :: 0 <= k < r.value ==> !hit(s[k])
    ensures r.None? ==> forall k :: 0 <= k < n ==> !hit(s[k])
  {
    if n == 0 then None
    else
      var p := FirstHit(s, n - 1, hit);
      if p.Some? then p else if hit(s[n - 1]) then Some(n - 1) else None
  }

  // ---------------------------------------------------------------------------
  // Properties of a pass

  /** After a pass exactly the objects seen before or in this frame have a trail. */
  lemma {:induction false} HistoriesKeys(h: map<SimObject, seq<Entry>>, frame: seq<SimObject>, n: nat,
                                         offsetOf: SimObject -> Offset, frames: int, maxHistory: int)
    requires n <= |frame| && maxHistory >= 1
    ensures forall o :: o in Histories(h, frame, n, offsetOf, frames, maxHistory) <==> o in h || o in frame[..n]
  {
    if n > 0 {
      HistoriesKeys(h, frame, n - 1, offsetOf, frames, maxHistory);
      assert frame[..n] == frame[..n - 1] + [frame[n - 1]];
    }
  }

  /** Trails of objects outside the frame are left as they were. */
  lemma {:induction false} HistoriesOutsideFrame(h: map<SimObject, seq<Entry>>, frame: seq<SimObject>, n: nat,
                                                 offsetOf: SimObject -> Offset, frames: int, maxHistory: int,
                                                 o: SimObject)
    requires n <= |frame| && maxHistory >= 1 && o in h && o !in frame[..n]
    ensures o in Histories(h, frame, n, offsetOf, frames, maxHistory)
    ensures Histories(h, frame, n, offsetOf, frames, maxHistory)[o] == h[o]
  {
    if n > 0 {
      assert frame[n - 1] == frame[..n][n - 1];
      assert frame[..n - 1] == frame[..n][..n - 1];
      HistoriesOutsideFrame(h, frame, n - 1, offsetOf, frames, maxHistory, o);
    }
  }

  /** Every object of the frame ends its trail with its offset of this pass. */
  lemma {:induction false} HistoriesLastEntry(h: map<SimObject, seq<Entry>>, frame: seq<SimObject>, n: nat,
                                              offsetOf: SimObject -> Offset, frames: int, maxHistory: int,
                                              i: nat)
    requires n <= |frame| && maxHistory >= 1 && i < n
    ensures frame[i] in Histories(h, frame, n, offsetOf, frames, maxHistory)
    ensures var q := Histories(h, frame, n, offsetOf, frames, maxHistory)[frame[i]];
      |q| > 0 && q[|q| - 1] == Entry(offsetOf(frame[i]), frames)
  {
    if i < n - 1 && frame[i] != frame[n - 1] {
      HistoriesLastEntry(h, frame, n - 1, offsetOf, frames, maxHistory, i);
    }
  }

  /** No trail grows beyond `maxHistory` entries. */
  lemma {:induction false} HistoriesBounded(h: map<SimObject, seq<Entry>>, frame: seq<SimObject>, n: nat,
                                            offsetOf: SimObject -> Offset, frames: int, maxHistory: int)
    requires n <= |frame| && maxHistory >= 1
    requires forall o :: o in h ==> |h[o]| <= maxHistory
    ensures forall o :: o in Histories(h, frame, n, offsetOf, frames, maxHistory) ==>
      |Histories(h, frame, n, offsetOf, frames, maxHistory)[o]| <= maxHistory
  {
    if n > 0 {
      var o := frame[n - 1];
      var before := Histories(h, frame, n - 1, offsetOf, frames, maxHistory);
      HistoriesBounded(h, frame, n - 1, offsetOf, frames, maxHistory);
      var q := if o in before then before[o] else [];
      UpdateTrailBounded(q, offsetOf(o), frames, maxHistory);
      var after := Record(before, o, offsetOf(o), frames, maxHistory);
      forall p | p in after
        ensures |after[p]| <= maxHistory
      {
        if p != o {
          assert after[p] == before[p];
        }
      }
    }
  }

  /** If no stamp is later than the frame counter of this pass (the counter does
      not go back between passes), stamps stay ordered in every trail. */
  lemma {:induction false} HistoriesOrdered(h: map<SimObject, seq<Entry>>, frame: seq<SimObject>, n: nat,
                                            offsetOf: SimObject -> Offset, frames: int, maxHistory: int)
    requires n <= |frame| && maxHistory >= 1
    requires forall o :: o in h ==> Ordered(h[o], frames)
    ensures forall o :: o in Histories(h, frame, n, offsetOf, frames, maxHistory) ==>
      Ordered(Histories(h, frame, n, offsetOf, frames, maxHistory)[o], frames)
  {
    if n > 0 {
      var o := frame[n - 1];
      var before := Histories(h, frame, n - 1, offsetOf, frames, maxHistory);
      HistoriesOrdered(h, frame, n - 1, offsetOf, frames, maxHistory);
      var q := if o in before then before[o] else [];
      UpdateTrailOrdered(q, offsetOf(o), frames, maxHistory);
      var after := Record(before, o, offsetOf(o), frames, maxHistory);
      forall p | p in after
        ensures Ordered(after[p], frames)
      {
        if p != o {
          assert after[p] == before[p];
        }
      }
    }
  }

  /** Stamps ordered up to one frame counter are ordered up to any later one. */
  lemma OrderedLater(q: seq<Entry>, frames: int, later: int)
    requires Ordered(q, frames) && frames <= later
    ensures Ordered(q, later)
  {
  }

  /** An object met for the first time, once in the frame, ends the pass with its
      current offset as its only trail entry. */
  lemma {:induction false} HistoriesFirstSeen(h: map<SimObject, seq<Entry>>, frame: seq<SimObject>, n: nat,
                                              offsetOf: SimObject -> Offset, frames: int, maxHistory: int,
                                              i: nat)
    requires n <= |frame| && maxHistory >= 1 && i < n
    requires frame[i] !in h
    requires forall k :: 0 <= k < n && k != i ==> frame[k] != frame[i]
    ensures frame[i] in Histories(h, frame, n, offsetOf, frames, maxHistory)
    ensures Histories(h, frame, n, offsetOf, frames, maxHistory)[frame[i]] == [Entry(offsetOf(frame[i]), frames)]
  {
    var o := frame[i];
    var before := Histories(h, frame, n - 1, offsetOf, frames, maxHistory);
    if i == n - 1 {
      assert o !in before by {
        HistoriesKeys(h, frame, n - 1, offsetOf, frames, maxHistory);
        assert o !in frame[..n - 1];
      }
      assert Histories(h, frame, n, offsetOf, frames, maxHistory)[o]
          == UpdateTrail([], offsetOf(o), frames, maxHistory).value;
    } else {
      HistoriesFirstSeen(h, frame, n - 1, offsetOf, frames, maxHistory, i);
      assert frame[n - 1] != o;
    }
  }

  /** The drawing state the passes share: the trails, the selected object, the
      pending-selection flag and the fields of `SimCanvasState` the selection sets. */
  class CanvasState {
    var history: map<SimObject, seq<Entry>>
    var selectedObj: Lookup
    var selectedUndone: bool
    var hasSelectedObj: bool
    var selectPointOffset: Offset

    constructor ()
      ensures history == map[] && selectedObj == Void && !selectedUndone
      ensures !hasSelectedObj && selectPointOffset == ZeroOffset
    {
      history := map[];
      selectedObj := Void;
      selectedUndone := false;
      hasSelectedObj := false;
      selectPointOffset := ZeroOffset;
    }

    /** A press on the canvas: remember where, and ask the next pass to select. */
    method Press(p: Offset)
      modifies this
      ensures selectPointOffset == p && selectedUndone
      ensures history == old(history) && selectedObj == old(selectedObj)
      ensures hasSelectedObj == old(hasSelectedObj)
    {
      selectPointOffset := p;
      selectedUndone := true;
    }

    /** The body of the pass for one object `o`: give a new object an empty trail
        (its trail is drawn only if it had one), select it if a selection is pending
        and the tap hits it, then evict the front entry of a full or outdated trail
        and append the current offset. */
    method Visit(o: SimObject, offset: Offset, frames: int, maxHistory: int, hits: bool) returns (drawn: bool)
      requires maxHistory >= 1
      modifies this
      ensures drawn <==> o in old(history)
      ensures history == Record(old(history), o, offset, frames, maxHistory)
      ensures old(selectedUndone) && hits ==> !selectedUndone && selectedObj == Found(o) && hasSelectedObj
      ensures !(old(selectedUndone) && hits) ==>
        selectedUndone == old(selectedUndone) && selectedObj == old(selectedObj) && hasSelectedObj == old(hasSelectedObj)
      ensures selectPointOffset == old(selectPointOffset)
    {
      if o !in history {
        history := history[o := []];
        drawn := false;
      } else {
        drawn := true;
      }
      if selectedUndone && hits {
        selectedObj := Found(o);
        selectedUndone := false;
        hasSelectedObj := true;
      }
      var q := history[o];
      if Evicts(q, frames, maxHistory) {
        q := q[1..];
      }
      history := history[o := q + [Entry(offset, frames)]];
    }

    /** One drawing pass over `frame`. `drawn[i]` says whether a trail was drawn for
        `frame[i]`; `offsetOf` gives an object's offset and `hit` the tap test. */
    method DrawFrame(frame: seq<SimObject>, frames: int, maxHistory: int,
                     offsetOf: SimObject -> Offset, hit: SimObject -> bool) returns (drawn: seq<bool>)
      requires maxHistory >= 1
      modifies this
      ensures history == Histories(old(history), frame, |frame|, offsetOf, frames, maxHistory)
      ensures |drawn| == |frame|
      ensures forall i :: 0 <= i < |frame| ==> (drawn[i] <==> frame[i] in old(history) || frame[i] in frame[..i])
      ensures old(selectedUndone) && FirstHit(frame, |frame|, hit).Some? ==>
        selectedObj == Found(frame[FirstHit(frame, |frame|, hit).value]) && hasSelectedObj
      ensures !(old(selectedUndone) && FirstHit(frame, |frame|, hit).Some?) ==>
        selectedObj == old(selectedObj) && hasSelectedObj == old(hasSelectedObj)
      ensures !selectedUndone && selectPointOffset == ZeroOffset
    {
      drawn := [];
      var i := 0;
      while i < |frame|
        invariant 0 <= i <= |frame|
        invariant history == Histories(old(history), frame, i, offsetOf, frames, maxHistory)
        invariant |drawn| == i
        invariant forall k :: 0 <= k < i ==> (drawn[k] <==> frame[k] in old(history) || frame[k] in frame[..k])
        invariant old(selectedUndone) && FirstHit(frame, i, hit).Some? ==>
          !selectedUndone && selectedObj == Found(frame[FirstHit(frame, i, hit).value]) && hasSelectedObj
        invariant !(old(selectedUndone) && FirstHit(frame, i, hit).Some?) ==>
          selectedUndone == old(selectedUndone) && selectedObj == old(selectedObj)
          && hasSelectedObj == old(hasSelectedObj)
      {
        var o := frame[i];
        assert o in history <==> o in old(history) || o in frame[..i] by {
          HistoriesKeys(old(history), frame, i, offsetOf, frames, maxHistory);
        }
        var d := Visit(o, offsetOf(o), frames, maxHistory, hit(o));
        drawn := drawn + [d];
        i := i + 1;
      }
      selectedUndone := false;
      selectPointOffset := ZeroOffset;
    }
  }
}
