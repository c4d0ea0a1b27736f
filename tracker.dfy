/** The watch-list tracker: one pass over the records of a poll removes the
    ids of watched machines that are no longer in use and queues one
    "finished" notification for each. The watch list is a list, not a set:
    an id given twice stays watched until it has been seen idle twice, in
    one pass or in two. */
module Tracker {
  import opened Machines

  /** The watch list and the notifications sent so far, oldest first. */
  datatype TrackState = TrackState(ids: seq<string>, notices: seq<string>)

  /** The notification sent when a watched machine is seen idle. */
  function FinishedMessage(m: Machine): string
  {
    KindName(m.kind) + " " + m.id + " is now finished!"
  }

  /** The position of the first occurrence of `x`. */
  function IndexOf(s: seq<string>, x: string): (i: nat)
    requires x in s
    ensures i < |s| && s[i] == x
    ensures x !in s[..i]
  {
    if s[0] == x then 0
    else
      var j := IndexOf(s[1..], x);
      assert s[..j + 1] == [s[0]] + s[1..][..j];
      j + 1
  }

  /** `s.remove(x)` on a list holding `x`: only the first occurrence goes. */
  function RemoveFirst(s: seq<string>, x: string): (r: seq<string>)
    requires x in s
    ensures r == s[..IndexOf(s, x)] + s[IndexOf(s, x) + 1..]
    ensures |r| == |s| - 1
  {
    if s[0] == x then
      s[1..]
    else
      var j := IndexOf(s[1..], x);
      assert s[..j + 1] == [s[0]] + s[1..][..j];
      assert s[j + 2..] == s[1..][j + 1..];
      [s[0]] + RemoveFirst(s[1..], x)
  }

  /** Removing the first occurrence takes exactly one copy of `x` away. */
  lemma RemoveFirstCount(s: seq<string>, x: string)
    requires x in s
    ensures multiset(RemoveFirst(s, x)) == multiset(s) - multiset{x}
  {
    var i := IndexOf(s, x);
    assert s == s[..i] + [x] + s[i + 1..];
  }

  /** The tracker's reaction to one record. */
  function Observe(st: TrackState, m: Machine): TrackState
  {
    if m.id in st.ids && !m.inUse then
      TrackState(RemoveFirst(st.ids, m.id), st.notices + [FinishedMessage(m)])
    else
      st
  }

  /** A watched record that is no longer in use takes away one occurrence
      of its id, the first, and appends one notification; any other record
      changes nothing. */
  lemma ObserveEffect(st: TrackState, m: Machine)
    ensures m.id in st.ids && !m.inUse ==>
      && multiset(Observe(st, m).ids) == multiset(st.ids) - multiset{m.id}
      && Observe(st, m).ids == st.ids[..IndexOf(st.ids, m.id)] + st.ids[IndexOf(st.ids, m.id) + 1..]
      && Observe(st, m).notices == st.notices + [FinishedMessage(m)]
    ensures !(m.id in st.ids && !m.inUse) ==> Observe(st, m) == st
  {
    if m.id in st.ids && !m.inUse {
      RemoveFirstCount(st.ids, m.id);
    }
  }

  /** One pass over the records of a poll, in order. */
  function Track(st: TrackState, ms: seq<Machine>): TrackState
    decreases |ms|
  {
    if ms == [] then st
    else Observe(Track(st, ms[..|ms| - 1]), ms[|ms| - 1])
  }

  /** A pass only ever removes ids, and for every id it removes it appends
      exactly one notification after the ones already sent. */
  lemma {:induction false} TrackAccounts(st: TrackState, ms: seq<Machine>)
    ensures multiset(Track(st, ms).ids) <= multiset(st.ids)
    ensures st.notices <= Track(st, ms).notices
    ensures |Track(st, ms).notices| - |st.notices| == |st.ids| - |Track(st, ms).ids|
    decreases |ms|
  {
    if ms != [] {
      TrackAccounts(st, ms[..|ms| - 1]);
      ObserveEffect(Track(st, ms[..|ms| - 1]), ms[|ms| - 1]);
    }
  }

  /** An id that no record carries keeps all its occurrences. */
  lemma {:induction false} TrackKeepsUnseen(st: TrackState, ms: seq<Machine>, x: string)
    requires forall i :: 0 <= i < |ms| ==> ms[i].id != x
    ensures multiset(Track(st, ms).ids)[x] == multiset(st.ids)[x]
    decreases |ms|
  {
    if ms != [] {
      TrackKeepsUnseen(st, ms[..|ms| - 1], x);
      ObserveEffect(Track(st, ms[..|ms| - 1]), ms[|ms| - 1]);
    }
  }

  /** A poll in which every record is in use, or none is watched, changes
      nothing. */
  lemma {:induction false} TrackQuiet(st: TrackState, ms: seq<Machine>)
    requires forall i :: 0 <= i < |ms| ==> ms[i].inUse || ms[i].id !in st.ids
    ensures Track(st, ms) == st
    decreases |ms|
  {
    if ms != [] {
      TrackQuiet(st, ms[..|ms| - 1]);
      ObserveEffect(Track(st, ms[..|ms| - 1]), ms[|ms| - 1]);
    }
  }

  /** An id still in a list that only lost elements was in the original. */
  lemma StillWatched(x: string, now: seq<string>, before: seq<string>)
    requires multiset(now) <= multiset(before)
    requires x in now
    ensures x in before
  {
    assert x in multiset(now);
  }

  /** Every notification a pass appends announces a record of the poll that
      is not in use and whose id was watched when the pass began. */
  lemma {:induction false} TrackNoticesFromIdle(st: TrackState, ms: seq<Machine>, k: nat)
    requires |st.notices| <= k < |Track(st, ms).notices|
    ensures exists i :: 0 <= i < |ms| && !ms[i].inUse && ms[i].id in st.ids
                     && Track(st, ms).notices[k] == FinishedMessage(ms[i])
    decreases |ms|
  {
    assert ms != [];
    var last := |ms| - 1;
    var prev := Track(st, ms[..last]);
    var m := ms[last];
    var cur := Track(st, ms);
    assert cur == Observe(prev, m);
    ObserveEffect(prev, m);
    if k < |prev.notices| {
      TrackNoticesFromIdle(st, ms[..last], k);
      var i :| 0 <= i < last && !ms[..last][i].inUse && ms[..last][i].id in st.ids
               && prev.notices[k] == FinishedMessage(ms[..last][i]);
      assert cur.notices[k] == prev.notices[k];
      assert ms[..last][i] == ms[i];
    } else {
      assert m.id in prev.ids && !m.inUse;
      TrackAccounts(st, ms[..last]);
      StillWatched(m.id, prev.ids, st.ids);
      assert cur.notices == prev.notices + [FinishedMessage(m)];
      assert !ms[last].inUse && ms[last].id in st.ids && cur.notices[k] == FinishedMessage(ms[last]);
    }
  }

  /** The list removal the example below performs. */
  lemma RemoveMiddle()
    ensures RemoveFirst(["1", "2", "3"], "2") == ["1", "3"]
  {
    assert ["1", "2", "3"][1..] == ["2", "3"];
  }

  /** Extending a poll by one record adds one observation at the end. */
  lemma TrackSnoc(st: TrackState, ms: seq<Machine>, m: Machine)
    ensures Track(st, ms + [m]) == Observe(Track(st, ms), m)
  {
    assert (ms + [m])[..|ms|] == ms;
  }

  /** A machine watched once and seen idle: its id leaves the list and one
      notification goes out; the other watched machines, still in use, stay. */
  lemma OneOfThreeFinishes(m1: Machine, m2: Machine, m3: Machine)
    requires m1.id == "1" && m2.id == "2" && m3.id == "3"
    requires m1.inUse && !m2.inUse && m3.inUse
    ensures Track(TrackState(["1", "2", "3"], []), [m1, m2, m3])
         == TrackState(["1", "3"], [FinishedMessage(m2)])
  {
    var st := TrackState(["1", "2", "3"], []);
    var after := TrackState(["1", "3"], [FinishedMessage(m2)]);
    TrackSnoc(st, [], m1);
    assert [] + [m1] == [m1];
    assert Track(st, [m1]) == st;
    TrackSnoc(st, [m1], m2);
    assert [m1] + [m2] == [m1, m2];
    RemoveMiddle();
    assert Track(st, [m1, m2]) == after;
    TrackSnoc(st, [m1, m2], m3);
    assert [m1, m2] + [m3] == [m1, m2, m3];
  }

  /** The only watched id, seen idle, empties the watch list. */
  lemma LoneIdFinishes(m: Machine)
    requires !m.inUse
    ensures Track(TrackState([m.id], []), [m]) == TrackState([], [FinishedMessage(m)])
  {
    TrackSnoc(TrackState([m.id], []), [], m);
    assert [] + [m] == [m];
    assert RemoveFirst([m.id], m.id) == [];
  }

  /** An id given twice and seen idle once stays watched: each idle record
      removes one copy. */
  lemma DuplicateSeenOnceStays()
    ensures Track(TrackState(["1", "1"], []), [Machine(Washer, false, "Finished", "Machine 1", "1")])
         == TrackState(["1"], ["Washer 1 is now finished!"])
  {
    var m := Machine(Washer, false, "Finished", "Machine 1", "1");
    var st := TrackState(["1", "1"], []);
    TrackSnoc(st, [], m);
    assert [] + [m] == [m];
    assert RemoveFirst(st.ids, "1") == ["1"];
    assert FinishedMessage(m) == "Washer 1 is now finished!";
  }

  /** Two idle records for a duplicated id in one poll remove both copies. */
  lemma DuplicateSeenTwiceFinishes(m: Machine)
    requires !m.inUse
    ensures Track(TrackState([m.id, m.id], []), [m, m])
         == TrackState([], [FinishedMessage(m), FinishedMessage(m)])
  {
    var st := TrackState([m.id, m.id], []);
    TrackSnoc(st, [], m);
    assert [] + [m] == [m];
    assert RemoveFirst([m.id, m.id], m.id) == [m.id];
    TrackSnoc(st, [m], m);
    assert [m] + [m] == [m, m];
    assert RemoveFirst([m.id], m.id) == [];
  }
}
