/** The sidebar's session reconciler and the per-image `classified_<name>` flags. */
module Reconcile {
  import opened Wrappers
  import opened Images

  /** Flags keyed by image name; the name `n` stands for the session key
      `classified_<n>`. */
  type Flags = map<string, bool>

  /** One pass of `for img in stored: if img not in current: ...; stored.remove(img)`
      from index i onward. Python's list iterator reads `stored[i]` and then advances
      i by one, whether or not the body removed an element, so after a removal the
      element that slid into the current slot is never looked at on this pass.
      Returns the final stored list and flags. */
  function Sweep(stored: seq<Image>, i: nat, current: seq<Image>, flags: Flags): (r: (seq<Image>, Flags))
    ensures |r.0| <= |stored|
    ensures flags.Keys <= r.1.Keys
    decreases |stored| - i
  {
    if i >= |stored| then (stored, flags)
    else if stored[i] in current then Sweep(stored, i + 1, current, flags)
    else Sweep(RemoveFirst(stored, stored[i]), i + 1, current, flags[stored[i].name := false])
  }

  /** Names of the images the pass took out of `before` to get `after`. */
  function RemovedNames(before: seq<Image>, after: seq<Image>): set<string> {
    set x | x in before && multiset(after)[x] < multiset(before)[x] :: x.name
  }

  /** `flags` with every name in `names` written `False` and nothing else touched. */
  function ClearFlags(flags: Flags, names: set<string>): (r: Flags)
    ensures r.Keys == flags.Keys + names
    ensures forall n :: n in names ==> r[n] == false
    ensures forall n :: n in flags && n !in names ==> r[n] == flags[n]
  {
    map n | n in flags.Keys + names :: if n in names then false else flags[n]
  }

  /** The pass removes only absent images: the stored list loses elements
      (counted with multiplicity) but never an element of the current list. */
  lemma {:induction false} SweepRemovesOnlyAbsent(stored: seq<Image>, i: nat, current: seq<Image>, flags: Flags)
    ensures multiset(Sweep(stored, i, current, flags).0) <= multiset(stored)
    ensures forall x :: x in current ==> multiset(Sweep(stored, i, current, flags).0)[x] == multiset(stored)[x]
    decreases |stored| - i
  {
    if i < |stored| {
      if stored[i] in current {
        SweepRemovesOnlyAbsent(stored, i + 1, current, flags);
      } else {
        SweepRemovesOnlyAbsent(RemoveFirst(stored, stored[i]), i + 1, current, flags[stored[i].name := false]);
        RemoveAbsent(stored, stored[i], current);
      }
    }
  }

  /** Removing an absent image loses one copy of it and no copy of a present one. */
  lemma RemoveAbsent(stored: seq<Image>, y: Image, current: seq<Image>)
    requires y in stored && y !in current
    ensures multiset(RemoveFirst(stored, y)) <= multiset(stored)
    ensures forall x :: x in current ==> multiset(RemoveFirst(stored, y))[x] == multiset(stored)[x]
  {
    forall x | x in current ensures multiset(RemoveFirst(stored, y))[x] == multiset(stored)[x] {
      assert x != y;
    }
  }

  /** The pass never adds: its result is an order-preserving subsequence of the
      stored list, hence no longer. */
  lemma {:induction false} SweepIsSubsequence(stored: seq<Image>, i: nat, current: seq<Image>, flags: Flags)
    ensures SubseqOf(Sweep(stored, i, current, flags).0, stored)
    ensures |Sweep(stored, i, current, flags).0| <= |stored|
    decreases |stored| - i
  {
    var r := Sweep(stored, i, current, flags).0;
    if i >= |stored| {
      SubseqRefl(stored);
    } else if stored[i] in current {
      SweepIsSubsequence(stored, i + 1, current, flags);
    } else {
      var s' := RemoveFirst(stored, stored[i]);
      SweepIsSubsequence(s', i + 1, current, flags[stored[i].name := false]);
      RemoveFirstIsSubseq(stored, stored[i]);
      SubseqTrans(r, s', stored);
    }
  }

  /** Every removed image has its flag written `False`; no other flag is written. */
  lemma {:induction false} SweepFlags(stored: seq<Image>, i: nat, current: seq<Image>, flags: Flags)
    ensures Sweep(stored, i, current, flags).1
         == ClearFlags(flags, RemovedNames(stored, Sweep(stored, i, current, flags).0))
    decreases |stored| - i
  {
    var (r, f) := Sweep(stored, i, current, flags);
    if i >= |stored| {
      assert RemovedNames(stored, r) == {};
    } else if stored[i] in current {
      SweepFlags(stored, i + 1, current, flags);
    } else {
      var y := stored[i];
      var s' := RemoveFirst(stored, y);
      var flags' := flags[y.name := false];
      SweepFlags(s', i + 1, current, flags');
      SweepRemovesOnlyAbsent(s', i + 1, current, flags');
      RemovedNamesStep(stored, y, r);
      ClearFlagsStep(flags, y.name, RemovedNames(s', r));
    }
  }

  /** Taking one more copy of y out first adds exactly y's name to the removed names. */
  lemma RemovedNamesStep(stored: seq<Image>, y: Image, r: seq<Image>)
    requires y in stored && multiset(r) <= multiset(RemoveFirst(stored, y))
    ensures RemovedNames(stored, r) == {y.name} + RemovedNames(RemoveFirst(stored, y), r)
  {
    var s' := RemoveFirst(stored, y);
    forall x | x in stored && multiset(r)[x] < multiset(stored)[x]
      ensures x.name in {y.name} + RemovedNames(s', r)
    {
      if x != y {
        assert multiset(s')[x] == multiset(stored)[x];
        assert x in multiset(s');
      }
    }
    assert multiset(r)[y] <= multiset(s')[y] < multiset(stored)[y];
    forall x | x in s' && multiset(r)[x] < multiset(s')[x]
      ensures x.name in RemovedNames(stored, r)
    {
      assert multiset(s')[x] <= multiset(stored)[x];
      assert x in multiset(stored);
    }
  }

  /** Writing `False` under one name and then clearing a set is clearing the union. */
  lemma ClearFlagsStep(flags: Flags, n: string, names: set<string>)
    ensures ClearFlags(flags[n := false], names) == ClearFlags(flags, {n} + names)
  {
  }

  /** When every stored image is still present the pass changes nothing. */
  lemma {:induction false} SweepAllPresent(stored: seq<Image>, i: nat, current: seq<Image>, flags: Flags)
    requires forall x :: x in stored ==> x in current
    ensures Sweep(stored, i, current, flags) == (stored, flags)
    decreases |stored| - i
  {
    if i < |stored| {
      SweepAllPresent(stored, i + 1, current, flags);
    }
  }

  /** An image that does not occur from slot i on is never visited by the pass
      from i, so it keeps every copy it had. */
  lemma {:induction false} SweepKeepsPassed(stored: seq<Image>, i: nat, x: Image, current: seq<Image>, flags: Flags)
    requires forall k :: i <= k < |stored| ==> stored[k] != x
    ensures multiset(Sweep(stored, i, current, flags).0)[x] == multiset(stored)[x]
    decreases |stored| - i
  {
    if i < |stored| {
      if stored[i] in current {
        SweepKeepsPassed(stored, i + 1, x, current, flags);
      } else {
        PassedAfterRemoval(stored, i, x);
        SweepKeepsPassed(RemoveFirst(stored, stored[i]), i + 1, x, current, flags[stored[i].name := false]);
      }
    }
  }

  /** Removing the image visited at slot i keeps every copy of an image x that
      does not occur from slot i on, and x still does not occur from slot i + 1 on. */
  lemma PassedAfterRemoval(stored: seq<Image>, i: nat, x: Image)
    requires i < |stored|
    requires forall k :: i <= k < |stored| ==> stored[k] != x
    ensures multiset(RemoveFirst(stored, stored[i]))[x] == multiset(stored)[x]
    ensures forall k :: i + 1 <= k < |RemoveFirst(stored, stored[i])| ==>
              RemoveFirst(stored, stored[i])[k] != x
  {
    var y := stored[i];
    var s' := RemoveFirst(stored, y);
    assert y != x;
    forall k | i + 1 <= k < |s'| ensures s'[k] != x {
      RemoveFirstShift(stored, y, k);
    }
  }

  /** The skip: when the image visited at index i is removed, the image right
      after it shifts into slot i and is never visited, so it stays in the
      stored list even when it is absent from the current list too. */
  lemma SweepSkipsFollower(stored: seq<Image>, i: nat, current: seq<Image>, flags: Flags)
    requires NoDup(stored) && i + 1 < |stored|
    requires stored[i] !in current && stored[i + 1] !in current
    ensures stored[i] !in Sweep(stored, i, current, flags).0
    ensures stored[i + 1] in Sweep(stored, i, current, flags).0
  {
    var s' := RemoveFirst(stored, stored[i]);
    var flags' := flags[stored[i].name := false];
    RemoveFirstNoDup(stored, i);
    assert s'[i] == stored[i + 1];
    SweepKeepsPassed(s', i + 1, stored[i + 1], current, flags');
    SweepRemovesOnlyAbsent(s', i + 1, current, flags');
    assert multiset(s')[stored[i]] == 0;
  }

  /** The pass does evict: an absent image it visits at slot i loses a copy, and
      its flag reads `False` afterwards. */
  lemma SweepRemovesVisited(stored: seq<Image>, i: nat, current: seq<Image>, flags: Flags)
    requires i < |stored| && stored[i] !in current
    ensures multiset(Sweep(stored, i, current, flags).0)[stored[i]] < multiset(stored)[stored[i]]
    ensures stored[i].name in Sweep(stored, i, current, flags).1
    ensures Sweep(stored, i, current, flags).1[stored[i].name] == false
  {
    var y := stored[i];
    var s' := RemoveFirst(stored, y);
    var r := Sweep(stored, i, current, flags).0;
    SweepRemovesOnlyAbsent(s', i + 1, current, flags[y.name := false]);
    assert multiset(r)[y] <= multiset(s')[y] < multiset(stored)[y];
    SweepFlags(stored, i, current, flags);
    assert y.name in RemovedNames(stored, r);
  }

  /** One upload leaves the inputs: when the image at slot j is the only absent
      one in a list without duplicates, the pass removes exactly that slot and
      writes only its flag, as `False`. */
  lemma {:induction false} SweepRemovesSingle(stored: seq<Image>, i: nat, j: nat, current: seq<Image>, flags: Flags)
    requires NoDup(stored) && i <= j < |stored|
    requires stored[j] !in current
    requires forall k :: 0 <= k < |stored| && k != j ==> stored[k] in current
    ensures Sweep(stored, i, current, flags) == (stored[..j] + stored[j + 1..], flags[stored[j].name := false])
    decreases j - i
  {
    if i < j {
      assert stored[i] in current;
      SweepRemovesSingle(stored, i + 1, j, current, flags);
    } else {
      RemoveFirstNoDup(stored, j);
      var s' := stored[..j] + stored[j + 1..];
      forall x | x in s' ensures x in current {
        var k :| 0 <= k < |s'| && s'[k] == x;
        assert s'[k] == stored[if k < j then k else k + 1];
      }
      SweepAllPresent(s', j + 1, current, flags[stored[j].name := false]);
    }
  }

  /** Reference for what one pass keeps of a list without duplicates: a present
      image is kept; an absent one is dropped, and the image after it takes its
      slot unvisited, so it is kept whatever it is. In a run of absent images
      the first, third, ... are dropped and the second, fourth, ... kept. */
  function Survivors(s: seq<Image>, current: seq<Image>): (r: seq<Image>)
    ensures |r| <= |s|
    ensures forall x :: x in r ==> x in s
    decreases |s|
  {
    if s == [] then []
    else if s[0] in current then [s[0]] + Survivors(s[1..], current)
    else if |s| == 1 then []
    else [s[1]] + Survivors(s[2..], current)
  }

  /** On a list without duplicates, the pass from slot i keeps the visited
      prefix and leaves exactly the `Survivors` of the rest. */
  lemma {:induction false} SweepKeepsSurvivors(stored: seq<Image>, i: nat, current: seq<Image>, flags: Flags)
    requires NoDup(stored) && i <= |stored|
    ensures Sweep(stored, i, current, flags).0 == stored[..i] + Survivors(stored[i..], current)
    decreases |stored| - i
  {
    if i == |stored| {
      assert stored[i..] == [];
      assert stored[..i] == stored;
    } else if stored[i] in current {
      SweepKeepsSurvivors(stored, i + 1, current, flags);
      SurvivorsKeep(stored, i, current);
    } else {
      var s' := RemoveFirst(stored, stored[i]);
      var flags' := flags[stored[i].name := false];
      assert Sweep(stored, i, current, flags) == Sweep(s', i + 1, current, flags');
      RemoveFirstNoDup(stored, i);
      DropSlices(stored, i, current);
      if i + 1 < |stored| {
        SweepKeepsSurvivors(s', i + 1, current, flags');
      }
    }
  }

  /** A present image at slot i is kept in front of the survivors of the rest. */
  lemma SurvivorsKeep(stored: seq<Image>, i: nat, current: seq<Image>)
    requires i < |stored| && stored[i] in current
    ensures stored[..i] + Survivors(stored[i..], current)
         == stored[..i + 1] + Survivors(stored[i + 1..], current)
  {
    var t := stored[i..];
    assert t[0] == stored[i] && t[1..] == stored[i + 1..];
    assert stored[..i + 1] == stored[..i] + [stored[i]];
  }

  /** Deleting the absent image at slot i: the follower moves into slot i, and
      the survivors line up with what the pass from slot i + 1 sees. */
  lemma DropSlices(stored: seq<Image>, i: nat, current: seq<Image>)
    requires i < |stored| && stored[i] !in current
    ensures i + 1 == |stored| ==>
              stored[..i] + stored[i + 1..] == stored[..i] + Survivors(stored[i..], current)
    ensures i + 1 < |stored| ==>
              (stored[..i] + stored[i + 1..])[..i + 1] + Survivors((stored[..i] + stored[i + 1..])[i + 1..], current)
              == stored[..i] + Survivors(stored[i..], current)
  {
    SurvivorsDrop(stored, i, current);
    if i + 1 < |stored| {
      DeleteAtSlices(stored, i);
    } else {
      assert stored[i + 1..] == [];
    }
  }

  /** An absent image at slot i is dropped and its follower kept unvisited. */
  lemma SurvivorsDrop(stored: seq<Image>, i: nat, current: seq<Image>)
    requires i < |stored| && stored[i] !in current
    ensures i + 1 == |stored| ==> Survivors(stored[i..], current) == []
    ensures i + 1 < |stored| ==>
              Survivors(stored[i..], current) == [stored[i + 1]] + Survivors(stored[i + 2..], current)
  {
    var t := stored[i..];
    assert t[0] == stored[i];
    if i + 1 < |stored| {
      assert t[1] == stored[i + 1] && t[2..] == stored[i + 2..];
    }
  }

  /** After deleting slot i, the first i + 1 slots are the old prefix and the
      old follower, and the rest starts two slots further on. */
  lemma DeleteAtSlices(stored: seq<Image>, i: nat)
    requires i + 1 < |stored|
    ensures (stored[..i] + stored[i + 1..])[..i + 1] == stored[..i] + [stored[i + 1]]
    ensures (stored[..i] + stored[i + 1..])[i + 1..] == stored[i + 2..]
  {
  }

  /** Two uploads a.jpg, b.jpg are both gone from the inputs: one pass
      evicts a.jpg only, and writes only a.jpg's flag. */
  lemma TwoRemovedLeavesSecond()
    ensures var a, b := Image(1, "a.jpg"), Image(2, "b.jpg");
            Sweep([a, b], 0, [], map[]) == ([b], map["a.jpg" := false])
  {
    var a, b := Image(1, "a.jpg"), Image(2, "b.jpg");
    assert RemoveFirst([a, b], a) == [b];
  }

  /** The session state the sidebar code reads and writes: the remembered
      list under "uploaded_images" (None while the key is unset) and the
      `classified_<name>` flags. */
  class Session {
    var stored: Option<seq<Image>>
    var flags: Flags

    /** A fresh session: no remembered list, no flags. */
    constructor ()
      ensures stored == None && flags == map[]
    {
      stored := None;
      flags := map[];
    }

    /** `st.session_state.get(f"classified_{name}")` is truthy. */
    predicate IsClassified(name: string)
      reads this
      ensures name !in flags ==> !IsClassified(name)
      ensures name in flags ==> (IsClassified(name) <==> flags[name])
    {
      name in flags && flags[name]
    }

    /** The button callback: writes `True` under the image's key and nothing else. */
    method SetClassified(name: string)
      modifies this
      ensures flags == old(flags)[name := true]
      ensures stored == old(stored)
      ensures IsClassified(name)
    {
      flags := flags[name := true];
    }

    /** The reconciler run on every rerun with this pass's input list. */
    method Reconcile(current: seq<Image>)
      modifies this
      // no list yet, or an addition guessed from the lengths: take the current list as is
      ensures old(stored).None? || |old(stored).value| < |current| ==>
                stored == Some(current) && flags == old(flags)
      // otherwise: one in-place removal pass over the remembered list
      ensures old(stored).Some? && |current| <= |old(stored).value| ==>
                stored.Some? && (stored.value, flags) == Sweep(old(stored).value, 0, current, old(flags))
      ensures old(stored).Some? && |current| <= |old(stored).value| ==>
                stored.Some? && SubseqOf(stored.value, old(stored).value) &&
                flags == ClearFlags(old(flags), RemovedNames(old(stored).value, stored.value)) &&
                (forall x :: x in current ==> multiset(stored.value)[x] == multiset(old(stored).value)[x])
      // the reconciler never raises a flag
      ensures forall n :: IsClassified(n) ==> old(IsClassified(n))
    {
      if stored.None? || |stored.value| < |current| {
        stored := Some(current);
      } else {
        ghost var before := stored.value;
        var i := 0;
        while i < |stored.value|
          invariant stored.Some?
          invariant Sweep(stored.value, i, current, flags) == Sweep(before, 0, current, old(flags))
          decreases |stored.value| - i
        {
          var img := stored.value[i];
          i := i + 1;
          if img !in current {
            flags := flags[img.name := false];
            stored := Some(RemoveFirst(stored.value, img));
          }
        }
        SweepIsSubsequence(before, 0, current, old(flags));
        SweepFlags(before, 0, current, old(flags));
        SweepRemovesOnlyAbsent(before, 0, current, old(flags));
      }
    }

    /** The sidebar block of one rerun: build the input list (camera last)
        and reconcile the session with it. The main area then lists `current`. */
    method Rerun(uploads: seq<Image>, camera: Option<Image>) returns (current: seq<Image>)
      modifies this
      ensures current == CurrentInputs(uploads, camera)
      ensures old(stored).None? || |old(stored).value| < |current| ==>
                stored == Some(current) && flags == old(flags)
      ensures old(stored).Some? && |current| <= |old(stored).value| ==>
                stored.Some? && (stored.value, flags) == Sweep(old(stored).value, 0, current, old(flags))
      ensures old(stored).Some? && |current| <= |old(stored).value| ==>
                stored.Some? && SubseqOf(stored.value, old(stored).value) &&
                flags == ClearFlags(old(flags), RemovedNames(old(stored).value, stored.value)) &&
                (forall x :: x in current ==> multiset(stored.value)[x] == multiset(old(stored).value)[x])
      ensures forall n :: IsClassified(n) ==> old(IsClassified(n))
    {
      current := CurrentInputs(uploads, camera);
      Reconcile(current);
    }
  }
}
