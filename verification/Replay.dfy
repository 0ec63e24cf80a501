/** The frame loop of the replay reader: undo marking, the slicing of logs, and the mulligan comparison. */
module Replays {
  import opened Wrappers
  import opened Texts

  // ---------------------------------------------------------------- undo marking

  /** A sequence number is an integer or is missing. */
  datatype Frame = Frame(seqNo: Option<int>, rawType: string)

  datatype Action = Action(seqNo: Option<int>, rawType: string, undone: bool, undoneBy: Option<int>)

  datatype ReplayError = UncomparableSeq

  /** The number after the undo prefix, if the type of the frame is that prefix and digits and nothing else. */
  function UndoTarget(rawType: string): Option<nat> {
    var name := "FREE_UNDO:";
    if |rawType| > |name| && rawType[..|name|] == name && AllDigits(rawType[|name|..]) then Some(NatValue(rawType[|name|..]))
    else None
  }

  /** The type of a frame that undoes from `target` on: the prefix and the number in any decimal spelling, nothing else. */
  ghost predicate UndoesFrom(rawType: string, target: nat) {
    exists digits: string :: digits != "" && AllDigits(digits) && rawType == "FREE_UNDO:" + digits && NatValue(digits) == target
  }

  lemma UndoTargetExactly(rawType: string, target: nat)
    ensures UndoTarget(rawType) == Some(target) <==> UndoesFrom(rawType, target)
  {
    var name := "FREE_UNDO:";
    if |rawType| > |name| && rawType[..|name|] == name {
      assert rawType == name + rawType[|name|..];
    }
    if digits: string :| digits != "" && AllDigits(digits) && rawType == name + digits && NatValue(digits) == target {
      assert rawType[..|name|] == name && rawType[|name|..] == digits;
    }
  }

  /** Every number is written so by at least its own numeral, and no type names two numbers. */
  lemma UndoTargetOfNumeral(n: nat)
    ensures UndoTarget("FREE_UNDO:" + NatText(n)) == Some(n)
  {
    NatRoundTrip(n);
    UndoTargetExactly("FREE_UNDO:" + NatText(n), n);
    assert UndoesFrom("FREE_UNDO:" + NatText(n), n);
  }

  function Recorded(frame: Frame): Action { Action(frame.seqNo, frame.rawType, false, None) }

  predicate InRange(action: Action, target: int, seqNo: int) {
    action.seqNo.Some? && target <= action.seqNo.value < seqNo
  }

  function Marked(action: Action, target: int, seqNo: int): Action {
    if InRange(action, target, seqNo) then action.(undone := true, undoneBy := Some(seqNo)) else action
  }

  function MarkAll(actions: seq<Action>, target: int, seqNo: int): (r: seq<Action>)
    ensures |r| == |actions| && forall i :: 0 <= i < |r| ==> r[i] == Marked(actions[i], target, seqNo)
  {
    seq(|actions|, i requires 0 <= i < |actions| => Marked(actions[i], target, seqNo))
  }

  /** Comparing an integer with a missing sequence number raises; the comparison is reached only from the target on. */
  predicate Uncomparable(actions: seq<Action>, frame: Frame) {
    && UndoTarget(frame.rawType).Some? && frame.seqNo.None?
    && exists i :: 0 <= i < |actions| && actions[i].seqNo.Some? && UndoTarget(frame.rawType).value <= actions[i].seqNo.value
  }

  function TakeFrame(actions: seq<Action>, frame: Frame): Result<seq<Action>, ReplayError> {
    var target := UndoTarget(frame.rawType);
    if Uncomparable(actions, frame) then Err(UncomparableSeq)
    else if target.Some? && frame.seqNo.Some? then Ok(MarkAll(actions, target.value, frame.seqNo.value) + [Recorded(frame)])
    else Ok(actions + [Recorded(frame)])
  }

  function TakeFrames(frames: seq<Frame>): Result<seq<Action>, ReplayError> {
    if frames == [] then Ok([])
    else
      var before := TakeFrames(frames[..|frames| - 1]);
      if before.Err? then before else TakeFrame(before.value, frames[|frames| - 1])
  }

  /** The actions that no undo has marked, in order. */
  function Effective(actions: seq<Action>): seq<Action> {
    if actions == [] then []
    else Effective(actions[..|actions| - 1]) + if actions[|actions| - 1].undone then [] else [actions[|actions| - 1]]
  }

  class Timeline {
    var actions: seq<Action>

    constructor ()
      ensures actions == []
    {
      actions := [];
    }

    /** The inner loop marks earlier actions one by one, then the frame itself is recorded. */
    method Take(frame: Frame) returns (r: Result<(), ReplayError>)
      modifies this
      ensures r.Err? <==> TakeFrame(old(actions), frame).Err?
      ensures r.Ok? ==> Ok(actions) == TakeFrame(old(actions), frame)
    {
      var target := UndoTarget(frame.rawType);
      if target.Some? {
        ghost var was := actions;
        for i := 0 to |actions|
          invariant |actions| == |was|
          invariant forall j :: i <= j < |was| ==> actions[j] == was[j]
          invariant frame.seqNo.Some? ==>
                      forall j :: 0 <= j < i ==> actions[j] == Marked(was[j], target.value, frame.seqNo.value)
          invariant frame.seqNo.None? ==>
                      actions == was
                      && forall j :: 0 <= j < i ==> was[j].seqNo.None? || was[j].seqNo.value < target.value
        {
          var prior := actions[i];
          if prior.seqNo.Some? && target.value <= prior.seqNo.value {
            if frame.seqNo.None? {
              return Err(UncomparableSeq);
            }
            if prior.seqNo.value < frame.seqNo.value {
              actions := actions[i := prior.(undone := true, undoneBy := frame.seqNo)];
            }
          }
        }
        if frame.seqNo.Some? {
          assert actions == MarkAll(was, target.value, frame.seqNo.value);
        }
      }
      actions := actions + [Recorded(frame)];
      return Ok(());
    }

    method TakeAll(frames: seq<Frame>) returns (r: Result<(), ReplayError>)
      requires actions == []
      modifies this
      ensures r.Err? <==> TakeFrames(frames).Err?
      ensures r.Ok? ==> Ok(actions) == TakeFrames(frames)
    {
      for i := 0 to |frames|
        invariant TakeFrames(frames[..i]) == Ok(actions)
      {
        assert frames[..i + 1][..i] == frames[..i];
        r := Take(frames[i]);
        if r.Err? {
          TakeFramesErrStays(frames, i + 1);
          return;
        }
      }
      assert frames[..|frames|] == frames;
      return Ok(());
    }

    method EffectiveActions() returns (r: seq<Action>)
      ensures r == Effective(actions)
    {
      r := [];
      for i := 0 to |actions|
        invariant r == Effective(actions[..i])
      {
        assert actions[..i + 1][..i] == actions[..i];
        if !actions[i].undone {
          r := r + [actions[i]];
        }
      }
      assert actions[..|actions|] == actions;
    }
  }

  lemma {:induction false} TakeFramesErrStays(frames: seq<Frame>, n: nat)
    requires n <= |frames| && TakeFrames(frames[..n]).Err?
    ensures TakeFrames(frames).Err?
  {
    if n < |frames| {
      assert frames[..|frames| - 1][..n] == frames[..n];
      TakeFramesErrStays(frames[..|frames| - 1], n);
    } else {
      assert frames[..n] == frames;
    }
  }

  // ---------------------------------------------------------------- the closed form of undo marking

  /** The undo frame at `j` reaches back over the frame at `i`. */
  predicate Covers(frames: seq<Frame>, j: nat, i: nat) {
    && i < j < |frames|
    && UndoTarget(frames[j].rawType).Some? && frames[j].seqNo.Some? && frames[i].seqNo.Some?
    && UndoTarget(frames[j].rawType).value <= frames[i].seqNo.value < frames[j].seqNo.value
  }

  /** The last undo frame that covers `i`, looking back from `n`. */
  function LastCover(frames: seq<Frame>, i: nat, n: nat): (r: Option<nat>)
    requires n <= |frames|
    ensures r.None? <==> forall j: nat :: j < n ==> !Covers(frames, j, i)
    ensures r.Some? ==> r.value < n && Covers(frames, r.value, i)
                        && forall j: nat :: r.value < j < n ==> !Covers(frames, j, i)
  {
    if n == 0 then None
    else if Covers(frames, n - 1, i) then Some(n - 1)
    else LastCover(frames, i, n - 1)
  }

  lemma CoverPrefix(frames: seq<Frame>, i: nat, n: nat)
    requires n < |frames|
    ensures LastCover(frames[..n], i, n) == LastCover(frames, i, n)
  {
    var a, b := LastCover(frames[..n], i, n), LastCover(frames, i, n);
    assert forall j: nat :: j < n ==> (Covers(frames[..n], j, i) <==> Covers(frames, j, i));
    assert a.Some? ==> Covers(frames, a.value, i);
    assert b.Some? ==> Covers(frames[..n], b.value, i);
  }

  ghost predicate ClosedForm(frames: seq<Frame>, actions: seq<Action>) {
    && |actions| == |frames|
    && forall i: nat :: i < |frames| ==> InClosedForm(frames, actions, i)
  }

  /** The action recorded for frame `i`: undone by the last undo frame that covers it, if one does. */
  ghost predicate InClosedForm(frames: seq<Frame>, actions: seq<Action>, i: nat)
    requires i < |frames| && i < |actions|
  {
    var cover := LastCover(frames, i, |frames|);
    && actions[i].seqNo == frames[i].seqNo && actions[i].rawType == frames[i].rawType
    && (actions[i].undone <==> cover.Some?)
    && actions[i].undoneBy == if cover.Some? then frames[cover.value].seqNo else None
  }

  lemma MarkedIsClosed(frames: seq<Frame>, before: seq<Action>, i: nat)
    requires |frames| > 0 && i < |frames| - 1
    requires ClosedForm(frames[..|frames| - 1], before) && TakeFrame(before, frames[|frames| - 1]).Ok?
    ensures |TakeFrame(before, frames[|frames| - 1]).value| == |frames|
    ensures InClosedForm(frames, TakeFrame(before, frames[|frames| - 1]).value, i)
  {
    var n := |frames| - 1;
    var target := UndoTarget(frames[n].rawType);
    assert InClosedForm(frames[..n], before, i);
    CoverPrefix(frames, i, n);
    assert Covers(frames, n, i)
      <==> target.Some? && frames[n].seqNo.Some? && InRange(before[i], target.value, frames[n].seqNo.value);
    assert LastCover(frames, i, |frames|) == if Covers(frames, n, i) then Some(n) else LastCover(frames, i, n);
  }

  /** In-place marking computes the closed form; undo frames can themselves be undone and stay in force. */
  lemma {:induction false} UndoClosedForm(frames: seq<Frame>)
    requires TakeFrames(frames).Ok?
    ensures ClosedForm(frames, TakeFrames(frames).value)
  {
    if frames == [] {
    } else {
      var n := |frames| - 1;
      UndoClosedForm(frames[..n]);
      var before := TakeFrames(frames[..n]).value;
      var after := TakeFrame(before, frames[n]).value;
      forall i: nat | i < |frames|
        ensures InClosedForm(frames, after, i)
      {
        if i < n {
          MarkedIsClosed(frames, before, i);
        } else {
          assert LastCover(frames, n, |frames|).None?;
        }
      }
    }
  }

  /** The frame at `j` undoes the one at `i`: it comes later and names a number from which on to undo, below its own. */
  ghost predicate Undoes(frames: seq<Frame>, j: nat, i: nat) {
    && i < j < |frames| && frames[i].seqNo.Some? && frames[j].seqNo.Some?
    && exists target: nat ::
         UndoesFrom(frames[j].rawType, target) && target <= frames[i].seqNo.value < frames[j].seqNo.value
  }

  lemma CoversIsUndoes(frames: seq<Frame>, j: nat, i: nat)
    ensures Covers(frames, j, i) <==> Undoes(frames, j, i)
  {
    if j < |frames| {
      var rawType := frames[j].rawType;
      forall target: nat
        ensures UndoTarget(rawType) == Some(target) <==> UndoesFrom(rawType, target)
      {
        UndoTargetExactly(rawType, target);
      }
      if UndoTarget(rawType).Some? {
        assert UndoesFrom(rawType, UndoTarget(rawType).value);
      }
    }
  }

  /**
   The recorded actions, told from the frames: one for each frame, in order; undone exactly
   if some later frame undoes it, undo frames included, and by the last frame that does.
   */
  lemma UndoneExactly(frames: seq<Frame>)
    requires TakeFrames(frames).Ok?
    ensures var actions := TakeFrames(frames).value;
            && |actions| == |frames|
            && forall i: nat :: i < |frames| ==>
                 && actions[i].seqNo == frames[i].seqNo && actions[i].rawType == frames[i].rawType
                 && (actions[i].undone <==> exists j: nat :: Undoes(frames, j, i))
                 && (!actions[i].undone ==> actions[i].undoneBy.None?)
                 && (actions[i].undone ==>
                       exists j: nat :: Undoes(frames, j, i) && actions[i].undoneBy == frames[j].seqNo
                                        && forall k: nat :: k > j ==> !Undoes(frames, k, i))
  {
    UndoClosedForm(frames);
    var actions := TakeFrames(frames).value;
    forall i: nat | i < |frames|
      ensures actions[i].seqNo == frames[i].seqNo && actions[i].rawType == frames[i].rawType
      ensures actions[i].undone <==> exists j: nat :: Undoes(frames, j, i)
      ensures !actions[i].undone ==> actions[i].undoneBy.None?
      ensures actions[i].undone ==>
                exists j: nat :: Undoes(frames, j, i) && actions[i].undoneBy == frames[j].seqNo
                                 && forall k: nat :: k > j ==> !Undoes(frames, k, i)
    {
      assert InClosedForm(frames, actions, i);
      forall j: nat
        ensures Covers(frames, j, i) <==> Undoes(frames, j, i)
      {
        CoversIsUndoes(frames, j, i);
      }
      var cover := LastCover(frames, i, |frames|);
      if cover.Some? {
        assert Undoes(frames, cover.value, i);
      }
    }
  }

  /** An undo frame with no number, after an action it would have to be compared with. */
  predicate Stuck(frames: seq<Frame>, j: nat) {
    && j < |frames| && UndoTarget(frames[j].rawType).Some? && frames[j].seqNo.None?
    && exists i :: 0 <= i < j && frames[i].seqNo.Some? && UndoTarget(frames[j].rawType).value <= frames[i].seqNo.value
  }

  lemma StuckInPrefix(frames: seq<Frame>, n: nat, j: nat)
    requires j < n <= |frames|
    ensures Stuck(frames[..n], j) <==> Stuck(frames, j)
  {
    assert forall i :: 0 <= i < n ==> frames[..n][i] == frames[i];
  }

  lemma UncomparableIsStuck(frames: seq<Frame>, before: seq<Action>)
    requires frames != [] && ClosedForm(frames[..|frames| - 1], before)
    ensures Uncomparable(before, frames[|frames| - 1]) <==> Stuck(frames, |frames| - 1)
  {
    var front := frames[..|frames| - 1];
    forall i: nat | i < |front|
      ensures before[i].seqNo == frames[i].seqNo
    {
      assert InClosedForm(front, before, i);
    }
  }

  /** The loop fails exactly when an undo frame without a number follows an action numbered from its target on. */
  lemma FailsExactlyIfStuck(frames: seq<Frame>)
    ensures TakeFrames(frames).Err?
       <==> exists i: nat, j: nat, target: nat ::
              i < j < |frames| && UndoesFrom(frames[j].rawType, target) && frames[j].seqNo.None?
              && frames[i].seqNo.Some? && target <= frames[i].seqNo.value
  {
    FailsIfStuck(frames);
    if i: nat, j: nat, target: nat :| i < j < |frames| && UndoesFrom(frames[j].rawType, target) && frames[j].seqNo.None?
                                      && frames[i].seqNo.Some? && target <= frames[i].seqNo.value {
      UndoTargetExactly(frames[j].rawType, target);
      assert Stuck(frames, j);
    }
    if j: nat :| Stuck(frames, j) {
      var target := UndoTarget(frames[j].rawType).value;
      UndoTargetExactly(frames[j].rawType, target);
      var i: nat :| i < j && frames[i].seqNo.Some? && target <= frames[i].seqNo.value;
    }
  }

  lemma {:induction false} FailsIfStuck(frames: seq<Frame>)
    ensures TakeFrames(frames).Err? <==> exists j: nat :: Stuck(frames, j)
  {
    if frames == [] {
    } else {
      var n := |frames| - 1;
      var front := frames[..n];
      FailsIfStuck(front);
      forall j: nat | j < n
        ensures Stuck(front, j) <==> Stuck(frames, j)
      {
        StuckInPrefix(frames, n, j);
      }
      if TakeFrames(front).Ok? {
        UndoClosedForm(front);
        UncomparableIsStuck(frames, TakeFrames(front).value);
        assert forall j: nat :: Stuck(frames, j) ==> j == n || Stuck(front, j);
      }
    }
  }

  /** The frames below `n` that no undo frame covers, in order. */
  function Kept(frames: seq<Frame>, n: nat): (kept: seq<nat>)
    requires n <= |frames|
    ensures forall k :: 0 <= k < |kept| ==> kept[k] < n
    ensures forall k, l :: 0 <= k < l < |kept| ==> kept[k] < kept[l]
    ensures forall i: nat :: i in kept <==> i < n && forall j: nat :: !Covers(frames, j, i)
  {
    if n == 0 then []
    else Kept(frames, n - 1) + if LastCover(frames, n - 1, |frames|).Some? then [] else [n - 1]
  }

  lemma {:induction false} EffectiveKeepsFrom(frames: seq<Frame>, actions: seq<Action>, n: nat)
    requires ClosedForm(frames, actions) && n <= |frames|
    ensures var kept := Kept(frames, n); var effective := Effective(actions[..n]);
            |effective| == |kept| && forall k :: 0 <= k < |kept| ==> effective[k] == actions[kept[k]]
  {
    if n == 0 {
    } else {
      EffectiveKeepsFrom(frames, actions, n - 1);
      assert actions[..n][..n - 1] == actions[..n - 1];
      assert InClosedForm(frames, actions, n - 1);
    }
  }

  /** The effective actions are the frames that no later frame undoes, all of them, in their original order. */
  lemma EffectiveKeepsOrder(frames: seq<Frame>) returns (kept: seq<nat>)
    requires TakeFrames(frames).Ok?
    ensures forall k, l :: 0 <= k < l < |kept| ==> kept[k] < kept[l]
    ensures forall i: nat :: i in kept <==> i < |frames| && !exists j: nat :: Undoes(frames, j, i)
    ensures var effective := Effective(TakeFrames(frames).value);
            && |effective| == |kept|
            && forall k :: 0 <= k < |kept| ==>
                 kept[k] < |frames| && effective[k] == Action(frames[kept[k]].seqNo, frames[kept[k]].rawType, false, None)
  {
    UndoClosedForm(frames);
    var actions := TakeFrames(frames).value;
    EffectiveKeepsFrom(frames, actions, |frames|);
    assert actions[..|frames|] == actions;
    kept := Kept(frames, |frames|);
    forall i: nat
      ensures i in kept <==> i < |frames| && !exists j: nat :: Undoes(frames, j, i)
    {
      forall j: nat
        ensures Covers(frames, j, i) <==> Undoes(frames, j, i)
      {
        CoversIsUndoes(frames, j, i);
      }
    }
    forall k | 0 <= k < |kept|
      ensures kept[k] < |frames| && actions[kept[k]] == Action(frames[kept[k]].seqNo, frames[kept[k]].rawType, false, None)
    {
      assert kept[k] in kept;
      assert InClosedForm(frames, actions, kept[k]);
    }
  }

  // ---------------------------------------------------------------- log slices

  function Clamp(i: int, n: nat): nat {
    var j := if i < 0 then i + n else i;
    if j < 0 then 0 else if j > n then n else j
  }

  /** `xs[a:b]` with negative indices counting from the end. */
  function Slice<T>(xs: seq<T>, a: int, b: int): seq<T> {
    var lo, hi := Clamp(a, |xs|), Clamp(b, |xs|);
    if lo >= hi then [] else xs[lo..hi]
  }

  datatype Sliced<T> = Sliced(logs: seq<T>, previous: int, warned: bool)

  function FrameLogs<T>(all: seq<T>, previous: int, current: Option<int>): Sliced<T> {
    if current.None? then Sliced([], previous, false)
    else if current.value < previous then Sliced([], current.value, true)
    else if current.value > |all| then Sliced(Slice(all, previous, |all|), |all|, true)
    else Sliced(Slice(all, previous, current.value), current.value, false)
  }

  /** All slices of a replay, one after the other. */
  function AllFrameLogs<T>(all: seq<T>, base: int, counts: seq<Option<int>>): Sliced<T> {
    if counts == [] then Sliced([], base, false)
    else
      var before := AllFrameLogs(all, base, counts[..|counts| - 1]);
      var next := FrameLogs(all, before.previous, counts[|counts| - 1]);
      Sliced(before.logs + next.logs, next.previous, before.warned || next.warned)
  }

  /** The last count that is an integer, or the base. */
  function Latest(base: int, counts: seq<Option<int>>): int {
    if counts == [] then base
    else if counts[|counts| - 1].Some? then counts[|counts| - 1].value
    else Latest(base, counts[..|counts| - 1])
  }

  /** How many entries the counts stepped back over, in a log of `n`. */
  function Back(n: nat, base: int, counts: seq<Option<int>>): nat {
    if counts == [] then 0
    else
      var front, count := counts[..|counts| - 1], counts[|counts| - 1];
      var was, now := Clamp(Latest(base, front), n), if count.Some? then Clamp(count.value, n) else 0;
      Back(n, base, front) + if count.Some? && now < was then was - now else 0
  }

  /** How many entries were passed over by a smaller count that names a later place, as a negative one can. */
  function Lost(n: nat, base: int, counts: seq<Option<int>>): nat {
    if counts == [] then 0
    else
      var front, count := counts[..|counts| - 1], counts[|counts| - 1];
      var was, now := Clamp(Latest(base, front), n), if count.Some? then Clamp(count.value, n) else 0;
      Lost(n, base, front) + if count.Some? && count.value < Latest(base, front) && was < now then now - was else 0
  }

  /** Where the slicing has come to; beyond the log every place is its end. */
  lemma {:induction false} PreviousIsLatest<T>(all: seq<T>, base: int, counts: seq<Option<int>>)
    ensures var previous, latest := AllFrameLogs(all, base, counts).previous, Latest(base, counts);
            previous == latest || (previous == |all| <= latest)
  {
    if counts == [] {
    } else {
      PreviousIsLatest(all, base, counts[..|counts| - 1]);
    }
  }

  ghost predicate Tiles<T>(all: seq<T>, base: int, counts: seq<Option<int>>) {
    var from, to := Clamp(base, |all|), Clamp(Latest(base, counts), |all|);
    from <= to && AllFrameLogs(all, base, counts).logs == all[from..to]
  }

  /** One frame's slice, from the last count before it. */
  lemma FrameSlice<T>(all: seq<T>, previous: int, latest: int, count: Option<int>)
    requires previous == latest || (previous == |all| <= latest)
    ensures var from := Clamp(latest, |all|);
            FrameLogs(all, previous, count).logs
            == if count.None? || count.value < latest || Clamp(count.value, |all|) < from then []
               else all[from..Clamp(count.value, |all|)]
  {
  }

  lemma {:induction false} SlicesTogether<T>(all: seq<T>, base: int, counts: seq<Option<int>>)
    ensures var n := |all|;
            |AllFrameLogs(all, base, counts).logs|
            == Clamp(Latest(base, counts), n) - Clamp(base, n) + Back(n, base, counts) - Lost(n, base, counts)
  {
    if counts == [] {
    } else {
      var front, count := counts[..|counts| - 1], counts[|counts| - 1];
      SlicesTogether(all, base, front);
      PreviousIsLatest(all, base, front);
      FrameSlice(all, AllFrameLogs(all, base, front).previous, Latest(base, front), count);
    }
  }

  lemma {:induction false} SlicesInARow<T>(all: seq<T>, base: int, counts: seq<Option<int>>)
    requires Back(|all|, base, counts) == 0 && Lost(|all|, base, counts) == 0
    ensures Tiles(all, base, counts)
  {
    if counts == [] {
      assert all[Clamp(base, |all|)..Clamp(base, |all|)] == [];
    } else {
      var front, count := counts[..|counts| - 1], counts[|counts| - 1];
      SlicesInARow(all, base, front);
      PreviousIsLatest(all, base, front);
      FrameSlice(all, AllFrameLogs(all, base, front).previous, Latest(base, front), count);
    }
  }

  /**
   The law of the slices, for any counts at all: together they are as long as the distance
   from the base to the last count, plus every step back, less every entry passed over.
   Without either they tile the log: each entry from the base to the last count is in
   exactly one slice.
   */
  lemma LogsTile<T>(all: seq<T>, base: int, counts: seq<Option<int>>)
    ensures var n := |all|;
            |AllFrameLogs(all, base, counts).logs|
            == Clamp(Latest(base, counts), n) - Clamp(base, n) + Back(n, base, counts) - Lost(n, base, counts)
    ensures Back(|all|, base, counts) == 0 && Lost(|all|, base, counts) == 0 ==> Tiles(all, base, counts)
  {
    SlicesTogether(all, base, counts);
    if Back(|all|, base, counts) == 0 && Lost(|all|, base, counts) == 0 {
      SlicesInARow(all, base, counts);
    }
  }

  function Clip(i: int, n: nat): int { if i > n then n else i }

  /** No count names an earlier place in a log of `n` than the base or a count before it. */
  ghost predicate NeverGoesBack(n: nat, base: int, counts: seq<Option<int>>) {
    && (forall i :: 0 <= i < |counts| && counts[i].Some? ==> Clip(base, n) <= Clip(counts[i].value, n))
    && (forall i, j :: 0 <= i < j < |counts| && counts[i].Some? && counts[j].Some? ==>
          Clip(counts[i].value, n) <= Clip(counts[j].value, n))
  }

  ghost predicate NonNegative(base: int, counts: seq<Option<int>>) {
    base >= 0 && forall i :: 0 <= i < |counts| && counts[i].Some? ==> counts[i].value >= 0
  }

  lemma {:induction false} LatestIsNewest(n: nat, base: int, counts: seq<Option<int>>)
    requires NonNegative(base, counts) && NeverGoesBack(n, base, counts)
    ensures Latest(base, counts) >= 0 && Clip(base, n) <= Clip(Latest(base, counts), n)
    ensures forall i :: 0 <= i < |counts| && counts[i].Some? ==> Clip(counts[i].value, n) <= Clip(Latest(base, counts), n)
  {
    if counts == [] {
    } else {
      LatestIsNewest(n, base, counts[..|counts| - 1]);
    }
  }

  lemma {:induction false} LatestIsNonNegative(base: int, counts: seq<Option<int>>)
    requires NonNegative(base, counts)
    ensures Latest(base, counts) >= 0
  {
    if counts == [] {
    } else {
      LatestIsNonNegative(base, counts[..|counts| - 1]);
    }
  }

  lemma {:induction false} LatestIsGiven(base: int, counts: seq<Option<int>>)
    ensures Latest(base, counts) == base || exists i :: 0 <= i < |counts| && counts[i] == Some(Latest(base, counts))
  {
    if counts == [] {
    } else if counts[|counts| - 1].Some? {
      assert counts[|counts| - 1] == Some(Latest(base, counts));
    } else {
      var front := counts[..|counts| - 1];
      LatestIsGiven(base, front);
      if i :| 0 <= i < |front| && front[i] == Some(Latest(base, front)) {
        assert counts[i] == front[i];
      }
    }
  }

  /** One more count goes back exactly if it goes back from the latest one. */
  lemma OneMoreCount(n: nat, base: int, front: seq<Option<int>>, count: Option<int>)
    requires NonNegative(base, front)
    ensures NeverGoesBack(n, base, front + [count])
       <==> NeverGoesBack(n, base, front) && (count.Some? ==> Clip(Latest(base, front), n) <= Clip(count.value, n))
  {
    var counts := front + [count];
    assert forall i :: 0 <= i < |front| ==> counts[i] == front[i];
    assert counts[|front|] == count;
    LatestIsGiven(base, front);
    if NeverGoesBack(n, base, front) {
      LatestIsNewest(n, base, front);
    }
  }

  lemma {:induction false} BackExactly(n: nat, base: int, counts: seq<Option<int>>)
    requires NonNegative(base, counts)
    ensures Lost(n, base, counts) == 0
    ensures Back(n, base, counts) == 0 <==> NeverGoesBack(n, base, counts)
  {
    if counts == [] {
    } else {
      var front, count := counts[..|counts| - 1], counts[|counts| - 1];
      BackExactly(n, base, front);
      LatestIsNonNegative(base, front);
      OneMoreCount(n, base, front, count);
      assert front + [count] == counts;
    }
  }

  /** Counts that are not negative tile the log exactly when none of them, cut to the length of the log, goes back. */
  lemma LogsTileExactly<T>(all: seq<T>, base: int, counts: seq<Option<int>>)
    ensures Lost(|all|, base, counts) == 0 ==> (Tiles(all, base, counts) <==> Back(|all|, base, counts) == 0)
    ensures NonNegative(base, counts) ==> (Tiles(all, base, counts) <==> NeverGoesBack(|all|, base, counts))
  {
    LogsTile(all, base, counts);
    if NonNegative(base, counts) {
      BackExactly(|all|, base, counts);
    }
  }

  /** A count that goes back makes an entry appear twice. */
  lemma LogsCanRepeat()
    ensures var all := ["a", "b", "c"];
            var counts: seq<Option<int>> := [Some(2), Some(1), Some(3)];
            AllFrameLogs(all, 0, counts).logs == ["a", "b", "b", "c"] && !Tiles(all, 0, counts)
  {
    var all, counts: seq<Option<int>> := ["a", "b", "c"], [Some(2), Some(1), Some(3)];
    var none: seq<Option<int>> := [];
    assert counts[..2][..1] == counts[..1] && counts[..1][..0] == none;
    assert counts[..2][1] == Some(1) && counts[..1][0] == Some(2);
    assert AllFrameLogs(all, 0, counts[..1]) == Sliced(all[0..2], 2, false);
    assert AllFrameLogs(all, 0, counts[..2]) == Sliced(all[0..2], 1, true);
    assert all[0..2] + all[1..3] == ["a", "b", "b", "c"];
  }

  /** Where a place is: from the start, from the end if it is negative, and within the log in any case. */
  lemma ClampPlaces(i: int, n: nat)
    ensures Clamp(i, n) == if i > n then n else if i >= 0 then i else if n + i >= 0 then n + i else 0
  {
  }

  /** The slice of the next frame: from the last count to this one; none without a count, or if it is smaller or names an earlier place. */
  lemma NextSlice<T>(all: seq<T>, base: int, counts: seq<Option<int>>, count: Option<int>)
    ensures var from, to := Clamp(Latest(base, counts), |all|), if count.Some? then Clamp(count.value, |all|) else 0;
            AllFrameLogs(all, base, counts + [count]).logs
            == AllFrameLogs(all, base, counts).logs
               + if count.None? || count.value < Latest(base, counts) || to < from then [] else all[from..to]
  {
    assert (counts + [count])[..|counts|] == counts;
    PreviousIsLatest(all, base, counts);
    FrameSlice(all, AllFrameLogs(all, base, counts).previous, Latest(base, counts), count);
  }

  /** The counts go from the base upwards and never beyond a log of `n`. */
  ghost predicate Upwards(n: nat, base: int, counts: seq<Option<int>>) {
    && (forall i :: 0 <= i < |counts| && counts[i].Some? ==> base <= counts[i].value <= n)
    && (forall i, j :: 0 <= i < j < |counts| && counts[i].Some? && counts[j].Some? ==> counts[i].value <= counts[j].value)
  }

  lemma {:induction false} UpwardsToLatest(n: nat, base: int, counts: seq<Option<int>>)
    requires Upwards(n, base, counts)
    ensures base <= Latest(base, counts)
    ensures forall i :: 0 <= i < |counts| && counts[i].Some? ==> counts[i].value <= Latest(base, counts)
  {
    if counts == [] {
    } else {
      UpwardsToLatest(n, base, counts[..|counts| - 1]);
    }
  }

  lemma OneMoreUpwards(n: nat, base: int, front: seq<Option<int>>, count: Option<int>)
    ensures Upwards(n, base, front + [count])
       <==> Upwards(n, base, front) && (count.Some? ==> Latest(base, front) <= count.value <= n)
  {
    var counts := front + [count];
    assert forall i :: 0 <= i < |front| ==> counts[i] == front[i];
    assert counts[|front|] == count;
    LatestIsGiven(base, front);
    if Upwards(n, base, front) {
      UpwardsToLatest(n, base, front);
    }
  }

  lemma {:induction false} WarnedFrom<T>(all: seq<T>, base: int, counts: seq<Option<int>>)
    ensures !AllFrameLogs(all, base, counts).warned <==> Upwards(|all|, base, counts)
    ensures !AllFrameLogs(all, base, counts).warned ==> AllFrameLogs(all, base, counts).previous == Latest(base, counts)
  {
    if counts == [] {
    } else {
      var front, count := counts[..|counts| - 1], counts[|counts| - 1];
      WarnedFrom(all, base, front);
      OneMoreUpwards(|all|, base, front, count);
      assert front + [count] == counts;
    }
  }

  /** A replay is read without a warning exactly if its counts go upwards from the base and stay within the log; then its slices tile it. */
  lemma WarnsExactly<T>(all: seq<T>, base: int, counts: seq<Option<int>>)
    ensures AllFrameLogs(all, base, counts).warned
       <==> (exists i :: 0 <= i < |counts| && counts[i].Some? && !(base <= counts[i].value <= |all|))
            || exists i, j :: 0 <= i < j < |counts| && counts[i].Some? && counts[j].Some? && counts[i].value > counts[j].value
    ensures base >= 0 && !AllFrameLogs(all, base, counts).warned ==> Tiles(all, base, counts)
  {
    WarnedFrom(all, base, counts);
    if base >= 0 && Upwards(|all|, base, counts) {
      assert NonNegative(base, counts) && NeverGoesBack(|all|, base, counts);
      LogsTileExactly(all, base, counts);
    }
  }

  // ---------------------------------------------------------------- the mulligan comparison

  /** A visible card; a missing or empty instance id reads as none. */
  datatype Card = Card(instanceId: Option<string>, name: string)

  function Ids(hand: seq<Card>): set<string> {
    set c | c in hand && c.instanceId.Some? :: c.instanceId.value
  }

  function CardsIn(hand: seq<Card>, ids: set<string>): seq<Card> {
    if hand == [] then []
    else CardsIn(hand[..|hand| - 1], ids)
         + if hand[|hand| - 1].instanceId.Some? && hand[|hand| - 1].instanceId.value in ids then [hand[|hand| - 1]] else []
  }

  datatype Mulligan = Mulligan(kept: seq<Card>, sentBack: seq<Card>, drawn: seq<Card>)

  function CompareHands(before: seq<Card>, after: seq<Card>): Mulligan {
    var beforeIds, afterIds := Ids(before), Ids(after);
    Mulligan(CardsIn(before, beforeIds * afterIds), CardsIn(before, beforeIds - afterIds), CardsIn(after, afterIds - beforeIds))
  }

  /** Places in order, and the cards there. */
  ghost predicate Picks(hand: seq<Card>, picked: seq<Card>, at: seq<nat>) {
    && |at| == |picked|
    && (forall k :: 0 <= k < |at| ==> at[k] < |hand| && picked[k] == hand[at[k]])
    && (forall k, l :: 0 <= k < l < |at| ==> at[k] < at[l])
  }

  predicate Wanted(card: Card, ids: set<string>) { card.instanceId.Some? && card.instanceId.value in ids }

  ghost predicate AllWanted(hand: seq<Card>, ids: set<string>, at: seq<nat>) {
    forall i: nat :: i in at <==> i < |hand| && Wanted(hand[i], ids)
  }

  lemma PickedNext(hand: seq<Card>, ids: set<string>, picked: seq<Card>, at: seq<nat>)
    requires hand != [] && Picks(hand[..|hand| - 1], picked, at) && AllWanted(hand[..|hand| - 1], ids, at)
    ensures var n := |hand| - 1;
            if Wanted(hand[n], ids) then Picks(hand, picked + [hand[n]], at + [n]) && AllWanted(hand, ids, at + [n])
            else Picks(hand, picked, at) && AllWanted(hand, ids, at)
  {
    var n := |hand| - 1;
    assert forall i: nat :: i < n ==> hand[..n][i] == hand[i];
    assert forall i: nat :: i in at + [n] <==> i in at || i == n;
  }

  /** Cards picked by their ids: which places they are from. */
  lemma {:induction false} PickedInOrder(hand: seq<Card>, ids: set<string>) returns (at: seq<nat>)
    ensures Picks(hand, CardsIn(hand, ids), at) && AllWanted(hand, ids, at)
  {
    if hand == [] {
      at := [];
    } else {
      var n := |hand| - 1;
      at := PickedInOrder(hand[..n], ids);
      PickedNext(hand, ids, CardsIn(hand[..n], ids), at);
      if Wanted(hand[n], ids) {
        at := at + [n];
      }
    }
  }

  /** Some card of the hand has this id. */
  predicate Holds(hand: seq<Card>, id: Option<string>) { id.Some? && exists i :: 0 <= i < |hand| && hand[i].instanceId == id }

  lemma HoldsIsId(hand: seq<Card>, id: string)
    ensures id in Ids(hand) <==> Holds(hand, Some(id))
  {
    if i :| 0 <= i < |hand| && hand[i].instanceId == Some(id) {
      assert hand[i] in hand;
    }
  }

  /**
   The comparison of two hands, in the order of the hands: kept and sent back are the cards
   of the old hand whose id the new hand still has, or has no more; drawn are the cards of
   the new hand whose id the old one had not. A card without an id is in none of them.
   */
  lemma HandsExactly(before: seq<Card>, after: seq<Card>) returns (kept: seq<nat>, sent: seq<nat>, drawn: seq<nat>)
    ensures var m := CompareHands(before, after);
            Picks(before, m.kept, kept) && Picks(before, m.sentBack, sent) && Picks(after, m.drawn, drawn)
    ensures forall i: nat :: i in kept <==> i < |before| && Holds(after, before[i].instanceId)
    ensures forall i: nat :: i in sent <==>
              i < |before| && before[i].instanceId.Some? && !Holds(after, before[i].instanceId)
    ensures forall i: nat :: i in drawn <==>
              i < |after| && after[i].instanceId.Some? && !Holds(before, after[i].instanceId)
  {
    var a, b := Ids(before), Ids(after);
    kept := PickedInOrder(before, a * b);
    sent := PickedInOrder(before, a - b);
    drawn := PickedInOrder(after, b - a);
    forall id: string
      ensures id in a <==> Holds(before, Some(id))
      ensures id in b <==> Holds(after, Some(id))
    {
      HoldsIsId(before, id);
      HoldsIsId(after, id);
    }
  }

  /** Every card is told apart by its instance id. */
  ghost predicate Distinct(hand: seq<Card>) {
    && (forall i :: 0 <= i < |hand| ==> hand[i].instanceId.Some?)
    && forall i, j :: 0 <= i < j < |hand| ==> hand[i].instanceId != hand[j].instanceId
  }

  lemma IdsOfLast(hand: seq<Card>)
    requires hand != [] && Distinct(hand)
    ensures var front, last := hand[..|hand| - 1], hand[|hand| - 1];
            Ids(hand) == Ids(front) + {last.instanceId.value} && last.instanceId.value !in Ids(front)
  {
    assert hand == hand[..|hand| - 1] + [hand[|hand| - 1]];
  }

  lemma {:induction false} CountIn(hand: seq<Card>, ids: set<string>)
    requires Distinct(hand)
    ensures |CardsIn(hand, ids)| == |Ids(hand) * ids|
  {
    if hand == [] {
      assert Ids(hand) * ids == {};
    } else {
      var front, id := hand[..|hand| - 1], hand[|hand| - 1].instanceId.value;
      CountIn(front, ids);
      IdsOfLast(hand);
      OneMore(Ids(front), id, ids);
    }
  }

  lemma OneMore(a: set<string>, id: string, ids: set<string>)
    requires id !in a
    ensures |(a + {id}) * ids| == |a * ids| + if id in ids then 1 else 0
  {
    if id in ids {
      assert (a + {id}) * ids == (a * ids) + {id};
    } else {
      assert (a + {id}) * ids == a * ids;
    }
  }

  lemma {:induction false} CountIds(hand: seq<Card>)
    requires Distinct(hand)
    ensures |Ids(hand)| == |hand|
  {
    if hand == [] {
    } else {
      CountIds(hand[..|hand| - 1]);
      IdsOfLast(hand);
    }
  }

  lemma SplitSize<T>(a: set<T>, b: set<T>)
    ensures |a * b| + |a - b| == |a|
  {
    assert a == (a * b) + (a - b);
  }

  /** Cards picked by either of two disjoint sets of ids. */
  lemma {:induction false} CardsApart(hand: seq<Card>, a: set<string>, b: set<string>)
    requires a !! b
    ensures multiset(CardsIn(hand, a)) + multiset(CardsIn(hand, b)) == multiset(CardsIn(hand, a + b))
  {
    if hand == [] {
    } else {
      CardsApart(hand[..|hand| - 1], a, b);
    }
  }

  /** The visible cards of a hand: those with an instance id. */
  function Visible(hand: seq<Card>): seq<Card> { CardsIn(hand, Ids(hand)) }

  /** Two hands whose cards are told apart: the three groups in numbers. */
  lemma DistinctHandsBalance(before: seq<Card>, after: seq<Card>)
    requires Distinct(before) && Distinct(after)
    ensures var m := CompareHands(before, after);
            && |m.kept| + |m.sentBack| == |before|
            && |m.kept| + |m.drawn| == |after|
            && (|m.sentBack| == |m.drawn| <==> |before| == |after|)
  {
    var a, b := Ids(before), Ids(after);
    CountIds(before);
    CountIds(after);
    CountIn(before, a * b);
    CountIn(before, a - b);
    CountIn(after, b - a);
    assert a * (a * b) == a * b && a * (a - b) == a - b && b * (b - a) == b - a && b * a == a * b;
    SplitSize(a, b);
    SplitSize(b, a);
  }

  /**
   Cards are neither lost nor invented, for any two hands: kept and sent back make up the
   visible cards of the old hand, those kept and those drawn the visible cards of the new
   one. When the cards of both hands are told apart, as many are drawn as sent back exactly
   if the hands are of one size.
   */
  lemma HandsBalance(before: seq<Card>, after: seq<Card>)
    ensures var m := CompareHands(before, after);
            && multiset(m.kept) + multiset(m.sentBack) == multiset(Visible(before))
            && multiset(CardsIn(after, Ids(before) * Ids(after))) + multiset(m.drawn) == multiset(Visible(after))
    ensures Distinct(before) && Distinct(after) ==>
              var m := CompareHands(before, after);
              && |m.kept| + |m.sentBack| == |before| && |m.kept| + |m.drawn| == |after|
              && (|m.sentBack| == |m.drawn| <==> |before| == |after|)
  {
    var a, b := Ids(before), Ids(after);
    CardsApart(before, a * b, a - b);
    CardsApart(after, a * b, b - a);
    assert (a * b) + (a - b) == a && (a * b) + (b - a) == b;
    if Distinct(before) && Distinct(after) {
      DistinctHandsBalance(before, after);
    }
  }
}
