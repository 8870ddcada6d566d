// The quest system of src/systems/quest.py: objectives, the lifecycle of one
// quest (available, active, then completed and finished, or failed) and the
// quest log that moves quests between its active, completed and failed lists.
// A quest owns its objectives, so they are values held in the quest's list.

module Quests {

  import opened Util

  datatype QuestType = Kill | Collect | Deliver | Explore | Talk | Escort | Survive

  datatype QuestStatus = Available | Active | Completed | Finished | Failed

  /** `QuestObjective(type, target, required_count, current_count, description)`. */
  datatype QuestObjective = QuestObjective(kind: QuestType, target: string, requiredCount: int,
                                           currentCount: int, description: string)

  /** `QuestObjective.is_complete`. */
  predicate ObjectiveComplete(o: QuestObjective)
  {
    o.currentCount >= o.requiredCount
  }

  /** `progress_string`: "current/required". */
  function ProgressString(o: QuestObjective): string
  {
    IntToString(o.currentCount) + "/" + IntToString(o.requiredCount)
  }

  datatype QuestReward = QuestReward(gold: int, experience: int, items: seq<string>,
                                     reputation: int, faithPoints: int)

  /** `QuestReward()` with every default. */
  const NoReward := QuestReward(0, 0, [], 0, 0)

  predicate Matches(o: QuestObjective, kind: QuestType, target: string)
  {
    o.kind == kind && o.target == target
  }

  /** The objectives `update_progress(kind, target)` moves: matching and not yet done. */
  predicate Advances(o: QuestObjective, kind: QuestType, target: string)
  {
    Matches(o, kind, target) && o.currentCount < o.requiredCount
  }

  /** One objective after `update_progress(kind, target, amount)`: a moved
      count stops at the requirement, and it is complete exactly when the
      amount covers what was missing. */
  function Advance(o: QuestObjective, kind: QuestType, target: string, amount: int): (r: QuestObjective)
    ensures r.kind == o.kind && r.target == o.target && r.requiredCount == o.requiredCount
    ensures r.description == o.description
    ensures !Advances(o, kind, target) ==> r == o
    ensures Advances(o, kind, target) ==> r.currentCount <= r.requiredCount
    ensures Advances(o, kind, target) ==> (ObjectiveComplete(r) <==> o.currentCount + amount >= o.requiredCount)
    ensures Advances(o, kind, target) && amount >= 0 ==> o.currentCount <= r.currentCount
  {
    if Advances(o, kind, target) then o.(currentCount := Min(o.currentCount + amount, o.requiredCount)) else o
  }

  function AdvanceAll(objs: seq<QuestObjective>, kind: QuestType, target: string, amount: int): (r: seq<QuestObjective>)
    ensures |r| == |objs|
    ensures forall i | 0 <= i < |objs| :: r[i] == Advance(objs[i], kind, target, amount)
  {
    seq(|objs|, i requires 0 <= i < |objs| => Advance(objs[i], kind, target, amount))
  }

  predicate AnyAdvances(objs: seq<QuestObjective>, kind: QuestType, target: string)
  {
    exists i | 0 <= i < |objs| :: Advances(objs[i], kind, target)
  }

  /** `Quest.is_complete`: `all(obj.is_complete ...)`. */
  predicate AllComplete(objs: seq<QuestObjective>)
  {
    forall i | 0 <= i < |objs| :: ObjectiveComplete(objs[i])
  }

  predicate NoneOver(objs: seq<QuestObjective>)
  {
    forall i | 0 <= i < |objs| :: objs[i].currentCount <= objs[i].requiredCount
  }

  /** Progress never carries a count past the larger of where it was and its
      requirement, and objectives of another type or target do not move. */
  lemma ProgressNeverOvershoots(objs: seq<QuestObjective>, kind: QuestType, target: string, amount: int)
    ensures forall i | 0 <= i < |objs| ::
      AdvanceAll(objs, kind, target, amount)[i].currentCount <= Max(objs[i].currentCount, objs[i].requiredCount)
    ensures NoneOver(objs) ==> NoneOver(AdvanceAll(objs, kind, target, amount))
    ensures forall i | 0 <= i < |objs| && !Matches(objs[i], kind, target) ::
      AdvanceAll(objs, kind, target, amount)[i] == objs[i]
  {
  }

  /** Once every objective is done, no progress event changes anything. */
  lemma CompleteObjectivesIgnoreProgress(objs: seq<QuestObjective>, kind: QuestType, target: string, amount: int)
    requires AllComplete(objs)
    ensures !AnyAdvances(objs, kind, target)
    ensures AdvanceAll(objs, kind, target, amount) == objs
  {
  }

  /** The part of a quest the log's turn and progress events change. */
  datatype QuestView = QuestView(status: QuestStatus, objectives: seq<QuestObjective>, turnsRemaining: int)

  /** A quest after `update_progress(kind, target, amount)`: only an active
      quest changes; it becomes completed exactly when some objective moved and
      all are now done.  No quest ever comes back to available. */
  function Progressed(v: QuestView, kind: QuestType, target: string, amount: int): (r: QuestView)
    ensures v.status != Active ==> r == v
    ensures r.turnsRemaining == v.turnsRemaining
    ensures v.status == Active ==> r.objectives == AdvanceAll(v.objectives, kind, target, amount)
    ensures v.status == Active ==>
      (r.status == Completed <==> AnyAdvances(v.objectives, kind, target) && AllComplete(r.objectives))
    ensures v.status == Active ==> r.status in {Active, Completed}
    ensures (r.status == Available) == (v.status == Available)
  {
    if v.status != Active then v
    else
      var objs := AdvanceAll(v.objectives, kind, target, amount);
      var updated := AnyAdvances(v.objectives, kind, target);
      QuestView(if updated && AllComplete(objs) then Completed else Active, objs, v.turnsRemaining)
  }

  /** An active timed quest runs out on this turn. */
  predicate TimedOut(v: QuestView, timeLimit: int)
  {
    v.status == Active && timeLimit > 0 && v.turnsRemaining - 1 <= 0
  }

  /** A quest after `process_turn()`: an active timed quest loses a turn and
      fails when none is left; every other quest is untouched. */
  function Ticked(v: QuestView, timeLimit: int): (r: QuestView)
    ensures !(v.status == Active && timeLimit > 0) ==> r == v
    ensures v.status == Active && timeLimit > 0 ==> r.turnsRemaining == v.turnsRemaining - 1
    ensures r.objectives == v.objectives
    ensures r.status == Failed <==> TimedOut(v, timeLimit) || v.status == Failed
    ensures TimedOut(v, timeLimit) <==> (v.status == Active && r.status == Failed)
    ensures (r.status == Available) == (v.status == Available)
  {
    if v.status == Active && timeLimit > 0 then
      var left := v.turnsRemaining - 1;
      QuestView(if left <= 0 then Failed else Active, v.objectives, left)
    else v
  }

  /** `n` turns of `process_turn()`. */
  function TickTimes(v: QuestView, timeLimit: int, n: nat): QuestView
    decreases n
  {
    if n == 0 then v else TickTimes(Ticked(v, timeLimit), timeLimit, n - 1)
  }

  /** An active timed quest with `t` turns left is still active after fewer
      than `t` turns and has failed after exactly `t`. */
  lemma {:induction false} TimedQuestFailsOnTime(v: QuestView, timeLimit: int, n: nat)
    requires v.status == Active && timeLimit > 0 && v.turnsRemaining >= 1
    decreases n
    ensures n < v.turnsRemaining ==> TickTimes(v, timeLimit, n).status == Active
    ensures n < v.turnsRemaining ==> TickTimes(v, timeLimit, n).turnsRemaining == v.turnsRemaining - n
    ensures n >= v.turnsRemaining ==> TickTimes(v, timeLimit, n).status == Failed
  {
    if n > 0 {
      var w := Ticked(v, timeLimit);
      if v.turnsRemaining == 1 {
        FailedQuestStaysFailed(w, timeLimit, n - 1);
      } else {
        TimedQuestFailsOnTime(w, timeLimit, n - 1);
      }
    }
  }

  lemma {:induction false} FailedQuestStaysFailed(v: QuestView, timeLimit: int, n: nat)
    requires v.status == Failed
    ensures TickTimes(v, timeLimit, n) == v
  {
    if n > 0 {
      FailedQuestStaysFailed(Ticked(v, timeLimit), timeLimit, n - 1);
    }
  }

  /** Message of a quest that has just run out of time. */
  function TimeoutLine(name: string): string
  {
    "[퀘스트] '" + name + "' 시간 초과로 실패!"
  }

  /** Message of a timed quest with at most 100 turns left. */
  function RemainingLine(name: string, left: int): string
  {
    "[퀘스트] '" + name + "' 남은 시간: " + IntToString(left) + "턴"
  }

  /** Message of a quest whose objectives are all done. */
  function DoneLine(name: string): string
  {
    "[퀘스트] '" + name + "' 완료! 의뢰인에게 돌아가자."
  }

  /** Progress message of one objective, with `verb` "처치" or "수집". */
  function ProgressLine(questName: string, o: QuestObjective, verb: string): string
  {
    "[퀘스트] " + questName + ": " + o.target + " " + verb + " (" + ProgressString(o) + ")"
  }

  /** One progress message per objective of the given type and target, in order. */
  function MatchLines(questName: string, objs: seq<QuestObjective>, kind: QuestType, target: string,
                      verb: string): (r: seq<string>)
    ensures |r| <= |objs|
    ensures (forall i | 0 <= i < |objs| :: !Matches(objs[i], kind, target)) ==> r == []
  {
    if objs == [] then []
    else
      var last := objs[|objs| - 1];
      MatchLines(questName, objs[..|objs| - 1], kind, target, verb)
      + (if Matches(last, kind, target) then [ProgressLine(questName, last, verb)] else [])
  }

  /** The messages one quest contributes to `update_kill_quest` /
      `update_collect_quest`: nothing unless it moved; then a line per
      matching objective and, when it is now complete, the completion line. */
  function QuestLines(questName: string, before: QuestView, kind: QuestType, target: string,
                      verb: string): (r: seq<string>)
    ensures !(before.status == Active && AnyAdvances(before.objectives, kind, target)) ==> r == []
    ensures Progressed(before, kind, target, 1).status == Completed && before.status == Active ==>
      |r| >= 1 && r[|r| - 1] == DoneLine(questName)
  {
    if before.status == Active && AnyAdvances(before.objectives, kind, target) then
      var after := Progressed(before, kind, target, 1);
      MatchLines(questName, after.objectives, kind, target, verb)
      + (if AllComplete(after.objectives) then [DoneLine(questName)] else [])
    else []
  }

  /** The message `process_turn` of the log writes for a quest, from what its
      own `process_turn()` reported and the turns it has left afterwards. */
  function AfterTurnLines(questName: string, timedOut: bool, timeLimit: int, left: int): seq<string>
  {
    if timedOut then [TimeoutLine(questName)]
    else if timeLimit > 0 && left <= 100 then [RemainingLine(questName, left)]
    else []
  }

  /** The messages of a quest at the end of the log's turn. */
  function TurnLines(questName: string, before: QuestView, timeLimit: int): (r: seq<string>)
    ensures TimedOut(before, timeLimit) ==> r == [TimeoutLine(questName)]
    ensures timeLimit <= 0 ==> r == []
    ensures !TimedOut(before, timeLimit) && timeLimit > 0 && before.status == Active && before.turnsRemaining <= 101 ==>
      r == [RemainingLine(questName, before.turnsRemaining - 1)]
    ensures |r| <= 1
  {
    AfterTurnLines(questName, TimedOut(before, timeLimit), timeLimit, Ticked(before, timeLimit).turnsRemaining)
  }

  predicate Disjoint<T(==)>(a: seq<T>, b: seq<T>)
  {
    forall x | x in a :: x !in b
  }

  /** Three lists without duplicates that share no element. */
  predicate Separate<T(==)>(a: seq<T>, b: seq<T>, c: seq<T>)
  {
    Distinct(a) && Distinct(b) && Distinct(c) && Disjoint(a, b) && Disjoint(a, c) && Disjoint(b, c)
  }

  lemma DistinctAppend<T>(a: seq<T>, b: seq<T>)
    requires Distinct(a) && Distinct(b) && Disjoint(a, b)
    ensures Distinct(a + b)
  {
    var s := a + b;
    forall i, j | 0 <= i < j < |s| ensures s[i] != s[j] {
      if j < |a| {
        assert s[i] == a[i] && s[j] == a[j];
      } else if i >= |a| {
        assert s[i] == b[i - |a|] && s[j] == b[j - |a|];
      } else {
        assert s[i] == a[i] && s[j] == b[j - |a|];
        assert a[i] in a;
      }
    }
  }

  /** Removing the first occurrence keeps a list without duplicates so, and
      leaves no occurrence behind. */
  lemma {:induction false} DistinctRemoveFirst<T>(s: seq<T>, x: T)
    requires Distinct(s)
    ensures Distinct(RemoveFirst(s, x)) && x !in RemoveFirst(s, x)
    ensures forall y | y in RemoveFirst(s, x) :: y in s
  {
    if s != [] {
      assert s == [s[0]] + s[1..];
      assert Distinct(s[1..]) by {
        forall i, j | 0 <= i < j < |s[1..]| ensures s[1..][i] != s[1..][j] {
          assert s[1..][i] == s[i + 1] && s[1..][j] == s[j + 1];
        }
      }
      assert s[0] !in s[1..] by {
        forall k | 0 <= k < |s[1..]| ensures s[1..][k] != s[0] {
          assert s[1..][k] == s[k + 1];
        }
      }
      if s[0] != x {
        DistinctRemoveFirst(s[1..], x);
        DistinctAppend([s[0]], RemoveFirst(s[1..], x));
      }
    }
  }

  /** The two sides of the turn's split are lists without duplicates that
      share no quest. */
  lemma {:induction false} SplitSeparates(qs: seq<Quest>, views: seq<QuestView>)
    requires |views| == |qs| && Distinct(qs)
    ensures Distinct(Kept(qs, views)) && Distinct(Expired(qs, views))
    ensures Disjoint(Kept(qs, views), Expired(qs, views))
  {
    if qs != [] {
      var n := |qs| - 1;
      var init := qs[..n];
      assert Distinct(init) by {
        forall i, j | 0 <= i < j < |init| ensures init[i] != init[j] {
          assert init[i] == qs[i] && init[j] == qs[j];
        }
      }
      SplitSeparates(init, views[..n]);
      SplitWithin(init, views[..n]);
      assert qs[n] !in init by {
        forall k | 0 <= k < n ensures init[k] != qs[n] {
          assert init[k] == qs[k];
        }
      }
      var kept, expired := Kept(init, views[..n]), Expired(init, views[..n]);
      if TimedOut(views[n], qs[n].timeLimit) {
        DistinctAppend(expired, [qs[n]]);
      } else {
        DistinctAppend(kept, [qs[n]]);
      }
    }
  }

  /** Adding a quest that is in none of the lists. */
  lemma SeparateAdd<T>(a: seq<T>, b: seq<T>, c: seq<T>, x: T)
    requires Separate(a, b, c) && x !in a && x !in b && x !in c
    ensures Separate(a + [x], b, c)
  {
    DistinctAppend(a, [x]);
  }

  /** Moving a quest from the first list to the end of the second. */
  lemma SeparateMove<T>(a: seq<T>, b: seq<T>, c: seq<T>, x: T)
    requires Separate(a, b, c) && x in a
    ensures Separate(RemoveFirst(a, x), b + [x], c)
    ensures forall y | y in RemoveFirst(a, x) :: y in a
  {
    DistinctRemoveFirst(a, x);
    DistinctAppend(b, [x]);
  }

  /** Moving the quests that time out from the first list to the end of the third. */
  lemma SeparateTurn(a: seq<Quest>, b: seq<Quest>, c: seq<Quest>, views: seq<QuestView>)
    requires Separate(a, b, c) && |views| == |a|
    ensures Separate(Kept(a, views), b, c + Expired(a, views))
  {
    SplitSeparates(a, views);
    SplitWithin(a, views);
    DistinctAppend(c, Expired(a, views));
  }

  class Quest {
    const id: string
    const name: string
    const giver: string
    var objectives: seq<QuestObjective>
    const rewards: QuestReward
    var status: QuestStatus
    const timeLimit: int
    var turnsRemaining: int

    /** `Quest(id, name, ..., objectives, rewards, time_limit=...)` with the
        default status and turns. */
    constructor (id: string, name: string, giver: string, objectives: seq<QuestObjective>,
                 rewards: QuestReward, timeLimit: int)
      ensures this.id == id && this.name == name && this.giver == giver
      ensures this.objectives == objectives && this.rewards == rewards && this.timeLimit == timeLimit
      ensures status == Available && turnsRemaining == 0
    {
      this.id, this.name, this.giver := id, name, giver;
      this.objectives, this.rewards, this.timeLimit := objectives, rewards, timeLimit;
      status, turnsRemaining := Available, 0;
    }

    predicate IsComplete()
      reads this
    {
      AllComplete(objectives)
    }

    /** `update_progress(type, target, amount)`: nothing happens unless the
        quest is active; then every matching objective that is not done moves,
        the result says whether any did, and the quest is completed when one did
        and all are now done. */
    method UpdateProgress(kind: QuestType, target: string, amount: int) returns (updated: bool)
      modifies this`objectives, this`status
      ensures updated == (old(status) == Active && AnyAdvances(old(objectives), kind, target))
      ensures objectives == if old(status) == Active then AdvanceAll(old(objectives), kind, target, amount)
                            else old(objectives)
      ensures status == if updated && AllComplete(objectives) then Completed else old(status)
    {
      if status != Active {
        return false;
      }
      updated := false;
      var objs := objectives;
      var i := 0;
      while i < |objs|
        invariant 0 <= i <= |objs| == |objectives|
        invariant forall j | 0 <= j < i :: objs[j] == Advance(objectives[j], kind, target, amount)
        invariant forall j | i <= j < |objs| :: objs[j] == objectives[j]
        invariant updated <==> exists j | 0 <= j < i :: Advances(objectives[j], kind, target)
      {
        var o := objs[i];
        if Advances(o, kind, target) {
          objs := objs[i := o.(currentCount := Min(o.currentCount + amount, o.requiredCount))];
          updated := true;
        }
        i := i + 1;
      }
      assert objs == AdvanceAll(objectives, kind, target, amount);
      objectives := objs;
      if updated && AllComplete(objectives) {
        status := Completed;
      }
    }

    /** The progress messages of the objectives of one type and target, in order. */
    method ProgressLines(kind: QuestType, target: string, verb: string) returns (lines: seq<string>)
      ensures lines == MatchLines(name, objectives, kind, target, verb)
    {
      lines := [];
      var i := 0;
      while i < |objectives|
        invariant 0 <= i <= |objectives|
        invariant lines == MatchLines(name, objectives[..i], kind, target, verb)
      {
        var o := objectives[i];
        assert objectives[..i + 1][..i] == objectives[..i];
        if o.kind == kind && o.target == target {
          lines := lines + [ProgressLine(name, o, verb)];
        }
        i := i + 1;
      }
      assert objectives[..i] == objectives;
    }

    /** `accept()`: only an available quest is accepted; it becomes active and
        a timed one gets its whole time limit. */
    method Accept() returns (ok: bool)
      modifies this`status, this`turnsRemaining
      ensures ok == (old(status) == Available)
      ensures status == if ok then Active else old(status)
      ensures turnsRemaining == if ok && timeLimit > 0 then timeLimit else old(turnsRemaining)
    {
      if status != Available {
        return false;
      }
      status := Active;
      if timeLimit > 0 {
        turnsRemaining := timeLimit;
      }
      ok := true;
    }

    /** `fail()`, from any status. */
    method Fail()
      modifies this`status
      ensures status == Failed
    {
      status := Failed;
    }

    /** `finish()`: a completed quest is finished and hands over its rewards;
        in any other status nothing changes and the reward is empty. */
    method Finish() returns (reward: QuestReward)
      modifies this`status
      ensures old(status) == Completed ==> status == Finished && reward == rewards
      ensures old(status) != Completed ==> status == old(status) && reward == NoReward
    {
      if status == Completed {
        status := Finished;
        return rewards;
      }
      return NoReward;
    }

    /** `process_turn()`: an active timed quest counts a turn down and fails,
        reporting it, once no turn is left. */
    method ProcessTurn() returns (timedOut: bool)
      modifies this`status, this`turnsRemaining
      ensures timedOut == (old(status) == Active && timeLimit > 0 && old(turnsRemaining) - 1 <= 0)
      ensures turnsRemaining == if old(status) == Active && timeLimit > 0 then old(turnsRemaining) - 1
                                else old(turnsRemaining)
      ensures status == if timedOut then Failed else old(status)
    {
      if status != Active {
        return false;
      }
      if timeLimit > 0 {
        turnsRemaining := turnsRemaining - 1;
        if turnsRemaining <= 0 {
          Fail();
          return true;
        }
      }
      return false;
    }
  }

  ghost function ViewOf(q: Quest): QuestView
    reads q
  {
    QuestView(q.status, q.objectives, q.turnsRemaining)
  }

  ghost function Views(qs: seq<Quest>): (r: seq<QuestView>)
    reads set q | q in qs
    ensures |r| == |qs| && forall k | 0 <= k < |qs| :: r[k] == ViewOf(qs[k])
  {
    seq(|qs|, k requires 0 <= k < |qs| reads qs => ViewOf(qs[k]))
  }

  /** The messages of `update_kill_quest` / `update_collect_quest` over the
      active quests `qs` as they stood before. */
  function ProgressReport(qs: seq<Quest>, views: seq<QuestView>, kind: QuestType, target: string,
                          verb: string): (r: seq<string>)
    requires |views| == |qs|
    ensures (forall k | 0 <= k < |views| :: views[k].status != Active) ==> r == []
  {
    if qs == [] then []
    else
      var n := |qs| - 1;
      ProgressReport(qs[..n], views[..n], kind, target, verb) + QuestLines(qs[n].name, views[n], kind, target, verb)
  }

  /** The quests of `qs` that do not time out on this turn, in order. */
  function Kept(qs: seq<Quest>, views: seq<QuestView>): seq<Quest>
    requires |views| == |qs|
  {
    if qs == [] then []
    else
      var n := |qs| - 1;
      Kept(qs[..n], views[..n]) + (if TimedOut(views[n], qs[n].timeLimit) then [] else [qs[n]])
  }

  /** The quests of `qs` that time out on this turn, in order. */
  function Expired(qs: seq<Quest>, views: seq<QuestView>): seq<Quest>
    requires |views| == |qs|
  {
    if qs == [] then []
    else
      var n := |qs| - 1;
      Expired(qs[..n], views[..n]) + (if TimedOut(views[n], qs[n].timeLimit) then [qs[n]] else [])
  }

  /** Both sides of the split hold only quests of `qs`, and each quest of
      `qs` is on the side its view says. */
  lemma SplitWithin(qs: seq<Quest>, views: seq<QuestView>)
    requires |views| == |qs|
    ensures forall q | q in Kept(qs, views) :: q in qs
    ensures forall q | q in Expired(qs, views) :: q in qs
    ensures forall k | 0 <= k < |qs| :: qs[k] in (if TimedOut(views[k], qs[k].timeLimit) then Expired(qs, views) else Kept(qs, views))
  {
    SplitMembers(qs, views);
    SplitPlaces(qs, views);
  }

  /** Both sides of the split hold only quests of `qs`. */
  lemma {:induction false} SplitMembers(qs: seq<Quest>, views: seq<QuestView>)
    requires |views| == |qs|
    ensures forall q | q in Kept(qs, views) :: q in qs
    ensures forall q | q in Expired(qs, views) :: q in qs
  {
    if qs != [] {
      var n := |qs| - 1;
      SplitMembers(qs[..n], views[..n]);
      forall q | q in qs[..n] ensures q in qs {
        var k :| 0 <= k < n && qs[..n][k] == q;
        assert qs[k] == q;
      }
    }
  }

  /** Each quest of `qs` is on the side its view says. */
  lemma {:induction false} SplitPlaces(qs: seq<Quest>, views: seq<QuestView>)
    requires |views| == |qs|
    ensures forall k | 0 <= k < |qs| :: qs[k] in (if TimedOut(views[k], qs[k].timeLimit) then Expired(qs, views) else Kept(qs, views))
  {
    if qs != [] {
      var n := |qs| - 1;
      SplitPlaces(qs[..n], views[..n]);
      forall k | 0 <= k < n
        ensures qs[k] in (if TimedOut(views[k], qs[k].timeLimit) then Expired(qs, views) else Kept(qs, views))
      {
        assert qs[..n][k] == qs[k] && views[..n][k] == views[k];
      }
    }
  }

  /** In a list without repeats, the `i`-th quest is none of the others, and
      in particular not among those kept from the quests before it. */
  lemma NotKeptBefore(qs: seq<Quest>, views: seq<QuestView>, i: int)
    requires 0 <= i < |qs| == |views| && Distinct(qs)
    ensures forall k | 0 <= k < |qs| && k != i :: qs[k] != qs[i]
    ensures qs[i] !in Kept(qs[..i], views[..i])
  {
    forall k | 0 <= k < |qs| && k != i ensures qs[k] != qs[i] {
      if k < i { assert qs[k] != qs[i]; } else { assert qs[i] != qs[k]; }
    }
    SplitMembers(qs[..i], views[..i]);
    assert forall k | 0 <= k < i :: qs[..i][k] == qs[k];
  }

  /** The turn's split over one more quest. */
  lemma SplitStep(qs: seq<Quest>, views: seq<QuestView>, i: int)
    requires 0 <= i < |qs| == |views|
    ensures Kept(qs[..i + 1], views[..i + 1])
      == Kept(qs[..i], views[..i]) + (if TimedOut(views[i], qs[i].timeLimit) then [] else [qs[i]])
    ensures Expired(qs[..i + 1], views[..i + 1])
      == Expired(qs[..i], views[..i]) + (if TimedOut(views[i], qs[i].timeLimit) then [qs[i]] else [])
  {
    assert qs[..i + 1][..i] == qs[..i] && views[..i + 1][..i] == views[..i];
  }

  /** The turn's split over one more quest, followed by the quests not yet seen. */
  lemma SplitStepRest(qs: seq<Quest>, views: seq<QuestView>, i: int)
    requires 0 <= i < |qs| == |views|
    ensures qs[i..] == [qs[i]] + qs[i + 1..]
    ensures TimedOut(views[i], qs[i].timeLimit) ==>
      && Kept(qs[..i + 1], views[..i + 1]) + qs[i + 1..] == Kept(qs[..i], views[..i]) + qs[i + 1..]
      && Expired(qs[..i + 1], views[..i + 1]) == Expired(qs[..i], views[..i]) + [qs[i]]
    ensures !TimedOut(views[i], qs[i].timeLimit) ==>
      && Kept(qs[..i + 1], views[..i + 1]) + qs[i + 1..] == Kept(qs[..i], views[..i]) + qs[i..]
      && Expired(qs[..i + 1], views[..i + 1]) == Expired(qs[..i], views[..i])
  {
    SplitStep(qs, views, i);
    assert qs[i..] == [qs[i]] + qs[i + 1..];
  }

  /** The turn's messages over one more quest. */
  lemma TurnReportStep(qs: seq<Quest>, views: seq<QuestView>, i: int)
    requires 0 <= i < |qs| == |views|
    ensures TurnReport(qs[..i + 1], views[..i + 1])
      == TurnReport(qs[..i], views[..i]) + TurnLines(qs[i].name, views[i], qs[i].timeLimit)
  {
    assert qs[..i + 1][..i] == qs[..i] && views[..i + 1][..i] == views[..i];
  }

  /** The update's messages over one more quest. */
  lemma ReportStep(qs: seq<Quest>, views: seq<QuestView>, i: int, kind: QuestType, target: string, verb: string)
    requires 0 <= i < |qs| == |views|
    ensures ProgressReport(qs[..i + 1], views[..i + 1], kind, target, verb)
      == ProgressReport(qs[..i], views[..i], kind, target, verb) + QuestLines(qs[i].name, views[i], kind, target, verb)
  {
    assert qs[..i + 1][..i] == qs[..i] && views[..i + 1][..i] == views[..i];
  }

  /** The messages of the log's `process_turn()`. */
  function TurnReport(qs: seq<Quest>, views: seq<QuestView>): (r: seq<string>)
    requires |views| == |qs|
    ensures |r| <= |qs|
  {
    if qs == [] then []
    else
      var n := |qs| - 1;
      TurnReport(qs[..n], views[..n]) + TurnLines(qs[n].name, views[n], qs[n].timeLimit)
  }

  class QuestLog {
    var active: seq<Quest>
    var completed: seq<Quest>
    var failed: seq<Quest>

    constructor ()
      ensures active == [] && completed == [] && failed == []
    {
      active, completed, failed := [], [], [];
    }

    function ActiveSet(): set<Quest>
      reads this
    {
      set q | q in active
    }

    /** Each quest is in at most one list and at most once, and none of them
        is still available. */
    ghost predicate Valid()
      reads this, active, completed, failed
    {
      && Separate(active, completed, failed)
      && NoneAvailable(active) && NoneAvailable(completed) && NoneAvailable(failed)
    }

    /** `active_count`. */
    function ActiveCount(): nat
      reads this
    {
      |active|
    }

    /** `completed_count`. */
    function CompletedCount(): nat
      reads this
    {
      |completed|
    }

    /** `add_quest(quest)`: accepts the quest and lists it as active; a quest
        that is not available is refused and nothing changes. */
    method AddQuest(quest: Quest) returns (ok: bool)
      requires Valid()
      modifies quest`status, quest`turnsRemaining, this`active
      ensures Valid()
      ensures ok == (old(quest.status) == Available)
      ensures active == if ok then old(active) + [quest] else old(active)
      ensures quest.status == if ok then Active else old(quest.status)
      ensures quest.turnsRemaining == if ok && quest.timeLimit > 0 then quest.timeLimit else old(quest.turnsRemaining)
    {
      if quest.status == Available {
        assert quest !in active && quest !in completed && quest !in failed;
        SeparateAdd(active, completed, failed, quest);
      }
      ok := quest.Accept();
      if ok {
        active := active + [quest];
      }
    }

    /** `get_quest(quest_id)`: the first active quest with that id, if any. */
    method GetQuest(questId: string) returns (q: Quest?)
      ensures q == null ==> forall k | 0 <= k < |active| :: active[k].id != questId
      ensures q != null ==> exists k | 0 <= k < |active| ::
        active[k] == q && q.id == questId && forall j | 0 <= j < k :: active[j].id != questId
    {
      var i := 0;
      while i < |active|
        invariant 0 <= i <= |active|
        invariant forall j | 0 <= j < i :: active[j].id != questId
      {
        if active[i].id == questId {
          return active[i];
        }
        i := i + 1;
      }
      return null;
    }

    /** `update_kill_quest(monster_name)`: one kill of progress for every
        active quest, with the messages of `ProgressReport`. */
    method UpdateKillQuest(monsterName: string) returns (messages: seq<string>)
      requires Valid()
      modifies ActiveSet()`objectives, ActiveSet()`status
      ensures Valid()
      ensures forall k | 0 <= k < |active| ::
        ViewOf(active[k]) == Progressed(old(ViewOf(active[k])), Kill, monsterName, 1)
      ensures messages == ProgressReport(active, old(Views(active)), Kill, monsterName, "처치")
    {
      messages := UpdateAll(Kill, monsterName, "처치");
    }

    /** `update_collect_quest(item_name)`: one item of progress for every
        active quest, with the messages of `ProgressReport`. */
    method UpdateCollectQuest(itemName: string) returns (messages: seq<string>)
      requires Valid()
      modifies ActiveSet()`objectives, ActiveSet()`status
      ensures Valid()
      ensures forall k | 0 <= k < |active| ::
        ViewOf(active[k]) == Progressed(old(ViewOf(active[k])), Collect, itemName, 1)
      ensures messages == ProgressReport(active, old(Views(active)), Collect, itemName, "수집")
    {
      messages := UpdateAll(Collect, itemName, "수집");
    }

    /** The loop the two update operations share. */
    method UpdateAll(kind: QuestType, target: string, verb: string) returns (messages: seq<string>)
      requires Valid()
      modifies ActiveSet()`objectives, ActiveSet()`status
      ensures Valid()
      ensures forall k | 0 <= k < |active| ::
        ViewOf(active[k]) == Progressed(old(ViewOf(active[k])), kind, target, 1)
      ensures messages == ProgressReport(active, old(Views(active)), kind, target, verb)
    {
      ghost var views := Views(active);
      messages := [];
      var i := 0;
      while i < |active|
        invariant 0 <= i <= |active|
        invariant ProgressedUpTo(active, views, i, kind, target)
        invariant messages == ProgressReport(active[..i], views[..i], kind, target, verb)
      {
        var lines := UpdateAt(active[i], i, views, kind, target, verb);
        ReportStep(active, views, i, kind, target, verb);
        messages := messages + lines;
        i := i + 1;
      }
      assert active[..i] == active && views[..i] == views;
      forall q | q in active ensures q.status != Available {
        var k :| 0 <= k < |active| && active[k] == q;
      }
    }

    /** Quests before `i` have had their progress, the others not yet. */
    ghost predicate ProgressedUpTo(qs: seq<Quest>, views: seq<QuestView>, i: int, kind: QuestType, target: string)
      reads qs
    {
      && |views| == |qs| && 0 <= i <= |qs|
      && forall k | 0 <= k < |qs| ::
        ViewOf(qs[k]) == if k < i then Progressed(views[k], kind, target, 1) else views[k]
    }

    /** The body of the update loop, on the `i`-th active quest. */
    method UpdateAt(quest: Quest, i: int, ghost views: seq<QuestView>, kind: QuestType, target: string,
                    verb: string) returns (lines: seq<string>)
      requires 0 <= i < |active| && quest == active[i] && Distinct(active)
      requires ProgressedUpTo(active, views, i, kind, target)
      modifies quest`objectives, quest`status
      ensures ProgressedUpTo(active, views, i + 1, kind, target)
      ensures lines == QuestLines(quest.name, views[i], kind, target, verb)
    {
      lines := UpdateOne(quest, kind, target, verb);
    }

    /** One quest's part of an update: its progress and its messages. */
    method UpdateOne(quest: Quest, kind: QuestType, target: string, verb: string) returns (lines: seq<string>)
      modifies quest`objectives, quest`status
      ensures ViewOf(quest) == Progressed(old(ViewOf(quest)), kind, target, 1)
      ensures lines == QuestLines(quest.name, old(ViewOf(quest)), kind, target, verb)
    {
      var updated := quest.UpdateProgress(kind, target, 1);
      lines := [];
      if updated {
        lines := quest.ProgressLines(kind, target, verb);
        if quest.IsComplete() {
          lines := lines + [DoneLine(quest.name)];
        }
      }
    }

    /** `complete_quest(quest)`: an active quest that is completed is finished,
        moved from the active to the completed list, and its rewards returned;
        otherwise the result is None and nothing changes. */
    method CompleteQuest(quest: Quest) returns (reward: Option<QuestReward>)
      requires Valid()
      modifies quest`status, this`active, this`completed
      ensures Valid()
      ensures old(quest in active && quest.status == Completed) ==>
        && reward == Some(quest.rewards) && quest.status == Finished
        && active == RemoveFirst(old(active), quest) && completed == old(completed) + [quest]
      ensures !old(quest in active && quest.status == Completed) ==>
        reward == None && quest.status == old(quest.status) && active == old(active) && completed == old(completed)
    {
      if quest !in active {
        return None;
      }
      if quest.status == Completed {
        SeparateMove(active, completed, failed, quest);
        var r := quest.Finish();
        active := RemoveFirst(active, quest);
        completed := completed + [quest];
        return Some(r);
      }
      return None;
    }

    /** `process_turn()`: every active quest counts a turn; those that time
        out move, in order, from the active list to the end of the failed list.
        The messages are those of `TurnReport`. */
    method ProcessTurn() returns (messages: seq<string>)
      requires Valid()
      modifies this`active, this`failed, ActiveSet()`status, ActiveSet()`turnsRemaining
      ensures Valid()
      ensures forall k | 0 <= k < |old(active)| ::
        ViewOf(old(active)[k]) == Ticked(old(Views(active))[k], old(active)[k].timeLimit)
      ensures active == Kept(old(active), old(Views(active)))
      ensures failed == old(failed) + Expired(old(active), old(Views(active)))
      ensures completed == old(completed)
      ensures messages == TurnReport(old(active), old(Views(active)))
    {
      ghost var views := Views(active);
      ghost var failed0 := failed;
      SeparateTurn(active, completed, failed, views);
      messages := RunTurns(active, views, failed0);
      TurnKeepsValid(old(active), views, failed0);
    }

    /** The loop of `process_turn()`, over a copy of the active list. */
    method RunTurns(copy: seq<Quest>, ghost views: seq<QuestView>, ghost failed0: seq<Quest>)
      returns (messages: seq<string>)
      requires TurnedUpTo(copy, views, 0, failed0)
      modifies this`active, this`failed, (set q | q in copy)`status, (set q | q in copy)`turnsRemaining
      ensures active == Kept(copy, views) && failed == failed0 + Expired(copy, views)
      ensures forall k | 0 <= k < |copy| :: ViewOf(copy[k]) == Ticked(views[k], copy[k].timeLimit)
      ensures messages == TurnReport(copy, views)
    {
      messages := [];
      var i := 0;
      while i < |copy|
        invariant TurnedUpTo(copy, views, i, failed0)
        invariant messages == TurnReport(copy[..i], views[..i])
      {
        var quest := copy[i];
        var timedOut := TurnAt(quest, copy, i, views, failed0);
        TurnReportStep(copy, views, i);
        messages := messages + AfterTurnLines(quest.name, timedOut, quest.timeLimit, quest.turnsRemaining);
        i := i + 1;
      }
      assert copy[..i] == copy && views[..i] == views;
    }

    /** The lists after a whole turn satisfy the log's invariant. */
    lemma TurnKeepsValid(copy: seq<Quest>, views: seq<QuestView>, failed0: seq<Quest>)
      requires |views| == |copy|
      requires active == Kept(copy, views) && failed == failed0 + Expired(copy, views)
      requires forall k | 0 <= k < |copy| :: ViewOf(copy[k]) == Ticked(views[k], copy[k].timeLimit)
      requires Separate(Kept(copy, views), completed, failed0 + Expired(copy, views))
      requires forall k | 0 <= k < |views| :: views[k].status != Available
      requires NoneAvailable(completed) && NoneAvailable(failed0)
      ensures Valid()
    {
      SplitWithin(copy, views);
      forall q | q in active + failed ensures q.status != Available {
        if q in copy {
          var k :| 0 <= k < |copy| && copy[k] == q;
        }
      }
    }

    /** The lists and quests of the turn loop after the first `i` quests of `copy`. */
    ghost predicate TurnedUpTo(copy: seq<Quest>, views: seq<QuestView>, i: int, failed0: seq<Quest>)
      reads this, copy
    {
      && |views| == |copy| && 0 <= i <= |copy| && Distinct(copy)
      && active == Kept(copy[..i], views[..i]) + copy[i..]
      && failed == failed0 + Expired(copy[..i], views[..i])
      && (forall k | 0 <= k < |copy| ::
            ViewOf(copy[k]) == if k < i then Ticked(views[k], copy[k].timeLimit) else views[k])
    }

    /** The body of the turn loop, on the `i`-th quest of `copy`: its turn, and
        its move to the failed list when it times out. */
    method TurnAt(quest: Quest, copy: seq<Quest>, i: int, ghost views: seq<QuestView>, ghost failed0: seq<Quest>)
      returns (timedOut: bool)
      requires 0 <= i < |copy| && quest == copy[i]
      requires TurnedUpTo(copy, views, i, failed0)
      modifies this`active, this`failed, quest`status, quest`turnsRemaining
      ensures TurnedUpTo(copy, views, i + 1, failed0)
      ensures timedOut == TimedOut(views[i], quest.timeLimit)
      ensures quest.turnsRemaining == Ticked(views[i], quest.timeLimit).turnsRemaining
    {
      SplitStepRest(copy, views, i);
      NotKeptBefore(copy, views, i);
      var kept := Kept(copy[..i], views[..i]);
      timedOut := quest.ProcessTurn();
      if timedOut {
        MoveToFailed(quest, kept, copy[i + 1..]);
      }
    }

    /** `active_quests.remove(quest)` and `failed_quests.append(quest)`, for a
        quest that follows the quests kept so far. */
    method MoveToFailed(quest: Quest, ghost kept: seq<Quest>, ghost rest: seq<Quest>)
      requires active == kept + [quest] + rest && quest !in kept
      modifies this`active, this`failed
      ensures active == kept + rest && failed == old(failed) + [quest]
    {
      RemoveFirstAt(active, quest, |kept|);
      assert active[..|kept|] == kept && active[|kept| + 1..] == rest;
      active := RemoveFirst(active, quest);
      failed := failed + [quest];
    }
  }

  /** No quest in `qs` is still available. */
  ghost predicate NoneAvailable(qs: seq<Quest>)
    reads qs
  {
    forall q | q in qs :: q.status != Available
  }
}
