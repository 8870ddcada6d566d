// The browser quests of web/game.js: `Quest` (objectives, `updateProgress`,
// `isComplete`) and `QuestLog` (`addQuest`, `updateKillQuest`).  The
// objective records are values held in the quest's list, so two quests never
// share an objective.

module WebQuests {

  import opened Util

  /** `{type, target, required, current}`. */
  datatype WebObjective = WebObjective(kind: string, target: string, required: int, current: int)

  /** `'active'`, `'completed'`, `'failed'`. */
  datatype WebQuestStatus = QuestActive | QuestCompleted | QuestFailed

  /** The objective `updateProgress(type, target)` advances. */
  predicate Advances(o: WebObjective, kind: string, target: string)
  {
    o.kind == kind && o.target == target && o.current < o.required
  }

  /** One objective after `updateProgress(kind, target, amount)`. */
  function Advance(o: WebObjective, kind: string, target: string, amount: int): (r: WebObjective)
    ensures r.kind == o.kind && r.target == o.target && r.required == o.required
    ensures !Advances(o, kind, target) ==> r == o
    ensures Advances(o, kind, target) ==> r.current <= r.required
    ensures Advances(o, kind, target) && amount >= 0 ==> o.current <= r.current
  {
    if Advances(o, kind, target) then o.(current := Min(o.current + amount, o.required)) else o
  }

  function AdvanceAll(objs: seq<WebObjective>, kind: string, target: string, amount: int): (r: seq<WebObjective>)
    ensures |r| == |objs|
    ensures forall i | 0 <= i < |objs| :: r[i] == Advance(objs[i], kind, target, amount)
  {
    seq(|objs|, i requires 0 <= i < |objs| => Advance(objs[i], kind, target, amount))
  }

  /** Some objective of `objs` is one `updateProgress(kind, target)` advances. */
  predicate AnyAdvances(objs: seq<WebObjective>, kind: string, target: string)
  {
    exists i | 0 <= i < |objs| :: Advances(objs[i], kind, target)
  }

  predicate NoneOver(objs: seq<WebObjective>)
  {
    forall i | 0 <= i < |objs| :: objs[i].current <= objs[i].required
  }

  predicate AllDone(objs: seq<WebObjective>)
  {
    forall i | 0 <= i < |objs| :: objs[i].current >= objs[i].required
  }

  /** Progress never pushes a count past its requirement, and only the
      objectives of the given type and target move. */
  lemma AdvanceKeepsCounts(objs: seq<WebObjective>, kind: string, target: string, amount: int)
    requires NoneOver(objs)
    ensures NoneOver(AdvanceAll(objs, kind, target, amount))
    ensures forall i | 0 <= i < |objs| && !(objs[i].kind == kind && objs[i].target == target) ::
      AdvanceAll(objs, kind, target, amount)[i] == objs[i]
  {
  }

  /** Enough progress on every objective of one type and target completes
      them: an amount that covers each remaining count. */
  lemma LargeAmountCompletes(objs: seq<WebObjective>, kind: string, target: string, amount: int)
    requires forall i | 0 <= i < |objs| :: objs[i].kind == kind && objs[i].target == target
    requires forall i | 0 <= i < |objs| :: objs[i].current + amount >= objs[i].required
    ensures AllDone(AdvanceAll(objs, kind, target, amount))
  {
  }

  class WebQuest {
    const id: string
    const name: string
    var objectives: seq<WebObjective>
    const rewardGold: int
    var status: WebQuestStatus

    /** `new Quest(id, name, description, objectives, rewards)`: active. */
    constructor (id: string, name: string, objectives: seq<WebObjective>, rewardGold: int)
      ensures this.id == id && this.name == name && this.objectives == objectives
      ensures this.rewardGold == rewardGold && status == QuestActive
    {
      this.id, this.name, this.objectives, this.rewardGold := id, name, objectives, rewardGold;
      status := QuestActive;
    }

    /** `isComplete`: every objective has reached its required count. */
    predicate IsComplete()
      reads this
    {
      AllDone(objectives)
    }

    /** `updateProgress(type, target, amount)`: advances every matching
        objective that is not done, reports whether any did, and marks the
        quest completed when one did and all are now done.  The quest's status
        is not consulted. */
    method UpdateProgress(kind: string, target: string, amount: int) returns (updated: bool)
      modifies this`objectives, this`status
      ensures objectives == AdvanceAll(old(objectives), kind, target, amount)
      ensures updated <==> AnyAdvances(old(objectives), kind, target)
      ensures status == if updated && AllDone(objectives) then QuestCompleted else old(status)
    {
      updated := false;
      var objs := objectives;
      var i := 0;
      while i < |objs|
        invariant 0 <= i <= |objs| == |objectives|
        invariant forall j | 0 <= j < i :: objs[j] == Advance(objectives[j], kind, target, amount)
        invariant forall j | i <= j < |objs| :: objs[j] == objectives[j]
        invariant updated <==> AnyAdvances(objectives[..i], kind, target)
      {
        var o := objs[i];
        if o.kind == kind && o.target == target && o.current < o.required {
          objs := objs[i := o.(current := Min(o.current + amount, o.required))];
          updated := true;
        }
        i := i + 1;
      }
      assert objs == AdvanceAll(objectives, kind, target, amount);
      objectives := objs;
      if updated && AllDone(objectives) {
        status := QuestCompleted;
      }
    }
    /** One quest's part of `updateKillQuest(monsterName)`: one kill of
        progress, then the progress line for the first kill objective of
        that monster and the completion line, when the quest moved. */
    method KillProgress(monsterName: string) returns (lines: seq<string>)
      modifies this`objectives, this`status
      ensures |lines| <= 2
      ensures objectives == AdvanceAll(old(objectives), "kill", monsterName, 1)
      ensures status == if AnyAdvances(old(objectives), "kill", monsterName) && AllDone(objectives) then QuestCompleted else old(status)
      ensures NoneOver(old(objectives)) ==> NoneOver(objectives)
    {
      if NoneOver(objectives) {
        AdvanceKeepsCounts(objectives, "kill", monsterName, 1);
      }
      var updated := UpdateProgress("kill", monsterName, 1);
      lines := [];
      if updated {
        var k := FindObjective(objectives, "kill", monsterName);
        if k >= 0 {
          var o := objectives[k];
          lines := ["[퀘스트] " + name + ": " + o.target + " 처치 ("
                    + IntToString(o.current) + "/" + IntToString(o.required) + ")"];
        }
        if IsComplete() {
          lines := lines + ["[퀘스트] '" + name + "' 완료!"];
        }
      }
    }
  }

  /** Index of the first objective of `objs` with the given type and target, or -1:
      `objectives.find(o => o.type === kind && o.target === target)`. */
  function FindObjective(objs: seq<WebObjective>, kind: string, target: string): (i: int)
    ensures -1 <= i < |objs|
    ensures i >= 0 ==> objs[i].kind == kind && objs[i].target == target
    ensures forall j | 0 <= j < |objs| && (i == -1 || j < i) :: !(objs[j].kind == kind && objs[j].target == target)
  {
    if objs == [] then -1
    else if objs[0].kind == kind && objs[0].target == target then 0
    else var k := FindObjective(objs[1..], kind, target); if k == -1 then -1 else k + 1
  }

  class WebQuestLog {
    var active: seq<WebQuest>
    var completed: seq<WebQuest>

    constructor ()
      ensures active == [] && completed == []
    {
      active, completed := [], [];
    }

    /** `addQuest`: appends to the active list. */
    method AddQuest(q: WebQuest)
      modifies this`active
      ensures active == old(active) + [q]
    {
      active := active + [q];
    }

    /** `updateKillQuest(monsterName)`: one kill of progress for every active
        quest, with a progress line for each quest that moved and a completion
        line for each one that is now complete.  Each quest on the list (each
        quest `addQuest` receives is a new one) ends with its objectives
        advanced by one kill of `monsterName`, and is completed when that moved
        one of them and all are now done.  No count passes its requirement,
        and a status changes only to completed. */
    method UpdateKillQuest(monsterName: string) returns (messages: seq<string>)
      modifies set q | q in active
      ensures |messages| <= 2 * |active|
      ensures Distinct(active) ==> forall j | 0 <= j < |active| ::
        && active[j].objectives == AdvanceAll(old(active[j].objectives), "kill", monsterName, 1)
        && active[j].status == (if AnyAdvances(old(active[j].objectives), "kill", monsterName) && AllDone(active[j].objectives)
                                then QuestCompleted else old(active[j].status))
      ensures forall q | q in active :: q.status == old(q.status) || q.status == QuestCompleted
      ensures forall q | q in active :: NoneOver(old(q.objectives)) ==> NoneOver(q.objectives)
      ensures forall q | q in active :: |q.objectives| == |old(q.objectives)|
    {
      messages := [];
      var i := 0;
      while i < |active|
        invariant 0 <= i <= |active|
        invariant |messages| <= 2 * i
        invariant forall q | q in active :: q.status == old(q.status) || q.status == QuestCompleted
        invariant forall q | q in active :: NoneOver(old(q.objectives)) ==> NoneOver(q.objectives)
        invariant forall q | q in active :: |q.objectives| == |old(q.objectives)|
        invariant Distinct(active) ==> forall j | 0 <= j < i ::
          && active[j].objectives == AdvanceAll(old(active[j].objectives), "kill", monsterName, 1)
          && active[j].status == (if AnyAdvances(old(active[j].objectives), "kill", monsterName) && AllDone(active[j].objectives)
                                  then QuestCompleted else old(active[j].status))
        invariant Distinct(active) ==> forall j | i <= j < |active| ::
          active[j].objectives == old(active[j].objectives) && active[j].status == old(active[j].status)
      {
        var lines := active[i].KillProgress(monsterName);
        messages := messages + lines;
        i := i + 1;
      }
    }
  }
}
