// The pure side of src/components/npc.py: roles, disposition thresholds,
// greetings, the disposition-change message and the dialogue tables.

module NpcRules {

  import opened Util

  datatype NPCRole = Villager | Merchant | Priest | Blacksmith | Innkeeper | QuestGiver | Guard | Hermit

  datatype DialogueOption = DialogueOption(
    text: string,
    response: string,
    action: Option<string>,
    condition: Option<string>,
    nextDialogue: Option<string>)

  datatype Dialogue = Dialogue(id: string, npcText: string, options: seq<DialogueOption>)

  predicate IsFriendly(disposition: int) { disposition >= 30 }

  predicate IsHostile(disposition: int) { disposition < 10 }

  /** A hostile NPC is never friendly, and the two thresholds leave [10, 30) as neither. */
  lemma HostileIsNotFriendly(d: int)
    ensures IsHostile(d) ==> !IsFriendly(d)
    ensures !IsHostile(d) && !IsFriendly(d) <==> 10 <= d < 30
  {}

  /** The three greeting tables of `get_greeting`; QUEST_GIVER is in none of them. */
  function GreetingTable(disposition: int): (t: map<NPCRole, string>)
    ensures t.Keys == {Merchant, Priest, Blacksmith, Innkeeper, Villager, Guard, Hermit}
  {
    if disposition >= 70 then
      map[Merchant := "어서 오게, 친구! 좋은 물건이 많이 있다네.",
          Priest := "신의 축복이 함께 하길. 무엇을 도와줄까?",
          Blacksmith := "오, 자네군! 오늘은 뭘 만들어줄까?",
          Innkeeper := "어서 와! 방이 필요한가?",
          Villager := "안녕하신가, 친구!",
          Guard := "오늘도 무사하길.",
          Hermit := "...오랜만에 방문객이군."]
    else if disposition >= 30 then
      map[Merchant := "어서 오게. 뭘 찾나?",
          Priest := "신의 가호가 있기를. 무슨 일인가?",
          Blacksmith := "뭐, 필요한 게 있나?",
          Innkeeper := "뭘 원하나?",
          Villager := "무슨 일이지?",
          Guard := "마을에 무슨 일로?",
          Hermit := "...뭘 원하나?"]
    else
      map[Merchant := "흥, 또 왔군.",
          Priest := "...그대의 영혼이 걱정되는군.",
          Blacksmith := "뭐야?",
          Innkeeper := "자네 같은 건 손님으로 안 받아.",
          Villager := "저리 가!",
          Guard := "수상한 놈이군. 조심해라.",
          Hermit := "꺼져."]
  }

  /** `get_greeting`: the role's line from the table for the disposition, or "...". */
  function Greeting(role: NPCRole, disposition: int): (g: string)
  {
    var t := GreetingTable(disposition);
    if role in t then t[role] else "..."
  }

  lemma GreetingTiers(role: NPCRole, disposition: int)
    ensures role == QuestGiver ==> Greeting(role, disposition) == "..."
    ensures disposition >= 70 && role == Merchant ==> Greeting(role, disposition) == "어서 오게, 친구! 좋은 물건이 많이 있다네."
    ensures 30 <= disposition < 70 && role == Merchant ==> Greeting(role, disposition) == "어서 오게. 뭘 찾나?"
    ensures disposition < 30 && role == Merchant ==> Greeting(role, disposition) == "흥, 또 왔군."
  {}

  /** The disposition after `change_disposition(amount)`, clamped to [0, 100]. */
  function NewDisposition(before: int, amount: int): (d: int)
    ensures 0 <= d <= 100
    ensures 0 <= before + amount <= 100 ==> d == before + amount
    ensures before + amount > 100 ==> d == 100
    ensures before + amount < 0 ==> d == 0
  {
    Clamp(before + amount, 0, 100)
  }

  function BecameFriend(name: string): string { name + "이(가) 당신을 친구로 여기게 되었다!" }
  function LikedMore(name: string): string { name + "의 호감도가 올랐다." }
  function BecameDislike(name: string): string { name + "이(가) 당신을 싫어하게 되었다." }
  function LikedLess(name: string): string { name + "의 호감도가 내려갔다." }

  /** The message `change_disposition` returns for a move from `before` to `now`. */
  function DispositionMessage(name: string, before: int, now: int): (m: string)
    ensures m == BecameFriend(name) <==> now > before && now >= 70 && before < 70
    ensures m == BecameDislike(name) <==> now < before && now < 30 && before >= 30
    ensures m == "" <==> now == before
  {
    if now > before then
      (if now >= 70 && before < 70 then BecameFriend(name) else LikedMore(name))
    else if now < before then
      (if now < 30 && before >= 30 then BecameDislike(name) else LikedLess(name))
    else ""
  }

  function Opt(text: string, response: string): DialogueOption
  {
    DialogueOption(text, response, None, None, None)
  }

  function Act(text: string, response: string, action: string): DialogueOption
  {
    DialogueOption(text, response, Some(action), None, None)
  }

  function Paid(text: string, response: string, action: string, condition: string): DialogueOption
  {
    DialogueOption(text, response, Some(action), Some(condition), None)
  }

  function Goto(text: string, response: string, next: string): DialogueOption
  {
    DialogueOption(text, response, None, None, Some(next))
  }

  function MerchantDialogues(): map<string, Dialogue>
  {
    map["greeting" := Dialogue("greeting", "어서 오게. 뭘 찾나?", [
          Act("물건을 보고 싶네.", "좋아, 구경해 보게.", "trade"),
          Goto("이 마을에 대해 알려주게.", "여긴 조용한 마을이지. 던전에서 모험가들이 가끔 온다네.", "village_info"),
          Opt("안녕히.", "다음에 또 오게.")]),
        "village_info" := Dialogue("village_info", "더 알고 싶은 게 있나?", [
          Opt("던전은 어디 있지?", "마을 북쪽에 있네. 조심하게, 위험하다네."),
          Opt("다른 건?", "사제님이 신전에 계시네. 축복을 받고 싶다면 찾아가 보게."),
          Goto("고맙네.", "천만에.", "greeting")])]
  }

  function PriestDialogues(): map<string, Dialogue>
  {
    map["greeting" := Dialogue("greeting", "신의 가호가 있기를. 무엇을 도와줄까?", [
          Paid("축복을 받고 싶습니다.", "신에게 기도를 올리겠네.", "bless", "has_gold:50"),
          Goto("신앙에 대해 알려주십시오.", "우리는 빛의 신을 섬기네. 정의와 자비의 신이시지.", "faith_info"),
          Paid("치료를 부탁드립니다.", "신의 손길로 치유하겠네.", "heal", "has_gold:30"),
          Opt("감사합니다.", "신의 가호가 함께 하길.")]),
        "faith_info" := Dialogue("faith_info", "신앙의 길을 걷고 싶은가?", [
          Act("신도가 되고 싶습니다.", "좋네. 신을 섬기겠다는 맹세를 하게.", "join_religion"),
          Goto("생각해 보겠습니다.", "천천히 생각해 보게.", "greeting")])]
  }

  function BlacksmithDialogues(): map<string, Dialogue>
  {
    map["greeting" := Dialogue("greeting", "뭐, 필요한 게 있나?", [
          Act("무기를 보고 싶네.", "좋아, 보여주지.", "trade"),
          Paid("장비 수리를 부탁하네.", "어디 보자...", "repair", "has_gold:20"),
          Opt("됐네.", "그래.")])]
  }

  function InnkeeperDialogues(): map<string, Dialogue>
  {
    map["greeting" := Dialogue("greeting", "뭘 원하나?", [
          Paid("방을 빌리고 싶네.", "하룻밤에 20골드야.", "rest", "has_gold:20"),
          Act("음식을 사고 싶네.", "좋아, 뭘 원하나?", "trade"),
          Goto("소문 좀 들려주게.", "동쪽 숲에서 늑대가 자주 나타난다더군.", "rumors"),
          Opt("됐네.", "그래.")]),
        "rumors" := Dialogue("rumors", "다른 소문도 들을 텐가?", [
          Opt("더 알려주게.", "던전 깊은 곳에 보물이 있다는 소문이 있어."),
          Goto("고맙네.", "뭐, 별 거 아니야.", "greeting")])]
  }

  /** A dialogue table is closed when it has a "greeting" entry, each entry's id
      is its key, and every `next_dialogue` names a key of the same table. */
  predicate Closed(d: map<string, Dialogue>)
  {
    && "greeting" in d
    && (forall k | k in d :: d[k].id == k)
    && (forall k, i | k in d && 0 <= i < |d[k].options| ::
          d[k].options[i].nextDialogue.Some? ==> d[k].options[i].nextDialogue.value in d)
  }

  /** `Closed` for a table whose key set is given, checked entry by entry. */
  lemma ClosedByEntries(d: map<string, Dialogue>)
    requires "greeting" in d
    requires forall k | k in d :: d[k].id == k && NextsIn(d[k].options, d.Keys)
    ensures Closed(d)
  {
    forall k, i | k in d && 0 <= i < |d[k].options| && d[k].options[i].nextDialogue.Some?
      ensures d[k].options[i].nextDialogue.value in d
    {
      assert d[k].options[i] in d[k].options;
    }
  }

  predicate NextsIn(opts: seq<DialogueOption>, keys: set<string>)
  {
    forall o | o in opts :: o.nextDialogue.Some? ==> o.nextDialogue.value in keys
  }

  lemma MerchantDialoguesClosed()
    ensures Closed(MerchantDialogues())
  {
    var d := MerchantDialogues();
    assert d.Keys == {"greeting", "village_info"};
    ClosedByEntries(d);
  }

  lemma PriestDialoguesClosed()
    ensures Closed(PriestDialogues())
  {
    var d := PriestDialogues();
    assert d.Keys == {"greeting", "faith_info"};
    ClosedByEntries(d);
  }

  lemma BlacksmithDialoguesClosed()
    ensures Closed(BlacksmithDialogues())
  {
    var d := BlacksmithDialogues();
    assert d.Keys == {"greeting"};
    ClosedByEntries(d);
  }

  lemma InnkeeperDialoguesClosed()
    ensures Closed(InnkeeperDialogues())
  {
    var d := InnkeeperDialogues();
    assert d.Keys == {"greeting", "rumors"};
    ClosedByEntries(d);
  }
}
