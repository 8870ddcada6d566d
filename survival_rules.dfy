// The pure side of src/components/survival.py: status thresholds, the
// messages a status change produces, the eat/drink verdicts and the status line.

module SurvivalRules {

  import opened Util

  datatype Status = Normal | Warning | Critical | Dying

  /** How bad a status is; a larger rank is worse. */
  function Rank(s: Status): nat
  {
    match s
    case Normal => 0
    case Warning => 1
    case Critical => 2
    case Dying => 3
  }

  /** `hunger_status` / `thirst_status`: the same thresholds for both meters. */
  function StatusOf(level: int): (s: Status)
    ensures s == Dying <==> level <= 0
    ensures s == Critical <==> 0 < level < 50
    ensures s == Warning <==> 50 <= level < 200
    ensures s == Normal <==> 200 <= level
  {
    if level <= 0 then Dying
    else if level < 50 then Critical
    else if level < 200 then Warning
    else Normal
  }

  /** Lowering a meter never makes its status better. */
  lemma StatusMonotone(a: int, b: int)
    requires a <= b
    ensures Rank(StatusOf(a)) >= Rank(StatusOf(b))
  {}

  datatype Meter = Hunger | Thirst

  /** The message `process_turn` logs when a meter enters status `s`. */
  function ChangeMessage(m: Meter, s: Status): (r: Option<string>)
    ensures r.None? <==> s == Normal
  {
    match (m, s)
    case (Hunger, Warning) => Some("배가 고파지기 시작한다.")
    case (Hunger, Critical) => Some("심하게 배가 고프다!")
    case (Hunger, Dying) => Some("굶주림으로 죽어가고 있다!")
    case (Thirst, Warning) => Some("목이 마르기 시작한다.")
    case (Thirst, Critical) => Some("심하게 목이 마르다!")
    case (Thirst, Dying) => Some("탈수로 죽어가고 있다!")
    case (_, Normal) => None
  }

  /** The messages for one meter whose level went from `before` to `after`:
      nothing unless the status changed. */
  function TransitionMessages(m: Meter, before: int, after: int): (r: seq<string>)
    ensures |r| <= 1
    ensures StatusOf(before) == StatusOf(after) ==> r == []
    ensures after <= before && StatusOf(before) != StatusOf(after) ==> |r| == 1
  {
    if StatusOf(after) == StatusOf(before) then []
    else match ChangeMessage(m, StatusOf(after))
      case Some(msg) => [msg]
      case None => []
  }

  const FullAfterEating := "배가 부르다."
  const AteEnough := "적당히 먹었다."
  const AteLittle := "조금 먹었다."
  const CannotEat := "더 이상 먹을 수 없다."
  const ThirstQuenched := "갈증이 해소되었다."
  const DrankEnough := "적당히 마셨다."
  const DrankLittle := "조금 마셨다."
  const CannotDrink := "더 이상 마실 수 없다."
  const RestStarted := "휴식을 시작한다..."
  const RestStopped := "휴식을 멈춘다."

  /** The verdict of `eat` (meter Hunger) or `drink` (meter Thirst) given the new
      level, the maximum and how much was gained.  The 0.8 and 0.5 fractions are
      compared exactly: `level >= 0.8 * max` is `5 * level >= 4 * max`. */
  function IntakeMessage(m: Meter, level: int, max: int, gained: int): (r: string)
    ensures gained <= 0 ==> r == (if m == Hunger then CannotEat else CannotDrink)
    ensures gained > 0 && 5 * level >= 4 * max ==> r == (if m == Hunger then FullAfterEating else ThirstQuenched)
    ensures gained > 0 && 5 * level < 4 * max && 2 * level >= max ==> r == (if m == Hunger then AteEnough else DrankEnough)
    ensures gained > 0 && 5 * level < 4 * max && 2 * level < max ==> r == (if m == Hunger then AteLittle else DrankLittle)
  {
    if gained > 0 then
      if 5 * level >= 4 * max then (if m == Hunger then FullAfterEating else ThirstQuenched)
      else if 2 * level >= max then (if m == Hunger then AteEnough else DrankEnough)
      else (if m == Hunger then AteLittle else DrankLittle)
    else if m == Hunger then CannotEat else CannotDrink
  }

  /** The hunger word of the status line, if any. */
  function HungerWord(s: Status): Option<string>
  {
    match s
    case Dying => Some("굶주림")
    case Critical => Some("매우 배고픔")
    case Warning => Some("배고픔")
    case Normal => None
  }

  /** The thirst word of the status line, if any. */
  function ThirstWord(s: Status): Option<string>
  {
    match s
    case Dying => Some("탈수")
    case Critical => Some("매우 목마름")
    case Warning => Some("목마름")
    case Normal => None
  }

  function Words(o: Option<string>): seq<string>
  {
    if o.Some? then [o.value] else []
  }

  /** `get_status_string` for a body temperature inside [35, 39]: the hunger word
      then the thirst word joined by ", ", or "정상" when neither applies. */
  function StatusLine(hunger: int, thirst: int): (r: string)
    ensures StatusOf(hunger) == Normal && StatusOf(thirst) == Normal <==> r == "정상"
    ensures StatusOf(hunger) != Normal && StatusOf(thirst) == Normal ==> r == HungerWord(StatusOf(hunger)).value
    ensures StatusOf(hunger) == Normal && StatusOf(thirst) != Normal ==> r == ThirstWord(StatusOf(thirst)).value
    ensures StatusOf(hunger) != Normal && StatusOf(thirst) != Normal ==>
      r == HungerWord(StatusOf(hunger)).value + ", " + ThirstWord(StatusOf(thirst)).value
  {
    var parts := Words(HungerWord(StatusOf(hunger))) + Words(ThirstWord(StatusOf(thirst)));
    if parts == [] then "정상" else Join(parts, ", ")
  }
}
