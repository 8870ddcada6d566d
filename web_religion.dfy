// The browser religion of web/game.js: the four deities, `Religion`
// (`favorLevel`, `convert`, `pray`, `processTurn`).  The `Math.random()` draw
// of `pray` is a parameter, and its float comparison is taken over exact reals.

module WebReligions {

  import opened Util

  datatype WebDeity = WebDeity(id: string, name: string, title: string, domain: string)

  /** The `DEITIES` table. */
  const Deities: seq<WebDeity> := [
    WebDeity("solarius", "솔라리우스", "빛의 신", "light"),
    WebDeity("grommash", "그롬마쉬", "전쟁의 신", "war"),
    WebDeity("sylvana", "실바나", "자연의 여신", "nature"),
    WebDeity("mortis", "모르티스", "죽음의 신", "death")
  ]

  /** The favour levels from wrathful to exalted. */
  const FavorNames: seq<string> := ["분노", "불쾌", "중립", "기쁨", "축복", "찬양"]

  /** Position of `favor` among the bands <= -50, < 0, < 25, < 50, < 80, otherwise. */
  function FavorRank(favor: int): (k: nat)
    ensures k < |FavorNames|
    ensures k == 0 <==> favor <= -50
    ensures k == 5 <==> favor >= 80
  {
    if favor <= -50 then 0
    else if favor < 0 then 1
    else if favor < 25 then 2
    else if favor < 50 then 3
    else if favor < 80 then 4
    else 5
  }

  /** `favorLevel`. */
  function FavorLevel(favor: int): (s: string)
  {
    if favor <= -50 then "분노"
    else if favor < 0 then "불쾌"
    else if favor < 25 then "중립"
    else if favor < 50 then "기쁨"
    else if favor < 80 then "축복"
    else "찬양"
  }

  /** The level is the name of the favour's band, and more favour never lowers it. */
  lemma FavorLevelIsMonotone(a: int, b: int)
    requires a <= b
    ensures FavorLevel(a) == FavorNames[FavorRank(a)]
    ensures FavorRank(a) <= FavorRank(b)
  {
  }

  /** The roll `pray` has to beat: `roll < 0.3 + favor / 200` with favour >= 0. */
  predicate PrayerAnswered(favor: int, roll: Fraction)
  {
    favor >= 0 && roll < 0.3 + favor as real / 200.0
  }

  /** Negative favour is never answered; any non-negative favour is answered
      on a roll below 0.3; from 140 on every roll is answered. */
  lemma PrayerOdds(favor: int, roll: Fraction)
    ensures favor < 0 ==> !PrayerAnswered(favor, roll)
    ensures favor >= 0 && roll < 0.3 ==> PrayerAnswered(favor, roll)
    ensures favor >= 140 ==> PrayerAnswered(favor, roll)
  {
  }

  class WebReligion {
    var deity: Option<WebDeity>
    var faithPoints: int
    var favor: int
    var prayerTimeout: int

    constructor ()
      ensures deity == None && faithPoints == 0 && favor == 0 && prayerTimeout == 0
    {
      deity, faithPoints, favor, prayerTimeout := None, 0, 0, 0;
    }

    /** `convert(deity)`: favour 10 and no faith, whether or not a deity was held. */
    method Convert(d: WebDeity) returns (msg: string)
      modifies this`deity, this`favor, this`faithPoints
      ensures deity == Some(d) && favor == 10 && faithPoints == 0
      ensures msg == d.name + "에게 귀의했다."
    {
      deity, favor, faithPoints := Some(d), 10, 0;
      msg := d.name + "에게 귀의했다.";
    }

    /** `pray()` with `roll` the `Math.random()` draw.  Without a deity, or
        with the timeout running, nothing changes; otherwise the timeout is set
        to 300 and the prayer is answered, with a blessing, exactly when
        `PrayerAnswered` holds. */
    method Pray(roll: Fraction) returns (success: bool, message: string, blessing: bool)
      modifies this`prayerTimeout
      ensures deity == None ==> !success && !blessing && message == "섬기는 신이 없다." && prayerTimeout == old(prayerTimeout)
      ensures deity != None && old(prayerTimeout) > 0 ==>
        !success && !blessing && prayerTimeout == old(prayerTimeout)
        && message == "아직 기도할 수 없다. (" + IntToString(old(prayerTimeout)) + "턴)"
      ensures deity != None && old(prayerTimeout) <= 0 ==>
        prayerTimeout == 300 && success == blessing == PrayerAnswered(favor, roll)
      ensures deity != None && old(prayerTimeout) <= 0 && favor < 0 ==> message == deity.value.name + "은(는) 응답하지 않는다."
      ensures deity != None && old(prayerTimeout) <= 0 && PrayerAnswered(favor, roll) ==> message == deity.value.name + "이(가) 은총을 내린다!"
      ensures deity != None && old(prayerTimeout) <= 0 && favor >= 0 && !PrayerAnswered(favor, roll) ==>
        message == deity.value.name + "은(는) 침묵한다."
    {
      blessing := false;
      if deity == None {
        return false, "섬기는 신이 없다.", false;
      }
      if prayerTimeout > 0 {
        return false, "아직 기도할 수 없다. (" + IntToString(prayerTimeout) + "턴)", false;
      }
      prayerTimeout := 300;
      var name := deity.value.name;
      if favor < 0 {
        return false, name + "은(는) 응답하지 않는다.", false;
      }
      if roll < 0.3 + favor as real / 200.0 {
        return true, name + "이(가) 은총을 내린다!", true;
      }
      return false, name + "은(는) 침묵한다.", false;
    }

    /** `processTurn()`: the prayer timeout counts down to 0. */
    method ProcessTurn()
      modifies this`prayerTimeout
      ensures prayerTimeout == if old(prayerTimeout) > 0 then old(prayerTimeout) - 1 else old(prayerTimeout)
      ensures old(prayerTimeout) >= 0 ==> prayerTimeout >= 0
    {
      if prayerTimeout > 0 {
        prayerTimeout := prayerTimeout - 1;
      }
    }
  }
}
