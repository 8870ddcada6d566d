// The faith system of src/systems/religion.py: a player serves at most one
// deity, whose favor (a number, nominally -100 to 100) decides how prayers
// and divine abilities are answered. Blessings, curses and ability cooldowns
// are dictionaries from a name to the turns left, counted down every turn.
// The draws of `random.random()` and `random.choice` are passed in.

module Religions {

  import opened Util
  import opened Dicts

  datatype DeityDomain = Light | War | Nature | Death | Knowledge | Trickery

  datatype FavorLevel = Wrathful | Displeased | Neutral | Pleased | Blessed | Exalted

  /** The enum values of `FavorLevel`, -2 to 3. */
  function LevelValue(l: FavorLevel): int
  {
    match l
    case Wrathful => -2
    case Displeased => -1
    case Neutral => 0
    case Pleased => 1
    case Blessed => 2
    case Exalted => 3
  }

  /** `Religion.favor_level`: the band the favor lies in. */
  function LevelOf(favor: int): (l: FavorLevel)
    ensures l == Wrathful <==> favor <= -50
    ensures l == Displeased <==> -50 < favor < 0
    ensures l == Neutral <==> 0 <= favor < 25
    ensures l == Pleased <==> 25 <= favor < 50
    ensures l == Blessed <==> 50 <= favor < 80
    ensures l == Exalted <==> 80 <= favor
  {
    if favor <= -50 then Wrathful
    else if favor < 0 then Displeased
    else if favor < 25 then Neutral
    else if favor < 50 then Pleased
    else if favor < 80 then Blessed
    else Exalted
  }

  /** More favor never means a lower level. */
  lemma LevelOfMonotone(a: int, b: int)
    requires a <= b
    ensures LevelValue(LevelOf(a)) <= LevelValue(LevelOf(b))
  {
  }

  /** `Religion.favor_string`; every level has a name, so the "unknown" default is never used. */
  function LevelName(l: FavorLevel): (s: string)
    ensures s != "알 수 없음"
  {
    match l
    case Wrathful => "분노"
    case Displeased => "불쾌"
    case Neutral => "중립"
    case Pleased => "기쁨"
    case Blessed => "축복"
    case Exalted => "찬양"
  }

  datatype DivineAbility = DivineAbility(name: string, description: string, faithCost: int,
                                         favorRequired: FavorLevel, cooldown: int, effect: string)

  /** A deity; its blessing and curse effects are dictionaries from effect to duration. */
  datatype Deity = Deity(id: string, name: string, title: string, domain: DeityDomain, description: string,
                         likedActions: seq<string>, dislikedActions: seq<string>,
                         abilities: seq<DivineAbility>, blessingEffects: seq<Entry>, curseEffects: seq<Entry>)

  /** Turns between two prayers. */
  const PrayerTimeout := 500

  const MinorBlessings := ["minor_heal", "minor_satiate", "minor_protection"]

  /** `random.choice(blessings)` on one draw. */
  function MinorBlessing(pick: Fraction): (b: string)
    ensures b in MinorBlessings
  {
    MinorBlessings[RandomInt(0, 2, pick)]
  }

  // ---------------------------------------------------------------------------
  // Blessings and curses

  /** `_apply_blessing`: every blessing effect of the deity, when there is one. */
  function BlessingApplied(b: seq<Entry>, deity: Option<Deity>): seq<Entry>
  {
    match deity
    case Some(d) => PutAll(b, d.blessingEffects)
    case None => b
  }

  /** `_apply_major_blessing`: the deity's blessings, divine protection for 500
      turns and a full restore for one. */
  function MajorBlessingApplied(b: seq<Entry>, deity: Option<Deity>): seq<Entry>
  {
    Put(Put(BlessingApplied(b, deity), "divine_protection", 500), "full_restore", 1)
  }

  /** `_apply_curse`: every curse effect of the deity, or weakness for 200 turns
      when no deity is served. */
  function CurseApplied(c: seq<Entry>, deity: Option<Deity>): seq<Entry>
  {
    match deity
    case Some(d) => PutAll(c, d.curseEffects)
    case None => Put(c, "weakness", 200)
  }

  /** Whether a prayer that is heard at this level succeeds, given the draw of `random.random()`. */
  predicate PrayerSucceeds(level: FavorLevel, roll: Fraction)
  {
    match level
    case Wrathful => false
    case Displeased => false
    case Neutral => roll < 0.3
    case Pleased => true
    case Blessed => true
    case Exalted => true
  }

  /** The blessings after a prayer that is heard at this level. */
  function BlessingsAfterPrayer(b: seq<Entry>, deity: Deity, level: FavorLevel, roll: Fraction, pick: Fraction): seq<Entry>
  {
    match level
    case Neutral => if roll < 0.3 then Put(b, MinorBlessing(pick), 100) else b
    case Pleased => if roll < 0.6 then Put(b, MinorBlessing(pick), 100) else b
    case Blessed => BlessingApplied(b, Some(deity))
    case Exalted => MajorBlessingApplied(b, Some(deity))
    case _ => b
  }

  /** The curses after a prayer that is heard at this level. */
  function CursesAfterPrayer(c: seq<Entry>, deity: Deity, level: FavorLevel): seq<Entry>
  {
    if level == Wrathful then CurseApplied(c, Some(deity)) else c
  }

  /** A heard prayer succeeds exactly from favor 25 up, or with a draw below 0.3
      from favor 0 up. */
  lemma PrayerSucceedsExactly(favor: int, roll: Fraction)
    ensures PrayerSucceeds(LevelOf(favor), roll) <==> favor >= 25 || (0 <= favor && roll < 0.3)
  {
  }

  /** A heard prayer keeps both dictionaries free of repeated keys. */
  lemma {:induction false} PrayerKeepsUnique(b: seq<Entry>, c: seq<Entry>, deity: Deity, level: FavorLevel,
                                             roll: Fraction, pick: Fraction)
    requires UniqueKeys(b) && UniqueKeys(c)
    ensures UniqueKeys(BlessingsAfterPrayer(b, deity, level, roll, pick))
    ensures UniqueKeys(CursesAfterPrayer(c, deity, level))
  {
    PutUnique(b, MinorBlessing(pick), 100);
    PutAllUnique(b, deity.blessingEffects);
    PutUnique(PutAll(b, deity.blessingEffects), "divine_protection", 500);
    PutUnique(Put(PutAll(b, deity.blessingEffects), "divine_protection", 500), "full_restore", 1);
    PutAllUnique(c, deity.curseEffects);
  }

  /** After a heard prayer at the top level every blessing effect of the deity
      runs for its duration, divine protection for 500 turns and a full restore
      for one; other blessings are as they were. */
  lemma ExaltedPrayerBlessings(b: seq<Entry>, deity: Deity, roll: Fraction, pick: Fraction, k: string)
    requires UniqueKeys(deity.blessingEffects)
    ensures Lookup(BlessingsAfterPrayer(b, deity, Exalted, roll, pick), k)
      == if k == "full_restore" then Some(1)
         else if k == "divine_protection" then Some(500)
         else if HasKey(deity.blessingEffects, k) then Lookup(deity.blessingEffects, k)
         else Lookup(b, k)
  {
    var all := PutAll(b, deity.blessingEffects);
    LookupPut(Put(all, "divine_protection", 500), "full_restore", 1, k);
    LookupPut(all, "divine_protection", 500, k);
    LookupPutAll(b, deity.blessingEffects, k);
    LastLookupUnique(deity.blessingEffects, k);
  }

  /** After a heard prayer at the lowest level every curse effect of the deity runs
      for its duration; other curses are as they were. */
  lemma WrathfulPrayerCurses(c: seq<Entry>, deity: Deity, k: string)
    requires UniqueKeys(deity.curseEffects)
    ensures Lookup(CursesAfterPrayer(c, deity, Wrathful), k)
      == if HasKey(deity.curseEffects, k) then Lookup(deity.curseEffects, k) else Lookup(c, k)
  {
    LookupPutAll(c, deity.curseEffects, k);
    LastLookupUnique(deity.curseEffects, k);
  }

  /** A minor blessing, when granted, is one of the three and runs for 100 turns. */
  lemma MinorBlessingLasts(b: seq<Entry>, deity: Deity, level: FavorLevel, roll: Fraction, pick: Fraction)
    requires (level == Neutral && roll < 0.3) || (level == Pleased && roll < 0.6)
    ensures Lookup(BlessingsAfterPrayer(b, deity, level, roll, pick), MinorBlessing(pick)) == Some(100)
  {
    LookupPut(b, MinorBlessing(pick), 100, MinorBlessing(pick));
  }

  // ---------------------------------------------------------------------------
  // Divine abilities

  /** The first ability of that name, as the search loop of `use_ability` finds it. */
  function FirstNamed(abilities: seq<DivineAbility>, name: string): (r: Option<DivineAbility>)
    ensures r.None? <==> forall i | 0 <= i < |abilities| :: abilities[i].name != name
    ensures r.Some? ==> r.value.name == name && r.value in abilities
  {
    if abilities == [] then None
    else if abilities[0].name == name then Some(abilities[0])
    else
      assert forall i | 0 < i < |abilities| :: abilities[i] == abilities[1..][i - 1];
      FirstNamed(abilities[1..], name)
  }

  /** The ability found comes before every other of the same name. */
  lemma {:induction false} FirstNamedIsFirst(abilities: seq<DivineAbility>, name: string)
    requires FirstNamed(abilities, name).Some?
    ensures exists i | 0 <= i < |abilities| ::
      abilities[i] == FirstNamed(abilities, name).value && forall j | 0 <= j < i :: abilities[j].name != name
  {
    if abilities[0].name != name {
      FirstNamedIsFirst(abilities[1..], name);
      var i :| 0 <= i < |abilities| - 1 && abilities[1..][i] == FirstNamed(abilities[1..], name).value
        && forall j | 0 <= j < i :: abilities[1..][j].name != name;
      assert abilities[i + 1] == FirstNamed(abilities, name).value;
      forall j | 0 <= j < i + 1 ensures abilities[j].name != name {
        if j > 0 { assert abilities[j] == abilities[1..][j - 1]; }
      }
    }
  }

  /** `for a in self.deity.abilities: if a.name == ability_name: ... break`. */
  method FindAbility(abilities: seq<DivineAbility>, name: string) returns (ability: Option<DivineAbility>)
    ensures ability == FirstNamed(abilities, name)
  {
    ability := None;
    var i := 0;
    while i < |abilities|
      invariant 0 <= i <= |abilities|
      invariant FirstNamed(abilities, name) == FirstNamed(abilities[i..], name)
    {
      if abilities[i].name == name {
        ability := Some(abilities[i]);
        return;
      }
      assert abilities[i..][1..] == abilities[i + 1..];
      i := i + 1;
    }
  }

  /** The checks of `use_ability`, in the order it makes them. */
  datatype AbilityOutcome =
    | NoDeity
    | NoSuchAbility
    | CoolingDown(turns: int)
    | FavorTooLow
    | FaithTooLow
    | Invoked(ability: DivineAbility)

  function AbilityCheck(deity: Option<Deity>, cooldowns: seq<Entry>, favor: int, faith: int, name: string): AbilityOutcome
  {
    if deity.None? then NoDeity
    else
      match FirstNamed(deity.value.abilities, name)
      case None => NoSuchAbility
      case Some(a) =>
        if GetOr(cooldowns, name, 0) > 0 then CoolingDown(GetOr(cooldowns, name, 0))
        else if LevelValue(LevelOf(favor)) < LevelValue(a.favorRequired) then FavorTooLow
        else if faith < a.faithCost then FaithTooLow
        else Invoked(a)
  }

  /** An ability is invoked exactly when a deity is served, it has an ability of
      that name, none of its cooldown is left, the favor level reaches the
      ability's and the faith covers its cost; the one invoked is the first of
      that name. */
  lemma AbilityInvokedExactly(deity: Option<Deity>, cooldowns: seq<Entry>, favor: int, faith: int, name: string)
    ensures AbilityCheck(deity, cooldowns, favor, faith, name).Invoked? <==>
      && deity.Some?
      && FirstNamed(deity.value.abilities, name).Some?
      && GetOr(cooldowns, name, 0) <= 0
      && LevelValue(LevelOf(favor)) >= LevelValue(FirstNamed(deity.value.abilities, name).value.favorRequired)
      && faith >= FirstNamed(deity.value.abilities, name).value.faithCost
    ensures AbilityCheck(deity, cooldowns, favor, faith, name).Invoked? ==>
      AbilityCheck(deity, cooldowns, favor, faith, name).ability == FirstNamed(deity.value.abilities, name).value
  {
  }

  /** Invoking an ability leaves no faith debt and starts its cooldown. */
  lemma InvokedAbilityCharges(deity: Option<Deity>, cooldowns: seq<Entry>, favor: int, faith: int, name: string)
    requires AbilityCheck(deity, cooldowns, favor, faith, name).Invoked?
    ensures var a := AbilityCheck(deity, cooldowns, favor, faith, name).ability;
      && faith - a.faithCost >= 0
      && Lookup(Put(cooldowns, name, a.cooldown), name) == Some(a.cooldown)
  {
    var a := AbilityCheck(deity, cooldowns, favor, faith, name).ability;
    LookupPut(cooldowns, name, a.cooldown, name);
  }

  // ---------------------------------------------------------------------------
  // Favor changes

  /** A sin never raises the favor level, and favor stays at -100 or above. */
  lemma SinNeverRaisesLevel(favor: int, severity: int)
    requires severity >= 0
    ensures Max(-100, favor - severity * 5) >= -100
    ensures LevelValue(LevelOf(Max(-100, favor - severity * 5))) <= LevelValue(LevelOf(favor))
  {
    if favor >= -100 {
      LevelOfMonotone(Max(-100, favor - severity * 5), favor);
    }
  }

  /** A devout act or a sacrifice never lowers the favor level of a favor in
      range, and favor stays at 100 or below. */
  lemma DevotionNeverLowersLevel(favor: int, gain: int)
    requires gain >= 0 && favor <= 100
    ensures Min(100, favor + gain) <= 100
    ensures LevelValue(LevelOf(favor)) <= LevelValue(LevelOf(Min(100, favor + gain)))
  {
    LevelOfMonotone(favor, Min(100, favor + gain));
  }

  // ---------------------------------------------------------------------------
  // Messages

  function ConvertMessage(previous: Option<Deity>, deity: Deity): string
  {
    match previous
    case Some(p) => p.name + "을(를) 버리고 " + deity.name + "에게 귀의했다. " + p.name + "의 분노를 느낀다..."
    case None => deity.name + "에게 귀의했다. 신의 관심을 느낀다."
  }

  const NoDeityMessage := "섬기는 신이 없다."

  function PrayMessage(deity: Option<Deity>, timeout: int, favor: int, roll: Fraction): string
  {
    if deity.None? then NoDeityMessage
    else if timeout > 0 then "아직 기도할 수 없다. (" + IntToString(timeout) + "턴 대기)"
    else HeardPrayerMessage(deity.value.name, LevelOf(favor), roll)
  }

  function HeardPrayerMessage(name: string, level: FavorLevel, roll: Fraction): string
  {
    match level
    case Wrathful => name + "의 분노가 내려온다!"
    case Displeased => name + "은(는) 응답하지 않는다."
    case Neutral => if roll < 0.3 then name + "이(가) 작은 은총을 내린다." else name + "은(는) 침묵한다."
    case Pleased => if roll < 0.6 then name + "이(가) 은총을 내린다!" else name + "이(가) 지켜보고 있음을 느낀다."
    case Blessed => name + "의 강력한 은총이 내린다!"
    case Exalted => name + "이(가) 강림하여 축복한다!"
  }

  function SacrificeMessage(name: string, favorGain: int): string
  {
    if favorGain >= 10 then name + "이(가) 제물에 크게 기뻐한다!"
    else if favorGain >= 5 then name + "이(가) 제물을 받아들인다."
    else name + "이(가) 제물에 별 관심이 없다."
  }

  function SinMessage(name: string, favor: int): string
  {
    if favor <= -50 then name + "의 분노를 느낀다!"
    else if favor < 0 then name + "이(가) 불쾌해한다."
    else ""
  }

  function DevoutMessage(name: string, favor: int): string
  {
    if favor >= 80 then name + "이(가) 찬양한다!"
    else if favor >= 50 then name + "이(가) 기뻐한다."
    else ""
  }

  function AbilityMessage(o: AbilityOutcome): string
  {
    match o
    case NoDeity => NoDeityMessage
    case NoSuchAbility => "그런 능력은 없다."
    case CoolingDown(t) => "아직 사용할 수 없다. (" + IntToString(t) + "턴 대기)"
    case FavorTooLow => "신의 은총이 부족하다."
    case FaithTooLow => "신앙 포인트가 부족하다."
    case Invoked(a) => a.name + "을(를) 발동했다! " + a.description
  }

  /** One message per key, the key followed by `suffix`. */
  function ExpiryLines(keys: seq<string>, suffix: string): (r: seq<string>)
    ensures |r| == |keys| && forall i | 0 <= i < |keys| :: r[i] == keys[i] + suffix
  {
    seq(|keys|, i requires 0 <= i < |keys| => keys[i] + suffix)
  }

  /** `for effect, duration in effects.items(): d[effect] = duration`. */
  method PutEach(d: seq<Entry>, effects: seq<Entry>) returns (r: seq<Entry>)
    ensures r == PutAll(d, effects)
  {
    r := d;
    var i := 0;
    while i < |effects|
      invariant 0 <= i <= |effects|
      invariant r == PutAll(d, effects[..i])
    {
      assert effects[..i + 1][..i] == effects[..i];
      r := Put(r, effects[i].0, effects[i].1);
      i := i + 1;
    }
    assert effects[..i] == effects;
  }

  // ---------------------------------------------------------------------------
  // The faith of the player

  class Religion {
    var deity: Option<Deity>
    var faithPoints: int
    var favor: int
    var prayerTimeout: int
    var sins: int
    var devotionActs: int
    var activeBlessings: seq<Entry>
    var activeCurses: seq<Entry>
    var abilityCooldowns: seq<Entry>

    /** Each of the three dictionaries has one entry per key. */
    ghost predicate Valid()
      reads this
    {
      UniqueKeys(activeBlessings) && UniqueKeys(activeCurses) && UniqueKeys(abilityCooldowns)
    }

    constructor()
      ensures Valid()
      ensures deity == None && faithPoints == 0 && favor == 0 && prayerTimeout == 0
      ensures sins == 0 && devotionActs == 0
      ensures activeBlessings == [] && activeCurses == [] && abilityCooldowns == []
    {
      deity := None;
      faithPoints := 0;
      favor := 0;
      prayerTimeout := 0;
      sins := 0;
      devotionActs := 0;
      activeBlessings := [];
      activeCurses := [];
      abilityCooldowns := [];
    }

    /** `convert(deity)`: leaving a deity costs favor and adds sins; faith,
        blessings and curses start over, cooldowns are kept. */
    method Convert(d: Deity) returns (message: string)
      requires Valid()
      modifies this`deity, this`favor, this`sins, this`faithPoints, this`activeBlessings, this`activeCurses
      ensures Valid()
      ensures deity == Some(d) && faithPoints == 0 && activeBlessings == [] && activeCurses == []
      ensures favor == if old(deity).Some? then -30 else 10
      ensures sins == old(sins) + if old(deity).Some? then 10 else 0
      ensures message == ConvertMessage(old(deity), d)
    {
      var previous := deity;
      if previous.Some? {
        favor := -30;
        sins := sins + 10;
      } else {
        favor := 10;
      }
      message := ConvertMessage(previous, d);
      deity := Some(d);
      faithPoints := 0;
      activeBlessings := [];
      activeCurses := [];
    }

    /** `pray()`: without a deity or before the timeout has run out nothing
        changes; otherwise the timeout restarts at 500 and the favor level
        decides the answer. */
    method Pray(roll: Fraction, pick: Fraction) returns (success: bool, message: string)
      requires Valid()
      modifies this`prayerTimeout, this`activeBlessings, this`activeCurses
      ensures Valid()
      ensures deity.None? || old(prayerTimeout) > 0 ==>
        && !success && prayerTimeout == old(prayerTimeout)
        && activeBlessings == old(activeBlessings) && activeCurses == old(activeCurses)
      ensures deity.Some? && old(prayerTimeout) <= 0 ==>
        && prayerTimeout == PrayerTimeout
        && success == PrayerSucceeds(LevelOf(favor), roll)
        && activeBlessings == BlessingsAfterPrayer(old(activeBlessings), deity.value, LevelOf(favor), roll, pick)
        && activeCurses == CursesAfterPrayer(old(activeCurses), deity.value, LevelOf(favor))
      ensures message == PrayMessage(deity, old(prayerTimeout), favor, roll)
    {
      if deity.None? {
        return false, NoDeityMessage;
      }
      if prayerTimeout > 0 {
        return false, "아직 기도할 수 없다. (" + IntToString(prayerTimeout) + "턴 대기)";
      }
      prayerTimeout := PrayerTimeout;
      var level := LevelOf(favor);
      PrayerKeepsUnique(activeBlessings, activeCurses, deity.value, level, roll, pick);
      message := HeardPrayerMessage(deity.value.name, level, roll);
      if level == Wrathful {
        ApplyCurse();
        success := false;
      } else if level == Displeased {
        success := false;
      } else if level == Neutral {
        success := false;
        if roll < 0.3 {
          ApplyMinorBlessing(pick);
          success := true;
        }
      } else if level == Pleased {
        if roll < 0.6 {
          ApplyMinorBlessing(pick);
        }
        success := true;
      } else if level == Blessed {
        ApplyBlessing();
        success := true;
      } else {
        ApplyMajorBlessing();
        success := true;
      }
    }

    /** `_apply_minor_blessing()`: one of the three minor blessings for 100 turns. */
    method ApplyMinorBlessing(pick: Fraction)
      modifies this`activeBlessings
      ensures activeBlessings == Put(old(activeBlessings), MinorBlessing(pick), 100)
    {
      var blessings := MinorBlessings;
      var blessing := blessings[RandomInt(0, 2, pick)];
      activeBlessings := Put(activeBlessings, blessing, 100);
    }

    /** `_apply_blessing()`. */
    method ApplyBlessing()
      modifies this`activeBlessings
      ensures activeBlessings == BlessingApplied(old(activeBlessings), deity)
    {
      if deity.Some? {
        activeBlessings := PutEach(activeBlessings, deity.value.blessingEffects);
      }
    }

    /** `_apply_major_blessing()`. */
    method ApplyMajorBlessing()
      modifies this`activeBlessings
      ensures activeBlessings == MajorBlessingApplied(old(activeBlessings), deity)
    {
      ApplyBlessing();
      activeBlessings := Put(activeBlessings, "divine_protection", 500);
      activeBlessings := Put(activeBlessings, "full_restore", 1);
    }

    /** `_apply_curse()`. */
    method ApplyCurse()
      modifies this`activeCurses
      ensures activeCurses == CurseApplied(old(activeCurses), deity)
    {
      if deity.Some? {
        activeCurses := PutEach(activeCurses, deity.value.curseEffects);
      } else {
        activeCurses := Put(activeCurses, "weakness", 200);
      }
    }

    /** `sacrifice(item_value)`: a tenth of the value is added to the favor,
        which stops at 100, and a fifth to the faith. */
    method Sacrifice(itemValue: int) returns (message: string)
      modifies this`favor, this`faithPoints, this`devotionActs
      ensures deity.None? ==>
        && message == NoDeityMessage
        && favor == old(favor) && faithPoints == old(faithPoints) && devotionActs == old(devotionActs)
      ensures deity.Some? ==>
        && favor == Min(100, old(favor) + itemValue / 10)
        && faithPoints == old(faithPoints) + itemValue / 5
        && devotionActs == old(devotionActs) + 1
        && message == SacrificeMessage(deity.value.name, itemValue / 10)
      ensures deity.Some? ==> favor <= 100
    {
      if deity.None? {
        return NoDeityMessage;
      }
      var favorGain := itemValue / 10;
      favor := Min(100, favor + favorGain);
      faithPoints := faithPoints + itemValue / 5;
      devotionActs := devotionActs + 1;
      message := SacrificeMessage(deity.value.name, favorGain);
    }

    /** `commit_sin(severity)`: favor falls by five per degree of severity and
        stops at -100. */
    method CommitSin(severity: int) returns (message: string)
      modifies this`favor, this`sins
      ensures deity.None? ==> message == "" && favor == old(favor) && sins == old(sins)
      ensures deity.Some? ==>
        && sins == old(sins) + severity
        && favor == Max(-100, old(favor) - severity * 5)
        && message == SinMessage(deity.value.name, favor)
      ensures deity.Some? ==> favor >= -100
    {
      if deity.None? {
        return "";
      }
      sins := sins + severity;
      favor := Max(-100, favor - severity * 5);
      message := SinMessage(deity.value.name, favor);
    }

    /** `act_devout(significance)`: favor rises by three per degree and stops at 100. */
    method ActDevout(significance: int) returns (message: string)
      modifies this`favor, this`faithPoints, this`devotionActs
      ensures deity.None? ==>
        && message == ""
        && favor == old(favor) && faithPoints == old(faithPoints) && devotionActs == old(devotionActs)
      ensures deity.Some? ==>
        && devotionActs == old(devotionActs) + significance
        && favor == Min(100, old(favor) + significance * 3)
        && faithPoints == old(faithPoints) + significance
        && message == DevoutMessage(deity.value.name, favor)
      ensures deity.Some? ==> favor <= 100
    {
      if deity.None? {
        return "";
      }
      devotionActs := devotionActs + significance;
      favor := Min(100, favor + significance * 3);
      faithPoints := faithPoints + significance;
      message := DevoutMessage(deity.value.name, favor);
    }

    /** `use_ability(ability_name)`: every failed check leaves the state as it
        was; an invocation pays the faith cost and starts the cooldown. */
    method UseAbility(abilityName: string) returns (success: bool, message: string)
      requires Valid()
      modifies this`faithPoints, this`abilityCooldowns
      ensures Valid()
      ensures var o := AbilityCheck(deity, old(abilityCooldowns), favor, old(faithPoints), abilityName);
        && success == o.Invoked?
        && message == AbilityMessage(o)
        && (o.Invoked? ==>
              && faithPoints == old(faithPoints) - o.ability.faithCost
              && abilityCooldowns == Put(old(abilityCooldowns), abilityName, o.ability.cooldown))
        && (!o.Invoked? ==> faithPoints == old(faithPoints) && abilityCooldowns == old(abilityCooldowns))
    {
      if deity.None? {
        return false, NoDeityMessage;
      }
      var found := FindAbility(deity.value.abilities, abilityName);
      if found.None? {
        return false, "그런 능력은 없다.";
      }
      var ability := found.value;
      if GetOr(abilityCooldowns, abilityName, 0) > 0 {
        return false, AbilityMessage(CoolingDown(GetOr(abilityCooldowns, abilityName, 0)));
      }
      if LevelValue(LevelOf(favor)) < LevelValue(ability.favorRequired) {
        return false, "신의 은총이 부족하다.";
      }
      if faithPoints < ability.faithCost {
        return false, "신앙 포인트가 부족하다.";
      }
      faithPoints := faithPoints - ability.faithCost;
      PutUnique(abilityCooldowns, abilityName, ability.cooldown);
      abilityCooldowns := Put(abilityCooldowns, abilityName, ability.cooldown);
      return true, AbilityMessage(Invoked(ability));
    }

    /** `process_turn()`: the prayer timeout falls towards 0, and every cooldown,
        blessing and curse counts one turn down and is deleted when none is left,
        with a message for each blessing and curse that ends. */
    method ProcessTurn() returns (messages: seq<string>)
      requires Valid()
      modifies this`prayerTimeout, this`abilityCooldowns, this`activeBlessings, this`activeCurses
      ensures Valid()
      ensures prayerTimeout == if old(prayerTimeout) > 0 then old(prayerTimeout) - 1 else old(prayerTimeout)
      ensures abilityCooldowns == CountedDown(old(abilityCooldowns))
      ensures activeBlessings == CountedDown(old(activeBlessings))
      ensures activeCurses == CountedDown(old(activeCurses))
      ensures messages == ExpiryLines(ExpiredKeys(old(activeBlessings)), " 축복이 사라졌다.")
                          + ExpiryLines(ExpiredKeys(old(activeCurses)), " 저주가 풀렸다.")
    {
      if prayerTimeout > 0 {
        prayerTimeout := prayerTimeout - 1;
      }
      CountedDownUnique(abilityCooldowns);
      CountedDownUnique(activeBlessings);
      CountedDownUnique(activeCurses);
      var endedCooldowns, endedBlessings, endedCurses;
      abilityCooldowns, endedCooldowns := CountDown(abilityCooldowns);
      activeBlessings, endedBlessings := CountDown(activeBlessings);
      activeCurses, endedCurses := CountDown(activeCurses);
      messages := ExpiryLines(endedBlessings, " 축복이 사라졌다.") + ExpiryLines(endedCurses, " 저주가 풀렸다.");
    }
  }
}
