/** The Tamagotchi "Taco": three stats between 0 and 100 (hunger, energy,
    happiness), the seconds alive, whether the game is running, day or
    night, the best time and the achievements unlocked. Five timer kinds and
    four player actions change the stats; a thought is chosen from them, and
    the game ends when hunger reaches 100 or energy or happiness reaches 0.

    `Vitals` and `Step` are the reference; the class `Creature` holds the
    same state in fields and is proved to follow `Step`, one method per
    timer callback or button. */
module Tamagotchi {
  import opened JsNumber

  datatype Option<T> = None | Some(value: T)

  /** The whole state the game keeps. The record is what `localStorage`
      holds under `tacoRecord`; the achievements are the badges that carry
      the `unlocked` class. */
  datatype Vitals = Vitals(
    hunger: int, energy: int, happiness: int,
    timeAlive: nat, gameActive: bool, isDaytime: bool,
    record: nat, achievements: set<nat>)

  /** A timer callback or a button. */
  datatype Event =
    | HungerTick | EnergyTick | HappinessTick | TimeTick | DayNightTick
    | Feed | Sleep | Play | Medicine | Restart

  predicate IsDecay(e: Event) {
    e == HungerTick || e == EnergyTick || e == HappinessTick
  }

  function Min(a: int, b: int): int { if a <= b then a else b }
  function Max(a: int, b: int): int { if a >= b then a else b }

  /** The state when the page loads, with the record read from storage. */
  function Initial(record: nat): Vitals {
    Vitals(50, 50, 50, 0, true, true, record, {})
  }

  /** Every stat lies between 0 and 100. */
  predicate InRange(v: Vitals) {
    0 <= v.hunger <= 100 && 0 <= v.energy <= 100 && 0 <= v.happiness <= 100
  }

  /** `checkGameOver`'s condition. */
  predicate Lethal(v: Vitals) {
    v.hunger >= 100 || v.energy <= 0 || v.happiness <= 0
  }

  /** The condition under which the medicine button is enabled and
      `giveMedicine` acts. */
  predicate NeedsMedicine(v: Vitals) {
    v.hunger < 40 || v.energy < 40 || v.happiness < 40
  }

  /** What `gameOver` reports. */
  datatype Cause = Starvation | Exhaustion | Sadness

  /** The cause `gameOver` names, checked in the order hunger, energy,
      happiness. */
  function DeathCause(v: Vitals): (c: Cause)
    requires Lethal(v)
    ensures c == Starvation <==> v.hunger >= 100
    ensures c == Exhaustion <==> v.hunger < 100 && v.energy <= 0
    ensures c == Sadness <==> v.hunger < 100 && v.energy > 0 && v.happiness <= 0
  {
    if v.hunger >= 100 then Starvation
    else if v.energy <= 0 then Exhaustion
    else Sadness
  }

  /** `gameOver`: stops the game and keeps the longer of the record and
      this game's time (`saveRecord`). */
  function GameOver(v: Vitals): Vitals {
    v.(gameActive := false, record := if v.timeAlive > v.record then v.timeAlive else v.record)
  }

  /** `checkGameOver`. */
  function GameOverCheck(v: Vitals): Vitals {
    if Lethal(v) then GameOver(v) else v
  }

  /** The achievement thresholds, in seconds alive. */
  const Thresholds: set<nat> := {30, 60, 180, 300, 600}

  /** The thresholds a time has reached. */
  function Reached(t: nat): set<nat> {
    set k | k in Thresholds && t >= k
  }

  /** The effect of one event. The three decay ticks end with
      `checkGameOver`; no other event does. Restart is not guarded by
      `gameActive`; everything else is. */
  function Step(v: Vitals, e: Event): Vitals {
    if e == Restart then
      Vitals(50, 50, 50, 0, true, true, v.record, v.achievements)
    else if !v.gameActive then v
    else match e
      case HungerTick => GameOverCheck(v.(hunger := Min(100, v.hunger + 5)))
      case EnergyTick =>
        var decrease := if v.isDaytime then 3 else 5;
        GameOverCheck(v.(energy := Max(0, v.energy - decrease)))
      case HappinessTick => GameOverCheck(v.(happiness := Max(0, v.happiness - 2)))
      case TimeTick =>
        v.(timeAlive := v.timeAlive + 1, achievements := v.achievements + Reached(v.timeAlive + 1))
      case DayNightTick => v.(isDaytime := !v.isDaytime)
      case Feed => v.(hunger := Max(0, v.hunger - 30))
      case Sleep => v.(energy := Min(100, v.energy + 40))
      case Play => v.(happiness := Min(100, v.happiness + 25), energy := Max(0, v.energy - 15))
      case Medicine => if NeedsMedicine(v) then v.(hunger := 50, energy := 50, happiness := 50) else v
      case Restart => v
  }

  /** A sequence of events, in order. */
  function Run(v: Vitals, events: seq<Event>): Vitals
    decreases |events|
  {
    if events == [] then v else Run(Step(v, events[0]), events[1..])
  }

  /** No event takes a stat outside 0..100. */
  lemma StepInRange(v: Vitals, e: Event)
    requires InRange(v)
    ensures InRange(Step(v, e))
  {
  }

  /** From the starting 50/50/50, the stats stay between 0 and 100 whatever
      happens. */
  lemma {:induction false} RunInRange(v: Vitals, events: seq<Event>)
    requires InRange(v)
    ensures InRange(Run(v, events))
    decreases |events|
  {
    if events != [] {
      StepInRange(v, events[0]);
      RunInRange(Step(v, events[0]), events[1..]);
    }
  }

  lemma InitialInRange(record: nat)
    ensures InRange(Initial(record)) && Initial(record).gameActive && !Lethal(Initial(record))
  {
  }

  /** Once the game is over, every timer and every button but restart
      leaves the state alone. */
  lemma InactiveIgnoresEvents(v: Vitals, e: Event)
    requires !v.gameActive && e != Restart
    ensures Step(v, e) == v
  {
  }

  /** ... and so does any run of them. */
  lemma {:induction false} InactiveIgnoresRun(v: Vitals, events: seq<Event>)
    requires !v.gameActive
    requires forall i :: 0 <= i < |events| ==> events[i] != Restart
    ensures Run(v, events) == v
    decreases |events|
  {
    if events != [] {
      InactiveIgnoresEvents(v, events[0]);
      InactiveIgnoresRun(v, events[1..]);
    }
  }

  /** The player's actions, the clock and the day/night switch never end
      the game, even when they leave a stat at a lethal value. */
  lemma OnlyDecayEndsGame(v: Vitals, e: Event)
    requires v.gameActive && !IsDecay(e)
    ensures Step(v, e).gameActive
  {
  }

  /** A decay tick on a running game ends it exactly when the stats it
      leaves are lethal, and the stats are those of the tick either way. */
  lemma DecayEndsGameIffLethal(v: Vitals, e: Event)
    requires v.gameActive && IsDecay(e)
    ensures !Step(v, e).gameActive <==> Lethal(Step(v, e))
  {
  }

  /** The game can also end on a tick of a different stat: playing can
      drain energy to 0 without ending the game; the next hunger tick then
      ends it, with exhaustion as the cause. */
  lemma PlayThenHungerTick()
    ensures var v := Vitals(20, 10, 50, 7, true, true, 3, {});
      var w := Step(v, Play);
      w.gameActive && w.energy == 0 && Lethal(w)
      && !Step(w, HungerTick).gameActive && DeathCause(Step(w, HungerTick)) == Exhaustion
      && Step(w, HungerTick).record == 7
  {
  }

  /** At night the energy tick takes 5 instead of 3, so night drains at
      least as much; the day/night tick itself changes only `isDaytime`,
      and two of them cancel. */
  lemma NightDrainsMore(v: Vitals)
    requires v.gameActive && v.isDaytime && InRange(v) && v.energy > 5
    ensures Step(v, EnergyTick).energy == v.energy - 3
    ensures Step(v.(isDaytime := false), EnergyTick).energy == v.energy - 5
  {
  }

  lemma DayNightOnlyFlips(v: Vitals)
    requires v.gameActive
    ensures Step(v, DayNightTick).isDaytime == !v.isDaytime
    ensures Step(v, DayNightTick).(isDaytime := v.isDaytime) == v
    ensures Run(v, [DayNightTick, DayNightTick]) == v
  {
    assert [DayNightTick, DayNightTick][1..] == [DayNightTick];
  }

  /** Medicine acts only when some stat is below 40, and then sets all
      three to exactly 50, which leaves nothing critical and nothing
      lethal. Otherwise it changes nothing. */
  lemma MedicineSpec(v: Vitals)
    requires v.gameActive
    ensures NeedsMedicine(v) ==>
      var w := Step(v, Medicine);
      w.hunger == 50 && w.energy == 50 && w.happiness == 50
      && w.(hunger := v.hunger, energy := v.energy, happiness := v.happiness) == v
      && !NeedsMedicine(w) && !Lethal(w)
    ensures !NeedsMedicine(v) ==> Step(v, Medicine) == v
  {
  }

  /** `updateMedicineButton`: disabled unless some stat is below 40. */
  function MedicineButtonDisabled(v: Vitals): (disabled: bool)
    ensures !disabled <==> v.hunger < 40 || v.energy < 40 || v.happiness < 40
  {
    !NeedsMedicine(v)
  }

  /** An enabled medicine button always has an effect, because a stat
      below 40 is one that 50 changes. */
  lemma EnabledMedicineActs(v: Vitals)
    requires v.gameActive && !MedicineButtonDisabled(v)
    ensures Step(v, Medicine) != v
  {
  }

  /** The record never decreases: game over keeps the larger value and
      restart does not touch it. */
  lemma StepKeepsRecord(v: Vitals, e: Event)
    ensures Step(v, e).record >= v.record
    ensures !Step(v, e).gameActive && v.gameActive ==> Step(v, e).record >= v.timeAlive
  {
  }

  lemma {:induction false} RunKeepsRecord(v: Vitals, events: seq<Event>)
    ensures Run(v, events).record >= v.record
    decreases |events|
  {
    if events != [] {
      StepKeepsRecord(v, events[0]);
      RunKeepsRecord(Step(v, events[0]), events[1..]);
    }
  }

  /** The record examples: 45 seconds over a record of 30 becomes the
      record; 30 seconds under a record of 90 does not. */
  lemma RecordExamples()
    ensures GameOver(Vitals(100, 50, 50, 45, true, true, 30, {})).record == 45
    ensures GameOver(Vitals(100, 50, 50, 30, true, true, 90, {})).record == 90
  {
  }

  /** Restart gives a fresh running game with the same record and
      achievements, whatever the state was. */
  lemma RestartResets(v: Vitals)
    ensures Step(v, Restart) == Initial(v.record).(achievements := v.achievements)
  {
  }

  /** The clock tick unlocks each threshold once it is reached; the set of
      unlocked achievements only grows. */
  lemma AchievementsGrow(v: Vitals, e: Event)
    ensures v.achievements <= Step(v, e).achievements
    ensures v.gameActive && e == TimeTick ==> Reached(v.timeAlive + 1) <= Step(v, e).achievements
  {
  }

  /** Every run keeps the thresholds already reached unlocked. */
  lemma {:induction false} RunKeepsAchievements(v: Vitals, events: seq<Event>)
    ensures v.achievements <= Run(v, events).achievements
    decreases |events|
  {
    if events != [] {
      AchievementsGrow(v, events[0]);
      RunKeepsAchievements(Step(v, events[0]), events[1..]);
    }
  }

  /** The achievements a clock tick newly unlocks, which is when
      `unlockAchievement` shows its message. */
  function NewlyUnlocked(v: Vitals): (newly: set<nat>)
    requires v.gameActive
    ensures newly == Step(v, TimeTick).achievements - v.achievements
    ensures newly <= Thresholds
  {
    Reached(v.timeAlive + 1) - v.achievements
  }

  /** A message is shown once: a tick never unlocks again what the tick
      before it unlocked. */
  lemma UnlockedOnce(v: Vitals)
    requires v.gameActive
    ensures NewlyUnlocked(v) * NewlyUnlocked(Step(v, TimeTick)) == {}
  {
  }

  /** The eight thoughts `updateThought` can choose. */
  datatype Thought = Starving | Peckish | Exhausted | Tired | Ecstatic | Sad | Fine | Neutral

  /** `updateThought`: the first condition that holds, in the order
      hunger, energy, happiness. */
  function ThoughtOf(hunger: int, energy: int, happiness: int): Thought {
    if hunger > 70 then Starving
    else if hunger > 50 then Peckish
    else if energy < 30 then Exhausted
    else if energy < 50 then Tired
    else if happiness > 80 then Ecstatic
    else if happiness < 30 then Sad
    else if 40 <= hunger <= 70 && 40 <= energy <= 70 && 40 <= happiness <= 70 then Fine
    else Neutral
  }

  /** Each thought stated as the exact region of stats that gives it. The
      earlier branches make "all three in 40..70" come down to hunger in
      40..50, energy in 50..70 and happiness in 40..70. */
  lemma ThoughtRegions(h: int, e: int, f: int)
    ensures ThoughtOf(h, e, f) == Starving <==> h > 70
    ensures ThoughtOf(h, e, f) == Peckish <==> 50 < h <= 70
    ensures ThoughtOf(h, e, f) == Exhausted <==> h <= 50 && e < 30
    ensures ThoughtOf(h, e, f) == Tired <==> h <= 50 && 30 <= e < 50
    ensures ThoughtOf(h, e, f) == Ecstatic <==> h <= 50 && e >= 50 && f > 80
    ensures ThoughtOf(h, e, f) == Sad <==> h <= 50 && e >= 50 && f < 30
    ensures ThoughtOf(h, e, f) == Fine <==> 40 <= h <= 50 && 50 <= e <= 70 && 40 <= f <= 70
    ensures ThoughtOf(h, e, f) == Neutral <==>
      h <= 50 && e >= 50 && 30 <= f <= 80 && !(40 <= h && e <= 70 && 40 <= f <= 70)
  {
  }

  /** Hunger comes first: a starving Taco asks for food even when tired
      and happy. */
  lemma HungerFirst()
    ensures ThoughtOf(80, 10, 90) == Starving
  {
  }

  /** The text shown for each thought. */
  function ThoughtText(t: Thought): string {
    match t
    case Starving => "\U{A1}Dame comida YA! \U{1F355}"
    case Peckish => "Tengo un poco de hambre... \U{1F60B}"
    case Exhausted => "Estoy muy cansado... \U{1F634}"
    case Tired => "Me siento algo cansado \U{1F971}"
    case Ecstatic => "\U{A1}Estoy s\U{FA}per feliz! \U{1F638}"
    case Sad => "Estoy triste... \U{1F63F}"
    case Fine => "Me siento bien \U{1F63A}"
    case Neutral => "\U{BF}C\U{F3}mo est\U{E1}s? \U{1F431}"
  }

  /** `formatTime`'s minutes and seconds. */
  function MinutesSeconds(seconds: nat): (ms: (nat, nat))
    ensures 60 * ms.0 + ms.1 == seconds && ms.1 < 60
  {
    (seconds / 60, seconds % 60)
  }

  /** Minutes and seconds are unique: any split with fewer than 60 seconds
      is the one `formatTime` shows. */
  lemma MinutesSecondsUnique(seconds: nat, m: nat, s: nat)
    requires 60 * m + s == seconds && s < 60
    ensures MinutesSeconds(seconds) == (m, s)
  {
  }

  /** `formatTime(seconds)`: `${minutes}m ${secs}s`. */
  function FormatTime(seconds: nat): string {
    var (m, s) := MinutesSeconds(seconds);
    Decimal(m) + "m " + Decimal(s) + "s"
  }

  /** The text around the numbers is fixed and the numbers read back as
      the minutes and seconds. */
  lemma FormatTimeSpec(seconds: nat)
    ensures var (m, s) := MinutesSeconds(seconds);
      var t := FormatTime(seconds);
      var k := |Decimal(m)|;
      |t| == k + |Decimal(s)| + 3
      && DigitsValue(t[..k], 10) == m && t[k..k + 2] == "m "
      && DigitsValue(t[k + 2..|t| - 1], 10) == s && t[|t| - 1] == 's'
  {
    var (m, s) := MinutesSeconds(seconds);
    var t := FormatTime(seconds);
    var k := |Decimal(m)|;
    ToRadixStringRoundTrip(m, 10);
    ToRadixStringRoundTrip(s, 10);
    assert t == Decimal(m) + "m " + Decimal(s) + "s";
    assert t[..k] == Decimal(m);
    assert t[k + 2..|t| - 1] == Decimal(s);
  }

  /** The game-over causes as the overlay words them. */
  function CauseText(c: Cause): string {
    match c
    case Starvation => "Taco muri\U{F3} de hambre... \U{1F63F}"
    case Exhaustion => "Taco muri\U{F3} de agotamiento... \U{1F63F}"
    case Sadness => "Taco muri\U{F3} de tristeza... \U{1F63F}"
  }

  /** The game-over message: the cause and the time survived. */
  function GameOverMessage(v: Vitals): string
    requires Lethal(v)
  {
    CauseText(DeathCause(v)) + "\n\nSobrevivi\U{F3} " + FormatTime(v.timeAlive)
  }

  /** The state in fields, one method per timer callback and button. */
  class Creature {
    var hunger: int
    var energy: int
    var happiness: int
    var timeAlive: nat
    var gameActive: bool
    var isDaytime: bool
    var record: nat
    var achievements: set<nat>

    function State(): Vitals
      reads this
    {
      Vitals(hunger, energy, happiness, timeAlive, gameActive, isDaytime, record, achievements)
    }

    /** `initGame`, with the record loaded from storage. */
    constructor(storedRecord: nat)
      ensures State() == Initial(storedRecord)
    {
      hunger, energy, happiness := 50, 50, 50;
      timeAlive, gameActive, isDaytime := 0, true, true;
      record, achievements := storedRecord, {};
    }

    /** `gameOver`: returns the cause it reports. */
    method EndGame() returns (cause: Cause)
      requires Lethal(State())
      modifies this
      ensures State() == GameOver(old(State()))
      ensures cause == DeathCause(old(State()))
    {
      gameActive := false;
      cause := if hunger >= 100 then Starvation else if energy <= 0 then Exhaustion else Sadness;
      if timeAlive > record {
        record := timeAlive;
      }
    }

    /** `checkGameOver`: returns the cause when the game ended. */
    method CheckGameOver() returns (cause: Option<Cause>)
      modifies this
      ensures State() == GameOverCheck(old(State()))
      ensures cause.Some? <==> Lethal(old(State()))
      ensures cause.Some? ==> cause.value == DeathCause(old(State()))
    {
      cause := None;
      if hunger >= 100 || energy <= 0 || happiness <= 0 {
        var c := EndGame();
        cause := Some(c);
      }
    }

    /** The hunger timer: +5, at most 100. */
    method HungerTimer() returns (cause: Option<Cause>)
      modifies this
      ensures State() == Step(old(State()), HungerTick)
      ensures cause.Some? <==> old(gameActive) && !gameActive
      ensures cause.Some? ==> Lethal(State()) && cause.value == DeathCause(State())
    {
      cause := None;
      if gameActive {
        hunger := Min(100, hunger + 5);
        cause := CheckGameOver();
      }
    }

    /** The energy timer: -3 by day, -5 by night, at least 0. */
    method EnergyTimer() returns (cause: Option<Cause>)
      modifies this
      ensures State() == Step(old(State()), EnergyTick)
      ensures cause.Some? <==> old(gameActive) && !gameActive
      ensures cause.Some? ==> Lethal(State()) && cause.value == DeathCause(State())
    {
      cause := None;
      if gameActive {
        var decrease := if isDaytime then 3 else 5;
        energy := Max(0, energy - decrease);
        cause := CheckGameOver();
      }
    }

    /** The happiness timer: -2, at least 0. */
    method HappinessTimer() returns (cause: Option<Cause>)
      modifies this
      ensures State() == Step(old(State()), HappinessTick)
      ensures cause.Some? <==> old(gameActive) && !gameActive
      ensures cause.Some? ==> Lethal(State()) && cause.value == DeathCause(State())
    {
      cause := None;
      if gameActive {
        happiness := Max(0, happiness - 2);
        cause := CheckGameOver();
      }
    }

    /** The one-second timer: counts the time and unlocks achievements;
        returns the thresholds newly unlocked. */
    method ClockTimer() returns (unlocked: set<nat>)
      modifies this
      ensures State() == Step(old(State()), TimeTick)
      ensures unlocked == achievements - old(achievements)
    {
      unlocked := {};
      if gameActive {
        timeAlive := timeAlive + 1;
        unlocked := Reached(timeAlive) - achievements;
        achievements := achievements + unlocked;
      }
    }

    /** The thirty-second timer. */
    method DayNightTimer()
      modifies this
      ensures State() == Step(old(State()), DayNightTick)
    {
      if gameActive {
        isDaytime := !isDaytime;
      }
    }

    /** `feedTaco`: hunger -30, at least 0. */
    method FeedTaco()
      modifies this
      ensures State() == Step(old(State()), Feed)
    {
      if !gameActive {
        return;
      }
      hunger := Max(0, hunger - 30);
    }

    /** `sleepTaco`: energy +40, at most 100. */
    method SleepTaco()
      modifies this
      ensures State() == Step(old(State()), Sleep)
    {
      if !gameActive {
        return;
      }
      energy := Min(100, energy + 40);
    }

    /** `playWithTaco`: happiness +25, at most 100; energy -15, at least 0. */
    method PlayWithTaco()
      modifies this
      ensures State() == Step(old(State()), Play)
    {
      if !gameActive {
        return;
      }
      happiness := Min(100, happiness + 25);
      energy := Max(0, energy - 15);
    }

    /** `giveMedicine`: returns whether it acted; when it does not, the
        page says no medicine is needed. */
    method GiveMedicine() returns (given: bool)
      modifies this
      ensures State() == Step(old(State()), Medicine)
      ensures given <==> old(gameActive) && NeedsMedicine(old(State()))
    {
      given := false;
      if !gameActive {
        return;
      }
      if hunger < 40 || energy < 40 || happiness < 40 {
        hunger, energy, happiness := 50, 50, 50;
        given := true;
      }
    }

    /** `restartGame`. */
    method RestartGame()
      modifies this
      ensures State() == Step(old(State()), Restart)
    {
      hunger, energy, happiness := 50, 50, 50;
      timeAlive := 0;
      gameActive := true;
      isDaytime := true;
    }

    /** The thought the page shows now. */
    function CurrentThought(): (t: Thought)
      reads this
      ensures t == ThoughtOf(State().hunger, State().energy, State().happiness)
    {
      ThoughtOf(hunger, energy, happiness)
    }
  }
}
