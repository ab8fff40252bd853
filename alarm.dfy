/** The interactive alarm: an `AlarmApp` object holding whether an alarm is
    armed, the armed time as an `HH:MM:SS` string, the list of saved alarms
    and the three time inputs. The clock reading, the id (`Date.now()`) and
    the sound and volume chosen on the page are parameters. */
module Alarm {
  import opened JsText
  import opened JsNumber

  datatype Option<T> = None | Some(value: T)

  /** One saved alarm. */
  datatype Entry = Entry(id: int, time: string, sound: string, volume: string)

  /** `String(field).padStart(2, '0')`. */
  function Pad2(field: string): (r: string)
    ensures |r| == if |field| >= 2 then |field| else 2
    ensures r[|r| - |field|..] == field
  {
    PadStart(field, 2, '0')
  }

  /** The `${hours}:${minutes}:${seconds}` string built from three fields. */
  function TimeString(hours: string, minutes: string, seconds: string): (r: string)
    ensures |r| == |Pad2(hours)| + |Pad2(minutes)| + |Pad2(seconds)| + 2
    ensures r[|Pad2(hours)|] == ':' && r[|Pad2(hours)| + 1 + |Pad2(minutes)|] == ':'
  {
    Pad2(hours) + ":" + Pad2(minutes) + ":" + Pad2(seconds)
  }

  /** Two decimal digits of a clock field. */
  function Field(n: nat): string {
    Pad2(Decimal(n))
  }

  /** A clock field below 100 is exactly two digits that read back as the
      field. */
  lemma FieldSpec(n: nat)
    requires n < 100
    ensures |Field(n)| == 2
    ensures DigitsValue(Field(n), 10) == n
  {
    assert Pow(10, 2) == 100;
    ToRadixStringLength(n, 10, 2);
    ToRadixStringRoundTrip(n, 10);
    PaddedDigits(Decimal(n), 2, 10);
  }

  predicate IsClock(hours: nat, minutes: nat, seconds: nat) {
    hours < 24 && minutes < 60 && seconds < 60
  }

  /** The time `updateTime` shows and compares for a clock reading. */
  function ClockString(hours: nat, minutes: nat, seconds: nat): string {
    TimeString(Decimal(hours), Decimal(minutes), Decimal(seconds))
  }

  /** The clock string is `HH:MM:SS`: eight characters, colons at 2 and 5,
      and each field reads back as the clock value. */
  lemma ClockStringSpec(hours: nat, minutes: nat, seconds: nat)
    requires IsClock(hours, minutes, seconds)
    ensures |ClockString(hours, minutes, seconds)| == 8
    ensures ClockString(hours, minutes, seconds)[2] == ':' && ClockString(hours, minutes, seconds)[5] == ':'
    ensures DigitsValue(ClockString(hours, minutes, seconds)[..2], 10) == hours
    ensures DigitsValue(ClockString(hours, minutes, seconds)[3..5], 10) == minutes
    ensures DigitsValue(ClockString(hours, minutes, seconds)[6..], 10) == seconds
  {
    FieldSpec(hours);
    FieldSpec(minutes);
    FieldSpec(seconds);
    var c := ClockString(hours, minutes, seconds);
    assert c == Field(hours) + ":" + Field(minutes) + ":" + Field(seconds);
    assert c[..2] == Field(hours);
    assert c[3..5] == Field(minutes);
    assert c[6..] == Field(seconds);
  }

  /** Different clock readings give different strings, so an armed time
      matches at most one second of the day. */
  lemma ClockStringInjective(h1: nat, m1: nat, s1: nat, h2: nat, m2: nat, s2: nat)
    requires IsClock(h1, m1, s1) && IsClock(h2, m2, s2)
    requires ClockString(h1, m1, s1) == ClockString(h2, m2, s2)
    ensures h1 == h2 && m1 == m2 && s1 == s2
  {
    ClockStringSpec(h1, m1, s1);
    ClockStringSpec(h2, m2, s2);
  }

  /** An input field longer than two characters, such as '100', makes an
      armed time that no clock reading equals. */
  lemma LongFieldNeverMatches(hours: string, minutes: string, seconds: string, h: nat, m: nat, s: nat)
    requires |hours| > 2 || |minutes| > 2 || |seconds| > 2
    requires IsClock(h, m, s)
    ensures ClockString(h, m, s) != TimeString(hours, minutes, seconds)
  {
    ClockStringSpec(h, m, s);
    var a, b, c := Pad2(hours), Pad2(minutes), Pad2(seconds);
    assert |a| >= |hours| && |a| >= 2;
    assert |b| >= |minutes| && |b| >= 2;
    assert |c| >= |seconds| && |c| >= 2;
    assert |TimeString(hours, minutes, seconds)| > 8;
  }

  /** Whether `updateTime` triggers the alarm: it must be armed with a
      time, and the clock string must equal that time exactly. */
  predicate Fires(isActive: bool, alarmTime: Option<string>, now: string) {
    isActive && alarmTime.Some? && alarmTime.value != [] && now == alarmTime.value
  }

  /** The alarm set for a clock reading fires at that reading and at no
      other. */
  lemma FiresExactlyAt(h: nat, m: nat, s: nat, h2: nat, m2: nat, s2: nat)
    requires IsClock(h, m, s) && IsClock(h2, m2, s2)
    ensures Fires(true, Some(ClockString(h, m, s)), ClockString(h2, m2, s2)) <==> h == h2 && m == m2 && s == s2
  {
    ClockStringSpec(h, m, s);
    if ClockString(h, m, s) == ClockString(h2, m2, s2) {
      ClockStringInjective(h, m, s, h2, m2, s2);
    }
  }

  /** `alarms.filter(a => a.id !== id)`. */
  function RemoveById(alarms: seq<Entry>, id: int): (r: seq<Entry>)
    ensures |r| <= |alarms|
    ensures forall i :: 0 <= i < |r| ==> r[i].id != id
  {
    if alarms == [] then []
    else (if alarms[0].id != id then [alarms[0]] else []) + RemoveById(alarms[1..], id)
  }

  /** Deleting keeps exactly the alarms whose id differs. */
  lemma {:induction false} RemoveByIdMembers(alarms: seq<Entry>, id: int)
    ensures forall e :: e in RemoveById(alarms, id) <==> e in alarms && e.id != id
  {
    if alarms != [] {
      RemoveByIdMembers(alarms[1..], id);
      assert alarms == [alarms[0]] + alarms[1..];
    }
  }

  /** Deleting works piece by piece, so the survivors keep their order. */
  lemma {:induction false} RemoveByIdAppend(a: seq<Entry>, b: seq<Entry>, id: int)
    ensures RemoveById(a + b, id) == RemoveById(a, id) + RemoveById(b, id)
  {
    if a == [] {
      assert a + b == b;
    } else {
      assert (a + b)[0] == a[0];
      assert (a + b)[1..] == a[1..] + b;
      RemoveByIdAppend(a[1..], b, id);
    }
  }

  /** Deleting an id no alarm carries changes nothing. */
  lemma {:induction false} RemoveAbsent(alarms: seq<Entry>, id: int)
    requires forall i :: 0 <= i < |alarms| ==> alarms[i].id != id
    ensures RemoveById(alarms, id) == alarms
  {
    if alarms != [] {
      RemoveAbsent(alarms[1..], id);
    }
  }

  /** Deleting the alarm that was just saved with a new id gives back the
      earlier list. */
  lemma DeleteUndoesStart(alarms: seq<Entry>, e: Entry)
    requires forall i :: 0 <= i < |alarms| ==> alarms[i].id != e.id
    ensures RemoveById(alarms + [e], e.id) == alarms
  {
    RemoveByIdAppend(alarms, [e], e.id);
    RemoveAbsent(alarms, e.id);
    assert [e][1..] == [];
  }

  /** The number of alarms carrying an id. */
  function CountId(alarms: seq<Entry>, id: int): nat {
    if alarms == [] then 0 else (if alarms[0].id == id then 1 else 0) + CountId(alarms[1..], id)
  }

  /** Deleting removes exactly the alarms carrying the id. */
  lemma {:induction false} RemoveByIdCount(alarms: seq<Entry>, id: int)
    ensures |RemoveById(alarms, id)| == |alarms| - CountId(alarms, id)
  {
    if alarms != [] {
      RemoveByIdCount(alarms[1..], id);
    }
  }

  class AlarmApp {
    var isActive: bool
    var alarmTime: Option<string>
    var alarms: seq<Entry>
    var hoursInput: string
    var minutesInput: string
    var secondsInput: string

    /** A new app: disarmed, with the alarms loaded from storage and the
        inputs as the page shows them. */
    constructor(stored: seq<Entry>, hours: string, minutes: string, seconds: string)
      ensures !isActive && alarmTime == None && alarms == stored
      ensures hoursInput == hours && minutesInput == minutes && secondsInput == seconds
    {
      isActive := false;
      alarmTime := None;
      alarms := stored;
      hoursInput, minutesInput, secondsInput := hours, minutes, seconds;
    }

    /** The user types into the three inputs. */
    method SetInputs(hours: string, minutes: string, seconds: string)
      modifies this
      ensures hoursInput == hours && minutesInput == minutes && secondsInput == seconds
      ensures isActive == old(isActive) && alarmTime == old(alarmTime) && alarms == old(alarms)
    {
      hoursInput, minutesInput, secondsInput := hours, minutes, seconds;
    }

    /** `startAlarm`: arms the padded time and saves one alarm at the end
        of the list. */
    method StartAlarm(id: int, sound: string, volume: string)
      modifies this
      ensures isActive
      ensures alarmTime == Some(TimeString(hoursInput, minutesInput, secondsInput))
      ensures alarms == old(alarms) + [Entry(id, alarmTime.value, sound, volume)]
      ensures hoursInput == old(hoursInput) && minutesInput == old(minutesInput) && secondsInput == old(secondsInput)
    {
      var time := TimeString(hoursInput, minutesInput, secondsInput);
      alarmTime := Some(time);
      isActive := true;
      alarms := alarms + [Entry(id, time, sound, volume)];
    }

    /** `stopAlarm`: disarms; the saved alarms stay. */
    method StopAlarm()
      modifies this
      ensures !isActive && alarmTime == None
      ensures alarms == old(alarms)
      ensures hoursInput == old(hoursInput) && minutesInput == old(minutesInput) && secondsInput == old(secondsInput)
    {
      isActive := false;
      alarmTime := None;
    }

    /** `resetInputs`: puts 07:00:00 back in the inputs, then stops. */
    method ResetInputs()
      modifies this
      ensures hoursInput == "07" && minutesInput == "00" && secondsInput == "00"
      ensures !isActive && alarmTime == None
      ensures alarms == old(alarms)
    {
      hoursInput, minutesInput, secondsInput := "07", "00", "00";
      StopAlarm();
    }

    /** `triggerAlarm`: the sound and the alert are left out; it ends by
        stopping. */
    method TriggerAlarm()
      modifies this
      ensures !isActive && alarmTime == None
      ensures alarms == old(alarms)
      ensures hoursInput == old(hoursInput) && minutesInput == old(minutesInput) && secondsInput == old(secondsInput)
    {
      StopAlarm();
    }

    /** `updateTime` for one clock reading: returns the displayed time and
        whether the alarm went off. After going off the alarm is disarmed,
        so it goes off once. */
    method UpdateTime(hours: nat, minutes: nat, seconds: nat) returns (display: string, triggered: bool)
      requires IsClock(hours, minutes, seconds)
      modifies this
      ensures display == ClockString(hours, minutes, seconds)
      ensures triggered == Fires(old(isActive), old(alarmTime), display)
      ensures triggered ==> !isActive && alarmTime == None
      ensures !triggered ==> isActive == old(isActive) && alarmTime == old(alarmTime)
      ensures alarms == old(alarms)
      ensures hoursInput == old(hoursInput) && minutesInput == old(minutesInput) && secondsInput == old(secondsInput)
    {
      display := ClockString(hours, minutes, seconds);
      triggered := false;
      if isActive && alarmTime.Some? && alarmTime.value != [] {
        if display == alarmTime.value {
          TriggerAlarm();
          triggered := true;
        }
      }
    }

    /** The delete button of the alarm with this id. */
    method DeleteAlarm(id: int)
      modifies this
      ensures alarms == RemoveById(old(alarms), id)
      ensures isActive == old(isActive) && alarmTime == old(alarmTime)
      ensures hoursInput == old(hoursInput) && minutesInput == old(minutesInput) && secondsInput == old(secondsInput)
    {
      alarms := RemoveById(alarms, id);
    }
  }
}
