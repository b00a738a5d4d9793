/** The scheduler's delays: the minute field of a cron expression, on times in microseconds. */
module Cron {
  import opened Results
  import opened Text
  import opened PySeq

  const SECOND: int := 1_000_000
  const MINUTE: int := 60_000_000
  const HOUR: int := 3_600_000_000

  datatype CronError = UnsupportedExpression | NotANumber | DivisionByZero | MinuteOutOfRange

  /** A local time as microseconds since the start of some hour; hours have no offset changes. */
  type Time = int

  function MinuteOf(t: Time): (m: int)
    ensures 0 <= m < 60
  {
    t / MINUTE % 60
  }

  function HourStart(t: Time): Time {
    t / HOUR * HOUR
  }

  /** str.split() */
  function Fields(s: string): seq<string>
    decreases |s|
  {
    var body := LStrip(s);
    if body == "" then []
    else
      var n := FirstIndex(body, IsSpace);
      [body[..n]] + Fields(body[n..])
  }

  /** a // b, rounding towards minus infinity. */
  function FloorDiv(a: int, b: int): int
    requires b != 0
  {
    if b > 0 then a / b else -((a - b - 1) / -b)
  }

  /** The delay in microseconds a step field gives. */
  function StepDelay(step: int, now: Time): Result<int, CronError> {
    if step == 0 then Err(DivisionByZero)
    else
      var next := (FloorDiv(MinuteOf(now), step) + 1) * step;
      if next >= 60 then Ok(HourStart(now) + HOUR - now)
      else if next < 0 then Err(MinuteOutOfRange)
      else Ok(HourStart(now) + next * MINUTE - now)
  }

  /** The delay a field naming one minute gives. */
  function MinuteDelay(target: int, now: Time): Result<int, CronError> {
    if target < 0 || target >= 60 then Err(MinuteOutOfRange)
    else
      var next := HourStart(now) + target * MINUTE;
      Ok((if next <= now then next + HOUR else next) - now)
  }

  /** The delay of a star: whole seconds, counted from the second that has begun. */
  function StarDelay(now: Time): int {
    MINUTE - now % MINUTE / SECOND * SECOND
  }

  /** `_cron_delay_seconds` */
  function CronDelay(expression: string, now: Time): Result<int, CronError> {
    var fields := Fields(expression);
    if |fields| != 5 then Err(UnsupportedExpression)
    else if StartsWith(fields[0], "*/") then
      match ParseInt(fields[0][2..])
      case None => Err(NotANumber)
      case Some(step) => StepDelay(step, now)
    else if fields[0] == "*" then Ok(StarDelay(now))
    else
      match ParseInt(fields[0])
      case None => Err(NotANumber)
      case Some(target) => MinuteDelay(target, now)
  }

  // ----- which times match -----

  datatype MinuteField = Every(step: nat) | At(minute: nat)

  /** The start of a minute that the field selects. */
  predicate Matches(field: MinuteField, t: Time) {
    && t % MINUTE == 0
    && match field
       case Every(step) => step > 0 && MinuteOf(t) % step == 0
       case At(minute) => MinuteOf(t) == minute
  }

  /** The delay leads to the earliest matching time strictly after now, at most an hour away. */
  ghost predicate EarliestMatch(field: MinuteField, now: Time, delay: int) {
    && 0 < delay <= HOUR
    && Matches(field, now + delay)
    && (forall t: Time :: now < t < now + delay ==> !Matches(field, t))
  }

  /** Quotient and remainder are unique. */
  lemma {:induction false} Division(q: int, r: int, step: nat)
    requires 0 <= r < step
    ensures (q * step + r) / step == q && (q * step + r) % step == r
  {
    var n := q * step + r;
    assert n == step * (n / step) + n % step;
    SmallMultiple(step, n / step, q, r - n % step);
  }

  lemma {:induction false} SmallMultiple(step: nat, a: int, b: int, difference: int)
    requires step > 0 && step * a - b * step == difference && 0 - step < difference < step
    ensures a == b
  {
    if a > b {
      Grows(step, b + 1, a);
    } else if a < b {
      Grows(step, a + 1, b);
    }
  }

  lemma {:induction false} Grows(step: nat, a: int, b: int)
    requires a <= b
    ensures a * step <= step * b
  {
  }

  /** A time within an hour, as its hour, minute and rest. */
  lemma {:induction false} InHour(start: Time, minute: int, rest: int)
    requires start % HOUR == 0 && 0 <= minute < 60 && 0 <= rest < MINUTE
    ensures var t := start + minute * MINUTE + rest;
            HourStart(t) == start && MinuteOf(t) == minute && t % MINUTE == rest
  {
    var h := start / HOUR;
    Division(60 * h + minute, rest, MINUTE);
    Division(h, minute, 60);
    Division(h, minute * MINUTE + rest, HOUR);
  }

  /** Every time is one. */
  lemma {:induction false} Decompose(t: Time)
    ensures HourStart(t) % HOUR == 0
    ensures t == HourStart(t) + MinuteOf(t) * MINUTE + t % MINUTE
  {
    var h, d := t / HOUR, t % HOUR;
    Division(h, 0, HOUR);
    InHour(h * HOUR, d / MINUTE, d % MINUTE);
  }

  /** The multiple of a step that `StepDelay` picks: the least one above the minute. */
  lemma {:induction false} NextMultiple(minute: nat, step: nat)
    requires step > 0
    ensures var next := (FloorDiv(minute, step) + 1) * step;
            next > minute && next % step == 0 && forall k :: minute < k < next ==> k % step != 0
  {
    var q := minute / step;
    var next := (q + 1) * step;
    assert next == q * step + step;
    MultipleOf(q + 1, step);
    forall k | minute < k < next
      ensures k % step != 0
    {
      Division(q, k - q * step, step);
    }
  }

  lemma {:induction false} MultipleOf(q: int, step: nat)
    requires step > 0
    ensures q * step % step == 0
  {
    Division(q, 0, step);
  }

  /** Before the next multiple of the step, and within the hour, no time matches. */
  lemma {:induction false} NotYet(step: nat, now: Time, next: int, t: Time)
    requires step > 0 && now < t < HourStart(now) + next * MINUTE && next <= 60
    requires forall k :: MinuteOf(now) < k < next ==> k % step != 0
    ensures !Matches(Every(step), t)
  {
    hide HourStart, MinuteOf;
    Decompose(now);
    SameHour(HourStart(now), now, t);
    if t % MINUTE == 0 {
      assert MinuteOf(now) < MinuteOf(t) < next;
    }
  }

  /** The step's next multiple lies within the hour. */
  lemma {:induction false} StepWithinHour(step: nat, now: Time, next: int)
    requires step > 0 && MinuteOf(now) < next < 60 && next % step == 0
    requires forall k :: MinuteOf(now) < k < next ==> k % step != 0
    ensures EarliestMatch(Every(step), now, HourStart(now) + next * MINUTE - now)
  {
    hide HourStart, MinuteOf;
    Decompose(now);
    InHour(HourStart(now), next, 0);
    forall t: Time | now < t < HourStart(now) + next * MINUTE
      ensures !Matches(Every(step), t)
    {
      NotYet(step, now, next, t);
    }
  }

  /** It lies beyond the hour, whose end is a match. */
  lemma {:induction false} StepAtNextHour(step: nat, now: Time)
    requires step > 0
    requires forall k :: MinuteOf(now) < k < 60 ==> k % step != 0
    ensures EarliestMatch(Every(step), now, HourStart(now) + HOUR - now)
  {
    hide HourStart, MinuteOf;
    Decompose(now);
    var end := HourStart(now) + HOUR;
    assert end % HOUR == 0 by {
      NextStart(HourStart(now));
    }
    InHour(end, 0, 0);
    assert 0 % step == 0 by {
      Division(0, 0, step);
    }
    forall t: Time | now < t < end
      ensures !Matches(Every(step), t)
    {
      NotYet(step, now, 60, t);
    }
  }

  lemma {:induction false} NextStart(start: Time)
    requires start % HOUR == 0
    ensures (start + HOUR) % HOUR == 0
  {
    Division(start / HOUR + 1, 0, HOUR);
  }

  // `*/n`: the earliest minute the step selects, for every step of at least one minute.
  lemma {:induction false} StepDelayEarliest(step: int, now: Time)
    requires step > 0
    ensures StepDelay(step, now).Ok? && EarliestMatch(Every(step), now, StepDelay(step, now).value)
  {
    hide FloorDiv, HourStart, MinuteOf, EarliestMatch;
    var minute := MinuteOf(now);
    var next := (FloorDiv(minute, step) + 1) * step;
    NextMultiple(minute, step);
    if next >= 60 {
      StepAtNextHour(step, now);
    } else {
      StepWithinHour(step, now, next);
    }
  }

  /** A time later in the same hour has a later or the same minute; with the same minute it is not a boundary. */
  lemma {:induction false} SameHour(start: Time, now: Time, t: Time)
    requires start % HOUR == 0 && start <= now < t < start + HOUR
    ensures HourStart(t) == start && MinuteOf(now) <= MinuteOf(t)
    ensures t == start + MinuteOf(t) * MINUTE + t % MINUTE
    ensures t % MINUTE == 0 ==> MinuteOf(now) < MinuteOf(t)
  {
    InHour(start, (now - start) / MINUTE, (now - start) % MINUTE);
    InHour(start, (t - start) / MINUTE, (t - start) % MINUTE);
  }

  /** A fixed minute: the next time the clock shows it, for every minute a clock has, and an error for every other. */
  lemma {:induction false} MinuteDelayEarliest(target: int, now: Time)
    ensures MinuteDelay(target, now).Ok? <==> 0 <= target < 60
    ensures 0 <= target < 60 ==> EarliestMatch(At(target), now, MinuteDelay(target, now).value)
  {
    if 0 <= target < 60 {
      var start := HourStart(now);
      Decompose(now);
      InHour(start, target, 0);
      InHour(start + HOUR, target, 0);
      var delay := MinuteDelay(target, now).value;
      forall t: Time | now < t < now + delay
        ensures !Matches(At(target), t)
      {
        if t < start + HOUR {
          SameHour(start, now, t);
        } else {
          LaterHour(start + HOUR, t);
        }
      }
    }
  }

  lemma {:induction false} LaterHour(start: Time, t: Time)
    requires start % HOUR == 0 && start <= t < start + HOUR
    ensures t == start + MinuteOf(t) * MINUTE + t % MINUTE
  {
    InHour(start, (t - start) / MINUTE, (t - start) % MINUTE);
  }

  /** A star: the next minute boundary, overshot by the fraction of a second that had passed, so by less than one. */
  lemma {:induction false} StarDelayNextMinute(now: Time)
    ensures var boundary := now + StarDelay(now) - now % SECOND;
            EarliestMatch(Every(1), now, boundary - now)
  {
    var k, x := now / MINUTE, now % MINUTE;
    Division(60 * k + x / SECOND, x % SECOND, SECOND);
    var boundary := now + StarDelay(now) - now % SECOND;
    assert boundary == (k + 1) * MINUTE;
    Division(k + 1, 0, MINUTE);
    Division(MinuteOf(boundary), 0, 1);
    forall t: Time | now < t < boundary
      ensures !Matches(Every(1), t)
    {
      Division(k, t - k * MINUTE, MINUTE);
    }
  }

  /** A negative step never leads to a later time: minute 0 is an error, every other minute gives a time in the past. */
  lemma {:induction false} NegativeStep(step: int, now: Time)
    requires step < 0
    ensures MinuteOf(now) == 0 ==> StepDelay(step, now) == Err(MinuteOutOfRange)
    ensures MinuteOf(now) > 0 ==> StepDelay(step, now).Ok? && StepDelay(step, now).value < 0
  {
    var minute, n := MinuteOf(now), -step;
    var up := (minute + n - 1) / n;
    var r := (minute + n - 1) % n;
    assert minute + n - 1 == n * up + r;
    assert (FloorDiv(minute, step) + 1) * step == n * up - n by {
      assert FloorDiv(minute, step) == -up;
    }
    Decompose(now);
    if minute == 0 {
      assert up == 0;
    } else {
      assert up > 0;
    }
  }

  // ----- the scheduler's delay -----

  /** `_next_delay_seconds`, for a configured interval, in cron mode only when there is an expression. */
  function NextDelay(cronMode: bool, expression: Option<string>, interval: int, now: Time): Result<int, CronError> {
    if cronMode && expression.Some? && expression.value != "" then
      match CronDelay(expression.value, now)
      case Err(e) => Err(e)
      case Ok(delay) => Ok(Max(SECOND, delay))
    else Ok(Max(SECOND, interval))
  }

  /** The minute field of an expression that `CronDelay` accepts, when it has a plain meaning. */
  function FieldOf(expression: string): Option<MinuteField> {
    var fields := Fields(expression);
    if |fields| != 5 then None
    else if StartsWith(fields[0], "*/") then
      match ParseInt(fields[0][2..])
      case Some(step) => if step > 0 then Some(Every(step)) else None
      case None => None
    else if fields[0] == "*" then Some(Every(1))
    else
      match ParseInt(fields[0])
      case Some(target) => if 0 <= target < 60 then Some(At(target)) else None
      case None => None
  }

  /**
   The scheduler wakes at or after the earliest matching time strictly after now, and less than a second after it.
   The other four fields of the expression play no part. An expression without such a field is refused, or has a
   negative step, for which the delay is one second.
  */
  lemma {:induction false} WakesAtMatch(expression: string, interval: int, now: Time)
    requires expression != ""
    ensures var r := NextDelay(true, Some(expression), interval, now);
            match FieldOf(expression)
            case Some(field) => r.Ok? && exists delay: int :: EarliestMatch(field, now, delay) && delay <= r.value < delay + SECOND
            case None => r.Err? || r.value == SECOND
  {
    hide FloorDiv, StepDelay, MinuteDelay, StarDelay, EarliestMatch, ParseInt, Fields;
    var fields := Fields(expression);
    if |fields| == 5 {
      if StartsWith(fields[0], "*/") {
        match ParseInt(fields[0][2..])
        case None =>
        case Some(step) =>
          if step > 0 {
            StepDelayEarliest(step, now);
            Reached(Every(step), now, StepDelay(step, now).value);
          } else {
            NoStep(step, now);
          }
      } else if fields[0] == "*" {
        StarDelayNextMinute(now);
        Reached(Every(1), now, StarDelay(now) - now % SECOND);
        StarWhole(now);
      } else {
        match ParseInt(fields[0])
        case None =>
        case Some(target) =>
          MinuteDelayEarliest(target, now);
          if 0 <= target < 60 {
            Reached(At(target), now, MinuteDelay(target, now).value);
          }
      }
    }
  }

  lemma {:induction false} NoStep(step: int, now: Time)
    requires step <= 0
    ensures StepDelay(step, now).Err? || StepDelay(step, now).value < 0
  {
    if step < 0 {
      NegativeStep(step, now);
    }
  }

  lemma {:induction false} StarWhole(now: Time)
    ensures SECOND <= StarDelay(now)
  {
  }

  /** Waiting at least a second for a delay that is positive overshoots it by less than a second. */
  lemma {:induction false} Reached(field: MinuteField, now: Time, delay: int)
    requires EarliestMatch(field, now, delay)
    ensures delay <= Max(SECOND, delay) < delay + SECOND
  {
  }

  /** Without an expression, or outside cron mode, the scheduler waits its interval, but at least a second. */
  lemma {:induction false} IntervalDelay(cronMode: bool, expression: Option<string>, interval: int, now: Time)
    requires !cronMode || expression.None? || expression.value == ""
    ensures NextDelay(cronMode, expression, interval, now) == Ok(if interval < SECOND then SECOND else interval)
  {
  }

  // ----- the text of an expression -----

  /** Fields one after another, each with what separates it from the next. */
  function Spread(fields: seq<string>, gaps: seq<string>): string
    requires |gaps| == |fields|
  {
    if fields == [] then "" else fields[0] + gaps[0] + Spread(fields[1..], gaps[1..])
  }

  predicate Word(s: string) {
    s != "" && NoneOf(s, IsSpace)
  }

  /** Blanks separate words; after the last one they may be missing. */
  predicate Separates(fields: seq<string>, gaps: seq<string>) {
    && |gaps| == |fields|
    && (forall i :: 0 <= i < |fields| ==> Word(fields[i]) && AllBlank(gaps[i]))
    && (forall i :: 0 <= i < |fields| - 1 ==> gaps[i] != "")
  }

  /** An expression's fields are its words, in the order of the text, whatever blanks stand around and between them. */
  lemma {:induction false} FieldsInOrder(before: string, fields: seq<string>, gaps: seq<string>)
    requires AllBlank(before) && Separates(fields, gaps)
    ensures Fields(before + Spread(fields, gaps)) == fields
    decreases |fields|
  {
    hide IsSpace;
    LStripHead(before, Spread(fields, gaps));
    if fields == [] {
      assert LStrip("") == "";
    } else {
      var word, rest := fields[0], gaps[0] + Spread(fields[1..], gaps[1..]);
      var body := Spread(fields, gaps);
      assert body == word + rest;
      assert !IsSpace(word[0]);
      assert LStrip(body) == body;
      WordEnds(word, rest, fields, gaps);
      FieldsInOrder(gaps[0], fields[1..], gaps[1..]);
      assert body[..|word|] == word && body[|word|..] == rest;
      assert fields == [word] + fields[1..];
      assert LStrip(before + body) == body;
      assert Fields(before + body) == [body[..|word|]] + Fields(body[|word|..]);
    }
  }

  lemma {:induction false} WordEnds(word: string, rest: string, fields: seq<string>, gaps: seq<string>)
    requires Separates(fields, gaps) && fields != [] && word == fields[0] && rest == gaps[0] + Spread(fields[1..], gaps[1..])
    ensures FirstIndex(word + rest, IsSpace) == |word|
  {
    hide IsSpace;
    if rest == "" {
      assert word + rest == word;
    } else {
      assert gaps[0] != "" by {
        if |fields| == 1 {
          assert fields[1..] == [];
        }
      }
      assert rest[0] == gaps[0][0];
      FirstIndexAfter(word, rest, IsSpace);
    }
  }

  /**
   What an expression of five words means is said by its first word: every n minutes, every minute, or at one minute; any
   other number of words is refused at every time.
  */
  lemma {:induction false} FirstWordDecides(before: string, fields: seq<string>, gaps: seq<string>, n: nat)
    requires AllBlank(before) && Separates(fields, gaps) && Printable(n)
    ensures var expression := before + Spread(fields, gaps);
            && (|fields| != 5 ==> FieldOf(expression) == None && Refused(expression))
            && (|fields| == 5 && fields[0] == "*" ==> FieldOf(expression) == Some(Every(1)))
            && (|fields| == 5 && fields[0] == "*/" + IntToString(n) && n > 0 ==> FieldOf(expression) == Some(Every(n)))
            && (|fields| == 5 && fields[0] == IntToString(n) && n < 60 ==> FieldOf(expression) == Some(At(n)))
  {
    hide ParseInt, Fields, IntToString, Printable, Separates;
    FieldsInOrder(before, fields, gaps);
    ParseIntOfIntToString(n);
    NoStar(n);
    var step := "*/" + IntToString(n);
    assert step[..2] == "*/" && step[2..] == IntToString(n);
    assert "*"[..1] == "*" && !StartsWith("*", "*/");
  }

  lemma {:induction false} NoStar(n: nat)
    ensures !StartsWith(IntToString(n), "*/") && IntToString(n) != "*"
  {
    var s := IntToString(n);
    assert s[0] != '*';
    if |s| >= 2 {
      assert s[..2][0] == s[0];
    }
  }

  // ----- successive wakes -----

  /** The next matching time after another: it matches, and none between them does. */
  ghost predicate NextMatch(field: MinuteField, after: Time, m: Time) {
    after < m && Matches(field, m) && forall t: Time :: after < t < m ==> !Matches(field, t)
  }

  /**
   A tick that a match m woke and that ended at the given time: the next wake comes less than a second after the first
   match from then on, so exactly the matches during the tick are skipped; and a tick that ends within the minute of m
   skips none, so the wakes hit every match in turn.
  */
  lemma {:induction false} WakesInTurn(expression: string, interval: int, m: Time, ended: Time)
    requires expression != "" && FieldOf(expression).Some? && Matches(FieldOf(expression).value, m) && m <= ended
    ensures var field, r := FieldOf(expression).value, NextDelay(true, Some(expression), interval, ended);
            r.Ok? && exists next: Time ::
              && NextMatch(field, ended, next) && next <= ended + r.value < next + SECOND
              && (forall t: Time :: m < t < next && Matches(field, t) ==> t <= ended)
              && (ended < m + MINUTE ==> NextMatch(field, m, next))
  {
    hide NextDelay, FieldOf;
    WakesAtMatch(expression, interval, ended);
    var field, r := FieldOf(expression).value, NextDelay(true, Some(expression), interval, ended);
    var delay: int :| EarliestMatch(field, ended, delay) && delay <= r.value < delay + SECOND;
    var next := ended + delay;
    assert NextMatch(field, ended, next);
    if ended < m + MINUTE {
      forall t: Time | m < t < next
        ensures !Matches(field, t)
      {
        if t <= ended {
          WithinMinute(m, t);
        }
      }
      assert NextMatch(field, m, next);
    }
  }

  lemma {:induction false} WithinMinute(m: Time, t: Time)
    requires m % MINUTE == 0 && m < t < m + MINUTE
    ensures t % MINUTE != 0
  {
    Division(m / MINUTE, t - m, MINUTE);
  }

  /** An expression whose minute field no time makes sense of. */
  predicate Refused(expression: string) {
    var fields := Fields(expression);
    || |fields| != 5
    || (if StartsWith(fields[0], "*/") then ParseInt(fields[0][2..]) in [None, Some(0)]
        else fields[0] != "*" && (ParseInt(fields[0]).None? || ParseInt(fields[0]).value < 0 || ParseInt(fields[0]).value >= 60))
  }

  /** Those are exactly the expressions that raise at every time; one with a negative step raises at minute 0 only. */
  lemma {:induction false} RefusedAlways(expression: string)
    ensures (forall now: Time :: CronDelay(expression, now).Err?) <==> Refused(expression)
  {
    hide Fields, ParseInt, StarDelay, FloorDiv;
    var fields := Fields(expression);
    if !Refused(expression) {
      if StartsWith(fields[0], "*/") {
        var step := ParseInt(fields[0][2..]).value;
        if step > 0 {
          StepDelayEarliest(step, MINUTE);
        } else {
          Division(1, 0, MINUTE);
          Division(0, 1, 60);
          NegativeStep(step, MINUTE);
        }
      }
      assert CronDelay(expression, MINUTE).Ok?;
    }
  }
}
