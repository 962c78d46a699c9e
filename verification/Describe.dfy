/**
  Cron schedules in words (internal/cron/description.go). A description is kept
  as structured text: each constructor stands for one phrase the code can
  produce, and `Says` is what the phrase means to a reader. Field masks are the
  parser's 64-bit words, with bit 63 marking a starred field.
 */
module Describe {
  import opened Options

  // ---------- Schedules ----------

  datatype Spec = Spec(minute: bv64, hour: bv64, dom: bv64, month: bv64, dow: bv64)

  datatype Moment = Moment(minute: int, hour: int, dom: int, month: int, dow: int)

  predicate Clock(t: Moment) {
    0 <= t.minute <= 59 && 0 <= t.hour <= 23 && 1 <= t.dom <= 31 && 1 <= t.month <= 12 && 0 <= t.dow <= 6
  }

  predicate Bit(mask: bv64, n: int)
    requires 0 <= n < 64
  {
    mask & ((1 as bv64) << n) != 0
  }

  predicate Starred(mask: bv64) {
    Bit(mask, 63)
  }

  /** The scheduler's day rule: both fields must match if either is starred, otherwise one is enough. */
  predicate DayMatches(s: Spec, dom: int, dow: int)
    requires 1 <= dom <= 31 && 0 <= dow <= 6
  {
    if Starred(s.dom) || Starred(s.dow) then Bit(s.dom, dom) && Bit(s.dow, dow) else Bit(s.dom, dom) || Bit(s.dow, dow)
  }

  predicate Fires(s: Spec, t: Moment)
    requires Clock(t)
  {
    Bit(s.minute, t.minute) && Bit(s.hour, t.hour) && Bit(s.month, t.month) && DayMatches(s, t.dom, t.dow)
  }

  // ---------- Phrases and what they say ----------

  datatype Item = One(n: int) | Range(first: int, last: int)

  /** "1, 3–7, 9" */
  type Items = seq<Item>

  predicate ItemSays(i: Item, n: int) {
    match i
    case One(m) => n == m
    case Range(first, last) => first <= n <= last
  }

  predicate Lists(items: Items, n: int) {
    exists i | 0 <= i < |items| :: ItemSays(items[i], n)
  }

  datatype ClockPhrase =
    | EveryMinute
    | EveryNMinutes(step: int)
    | EveryHour
    | EveryHourAtMinute(minute: int)
    | AtMinutesOfEveryHour(minutes: Items)
    | EveryNHours(step: int)
    | AtTimes(times: seq<(int, int)>)
    | EveryMinuteDuringHours(hours: Items)
    | AtMinutesPastHours(minutes: Items, hours: Items)

  predicate ClockSays(p: ClockPhrase, minute: int, hour: int) {
    match p
    case EveryMinute => true
    case EveryNMinutes(step) => step > 0 && minute % step == 0
    case EveryHour => minute == 0
    case EveryHourAtMinute(m) => minute == m
    case AtMinutesOfEveryHour(minutes) => Lists(minutes, minute)
    case EveryNHours(step) => step > 0 && minute == 0 && hour % step == 0
    case AtTimes(times) => (hour, minute) in times
    case EveryMinuteDuringHours(hours) => Lists(hours, hour)
    case AtMinutesPastHours(minutes, hours) => Lists(minutes, minute) && Lists(hours, hour)
  }

  /** No day phrase, or one or two parts joined by "and" or "or". */
  datatype DayPhrase = EveryDay | OnDays(dom: Option<Items>, dow: Option<Items>, conjunction: bool)

  predicate DaySays(p: DayPhrase, dom: int, dow: int) {
    match p
    case EveryDay => true
    case OnDays(Some(a), Some(b), conjunction) =>
      if conjunction then Lists(a, dom) && Lists(b, dow) else Lists(a, dom) || Lists(b, dow)
    case OnDays(Some(a), None, _) => Lists(a, dom)
    case OnDays(None, Some(b), _) => Lists(b, dow)
    case OnDays(None, None, _) => true
  }

  datatype Text = DailyAt(hour: int, minute: int) | Sentence(clock: ClockPhrase, days: DayPhrase)

  datatype Description = Description(text: Text, months: Option<Items>)

  predicate TextSays(text: Text, t: Moment) {
    match text
    case DailyAt(hour, minute) => t.minute == minute && t.hour == hour
    case Sentence(clock, days) => ClockSays(clock, t.minute, t.hour) && DaySays(days, t.dom, t.dow)
  }

  predicate Says(d: Description, t: Moment) {
    && TextSays(d.text, t)
    && (d.months.Some? ==> Lists(d.months.value, t.month))
  }

  // ---------- Field values ----------

  predicate Ascending(values: seq<int>) {
    forall i, j | 0 <= i < j < |values| :: values[i] < values[j]
  }

  predicate Within(values: seq<int>, first: int, last: int) {
    Ascending(values) && forall i | 0 <= i < |values| :: first <= values[i] <= last
  }

  /** The set bits of one field in ascending order. */
  ghost predicate IsField(values: seq<int>, mask: bv64, first: int, last: int)
    requires 0 <= first && last < 64
  {
    && Within(values, first, last)
    && forall n | first <= n <= last :: n in values <==> Bit(mask, n)
  }

  lemma WithinExtends(values: seq<int>, first: int, n: int)
    requires first <= n && Within(values, first, n - 1)
    ensures Within(values, first, n) && Within(values + [n], first, n)
    ensures forall m :: m in values + [n] <==> m in values || m == n
  {
  }

  method FieldValues(mask: bv64, first: int, last: int) returns (values: seq<int>)
    requires 0 <= first <= last < 64
    ensures IsField(values, mask, first, last)
  {
    values := [];
    var n := first;
    while n <= last
      invariant first <= n <= last + 1
      invariant IsField(values, mask, first, n - 1)
    {
      WithinExtends(values, first, n);
      assert n !in values;
      if Bit(mask, n) {
        values := values + [n];
      }
      n := n + 1;
    }
  }

  lemma RangeOfValues(values: seq<int>, first: int, last: int)
    requires Within(values, first, last)
    ensures |values| > 0 ==> first <= last
  {
    if |values| > 0 {
      assert first <= values[0] <= last;
    }
  }

  /** A field has as many values as its range exactly when it has them all. */
  lemma {:induction false} FullCount(values: seq<int>, first: int, last: int)
    requires Within(values, first, last) && first <= last + 1
    ensures |values| <= last - first + 1
    ensures |values| == last - first + 1 <==> forall n | first <= n <= last :: n in values
    decreases last - first
  {
    if first <= last {
      if values != [] && values[|values| - 1] == last {
        var rest := values[..|values| - 1];
        FullCount(rest, first, last - 1);
        assert values == rest + [last];
        assert forall n | first <= n < last :: n in values <==> n in rest;
      } else {
        FullCount(values, first, last - 1);
        assert last !in values;
      }
    } else {
      RangeOfValues(values, first, last);
    }
  }

  // ---------- Lists and ranges ----------

  predicate Consecutive(values: seq<int>, i: int, j: int)
    requires 0 <= i <= j < |values|
  {
    forall k | i <= k <= j :: values[k] == values[i] + k - i
  }

  /** The phrase of one maximal block of consecutive values. */
  function Block(values: seq<int>, i: int, j: int): Items
    requires 0 <= i <= j < |values|
  {
    if j - i >= 2 then [Range(values[i], values[j])]
    else if i == j then [One(values[i])]
    else [One(values[i]), One(values[j])]
  }

  lemma BlockSays(values: seq<int>, i: int, j: int, n: int)
    requires 0 <= i <= j < |values| && Consecutive(values, i, j)
    ensures Lists(Block(values, i, j), n) <==> n in values[i..j + 1]
  {
    var block := Block(values, i, j);
    if values[i] <= n <= values[j] {
      assert values[i..j + 1][n - values[i]] == n;
      assert ItemSays(block[if j - i >= 2 || n == values[i] then 0 else 1], n);
    }
  }

  lemma ListsJoin(a: Items, b: Items, n: int)
    ensures Lists(a + b, n) <==> Lists(a, n) || Lists(b, n)
  {
    if Lists(a, n) {
      var i :| 0 <= i < |a| && ItemSays(a[i], n);
      assert ItemSays((a + b)[i], n);
    }
    if Lists(b, n) {
      var i :| 0 <= i < |b| && ItemSays(b[i], n);
      assert ItemSays((a + b)[|a| + i], n);
    }
  }

  /** A range stands for at least three values. */
  predicate Tight(items: Items) {
    forall i | 0 <= i < |items| :: items[i].Range? ==> items[i].first + 2 <= items[i].last
  }

  method DescribeValues(values: seq<int>) returns (items: Items)
    requires Ascending(values)
    ensures forall n :: Lists(items, n) <==> n in values
    ensures Tight(items)
  {
    items := [];
    var i := 0;
    while i < |values|
      invariant 0 <= i <= |values| && Tight(items)
      invariant forall n :: Lists(items, n) <==> n in values[..i]
    {
      var j := i;
      while j + 1 < |values| && values[j + 1] == values[j] + 1
        invariant i <= j < |values| && Consecutive(values, i, j)
      {
        j := j + 1;
      }
      var block := [];
      if j - i >= 2 {
        block := [Range(values[i], values[j])];
      } else {
        var n := i;
        while n <= j
          invariant i <= n <= j + 1 && |block| == n - i
          invariant forall k | 0 <= k < |block| :: block[k] == One(values[i + k])
        {
          block := block + [One(values[n])];
          n := n + 1;
        }
      }
      assert block == Block(values, i, j);
      forall n
        ensures Lists(items + block, n) <==> n in values[..j + 1]
      {
        ListsJoin(items, block, n);
        BlockSays(values, i, j, n);
        assert values[..j + 1] == values[..i] + values[i..j + 1];
      }
      items := items + block;
      i := j + 1;
    }
    assert values[..i] == values;
  }

  // ---------- Regular steps ----------

  /** The values are 0, step, 2 * step and so on through a range that step divides. */
  predicate Regular(values: seq<int>, step: int, size: int) {
    && 0 < step && size % step == 0 && |values| >= 2 && |values| == size / step
    && forall i | 0 <= i < |values| :: values[i] == i * step
  }

  lemma StepIsSecond(values: seq<int>, step: int, size: int)
    ensures Regular(values, step, size) ==> |values| >= 2 && values[1] == step
  {
    if Regular(values, step, size) {
      assert values[1] == 1 * step;
    }
  }

  method RegularStep(values: seq<int>, size: int) returns (step: int)
    requires Within(values, 0, size - 1)
    ensures step != 0 ==> Regular(values, step, size)
    ensures step == 0 ==> forall d :: !Regular(values, d, size)
  {
    if |values| < 2 || values[0] != 0 {
      return 0;
    }
    step := values[1];
    if size % step != 0 || |values| != size / step {
      return 0;
    }
    var i := 0;
    while i < |values|
      invariant 0 <= i <= |values|
      invariant forall k | 0 <= k < i :: values[k] == k * step
    {
      if values[i] != i * step {
        forall d
          ensures !Regular(values, d, size)
        {
          StepIsSecond(values, d, size);
        }
        return 0;
      }
      i := i + 1;
    }
  }

  lemma Stretch(gap: int, step: int)
    requires 0 < step
    ensures gap >= 1 ==> gap * step >= step
    ensures gap <= 0 ==> gap * step <= 0
  {
  }

  lemma ProductOrder(a: int, b: int, step: int)
    requires 0 < step
    ensures a * step < b * step <==> a < b
  {
    Stretch(b - a, step);
    assert (b - a) * step == b * step - a * step;
  }

  lemma MultipleIsBelow(n: int, step: int, size: int)
    requires 0 <= n < size && 0 < step && size % step == 0 && n % step == 0
    ensures 0 <= n / step < size / step && n == (n / step) * step
  {
    ProductOrder(n / step, size / step, step);
  }

  lemma MultiplesAreExact(i: int, step: int)
    requires 0 < step
    ensures (i * step) % step == 0
  {
    var q := (i * step) / step;
    ProductOrder(i, q, step);
    ProductOrder(i, q + 1, step);
  }

  /** Regular values are all the multiples of the step. */
  lemma RegularSays(values: seq<int>, step: int, size: int, n: int)
    requires Regular(values, step, size) && 0 <= n < size
    ensures n in values <==> n % step == 0
  {
    if n % step == 0 {
      MultipleIsBelow(n, step, size);
      assert values[n / step] == n;
    }
    if n in values {
      var i :| 0 <= i < |values| && values[i] == n;
      MultiplesAreExact(i, step);
    }
  }

  // ---------- The description ----------

  lemma OneValue(values: seq<int>)
    requires |values| == 1
    ensures forall n :: n in values <==> n == values[0]
  {
  }

  method ListTimes(hours: seq<int>, minute: int) returns (times: seq<(int, int)>)
    ensures forall h, m :: (h, m) in times <==> h in hours && m == minute
  {
    times := [];
    var i := 0;
    while i < |hours|
      invariant 0 <= i <= |hours|
      invariant forall h, m :: (h, m) in times <==> h in hours[..i] && m == minute
    {
      times := times + [(hours[i], minute)];
      i := i + 1;
    }
    assert hours[..i] == hours;
  }

  /** The phrase for minutes when every hour is meant. */
  method DescribeMinutes(minute: seq<int>) returns (p: ClockPhrase)
    requires Within(minute, 0, 59)
    ensures forall m, h | 0 <= m <= 59 && 0 <= h <= 23 :: ClockSays(p, m, h) <==> m in minute
  {
    FullCount(minute, 0, 59);
    if |minute| == 60 {
      return EveryMinute;
    }
    var step := RegularStep(minute, 60);
    if step > 0 {
      forall m | 0 <= m <= 59
        ensures m in minute <==> m % step == 0
      {
        RegularSays(minute, step, 60, m);
      }
      return EveryNMinutes(step);
    }
    if |minute| == 1 {
      OneValue(minute);
      if minute[0] == 0 {
        return EveryHour;
      }
      return EveryHourAtMinute(minute[0]);
    }
    var minutes := DescribeValues(minute);
    return AtMinutesOfEveryHour(minutes);
  }

  method DescribeHoursAt(minute: int, hour: seq<int>) returns (p: ClockPhrase)
    requires 0 <= minute <= 59 && Within(hour, 0, 23)
    ensures forall m, h | 0 <= m <= 59 && 0 <= h <= 23 :: ClockSays(p, m, h) <==> m == minute && h in hour
  {
    if minute == 0 {
      var step := RegularStep(hour, 24);
      if step > 0 {
        forall h | 0 <= h <= 23
          ensures h in hour <==> h % step == 0
        {
          RegularSays(hour, step, 24, h);
        }
        return EveryNHours(step);
      }
    }
    var times := ListTimes(hour, minute);
    return AtTimes(times);
  }

  /** describeClock: the phrase says just the listed minutes of the listed hours. */
  method DescribeClock(minute: seq<int>, hour: seq<int>) returns (p: ClockPhrase)
    requires Within(minute, 0, 59) && Within(hour, 0, 23)
    ensures forall m, h | 0 <= m <= 59 && 0 <= h <= 23 :: ClockSays(p, m, h) <==> m in minute && h in hour
  {
    FullCount(minute, 0, 59);
    FullCount(hour, 0, 23);
    if |hour| == 24 {
      p := DescribeMinutes(minute);
      return;
    }
    if |minute| == 1 {
      OneValue(minute);
      p := DescribeHoursAt(minute[0], hour);
      return;
    }
    var hours := DescribeValues(hour);
    if |minute| == 60 {
      return EveryMinuteDuringHours(hours);
    }
    var minutes := DescribeValues(minute);
    return AtMinutesPastHours(minutes, hours);
  }

  lemma StarBit(a: bv64, b: bv64)
    ensures (a | b) & ((1 as bv64) << 63) != 0 <==> Starred(a) || Starred(b)
  {
  }

  /** describeDays: the phrase says the scheduler's day rule, with "and" exactly when a field is starred. */
  method DescribeDays(s: Spec, dom: seq<int>, dow: seq<int>) returns (p: DayPhrase)
    requires IsField(dom, s.dom, 1, 31) && IsField(dow, s.dow, 0, 6)
    ensures forall d, w | 1 <= d <= 31 && 0 <= w <= 6 :: DaySays(p, d, w) <==> DayMatches(s, d, w)
    ensures p.OnDays? ==> (p.conjunction <==> Starred(s.dom) || Starred(s.dow)) && (p.dom.Some? || p.dow.Some?)
  {
    FullCount(dom, 1, 31);
    FullCount(dow, 0, 6);
    StarBit(s.dom, s.dow);
    var conjunction := (s.dom | s.dow) & ((1 as bv64) << 63) != 0;
    if (!conjunction && (|dom| == 31 || |dow| == 7)) || (|dom| == 31 && |dow| == 7) {
      return EveryDay;
    }
    var a, b := None, None;
    if |dom| != 31 {
      var items := DescribeValues(dom);
      a := Some(items);
    }
    if |dow| != 7 {
      var items := DescribeValues(dow);
      b := Some(items);
    }
    return OnDays(a, b, conjunction);
  }

  method DescribeTimes(minute: seq<int>, hour: seq<int>, days: DayPhrase) returns (text: Text)
    requires Within(minute, 0, 59) && Within(hour, 0, 23)
    ensures forall t | Clock(t) ::
              TextSays(text, t) <==> t.minute in minute && t.hour in hour && DaySays(days, t.dom, t.dow)
  {
    var clock := DescribeClock(minute, hour);
    text := Sentence(clock, days);
    if days.EveryDay? && |minute| == 1 && |hour| == 1 {
      OneValue(minute);
      OneValue(hour);
      text := DailyAt(hour[0], minute[0]);
    }
  }

  /** No month phrase when every month is meant. */
  method DescribeMonths(month: seq<int>) returns (months: Option<Items>)
    requires Within(month, 1, 12)
    ensures forall n | 1 <= n <= 12 :: (months.Some? ==> Lists(months.value, n)) <==> n in month
  {
    FullCount(month, 1, 12);
    months := None;
    if |month| != 12 {
      var items := DescribeValues(month);
      months := Some(items);
    }
  }

  /** For all field masks, the description says exactly the moments at which the schedule fires. */
  method Describe(s: Spec) returns (d: Description)
    ensures forall t | Clock(t) :: Says(d, t) <==> Fires(s, t)
  {
    var minute := FieldValues(s.minute, 0, 59);
    var hour := FieldValues(s.hour, 0, 23);
    var dom := FieldValues(s.dom, 1, 31);
    var dow := FieldValues(s.dow, 0, 6);
    var month := FieldValues(s.month, 1, 12);
    var days := DescribeDays(s, dom, dow);
    var text := DescribeTimes(minute, hour, days);
    var months := DescribeMonths(month);
    d := Description(text, months);
  }
}
