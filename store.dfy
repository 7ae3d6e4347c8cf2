/** The application store (frontend/src/store.ts): the loaded setting and the
    three in-memory lists, with the actions that add and delete entries.
    Database writes, id generation and the clock are outside the model: ids,
    today's weekday and the calendar are parameters. */
module Store {
  import opened Ledger

  /** The day names, indexed by weekday number (Sunday is 0). */
  const Days: seq<string> := ["Sunday", "Monday", "Tuesday", "Wednesday", "Thursday", "Friday", "Saturday"]

  /** A weekday number as the clock reports it. */
  type Weekday = d: int | 0 <= d <= 6

  /** The schedules the store's actions accept. */
  type StoreSchedule = s: Schedule | s.OneOff? || s.Weekly? || s.Biweekly? || s.Monthly? witness OneOff

  /** `indexOf`: the first position of `x` in `s`, or -1 when it does not occur. */
  function IndexOf(s: seq<string>, x: string): (r: int)
    ensures -1 <= r < |s|
    ensures r == -1 <==> x !in s
    ensures 0 <= r ==> s[r] == x && forall j :: 0 <= j < r ==> s[j] != x
  {
    if s == [] then -1
    else if s[0] == x then 0
    else
      var r := IndexOf(s[1..], x);
      if r == -1 then -1 else r + 1
  }

  /** JavaScript's `%`: the remainder takes the sign of the dividend. */
  function JsRem(a: int, n: int): (r: int)
    requires n > 0
    ensures a >= 0 ==> 0 <= r < n
    ensures a < 0 ==> -n < r <= 0
  {
    if a >= 0 then a % n else -((-a) % n)
  }

  /** The number of days from today's weekday to the target weekday
      (`indexOf` of the day name, -1 when unrecognised). */
  function WeekdayOffset(target: int, today: Weekday): (r: int)
    ensures target >= -1 ==> 0 <= r <= 6 && WeekdayAfter(today, r) == target % 7
  {
    JsRem(target - today + 7, 7)
  }

  /** The offset `nextDateForDay` adds to today's date for a day name. */
  function NextDateOffset(day: string, today: Weekday): (r: nat)
    ensures r <= 6
  {
    WeekdayOffset(IndexOf(Days, day), today)
  }

  /** The weekday `k` days after `today`. */
  function WeekdayAfter(today: Weekday, k: nat): Weekday
  {
    (today + k) % 7
  }

  /** The offset to a weekday lands on it, and no smaller offset does. */
  lemma OffsetFirstHit(target: Weekday, today: Weekday)
    ensures WeekdayAfter(today, WeekdayOffset(target, today)) == target
    ensures forall k: nat :: k < WeekdayOffset(target, today) ==> WeekdayAfter(today, k) != target
  {
    var off := WeekdayOffset(target, today);
    if target >= today {
      assert off == target - today;
    } else {
      assert off == target - today + 7;
    }
    forall k: nat | k < off ensures WeekdayAfter(today, k) != target {
      if today + k < 7 {
        assert WeekdayAfter(today, k) == today + k;
      } else {
        assert WeekdayAfter(today, k) == today + k - 7;
      }
    }
  }

  /** The seven day names are pairwise different. */
  lemma DaysDistinct()
    ensures forall i, j :: 0 <= i < j < 7 ==> Days[i] != Days[j]
  {
  }

  /** In a list of seven different day names, a listed name sits only at the
      position `indexOf` finds. */
  lemma NamePosition(names: seq<string>, day: string)
    requires |names| == 7
    requires forall i, j :: 0 <= i < j < 7 ==> names[i] != names[j]
    requires day in names
    ensures forall d: Weekday :: names[d] == day ==> d == IndexOf(names, day)
  {
  }

  /** The offset for a listed name reaches that name. */
  lemma OffsetReachesName(names: seq<string>, day: string, today: Weekday)
    requires |names| == 7
    requires day in names
    ensures names[WeekdayAfter(today, WeekdayOffset(IndexOf(names, day), today))] == day
  {
    OffsetFirstHit(IndexOf(names, day), today);
  }

  /** In a list of different names, no smaller offset reaches a listed name. */
  lemma OffsetReachesNameFirst(names: seq<string>, day: string, today: Weekday)
    requires |names| == 7
    requires forall i, j :: 0 <= i < j < 7 ==> names[i] != names[j]
    requires day in names
    ensures forall k: nat :: k < WeekdayOffset(IndexOf(names, day), today) ==> names[WeekdayAfter(today, k)] != day
  {
    OffsetFirstHit(IndexOf(names, day), today);
    NamePosition(names, day);
  }

  /** In a list of different names, the name of today's weekday needs no
      offset. */
  lemma OffsetForTodaysName(names: seq<string>, day: string, today: Weekday)
    requires |names| == 7
    requires forall i, j :: 0 <= i < j < 7 ==> names[i] != names[j]
    requires names[today] == day
    ensures WeekdayOffset(IndexOf(names, day), today) == 0
  {
    NamePosition(names, day);
  }

  /** An unlisted name (`indexOf` gives -1) reaches the last day of the list. */
  lemma OffsetForUnlistedName(names: seq<string>, day: string, today: Weekday)
    requires day !in names
    ensures WeekdayOffset(IndexOf(names, day), today) == 6 - today
  {
  }

  /** For a recognised name the offset lands on that weekday and is the
      smallest that does, so today itself is chosen when it already is that
      weekday; an unrecognised name is not rejected and lands on Saturday. */
  lemma NextDateOffsetMeaning(day: string, today: Weekday)
    ensures day in Days ==> Days[WeekdayAfter(today, NextDateOffset(day, today))] == day
    ensures day in Days ==> forall k: nat :: k < NextDateOffset(day, today) ==> Days[WeekdayAfter(today, k)] != day
    ensures day in Days && Days[today] == day ==> NextDateOffset(day, today) == 0
    ensures day !in Days ==> NextDateOffset(day, today) == 6 - today
  {
    if day in Days {
      DaysDistinct();
      OffsetReachesName(Days, day, today);
      OffsetReachesNameFirst(Days, day, today);
      if Days[today] == day {
        OffsetForTodaysName(Days, day, today);
      }
    } else {
      OffsetForUnlistedName(Days, day, today);
    }
  }

  /** The start date `addIncome` and `addBill` store: the given date for a
      one-off, otherwise the date `nextDateForDay` computes from the day
      name; `dateAfter(n)` is the calendar's date `n` days after today. */
  function StartDate(schedule: StoreSchedule, when: string, today: Weekday, dateAfter: nat -> string): (r: string)
    ensures schedule == OneOff ==> r == when
    ensures schedule != OneOff ==> exists k: nat :: k <= 6 && r == dateAfter(k)
  {
    if schedule == OneOff then when else dateAfter(NextDateOffset(when, today))
  }

  /** A one-off keeps `when` unchanged; any other schedule starts on a date
      within the coming week, the first one that falls on the named weekday. */
  lemma StartDateChoice(schedule: StoreSchedule, when: string, today: Weekday, dateAfter: nat -> string)
    ensures schedule == OneOff ==> StartDate(schedule, when, today, dateAfter) == when
    ensures schedule != OneOff ==>
      exists k: nat :: k <= 6 && StartDate(schedule, when, today, dateAfter) == dateAfter(k)
        && (when in Days ==>
              Days[WeekdayAfter(today, k)] == when && forall j: nat :: j < k ==> Days[WeekdayAfter(today, j)] != when)
  {
    if schedule != OneOff {
      var k := NextDateOffset(when, today);
      NextDateOffsetMeaning(when, today);
      assert StartDate(schedule, when, today, dateAfter) == dateAfter(k);
    }
  }

  /** `filter` by id: the entries of `s` whose id is not `id`, in their order. */
  function Without<T(==)>(s: seq<T>, idOf: T -> string, id: string): (r: seq<T>)
    ensures |r| <= |s|
    ensures forall x :: x in r ==> idOf(x) != id
  {
    if s == [] then []
    else
      (if idOf(s[0]) != id then [s[0]] else []) + Without(s[1..], idOf, id)
  }

  lemma {:induction false} WithoutAppend<T>(a: seq<T>, b: seq<T>, idOf: T -> string, id: string)
    ensures Without(a + b, idOf, id) == Without(a, idOf, id) + Without(b, idOf, id)
    decreases |a|
  {
    if a == [] {
      assert a + b == b;
    } else {
      assert (a + b)[0] == a[0] && (a + b)[1..] == a[1..] + b;
      WithoutAppend(a[1..], b, idOf, id);
    }
  }

  /** Deleting keeps every other entry in its place relative to the rest:
      what stood before it still does, and what stood after it still does. */
  lemma WithoutKeepsOrder<T>(before: seq<T>, x: T, after: seq<T>, idOf: T -> string, id: string)
    requires idOf(x) != id
    ensures Without(before + [x] + after, idOf, id)
         == Without(before, idOf, id) + [x] + Without(after, idOf, id)
  {
    WithoutAppend(before + [x], after, idOf, id);
    WithoutAppend(before, [x], idOf, id);
    assert [x][1..] == [];
    assert Without([x], idOf, id) == [x] + Without([], idOf, id);
  }

  /** Deleting removes every entry with the id and keeps every other entry
      as often as it occurred. */
  lemma {:induction false} WithoutCount<T>(s: seq<T>, idOf: T -> string, id: string, x: T)
    ensures multiset(Without(s, idOf, id))[x] == if idOf(x) == id then 0 else multiset(s)[x]
    decreases |s|
  {
    if s != [] {
      WithoutCount(s[1..], idOf, id, x);
      assert s == [s[0]] + s[1..];
    }
  }

  /** Deleting the id of an entry that was just appended, when no earlier
      entry carries that id, gives back the list before the append. */
  lemma {:induction false} DeleteUndoesAdd<T>(s: seq<T>, idOf: T -> string, e: T)
    requires forall x :: x in s ==> idOf(x) != idOf(e)
    ensures Without(s + [e], idOf, idOf(e)) == s
    decreases |s|
  {
    if s == [] {
      assert [] + [e] == [e];
    } else {
      assert (s + [e])[1..] == s[1..] + [e];
      DeleteUndoesAdd(s[1..], idOf, e);
    }
  }

  /** The setting `load` installs when none is stored. */
  function DefaultSetting(today: string): (r: Setting)
    ensures r.id == "singleton" && r.openingBalanceCents == 0 && r.openingBalanceDate == today
  {
    Setting("singleton", "USD", "America/New_York", 0, today)
  }

  function IncomeSourceId(i: IncomeSource): string { i.id }
  function BillId(b: Bill): string { b.id }
  function MiscSpendingId(m: MiscSpending): string { m.id }

  class AppStore {
    var settings: Option<Setting>
    var incomeSources: seq<IncomeSource>
    var bills: seq<Bill>
    var misc: seq<MiscSpending>

    /** A loaded setting is the singleton record, as the TypeScript type
        of `Setting.id` (the literal type `'singleton'`) requires. */
    ghost predicate Valid()
      reads this
    {
      settings.Some? ==> settings.value.id == "singleton"
    }

    /** The store before `load`: no setting and empty lists. */
    constructor ()
      ensures Valid()
      ensures settings == None && incomeSources == [] && bills == [] && misc == []
    {
      settings := None;
      incomeSources := [];
      bills := [];
      misc := [];
    }

    /** `load`: take the stored setting, or install the default one when none
        is stored, and take the stored lists. `written` is the record put
        into the settings table, if any. */
    method Load(stored: Option<Setting>, storedIncome: seq<IncomeSource>, storedBills: seq<Bill>,
                storedMisc: seq<MiscSpending>, today: string)
      returns (written: Option<Setting>)
      requires stored.Some? ==> stored.value.id == "singleton"
      modifies this
      ensures Valid()
      ensures stored.None? ==> settings == Some(DefaultSetting(today)) && written == settings
      ensures stored.Some? ==> settings == stored && written == None
      ensures incomeSources == storedIncome && bills == storedBills && misc == storedMisc
    {
      if stored.None? {
        var defaultSetting := DefaultSetting(today);
        written := Some(defaultSetting);
        settings := Some(defaultSetting);
      } else {
        written := None;
        settings := stored;
      }
      incomeSources, bills, misc := storedIncome, storedBills, storedMisc;
    }

    /** `addIncome`: append one active income source without a recurrence rule. */
    method AddIncome(id: string, name: string, amountCents: int, schedule: StoreSchedule, when: string,
                     today: Weekday, dateAfter: nat -> string)
      requires Valid()
      modifies this`incomeSources
      ensures Valid()
      ensures incomeSources == old(incomeSources) + [IncomeSource(id, name, amountCents, None, schedule,
        StartDate(schedule, when, today, dateAfter), None, None, None, true)]
      ensures bills == old(bills) && misc == old(misc) && settings == old(settings)
    {
      var startDate := StartDate(schedule, when, today, dateAfter);
      var entry := IncomeSource(id, name, amountCents, None, schedule, startDate, None, None, None, true);
      incomeSources := incomeSources + [entry];
    }

    /** `addBill`: append one active bill without a recurrence rule. */
    method AddBill(id: string, name: string, amountCents: int, schedule: StoreSchedule, when: string,
                   today: Weekday, dateAfter: nat -> string)
      requires Valid()
      modifies this`bills
      ensures Valid()
      ensures bills == old(bills) + [Bill(id, name, amountCents, None, schedule,
        StartDate(schedule, when, today, dateAfter), None, None, None, None, true)]
      ensures incomeSources == old(incomeSources) && misc == old(misc) && settings == old(settings)
    {
      var startDate := StartDate(schedule, when, today, dateAfter);
      var entry := Bill(id, name, amountCents, None, schedule, startDate, None, None, None, None, true);
      bills := bills + [entry];
    }

    /** `addMisc`: append one misc spending entry. */
    method AddMisc(id: string, date: string, amountCents: int, description: string)
      requires Valid()
      modifies this`misc
      ensures Valid()
      ensures misc == old(misc) + [MiscSpending(id, date, amountCents, description, None)]
      ensures incomeSources == old(incomeSources) && bills == old(bills) && settings == old(settings)
    {
      var entry := MiscSpending(id, date, amountCents, description, None);
      misc := misc + [entry];
    }

    /** `deleteIncome`: drop the income sources with this id. */
    method DeleteIncome(id: string)
      requires Valid()
      modifies this`incomeSources
      ensures Valid()
      ensures incomeSources == Without(old(incomeSources), IncomeSourceId, id)
      ensures forall i :: i in incomeSources ==> i.id != id
      ensures bills == old(bills) && misc == old(misc) && settings == old(settings)
    {
      incomeSources := Without(incomeSources, IncomeSourceId, id);
    }

    /** `deleteBill`: drop the bills with this id. */
    method DeleteBill(id: string)
      requires Valid()
      modifies this`bills
      ensures Valid()
      ensures bills == Without(old(bills), BillId, id)
      ensures forall b :: b in bills ==> b.id != id
      ensures incomeSources == old(incomeSources) && misc == old(misc) && settings == old(settings)
    {
      bills := Without(bills, BillId, id);
    }

    /** `deleteMisc`: drop the misc spending entries with this id. */
    method DeleteMisc(id: string)
      requires Valid()
      modifies this`misc
      ensures Valid()
      ensures misc == Without(old(misc), MiscSpendingId, id)
      ensures forall m :: m in misc ==> m.id != id
      ensures incomeSources == old(incomeSources) && bills == old(bills) && settings == old(settings)
    {
      misc := Without(misc, MiscSpendingId, id);
    }
  }
}
