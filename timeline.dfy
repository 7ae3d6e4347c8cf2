/** The timeline projector (frontend/src/balance.ts): one event per income
    source, bill and misc spending entry, sorted by date and kind, with the
    opening balance folded forward through them. */
module Timeline {
  import opened Ledger
  import opened EventOrder
  import opened EventSort

  /** One row of the projected timeline; `projectedBalance` is the balance
      after `delta` has been applied. */
  datatype TimelineEntry = TimelineEntry(
    date: string,
    kind: Kind,
    labelText: string,
    delta: int,
    projectedBalance: int)

  function IncomeEvent(i: IncomeSource): Event
  {
    Event(i.startDate, Income, i.name, i.amountCents)
  }

  function BillEvent(b: Ledger.Bill): Event
  {
    Event(b.startDate, EventOrder.Bill, b.name, -b.amountCents)
  }

  function MiscEvent(m: MiscSpending): Event
  {
    Event(m.date, Misc, m.description, -m.amountCents)
  }

  function IncomeEvents(incomes: seq<IncomeSource>): (r: seq<Event>)
    ensures |r| == |incomes|
    ensures forall k :: 0 <= k < |incomes| ==> r[k] == IncomeEvent(incomes[k])
  {
    if incomes == [] then [] else [IncomeEvent(incomes[0])] + IncomeEvents(incomes[1..])
  }

  function BillEvents(bills: seq<Ledger.Bill>): (r: seq<Event>)
    ensures |r| == |bills|
    ensures forall k :: 0 <= k < |bills| ==> r[k] == BillEvent(bills[k])
  {
    if bills == [] then [] else [BillEvent(bills[0])] + BillEvents(bills[1..])
  }

  function MiscEvents(misc: seq<MiscSpending>): (r: seq<Event>)
    ensures |r| == |misc|
    ensures forall k :: 0 <= k < |misc| ==> r[k] == MiscEvent(misc[k])
  {
    if misc == [] then [] else [MiscEvent(misc[0])] + MiscEvents(misc[1..])
  }

  /** The events in the order they are pushed: all incomes, then all bills,
      then all misc spending. */
  function Events(incomes: seq<IncomeSource>, bills: seq<Ledger.Bill>, misc: seq<MiscSpending>): (r: seq<Event>)
    ensures |r| == |incomes| + |bills| + |misc|
  {
    IncomeEvents(incomes) + BillEvents(bills) + MiscEvents(misc)
  }

  /** One event per entry: each keeps its entry's date and label, an income
      adds its amount, a bill or a misc spending subtracts its amount. */
  lemma EventsLayout(incomes: seq<IncomeSource>, bills: seq<Ledger.Bill>, misc: seq<MiscSpending>)
    ensures var r := Events(incomes, bills, misc);
      |r| == |incomes| + |bills| + |misc|
      && (forall k :: 0 <= k < |incomes| ==>
           r[k] == Event(incomes[k].startDate, Income, incomes[k].name, incomes[k].amountCents))
      && (forall k :: 0 <= k < |bills| ==>
           r[|incomes| + k] == Event(bills[k].startDate, EventOrder.Bill, bills[k].name, -bills[k].amountCents))
      && (forall k :: 0 <= k < |misc| ==>
           r[|incomes| + |bills| + k] == Event(misc[k].date, Misc, misc[k].description, -misc[k].amountCents))
  {
  }

  function IncomeCents(incomes: seq<IncomeSource>): int
  {
    if incomes == [] then 0 else incomes[0].amountCents + IncomeCents(incomes[1..])
  }

  function BillCents(bills: seq<Ledger.Bill>): int
  {
    if bills == [] then 0 else bills[0].amountCents + BillCents(bills[1..])
  }

  function MiscCents(misc: seq<MiscSpending>): int
  {
    if misc == [] then 0 else misc[0].amountCents + MiscCents(misc[1..])
  }

  /** The fold: each event moves the balance by its amount, and the row
      records the balance after it. */
  function Project(balance: int, events: seq<Event>): (r: seq<TimelineEntry>)
    ensures |r| == |events|
    decreases |events|
  {
    if events == [] then []
    else
      var e := events[0];
      var next := balance + e.amountCents;
      [TimelineEntry(e.date, e.kind, e.labelText, e.amountCents, next)] + Project(next, events[1..])
  }

  /** The sum of the signed amounts of `events`. */
  function Total(events: seq<Event>): int
  {
    if events == [] then 0 else events[0].amountCents + Total(events[1..])
  }

  /** The events a timeline lists, with the balances dropped. */
  function EventsOf(t: seq<TimelineEntry>): (r: seq<Event>)
    ensures |r| == |t|
  {
    seq(|t|, k requires 0 <= k < |t| => Event(t[k].date, t[k].kind, t[k].labelText, t[k].delta))
  }

  /** What `buildTimeline` returns for these inputs. */
  function TimelineOf(setting: Setting, incomes: seq<IncomeSource>, bills: seq<Ledger.Bill>, misc: seq<MiscSpending>): (r: seq<TimelineEntry>)
    ensures |r| == |incomes| + |bills| + |misc|
  {
    Project(setting.openingBalanceCents, Sort(Events(incomes, bills, misc)))
  }

  /** `buildTimeline`: push the events into a fresh array, sort it in place,
      then fold the balance forward into a fresh timeline. */
  method BuildTimeline(setting: Setting, incomes: seq<IncomeSource>, bills: seq<Ledger.Bill>, misc: seq<MiscSpending>)
    returns (timeline: seq<TimelineEntry>)
    ensures timeline == TimelineOf(setting, incomes, bills, misc)
  {
    var events := PushEvents(incomes, bills, misc);
    SortInPlace(events);
    timeline := FoldBalance(setting.openingBalanceCents, events);
  }

  /** The three push loops: one event per income, bill and misc entry. */
  method PushEvents(incomes: seq<IncomeSource>, bills: seq<Ledger.Bill>, misc: seq<MiscSpending>)
    returns (events: array<Event>)
    ensures fresh(events)
    ensures events[..] == Events(incomes, bills, misc)
  {
    events := new Event[|incomes| + |bills| + |misc|];
    var n := 0;
    for k := 0 to |incomes|
      invariant n == k
      invariant events[..n] == [] + IncomeEvents(incomes)[..k]
    {
      events[n] := IncomeEvent(incomes[k]);
      PushStep(events[..], n, [], IncomeEvents(incomes), k);
      n := n + 1;
    }
    ghost var done := IncomeEvents(incomes);
    assert done[..|incomes|] == done;
    for k := 0 to |bills|
      invariant n == |incomes| + k
      invariant events[..n] == done + BillEvents(bills)[..k]
    {
      events[n] := BillEvent(bills[k]);
      PushStep(events[..], n, done, BillEvents(bills), k);
      n := n + 1;
    }
    assert BillEvents(bills)[..|bills|] == BillEvents(bills);
    done := done + BillEvents(bills);
    for k := 0 to |misc|
      invariant n == |incomes| + |bills| + k
      invariant events[..n] == done + MiscEvents(misc)[..k]
    {
      events[n] := MiscEvent(misc[k]);
      PushStep(events[..], n, done, MiscEvents(misc), k);
      n := n + 1;
    }
    assert MiscEvents(misc)[..|misc|] == MiscEvents(misc);
    assert events[..] == events[..n];
  }

  /** The balance loop: add each event's amount to the balance and record a row. */
  method FoldBalance(opening: int, events: array<Event>) returns (timeline: seq<TimelineEntry>)
    ensures timeline == Project(opening, events[..])
  {
    var balance := opening;
    timeline := [];
    for k := 0 to events.Length
      invariant balance == opening + Total(events[..k])
      invariant timeline == Project(opening, events[..k])
    {
      var e := events[k];
      ProjectSnoc(opening, events[..k], e);
      TotalSnoc(events[..k], e);
      assert events[..k + 1] == events[..k] + [e];
      balance := balance + e.amountCents;
      timeline := timeline + [TimelineEntry(e.date, e.kind, e.labelText, e.amountCents, balance)];
    }
    assert events[..events.Length] == events[..];
  }

  lemma PushStep(s: seq<Event>, n: nat, done: seq<Event>, part: seq<Event>, k: nat)
    requires n < |s| && k < |part|
    requires s[..n] == done + part[..k] && s[n] == part[k]
    ensures s[..n + 1] == done + part[..k + 1]
  {
    assert s[..n + 1] == s[..n] + [s[n]];
    assert part[..k + 1] == part[..k] + [part[k]];
  }

  lemma {:induction false} TotalSnoc(s: seq<Event>, e: Event)
    ensures Total(s + [e]) == Total(s) + e.amountCents
    decreases |s|
  {
    if s == [] {
      assert [] + [e] == [e];
    } else {
      assert (s + [e])[1..] == s[1..] + [e];
      TotalSnoc(s[1..], e);
    }
  }

  lemma {:induction false} TotalAppend(a: seq<Event>, b: seq<Event>)
    ensures Total(a + b) == Total(a) + Total(b)
    decreases |a|
  {
    if a == [] {
      assert a + b == b;
    } else {
      assert (a + b)[1..] == a[1..] + b;
      TotalAppend(a[1..], b);
    }
  }

  /** Extending the events by one adds exactly one row, carrying the balance
      after all of them. */
  lemma {:induction false} ProjectSnoc(balance: int, s: seq<Event>, e: Event)
    ensures Project(balance, s + [e])
         == Project(balance, s) + [TimelineEntry(e.date, e.kind, e.labelText, e.amountCents, balance + Total(s) + e.amountCents)]
    decreases |s|
  {
    if s == [] {
      assert [] + [e] == [e];
    } else {
      assert (s + [e])[1..] == s[1..] + [e];
      ProjectSnoc(balance + s[0].amountCents, s[1..], e);
    }
  }

  /** Row `k` keeps the date, kind, label and amount of event `k`, and its
      balance is the opening balance plus the amounts of events 0..k. */
  lemma {:induction false} ProjectRow(balance: int, s: seq<Event>, k: nat)
    requires k < |s|
    ensures Project(balance, s)[k]
         == TimelineEntry(s[k].date, s[k].kind, s[k].labelText, s[k].amountCents, balance + Total(s[..k + 1]))
    decreases |s|
  {
    if k > 0 {
      ProjectRow(balance + s[0].amountCents, s[1..], k - 1);
      assert s[..k + 1] == [s[0]] + s[1..][..k];
    } else {
      assert s[..1] == [s[0]];
    }
  }

  /** Projecting and dropping the balances gives back the events. */
  lemma ProjectKeepsEvents(balance: int, s: seq<Event>)
    ensures EventsOf(Project(balance, s)) == s
  {
    forall k | 0 <= k < |s| ensures EventsOf(Project(balance, s))[k] == s[k] {
      ProjectRow(balance, s, k);
    }
  }

  /** The running balance: the first row is the opening balance plus its
      delta, and every later row is the previous row's balance plus its own
      delta. */
  lemma ProjectRunningBalance(balance: int, s: seq<Event>)
    ensures s != [] ==> Project(balance, s)[0].projectedBalance == balance + Project(balance, s)[0].delta
    ensures forall k :: 0 < k < |s| ==>
      Project(balance, s)[k].projectedBalance == Project(balance, s)[k - 1].projectedBalance + Project(balance, s)[k].delta
  {
    var r := Project(balance, s);
    forall k | 0 < k < |s|
      ensures r[k].projectedBalance == r[k - 1].projectedBalance + r[k].delta
    {
      ProjectRow(balance, s, k);
      ProjectRow(balance, s, k - 1);
      assert s[..k + 1] == s[..k] + [s[k]];
      TotalSnoc(s[..k], s[k]);
    }
  }

  /** The last row's balance minus the opening balance is the sum of all amounts. */
  lemma ProjectNet(balance: int, s: seq<Event>)
    requires s != []
    ensures Project(balance, s)[|s| - 1].projectedBalance - balance == Total(s)
  {
    ProjectRow(balance, s, |s| - 1);
    assert s[..|s|] == s;
  }

  lemma {:induction false} TotalInsert(x: Event, s: seq<Event>)
    ensures Total(Insert(x, s)) == Total(s) + x.amountCents
    decreases |s|
  {
    if s != [] {
      var init, last := s[..|s| - 1], s[|s| - 1];
      assert s == init + [last];
      TotalSnoc(init, last);
      if Compare(last, x) > 0 {
        TotalInsert(x, init);
        TotalSnoc(Insert(x, init), last);
      } else {
        TotalSnoc(s, x);
      }
    }
  }

  /** Sorting does not change the sum of the amounts. */
  lemma {:induction false} TotalSort(s: seq<Event>)
    ensures Total(Sort(s)) == Total(s)
    decreases |s|
  {
    if s != [] {
      var init, last := s[..|s| - 1], s[|s| - 1];
      assert s == init + [last];
      TotalSort(init);
      TotalInsert(last, Sort(init));
      TotalSnoc(init, last);
    }
  }

  lemma {:induction false} TotalIncomeEvents(incomes: seq<IncomeSource>)
    ensures Total(IncomeEvents(incomes)) == IncomeCents(incomes)
    decreases |incomes|
  {
    if incomes != [] {
      TotalIncomeEvents(incomes[1..]);
    }
  }

  lemma {:induction false} TotalBillEvents(bills: seq<Ledger.Bill>)
    ensures Total(BillEvents(bills)) == -BillCents(bills)
    decreases |bills|
  {
    if bills != [] {
      TotalBillEvents(bills[1..]);
    }
  }

  lemma {:induction false} TotalMiscEvents(misc: seq<MiscSpending>)
    ensures Total(MiscEvents(misc)) == -MiscCents(misc)
    decreases |misc|
  {
    if misc != [] {
      TotalMiscEvents(misc[1..]);
    }
  }

  /** The signed amounts of all events add up to income minus bills minus misc spending. */
  lemma TotalEvents(incomes: seq<IncomeSource>, bills: seq<Ledger.Bill>, misc: seq<MiscSpending>)
    ensures Total(Events(incomes, bills, misc)) == IncomeCents(incomes) - BillCents(bills) - MiscCents(misc)
  {
    TotalAppend(IncomeEvents(incomes) + BillEvents(bills), MiscEvents(misc));
    TotalAppend(IncomeEvents(incomes), BillEvents(bills));
    TotalIncomeEvents(incomes);
    TotalBillEvents(bills);
    TotalMiscEvents(misc);
  }

  /** One row per income source, bill and misc entry, whatever their
      schedule or `active` flag; no entries give an empty timeline. */
  lemma TimelineRows(setting: Setting, incomes: seq<IncomeSource>, bills: seq<Ledger.Bill>, misc: seq<MiscSpending>)
    ensures |TimelineOf(setting, incomes, bills, misc)| == |incomes| + |bills| + |misc|
    ensures TimelineOf(setting, incomes, bills, misc) == [] <==> incomes == [] && bills == [] && misc == []
  {
  }

  /** The rows list exactly the constructed events, rearranged: a permutation
      that keeps, for every date and kind, the input order of the events
      sharing them. */
  lemma TimelineIsStableSortOfEvents(setting: Setting, incomes: seq<IncomeSource>, bills: seq<Ledger.Bill>, misc: seq<MiscSpending>)
    ensures multiset(EventsOf(TimelineOf(setting, incomes, bills, misc))) == multiset(Events(incomes, bills, misc))
    ensures forall k :: Only(EventsOf(TimelineOf(setting, incomes, bills, misc)), k) == Only(Events(incomes, bills, misc), k)
  {
    var e := Events(incomes, bills, misc);
    ProjectKeepsEvents(setting.openingBalanceCents, Sort(e));
    SortPermutes(e);
    forall k ensures Only(Sort(e), k) == Only(e, k) {
      SortStable(e, k);
    }
  }

  /** Rows are in date order, and rows of one date are income, then bill,
      then misc. */
  lemma TimelineOrdered(setting: Setting, incomes: seq<IncomeSource>, bills: seq<Ledger.Bill>, misc: seq<MiscSpending>)
    ensures var t := TimelineOf(setting, incomes, bills, misc);
      forall i, j :: 0 <= i < j < |t| ==>
        (t[i].date == t[j].date || LexCompare(t[i].date, t[j].date) < 0) &&
        (t[i].date == t[j].date ==> KindOrder(t[i].kind) <= KindOrder(t[j].kind))
  {
    var e := Sort(Events(incomes, bills, misc));
    var t := TimelineOf(setting, incomes, bills, misc);
    ProjectKeepsEvents(setting.openingBalanceCents, e);
    SortSorted(Events(incomes, bills, misc));
    forall i, j | 0 <= i < j < |t|
      ensures t[i].date == t[j].date || LexCompare(t[i].date, t[j].date) < 0
      ensures t[i].date == t[j].date ==> KindOrder(t[i].kind) <= KindOrder(t[j].kind)
    {
      assert EventsOf(t)[i] == e[i] && EventsOf(t)[j] == e[j];
      PrecedesMeaning(e[i], e[j]);
    }
  }

  /** The running balance: the first row is the opening balance plus its
      delta, each later row the previous row plus its delta, so row k is the
      opening balance plus the deltas of rows 0..k. */
  lemma TimelineBalances(setting: Setting, incomes: seq<IncomeSource>, bills: seq<Ledger.Bill>, misc: seq<MiscSpending>)
    ensures var t := TimelineOf(setting, incomes, bills, misc);
      (t != [] ==> t[0].projectedBalance == setting.openingBalanceCents + t[0].delta) &&
      (forall k :: 0 < k < |t| ==> t[k].projectedBalance == t[k - 1].projectedBalance + t[k].delta) &&
      (forall k :: 0 <= k < |t| ==> t[k].projectedBalance == setting.openingBalanceCents + Total(EventsOf(t)[..k + 1]))
  {
    var e := Sort(Events(incomes, bills, misc));
    var t := TimelineOf(setting, incomes, bills, misc);
    ProjectRunningBalance(setting.openingBalanceCents, e);
    ProjectKeepsEvents(setting.openingBalanceCents, e);
    forall k | 0 <= k < |t|
      ensures t[k].projectedBalance == setting.openingBalanceCents + Total(EventsOf(t)[..k + 1])
    {
      ProjectRow(setting.openingBalanceCents, e, k);
    }
  }

  /** The last row's balance exceeds the opening balance by the sum of all
      deltas: total income minus total bills minus total misc spending. */
  lemma TimelineNet(setting: Setting, incomes: seq<IncomeSource>, bills: seq<Ledger.Bill>, misc: seq<MiscSpending>)
    requires incomes != [] || bills != [] || misc != []
    ensures var t := TimelineOf(setting, incomes, bills, misc);
      t[|t| - 1].projectedBalance - setting.openingBalanceCents
        == Total(EventsOf(t))
        == IncomeCents(incomes) - BillCents(bills) - MiscCents(misc)
  {
    var e := Events(incomes, bills, misc);
    ProjectNet(setting.openingBalanceCents, Sort(e));
    ProjectKeepsEvents(setting.openingBalanceCents, Sort(e));
    TotalSort(e);
    TotalEvents(incomes, bills, misc);
  }

  /** Of the setting only the opening balance is read, and of an income or a
      bill only its start date, name and amount: schedule, `active`, end
      date, exceptions and the opening-balance date make no difference. */
  lemma TimelineReadsOnly(
    setting1: Setting, incomes1: seq<IncomeSource>, bills1: seq<Ledger.Bill>,
    setting2: Setting, incomes2: seq<IncomeSource>, bills2: seq<Ledger.Bill>,
    misc: seq<MiscSpending>)
    requires setting1.openingBalanceCents == setting2.openingBalanceCents
    requires |incomes1| == |incomes2| && |bills1| == |bills2|
    requires forall k :: 0 <= k < |incomes1| ==>
      incomes1[k].startDate == incomes2[k].startDate && incomes1[k].name == incomes2[k].name
      && incomes1[k].amountCents == incomes2[k].amountCents
    requires forall k :: 0 <= k < |bills1| ==>
      bills1[k].startDate == bills2[k].startDate && bills1[k].name == bills2[k].name
      && bills1[k].amountCents == bills2[k].amountCents
    ensures TimelineOf(setting1, incomes1, bills1, misc) == TimelineOf(setting2, incomes2, bills2, misc)
  {
    assert IncomeEvents(incomes1) == IncomeEvents(incomes2);
    assert BillEvents(bills1) == BillEvents(bills2);
  }

  /** The worked example: opening 1000.00, salary 2000.00 on 2025-01-01,
      coffee 5.00 on 2025-01-02, rent 800.00 on 2025-01-03. */
  lemma Scenario(setting: Setting, incomes: seq<IncomeSource>, bills: seq<Ledger.Bill>, misc: seq<MiscSpending>)
    requires setting == Setting("singleton", "USD", "America/New_York", 100000, "2025-01-01")
    requires incomes == [IncomeSource("inc1", "Salary", 200000, None, OneOff, "2025-01-01", None, None, None, true)]
    requires bills == [Ledger.Bill("bill1", "Rent", 80000, None, OneOff, "2025-01-03", None, None, None, None, true)]
    requires misc == [MiscSpending("misc1", "2025-01-02", 500, "Coffee", None)]
    ensures TimelineOf(setting, incomes, bills, misc) == [
      TimelineEntry("2025-01-01", Income, "Salary", 200000, 300000),
      TimelineEntry("2025-01-02", Misc, "Coffee", -500, 299500),
      TimelineEntry("2025-01-03", EventOrder.Bill, "Rent", -80000, 219500)]
  {
    var salary := Event("2025-01-01", Income, "Salary", 200000);
    var rent := Event("2025-01-03", EventOrder.Bill, "Rent", -80000);
    var coffee := Event("2025-01-02", Misc, "Coffee", -500);
    ScenarioEvents(incomes, bills, misc, salary, rent, coffee);
    ScenarioCompare(salary, rent, coffee);
    ScenarioSort(salary, rent, coffee);
    ScenarioProject(salary, coffee, rent);
  }

  lemma ScenarioEvents(incomes: seq<IncomeSource>, bills: seq<Ledger.Bill>, misc: seq<MiscSpending>, salary: Event, rent: Event, coffee: Event)
    requires incomes == [IncomeSource("inc1", "Salary", 200000, None, OneOff, "2025-01-01", None, None, None, true)]
    requires bills == [Ledger.Bill("bill1", "Rent", 80000, None, OneOff, "2025-01-03", None, None, None, None, true)]
    requires misc == [MiscSpending("misc1", "2025-01-02", 500, "Coffee", None)]
    requires salary == Event("2025-01-01", Income, "Salary", 200000)
    requires rent == Event("2025-01-03", EventOrder.Bill, "Rent", -80000)
    requires coffee == Event("2025-01-02", Misc, "Coffee", -500)
    ensures Events(incomes, bills, misc) == [salary, rent, coffee]
  {
    assert IncomeEvents(incomes) == [salary];
    assert BillEvents(bills) == [rent];
    assert MiscEvents(misc) == [coffee];
  }

  lemma ScenarioCompare(salary: Event, rent: Event, coffee: Event)
    requires salary == Event("2025-01-01", Income, "Salary", 200000)
    requires rent == Event("2025-01-03", EventOrder.Bill, "Rent", -80000)
    requires coffee == Event("2025-01-02", Misc, "Coffee", -500)
    ensures Compare(salary, rent) < 0 && Compare(rent, coffee) > 0 && Compare(salary, coffee) < 0
  {
    ScenarioDates();
  }

  /** Folding 1000.00 through +2000.00, -5.00 and -800.00. */
  lemma ScenarioProject(a: Event, b: Event, c: Event)
    requires a.amountCents == 200000 && b.amountCents == -500 && c.amountCents == -80000
    ensures Project(100000, [a, b, c]) == [
      TimelineEntry(a.date, a.kind, a.labelText, 200000, 300000),
      TimelineEntry(b.date, b.kind, b.labelText, -500, 299500),
      TimelineEntry(c.date, c.kind, c.labelText, -80000, 219500)]
  {
    assert [a, b, c][1..] == [b, c] && [b, c][1..] == [c];
    assert Project(299500, [c]) == [TimelineEntry(c.date, c.kind, c.labelText, -80000, 219500)];
    assert Project(300000, [b, c])
        == [TimelineEntry(b.date, b.kind, b.labelText, -500, 299500)] + Project(299500, [c]);
  }

  /** Sorting three events of which the third falls between the other two. */
  lemma ScenarioSort(salary: Event, rent: Event, coffee: Event)
    requires Compare(salary, rent) < 0 && Compare(rent, coffee) > 0 && Compare(salary, coffee) < 0
    ensures Sort([salary, rent, coffee]) == [salary, coffee, rent]
  {
    assert [salary, rent][..1] == [salary];
    assert Sort([salary, rent]) == [salary, rent];
    assert [salary, rent, coffee][..2] == [salary, rent];
    assert Insert(coffee, [salary, rent]) == Insert(coffee, [salary]) + [rent];
    assert Insert(coffee, [salary]) == [salary, coffee];
  }

  lemma ScenarioDates()
    ensures LexCompare("2025-01-01", "2025-01-03") < 0
    ensures LexCompare("2025-01-03", "2025-01-02") > 0
    ensures LexCompare("2025-01-01", "2025-01-02") < 0
  {
    var p := "2025-01-0";
    assert "2025-01-01" == p + "1" && "2025-01-02" == p + "2" && "2025-01-03" == p + "3";
    LexCompareCommonPrefix(p, "1", "3");
    LexCompareCommonPrefix(p, "3", "2");
    LexCompareCommonPrefix(p, "1", "2");
  }
}
