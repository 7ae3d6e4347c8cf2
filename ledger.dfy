/** The persisted record shapes of the finance database (frontend/src/db.ts).
    Amounts are integer cents; dates are ISO `YYYY-MM-DD` strings. */
module Ledger {

  datatype Option<+T> = None | Some(value: T)

  /** The schedule tags a recurring definition may carry. */
  datatype Schedule = OneOff | Weekly | Biweekly | Monthly | TwiceMonthly | Custom

  /** The single configuration record, stored under the key "singleton". */
  datatype Setting = Setting(
    id: string,
    currency: string,
    timezone: string,
    openingBalanceCents: int,
    openingBalanceDate: string)

  datatype IncomeSource = IncomeSource(
    id: string,
    name: string,
    amountCents: int,
    rrule: Option<string>,
    schedule: Schedule,
    startDate: string,
    endDate: Option<string>,
    tags: Option<seq<string>>,
    exceptions: Option<seq<string>>,
    active: bool)

  datatype Bill = Bill(
    id: string,
    name: string,
    amountCents: int,
    rrule: Option<string>,
    schedule: Schedule,
    startDate: string,
    endDate: Option<string>,
    autopay: Option<bool>,
    tags: Option<seq<string>>,
    exceptions: Option<seq<string>>,
    active: bool)

  datatype MiscSpending = MiscSpending(
    id: string,
    date: string,
    amountCents: int,
    description: string,
    tags: Option<seq<string>>)
}
