/** The order in which the timeline lists its events: by date, and on equal
    dates income before bill before misc spending. */
module EventOrder {

  datatype Kind = Income | Bill | Misc

  /** The `kindOrder` table: the rank of each kind among events of one date. */
  function KindOrder(k: Kind): (r: nat)
    ensures r <= 2
  {
    match k
    case Income => 0
    case Bill => 1
    case Misc => 2
  }

  /** One event before the balance is folded in; `amountCents` is signed. */
  datatype Event = Event(date: string, kind: Kind, labelText: string, amountCents: int)

  /** The sort key of an event: two events compare equal exactly when their keys are equal. */
  function Key(e: Event): (string, Kind)
  {
    (e.date, e.kind)
  }

  /** String comparison, read as plain lexicographic order on characters
      (the order `localeCompare` gives on fixed-width ISO dates):
      negative, zero or positive as `a` sorts before, with or after `b`. */
  function LexCompare(a: string, b: string): (r: int)
    ensures -1 <= r <= 1
    ensures r == 0 <==> a == b
    decreases |a|
  {
    if a == [] then (if b == [] then 0 else -1)
    else if b == [] then 1
    else if a[0] < b[0] then -1
    else if a[0] > b[0] then 1
    else
      assert a == [a[0]] + a[1..] && b == [b[0]] + b[1..];
      LexCompare(a[1..], b[1..])
  }

  lemma {:induction false} LexCompareAntisymmetric(a: string, b: string)
    ensures LexCompare(a, b) == -LexCompare(b, a)
    decreases |a|
  {
    if a != [] && b != [] && a[0] == b[0] {
      LexCompareAntisymmetric(a[1..], b[1..]);
    }
  }

  lemma {:induction false} LexCompareTransitive(a: string, b: string, c: string)
    requires LexCompare(a, b) < 0 && LexCompare(b, c) < 0
    ensures LexCompare(a, c) < 0
    decreases |a|
  {
    if a != [] && b != [] && c != [] && a[0] == b[0] && b[0] == c[0] {
      LexCompareTransitive(a[1..], b[1..], c[1..]);
    }
  }

  /** Prepending the same prefix to both sides does not change the comparison. */
  lemma {:induction false} LexCompareCommonPrefix(p: string, a: string, b: string)
    ensures LexCompare(p + a, p + b) == LexCompare(a, b)
    decreases |p|
  {
    if p != [] {
      assert (p + a)[0] == p[0] == (p + b)[0];
      assert (p + a)[1..] == p[1..] + a;
      assert (p + b)[1..] == p[1..] + b;
      LexCompareCommonPrefix(p[1..], a, b);
    } else {
      assert p + a == a && p + b == b;
    }
  }

  /** The comparator handed to `sort`: on equal dates the difference of the
      kind ranks, otherwise the comparison of the dates. */
  function Compare(a: Event, b: Event): (r: int)
    ensures r == 0 <==> Key(a) == Key(b)
    ensures r < 0 ==> a.date == b.date || LexCompare(a.date, b.date) < 0
    ensures r > 0 ==> a.date == b.date || LexCompare(a.date, b.date) > 0
    ensures a.date == b.date ==> (r < 0 <==> KindOrder(a.kind) < KindOrder(b.kind))
  {
    if a.date == b.date then KindOrder(a.kind) - KindOrder(b.kind)
    else LexCompare(a.date, b.date)
  }

  /** `a` may stand before `b` in the sorted output. */
  predicate Precedes(a: Event, b: Event)
  {
    Compare(a, b) <= 0
  }

  lemma CompareAntisymmetric(a: Event, b: Event)
    ensures Compare(a, b) > 0 <==> Compare(b, a) < 0
    ensures Compare(a, b) == 0 <==> Compare(b, a) == 0
  {
    LexCompareAntisymmetric(a.date, b.date);
  }

  /** The comparator is a total preorder: `Precedes` is transitive. */
  lemma PrecedesTransitive(a: Event, b: Event, c: Event)
    requires Precedes(a, b) && Precedes(b, c)
    ensures Precedes(a, c)
  {
    if a.date != b.date && b.date != c.date && a.date != c.date {
      LexCompareTransitive(a.date, b.date, c.date);
    } else if a.date == c.date && a.date != b.date {
      LexCompareAntisymmetric(a.date, b.date);
    }
  }

  /** `Precedes` read back in the source's terms: the earlier date first, and
      on one date the lower kind rank first. */
  lemma PrecedesMeaning(a: Event, b: Event)
    requires Precedes(a, b)
    ensures a.date == b.date || LexCompare(a.date, b.date) < 0
    ensures a.date == b.date ==> KindOrder(a.kind) <= KindOrder(b.kind)
  {
  }
}
