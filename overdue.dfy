/**
 * The overdue page: whole days a lending is past its due date, the colour band
 * of its table row, the text of its "Overdue Info" cell, and the three summary
 * cards (total overdue, readers affected, average days overdue).
 *
 * The current time `now` is an explicit parameter, in milliseconds since the
 * epoch, as is every due date.
 */
module Overdue {
  import opened LibraryTypes
  import opened TextOps
  import opened SeqFilter

  /**
   * `getDaysOverdue`: the milliseconds elapsed since the due date, floored to
   * whole days, and zero when that is not positive.
   */
  function DaysOverdue(due: int, now: int): (days: nat)
    ensures now <= due ==> days == 0
    ensures now >= due ==> days * MsPerDay <= now - due < (days + 1) * MsPerDay
  {
    var diffDays := (now - due) / MsPerDay;
    if diffDays > 0 then diffDays else 0
  }

  /** Exactly k whole days after the due date, the lending is k days overdue. */
  lemma DaysOverdueWholeDays(due: int, k: nat)
    ensures DaysOverdue(due, due + k * MsPerDay) == k
  {
    var d := DaysOverdue(due, due + k * MsPerDay);
    assert d * MsPerDay <= k * MsPerDay < (d + 1) * MsPerDay;
    FactorBelow(MsPerDay, d - k);
    FactorBelow(MsPerDay, k - d - 1);
  }

  /** A product with a positive factor is below zero only when the other factor is. */
  lemma FactorBelow(n: int, x: int)
    requires n > 0
    ensures n * x < 0 <==> x < 0
    ensures n * x <= 0 <==> x <= 0
  {
  }

  /** A lending is shown as overdue once a full day has passed since its due date. */
  lemma OverdueIffFullDayPassed(due: int, now: int)
    ensures DaysOverdue(due, now) > 0 <==> now - due >= MsPerDay
  {
  }

  /** `getRowColorClass`: red for 1 to 5 days, yellow beyond 5, green otherwise. */
  function RowColor(daysOverdue: int): (cls: string)
    ensures cls == "bg-red-100" <==> 1 <= daysOverdue <= 5
    ensures cls == "bg-yellow-100" <==> daysOverdue > 5
    ensures cls == "bg-green-100" <==> daysOverdue <= 0
  {
    if daysOverdue > 0 && daysOverdue <= 5 then "bg-red-100"
    else if daysOverdue > 5 then "bg-yellow-100"
    else "bg-green-100"
  }

  /** A row is green exactly while less than one full day has passed since the due date. */
  lemma RowGreenIffNotOverdue(due: int, now: int)
    ensures RowColor(DaysOverdue(due, now)) == "bg-green-100" <==> now - due < MsPerDay
  {
    OverdueIffFullDayPassed(due, now);
  }

  /** The "Overdue Info" cell. */
  function OverdueInfo(daysOverdue: int): (text: string)
  {
    if daysOverdue > 0 then Decimal(daysOverdue) + " days overdue" else "Not overdue"
  }

  /**
   * The cell reads "Not overdue" exactly when the count is not positive; otherwise
   * it ends in " days overdue" and the digits before that spell the count.
   */
  lemma OverdueInfoSpec(daysOverdue: int)
    ensures OverdueInfo(daysOverdue) == "Not overdue" <==> daysOverdue <= 0
    ensures daysOverdue > 0 ==>
      var text := OverdueInfo(daysOverdue);
      |text| > 13 && text[|text| - 13..] == " days overdue" &&
      (forall i :: 0 <= i < |text| - 13 ==> '0' <= text[i] <= '9') && text[0] != '0' &&
      DecimalValue(text[..|text| - 13]) == daysOverdue
  {
    if daysOverdue > 0 {
      var digits := Decimal(daysOverdue);
      var text := digits + " days overdue";
      assert |text| > |"Not overdue"|;
      assert text[..|text| - 13] == digits;
      assert text[|text| - 13..] == " days overdue";
      DecimalRoundTrip(daysOverdue);
    }
  }

  predicate IsOverdue(l: LendingPopulated, now: int) {
    DaysOverdue(l.dueDate, now) > 0
  }

  /** The lendings the page counts as overdue: by due date alone, whatever their status. */
  function OverdueLendings(lendings: seq<LendingPopulated>, now: int): seq<LendingPopulated> {
    Filter(lendings, l => IsOverdue(l, now))
  }

  /** `totalOverdueBooks`. */
  function TotalOverdueBooks(lendings: seq<LendingPopulated>, now: int): nat {
    |OverdueLendings(lendings, now)|
  }

  /** The total counts the lendings with a positive day count, and never exceeds the list. */
  lemma {:induction false} TotalOverdueCounts(lendings: seq<LendingPopulated>, now: int)
    ensures TotalOverdueBooks(lendings, now) <= |lendings|
    ensures TotalOverdueBooks(lendings, now) == 0 <==>
      forall i :: 0 <= i < |lendings| ==> DaysOverdue(lendings[i].dueDate, now) == 0
  {
    if lendings != [] {
      TotalOverdueCounts(lendings[1..], now);
      assert forall i :: 1 <= i < |lendings| ==> lendings[i] == lendings[1..][i - 1];
    }
  }

  /**
   * The stored status plays no part: two lists with the same due dates, position
   * by position, have the same total, so returned lendings past due still count.
   */
  lemma {:induction false} TotalOverdueIgnoresStatus(a: seq<LendingPopulated>, b: seq<LendingPopulated>, now: int)
    requires |a| == |b|
    requires forall i :: 0 <= i < |a| ==> a[i].dueDate == b[i].dueDate
    ensures TotalOverdueBooks(a, now) == TotalOverdueBooks(b, now)
  {
    if a != [] {
      TotalOverdueIgnoresStatus(a[1..], b[1..], now);
    }
  }

  /** The reader ids of a list of lendings, as a set. */
  function ReaderIds(lendings: seq<LendingPopulated>): set<string> {
    if lendings == [] then {} else {lendings[0].reader.id} + ReaderIds(lendings[1..])
  }

  lemma {:induction false} ReaderIdsBounds(lendings: seq<LendingPopulated>)
    ensures |ReaderIds(lendings)| <= |lendings|
    ensures |ReaderIds(lendings)| == 0 <==> lendings == []
    ensures forall id :: id in ReaderIds(lendings) <==> exists l :: l in lendings && l.reader.id == id
  {
    if lendings != [] {
      ReaderIdsBounds(lendings[1..]);
      assert lendings[0].reader.id in ReaderIds(lendings);
      forall id ensures id in ReaderIds(lendings) <==> exists l :: l in lendings && l.reader.id == id {
        if id in ReaderIds(lendings) && id != lendings[0].reader.id {
          var l :| l in lendings[1..] && l.reader.id == id;
          assert l in lendings;
        }
        if exists l :: l in lendings && l.reader.id == id {
          var l :| l in lendings && l.reader.id == id;
          assert l == lendings[0] || l in lendings[1..];
        }
      }
    }
  }

  /** `overdueReadersSet`: the distinct reader ids among the overdue lendings. */
  function OverdueReaders(lendings: seq<LendingPopulated>, now: int): set<string> {
    ReaderIds(OverdueLendings(lendings, now))
  }

  /** `totalReadersAffected`. */
  function TotalReadersAffected(lendings: seq<LendingPopulated>, now: int): nat {
    |OverdueReaders(lendings, now)|
  }

  /**
   * A reader is affected exactly when one of their lendings is overdue; there are
   * never more affected readers than overdue lendings, and none exactly when no
   * lending is overdue.
   */
  lemma ReadersAffectedSpec(lendings: seq<LendingPopulated>, now: int, id: string)
    ensures id in OverdueReaders(lendings, now) <==>
      exists l :: l in lendings && IsOverdue(l, now) && l.reader.id == id
    ensures TotalReadersAffected(lendings, now) <= TotalOverdueBooks(lendings, now)
    ensures TotalReadersAffected(lendings, now) == 0 <==> TotalOverdueBooks(lendings, now) == 0
  {
    var overdue := OverdueLendings(lendings, now);
    ReaderIdsBounds(overdue);
    forall l ensures l in overdue <==> l in lendings && IsOverdue(l, now) {
      FilterMembership(lendings, l => IsOverdue(l, now), l);
    }
  }

  /** The day counts of the overdue lendings, in list order. */
  function OverdueDays(lendings: seq<LendingPopulated>, now: int): (days: seq<nat>)
    ensures |days| == TotalOverdueBooks(lendings, now)
    ensures forall i :: 0 <= i < |days| ==> days[i] > 0
  {
    var overdue := OverdueLendings(lendings, now);
    assert forall i :: 0 <= i < |overdue| ==> overdue[i] in overdue;
    DaysOf(overdue, now)
  }

  function DaysOf(lendings: seq<LendingPopulated>, now: int): (days: seq<nat>)
    ensures |days| == |lendings|
    ensures forall i :: 0 <= i < |days| ==> days[i] == DaysOverdue(lendings[i].dueDate, now)
  {
    if lendings == [] then [] else [DaysOverdue(lendings[0].dueDate, now)] + DaysOf(lendings[1..], now)
  }

  function Sum(s: seq<nat>): nat {
    if s == [] then 0 else s[0] + Sum(s[1..])
  }

  function SeqMin(s: seq<int>): int
    requires s != []
  {
    if |s| == 1 then s[0] else var m := SeqMin(s[1..]); if s[0] <= m then s[0] else m
  }

  function SeqMax(s: seq<int>): int
    requires s != []
  {
    if |s| == 1 then s[0] else var m := SeqMax(s[1..]); if s[0] >= m then s[0] else m
  }

  /** A sum of n terms lies between n times the least term and n times the greatest. */
  lemma SumBetweenMinAndMax(s: seq<nat>)
    requires s != []
    ensures |s| * SeqMin(s) <= Sum(s) <= |s| * SeqMax(s)
  {
    SumAboveMin(s);
    SumBelowMax(s);
  }

  /** One more copy of `x`: `(n + 1) * x` unfolded once. */
  lemma MulSucc(n: int, x: int)
    ensures (n + 1) * x == x + n * x
  {}

  lemma {:induction false} SumAboveMin(s: seq<nat>)
    requires s != []
    ensures |s| * SeqMin(s) <= Sum(s)
  {
    if |s| > 1 {
      var tail := s[1..];
      SumAboveMin(tail);
      var n, lo, m := |tail|, SeqMin(s), SeqMin(tail);
      assert lo <= s[0] && lo <= m;
      assert Sum(s) == s[0] + Sum(tail);
      FactorBelow(n, lo - m);
      assert n * lo <= n * m;
      MulSucc(n, lo);
    }
  }

  lemma {:induction false} SumBelowMax(s: seq<nat>)
    requires s != []
    ensures Sum(s) <= |s| * SeqMax(s)
  {
    if |s| > 1 {
      var tail := s[1..];
      SumBelowMax(tail);
      var n, hi, m := |tail|, SeqMax(s), SeqMax(tail);
      assert s[0] <= hi && m <= hi;
      assert Sum(s) == s[0] + Sum(tail);
      FactorBelow(n, m - hi);
      assert n * m <= n * hi;
      MulSucc(n, hi);
    }
  }

  /**
   * `Math.round(num / den)` for non-negative operands: the integer nearest to the
   * quotient, a tie going up.
   */
  function RoundHalfUp(num: nat, den: nat): (r: nat)
    requires den > 0
    ensures den * (2 * r - 1) <= 2 * num < den * (2 * r + 1)
  {
    var q := (2 * num + den) / (2 * den);
    assert 2 * den * q <= 2 * num + den < 2 * den * q + 2 * den;
    q
  }

  /** `avgDaysOverdue`: zero with nothing overdue, else the rounded mean of the day counts. */
  function AvgDaysOverdue(lendings: seq<LendingPopulated>, now: int): nat {
    var days := OverdueDays(lendings, now);
    if |days| > 0 then RoundHalfUp(Sum(days), |days|) else 0
  }

  /**
   * With nothing overdue the average is zero; otherwise it lies between the
   * smallest and the largest day count, and so is at least one.
   */
  lemma AvgDaysOverdueBounds(lendings: seq<LendingPopulated>, now: int)
    ensures TotalOverdueBooks(lendings, now) == 0 ==> AvgDaysOverdue(lendings, now) == 0
    ensures TotalOverdueBooks(lendings, now) > 0 ==>
      var days := OverdueDays(lendings, now);
      SeqMin(days) <= AvgDaysOverdue(lendings, now) <= SeqMax(days) &&
      AvgDaysOverdue(lendings, now) >= 1
  {
    var days := OverdueDays(lendings, now);
    if |days| > 0 {
      var n, avg := |days|, AvgDaysOverdue(lendings, now);
      SumBetweenMinAndMax(days);
      RoundedMeanBetween(Sum(days), n, SeqMin(days), SeqMax(days), avg);
      SeqMinIsElement(days);
    }
  }

  lemma SeqMinIsElement(s: seq<int>)
    requires s != []
    ensures SeqMin(s) in s
  {
  }

  /** A rounded mean stays between the bounds of its terms. */
  lemma RoundedMeanBetween(sum: int, n: nat, lo: int, hi: int, r: int)
    requires n > 0
    requires n * lo <= sum <= n * hi
    requires n * (2 * r - 1) <= 2 * sum < n * (2 * r + 1)
    ensures lo <= r <= hi
  {
    assert n * (2 * r - 1 - 2 * hi) == n * (2 * r - 1) - 2 * (n * hi);
    assert n * (2 * lo - 2 * r - 1) == 2 * (n * lo) - n * (2 * r + 1);
    FactorBelow(n, 2 * r - 1 - 2 * hi);
    FactorBelow(n, 2 * lo - 2 * r - 1);
  }
}
