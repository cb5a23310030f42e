/** The summary aggregator: one left fold over the entries that splits them by status and
    accumulates a total amount and a count for each status. */
module Dashboard {
  import opened Types

  /** The accumulator the fold starts from: every amount and count zero. */
  const Zero := FinancialSummary(0, 0, 0, 0, 0, 0)

  /** One step of the fold: the entry's total amount and one count go to its status. */
  function Step(acc: FinancialSummary, curr: ReceiptEntry): FinancialSummary
  {
    if curr.status == Paid then
      acc.(totalRevenue := acc.totalRevenue + curr.totalAmount, paidCount := acc.paidCount + 1)
    else if curr.status == Pending then
      acc.(pendingAmount := acc.pendingAmount + curr.totalAmount, pendingCount := acc.pendingCount + 1)
    else
      acc.(cancelledAmount := acc.cancelledAmount + curr.totalAmount, cancelledCount := acc.cancelledCount + 1)
  }

  /** `entries.reduce(Step, acc)`: the fold of `Step` over the entries, from the left. */
  function Fold(acc: FinancialSummary, entries: seq<ReceiptEntry>): FinancialSummary
    decreases |entries|
  {
    if entries == [] then acc else Fold(Step(acc, entries[0]), entries[1..])
  }

  /** The summary of a list of entries: the fold started at `Zero`. */
  function Summarize(entries: seq<ReceiptEntry>): FinancialSummary
  {
    Fold(Zero, entries)
  }

  /** Computes the summary the way the dashboard does: a single pass with six accumulators. */
  method ComputeSummary(entries: seq<ReceiptEntry>) returns (summary: FinancialSummary)
    ensures summary == Summarize(entries)
  {
    var totalRevenue, pendingAmount, cancelledAmount := 0, 0, 0;
    var paidCount, pendingCount, cancelledCount := 0, 0, 0;
    for i := 0 to |entries|
      invariant Fold(FinancialSummary(totalRevenue, pendingAmount, cancelledAmount,
                                      paidCount, pendingCount, cancelledCount), entries[i..])
                == Summarize(entries)
    {
      var curr := entries[i];
      if curr.status == Paid {
        totalRevenue := totalRevenue + curr.totalAmount;
        paidCount := paidCount + 1;
      } else if curr.status == Pending {
        pendingAmount := pendingAmount + curr.totalAmount;
        pendingCount := pendingCount + 1;
      } else if curr.status == Cancelled {
        cancelledAmount := cancelledAmount + curr.totalAmount;
        cancelledCount := cancelledCount + 1;
      }
      assert entries[i..][1..] == entries[i + 1..];
    }
    summary := FinancialSummary(totalRevenue, pendingAmount, cancelledAmount,
                                paidCount, pendingCount, cancelledCount);
  }

  // ---- reference definitions ----

  /** The sum of `totalAmount` over the entries with status `s`. */
  function AmountWithStatus(entries: seq<ReceiptEntry>, s: ReceiptStatus): int
  {
    if entries == [] then 0
    else (if entries[0].status == s then entries[0].totalAmount else 0)
         + AmountWithStatus(entries[1..], s)
  }

  /** The number of entries with status `s`. */
  function CountWithStatus(entries: seq<ReceiptEntry>, s: ReceiptStatus): nat
  {
    if entries == [] then 0
    else (if entries[0].status == s then 1 else 0) + CountWithStatus(entries[1..], s)
  }

  /** The sum of `totalAmount` over all entries. */
  function TotalAmount(entries: seq<ReceiptEntry>): int
  {
    if entries == [] then 0 else entries[0].totalAmount + TotalAmount(entries[1..])
  }

  /** Field-wise sum of two summaries. */
  function Plus(a: FinancialSummary, b: FinancialSummary): FinancialSummary
  {
    FinancialSummary(a.totalRevenue + b.totalRevenue, a.pendingAmount + b.pendingAmount,
                     a.cancelledAmount + b.cancelledAmount, a.paidCount + b.paidCount,
                     a.pendingCount + b.pendingCount, a.cancelledCount + b.cancelledCount)
  }

  // ---- properties of the summary ----

  /** An empty ledger has every amount and count zero. */
  lemma SummaryOfEmpty()
    ensures Summarize([]) == FinancialSummary(0, 0, 0, 0, 0, 0)
  {
  }

  /** Folding from a non-zero start adds the start to the summary. */
  lemma {:induction false} FoldFrom(acc: FinancialSummary, entries: seq<ReceiptEntry>)
    ensures Fold(acc, entries) == Plus(acc, Summarize(entries))
    decreases |entries|
  {
    if entries != [] {
      var e, rest := entries[0], entries[1..];
      FoldFrom(Step(acc, e), rest);
      FoldFrom(Step(Zero, e), rest);
      StepOfPlus(acc, Zero, e);
    }
  }

  /** Adding an entry to a sum of summaries is adding it to the second one. */
  lemma StepOfPlus(x: FinancialSummary, y: FinancialSummary, e: ReceiptEntry)
    ensures Step(Plus(x, y), e) == Plus(x, Step(y, e))
  {
  }

  /** The summary of a concatenation is the field-wise sum of the two summaries. */
  lemma {:induction false} SummaryOfConcat(a: seq<ReceiptEntry>, b: seq<ReceiptEntry>)
    ensures Summarize(a + b) == Plus(Summarize(a), Summarize(b))
  {
    FoldOfConcat(Zero, a, b);
    FoldFrom(Summarize(a), b);
  }

  /** Folding over a concatenation folds over the second part from where the first part ended. */
  lemma {:induction false} FoldOfConcat(acc: FinancialSummary, a: seq<ReceiptEntry>, b: seq<ReceiptEntry>)
    ensures Fold(acc, a + b) == Fold(Fold(acc, a), b)
    decreases |a|
  {
    if a == [] {
      assert a + b == b;
    } else {
      assert (a + b)[0] == a[0] && (a + b)[1..] == a[1..] + b;
      FoldOfConcat(Step(acc, a[0]), a[1..], b);
    }
  }

  /** The first entry's contribution plus the summary of the rest. */
  lemma SummaryOfCons(e: ReceiptEntry, rest: seq<ReceiptEntry>)
    ensures Summarize([e] + rest) == Plus(Step(Zero, e), Summarize(rest))
  {
    assert ([e] + rest)[0] == e && ([e] + rest)[1..] == rest;
    FoldFrom(Step(Zero, e), rest);
  }

  /** Each amount field is the sum of `totalAmount` over the entries with that status, and each
      count field is the number of entries with that status. */
  lemma {:induction false} SummaryIsPerStatus(entries: seq<ReceiptEntry>)
    ensures forall s :: Summarize(entries).AmountFor(s) == AmountWithStatus(entries, s)
    ensures forall s :: Summarize(entries).CountFor(s) == CountWithStatus(entries, s)
  {
    if entries != [] {
      var rest := entries[1..];
      assert entries == [entries[0]] + rest;
      SummaryOfCons(entries[0], rest);
      SummaryIsPerStatus(rest);
    }
  }

  /** The three counts add up to the number of entries: no entry is left out of the split. */
  lemma {:induction false} CountsAddUp(entries: seq<ReceiptEntry>)
    ensures Summarize(entries).paidCount + Summarize(entries).pendingCount
            + Summarize(entries).cancelledCount == |entries|
  {
    if entries != [] {
      var rest := entries[1..];
      assert entries == [entries[0]] + rest;
      SummaryOfCons(entries[0], rest);
      CountsAddUp(rest);
    }
  }

  /** The three amounts add up to the sum of `totalAmount` over all entries. */
  lemma {:induction false} AmountsAddUp(entries: seq<ReceiptEntry>)
    ensures Summarize(entries).totalRevenue + Summarize(entries).pendingAmount
            + Summarize(entries).cancelledAmount == TotalAmount(entries)
  {
    if entries != [] {
      var rest := entries[1..];
      assert entries == [entries[0]] + rest;
      SummaryOfCons(entries[0], rest);
      AmountsAddUp(rest);
    }
  }

  /** The summary does not depend on the order of the entries. */
  lemma {:induction false} SummaryIgnoresOrder(a: seq<ReceiptEntry>, b: seq<ReceiptEntry>)
    requires multiset(a) == multiset(b)
    ensures Summarize(a) == Summarize(b)
    decreases |a|
  {
    if a == [] {
      assert |b| == |multiset(b)| == 0;
    } else {
      var x, a' := a[0], a[1..];
      assert a == [x] + a';
      assert x in multiset(b);
      var k :| 0 <= k < |b| && b[k] == x;
      var b1, b2 := b[..k], b[k + 1..];
      assert b == b1 + [x] + b2;
      RemovedFromMultiset(a', b1, b2, x);
      SummaryIgnoresOrder(a', b1 + b2);
      SummaryOfCons(x, a');
      MovedToFront(b1, x, b2);
    }
  }

  /** Taking the same element out of two equal multisets leaves equal multisets. */
  lemma RemovedFromMultiset(a': seq<ReceiptEntry>, b1: seq<ReceiptEntry>, b2: seq<ReceiptEntry>, x: ReceiptEntry)
    requires multiset([x] + a') == multiset(b1 + [x] + b2)
    ensures multiset(a') == multiset(b1 + b2)
  {
    calc {
      multiset(a');
      multiset([x] + a') - multiset([x]);
      multiset(b1 + [x] + b2) - multiset([x]);
      { assert b1 + [x] + b2 == b1 + ([x] + b2); }
      multiset(b1) + multiset(b2);
      multiset(b1 + b2);
    }
  }

  /** Moving one entry to the front does not change the summary. */
  lemma MovedToFront(b1: seq<ReceiptEntry>, x: ReceiptEntry, b2: seq<ReceiptEntry>)
    ensures Summarize(b1 + [x] + b2) == Plus(Step(Zero, x), Summarize(b1 + b2))
  {
    var s1, s2, sx := Summarize(b1), Summarize(b2), Summarize([x]);
    SummaryOfSingle(x);
    SummaryOfConcat(b1 + [x], b2);
    SummaryOfConcat(b1, [x]);
    SummaryOfConcat(b1, b2);
    PlusMovesMiddleToFront(s1, sx, s2);
  }

  /** Field-wise addition lets the middle summand move to the front. */
  lemma PlusMovesMiddleToFront(a: FinancialSummary, b: FinancialSummary, c: FinancialSummary)
    ensures Plus(Plus(a, b), c) == Plus(b, Plus(a, c))
  {
  }

  /** The summary of a single entry is that entry's step from zero. */
  lemma SummaryOfSingle(e: ReceiptEntry)
    ensures Summarize([e]) == Step(Zero, e)
  {
    var none: seq<ReceiptEntry> := [];
    assert [e] == [e] + none;
    SummaryOfCons(e, none);
  }

  /** One entry of each status: each amount is that entry's total and each count is one. */
  lemma SummaryOfOneEach(p: ReceiptEntry, q: ReceiptEntry, c: ReceiptEntry)
    requires p.status == Paid && q.status == Pending && c.status == Cancelled
    ensures Summarize([p, q, c]) == FinancialSummary(p.totalAmount, q.totalAmount, c.totalAmount, 1, 1, 1)
  {
    SummaryOfThree(p, q, c);
  }

  /** The summary of three entries adds up their three steps. */
  lemma SummaryOfThree(p: ReceiptEntry, q: ReceiptEntry, c: ReceiptEntry)
    ensures Summarize([p, q, c]) == Plus(Step(Zero, p), Plus(Step(Zero, q), Step(Zero, c)))
  {
    SummaryOfSingle(c);
    assert [q, c] == [q] + [c];
    SummaryOfCons(q, [c]);
    assert [p, q, c] == [p] + [q, c];
    SummaryOfCons(p, [q, c]);
  }

  /** Worked example: one Paid entry of 100, one Pending of 50 and one Cancelled of 20. */
  lemma SummaryExample(p: ReceiptEntry, q: ReceiptEntry, c: ReceiptEntry)
    requires p.status == Paid && p.totalAmount == 100
    requires q.status == Pending && q.totalAmount == 50
    requires c.status == Cancelled && c.totalAmount == 20
    ensures Summarize([p, q, c]) == FinancialSummary(100, 50, 20, 1, 1, 1)
  {
    SummaryOfOneEach(p, q, c);
  }
}
