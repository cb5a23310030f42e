/** The ledger: the list of entries the application keeps (newest first), the three ways it
    changes (add, delete, status update), its copy in local storage, and the analysis request. */
module App {
  import opened Wrappers
  import opened Types
  import opened ReceiptNumbering
  import opened Dashboard
  import opened EntryForm
  import opened JsText

  /** The message shown when analysis is requested on an empty ledger. */
  const EmptyLedgerAlert: string := "Add some entries first for analysis."

  /** A new entry: the draft, the given id and receipt number, and the two derived amounts. */
  function MakeEntry(data: EntryDraft, id: string, receiptNo: string): (e: ReceiptEntry)
    ensures WellDerived(e) && DraftOf(e) == data
    ensures e.id == id && e.receiptNo == receiptNo
    ensures e.totalAmount < 0 <==> data.discount > data.quantity * data.price
  {
    var amount := data.quantity * data.price;
    ReceiptEntry(id, data.date, receiptNo, data.name, data.itemDescription, data.customerRequest,
                 data.quantity, data.price, data.discount, amount, amount - data.discount, data.status)
  }

  /** The number of entries whose id is `id`. */
  function CountWithId(entries: seq<ReceiptEntry>, id: string): (n: nat)
    ensures n <= |entries|
  {
    if entries == [] then 0
    else (if entries[0].id == id then 1 else 0) + CountWithId(entries[1..], id)
  }

  /** `entries.filter(e => e.id !== id)`. */
  function RemoveById(entries: seq<ReceiptEntry>, id: string): (r: seq<ReceiptEntry>)
    ensures |r| == |entries| - CountWithId(entries, id)
  {
    if entries == [] then []
    else if entries[0].id != id then [entries[0]] + RemoveById(entries[1..], id)
    else RemoveById(entries[1..], id)
  }

  /** `entries.map(e => e.id === id ? { ...e, status } : e)`. */
  function SetStatus(entries: seq<ReceiptEntry>, id: string, status: ReceiptStatus): (r: seq<ReceiptEntry>)
    ensures |r| == |entries|
  {
    if entries == [] then []
    else
      var e := entries[0];
      [if e.id == id then e.(status := status) else e] + SetStatus(entries[1..], id, status)
  }

  /** No entry has id `id` exactly when none is counted. */
  lemma {:induction false} CountWithIdZero(entries: seq<ReceiptEntry>, id: string)
    ensures CountWithId(entries, id) == 0 <==> FreshId(entries, id)
  {
    if entries != [] {
      assert entries == [entries[0]] + entries[1..];
      CountWithIdZero(entries[1..], id);
    }
  }

  /** The filter keeps exactly the entries whose id is not `id`. */
  lemma {:induction false} RemoveByIdKeeps(entries: seq<ReceiptEntry>, id: string, e: ReceiptEntry)
    ensures e in RemoveById(entries, id) <==> e in entries && e.id != id
  {
    if entries != [] {
      assert entries == [entries[0]] + entries[1..];
      RemoveByIdKeeps(entries[1..], id, e);
    }
  }

  /** The update changes only the status, and only of the entries whose id is `id`. */
  lemma {:induction false} SetStatusAt(entries: seq<ReceiptEntry>, id: string, status: ReceiptStatus, i: nat)
    requires i < |entries|
    ensures SetStatus(entries, id, status)[i].(status := entries[i].status) == entries[i]
    ensures SetStatus(entries, id, status)[i].status
            == if entries[i].id == id then status else entries[i].status
  {
    if i > 0 {
      SetStatusAt(entries[1..], id, status, i - 1);
    }
  }

  /** No two entries share an id. */
  ghost predicate UniqueIds(entries: seq<ReceiptEntry>)
  {
    forall i, j :: 0 <= i < j < |entries| ==> entries[i].id != entries[j].id
  }

  /** Every entry's derived amounts agree with their formulas. */
  ghost predicate AllWellDerived(entries: seq<ReceiptEntry>)
  {
    forall e :: e in entries ==> WellDerived(e)
  }

  /** The ledger invariant that adding (with a fresh id), deleting and a status update keep:
      unique ids, numeric and distinct receipt numbers, and derived amounts that agree with
      their formulas. */
  ghost predicate LedgerInvariant(entries: seq<ReceiptEntry>)
  {
    UniqueIds(entries) && WellNumbered(entries) && DistinctReceiptNos(entries) && AllWellDerived(entries)
  }

  /** No entry has id `id`. */
  ghost predicate FreshId(entries: seq<ReceiptEntry>, id: string)
  {
    forall e :: e in entries ==> e.id != id
  }

  // ---- adding ----

  /** Adding a freshly numbered entry with a fresh id keeps ids unique, keeps the ledger well
      numbered with distinct receipt numbers, and keeps every entry well derived. */
  lemma AddKeepsInvariants(entries: seq<ReceiptEntry>, data: EntryDraft, id: string)
    requires FreshId(entries, id) && LedgerInvariant(entries)
    ensures LedgerInvariant([MakeEntry(data, id, GenerateReceiptNo(entries))] + entries)
  {
    var e := MakeEntry(data, id, GenerateReceiptNo(entries));
    PrependKeepsNumbering(entries, e);
    PrependKeepsUniqueIds(e, entries);
  }

  /** Putting an entry with a new id in front keeps ids unique and every entry well derived. */
  lemma PrependKeepsUniqueIds(x: ReceiptEntry, r: seq<ReceiptEntry>)
    requires UniqueIds(r) && AllWellDerived(r) && WellDerived(x)
    requires FreshId(r, x.id)
    ensures UniqueIds([x] + r) && AllWellDerived([x] + r)
  {
    var s := [x] + r;
    forall i, j | 0 <= i < j < |s| ensures s[i].id != s[j].id {
      assert s[j] == r[j - 1];
      if i > 0 { assert s[i] == r[i - 1]; }
    }
  }

  /** A new entry raises the count of its status by one and its status's amount by its total. */
  lemma AddCountsOnce(entries: seq<ReceiptEntry>, e: ReceiptEntry)
    ensures Summarize([e] + entries).CountFor(e.status) == Summarize(entries).CountFor(e.status) + 1
    ensures Summarize([e] + entries).AmountFor(e.status)
            == Summarize(entries).AmountFor(e.status) + e.totalAmount
    ensures forall s :: s != e.status ==> Summarize([e] + entries).CountFor(s) == Summarize(entries).CountFor(s)
  {
    SummaryOfCons(e, entries);
  }

  // ---- deleting ----

  /** Deleting an id that no entry has leaves the ledger as it is. */
  lemma {:induction false} RemoveUnknownIdIsNoOp(entries: seq<ReceiptEntry>, id: string)
    requires FreshId(entries, id)
    ensures RemoveById(entries, id) == entries
  {
    if entries != [] {
      assert entries == [entries[0]] + entries[1..];
      RemoveUnknownIdIsNoOp(entries[1..], id);
    }
  }

  /** Deleting is idempotent: a second delete of the same id changes nothing. */
  lemma RemoveTwiceIsRemoveOnce(entries: seq<ReceiptEntry>, id: string)
    ensures RemoveById(RemoveById(entries, id), id) == RemoveById(entries, id)
  {
    var r := RemoveById(entries, id);
    forall e | e in r ensures e.id != id {
      RemoveByIdKeeps(entries, id, e);
    }
    RemoveUnknownIdIsNoOp(r, id);
  }

  /** Filtering a concatenation filters each part: deleting keeps the order of what stays. */
  lemma {:induction false} RemoveOfConcat(a: seq<ReceiptEntry>, b: seq<ReceiptEntry>, id: string)
    ensures RemoveById(a + b, id) == RemoveById(a, id) + RemoveById(b, id)
  {
    if a == [] {
      assert a + b == b;
    } else {
      assert (a + b)[0] == a[0] && (a + b)[1..] == a[1..] + b;
      RemoveOfConcat(a[1..], b, id);
    }
  }

  /** With unique ids, at most one entry has a given id, so a delete removes at most one entry,
      and exactly one when the id is present. */
  lemma {:induction false} UniqueIdsCountAtMostOne(entries: seq<ReceiptEntry>, id: string)
    requires UniqueIds(entries)
    ensures CountWithId(entries, id) <= 1
    ensures (exists e :: e in entries && e.id == id) ==> |RemoveById(entries, id)| == |entries| - 1
  {
    if entries != [] {
      var rest := entries[1..];
      assert UniqueIds(rest) by {
        forall i, j | 0 <= i < j < |rest| ensures rest[i].id != rest[j].id {
          assert rest[i] == entries[i + 1] && rest[j] == entries[j + 1];
        }
      }
      UniqueIdsCountAtMostOne(rest, id);
      CountWithIdZero(rest, id);
      CountWithIdZero(entries, id);
      if entries[0].id == id {
        forall e | e in rest ensures e.id != id {
          var j :| 0 <= j < |rest| && rest[j] == e;
          assert entries[j + 1] == e;
        }
      }
    }
  }

  /** Deleting keeps ids unique and receipt numbers distinct. */
  lemma {:induction false} RemoveKeepsDistinct(entries: seq<ReceiptEntry>, id: string)
    requires UniqueIds(entries) && DistinctReceiptNos(entries)
    ensures UniqueIds(RemoveById(entries, id)) && DistinctReceiptNos(RemoveById(entries, id))
  {
    if entries != [] {
      var x, rest := entries[0], entries[1..];
      assert UniqueIds(rest) && DistinctReceiptNos(rest) by {
        forall i, j | 0 <= i < j < |rest|
          ensures rest[i].id != rest[j].id && rest[i].receiptNo != rest[j].receiptNo
        {
          assert rest[i] == entries[i + 1] && rest[j] == entries[j + 1];
        }
      }
      RemoveKeepsDistinct(rest, id);
      assert entries == [x] + rest;
      if x.id != id {
        var r := RemoveById(rest, id);
        forall e | e in r ensures e.id != x.id && e.receiptNo != x.receiptNo {
          RemoveByIdKeeps(rest, id, e);
          var j :| 0 <= j < |rest| && rest[j] == e;
          assert entries[j + 1] == e;
        }
        PrependKeepsDistinct(x, r);
      }
    }
  }

  /** Putting an entry whose id and receipt number are new in front keeps both distinct. */
  lemma PrependKeepsDistinct(x: ReceiptEntry, r: seq<ReceiptEntry>)
    requires UniqueIds(r) && DistinctReceiptNos(r)
    requires forall e :: e in r ==> e.id != x.id && e.receiptNo != x.receiptNo
    ensures UniqueIds([x] + r) && DistinctReceiptNos([x] + r)
  {
    var s := [x] + r;
    forall i, j | 0 <= i < j < |s| ensures s[i].id != s[j].id && s[i].receiptNo != s[j].receiptNo {
      assert s[j] == r[j - 1];
      if i > 0 { assert s[i] == r[i - 1]; }
    }
  }

  /** Deleting never raises the next receipt number while some entry remains: every suffix left
      was already present, so the next suffix after the delete is at most the one before it.
      A delete that empties the ledger restarts the numbering at `AB_RNC - 01`, which can be
      above the old next number only when suffixes were negative. */
  lemma DeleteNeverRaisesNext(entries: seq<ReceiptEntry>, id: string)
    requires WellNumbered(entries)
    ensures WellNumbered(RemoveById(entries, id))
    ensures Suffix(GenerateReceiptNo(RemoveById(entries, id))).Some?
    ensures Suffix(GenerateReceiptNo(entries)).Some?
    ensures RemoveById(entries, id) != [] ==>
      Suffix(GenerateReceiptNo(RemoveById(entries, id))).value
      <= Suffix(GenerateReceiptNo(entries)).value
    ensures RemoveById(entries, id) == [] ==> GenerateReceiptNo(RemoveById(entries, id)) == "AB_RNC - 01"
  {
    var r := RemoveById(entries, id);
    if r == [] {
      FirstReceiptNo();
      SuffixOfFormatted(Some(1));
      if entries != [] {
        NextSuffixExceedsAll(entries);
      }
      return;
    }
    var xs, ys := Suffixes(entries), Suffixes(r);
    MathMaxIsMaximum(xs);
    var m := MathMax(xs).value;
    forall i | 0 <= i < |r| ensures ys[i].Some? && ys[i].value <= m {
      RemoveByIdKeeps(entries, id, r[i]);
      var j :| 0 <= j < |entries| && entries[j] == r[i];
      assert ys[i] == xs[j];
    }
    NextSuffixExceedsAll(entries);
    NextSuffixExceedsAll(r);
  }

  /** Deleting the entry that alone held the largest suffix `m`, for `m` of at least 1 as every
      suffix the ledger issues is, never lets the numbering pass `m`: when every surviving
      suffix is below `m`, the next suffix is at most `m`, so the deleted number is issued
      again or the numbering falls below it. */
  lemma DeletedMaxBoundsNext(entries: seq<ReceiptEntry>, id: string, m: int)
    requires WellNumbered(entries) && m >= 1
    requires forall i :: 0 <= i < |entries| && entries[i].id != id ==> Suffixes(entries)[i].value < m
    ensures Suffix(GenerateReceiptNo(RemoveById(entries, id))).Some?
    ensures Suffix(GenerateReceiptNo(RemoveById(entries, id))).value <= m
  {
    var r := RemoveById(entries, id);
    if r == [] {
      DeleteNeverRaisesNext(entries, id);
      var one := 1;
      SuffixOfSmall(GenerateReceiptNo(r), one);
    } else {
      var xs, ys := Suffixes(entries), Suffixes(r);
      forall i | 0 <= i < |r| ensures ys[i].Some? && ys[i].value < m {
        RemoveByIdKeeps(entries, id, r[i]);
        var j :| 0 <= j < |entries| && entries[j] == r[i];
        assert ys[i] == xs[j];
      }
      NextSuffixExceedsAll(r);
    }
  }

  /** Numbering keeps no counter: an entry whose number is the one the rest of the ledger would
      issue next (as every entry is when it is added) gives that number back when it is
      deleted, wherever it stands in the list. */
  lemma {:induction false} DeletedNumberIsReused(front: seq<ReceiptEntry>, x: ReceiptEntry, back: seq<ReceiptEntry>)
    requires FreshId(front + back, x.id)
    requires x.receiptNo == GenerateReceiptNo(front + back)
    ensures RemoveById(front + [x] + back, x.id) == front + back
    ensures GenerateReceiptNo(RemoveById(front + [x] + back, x.id)) == x.receiptNo
  {
    var id := x.id;
    forall e | e in front ensures e.id != id {
      assert e in front + back;
    }
    forall e | e in back ensures e.id != id {
      assert e in front + back;
    }
    RemoveUnknownIdIsNoOp(front, id);
    RemoveUnknownIdIsNoOp(back, id);
    var none: seq<ReceiptEntry> := [];
    assert [x] == [x] + none;
    assert RemoveById([x], id) == RemoveById(none, id) == none;
    RemoveOfConcat(front, [x], id);
    assert RemoveById(front + [x], id) == front;
    RemoveOfConcat(front + [x], back, id);
  }

  /** Receipt numbers are reused: with entries `AB_RNC - 02` and `AB_RNC - 01`, deleting the
      newer one makes the next receipt number `AB_RNC - 02` again. */
  lemma ReceiptNoReusedAfterDelete(a: ReceiptEntry, b: ReceiptEntry)
    requires a.receiptNo == "AB_RNC - 01" && b.receiptNo == "AB_RNC - 02" && a.id != b.id
    ensures RemoveById([b, a], b.id) == [a]
    ensures GenerateReceiptNo(RemoveById([b, a], b.id)) == b.receiptNo
  {
    var one, two := 1, 2;
    assert DigitChar(one) == '1' && DigitChar(two) == '2';
    SuffixOfSmall(a.receiptNo, one);
    SuffixOfSmall(b.receiptNo, two);
    var none: seq<ReceiptEntry> := [];
    var ra := [a] + none;
    assert RemoveById(none, b.id) == none;
    assert RemoveById(ra, b.id) == ra by { assert ra[0] == a && ra[1..] == none; }
    assert [b, a] == [b] + ra;
    assert RemoveById([b] + ra, b.id) == ra by { assert ([b] + ra)[0] == b && ([b] + ra)[1..] == ra; }
    assert ra == [a];
    assert Suffixes(ra) == [Some(1)];
    FormattedSmall(two);
  }

  // ---- status updates ----

  /** Updating the status of an id that no entry has leaves the ledger as it is. */
  lemma SetStatusUnknownIdIsNoOp(entries: seq<ReceiptEntry>, id: string, status: ReceiptStatus)
    requires FreshId(entries, id)
    ensures SetStatus(entries, id, status) == entries
  {
    var r := SetStatus(entries, id, status);
    forall i | 0 <= i < |r| ensures r[i] == entries[i] {
      assert entries[i] in entries;
      SetStatusAt(entries, id, status, i);
    }
  }

  /** Setting the same status twice is setting it once. */
  lemma SetStatusIdempotent(entries: seq<ReceiptEntry>, id: string, status: ReceiptStatus)
    ensures SetStatus(SetStatus(entries, id, status), id, status) == SetStatus(entries, id, status)
  {
    var r := SetStatus(entries, id, status);
    var r2 := SetStatus(r, id, status);
    forall i | 0 <= i < |r| ensures r2[i] == r[i] {
      SetStatusAt(entries, id, status, i);
      SetStatusAt(r, id, status, i);
    }
  }

  /** The last status set wins: any status can be reached from any other. */
  lemma SetStatusOverrides(entries: seq<ReceiptEntry>, id: string, s1: ReceiptStatus, s2: ReceiptStatus)
    ensures SetStatus(SetStatus(entries, id, s1), id, s2) == SetStatus(entries, id, s2)
  {
    var r1 := SetStatus(entries, id, s1);
    var a, b := SetStatus(r1, id, s2), SetStatus(entries, id, s2);
    forall i | 0 <= i < |a| ensures a[i] == b[i] {
      SetStatusAt(entries, id, s1, i);
      SetStatusAt(r1, id, s2, i);
      SetStatusAt(entries, id, s2, i);
    }
  }

  /** A status update touches neither ids nor receipt numbers, so the next receipt number is
      unchanged. */
  lemma SetStatusKeepsNumbering(entries: seq<ReceiptEntry>, id: string, status: ReceiptStatus)
    ensures Suffixes(SetStatus(entries, id, status)) == Suffixes(entries)
    ensures GenerateReceiptNo(SetStatus(entries, id, status)) == GenerateReceiptNo(entries)
  {
    var r := SetStatus(entries, id, status);
    var xs, ys := Suffixes(entries), Suffixes(r);
    forall i | 0 <= i < |r| ensures ys[i] == xs[i] {
      SetStatusAt(entries, id, status, i);
      assert r[i].receiptNo == entries[i].receiptNo;
    }
    assert ys == xs;
  }

  /** A status update keeps ids unique and receipt numbers distinct, and breaks neither. */
  lemma SetStatusKeepsDistinct(entries: seq<ReceiptEntry>, id: string, status: ReceiptStatus)
    ensures UniqueIds(SetStatus(entries, id, status)) <==> UniqueIds(entries)
    ensures DistinctReceiptNos(SetStatus(entries, id, status)) <==> DistinctReceiptNos(entries)
  {
    var r := SetStatus(entries, id, status);
    forall i | 0 <= i < |r| ensures r[i].id == entries[i].id && r[i].receiptNo == entries[i].receiptNo {
      SetStatusAt(entries, id, status, i);
    }
  }

  /** A status update moves amounts between statuses but keeps the number of entries counted
      and the sum of the three amounts. */
  lemma SetStatusKeepsTotals(entries: seq<ReceiptEntry>, id: string, status: ReceiptStatus)
    ensures var before, after := Summarize(entries), Summarize(SetStatus(entries, id, status));
      after.paidCount + after.pendingCount + after.cancelledCount
        == before.paidCount + before.pendingCount + before.cancelledCount
      && after.totalRevenue + after.pendingAmount + after.cancelledAmount
        == before.totalRevenue + before.pendingAmount + before.cancelledAmount
  {
    var r := SetStatus(entries, id, status);
    CountsAddUp(entries);
    CountsAddUp(r);
    AmountsAddUp(entries);
    AmountsAddUp(r);
    SetStatusKeepsTotalAmount(entries, id, status);
  }

  lemma {:induction false} SetStatusKeepsTotalAmount(entries: seq<ReceiptEntry>, id: string, status: ReceiptStatus)
    ensures TotalAmount(SetStatus(entries, id, status)) == TotalAmount(entries)
  {
    if entries != [] {
      SetStatusKeepsTotalAmount(entries[1..], id, status);
    }
  }

  // ---- the ledger invariant under delete and status update ----

  /** Deleting keeps the whole ledger invariant: ids stay unique, every remaining receipt
      number still parses and stays distinct, and every remaining entry stays well derived. */
  lemma RemoveKeepsInvariant(entries: seq<ReceiptEntry>, id: string)
    requires LedgerInvariant(entries)
    ensures LedgerInvariant(RemoveById(entries, id))
  {
    var r := RemoveById(entries, id);
    RemoveKeepsDistinct(entries, id);
    var xs, ys := Suffixes(entries), Suffixes(r);
    forall i | 0 <= i < |r| ensures ys[i].Some? {
      RemoveByIdKeeps(entries, id, r[i]);
      var j :| 0 <= j < |entries| && entries[j] == r[i];
      assert ys[i] == xs[j];
    }
    forall e | e in r ensures WellDerived(e) {
      RemoveByIdKeeps(entries, id, e);
    }
  }

  /** A status update keeps the whole ledger invariant: it touches neither ids, receipt
      numbers nor amounts. */
  lemma SetStatusKeepsInvariant(entries: seq<ReceiptEntry>, id: string, status: ReceiptStatus)
    requires LedgerInvariant(entries)
    ensures LedgerInvariant(SetStatus(entries, id, status))
  {
    var r := SetStatus(entries, id, status);
    SetStatusKeepsDistinct(entries, id, status);
    SetStatusKeepsNumbering(entries, id, status);
    forall e | e in r ensures WellDerived(e) {
      var i :| 0 <= i < |r| && r[i] == e;
      SetStatusAt(entries, id, status, i);
      assert entries[i] in entries;
      assert e.amount == entries[i].amount && e.totalAmount == entries[i].totalAmount;
      assert e.quantity == entries[i].quantity && e.price == entries[i].price && e.discount == entries[i].discount;
    }
  }

  /** The application's ledger state: the entries shown, the copy written to local storage
      after every change, and the latest analysis text. */
  class LedgerStore {
    var entries: seq<ReceiptEntry>
    var stored: seq<ReceiptEntry>
    var aiAnalysis: Option<string>

    /** Local storage holds what the entries were after the last change. */
    ghost predicate Synced()
      reads this
    {
      stored == entries
    }

    /** Starts from the saved list when storage has one, and from an empty ledger otherwise. */
    constructor(saved: Option<seq<ReceiptEntry>>)
      ensures entries == (if saved.Some? then saved.value else [])
      ensures Synced() && aiAnalysis == None
    {
      entries := if saved.Some? then saved.value else [];
      stored := entries;
      aiAnalysis := None;
    }

    /** Adds an entry built from the draft in front of the list, numbered with the next receipt
        number; `id` is the fresh random id. */
    method AddEntry(data: EntryDraft, id: string)
      modifies this
      ensures entries == [MakeEntry(data, id, GenerateReceiptNo(old(entries)))] + old(entries)
      ensures Synced() && aiAnalysis == old(aiAnalysis)
      ensures FreshId(old(entries), id) && LedgerInvariant(old(entries)) ==> LedgerInvariant(entries)
    {
      var receiptNo := GenerateReceiptNo(entries);
      var newEntry := MakeEntry(data, id, receiptNo);
      if FreshId(entries, id) && LedgerInvariant(entries) {
        AddKeepsInvariants(entries, data, id);
      }
      entries := [newEntry] + entries;
      stored := entries;
    }

    /** Deletes the entries with `id` when the user confirms; `confirmed` is the answer to the
        confirmation dialog. */
    method DeleteEntry(id: string, confirmed: bool)
      modifies this
      ensures entries == if confirmed then RemoveById(old(entries), id) else old(entries)
      ensures confirmed ==> Synced()
      ensures !confirmed ==> stored == old(stored)
      ensures aiAnalysis == old(aiAnalysis)
      ensures UniqueIds(old(entries)) && DistinctReceiptNos(old(entries))
              ==> UniqueIds(entries) && DistinctReceiptNos(entries)
      ensures LedgerInvariant(old(entries)) ==> LedgerInvariant(entries)
    {
      if confirmed {
        if UniqueIds(entries) && DistinctReceiptNos(entries) {
          RemoveKeepsDistinct(entries, id);
        }
        if LedgerInvariant(entries) {
          RemoveKeepsInvariant(entries, id);
        }
        entries := RemoveById(entries, id);
        stored := entries;
      }
    }

    /** Sets the status of the entries with `id`. */
    method UpdateStatus(id: string, status: ReceiptStatus)
      modifies this
      ensures entries == SetStatus(old(entries), id, status)
      ensures Synced() && aiAnalysis == old(aiAnalysis)
      ensures GenerateReceiptNo(entries) == GenerateReceiptNo(old(entries))
      ensures LedgerInvariant(old(entries)) ==> LedgerInvariant(entries)
    {
      SetStatusKeepsNumbering(entries, id, status);
      if LedgerInvariant(entries) {
        SetStatusKeepsInvariant(entries, id, status);
      }
      entries := SetStatus(entries, id, status);
      stored := entries;
    }

    /** Requests an analysis of the ledger from `analyze`; on an empty ledger it only returns
        the alert text and changes nothing. */
    method HandleAIAnalysis(analyze: seq<ReceiptEntry> -> string) returns (alert: Option<string>)
      modifies this
      ensures alert == (if old(entries) == [] then Some(EmptyLedgerAlert) else None)
      ensures aiAnalysis == if old(entries) == [] then old(aiAnalysis) else Some(analyze(old(entries)))
      ensures entries == old(entries) && stored == old(stored)
    {
      if |entries| == 0 {
        return Some(EmptyLedgerAlert);
      }
      aiAnalysis := Some(analyze(entries));
      alert := None;
    }

    /** A submission of the entry form: the form's submit handler runs and, when it hands over
        a draft, that draft is added to the ledger. */
    method SubmitForm(form: ReceiptForm, id: string)
      modifies this, form
      ensures CanSubmit(old(form.formData)) ==>
        entries == [MakeEntry(old(form.formData), id, GenerateReceiptNo(old(entries)))] + old(entries)
        && form.formData == ClearedAfterSubmit(old(form.formData))
      ensures !CanSubmit(old(form.formData)) ==>
        entries == old(entries) && stored == old(stored) && form.formData == old(form.formData)
      ensures CanSubmit(old(form.formData)) ==> Synced()
      ensures aiAnalysis == old(aiAnalysis)
      ensures FreshId(old(entries), id) && LedgerInvariant(old(entries)) ==> LedgerInvariant(entries)
    {
      var submitted := form.HandleSubmit();
      if submitted.Some? {
        AddEntry(submitted.value, id);
      }
    }
  }
}
