/**
 * The admin ledger view: the type filter, the type labels and the signed
 * amount column.
 */
module TransactionManager {
  import opened Wrappers
  import opened Seqs
  import opened Decimal
  import opened TransactionModel
  import opened UserRoutes
  import opened AdminRoutes

  /** The filter select's value that shows every record. */
  const ShowAll: string := "all"

  /** The filter callback. */
  predicate Shown(filter: string, t: Transaction) {
    filter == ShowAll || TypeName(t.txType) == filter
  }

  /** `filteredTransactions`: everything for "all", otherwise the records of that stored type. */
  function FilterTransactions(ts: seq<Transaction>, filter: string): (r: seq<Transaction>)
    ensures forall t :: t in r <==> t in ts && (filter == ShowAll || TypeName(t.txType) == filter)
  {
    Filter(ts, (t: Transaction) => Shown(filter, t))
  }

  lemma FilterAllIsIdentity(ts: seq<Transaction>)
    ensures FilterTransactions(ts, ShowAll) == ts
  {
    FilterAll(ts, (t: Transaction) => Shown(ShowAll, t));
  }

  /** A type filter keeps the relative order: filtering a concatenation filters each part. */
  lemma FilterKeepsOrder(ts: seq<Transaction>, us: seq<Transaction>, filter: string)
    ensures FilterTransactions(ts + us, filter) == FilterTransactions(ts, filter) + FilterTransactions(us, filter)
  {
    FilterAppend(ts, us, (t: Transaction) => Shown(filter, t));
  }

  /** A filter value that is no stored type, other than "all", shows nothing. */
  lemma UnknownFilterShowsNothing(ts: seq<Transaction>, filter: string)
    requires filter != ShowAll && ParseType(filter).None?
    ensures FilterTransactions(ts, filter) == []
  {
    var r := FilterTransactions(ts, filter);
    if r != [] {
      assert r[0] in r;
      ParseTypeName(r[0].txType);
    }
  }

  /** The quiz_entry view holds all the revenue the dashboard counts. */
  lemma EntryViewCarriesRevenue(ts: seq<Transaction>)
    ensures Revenue(FilterTransactions(ts, "quiz_entry")) == Revenue(ts)
  {
    EntryRevenueOfFiltered(ts);
  }

  lemma {:induction false} EntryRevenueOfFiltered(ts: seq<Transaction>)
    ensures Revenue(FilterTransactions(ts, "quiz_entry")) == Revenue(ts)
    decreases |ts|
  {
    if ts != [] {
      var t := ts[0];
      var rest := ts[1..];
      assert ts == [t] + rest;
      FilterKeepsOrder([t], rest, "quiz_entry");
      EntryRevenueOfFiltered(rest);
      var head := FilterTransactions([t], "quiz_entry");
      assert [t][1..] == [];
      if t.txType == QuizEntry {
        assert head == [t];
        assert (head + FilterTransactions(rest, "quiz_entry"))[1..] == FilterTransactions(rest, "quiz_entry");
      } else {
        assert head == [];
      }
    }
  }

  /** `getTransactionTypeLabel`: display names for the five types, anything else as it came. */
  function TypeLabel(stored: string): (r: string)
    ensures ParseType(stored).None? ==> r == stored
  {
    if stored == "deposit" then "Deposit"
    else if stored == "withdrawal" then "Withdrawal"
    else if stored == "quiz_entry" then "Quiz Entry"
    else if stored == "quiz_win" then "Quiz Win"
    else if stored == "referral_bonus" then "Referral Bonus"
    else stored
  }

  /** Different types never share a label, and a known type's label is never a stored spelling. */
  lemma TypeLabelsDistinct(a: TxType, b: TxType)
    ensures TypeLabel(TypeName(a)) == TypeLabel(TypeName(b)) ==> a == b
    ensures ParseType(TypeLabel(TypeName(a))).None?
  {
  }

  /** The amount column: the cell's colour carries the sign, the text a "+" for credits and the magnitude. */
  datatype AmountCell = AmountCell(credit: bool, text: string)

  function AmountDisplay(amount: int): (r: AmountCell)
    ensures r.credit <==> amount >= 0
    ensures |r.text| >= if r.credit then 3 else 2
    ensures r.credit ==> r.text[..2] == "+" + [Rupee]
    ensures !r.credit ==> r.text[..1] == [Rupee]
  {
    var magnitude := if amount >= 0 then amount else -amount;
    AmountCell(amount >= 0, (if amount >= 0 then "+" else "") + [Rupee] + NatToString(magnitude))
  }

  /** Reads a cell back into the signed amount. */
  function ReadAmount(cell: AmountCell): (r: Option<int>)
    ensures r.Some? ==> (r.value >= 0 <==> cell.credit)
  {
    var prefix := if cell.credit then "+" + [Rupee] else [Rupee];
    if |cell.text| < |prefix| || cell.text[..|prefix|] != prefix then None
    else
      var n :- ParseNat(cell.text[|prefix|..]);
      if cell.credit then Some(n)
      else if n == 0 then None
      else Some(-(n as int))
  }

  /** With its colour, the amount cell shows every amount unambiguously. */
  lemma AmountDisplayRoundTrip(amount: int)
    ensures ReadAmount(AmountDisplay(amount)) == Some(amount)
  {
    var cell := AmountDisplay(amount);
    var magnitude := if amount >= 0 then amount else -amount;
    var prefix := if cell.credit then "+" + [Rupee] else [Rupee];
    assert cell.text == prefix + NatToString(magnitude);
    assert cell.text[|prefix|..] == NatToString(magnitude);
    ParseNatToString(magnitude);
  }

  /** Without the colour a debit reads like the credit of the same size, minus the "+". */
  lemma DebitTextDropsSign(amount: int)
    requires amount > 0
    ensures AmountDisplay(amount).text == "+" + AmountDisplay(-amount).text
  {
  }
}
