/**
 * The Transaction schema: one ledger entry per balance-affecting event.
 * Fields, enums, the status default and which fields are required follow
 * the Mongoose schema; `createdAt` stands for the automatic timestamp.
 */
module TransactionModel {
  import opened Wrappers
  import opened Refs

  datatype TxType = Deposit | Withdrawal | QuizEntry | QuizWin | ReferralBonus

  datatype TxStatus = Pending | Completed | Failed

  /** A stored ledger entry. `amount` is signed: debits are negative. */
  datatype Transaction = Transaction(
    user: UserId,
    txType: TxType,
    amount: int,
    description: string,
    quiz: Option<QuizId>,
    status: TxStatus,
    balanceAfter: int,
    createdAt: int)

  /** The stored spelling of a type. */
  function TypeName(t: TxType): string {
    match t
    case Deposit => "deposit"
    case Withdrawal => "withdrawal"
    case QuizEntry => "quiz_entry"
    case QuizWin => "quiz_win"
    case ReferralBonus => "referral_bonus"
  }

  /** The enum check: only the five spellings are accepted. */
  function ParseType(s: string): (r: Option<TxType>)
    ensures r.Some? ==> TypeName(r.value) == s
  {
    if s == "deposit" then Some(Deposit)
    else if s == "withdrawal" then Some(Withdrawal)
    else if s == "quiz_entry" then Some(QuizEntry)
    else if s == "quiz_win" then Some(QuizWin)
    else if s == "referral_bonus" then Some(ReferralBonus)
    else None
  }

  lemma ParseTypeName(t: TxType)
    ensures ParseType(TypeName(t)) == Some(t)
  {
  }

  function StatusName(s: TxStatus): string {
    match s
    case Pending => "pending"
    case Completed => "completed"
    case Failed => "failed"
  }

  function ParseStatus(s: string): (r: Option<TxStatus>)
    ensures r.Some? ==> StatusName(r.value) == s
  {
    if s == "pending" then Some(Pending)
    else if s == "completed" then Some(Completed)
    else if s == "failed" then Some(Failed)
    else None
  }

  lemma ParseStatusName(s: TxStatus)
    ensures ParseStatus(StatusName(s)) == Some(s)
  {
  }

  const DefaultStatus: TxStatus := Completed

  /**
   * The fields handed to `new Transaction({...})`, before validation; an
   * absent field is None, enum fields are still strings.
   */
  datatype TxDraft = TxDraft(
    user: Option<UserId>,
    txType: Option<string>,
    amount: Option<int>,
    description: Option<string>,
    quiz: Option<QuizId>,
    status: Option<string>,
    balanceAfter: Option<int>)

  /** Mongoose's `required` on a string rejects the empty string. */
  predicate RequiredString(s: Option<string>) { s.Some? && s.value != "" }

  /**
   * Validation on save: user, type, amount, description and balanceAfter are
   * required, type and status must be enum members, status defaults to
   * "completed"; quiz is optional and amount has no lower bound.
   */
  function Validate(d: TxDraft, now: int): (r: Option<Transaction>)
    ensures r.Some? <==>
      && d.user.Some?
      && d.txType.Some? && ParseType(d.txType.value).Some?
      && d.amount.Some?
      && RequiredString(d.description)
      && d.balanceAfter.Some?
      && (d.status.None? || ParseStatus(d.status.value).Some?)
    ensures r.Some? ==>
      && r.value.user == d.user.value
      && TypeName(r.value.txType) == d.txType.value
      && r.value.amount == d.amount.value
      && r.value.description == d.description.value
      && r.value.quiz == d.quiz
      && r.value.balanceAfter == d.balanceAfter.value
      && r.value.createdAt == now
      && (d.status.None? ==> r.value.status == DefaultStatus)
      && (d.status.Some? ==> StatusName(r.value.status) == d.status.value)
  {
    if d.user.None? || d.txType.None? || d.amount.None? || !RequiredString(d.description)
       || d.balanceAfter.None?
    then None
    else
      var t :- ParseType(d.txType.value);
      var st :- if d.status.None? then Some(DefaultStatus) else ParseStatus(d.status.value);
      Some(Transaction(d.user.value, t, d.amount.value, d.description.value, d.quiz, st,
                       d.balanceAfter.value, now))
  }

  /** The draft that spells out a stored record field by field. */
  function DraftOf(t: Transaction): TxDraft {
    TxDraft(Some(t.user), Some(TypeName(t.txType)), Some(t.amount), Some(t.description), t.quiz,
            Some(StatusName(t.status)), Some(t.balanceAfter))
  }

  /** Every stored record with a description passes validation again unchanged. */
  lemma ValidateDraftOf(t: Transaction)
    requires t.description != ""
    ensures Validate(DraftOf(t), t.createdAt) == Some(t)
  {
    ParseTypeName(t.txType);
    ParseStatusName(t.status);
  }

  /** A draft without a status is stored as completed; a misspelled type is refused. */
  lemma DefaultStatusIsCompleted(u: UserId, amount: int, desc: string, after: int, now: int)
    requires desc != ""
    ensures Validate(TxDraft(Some(u), Some("deposit"), Some(amount), Some(desc), None, None, Some(after)), now)
            == Some(Transaction(u, Deposit, amount, desc, None, Completed, after, now))
    ensures Validate(TxDraft(Some(u), Some("refund"), Some(amount), Some(desc), None, None, Some(after)), now)
            == None
  {
  }
}
