/**
 * The persistent state the routes read and write: users, quizzes and the
 * transaction ledger. The User model is not part of this model; a user is
 * reduced to the fields the routes touch. Quizzes are kept in creation
 * order and the ledger in append order, so "newest first" is a reversal.
 */
module Store {
  import opened Wrappers
  import opened Refs
  import opened Seqs
  import opened TransactionModel
  import opened QuizModel

  datatype User = User(name: string, avatar: string, balance: int, gamesPlayed: int)

  datatype World = World(users: map<UserId, User>, quizzes: seq<Quiz>, ledger: seq<Transaction>)

  /** The error responses the routes send. */
  datatype Failure =
    | QuizNotFound
    | QuizEnded
    | QuizFull
    | InsufficientBalance
    | AlreadyJoined
    | NotJoined
    | AlreadyCompleted
    | InvalidAmount
    | ServerError

  function Message(f: Failure): string {
    match f
    case QuizNotFound => "Quiz not found"
    case QuizEnded => "Quiz has ended"
    case QuizFull => "Quiz is full"
    case InsufficientBalance => "Insufficient balance"
    case AlreadyJoined => "Already joined this quiz"
    case NotJoined => "You have not joined this quiz"
    case AlreadyCompleted => "Quiz already completed"
    case InvalidAmount => "Invalid amount"
    case ServerError => "Server error"
  }

  /** Each refusal reads differently, so the message the client shows names the cause. */
  lemma MessagesDistinct(f: Failure, g: Failure)
    ensures Message(f) == Message(g) ==> f == g
  {
  }

  /** HTTP status: 404 for a missing quiz, 500 for a thrown error, 400 for a refused request. */
  function Status(f: Failure): (code: int)
    ensures code == 404 <==> f == QuizNotFound
    ensures code == 500 <==> f == ServerError
    ensures code in {400, 404, 500}
  {
    match f
    case QuizNotFound => 404
    case ServerError => 500
    case _ => 400
  }

  datatype Response<T> = Ok(body: T) | Fail(failure: Failure)

  // ---------------------------------------------------------------------
  // Lookup by id

  /** `findById`: the position of the quiz with this id. */
  function FindQuiz(qs: seq<Quiz>, id: QuizId): (r: Option<nat>)
    ensures r.Some? ==> r.value < |qs| && qs[r.value].id == id
    ensures r.None? <==> forall i :: 0 <= i < |qs| ==> qs[i].id != id
  {
    if qs == [] then None
    else if qs[0].id == id then Some(0)
    else
      var r := FindQuiz(qs[1..], id);
      assert forall i :: 1 <= i < |qs| ==> qs[i] == qs[1..][i - 1];
      if r.None? then None else Some(r.value + 1)
  }

  predicate DistinctIds(qs: seq<Quiz>) {
    forall i, j :: 0 <= i < j < |qs| ==> qs[i].id != qs[j].id
  }

  /** With distinct ids the position found is the only one carrying the id. */
  lemma FindQuizUnique(qs: seq<Quiz>, id: QuizId, k: nat)
    requires DistinctIds(qs) && k < |qs| && qs[k].id == id
    ensures FindQuiz(qs, id) == Some(k)
  {
  }

  // ---------------------------------------------------------------------
  // The ledger

  predicate OfUser(u: UserId, t: Transaction) { t.user == u }

  /** `Transaction.find({user: u})` in append order. */
  function History(ledger: seq<Transaction>, u: UserId): (h: seq<Transaction>)
    ensures forall i :: 0 <= i < |h| ==> h[i].user == u
  {
    Filter(ledger, t => OfUser(u, t))
  }

  /** Appending a record extends exactly its owner's history. */
  lemma HistoryAppend(ledger: seq<Transaction>, t: Transaction, u: UserId)
    ensures History(ledger + [t], u) == History(ledger, u) + (if t.user == u then [t] else [])
  {
    FilterAppend(ledger, [t], t => OfUser(u, t));
  }

  /** Each record's snapshot is the previous snapshot plus its amount. */
  predicate Chained(h: seq<Transaction>) {
    forall i :: 0 < i < |h| ==> h[i].balanceAfter == h[i - 1].balanceAfter + h[i].amount
  }

  function SumAmounts(h: seq<Transaction>): int {
    if h == [] then 0 else SumAmounts(h[..|h| - 1]) + h[|h| - 1].amount
  }

  /**
   * The chronological sum of amounts reconciles: the last snapshot is the
   * balance before the first record plus everything recorded since.
   */
  lemma {:induction false} Reconcile(h: seq<Transaction>)
    requires Chained(h) && |h| > 0
    ensures h[|h| - 1].balanceAfter == (h[0].balanceAfter - h[0].amount) + SumAmounts(h)
    decreases |h|
  {
    if |h| > 1 {
      var p := h[..|h| - 1];
      assert Chained(p);
      Reconcile(p);
    } else {
      assert h[..0] == [];
    }
  }

  /**
   * The wallet invariant: balances are never negative, every user's ledger
   * history is chained and its last snapshot is the current balance.
   */
  predicate LedgerAgrees(users: map<UserId, User>, ledger: seq<Transaction>) {
    forall u :: u in users ==> UserAgrees(users[u], History(ledger, u))
  }

  predicate UserAgrees(user: User, h: seq<Transaction>) {
    && user.balance >= 0
    && Chained(h)
    && (h != [] ==> h[|h| - 1].balanceAfter == user.balance)
  }

  /**
   * Recording a balance change keeps the ledger in agreement: the new record
   * belongs to the changed user, its amount is the change and its snapshot
   * the new balance.
   */
  lemma RecordPreservesAgreement(users: map<UserId, User>, ledger: seq<Transaction>, uid: UserId, user: User, t: Transaction)
    requires LedgerAgrees(users, ledger) && uid in users
    requires t.user == uid && user.balance >= 0
    requires t.balanceAfter == user.balance == users[uid].balance + t.amount
    ensures LedgerAgrees(users[uid := user], ledger + [t])
  {
    forall u | u in users[uid := user]
      ensures UserAgrees(users[uid := user][u], History(ledger + [t], u))
    {
      HistoryAppend(ledger, t, u);
      var h := History(ledger, u);
      if u == uid {
        assert History(ledger + [t], u) == h + [t];
        assert UserAgrees(users[u], h);
      } else {
        assert History(ledger + [t], u) == h;
      }
    }
  }

  /** A change that leaves every balance alone keeps the ledger in agreement. */
  lemma SameBalancesAgree(users: map<UserId, User>, users': map<UserId, User>, ledger: seq<Transaction>)
    requires LedgerAgrees(users, ledger)
    requires users'.Keys == users.Keys
    requires forall u :: u in users ==> users'[u].balance == users[u].balance
    ensures LedgerAgrees(users', ledger)
  {
    forall u | u in users' ensures UserAgrees(users'[u], History(ledger, u)) {
      assert UserAgrees(users[u], History(ledger, u));
    }
  }

  predicate AllWellFormed(qs: seq<Quiz>) {
    forall i :: 0 <= i < |qs| ==> WellFormed(qs[i])
  }

  /** The capacity invariant: each quiz is within capacity with one attempt per user. */
  predicate CapacityRespected(qs: seq<Quiz>) {
    forall i :: 0 <= i < |qs| ==> Admissible(qs[i])
  }

  predicate Consistent(w: World) {
    && DistinctIds(w.quizzes)
    && AllWellFormed(w.quizzes)
    && CapacityRespected(w.quizzes)
    && LedgerAgrees(w.users, w.ledger)
  }

  /** Replacing one quiz by a sound version of itself keeps the collection sound. */
  lemma ReplaceQuiz(qs: seq<Quiz>, i: nat, q: Quiz)
    requires i < |qs| && q.id == qs[i].id
    ensures DistinctIds(qs) ==> DistinctIds(qs[i := q])
    ensures AllWellFormed(qs) && WellFormed(q) ==> AllWellFormed(qs[i := q])
    ensures CapacityRespected(qs) && Admissible(q) ==> CapacityRespected(qs[i := q])
    ensures forall j :: 0 <= j < |qs| ==> qs[i := q][j].id == qs[j].id
  {
  }

  /** `findById` only looks at ids, so changing anything else finds the same position. */
  lemma {:induction false} FindQuizSameIds(qs: seq<Quiz>, qs': seq<Quiz>, id: QuizId)
    requires |qs'| == |qs| && forall j :: 0 <= j < |qs| ==> qs'[j].id == qs[j].id
    ensures FindQuiz(qs', id) == FindQuiz(qs, id)
    decreases |qs|
  {
    if qs != [] {
      FindQuizSameIds(qs[1..], qs'[1..], id);
    }
  }

  /** A balance that agrees with its ledger is its opening balance plus the recorded amounts. */
  lemma BalanceReconciles(w: World, u: UserId)
    requires LedgerAgrees(w.users, w.ledger) && u in w.users && History(w.ledger, u) != []
    ensures var h := History(w.ledger, u);
            w.users[u].balance == (h[0].balanceAfter - h[0].amount) + SumAmounts(h)
  {
    assert UserAgrees(w.users[u], History(w.ledger, u));
    Reconcile(History(w.ledger, u));
  }

  /** The database: the three collections, updated in place by the route handlers. */
  class Db {
    var users: map<UserId, User>
    var quizzes: seq<Quiz>
    var ledger: seq<Transaction>

    function State(): World
      reads this
    {
      World(users, quizzes, ledger)
    }

    constructor (w: World)
      ensures State() == w
    {
      users, quizzes, ledger := w.users, w.quizzes, w.ledger;
    }
  }
}
