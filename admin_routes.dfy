/**
 * The admin routes: dashboard statistics, quiz create/update/delete and
 * the newest-first listings.
 */
module AdminRoutes {
  import opened Wrappers
  import opened Refs
  import opened Seqs
  import opened TransactionModel
  import opened QuizModel
  import opened Store
  import opened QuizRoutes
  import opened UserRoutes

  function Abs(x: int): (r: nat)
    ensures r == x || r == -x
  {
    if x < 0 then -x else x
  }

  // ---------------------------------------------------------------------
  // GET /api/admin/stats

  /** The quiz_entry part of one record's amount, counted by absolute value. */
  function EntryRevenue(t: Transaction): nat {
    if t.txType == QuizEntry then Abs(t.amount) else 0
  }

  /** The sum of the absolute amounts of the quiz_entry records, and 0 when there are none. */
  function Revenue(ledger: seq<Transaction>): (r: int)
    ensures r >= 0
    ensures (forall i :: 0 <= i < |ledger| ==> ledger[i].txType != QuizEntry) ==> r == 0
  {
    if ledger == [] then 0 else EntryRevenue(ledger[0]) + Revenue(ledger[1..])
  }

  /** Revenue is additive over the ledger's append order. */
  lemma {:induction false} RevenueAppend(ledger: seq<Transaction>, t: Transaction)
    ensures Revenue(ledger + [t]) == Revenue(ledger) + EntryRevenue(t)
    decreases |ledger|
  {
    if ledger == [] {
      assert ledger + [t] == [t];
    } else {
      assert (ledger + [t])[1..] == ledger[1..] + [t];
      RevenueAppend(ledger[1..], t);
    }
  }

  function ActiveCount(qs: seq<Quiz>, now: int): (n: nat)
    ensures n <= |qs|
  {
    |Filter(qs, q => Live(q, now))|
  }

  datatype Stats = Stats(totalUsers: nat, totalQuizzes: nat, activeQuizzes: nat, totalRevenue: int)

  function GetStats(w: World, now: int): (r: Stats)
    ensures r.totalUsers == |w.users| && r.totalQuizzes == |w.quizzes|
    ensures r.activeQuizzes <= r.totalQuizzes
    ensures r.totalRevenue >= 0
  {
    Stats(|w.users|, |w.quizzes|, ActiveCount(w.quizzes, now), Revenue(w.ledger))
  }

  /** The dashboard's active count is the length of the public listing without a category. */
  lemma ActiveCountIsListing(qs: seq<Quiz>, now: int)
    ensures ActiveCount(qs, now) == |Select(qs, QuizFilter(true, now, None))|
  {
    var f := QuizFilter(true, now, None);
    FilterCongruent(qs, q => Live(q, now), q => Matches(q, f));
  }

  /** A successful join adds its entry fee to the revenue. */
  lemma JoinAddsFeeToRevenue(w: World, qid: QuizId, uid: UserId, now: int)
    requires AllWellFormed(w.quizzes)
    requires JoinSpec(w, qid, uid, now).1.Ok?
    ensures Revenue(JoinSpec(w, qid, uid, now).0.ledger)
            == Revenue(w.ledger) + w.quizzes[FindQuiz(w.quizzes, qid).value].entryFee
  {
    var w' := JoinSpec(w, qid, uid, now).0;
    var t := w'.ledger[|w.ledger|];
    assert w'.ledger == w.ledger + [t];
    RevenueAppend(w.ledger, t);
  }

  /** Deposits never count as revenue. */
  lemma DepositKeepsRevenue(w: World, uid: UserId, amount: int, now: int)
    ensures Revenue(DepositSpec(w, uid, amount, now).0.ledger) == Revenue(w.ledger)
  {
    var (w', r) := DepositSpec(w, uid, amount, now);
    if r.Ok? {
      var t := w'.ledger[|w.ledger|];
      assert w'.ledger == w.ledger + [t];
      RevenueAppend(w.ledger, t);
    }
  }

  // ---------------------------------------------------------------------
  // POST /api/admin/quizzes

  /**
   * The body becomes a quiz whose creator is the acting admin, then it is
   * saved; a
   * validation failure surfaces as a 500. The id is the fresh ObjectId the
   * database would assign.
   */
  function CreateSpec(w: World, body: QuizInput, id: QuizId, admin: UserId): (r: (World, Response<Quiz>))
    ensures r.1.Fail? ==> r.0 == w && r.1.failure == ServerError
    ensures r.1.Ok? ==> r.1.body.createdBy == admin && r.0.quizzes == w.quizzes + [r.1.body]
    ensures r.0.users == w.users && r.0.ledger == w.ledger
  {
    var q := Instantiate(body.(createdBy := Some(admin)), id);
    if q.None? then (w, Fail(ServerError))
    else (w.(quizzes := w.quizzes + [q.value]), Ok(q.value))
  }

  method CreateQuiz(db: Db, body: QuizInput, id: QuizId, admin: UserId) returns (r: Response<Quiz>)
    modifies db
    ensures (db.State(), r) == CreateSpec(old(db.State()), body, id, admin)
  {
    var quizData := body.(createdBy := Some(admin));
    var quiz := Instantiate(quizData, id);
    if quiz.None? {
      return Fail(ServerError);
    }
    db.quizzes := db.quizzes + [quiz.value];
    r := Ok(quiz.value);
  }

  /** Whatever creator the body carries, the acting admin is recorded. */
  lemma CreateOverridesCreator(w: World, body: QuizInput, other: UserId, id: QuizId, admin: UserId)
    ensures CreateSpec(w, body.(createdBy := Some(other)), id, admin) == CreateSpec(w, body, id, admin)
  {
  }

  /**
   * Creating a quiz under a fresh id keeps the state consistent when the body
   * leaves the participant counter to its default, as the admin form does.
   */
  lemma CreatePreservesConsistent(w: World, body: QuizInput, id: QuizId, admin: UserId)
    requires Consistent(w) && FindQuiz(w.quizzes, id).None?
    requires body.currentParticipants.None?
    ensures Consistent(CreateSpec(w, body, id, admin).0)
  {
    var (w', r) := CreateSpec(w, body, id, admin);
    if r.Ok? {
      var q := r.body;
      assert Admissible(q);
      assert w'.quizzes == w.quizzes + [q];
    }
  }

  /**
   * The schema puts no bound on the participant counter, so a body that
   * presets it above the seat limit is stored as given: creation, like
   * update, can break the capacity rule that the join route keeps.
   */
  lemma CreateCanExceedCapacity(w: World, q: Quiz, id: QuizId, admin: UserId)
    requires WellFormed(q) && q.participants == [] && q.winners == []
    ensures var body := InputOf(q).(currentParticipants := Some(q.maxParticipants + 1));
            var (w', r) := CreateSpec(w, body, id, admin);
            && r.Ok? && !Admissible(r.body)
            && !CapacityRespected(w'.quizzes)
  {
    var created := q.(id := id, currentParticipants := q.maxParticipants + 1, createdBy := admin);
    InstantiateInputOf(created);
    var body := InputOf(q).(currentParticipants := Some(q.maxParticipants + 1));
    assert body.(createdBy := Some(admin)) == InputOf(created);
    var w' := CreateSpec(w, body, id, admin).0;
    assert w'.quizzes[|w.quizzes|] == created;
  }

  // ---------------------------------------------------------------------
  // PUT /api/admin/quizzes/:id

  /** Update by id with the schema validators on, answering with the updated quiz. */
  function UpdateSpec(w: World, id: QuizId, patch: QuizInput): (r: (World, Response<Quiz>))
    ensures r.1.Fail? ==> r.0 == w
    ensures r.0.users == w.users && r.0.ledger == w.ledger && |r.0.quizzes| == |w.quizzes|
    ensures r.1.Ok? ==> ValidPatch(patch) && FindQuiz(w.quizzes, id).Some?
    ensures r.1.Ok? ==> var i := FindQuiz(w.quizzes, id).value;
                        r.1.body == Patch(w.quizzes[i], patch) && r.0.quizzes == w.quizzes[i := r.1.body]
  {
    if !ValidPatch(patch) then (w, Fail(ServerError))
    else
      var found := FindQuiz(w.quizzes, id);
      if found.None? then (w, Fail(QuizNotFound))
      else
        var q := Patch(w.quizzes[found.value], patch);
        (w.(quizzes := w.quizzes[found.value := q]), Ok(q))
  }

  method UpdateQuiz(db: Db, id: QuizId, patch: QuizInput) returns (r: Response<Quiz>)
    modifies db
    ensures (db.State(), r) == UpdateSpec(old(db.State()), id, patch)
  {
    if !ValidPatch(patch) {
      // the update validators throw before the query runs
      return Fail(ServerError);
    }
    var found := FindQuiz(db.quizzes, id);
    if found.None? {
      return Fail(QuizNotFound);
    }
    var quiz := Patch(db.quizzes[found.value], patch);
    db.quizzes := db.quizzes[found.value := quiz];
    r := Ok(quiz);
  }

  /** After an accepted update, reading the quiz back gives the quiz the update answered with. */
  lemma UpdateThenGet(w: World, id: QuizId, patch: QuizInput)
    requires UpdateSpec(w, id, patch).1.Ok?
    ensures GetQuiz(UpdateSpec(w, id, patch).0, id) == UpdateSpec(w, id, patch).1
  {
    var (w', r) := UpdateSpec(w, id, patch);
    FindQuizSameIds(w.quizzes, w'.quizzes, id);
  }

  /** An update of a missing id answers 404 and changes no quiz. */
  lemma UpdateMissing(w: World, id: QuizId, patch: QuizInput)
    requires ValidPatch(patch)
    requires forall i :: 0 <= i < |w.quizzes| ==> w.quizzes[i].id != id
    ensures UpdateSpec(w, id, patch) == (w, Fail(QuizNotFound))
    ensures Status(QuizNotFound) == 404
  {
  }

  /** Updates keep ids, schema bounds and the wallet, and change only the addressed quiz. */
  lemma UpdateKeepsSchemaAndLedger(w: World, id: QuizId, patch: QuizInput)
    requires Consistent(w)
    ensures var w' := UpdateSpec(w, id, patch).0;
            && DistinctIds(w'.quizzes) && AllWellFormed(w'.quizzes) && LedgerAgrees(w'.users, w'.ledger)
            && forall j :: 0 <= j < |w.quizzes| && w.quizzes[j].id != id ==> w'.quizzes[j] == w.quizzes[j]
  {
    var (w', r) := UpdateSpec(w, id, patch);
    if r.Ok? {
      var i := FindQuiz(w.quizzes, id).value;
      ReplaceQuiz(w.quizzes, i, w'.quizzes[i]);
    }
  }

  /**
   * Capacity is guarded by the join route only: an update that lowers
   * maxParticipants below the counter is accepted.
   */
  lemma UpdateCanExceedCapacity(q: Quiz, users: map<UserId, User>)
    requires WellFormed(q) && q.participants == [] && q.currentParticipants == 2 && q.maxParticipants == 5
    ensures var w := World(users, [q], []);
            var patch := QuizInput(None, None, None, None, None, Some(1), None, None, None, None, None, None, None, None);
            var (w', r) := UpdateSpec(w, q.id, patch);
            && CapacityRespected(w.quizzes) && r.Ok? && !CapacityRespected(w'.quizzes)
  {
    var w := World(users, [q], []);
    var patch := QuizInput(None, None, None, None, None, Some(1), None, None, None, None, None, None, None, None);
    assert Admissible(q);
    var w' := UpdateSpec(w, q.id, patch).0;
    assert !Admissible(w'.quizzes[0]);
  }

  // ---------------------------------------------------------------------
  // DELETE /api/admin/quizzes/:id

  function DeleteSpec(w: World, id: QuizId): (r: (World, Response<()>))
    ensures r.1.Fail? ==> r.0 == w && r.1.failure == QuizNotFound
    ensures r.0.users == w.users && r.0.ledger == w.ledger
  {
    var found := FindQuiz(w.quizzes, id);
    if found.None? then (w, Fail(QuizNotFound))
    else
      var i := found.value;
      (w.(quizzes := w.quizzes[..i] + w.quizzes[i + 1..]), Ok(()))
  }

  method DeleteQuiz(db: Db, id: QuizId) returns (r: Response<()>)
    modifies db
    ensures (db.State(), r) == DeleteSpec(old(db.State()), id)
  {
    var found := FindQuiz(db.quizzes, id);
    if found.None? {
      return Fail(QuizNotFound);
    }
    var i := found.value;
    db.quizzes := db.quizzes[..i] + db.quizzes[i + 1..];
    r := Ok(());
  }

  /** Deleting removes exactly the quiz with that id and keeps the others in order. */
  lemma DeleteRemovesExactly(w: World, id: QuizId)
    requires DistinctIds(w.quizzes)
    ensures var (w', r) := DeleteSpec(w, id);
            && (r.Fail? <==> forall i :: 0 <= i < |w.quizzes| ==> w.quizzes[i].id != id)
            && w'.quizzes == Filter(w.quizzes, (q: Quiz) => q.id != id)
  {
    var (w', r) := DeleteSpec(w, id);
    var p := (q: Quiz) => q.id != id;
    if r.Fail? {
      FilterAll(w.quizzes, p);
    } else {
      var i := FindQuiz(w.quizzes, id).value;
      FilterRemoveOne(w.quizzes, i, p);
    }
  }

  lemma DeletePreservesConsistent(w: World, id: QuizId)
    requires Consistent(w)
    ensures Consistent(DeleteSpec(w, id).0)
  {
    var (w', r) := DeleteSpec(w, id);
    if r.Ok? {
      var i := FindQuiz(w.quizzes, id).value;
      var qs := w.quizzes;
      assert forall j :: 0 <= j < |w'.quizzes| ==> w'.quizzes[j] == if j < i then qs[j] else qs[j + 1];
    }
  }

  // ---------------------------------------------------------------------
  // GET /api/admin/quizzes and GET /api/admin/transactions

  /** Every quiz, newest first. */
  function AllQuizzes(w: World): (r: seq<Quiz>)
    ensures |r| == |w.quizzes|
    ensures forall i :: 0 <= i < |r| ==> r[i] == w.quizzes[|w.quizzes| - 1 - i]
  {
    Reverse(w.quizzes)
  }

  const AdminTransactionLimit: nat := 100

  /** The newest 100 ledger records, newest first. */
  function AllTransactions(w: World): (r: seq<Transaction>)
    ensures |r| <= AdminTransactionLimit
    ensures |r| == if |w.ledger| <= AdminTransactionLimit then |w.ledger| else AdminTransactionLimit
    ensures forall i :: 0 <= i < |r| ==> r[i] == w.ledger[|w.ledger| - 1 - i]
  {
    Take(Reverse(w.ledger), AdminTransactionLimit)
  }
}
