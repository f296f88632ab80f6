/**
 * The public quiz routes: listing the open quizzes, fetching one, joining
 * (the entry-fee debit) and submitting answers (the one-shot grading).
 * Each handler is a method on the database; the function beside it is the
 * specification its postcondition names, and the lemmas are about those.
 */
module QuizRoutes {
  import opened Wrappers
  import opened Refs
  import opened Seqs
  import opened TransactionModel
  import opened QuizModel
  import opened Store

  // ---------------------------------------------------------------------
  // GET /api/quiz and GET /api/quiz/:id

  /** The listing query: active, ending after now, and optionally one category. */
  datatype QuizFilter = QuizFilter(isActive: bool, endAfter: int, category: Option<string>)

  /** Builds the query; a category narrows it unless it is empty or "All". */
  method BuildFilter(category: Option<string>, now: int) returns (f: QuizFilter)
    ensures f.isActive && f.endAfter == now
    ensures f.category.Some? <==> category.Some? && category.value != "" && category.value != "All"
    ensures f.category.Some? ==> f.category == category
  {
    f := QuizFilter(true, now, None);
    if category.Some? && category.value != "" && category.value != "All" {
      f := f.(category := category);
    }
  }

  predicate Matches(q: Quiz, f: QuizFilter) {
    && q.isActive == f.isActive
    && q.endDate > f.endAfter
    && (f.category.Some? ==> CategoryName(q.category) == f.category.value)
  }

  /** Open for play at `now`: active and not past its end date. */
  predicate Live(q: Quiz, now: int) {
    q.isActive && q.endDate > now
  }

  /** The quizzes matching the query, newest first. */
  function Select(qs: seq<Quiz>, f: QuizFilter): (r: seq<Quiz>)
    ensures forall x :: x in r <==> x in qs && Matches(x, f)
    ensures var m := Filter(qs, q => Matches(q, f));
            |r| == |m| && forall i :: 0 <= i < |r| ==> r[i] == m[|m| - 1 - i]
  {
    var m := Filter(qs, q => Matches(q, f));
    var r := Reverse(m);
    assert forall x :: x in r <==> x in m by {
      forall x ensures x in r <==> x in m {
        if x in m {
          var k :| 0 <= k < |m| && m[k] == x;
          assert r[|m| - 1 - k] == x;
        }
      }
    }
    r
  }

  /** Without a category the listing is exactly the live quizzes, newest first. */
  lemma SelectWithoutCategory(qs: seq<Quiz>, now: int)
    ensures forall x :: x in Select(qs, QuizFilter(true, now, None)) <==> x in qs && Live(x, now)
  {
  }

  /** A listed quiz has not ended and has not been switched off. */
  lemma ListedQuizzesAreOpen(qs: seq<Quiz>, f: QuizFilter, now: int, q: Quiz)
    requires f.isActive && f.endAfter == now && q in Select(qs, f)
    ensures q.isActive && !HasEnded(q, now)
  {
  }

  /**
   * At the very moment of its end date a quiz has not ended, so it can still
   * be joined, but the listing already leaves it out.
   */
  lemma EndMomentJoinableButUnlisted(qs: seq<Quiz>, f: QuizFilter, q: Quiz)
    requires f.isActive && f.endAfter == q.endDate && q in qs
    ensures !HasEnded(q, q.endDate)
    ensures q !in Select(qs, f)
  {
  }

  function GetQuiz(w: World, qid: QuizId): (r: Response<Quiz>)
    ensures r.Fail? <==> forall i :: 0 <= i < |w.quizzes| ==> w.quizzes[i].id != qid
    ensures r.Fail? ==> r.failure == QuizNotFound
    ensures r.Ok? ==> r.body in w.quizzes && r.body.id == qid
  {
    var found := FindQuiz(w.quizzes, qid);
    if found.None? then Fail(QuizNotFound) else Ok(w.quizzes[found.value])
  }

  // ---------------------------------------------------------------------
  // POST /api/quiz/:id/join

  /** The ledger record of an entry fee, as handed to `new Transaction`. */
  function EntryDraft(u: UserId, q: Quiz, balanceAfter: int): TxDraft {
    TxDraft(Some(u), Some("quiz_entry"), Some(-q.entryFee), Some("Entry fee for " + q.title),
            Some(q.id), None, Some(balanceAfter))
  }

  function EntryRecord(u: UserId, q: Quiz, balanceAfter: int, now: int): (t: Transaction)
    ensures t.user == u && t.txType == QuizEntry && t.amount == -q.entryFee
    ensures t.quiz == Some(q.id) && t.status == Completed
    ensures t.balanceAfter == balanceAfter && t.createdAt == now
  {
    Validate(EntryDraft(u, q, balanceAfter), now).value
  }

  /**
   * The join handler as a transition of the whole state. The guards run in
   * the source's order; the first one that fails decides the answer.
   */
  function JoinSpec(w: World, qid: QuizId, uid: UserId, now: int): (r: (World, Response<Quiz>))
    ensures r.1.Fail? ==> r.0 == w
  {
    var found := FindQuiz(w.quizzes, qid);
    if found.None? then (w, Fail(QuizNotFound))
    else
      var i := found.value;
      var q := w.quizzes[i];
      if HasEnded(q, now) then (w, Fail(QuizEnded))
      else if IsFull(q) then (w, Fail(QuizFull))
      else if uid !in w.users then (w, Fail(ServerError))
      else if w.users[uid].balance < q.entryFee then (w, Fail(InsufficientBalance))
      else if HasParticipant(q.participants, uid) then (w, Fail(AlreadyJoined))
      else
        var u := w.users[uid].(balance := w.users[uid].balance - q.entryFee);
        var joined := q.(participants := q.participants + [NewParticipant(uid)],
                         currentParticipants := q.currentParticipants + 1);
        (World(w.users[uid := u], w.quizzes[i := joined], w.ledger + [EntryRecord(uid, q, u.balance, now)]),
         Ok(joined))
  }

  /**
   * POST /api/quiz/:id/join. The source saves the user, the quiz and the
   * transaction in three separate writes with nothing making them atomic;
   * the model performs them as one step.
   */
  method Join(db: Db, qid: QuizId, uid: UserId, now: int) returns (r: Response<Quiz>)
    modifies db
    ensures (db.State(), r) == JoinSpec(old(db.State()), qid, uid, now)
  {
    var found := FindQuiz(db.quizzes, qid);
    if found.None? {
      return Fail(QuizNotFound);
    }
    var i := found.value;
    var quiz := db.quizzes[i];
    if HasEnded(quiz, now) {
      return Fail(QuizEnded);
    }
    if IsFull(quiz) {
      return Fail(QuizFull);
    }
    if uid !in db.users {
      // reading `user.balance` of a missing user throws
      return Fail(ServerError);
    }
    var user := db.users[uid];
    if user.balance < quiz.entryFee {
      return Fail(InsufficientBalance);
    }
    if HasParticipant(quiz.participants, uid) {
      return Fail(AlreadyJoined);
    }
    user := user.(balance := user.balance - quiz.entryFee);
    db.users := db.users[uid := user];
    var joined := quiz.(participants := quiz.participants + [NewParticipant(uid)],
                        currentParticipants := quiz.currentParticipants + 1);
    db.quizzes := db.quizzes[i := joined];
    db.ledger := db.ledger + [EntryRecord(uid, quiz, user.balance, now)];
    r := Ok(joined);
  }

  /** The guards in order: each failure is reported exactly when every earlier guard passed. */
  lemma JoinGuardOrder(w: World, qid: QuizId, uid: UserId, now: int)
    ensures var r := JoinSpec(w, qid, uid, now).1;
            var found := FindQuiz(w.quizzes, qid);
            && (r == Fail(QuizNotFound) <==> found.None?)
            && (found.Some? ==>
                  var q := w.quizzes[found.value];
                  && (r == Fail(QuizEnded) <==> HasEnded(q, now))
                  && (r == Fail(QuizFull) <==> !HasEnded(q, now) && IsFull(q))
                  && (r == Fail(ServerError) <==> !HasEnded(q, now) && !IsFull(q) && uid !in w.users)
                  && (r == Fail(InsufficientBalance) <==>
                        !HasEnded(q, now) && !IsFull(q) && uid in w.users && w.users[uid].balance < q.entryFee)
                  && (r == Fail(AlreadyJoined) <==>
                        !HasEnded(q, now) && !IsFull(q) && uid in w.users && w.users[uid].balance >= q.entryFee
                        && HasParticipant(q.participants, uid))
                  && (r.Ok? <==>
                        !HasEnded(q, now) && !IsFull(q) && uid in w.users && w.users[uid].balance >= q.entryFee
                        && !HasParticipant(q.participants, uid)))
  {
  }

  /** A successful join lowers the joiner's balance by the fee and changes nothing else on any user. */
  lemma JoinDebitsFee(w: World, qid: QuizId, uid: UserId, now: int)
    requires JoinSpec(w, qid, uid, now).1.Ok?
    ensures var w' := JoinSpec(w, qid, uid, now).0;
            var q := w.quizzes[FindQuiz(w.quizzes, qid).value];
            && uid in w.users
            && w'.users == w.users[uid := w.users[uid].(balance := w.users[uid].balance - q.entryFee)]
  {
  }

  /** A successful join adds exactly one attempt, for the joiner, and one to the counter; no other quiz changes. */
  lemma JoinAdmitsOnce(w: World, qid: QuizId, uid: UserId, now: int)
    requires JoinSpec(w, qid, uid, now).1.Ok?
    ensures var w' := JoinSpec(w, qid, uid, now).0;
            var i := FindQuiz(w.quizzes, qid).value;
            var q := w.quizzes[i];
            && |w'.quizzes| == |w.quizzes|
            && (forall j :: 0 <= j < |w.quizzes| && j != i ==> w'.quizzes[j] == w.quizzes[j])
            && w'.quizzes[i].participants == q.participants + [NewParticipant(uid)]
            && w'.quizzes[i].currentParticipants == q.currentParticipants + 1
            && w'.quizzes[i] == q.(participants := w'.quizzes[i].participants,
                                   currentParticipants := w'.quizzes[i].currentParticipants)
  {
  }

  /** A successful join appends exactly one quiz_entry record holding the post-debit balance. */
  lemma JoinRecordsEntry(w: World, qid: QuizId, uid: UserId, now: int)
    requires JoinSpec(w, qid, uid, now).1.Ok?
    ensures var w' := JoinSpec(w, qid, uid, now).0;
            var q := w.quizzes[FindQuiz(w.quizzes, qid).value];
            && |w'.ledger| == |w.ledger| + 1
            && w'.ledger[..|w.ledger|] == w.ledger
            && var t := w'.ledger[|w.ledger|];
               && t.user == uid && t.txType == QuizEntry && t.amount == -q.entryFee
               && t.quiz == Some(qid) && t.status == Completed
               && t.balanceAfter == w'.users[uid].balance
  {
  }

  /** Admitting a new user into a quiz that is not full keeps it within capacity with one attempt per user. */
  lemma AdmitPreservesAdmissible(q: Quiz, uid: UserId)
    requires Admissible(q) && !IsFull(q) && !HasParticipant(q.participants, uid)
    ensures Admissible(q.(participants := q.participants + [NewParticipant(uid)],
                          currentParticipants := q.currentParticipants + 1))
  {
    var ps := q.participants + [NewParticipant(uid)];
    forall a, b | 0 <= a < b < |ps| ensures ps[a].user != ps[b].user {
      if b == |ps| - 1 {
        assert ps[a] == q.participants[a];
      } else {
        assert ps[a] == q.participants[a] && ps[b] == q.participants[b];
      }
    }
  }

  /** Joining keeps ids distinct, quizzes well-formed, capacity respected and the ledger in agreement. */
  lemma JoinPreservesConsistent(w: World, qid: QuizId, uid: UserId, now: int)
    requires Consistent(w)
    ensures Consistent(JoinSpec(w, qid, uid, now).0)
  {
    var (w', r) := JoinSpec(w, qid, uid, now);
    if r.Ok? {
      var i := FindQuiz(w.quizzes, qid).value;
      var q := w.quizzes[i];
      AdmitPreservesAdmissible(q, uid);
      ReplaceQuiz(w.quizzes, i, w'.quizzes[i]);
      RecordPreservesAgreement(w.users, w.ledger, uid, w'.users[uid], w'.ledger[|w.ledger|]);
      assert w'.ledger == w.ledger + [w'.ledger[|w.ledger|]];
    }
  }

  /** A user who has joined can never join the same quiz again. */
  lemma JoinTwiceFails(w: World, qid: QuizId, uid: UserId, now: int, later: int)
    requires JoinSpec(w, qid, uid, now).1.Ok?
    ensures JoinSpec(JoinSpec(w, qid, uid, now).0, qid, uid, later).1.Fail?
  {
    var w' := JoinSpec(w, qid, uid, now).0;
    var i := FindQuiz(w.quizzes, qid).value;
    ReplaceQuiz(w.quizzes, i, w'.quizzes[i]);
    FindQuizSameIds(w.quizzes, w'.quizzes, qid);
    var ps := w'.quizzes[i].participants;
    assert ps[|ps| - 1].user == uid;
  }

  // ---------------------------------------------------------------------
  // POST /api/quiz/:id/submit

  /** The number of answers that match the stored correct answer. */
  function CountCorrect(qs: seq<Question>, answers: seq<int>): (n: nat)
    requires |answers| <= |qs|
    ensures n <= |answers|
  {
    if answers == [] then 0
    else
      var k := |answers| - 1;
      CountCorrect(qs, answers[..k]) + (if qs[k].correctAnswer == answers[k] then 1 else 0)
  }

  /** The stored answer records: index, chosen option and correctness for every submitted answer. */
  function Grades(qs: seq<Question>, answers: seq<int>): (g: seq<AnswerRecord>)
    requires |answers| <= |qs|
    ensures |g| == |answers|
    ensures forall i :: 0 <= i < |g| ==>
              g[i] == AnswerRecord(i, answers[i], qs[i].correctAnswer == answers[i])
  {
    seq(|answers|, i requires 0 <= i < |answers| => AnswerRecord(i, answers[i], qs[i].correctAnswer == answers[i]))
  }

  /** The indices whose answer is correct. */
  function MatchSet(qs: seq<Question>, answers: seq<int>): set<nat>
    requires |answers| <= |qs|
  {
    set i: nat | i < |answers| && qs[i].correctAnswer == answers[i]
  }

  /** The score is the number of indices i with questions[i].correctAnswer == answers[i]. */
  lemma {:induction false} ScoreIsMatchCount(qs: seq<Question>, answers: seq<int>)
    requires |answers| <= |qs|
    ensures CountCorrect(qs, answers) == |MatchSet(qs, answers)|
    decreases |answers|
  {
    if answers != [] {
      var k := |answers| - 1;
      var pre := answers[..k];
      ScoreIsMatchCount(qs, pre);
      var s := MatchSet(qs, answers);
      var p := MatchSet(qs, pre);
      if qs[k].correctAnswer == answers[k] {
        assert s == p + {k};
      } else {
        assert s == p;
      }
    }
  }

  /** Full marks exactly when every answer is correct. */
  lemma {:induction false} PerfectScore(qs: seq<Question>, answers: seq<int>)
    requires |answers| <= |qs|
    ensures CountCorrect(qs, answers) == |answers| <==>
            forall i :: 0 <= i < |answers| ==> qs[i].correctAnswer == answers[i]
    decreases |answers|
  {
    if answers != [] {
      var k := |answers| - 1;
      PerfectScore(qs, answers[..k]);
      assert forall i :: 0 <= i < k ==> answers[..k][i] == answers[i];
    }
  }

  /**
   * The grading loop: `score` is counted while each answer is mapped to
   * its record.
   */
  method Grade(qs: seq<Question>, answers: seq<int>) returns (score: nat, records: seq<AnswerRecord>)
    requires |answers| <= |qs|
    ensures score == CountCorrect(qs, answers)
    ensures records == Grades(qs, answers)
  {
    score := 0;
    records := [];
    var i := 0;
    while i < |answers|
      invariant 0 <= i <= |answers|
      invariant score == CountCorrect(qs, answers[..i])
      invariant records == Grades(qs, answers[..i])
    {
      var isCorrect := qs[i].correctAnswer == answers[i];
      if isCorrect {
        score := score + 1;
      }
      records := records + [AnswerRecord(i, answers[i], isCorrect)];
      assert answers[..i + 1][..i] == answers[..i];
      i := i + 1;
    }
    assert answers[..i] == answers;
  }

  datatype Submission = Submission(score: nat, totalQuestions: nat)

  /** The submit handler as a transition of the whole state. */
  function SubmitSpec(w: World, qid: QuizId, uid: UserId, answers: seq<int>, now: int)
    : (r: (World, Response<Submission>))
    ensures r.1.Fail? ==> r.0 == w
    ensures r.0.ledger == w.ledger
  {
    var found := FindQuiz(w.quizzes, qid);
    if found.None? then (w, Fail(QuizNotFound))
    else
      var i := found.value;
      var q := w.quizzes[i];
      // the participant search dereferences the user once it inspects a participant
      if uid !in w.users then (w, Fail(if q.participants == [] then NotJoined else ServerError))
      else
        var k := ParticipantIndex(q.participants, uid);
        if k == -1 then (w, Fail(NotJoined))
        else if q.participants[k].completedAt.Some? then (w, Fail(AlreadyCompleted))
        // an answer past the last question reads a missing question and throws
        else if |answers| > |q.questions| then (w, Fail(ServerError))
        else
          var score := CountCorrect(q.questions, answers);
          var p := q.participants[k].(score := score, completedAt := Some(now),
                                      answers := Grades(q.questions, answers));
          var u := w.users[uid].(gamesPlayed := w.users[uid].gamesPlayed + 1);
          (World(w.users[uid := u], w.quizzes[i := q.(participants := q.participants[k := p])], w.ledger),
           Ok(Submission(score, |q.questions|)))
  }

  /** POST /api/quiz/:id/submit; the two saves are one step here. */
  method Submit(db: Db, qid: QuizId, uid: UserId, answers: seq<int>, now: int) returns (r: Response<Submission>)
    modifies db
    ensures (db.State(), r) == SubmitSpec(old(db.State()), qid, uid, answers, now)
  {
    var found := FindQuiz(db.quizzes, qid);
    if found.None? {
      return Fail(QuizNotFound);
    }
    var i := found.value;
    var quiz := db.quizzes[i];
    if uid !in db.users {
      return Fail(if quiz.participants == [] then NotJoined else ServerError);
    }
    var k := ParticipantIndex(quiz.participants, uid);
    if k == -1 {
      return Fail(NotJoined);
    }
    var participant := quiz.participants[k];
    if participant.completedAt.Some? {
      return Fail(AlreadyCompleted);
    }
    if |answers| > |quiz.questions| {
      return Fail(ServerError);
    }
    var score, processed := Grade(quiz.questions, answers);
    participant := participant.(score := score, completedAt := Some(now), answers := processed);
    var user := db.users[uid];
    user := user.(gamesPlayed := user.gamesPlayed + 1);
    db.users := db.users[uid := user];
    db.quizzes := db.quizzes[i := quiz.(participants := quiz.participants[k := participant])];
    r := Ok(Submission(score, |quiz.questions|));
  }

  /**
   * A successful submission completes the caller's attempt with the score and
   * the graded answers, counts one more game, and leaves balances alone.
   */
  lemma SubmitScores(w: World, qid: QuizId, uid: UserId, answers: seq<int>, now: int)
    requires SubmitSpec(w, qid, uid, answers, now).1.Ok?
    ensures var (w', r) := SubmitSpec(w, qid, uid, answers, now);
            var i := FindQuiz(w.quizzes, qid).value;
            var q := w.quizzes[i];
            var k := ParticipantIndex(q.participants, uid);
            && uid in w.users && k >= 0 && |answers| <= |q.questions|
            && r.body.score == |MatchSet(q.questions, answers)| <= |answers|
            && r.body.totalQuestions == |q.questions|
            && w'.quizzes[i].participants[k].user == uid
            && w'.quizzes[i].participants[k].score == r.body.score
            && w'.quizzes[i].participants[k].completedAt == Some(now)
            && w'.quizzes[i].participants[k].answers == Grades(q.questions, answers)
            && w'.users[uid].gamesPlayed == w.users[uid].gamesPlayed + 1
            && w'.users[uid].balance == w.users[uid].balance
            && (forall u :: u in w.users && u != uid ==> u in w'.users && w'.users[u] == w.users[u])
            && w'.ledger == w.ledger
  {
    var q := w.quizzes[FindQuiz(w.quizzes, qid).value];
    ScoreIsMatchCount(q.questions, answers);
  }

  /**
   * A registered user who holds no attempt is told so, and a finished attempt
   * is never graded again; either way nothing changes.
   */
  lemma SubmitRefusals(w: World, qid: QuizId, uid: UserId, answers: seq<int>, now: int)
    requires FindQuiz(w.quizzes, qid).Some? && uid in w.users
    ensures var q := w.quizzes[FindQuiz(w.quizzes, qid).value];
            var k := ParticipantIndex(q.participants, uid);
            && (k == -1 ==> SubmitSpec(w, qid, uid, answers, now) == (w, Fail(NotJoined)))
            && (k >= 0 && q.participants[k].completedAt.Some? ==>
                  SubmitSpec(w, qid, uid, answers, now) == (w, Fail(AlreadyCompleted)))
            && (SubmitSpec(w, qid, uid, answers, now).1.Ok? ==> k >= 0 && q.participants[k].completedAt.None?)
  {
  }

  /** A completed attempt cannot be submitted again, and the repeat changes nothing. */
  lemma SubmitOnce(w: World, qid: QuizId, uid: UserId, answers: seq<int>, again: seq<int>, now: int, later: int)
    requires SubmitSpec(w, qid, uid, answers, now).1.Ok?
    ensures var w' := SubmitSpec(w, qid, uid, answers, now).0;
            SubmitSpec(w', qid, uid, again, later) == (w', Fail(AlreadyCompleted))
  {
    var w' := SubmitSpec(w, qid, uid, answers, now).0;
    var i := FindQuiz(w.quizzes, qid).value;
    ReplaceQuiz(w.quizzes, i, w'.quizzes[i]);
    FindQuizSameIds(w.quizzes, w'.quizzes, qid);
    var ps := w.quizzes[i].participants;
    var k := ParticipantIndex(ps, uid);
    var ps' := w'.quizzes[i].participants;
    assert forall j :: 0 <= j < |ps| ==> ps'[j].user == ps[j].user;
    assert ParticipantIndex(ps', uid) == k by {
      var k' := ParticipantIndex(ps', uid);
      assert HasParticipant(ps', uid) by {
        assert ps'[k].user == uid;
      }
      assert !(k' < k) && !(k < k');
    }
  }

  /** Submitting keeps ids distinct, quizzes well-formed, capacity respected and the ledger in agreement. */
  lemma SubmitPreservesConsistent(w: World, qid: QuizId, uid: UserId, answers: seq<int>, now: int)
    requires Consistent(w)
    ensures Consistent(SubmitSpec(w, qid, uid, answers, now).0)
  {
    var (w', r) := SubmitSpec(w, qid, uid, answers, now);
    if r.Ok? {
      var i := FindQuiz(w.quizzes, qid).value;
      var q := w.quizzes[i];
      var ps := q.participants;
      var ps' := w'.quizzes[i].participants;
      assert forall j :: 0 <= j < |ps| ==> ps'[j].user == ps[j].user;
      assert Admissible(w'.quizzes[i]);
      ReplaceQuiz(w.quizzes, i, w'.quizzes[i]);
      SameBalancesAgree(w.users, w'.users, w.ledger);
    }
  }

  // ---------------------------------------------------------------------
  // Scenarios

  /** Three questions with correct answers 1, 0, 2: [1,0,2] scores 3 and [0,0,0] scores 1. */
  lemma ScoringScenario(a: Question, b: Question, c: Question)
    requires a.correctAnswer == 1 && b.correctAnswer == 0 && c.correctAnswer == 2
    ensures CountCorrect([a, b, c], [1, 0, 2]) == 3
    ensures CountCorrect([a, b, c], [0, 0, 0]) == 1
  {
    var qs := [a, b, c];
    assert CountCorrect(qs, []) == 0;
    assert [1, 0, 2][..2] == [1, 0] && [1, 0][..1] == [1] && [1][..0] == [];
    assert CountCorrect(qs, [1]) == 1;
    assert CountCorrect(qs, [1, 0]) == 2;
    assert [0, 0, 0][..2] == [0, 0] && [0, 0][..1] == [0] && [0][..0] == [];
    assert CountCorrect(qs, [0]) == 0;
    assert CountCorrect(qs, [0, 0]) == 1;
  }

  /**
   * A one-seat quiz with a 10-coin fee: the first player, holding exactly 10,
   * gets in and is left with 0; the next one finds the quiz full.
   */
  lemma JoinScenario(q: Quiz, alice: User, bob: User, now: int)
    requires q.entryFee == 10 && q.maxParticipants == 1 && q.currentParticipants == 0
    requires q.participants == [] && q.endDate >= now
    requires alice.balance == 10 && bob.balance == 50
    ensures var w := World(map[1 := alice, 2 := bob], [q], []);
            var (w1, r1) := JoinSpec(w, q.id, 1, now);
            && r1.Ok? && w1.users[1].balance == 0 && w1.quizzes[0].currentParticipants == 1
            && |w1.ledger| == 1 && w1.ledger[0].amount == -10
            && JoinSpec(w1, q.id, 2, now) == (w1, Fail(QuizFull))
  {
    var w := World(map[1 := alice, 2 := bob], [q], []);
    var w1 := JoinSpec(w, q.id, 1, now).0;
    assert w1.quizzes[0].id == q.id;
    assert FindQuiz(w1.quizzes, q.id) == Some(0);
  }
}
