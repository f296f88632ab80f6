/**
 * The player's quiz page: the join button, the timed play session (start,
 * answer, next, the one-second timer) and the mm:ss clock it shows.
 * The page's React state is a class whose fields the handlers update; the
 * API calls it awaits are not modelled, their outcomes arrive as arguments.
 */
module QuizPage {
  import opened Wrappers
  import opened Refs
  import opened Decimal
  import opened QuizModel
  import opened Store
  import opened QuizRoutes

  // ---------------------------------------------------------------------
  // JavaScript number formatting used by the clock

  /** JavaScript's `seconds % 60`: the remainder takes the sign of the dividend. */
  function JsRem60(a: int): (r: int)
    ensures a >= 0 ==> 0 <= r < 60 && r == a % 60
    ensures a < 0 ==> -60 < r <= 0 && (a - r) % 60 == 0
  {
    if a >= 0 then a % 60 else -((-a) % 60)
  }

  /** Numbers below 100 take at most two digits. */
  lemma ShortNumeral(n: nat)
    requires n < 100
    ensures |NatToString(n)| <= 2
  {
    if n >= 10 {
      assert NatToString(n / 10) == [DigitChar(n / 10)];
    }
  }

  /** `s` left-padded with `c` to at least `n` characters. */
  function PadStart(s: string, n: nat, c: char): (r: string)
    ensures |r| == if |s| >= n then |s| else n
    ensures r[|r| - |s|..] == s
    ensures forall i :: 0 <= i < |r| - |s| ==> r[i] == c
  {
    if |s| >= n then s else seq(n - |s|, _ => c) + s
  }

  /** `formatTime`: floored minutes, a colon, and the remainder padded to two places. */
  function FormatTime(seconds: int): (r: string)
    ensures seconds >= 0 ==> |r| >= 4 && r[|r| - 3] == ':'
    ensures seconds >= 0 ==> r[..|r| - 3] == NatToString(seconds / 60)
  {
    var rem := JsRem60(seconds);
    ShortNumeral(if rem >= 0 then rem else 0);
    IntToString(seconds / 60) + ":" + PadStart(IntToString(rem), 2, '0')
  }

  /** Reads an "m:ss" clock back into seconds. */
  function ParseTime(t: string): (r: Option<nat>)
    ensures r.Some? ==> |t| >= 4 && t[|t| - 3] == ':'
  {
    if |t| < 4 || t[|t| - 3] != ':' then None
    else
      var m :- ParseNat(t[..|t| - 3]);
      var s :- ParseNat(t[|t| - 2..]);
      if s < 60 then Some(m * 60 + s) else None
  }

  /** Two padded digits spell every second count below a minute. */
  lemma PaddedSeconds(n: nat)
    requires n < 60
    ensures var p := PadStart(NatToString(n), 2, '0');
            |p| == 2 && ParseNat(p) == Some(n)
  {
    var s := NatToString(n);
    if n < 10 {
      assert s == [DigitChar(n)];
      DigitsValueLeadingZero(s);
      assert PadStart(s, 2, '0') == "0" + s;
    } else {
      assert NatToString(n / 10) == [DigitChar(n / 10)];
    }
    ParseNatToString(n);
  }

  /** Splitting "m:ss" at its third-last character recovers both parts. */
  lemma ClockParts(m: string, p: string)
    requires |m| >= 1 && |p| == 2
    ensures var t := m + ":" + p;
            |t| >= 4 && t[|t| - 3] == ':' && t[..|t| - 3] == m && t[|t| - 2..] == p
  {
  }

  /** "m:ss" for m whole minutes and s seconds. */
  function Clock(m: nat, s: nat): string {
    NatToString(m) + ":" + PadStart(NatToString(s), 2, '0')
  }

  /** The clock of a non-negative count: whole minutes, then two-digit seconds. */
  lemma FormatTimeShape(seconds: nat)
    ensures FormatTime(seconds) == Clock(seconds / 60, seconds % 60)
  {
  }

  lemma ParseTimeOfParts(t: string, m: nat, s: nat)
    requires |t| >= 4 && t[|t| - 3] == ':' && s < 60
    requires ParseNat(t[..|t| - 3]) == Some(m) && ParseNat(t[|t| - 2..]) == Some(s)
    ensures ParseTime(t) == Some(m * 60 + s)
  {
  }

  /** Reading "m:ss" back gives m minutes and ss seconds. */
  lemma ParseClock(m: nat, s: nat)
    requires s < 60
    ensures ParseTime(Clock(m, s)) == Some(m * 60 + s)
  {
    var p := PadStart(NatToString(s), 2, '0');
    var t := NatToString(m) + ":" + p;
    assert Clock(m, s) == t;
    PaddedSeconds(s);
    ClockParts(NatToString(m), p);
    ParseNatToString(m);
    ParseTimeOfParts(t, m, s);
  }

  /** The clock loses nothing: reading a shown time gives back the seconds left. */
  lemma FormatTimeRoundTrip(seconds: nat)
    ensures ParseTime(FormatTime(seconds)) == Some(seconds)
  {
    var m, s := seconds / 60, seconds % 60;
    FormatTimeShape(seconds);
    ParseClock(m, s);
    assert m * 60 + s == seconds;
  }

  /** Distinct second counts show as distinct clocks. */
  lemma FormatTimeInjective(a: nat, b: nat)
    requires FormatTime(a) == FormatTime(b)
    ensures a == b
  {
    FormatTimeRoundTrip(a);
    FormatTimeRoundTrip(b);
  }

  lemma FormatTimeExamples()
    ensures FormatTime(125) == "2:05"
    ensures FormatTime(60) == "1:00"
    ensures FormatTime(9) == "0:09"
  {
    assert NatToString(5) == "5" && NatToString(2) == "2";
    assert NatToString(0) == "0" && NatToString(1) == "1" && NatToString(9) == "9";
  }

  // ---------------------------------------------------------------------
  // The join button

  /** The join button is enabled while no request is pending and the shown balance (0 when unknown) covers the fee. */
  function JoinEnabled(loading: bool, balance: Option<int>, entryFee: int): (r: bool)
    ensures r <==> !loading && (if balance.Some? then balance.value >= entryFee else entryFee <= 0)
  {
    !(loading || balance.GetOr(0) < entryFee)
  }

  /** The balance the page shows after a join the server accepted. */
  function ShownBalanceAfterJoin(balance: Option<int>, entryFee: int): (r: Option<int>)
    ensures r.Some? <==> balance.Some?
    ensures r.Some? ==> r.value + entryFee == balance.value
  {
    if balance.Some? then Some(balance.value - entryFee) else None
  }

  /**
   * With the page showing the stored balance, the button is disabled exactly
   * when the server's balance guard would refuse, once no earlier guard does.
   */
  lemma JoinButtonAgreesWithServer(w: World, qid: QuizId, uid: UserId, now: int)
    requires uid in w.users
    requires FindQuiz(w.quizzes, qid).Some?
    requires var q := w.quizzes[FindQuiz(w.quizzes, qid).value];
             !HasEnded(q, now) && !IsFull(q)
    ensures var q := w.quizzes[FindQuiz(w.quizzes, qid).value];
            JoinSpec(w, qid, uid, now).1 == Fail(InsufficientBalance)
            <==> !JoinEnabled(false, Some(w.users[uid].balance), q.entryFee)
  {
  }

  /** After an accepted join the page's balance is the one the server stored. */
  lemma ShownBalanceMatchesServer(w: World, qid: QuizId, uid: UserId, now: int)
    requires JoinSpec(w, qid, uid, now).1.Ok?
    ensures var q := w.quizzes[FindQuiz(w.quizzes, qid).value];
            ShownBalanceAfterJoin(Some(w.users[uid].balance), q.entryFee)
            == Some(JoinSpec(w, qid, uid, now).0.users[uid].balance)
  {
  }

  // ---------------------------------------------------------------------
  // Answers and the next button

  /** One unanswered slot (-1) per question. */
  function FreshAnswers(n: nat): (r: seq<int>)
    ensures |r| == n && forall i :: 0 <= i < n ==> r[i] == -1
  {
    seq(n, _ => -1)
  }

  /** The next button is enabled unless the current slot holds -1; a missing slot does not hold -1. */
  predicate NextEnabled(answers: seq<int>, current: int) {
    !(0 <= current < |answers| && answers[current] == -1)
  }

  /** A fresh attempt cannot move on before choosing; choosing an option enables it. */
  lemma NextNeedsAnAnswer(n: nat, current: nat, choice: nat)
    requires current < n
    ensures !NextEnabled(FreshAnswers(n), current)
    ensures NextEnabled(FreshAnswers(n)[current := choice], current)
  {
  }

  datatype NextStep = Advanced | SubmitQuiz
  datatype TimerStep = Counted | SubmitNow | Idle

  /** The page state of one quiz, for one signed-in player. */
  class PlaySession {
    const questionCount: nat
    const timeLimit: int
    const entryFee: int
    var loading: bool
    var balance: Option<int>
    var gamesPlayed: Option<int>
    var hasJoined: bool
    var isPlaying: bool
    var currentQuestion: int
    var answers: seq<int>
    var timeLeft: int
    var quizCompleted: bool
    var score: int

    /** The question index never leaves the question list (index 0 of an empty quiz aside). */
    predicate Valid()
      reads this
    {
      && 0 <= currentQuestion
      && (currentQuestion == 0 || currentQuestion < questionCount)
      && (isPlaying ==> |answers| == questionCount)
    }

    /** The page once `fetchQuiz` has loaded the quiz. */
    constructor (questionCount: nat, timeLimit: int, entryFee: int, balance: Option<int>, gamesPlayed: Option<int>)
      ensures this.questionCount == questionCount && this.timeLimit == timeLimit && this.entryFee == entryFee
      ensures this.balance == balance && this.gamesPlayed == gamesPlayed
      ensures !loading && !hasJoined && !isPlaying && !quizCompleted
      ensures currentQuestion == 0 && answers == [] && timeLeft == 0 && score == 0
      ensures Valid()
    {
      this.questionCount := questionCount;
      this.timeLimit := timeLimit;
      this.entryFee := entryFee;
      this.balance := balance;
      this.gamesPlayed := gamesPlayed;
      loading := false;
      hasJoined := false;
      isPlaying := false;
      currentQuestion := 0;
      answers := [];
      timeLeft := 0;
      quizCompleted := false;
      score := 0;
    }

    /** `handleJoinQuiz` once the API call has settled with `accepted`. */
    method JoinSettled(accepted: bool)
      modifies this
      ensures hasJoined == (old(hasJoined) || accepted)
      ensures balance == if accepted then ShownBalanceAfterJoin(old(balance), entryFee) else old(balance)
      ensures !loading
      ensures isPlaying == old(isPlaying) && currentQuestion == old(currentQuestion) && answers == old(answers)
      ensures timeLeft == old(timeLeft) && quizCompleted == old(quizCompleted) && score == old(score)
      ensures gamesPlayed == old(gamesPlayed)
      ensures Valid() == old(Valid())
    {
      if accepted {
        hasJoined := true;
        if balance.Some? {
          balance := Some(balance.value - entryFee);
        }
      }
      loading := false;
    }

    /** `startQuiz`: the clock gets the time limit in seconds and every answer is unset. */
    method StartQuiz()
      requires Valid()
      modifies this
      ensures isPlaying && timeLeft == timeLimit * 60 && answers == FreshAnswers(questionCount)
      ensures currentQuestion == old(currentQuestion) && hasJoined == old(hasJoined)
      ensures quizCompleted == old(quizCompleted) && score == old(score) && loading == old(loading)
      ensures balance == old(balance) && gamesPlayed == old(gamesPlayed)
      ensures Valid()
    {
      isPlaying := true;
      timeLeft := timeLimit * 60;
      answers := FreshAnswers(questionCount);
    }

    /** `handleAnswerSelect`: only the current question's slot changes. */
    method SelectAnswer(answerIndex: int)
      requires Valid() && isPlaying && currentQuestion < questionCount
      modifies this
      ensures Valid() && isPlaying && |answers| == |old(answers)|
      ensures answers[currentQuestion] == answerIndex
      ensures NextEnabled(answers, currentQuestion) <==> answerIndex != -1
      ensures forall i :: 0 <= i < |answers| && i != currentQuestion ==> answers[i] == old(answers)[i]
      ensures currentQuestion == old(currentQuestion) && timeLeft == old(timeLeft)
      ensures hasJoined == old(hasJoined) && quizCompleted == old(quizCompleted) && score == old(score)
      ensures loading == old(loading) && balance == old(balance) && gamesPlayed == old(gamesPlayed)
    {
      answers := answers[currentQuestion := answerIndex];
    }

    /**
     * `nextQuestion`: advance while a later question exists, otherwise
     * submit. Its only caller is the next button, which is enabled only once
     * the current question has an answer.
     */
    method NextQuestion() returns (step: NextStep)
      requires Valid() && isPlaying && NextEnabled(answers, currentQuestion)
      modifies this
      ensures step == Advanced <==> old(currentQuestion) < questionCount - 1
      ensures step == Advanced ==> currentQuestion == old(currentQuestion) + 1
      ensures step == SubmitQuiz ==> currentQuestion == old(currentQuestion)
      ensures step == SubmitQuiz ==> questionCount == 0 || currentQuestion == questionCount - 1
      ensures isPlaying && answers == old(answers) && timeLeft == old(timeLeft)
      ensures hasJoined == old(hasJoined) && quizCompleted == old(quizCompleted) && score == old(score)
      ensures loading == old(loading) && balance == old(balance) && gamesPlayed == old(gamesPlayed)
      ensures Valid()
    {
      if currentQuestion < questionCount - 1 {
        currentQuestion := currentQuestion + 1;
        step := Advanced;
      } else {
        step := SubmitQuiz;
      }
    }

    /** The timer effect: one second off while time remains, submission at zero. */
    method Tick() returns (step: TimerStep)
      modifies this
      ensures step == Counted <==> old(isPlaying) && old(timeLeft) > 0
      ensures step == SubmitNow <==> old(isPlaying) && old(timeLeft) == 0
      ensures timeLeft == if step == Counted then old(timeLeft) - 1 else old(timeLeft)
      ensures step == Counted ==> timeLeft >= 0
      ensures isPlaying == old(isPlaying) && currentQuestion == old(currentQuestion) && answers == old(answers)
      ensures hasJoined == old(hasJoined) && quizCompleted == old(quizCompleted) && score == old(score)
      ensures loading == old(loading) && balance == old(balance) && gamesPlayed == old(gamesPlayed)
      ensures Valid() == old(Valid())
    {
      if isPlaying && timeLeft > 0 {
        timeLeft := timeLeft - 1;
        step := Counted;
      } else if isPlaying && timeLeft == 0 {
        step := SubmitNow;
      } else {
        step := Idle;
      }
    }

    /** `handleSubmitQuiz` once the API call has settled; `None` is a refused submission. */
    method SubmitSettled(result: Option<Submission>)
      modifies this
      ensures result.Some? ==> score == result.value.score && quizCompleted && !isPlaying
      ensures result.Some? ==> gamesPlayed == if old(gamesPlayed).Some? then Some(old(gamesPlayed).value + 1) else None
      ensures result.None? ==> score == old(score) && quizCompleted == old(quizCompleted)
                               && isPlaying == old(isPlaying) && gamesPlayed == old(gamesPlayed)
      ensures !loading
      ensures currentQuestion == old(currentQuestion) && answers == old(answers) && timeLeft == old(timeLeft)
      ensures hasJoined == old(hasJoined) && balance == old(balance)
      ensures old(Valid()) ==> Valid()
    {
      if result.Some? {
        score := result.value.score;
        quizCompleted := true;
        isPlaying := false;
        if gamesPlayed.Some? {
          gamesPlayed := Some(gamesPlayed.value + 1);
        }
      }
      loading := false;
    }
  }
}
