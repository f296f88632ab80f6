/**
 * The Quiz schema with its embedded Question, Participant and Winner
 * sub-documents: field bounds, enums and defaults as validation and
 * instantiation functions, and the `progress`, `isFull` and `hasEnded`
 * virtuals. Dates are integer timestamps; "now" is always a parameter.
 */
module QuizModel {
  import opened Wrappers
  import opened Refs

  datatype Category = QuizCategory | GamesCategory | TrendingCategory | NewCategory

  datatype Difficulty = Easy | Medium | Hard

  datatype Question = Question(
    question: string,
    options: seq<string>,
    correctAnswer: int,
    difficulty: Difficulty)

  /** One graded answer of a submission. */
  datatype AnswerRecord = AnswerRecord(questionIndex: nat, selectedAnswer: int, isCorrect: bool)

  /** A user's attempt; `completedAt` present means the attempt was submitted. */
  datatype Participant = Participant(
    user: UserId,
    score: int,
    completedAt: Option<int>,
    answers: seq<AnswerRecord>)

  datatype Winner = Winner(user: UserId, position: int, prizeWon: int)

  datatype Quiz = Quiz(
    id: QuizId,
    title: string,
    description: string,
    category: Category,
    entryFee: int,
    prizeAmount: int,
    maxParticipants: int,
    currentParticipants: int,
    questions: seq<Question>,
    timeLimit: int,
    startDate: int,
    endDate: int,
    isActive: bool,
    image: string,
    participants: seq<Participant>,
    winners: seq<Winner>,
    createdBy: UserId)

  // ---------------------------------------------------------------------
  // Enums

  function CategoryName(c: Category): string {
    match c
    case QuizCategory => "Quiz"
    case GamesCategory => "Games"
    case TrendingCategory => "Trending"
    case NewCategory => "New"
  }

  function ParseCategory(s: string): (r: Option<Category>)
    ensures r.Some? ==> CategoryName(r.value) == s
  {
    if s == "Quiz" then Some(QuizCategory)
    else if s == "Games" then Some(GamesCategory)
    else if s == "Trending" then Some(TrendingCategory)
    else if s == "New" then Some(NewCategory)
    else None
  }

  lemma ParseCategoryName(c: Category)
    ensures ParseCategory(CategoryName(c)) == Some(c)
  {
  }

  function DifficultyName(d: Difficulty): string {
    match d
    case Easy => "easy"
    case Medium => "medium"
    case Hard => "hard"
  }

  function ParseDifficulty(s: string): (r: Option<Difficulty>)
    ensures r.Some? ==> DifficultyName(r.value) == s
  {
    if s == "easy" then Some(Easy)
    else if s == "medium" then Some(Medium)
    else if s == "hard" then Some(Hard)
    else None
  }

  lemma ParseDifficultyName(d: Difficulty)
    ensures ParseDifficulty(DifficultyName(d)) == Some(d)
  {
  }

  const DefaultDifficulty: Difficulty := Medium
  const DefaultTimeLimit: int := 15

  // ---------------------------------------------------------------------
  // Virtuals

  /** `isFull`: no seat is left. */
  predicate IsFull(q: Quiz) {
    q.currentParticipants >= q.maxParticipants
  }

  /** `hasEnded`: the end date lies strictly in the past. */
  predicate HasEnded(q: Quiz, now: int) {
    now > q.endDate
  }

  /**
   * `progress`: the percentage of seats taken, rounded
   * to the nearest integer with halves rounded up.
   */
  function Progress(current: int, max: int): (r: int)
    requires max >= 1
    ensures 2 * max * r - max <= 200 * current < 2 * max * r + max
  {
    (200 * current + max) / (2 * max)
  }

  lemma ProductNonPositive(m: int, k: int)
    requires m > 0 && m * k <= 0
    ensures k <= 0
  {
  }

  lemma ProductNonNegative(m: int, k: int)
    requires m > 0 && m * k >= 0
    ensures k >= 0
  {
  }

  /** With a sane counter the percentage lies in 0..100. */
  lemma ProgressBounds(current: int, max: int)
    requires max >= 1 && 0 <= current <= max
    ensures 0 <= Progress(current, max) <= 100
  {
    var r := Progress(current, max);
    assert 2 * max * r - max - 200 * max == max * (2 * r - 201);
    ProductNonPositive(max, 2 * r - 201);
    assert 2 * max * r + max == max * (2 * r + 1);
    ProductNonNegative(max, 2 * r + 1);
  }

  /** Within capacity, full means exactly at the seat limit. */
  lemma FullMeansAtCapacity(q: Quiz)
    requires Admissible(q)
    ensures IsFull(q) <==> q.currentParticipants == q.maxParticipants
    ensures !IsFull(q) ==> q.maxParticipants - q.currentParticipants >= 1
  {
  }

  /** Once a quiz has ended it stays ended; up to and including its end date it has not. */
  lemma EndedStaysEnded(q: Quiz, now: int, later: int)
    requires now <= later
    ensures HasEnded(q, now) ==> HasEnded(q, later)
    ensures !HasEnded(q, q.endDate)
  {
  }

  /** A full quiz with a sane counter shows 100%. */
  lemma FullShowsHundred(q: Quiz)
    requires q.maxParticipants >= 1 && IsFull(q) && q.currentParticipants <= q.maxParticipants
    ensures Progress(q.currentParticipants, q.maxParticipants) == 100
  {
    var m := q.maxParticipants;
    var r := Progress(m, m);
    assert 2 * m * r - m - 200 * m == m * (2 * r - 201);
    ProductNonPositive(m, 2 * r - 201);
    assert 2 * m * r + m - 200 * m == m * (2 * r - 199);
    ProductNonNegative(m, 2 * r - 199);
  }

  /** ... but 100% does not mean full: 199 of 200 seats rounds up. */
  lemma HundredIsNotFull()
    ensures Progress(199, 200) == 100
  {
  }

  // ---------------------------------------------------------------------
  // Validation and defaults

  /** Whitespace removed by String.prototype.trim (the ASCII and BOM subset). */
  predicate IsSpace(c: char) {
    c == ' ' || c == '\t' || c == '\n' || c == '\r' || c == '\U{000B}' || c == '\U{000C}'
    || c == '\U{00A0}' || c == '\U{FEFF}'
  }

  predicate Trimmed(s: string) {
    s == [] || (!IsSpace(s[0]) && !IsSpace(s[|s| - 1]))
  }

  function TrimStart(s: string): (r: string)
    ensures r == [] || !IsSpace(r[0])
    ensures exists k :: 0 <= k <= |s| && r == s[k..]
  {
    if s != [] && IsSpace(s[0]) then
      var r := TrimStart(s[1..]);
      assert exists k :: 0 <= k <= |s| && r == s[k..] by {
        var k :| 0 <= k <= |s[1..]| && r == s[1..][k..];
        assert r == s[k + 1..];
      }
      r
    else
      assert s == s[0..];
      s
  }

  function TrimEnd(s: string): (r: string)
    ensures r == [] || !IsSpace(r[|r| - 1])
    ensures exists k :: 0 <= k <= |s| && r == s[..k]
  {
    if s != [] && IsSpace(s[|s| - 1]) then
      var r := TrimEnd(s[..|s| - 1]);
      assert exists k :: 0 <= k <= |s| && r == s[..k] by {
        var k :| 0 <= k <= |s| - 1 && r == s[..|s| - 1][..k];
        assert r == s[..k];
      }
      r
    else
      assert s == s[..|s|];
      s
  }

  /** The `trim: true` setter on the title. */
  function Trim(s: string): (r: string)
    ensures Trimmed(r)
  {
    var t := TrimStart(s);
    var r := TrimEnd(t);
    assert r != [] ==> !IsSpace(r[0]) by {
      if r != [] {
        var k :| 0 <= k <= |t| && r == t[..k];
        assert r[0] == t[0];
      }
    }
    r
  }

  lemma TrimTrimmed(s: string)
    requires Trimmed(s)
    ensures Trim(s) == s
  {
  }

  /** Mongoose's `required` on a string rejects absence and the empty string. */
  function RequiredText(s: Option<string>): (r: Option<string>)
    ensures r.Some? <==> s.Some? && s.value != ""
    ensures r.Some? ==> r.value == s.value
  {
    if s.Some? && s.value != "" then s else None
  }

  /** A required number with a `min` bound. */
  function AtLeast(n: Option<int>, lo: int): (r: Option<int>)
    ensures r.Some? <==> n.Some? && n.value >= lo
    ensures r.Some? ==> r.value == n.value
  {
    if n.Some? && n.value >= lo then n else None
  }

  predicate ValidQuestion(q: Question) {
    && q.question != ""
    && (forall i :: 0 <= i < |q.options| ==> q.options[i] != "")
    && 0 <= q.correctAnswer <= 3
  }

  /** What the schema guarantees of every stored quiz. */
  predicate WellFormed(q: Quiz) {
    && q.title != "" && Trimmed(q.title)
    && q.description != ""
    && q.entryFee >= 0
    && q.prizeAmount >= 0
    && q.maxParticipants >= 1
    && (forall i :: 0 <= i < |q.questions| ==> ValidQuestion(q.questions[i]))
  }

  /** A question as it arrives in a request body. */
  datatype QuestionInput = QuestionInput(
    question: Option<string>,
    options: seq<string>,
    correctAnswer: Option<int>,
    difficulty: Option<string>)

  /** A quiz as it arrives in a request body: every field may be missing. */
  datatype QuizInput = QuizInput(
    title: Option<string>,
    description: Option<string>,
    category: Option<string>,
    entryFee: Option<int>,
    prizeAmount: Option<int>,
    maxParticipants: Option<int>,
    currentParticipants: Option<int>,
    questions: Option<seq<QuestionInput>>,
    timeLimit: Option<int>,
    startDate: Option<int>,
    endDate: Option<int>,
    isActive: Option<bool>,
    image: Option<string>,
    createdBy: Option<UserId>)

  function InstantiateQuestion(qi: QuestionInput): (r: Option<Question>)
    ensures r.Some? ==> ValidQuestion(r.value)
    ensures r.Some? ==> r.value.options == qi.options
    ensures qi.difficulty.None? && r.Some? ==> r.value.difficulty == DefaultDifficulty
  {
    var text :- RequiredText(qi.question);
    if exists i :: 0 <= i < |qi.options| && qi.options[i] == "" then None
    else
      var correct :- qi.correctAnswer;
      if correct < 0 || correct > 3 then None
      else
        var d :- if qi.difficulty.None? then Some(DefaultDifficulty) else ParseDifficulty(qi.difficulty.value);
        Some(Question(text, qi.options, correct, d))
  }

  /** All questions are instantiated, or the whole document is rejected. */
  function InstantiateQuestions(qs: seq<QuestionInput>): (r: Option<seq<Question>>)
    ensures r.Some? <==> forall i :: 0 <= i < |qs| ==> InstantiateQuestion(qs[i]).Some?
    ensures r.Some? ==> |r.value| == |qs|
    ensures r.Some? ==> forall i :: 0 <= i < |qs| ==> r.value[i] == InstantiateQuestion(qs[i]).value
  {
    if qs == [] then Some([])
    else
      var first :- InstantiateQuestion(qs[0]);
      var rest :- InstantiateQuestions(qs[1..]);
      assert forall i :: 1 <= i < |qs| ==> qs[i] == qs[1..][i - 1];
      Some([first] + rest)
  }

  /**
   * Building a quiz document from a body and validating it: defaults fill the optional
   * fields (currentParticipants 0, timeLimit 15, isActive true, image "",
   * difficulty medium); a violated bound, enum or required field rejects
   * the document.
   */
  function Instantiate(inp: QuizInput, id: QuizId): (r: Option<Quiz>)
    ensures r.Some? ==> WellFormed(r.value)
    ensures r.Some? ==> r.value.id == id && r.value.participants == [] && r.value.winners == []
    ensures r.Some? ==> inp.createdBy == Some(r.value.createdBy)
    ensures r.Some? && inp.currentParticipants.None? ==> r.value.currentParticipants == 0
    ensures r.Some? && inp.timeLimit.None? ==> r.value.timeLimit == DefaultTimeLimit
    ensures r.Some? && inp.isActive.None? ==> r.value.isActive
    ensures r.Some? && inp.image.None? ==> r.value.image == ""
  {
    var title :- RequiredText(if inp.title.Some? then Some(Trim(inp.title.value)) else None);
    var description :- RequiredText(inp.description);
    var categoryName :- inp.category;
    var category :- ParseCategory(categoryName);
    var entryFee :- AtLeast(inp.entryFee, 0);
    var prizeAmount :- AtLeast(inp.prizeAmount, 0);
    var maxParticipants :- AtLeast(inp.maxParticipants, 1);
    var questions :- InstantiateQuestions(inp.questions.GetOr([]));
    var startDate :- inp.startDate;
    var endDate :- inp.endDate;
    var createdBy :- inp.createdBy;
    Some(Quiz(id, title, description, category, entryFee, prizeAmount, maxParticipants,
              inp.currentParticipants.GetOr(0), questions, inp.timeLimit.GetOr(DefaultTimeLimit),
              startDate, endDate, inp.isActive.GetOr(true), inp.image.GetOr(""), [], [], createdBy))
  }

  function InputOfQuestion(q: Question): QuestionInput {
    QuestionInput(Some(q.question), q.options, Some(q.correctAnswer), Some(DifficultyName(q.difficulty)))
  }

  /** The request body that spells out every field of a quiz. */
  function InputOf(q: Quiz): QuizInput {
    QuizInput(Some(q.title), Some(q.description), Some(CategoryName(q.category)), Some(q.entryFee),
              Some(q.prizeAmount), Some(q.maxParticipants), Some(q.currentParticipants),
              Some(seq(|q.questions|, i requires 0 <= i < |q.questions| => InputOfQuestion(q.questions[i]))),
              Some(q.timeLimit), Some(q.startDate), Some(q.endDate), Some(q.isActive), Some(q.image),
              Some(q.createdBy))
  }

  /** Validation accepts exactly what it guarantees: every well-formed quiz without attempts round-trips. */
  lemma InstantiateInputOf(q: Quiz)
    requires WellFormed(q) && q.participants == [] && q.winners == []
    ensures Instantiate(InputOf(q), q.id) == Some(q)
  {
    var inp := InputOf(q);
    var qs := inp.questions.value;
    forall i | 0 <= i < |qs|
      ensures InstantiateQuestion(qs[i]) == Some(q.questions[i])
    {
      ParseDifficultyName(q.questions[i].difficulty);
    }
    var r := InstantiateQuestions(qs);
    assert r.Some? && r.value == q.questions;
    TrimTrimmed(q.title);
    ParseCategoryName(q.category);
  }

  // ---------------------------------------------------------------------
  // Partial update (findByIdAndUpdate with runValidators)

  /** Update validators check only the fields the body supplies. */
  predicate ValidPatch(p: QuizInput) {
    && (p.title.Some? ==> Trim(p.title.value) != "")
    && (p.description.Some? ==> p.description.value != "")
    && (p.category.Some? ==> ParseCategory(p.category.value).Some?)
    && (p.entryFee.Some? ==> p.entryFee.value >= 0)
    && (p.prizeAmount.Some? ==> p.prizeAmount.value >= 0)
    && (p.maxParticipants.Some? ==> p.maxParticipants.value >= 1)
    && (p.questions.Some? ==> InstantiateQuestions(p.questions.value).Some?)
  }

  /** Every supplied field replaces the stored one; the rest, and the attempts, stay. */
  function Patch(q: Quiz, p: QuizInput): (r: Quiz)
    requires ValidPatch(p)
    ensures WellFormed(q) ==> WellFormed(r)
    ensures r.id == q.id && r.participants == q.participants && r.winners == q.winners
    ensures p == QuizInput(None, None, None, None, None, None, None, None, None, None, None, None, None, None) ==> r == q
  {
    q.(title := if p.title.Some? then Trim(p.title.value) else q.title,
       description := p.description.GetOr(q.description),
       category := if p.category.Some? then ParseCategory(p.category.value).value else q.category,
       entryFee := p.entryFee.GetOr(q.entryFee),
       prizeAmount := p.prizeAmount.GetOr(q.prizeAmount),
       maxParticipants := p.maxParticipants.GetOr(q.maxParticipants),
       currentParticipants := p.currentParticipants.GetOr(q.currentParticipants),
       questions := if p.questions.Some? then InstantiateQuestions(p.questions.value).value else q.questions,
       timeLimit := p.timeLimit.GetOr(q.timeLimit),
       startDate := p.startDate.GetOr(q.startDate),
       endDate := p.endDate.GetOr(q.endDate),
       isActive := p.isActive.GetOr(q.isActive),
       image := p.image.GetOr(q.image),
       createdBy := p.createdBy.GetOr(q.createdBy))
  }

  /**
   * What the update stores: each field the body supplies replaces the stored
   * one (the title trimmed, the category and questions as the validators
   * build them) and each field it leaves out keeps its stored value.
   */
  lemma PatchStoresSuppliedFields(q: Quiz, p: QuizInput)
    requires ValidPatch(p)
    ensures Patch(q, p).title == if p.title.Some? then Trim(p.title.value) else q.title
    ensures p.description.Some? ==> Patch(q, p).description == p.description.value
    ensures p.description.None? ==> Patch(q, p).description == q.description
    ensures p.category.Some? ==> Some(Patch(q, p).category) == ParseCategory(p.category.value)
    ensures p.category.None? ==> Patch(q, p).category == q.category
    ensures p.entryFee.Some? ==> Patch(q, p).entryFee == p.entryFee.value
    ensures p.entryFee.None? ==> Patch(q, p).entryFee == q.entryFee
    ensures p.prizeAmount.Some? ==> Patch(q, p).prizeAmount == p.prizeAmount.value
    ensures p.prizeAmount.None? ==> Patch(q, p).prizeAmount == q.prizeAmount
    ensures p.maxParticipants.Some? ==> Patch(q, p).maxParticipants == p.maxParticipants.value
    ensures p.maxParticipants.None? ==> Patch(q, p).maxParticipants == q.maxParticipants
    ensures p.currentParticipants.Some? ==> Patch(q, p).currentParticipants == p.currentParticipants.value
    ensures p.currentParticipants.None? ==> Patch(q, p).currentParticipants == q.currentParticipants
    ensures p.questions.Some? ==> Some(Patch(q, p).questions) == InstantiateQuestions(p.questions.value)
    ensures p.questions.None? ==> Patch(q, p).questions == q.questions
    ensures p.timeLimit.Some? ==> Patch(q, p).timeLimit == p.timeLimit.value
    ensures p.timeLimit.None? ==> Patch(q, p).timeLimit == q.timeLimit
    ensures p.startDate.Some? ==> Patch(q, p).startDate == p.startDate.value
    ensures p.startDate.None? ==> Patch(q, p).startDate == q.startDate
    ensures p.endDate.Some? ==> Patch(q, p).endDate == p.endDate.value
    ensures p.endDate.None? ==> Patch(q, p).endDate == q.endDate
    ensures p.isActive.Some? ==> Patch(q, p).isActive == p.isActive.value
    ensures p.isActive.None? ==> Patch(q, p).isActive == q.isActive
    ensures p.image.Some? ==> Patch(q, p).image == p.image.value
    ensures p.image.None? ==> Patch(q, p).image == q.image
    ensures p.createdBy.Some? ==> Patch(q, p).createdBy == p.createdBy.value
    ensures p.createdBy.None? ==> Patch(q, p).createdBy == q.createdBy
  {
  }

  /** Sending the same update twice stores the same quiz as sending it once. */
  lemma PatchIdempotent(q: Quiz, p: QuizInput)
    requires ValidPatch(p)
    ensures Patch(Patch(q, p), p) == Patch(q, p)
  {
  }

  // ---------------------------------------------------------------------
  // Participants

  /** A fresh attempt: score 0, not completed, no answers. */
  function NewParticipant(u: UserId): (p: Participant)
    ensures p.user == u && p.completedAt.None?
  {
    Participant(u, 0, None, [])
  }

  /** Some attempt belongs to the user. */
  predicate HasParticipant(ps: seq<Participant>, u: UserId) {
    exists i :: 0 <= i < |ps| && ps[i].user == u
  }

  /** The position of the user's first attempt, or -1. */
  function ParticipantIndex(ps: seq<Participant>, u: UserId): (r: int)
    ensures -1 <= r < |ps|
    ensures r == -1 <==> !HasParticipant(ps, u)
    ensures r >= 0 ==> ps[r].user == u && forall j :: 0 <= j < r ==> ps[j].user != u
  {
    if ps == [] then -1
    else if ps[0].user == u then 0
    else
      var r := ParticipantIndex(ps[1..], u);
      assert HasParticipant(ps, u) ==> HasParticipant(ps[1..], u) by {
        if HasParticipant(ps, u) {
          var i :| 0 <= i < |ps| && ps[i].user == u;
          assert ps[1..][i - 1].user == u;
        }
      }
      if r == -1 then -1 else r + 1
  }

  /** Each user holds at most one attempt. */
  predicate DistinctParticipants(ps: seq<Participant>) {
    forall i, j :: 0 <= i < j < |ps| ==> ps[i].user != ps[j].user
  }

  /** The invariant the join route maintains: the counter is within capacity, one attempt per user. */
  predicate Admissible(q: Quiz) {
    && 0 <= q.currentParticipants <= q.maxParticipants
    && DistinctParticipants(q.participants)
  }
}
