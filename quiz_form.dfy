/**
 * The admin quiz editor: the form's initial values, the question-list
 * edits and the request body it sends. The form state is a class whose
 * `form` field each edit replaces, as `setFormData` does; the functions
 * beside the methods state what each edit produces.
 */
module QuizForm {
  import opened Wrappers
  import opened Refs
  import opened QuizModel

  /** One question as the form holds it: the difficulty is the select's text. */
  datatype FormQuestion = FormQuestion(question: string, options: seq<string>, correctAnswer: int, difficulty: string)

  /** The form's fields; the two dates are the text of the date-time inputs. */
  datatype FormData = FormData(
    title: string,
    description: string,
    category: string,
    entryFee: int,
    prizeAmount: int,
    maxParticipants: int,
    questions: seq<FormQuestion>,
    timeLimit: int,
    startDate: string,
    endDate: string,
    isActive: bool,
    image: string)

  const InitialForm: FormData :=
    FormData("", "", "Quiz", 0, 0, 100, [], 15, "", "", true, "")

  /** The question `addQuestion` appends: four empty options, the first one correct, medium. */
  const BlankQuestion: FormQuestion := FormQuestion("", ["", "", "", ""], 0, "medium")

  // ---------------------------------------------------------------------
  // The edits, as functions of the question list

  function WithBlankQuestion(qs: seq<FormQuestion>): (r: seq<FormQuestion>)
    ensures |r| == |qs| + 1 && r[|qs|] == BlankQuestion
    ensures forall i :: 0 <= i < |qs| ==> r[i] == qs[i]
  {
    qs + [BlankQuestion]
  }

  /** The three fields the editor binds through `updateQuestion(index, field, value)`. */
  datatype Field = QuestionText(text: string) | CorrectAnswer(option: int) | Level(level: string)

  /** The question with one field overwritten. */
  function SetField(q: FormQuestion, f: Field): (r: FormQuestion)
    ensures r.options == q.options
    ensures r.question == if f.QuestionText? then f.text else q.question
    ensures r.correctAnswer == if f.CorrectAnswer? then f.option else q.correctAnswer
    ensures r.difficulty == if f.Level? then f.level else q.difficulty
  {
    match f
    case QuestionText(text) => q.(question := text)
    case CorrectAnswer(option) => q.(correctAnswer := option)
    case Level(level) => q.(difficulty := level)
  }

  function WithField(qs: seq<FormQuestion>, index: nat, f: Field): (r: seq<FormQuestion>)
    requires index < |qs|
    ensures |r| == |qs| && r[index] == SetField(qs[index], f)
    ensures forall i :: 0 <= i < |qs| && i != index ==> r[i] == qs[i]
  {
    qs[index := SetField(qs[index], f)]
  }

  function WithOption(qs: seq<FormQuestion>, qi: nat, oi: nat, value: string): (r: seq<FormQuestion>)
    requires qi < |qs| && oi < |qs[qi].options|
    ensures |r| == |qs| && |r[qi].options| == |qs[qi].options| && r[qi].options[oi] == value
    ensures forall k :: 0 <= k < |qs[qi].options| && k != oi ==> r[qi].options[k] == qs[qi].options[k]
    ensures r[qi].question == qs[qi].question && r[qi].correctAnswer == qs[qi].correctAnswer
    ensures r[qi].difficulty == qs[qi].difficulty
    ensures forall i :: 0 <= i < |qs| && i != qi ==> r[i] == qs[i]
  {
    qs[qi := qs[qi].(options := qs[qi].options[oi := value])]
  }

  /** The list without the question at `index`; an index outside the list removes nothing. */
  function WithoutQuestion(qs: seq<FormQuestion>, index: int): (r: seq<FormQuestion>)
    ensures 0 <= index < |qs| ==> |r| == |qs| - 1
    ensures !(0 <= index < |qs|) ==> r == qs
    ensures 0 <= index < |qs| ==> forall i :: 0 <= i < |r| ==> r[i] == if i < index then qs[i] else qs[i + 1]
  {
    if 0 <= index < |qs| then qs[..index] + qs[index + 1..] else qs
  }

  /** Removing the question just added restores the list. */
  lemma RemoveUndoesAdd(qs: seq<FormQuestion>)
    ensures WithoutQuestion(WithBlankQuestion(qs), |qs|) == qs
  {
  }

  /** Writing back an option's previous text undoes an option edit. */
  lemma OptionEditReverts(qs: seq<FormQuestion>, qi: nat, oi: nat, value: string)
    requires qi < |qs| && oi < |qs[qi].options|
    ensures WithOption(WithOption(qs, qi, oi, value), qi, oi, qs[qi].options[oi]) == qs
  {
    var r := WithOption(WithOption(qs, qi, oi, value), qi, oi, qs[qi].options[oi]);
    assert r[qi].options == qs[qi].options;
    assert r[qi] == qs[qi];
  }

  /** The last write to a field wins. */
  lemma FieldEditsOverwrite(qs: seq<FormQuestion>, index: nat, f: Field, g: Field)
    requires index < |qs|
    requires f.QuestionText? == g.QuestionText? && f.CorrectAnswer? == g.CorrectAnswer?
    ensures WithField(WithField(qs, index, f), index, g) == WithField(qs, index, g)
  {
  }

  // ---------------------------------------------------------------------
  // The request body and what the schema makes of it

  function QuestionBody(q: FormQuestion): QuestionInput {
    QuestionInput(Some(q.question), q.options, Some(q.correctAnswer), Some(q.difficulty))
  }

  /**
   * The form's fields with both dates converted to timestamps; the
   * converted dates are parameters. The body carries no creator: the admin
   * route adds it.
   */
  function Body(f: FormData, startDate: int, endDate: int): (r: QuizInput)
    ensures r.createdBy.None? && r.currentParticipants.None?
    ensures r.questions.Some? && |r.questions.value| == |f.questions|
    ensures forall i :: 0 <= i < |f.questions| ==> r.questions.value[i] == QuestionBody(f.questions[i])
    ensures r.title == Some(f.title) && r.description == Some(f.description) && r.category == Some(f.category)
    ensures r.entryFee == Some(f.entryFee) && r.prizeAmount == Some(f.prizeAmount)
    ensures r.maxParticipants == Some(f.maxParticipants) && r.timeLimit == Some(f.timeLimit)
    ensures r.startDate == Some(startDate) && r.endDate == Some(endDate)
    ensures r.isActive == Some(f.isActive) && r.image == Some(f.image)
  {
    QuizInput(Some(f.title), Some(f.description), Some(f.category), Some(f.entryFee), Some(f.prizeAmount),
              Some(f.maxParticipants), None,
              Some(seq(|f.questions|, i requires 0 <= i < |f.questions| => QuestionBody(f.questions[i]))),
              Some(f.timeLimit), Some(startDate), Some(endDate), Some(f.isActive), Some(f.image), None)
  }

  /** A just-added question is refused by the schema until its text is written. */
  lemma BlankQuestionRejected()
    ensures InstantiateQuestion(QuestionBody(BlankQuestion)).None?
  {
  }

  /** Once its text and options are filled in, an added question is stored with the schema's defaults. */
  lemma FilledQuestionAccepted(text: string, options: seq<string>)
    requires text != "" && |options| == 4 && forall k :: 0 <= k < 4 ==> options[k] != ""
    ensures var q := BlankQuestion.(question := text, options := options);
            InstantiateQuestion(QuestionBody(q)) == Some(Question(text, options, 0, DefaultDifficulty))
  {
  }

  /**
   * The initial form, once given a title and a description, creates a quiz
   * with the schema's own defaults: category Quiz, no fee, no prize, 100
   * seats, 15 minutes, active, no questions.
   */
  lemma InitialFormCreates(title: string, description: string, startDate: int, endDate: int,
                           id: QuizId, admin: UserId)
    requires title != "" && Trimmed(title) && description != ""
    ensures var body := Body(InitialForm.(title := title, description := description), startDate, endDate);
            Instantiate(body.(createdBy := Some(admin)), id)
            == Some(Quiz(id, title, description, QuizCategory, 0, 0, 100, 0, [], DefaultTimeLimit,
                         startDate, endDate, true, "", [], [], admin))
  {
    TrimTrimmed(title);
    var body := Body(InitialForm.(title := title, description := description), startDate, endDate);
    assert body.questions == Some([]);
  }

  /** The untouched initial form is refused: the title is required. */
  lemma InitialFormNeedsTitle(startDate: int, endDate: int, id: QuizId, admin: UserId)
    ensures Instantiate(Body(InitialForm, startDate, endDate).(createdBy := Some(admin)), id).None?
  {
    assert Trim("") == "";
  }

  // ---------------------------------------------------------------------
  // The component state

  class Editor {
    var form: FormData

    /** A new quiz: the editor starts from the initial values. */
    constructor ()
      ensures form == InitialForm
    {
      form := InitialForm;
    }

    /** `addQuestion`. */
    method AddQuestion()
      modifies this
      ensures form == old(form).(questions := WithBlankQuestion(old(form).questions))
    {
      form := form.(questions := form.questions + [BlankQuestion]);
    }

    /** Editing one field of one question, as the question cards do. */
    method UpdateQuestion(index: nat, f: Field)
      requires index < |form.questions|
      modifies this
      ensures form == old(form).(questions := WithField(old(form).questions, index, f))
    {
      var updated := form.questions;
      updated := updated[index := SetField(updated[index], f)];
      form := form.(questions := updated);
    }

    /** Editing one option of one question. */
    method UpdateOption(qi: nat, oi: nat, value: string)
      requires qi < |form.questions| && oi < |form.questions[qi].options|
      modifies this
      ensures form == old(form).(questions := WithOption(old(form).questions, qi, oi, value))
    {
      var updated := form.questions;
      var q := updated[qi];
      updated := updated[qi := q.(options := q.options[oi := value])];
      form := form.(questions := updated);
    }

    /** `removeQuestion(index)`. */
    method RemoveQuestion(index: int)
      modifies this
      ensures form == old(form).(questions := WithoutQuestion(old(form).questions, index))
    {
      var kept: seq<FormQuestion> := [];
      var i := 0;
      while i < |form.questions|
        invariant 0 <= i <= |form.questions|
        invariant kept == WithoutQuestion(form.questions[..i], index)
      {
        if i != index {
          kept := kept + [form.questions[i]];
        }
        i := i + 1;
      }
      assert form.questions[..i] == form.questions;
      form := form.(questions := kept);
    }
  }
}
