/**
 * The decision and mapping logic of the quiz controller.
 *
 * Request binding, bean validation and message lookup belong to the web
 * framework: a handler receives the bound form as a value, the validation
 * outcome as `hasErrors`, and puts message KEYS (not localized text) into the
 * model. The Spring `Model` and `RedirectAttributes` are classes whose one
 * field is the map of attributes the handlers add to.
 */
module Controller {
  import opened Optional
  import opened Entity
  import opened Service
  import opened JavaText

  /** The form-backing bean; `id` and `newQuiz` may be null. */
  datatype QuizForm = QuizForm(id: Option<int>, question: string, answer: bool, author: string, newQuiz: Option<bool>)

  /** A value placed in the model or carried as a flash attribute. */
  datatype Attribute = Form(form: QuizForm) | QuizList(list: seq<Quiz>) | Message(key: string)

  const CrudView := "crud"
  const PlayView := "play"
  const AnswerView := "answer"
  const ListRedirect := "redirect:/quiz"

  const TitleInput := "title.input"
  const TitleUpdate := "title.update"
  const NoListMsg := "no.list.msg"
  const NoQuizMsg := "no.quiz.msg"
  const CorrectMsg := "correct.msg"
  const IncorrectMsg := "incorrect.msg"
  const CompleteInputMsg := "complete.input.msg"
  const CompleteUpdateMsg := "complete.update.msg"
  const CompleteDeleteMsg := "complete.delete.msg"

  /** Spring's Model: attributes the view is rendered with. */
  class Model {
    var attributes: map<string, Attribute>

    constructor ()
      ensures attributes == map[]
    {
      attributes := map[];
    }

    method AddAttribute(name: string, value: Attribute)
      modifies this
      ensures attributes == old(attributes)[name := value]
    {
      attributes := attributes[name := value];
    }
  }

  /** Spring's RedirectAttributes: flash attributes carried across a redirect. */
  class RedirectAttributes {
    var flash: map<string, Attribute>

    constructor ()
      ensures flash == map[]
    {
      flash := map[];
    }

    method AddFlashAttribute(name: string, value: Attribute)
      modifies this
      ensures flash == old(flash)[name := value]
    {
      flash := flash[name := value];
    }
  }

  /** setUpForm: a fresh form whose radio button defaults to true. */
  function SetUpForm(): (form: QuizForm)
    ensures form.answer
    ensures form.id.None? && form.newQuiz.None?
  {
    QuizForm(None, "", true, "", None)
  }

  /** makeQuiz: the entity a form describes, field for field. */
  function MakeQuiz(form: QuizForm): (quiz: Quiz)
    ensures quiz.id == form.id
    ensures quiz.question == form.question && quiz.answer == form.answer && quiz.author == form.author
  {
    Quiz(form.id, form.question, form.answer, form.author)
  }

  /** makeQuizForm: the form showing an entity; its `newQuiz` flag is left unset. */
  function MakeQuizForm(quiz: Quiz): (form: QuizForm)
    ensures form.id == quiz.id
    ensures form.question == quiz.question && form.answer == quiz.answer && form.author == quiz.author
    ensures form.newQuiz.None?
  {
    QuizForm(quiz.id, quiz.question, quiz.answer, quiz.author, None)
  }

  /** Showing a quiz in a form and reading the form back gives the quiz. */
  lemma MakeQuizUndoesMakeQuizForm(quiz: Quiz)
    ensures MakeQuiz(MakeQuizForm(quiz)) == quiz
  {
  }

  /** Reading a form as a quiz and showing it again loses only the `newQuiz` flag. */
  lemma MakeQuizFormUndoesMakeQuiz(form: QuizForm)
    ensures MakeQuizForm(MakeQuiz(form)) == form.(newQuiz := None)
  {
  }

  /** The entity insert builds: the form's fields, with no id whatever the form carries. */
  function NewQuiz(form: QuizForm): (quiz: Quiz)
    ensures quiz.id.None?
    ensures quiz == MakeQuiz(form).(id := None)
  {
    Quiz(None, form.question, form.answer, form.author)
  }

  /**
   * The form the update page shows: the stored quiz when there is one, the
   * submitted form otherwise; in both cases marked as not new.
   */
  function UpdateForm(stored: Option<Quiz>, submitted: QuizForm): (shown: QuizForm)
    ensures shown.newQuiz == Some(false)
    ensures stored.Some? ==> MakeQuiz(shown) == stored.value
    ensures stored.None? ==> shown == submitted.(newQuiz := Some(false))
  {
    match stored
    case Some(quiz) => MakeQuizForm(quiz).(newQuiz := Some(false))
    case None => submitted.(newQuiz := Some(false))
  }

  /** The message key the answer page shows. */
  function AnswerMessage(correct: bool): (key: string)
    ensures key == CorrectMsg || key == IncorrectMsg
    ensures key == CorrectMsg <==> correct
  {
    if correct then CorrectMsg else IncorrectMsg
  }

  /** Where a successful update redirects: the edit page of the updated id. */
  function UpdateRedirect(id: Option<int>): (view: string)
    ensures |view| > |"redirect:/quiz/"| && view[..|"redirect:/quiz/"|] == "redirect:/quiz/"
  {
    "redirect:/quiz/" + IntegerText(id)
  }

  /** Two updates that redirect to the same page updated the same id. */
  lemma {:induction false} UpdateRedirectNamesItsQuiz(a: Option<int>, b: Option<int>)
    requires UpdateRedirect(a) == UpdateRedirect(b)
    ensures a == b
  {
    var prefix := "redirect:/quiz/";
    assert UpdateRedirect(a)[|prefix|..] == IntegerText(a);
    assert UpdateRedirect(b)[|prefix|..] == IntegerText(b);
    IntegerTextInjective(a, b);
  }

  /** The attributes of the list page, added to those already in the model. */
  function ListPage(attributes: map<string, Attribute>, list: seq<Quiz>): (page: map<string, Attribute>)
    ensures page.Keys == attributes.Keys + {"list", "title", "noListMsg"}
    ensures page["list"] == QuizList(list)
    ensures page["title"] == Message(TitleInput) && page["noListMsg"] == Message(NoListMsg)
    ensures forall name :: name in attributes && name !in {"list", "title", "noListMsg"} ==> page[name] == attributes[name]
  {
    attributes["list" := QuizList(list)]["title" := Message(TitleInput)]["noListMsg" := Message(NoListMsg)]
  }

  /** The attributes of the update page, added to those already in the model. */
  function UpdatePage(attributes: map<string, Attribute>, form: QuizForm): (page: map<string, Attribute>)
    ensures page.Keys == attributes.Keys + {"quizForm", "title"}
    ensures page["quizForm"] == Form(form) && page["title"] == Message(TitleUpdate)
    ensures forall name :: name in attributes && name !in {"quizForm", "title"} ==> page[name] == attributes[name]
  {
    attributes["quizForm" := Form(form)]["title" := Message(TitleUpdate)]
  }

  class QuizController {
    const service: QuizServiceImpl

    /** Wires the controller to the quiz service. */
    constructor (service: QuizServiceImpl)
      ensures this.service == service
    {
      this.service := service;
    }

    /**
     * showList: marks the bound form as a new quiz and lists every stored quiz.
     * `form` is the bound form as the handler leaves it; the framework shows it
     * under "quizForm".
     */
    method ShowList(quizForm: QuizForm, model: Model) returns (view: string, form: QuizForm)
      modifies model
      ensures view == CrudView
      ensures form == quizForm.(newQuiz := Some(true))
      ensures model.attributes == ListPage(old(model.attributes), FindAll(old(service.store)))
    {
      form := quizForm.(newQuiz := Some(true));
      var list := service.SelectAll();
      model.AddAttribute("list", QuizList(list));
      model.AddAttribute("title", Message(TitleInput));
      model.AddAttribute("noListMsg", Message(NoListMsg));
      view := CrudView;
    }

    /**
     * insert: without binding errors, stores the form's quiz under a fresh id
     * (ignoring any id the form carries) and redirects to the list; with
     * errors, stores nothing and shows the list page.
     */
    method Insert(quizForm: QuizForm, hasErrors: bool, model: Model, redirectAttributes: RedirectAttributes)
      returns (view: string, form: QuizForm)
      requires service.Valid()
      modifies service, model, redirectAttributes
      ensures service.Valid()
      ensures !hasErrors ==>
        && view == ListRedirect
        && form == quizForm
        && AddedUnderFreshId(old(service.store), service.store, NewQuiz(quizForm))
        && model.attributes == old(model.attributes)
        && redirectAttributes.flash == old(redirectAttributes.flash)["complete" := Message(CompleteInputMsg)]
      ensures hasErrors ==>
        && view == CrudView
        && form == quizForm.(newQuiz := Some(true))
        && service.store == old(service.store)
        && model.attributes == ListPage(old(model.attributes), FindAll(old(service.store)))
        && redirectAttributes.flash == old(redirectAttributes.flash)
    {
      var quiz := NewQuiz(quizForm);
      if !hasErrors {
        service.InsertQuiz(quiz);
        redirectAttributes.AddFlashAttribute("complete", Message(CompleteInputMsg));
        view, form := ListRedirect, quizForm;
      } else {
        view, form := ShowList(quizForm, model);
      }
    }

    /**
     * showUpdate: the update page for `id`, showing the stored quiz if there
     * is one and the submitted form otherwise.
     */
    method ShowUpdate(quizForm: QuizForm, id: int, model: Model) returns (view: string)
      requires service.Valid()
      modifies model
      ensures view == CrudView
      ensures model.attributes == UpdatePage(old(model.attributes), UpdateForm(FindById(service.store, id), quizForm))
    {
      var form := quizForm;
      var quizOpt := service.SelectOneById(id);
      var quizFormOpt := match quizOpt
        case Some(quiz) => Some(MakeQuizForm(quiz))
        case None => None;
      if quizFormOpt.Some? {
        form := quizFormOpt.value;
      }
      form := MakeUpdateModel(form, model);
      view := CrudView;
    }

    /** makeUpdateModel: marks the form as not new and shows it with the update title. */
    method MakeUpdateModel(quizForm: QuizForm, model: Model) returns (form: QuizForm)
      modifies model
      ensures form == quizForm.(newQuiz := Some(false))
      ensures model.attributes == UpdatePage(old(model.attributes), form)
    {
      form := quizForm.(newQuiz := Some(false));
      model.AddAttribute("quizForm", Form(form));
      model.AddAttribute("title", Message(TitleUpdate));
    }

    /**
     * update: without binding errors, saves the form's quiz under its id and
     * redirects to that id's page; with errors, saves nothing and shows the
     * submitted form on the update page.
     */
    method Update(quizForm: QuizForm, hasErrors: bool, model: Model, redirectAttributes: RedirectAttributes)
      returns (view: string)
      requires service.Valid()
      requires !hasErrors && quizForm.id.Some? ==> quizForm.id.value in service.store
      modifies service, model, redirectAttributes
      ensures service.Valid()
      ensures !hasErrors ==>
        && view == UpdateRedirect(quizForm.id)
        && (quizForm.id.Some? ==> service.store == old(service.store)[quizForm.id.value := MakeQuiz(quizForm)])
        && (quizForm.id.None? ==> AddedUnderFreshId(old(service.store), service.store, MakeQuiz(quizForm)))
        && model.attributes == old(model.attributes)
        && redirectAttributes.flash == old(redirectAttributes.flash)["complete" := Message(CompleteUpdateMsg)]
      ensures hasErrors ==>
        && view == CrudView
        && service.store == old(service.store)
        && model.attributes == UpdatePage(old(model.attributes), quizForm.(newQuiz := Some(false)))
        && redirectAttributes.flash == old(redirectAttributes.flash)
    {
      var quiz := MakeQuiz(quizForm);
      if !hasErrors {
        service.UpdateQuiz(quiz);
        redirectAttributes.AddFlashAttribute("complete", Message(CompleteUpdateMsg));
        view := UpdateRedirect(quiz.id);
      } else {
        var _ := MakeUpdateModel(quizForm, model);
        view := CrudView;
      }
    }

    /** delete: removes the quiz under `id`, if any, and redirects to the list. */
    method Delete(id: int, model: Model, redirectAttributes: RedirectAttributes) returns (view: string)
      requires service.Valid()
      modifies service, redirectAttributes
      ensures service.Valid()
      ensures view == ListRedirect
      ensures service.store == old(service.store) - {id}
      ensures redirectAttributes.flash == old(redirectAttributes.flash)["delcomplete" := Message(CompleteDeleteMsg)]
    {
      service.DeleteQuizById(id);
      redirectAttributes.AddFlashAttribute("delcomplete", Message(CompleteDeleteMsg));
      view := ListRedirect;
    }

    /**
     * showQuiz: the play page with a randomly drawn stored quiz, or with the
     * no-quiz message when the store is empty.
     */
    method ShowQuiz(quizForm: QuizForm, model: Model) returns (view: string)
      requires service.Valid()
      modifies model
      ensures view == PlayView
      ensures |service.store| == 0 ==> model.attributes == old(model.attributes)["msg" := Message(NoQuizMsg)]
      ensures |service.store| > 0 ==>
        exists q :: q in service.store.Values && model.attributes == old(model.attributes)["quizForm" := Form(MakeQuizForm(q))]
    {
      var form := quizForm;
      var quizOpt := service.SelectOneRandomQuiz();
      if quizOpt.Some? {
        form := MakeQuizForm(quizOpt.value);
      } else {
        model.AddAttribute("msg", Message(NoQuizMsg));
        return PlayView;
      }
      model.AddAttribute("quizForm", Form(form));
      view := PlayView;
    }

    /**
     * checkQuiz: the answer page, with the correct-answer message exactly when
     * the quiz under the form's id exists and its answer is `answer`.
     */
    method CheckQuiz(quizForm: QuizForm, answer: bool, model: Model) returns (view: string)
      requires quizForm.id.Some?
      modifies model
      ensures view == AnswerView
      ensures model.attributes == old(model.attributes)["msg" := Message(AnswerMessage(
        quizForm.id.value in service.store && service.store[quizForm.id.value].answer == answer))]
    {
      var correct := service.CheckQuiz(quizForm.id.value, answer);
      if correct {
        model.AddAttribute("msg", Message(CorrectMsg));
      } else {
        model.AddAttribute("msg", Message(IncorrectMsg));
      }
      view := AnswerView;
    }
  }

  /** The value the model holds under `name`, if any. */
  function AttributeOf(model: Model, name: string): Option<Attribute>
    reads model
  {
    if name in model.attributes then Some(model.attributes[name]) else None
  }

  /**
   * Against a store seeded with quiz 5 (answer true): answering true is graded
   * correct and false incorrect; updating quiz 5 redirects to its page, which
   * then shows the updated fields in a form that is not new.
   */
  method UpdateAndCheckScenario()
    returns (right: Option<Attribute>, wrong: Option<Attribute>, redirect: string, shown: Option<Attribute>)
    ensures right == Some(Message(CorrectMsg)) && wrong == Some(Message(IncorrectMsg))
    ensures redirect == "redirect:/quiz/5"
    ensures shown == Some(Form(QuizForm(Some(5), "Quiz 1 updated", false, "Quiz Taro updated", Some(false))))
  {
    var service := new QuizServiceImpl(map[5 := Quiz(Some(5), "Quiz 1", true, "Quiz Taro")]);
    var controller := new QuizController(service);
    var model := new Model();
    var view := controller.CheckQuiz(SetUpForm().(id := Some(5)), true, model);
    right := AttributeOf(model, "msg");
    view := controller.CheckQuiz(SetUpForm().(id := Some(5)), false, model);
    wrong := AttributeOf(model, "msg");

    var submitted := QuizForm(Some(5), "Quiz 1 updated", false, "Quiz Taro updated", None);
    var redirectAttributes := new RedirectAttributes();
    redirect := controller.Update(submitted, false, model, redirectAttributes);
    assert Digits(5) == "5";

    model := new Model();
    view := controller.ShowUpdate(SetUpForm(), 5, model);
    shown := AttributeOf(model, "quizForm");
  }
}
