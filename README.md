# Quiz service and controller, modelled in Dafny

This project models the core of a small Spring quiz application. Users list, create, update and delete true/false quizzes. They can also play: the app draws a random quiz and grades a submitted answer.

- `optional.dfy` (`Optional`): Java's `Optional` and nullable references, as `Option`.
- `entity.dfy` (`Entity`): the `Quiz` entity (id, question, answer, author). The id is `None` until the store assigns one.
- `service.dfy` (`Service`): the repository as a keyed store `map<int, Quiz>`.
  - `FindAll`, `FindById` and `Save` stand for the repository's `findAll`, `findById` and `save`. Deletion is map subtraction.
  - `QuizServiceImpl` is a class whose single field is that store. Its invariant `Valid()` says every row carries the id it is stored under.
  - The write operations (`InsertQuiz`, `UpdateQuiz`, `DeleteQuizById`) are methods that state the whole new store. The reads are functions, or methods without a `modifies` clause, so they cannot change the store.
- `javatext.dfy` (`JavaText`): how Java renders a possibly-null `Integer` in string concatenation. The controller's update redirect is built this way.
- `controller.dfy` (`Controller`): the controller's decision and mapping logic.
  - `QuizForm` is the form-backing bean. Its `id` and `newQuiz` are optional.
  - `MakeQuiz` and `MakeQuizForm` are the field copies between form and entity.
  - `Model` and `RedirectAttributes` are classes holding Spring's attribute maps.
  - `QuizController` has one method per handler. The validation outcome is a boolean `hasErrors`. Messages are their keys (`"correct.msg"`). View names are strings.

## Model

| member | source | states |
|---|---|---|
| `Service.FindAll` | src/main/java/com/example/quiz/repository/QuizRepository.java:7 | findAll lists every stored row exactly once and nothing else: the listing has as many entries as the store has rows, and a quiz is listed iff it is stored |
| `Service.Least` | src/main/java/com/example/quiz/repository/QuizRepository.java:7 | the id `FindAll` lists next: a member of the remaining ids no greater than any of them, so rows come out by ascending id |
| `Service.FindById` | src/main/java/com/example/quiz/repository/QuizRepository.java:7 | findById is present iff a row is stored under the id; it is that row, and in a well-keyed store its id is the id asked for |
| `Service.IdAboveAll` | src/main/java/com/example/quiz/repository/QuizRepository.java:7 | some integer exceeds every stored id, so save can always assign a fresh one |
| `Service.StoredRowIsKeyed` | src/main/java/com/example/quiz/entity/Quiz.java:12-22 | in a well-keyed store, any stored quiz has an id and is the row stored under that id |
| `Service.QuizServiceImpl.SelectAll` | src/main/java/com/example/quiz/service/QuizServiceImpl.java:19-22 | selectAll returns every stored quiz once and nothing else; as a function it only reads the store |
| `Service.QuizServiceImpl.SelectOneById` | src/main/java/com/example/quiz/service/QuizServiceImpl.java:24-27 | selectOneById is present iff a quiz is stored under the id; it returns that quiz, which carries the id; it only reads |
| `Service.QuizServiceImpl.SelectOneRandomQuiz` | src/main/java/com/example/quiz/service/QuizServiceImpl.java:29-44 | empty iff the store is empty; otherwise a stored quiz, drawn at an index in [0, size) of the list copied from findAll, and it is the row under its own id; the store is not modified |
| `Service.QuizServiceImpl.CheckQuiz` | src/main/java/com/example/quiz/service/QuizServiceImpl.java:46-64 | true iff a quiz is stored under the id and its answer equals the given one, so a missing quiz gives false; the store is not modified |
| `Service.QuizServiceImpl.Save` | src/main/java/com/example/quiz/repository/QuizRepository.java:7 | save of a quiz without an id adds exactly one row, under an id not previously stored, with the given fields; save of a stored id replaces that row whole; all other rows are unchanged |
| `Service.QuizServiceImpl.InsertQuiz` | src/main/java/com/example/quiz/service/QuizServiceImpl.java:66-69 | a quiz without an id gains one row under a fresh id with its question, answer and author; nothing else changes; the invariant is kept |
| `Service.QuizServiceImpl.UpdateQuiz` | src/main/java/com/example/quiz/service/QuizServiceImpl.java:71-74 | the row under the quiz's (stored) id is replaced by the quiz, all three fields included; every other row is unchanged |
| `Service.QuizServiceImpl.DeleteQuizById` | src/main/java/com/example/quiz/service/QuizServiceImpl.java:76-79 | the id is absent afterwards and every other row is unchanged; deleting a missing id changes nothing |
| `Service.DeleteIsIdempotent` | src/main/java/com/example/quiz/service/QuizServiceImpl.java:76-79 | deleting an id twice equals deleting it once, and other rows are found as before |
| `Service.DeletingLastRowEmptiesStore` | src/main/java/com/example/quiz/service/QuizServiceImpl.java:76-79 | deleting the only row leaves findAll nothing to list, so the random draw is empty |
| `Service.InsertedRowIsFound` | src/main/java/com/example/quiz/service/QuizServiceImpl.java:66-69 | after inserting under a fresh id, findById of that id returns the quiz with that id, other ids are found as before, and the store stays well keyed |
| `Service.FreshInsertAddsOneRow` | src/main/java/com/example/quiz/service/QuizServiceImpl.java:66-69 | an insert under a fresh id keeps the store well keyed, grows it by exactly one row, finds every old id as before, and findAll then lists the inserted quiz under an id that was not stored |
| `Service.RandomDrawScenario` | src/test/java/com/example/quiz/service/QuizServiceImplTest.java:31-53 | deleting the one seeded quiz makes the draw empty; after inserting one quiz the draw returns it with its assigned id |
| `Service.CrudScenario` | src/test/java/com/example/quiz/controller/QuizControllerTest.java:182-225 | insert, list, update the same id, fetch, delete, fetch: the list holds the inserted quiz with an id, the fetch after the update sees all three fields replaced, the fetch after the delete is empty |
| `JavaText.Digits` | src/main/java/com/example/quiz/controller/QuizController.java:109 | an integer's decimal text is a non-empty string of digits |
| `JavaText.DigitsValueOfDigits` | src/main/java/com/example/quiz/controller/QuizController.java:109 | reading the decimal digits back gives the number they were rendered from |
| `JavaText.IntText` | src/main/java/com/example/quiz/controller/QuizController.java:109 | the text of an integer starts with '-' iff the integer is negative, followed by the digits of its magnitude |
| `JavaText.IntegerText` | src/main/java/com/example/quiz/controller/QuizController.java:109 | a null id renders as "null", and only a null id does |
| `JavaText.IntegerTextInjective` | src/main/java/com/example/quiz/controller/QuizController.java:109 | two ids that render to the same text are the same id |
| `Controller.SetUpForm` | src/main/java/com/example/quiz/controller/QuizController.java:31-36 | the default form has answer true, and no id and no newQuiz flag yet |
| `Controller.MakeQuiz` | src/main/java/com/example/quiz/controller/QuizController.java:119-127 | the entity carries the form's id, question, answer and author unchanged |
| `Controller.MakeQuizForm` | src/main/java/com/example/quiz/controller/QuizController.java:130-138 | the form carries the entity's four fields unchanged and leaves newQuiz unset |
| `Controller.MakeQuizUndoesMakeQuizForm` | src/main/java/com/example/quiz/controller/QuizController.java:119-138 | round trip: makeQuiz(makeQuizForm(q)) == q for every quiz |
| `Controller.MakeQuizFormUndoesMakeQuiz` | src/main/java/com/example/quiz/controller/QuizController.java:119-138 | the other way round, only the newQuiz flag is lost |
| `Controller.NewQuiz` | src/main/java/com/example/quiz/controller/QuizController.java:57-60 | the entity insert builds has no id, whatever id the form carries, and otherwise equals makeQuiz of the form |
| `Controller.UpdateForm` | src/main/java/com/example/quiz/controller/QuizController.java:77-83 | the update page shows the stored quiz (reading it back gives that quiz) when the id exists, the submitted form unchanged otherwise; in both cases newQuiz is false |
| `Controller.AnswerMessage` | src/main/java/com/example/quiz/controller/QuizController.java:174-178 | the answer page's message is the correct-answer key iff the answer was correct, and otherwise the incorrect-answer key |
| `Controller.UpdateRedirect` | src/main/java/com/example/quiz/controller/QuizController.java:109 | a successful update redirects to a page under "redirect:/quiz/" |
| `Controller.UpdateRedirectNamesItsQuiz` | src/main/java/com/example/quiz/controller/QuizController.java:109 | two updates that redirect to the same page updated the same id |
| `Controller.ListPage` | src/main/java/com/example/quiz/controller/QuizController.java:44-48 | the list page adds "list", "title" and "noListMsg" to the model and keeps every other attribute |
| `Controller.UpdatePage` | src/main/java/com/example/quiz/controller/QuizController.java:91-95 | the update page adds "quizForm" and "title" to the model and keeps every other attribute |
| `Controller.QuizController.ShowList` | src/main/java/com/example/quiz/controller/QuizController.java:39-50 | the bound form becomes a new-quiz form, the model gains the full listing with the input title, and the view is "crud" |
| `Controller.QuizController.Insert` | src/main/java/com/example/quiz/controller/QuizController.java:52-71 | without errors: one row added under a fresh id with the form's fields (its id ignored), a completion flash, view "redirect:/quiz", model untouched; with errors: store and flash untouched, and exactly what showList does |
| `Controller.QuizController.ShowUpdate` | src/main/java/com/example/quiz/controller/QuizController.java:73-88 | the update page shows the stored quiz as a form if the id exists, the submitted form otherwise, with newQuiz false; view "crud" |
| `Controller.QuizController.MakeUpdateModel` | src/main/java/com/example/quiz/controller/QuizController.java:90-95 | the form's newQuiz becomes false and the model gains it with the update title |
| `Controller.QuizController.Update` | src/main/java/com/example/quiz/controller/QuizController.java:97-116 | without errors: the row under the form's id is replaced by makeQuiz(form), a completion flash, redirect to "/quiz/" + id; with errors: store and flash untouched, the submitted form shown on the update page with newQuiz false, view "crud" |
| `Controller.QuizController.Delete` | src/main/java/com/example/quiz/controller/QuizController.java:140-149 | the id is removed from the store, a deletion flash, view "redirect:/quiz" |
| `Controller.QuizController.ShowQuiz` | src/main/java/com/example/quiz/controller/QuizController.java:151-169 | on an empty store the model gains the no-quiz message; otherwise it gains a stored quiz as a form; view "play" either way |
| `Controller.QuizController.CheckQuiz` | src/main/java/com/example/quiz/controller/QuizController.java:171-181 | view "answer"; the message is the correct-answer key exactly when the service's checkQuiz is true, the incorrect-answer key otherwise; the store is not modified |
| `Controller.UpdateAndCheckScenario` | src/test/java/com/example/quiz/controller/QuizControllerTest.java:306-316 | on a store seeded with quiz 5 (answer true), answering true gives the correct message and false the incorrect one; updating quiz 5 redirects to "redirect:/quiz/5", whose page then shows the updated fields with newQuiz false |

## Left out

- HTTP routing, request binding and `@Validated` bean validation: the validation outcome is the parameter `hasErrors`. Binding is the form value handed to a handler.
- `MessageSource` lookup with `Locale`: the model and flash attributes hold message keys, not localized text.
- Spring puts the bound form in the model under "quizForm" on its own. `ShowList` and `Insert` return the form as they leave it instead of writing it into the model.
- `@Transactional`: every service call is one atomic step of the model. Rollback, concurrency and storage failures are not modelled.
- `java.util.Random`: the drawn index is a nondeterministic choice in [0, size). The model makes no claim about the distribution.
- SQL id generation: a fresh id is a nondeterministic choice of an integer not yet stored. The model does not claim the ids grow.
- Listing order: findAll's order is storage-defined. The model lists rows by ascending id.
- Service.QuizServiceImpl.Save: save of an id that is not in the store is library-defined. `Save`, `InsertQuiz` and `UpdateQuiz` require such an id to be stored. `QuizController.Update` requires it too, when there are no binding errors.
- Controller.QuizController.CheckQuiz: requires the form to carry an id. With a null id the repository's `findById` throws, and the model does not capture that exception.
- Controller.QuizController.Delete: takes the id as an `int`. The `Integer.parseInt` of the request parameter, and its `NumberFormatException`, are not modelled.
- Null fields: a stored answer is a non-null `bool`, so the `NullPointerException` that `checkQuiz` would raise on a null answer is not modelled. The unset question and author of a fresh form are modelled as "".
- Integer width: ids are unbounded `int`s. 32-bit overflow of `Integer` is not modelled.
- The service interface `QuizService`, the `QuizForm` class and the application entry point are not part of this model. `QuizForm`'s shape follows its five-argument constructor in the controller test.
