/**
 * The quiz service and the repository it wraps.
 *
 * The repository is a keyed store of quiz rows. Its `findAll`, `findById`,
 * `save` and `deleteById` are written here as functions on a `Store` (or, for
 * `save`, whose id choice is not a function of the store, as a method); the
 * service is a class whose single field is that store.
 */
module Service {
  import opened Optional
  import opened Entity

  /** The quiz table: rows keyed by their id. */
  type Store = map<int, Quiz>

  /** Every row carries the id it is stored under. */
  predicate WellKeyed(store: Store)
  {
    forall k :: k in store ==> store[k].id == Some(k)
  }

  /** A non-empty set of ids has a member to pick. */
  lemma NonEmptyHasId(ids: set<int>)
    requires ids != {}
    ensures exists y :: y in ids
  {
    if forall y :: y !in ids {
      assert false;
    }
  }

  /** `m` is the least id of `ids`. */
  predicate IsLeast(m: int, ids: set<int>)
  {
    m in ids && forall j :: j in ids ==> m <= j
  }

  /** A non-empty finite set of ids has a least element. */
  lemma {:induction false} LeastIdExists(ids: set<int>)
    requires ids != {}
    ensures exists m :: IsLeast(m, ids)
    decreases ids
  {
    NonEmptyHasId(ids);
    var x :| x in ids;
    var rest := ids - {x};
    assert forall j :: j in ids ==> j == x || j in rest;
    if rest == {} {
      assert IsLeast(x, ids);
    } else {
      LeastIdExists(rest);
      var m :| IsLeast(m, rest);
      var least := if x < m then x else m;
      assert IsLeast(least, ids);
    }
  }

  /** The least id of a non-empty set. */
  function Least(ids: set<int>): (m: int)
    requires ids != {}
    ensures IsLeast(m, ids)
  {
    LeastIdExists(ids);
    var m :| IsLeast(m, ids);
    m
  }

  /** Some integer exceeds every stored id, so `save` can always find a fresh one. */
  lemma {:induction false} IdAboveAll(ids: set<int>) returns (bound: int)
    ensures forall j :: j in ids ==> j < bound
    decreases ids
  {
    if ids == {} {
      bound := 0;
    } else {
      NonEmptyHasId(ids);
      var x :| x in ids;
      var below := IdAboveAll(ids - {x});
      bound := if below > x then below else x + 1;
      forall j | j in ids
        ensures j < bound
      {
        if j != x {
          assert j in ids - {x};
        }
      }
    }
  }

  /**
   * The repository's findAll: every stored row exactly once. The table's own
   * order is storage-defined; this model lists rows by ascending id.
   */
  function FindAll(store: Store): (list: seq<Quiz>)
    ensures |list| == |store|
    ensures forall q :: q in list <==> q in store.Values
    decreases |store|
  {
    if store == map[] then []
    else
      var m := Least(store.Keys);
      var rest := store - {m};
      assert |rest| == |store| - 1 by {
        assert rest.Keys == store.Keys - {m};
      }
      assert forall q :: q in store.Values <==> q == store[m] || q in rest.Values by {
        forall q
          ensures q in store.Values <==> q == store[m] || q in rest.Values
        {
          if q in store.Values {
            if forall k :: k in store ==> store[k] != q {
              assert false;
            }
            var k :| k in store && store[k] == q;
            if k != m {
              assert rest[k] == q;
            }
          }
        }
      }
      [store[m]] + FindAll(rest)
  }

  /** The repository's findById: the row stored under `id`, if any. */
  function FindById(store: Store, id: int): (r: Option<Quiz>)
    ensures r.Some? <==> id in store
    ensures r.Some? ==> r.value == store[id]
    ensures WellKeyed(store) && r.Some? ==> r.value.id == Some(id)
  {
    if id in store then Some(store[id]) else None
  }

  /** Deleting an id twice leaves the same store as deleting it once, and other rows stay. */
  lemma DeleteIsIdempotent(store: Store, id: int)
    ensures (store - {id}) - {id} == store - {id}
    ensures forall k :: k != id ==> FindById(store - {id}, k) == FindById(store, k)
  {
  }

  /** Deleting the only row leaves nothing for findAll to list. */
  lemma DeletingLastRowEmptiesStore(store: Store, id: int)
    requires store.Keys == {id}
    ensures FindAll(store - {id}) == []
  {
  }

  /** `after` is `before` plus `quiz` stored under an id `before` does not use. */
  ghost predicate AddedUnderFreshId(before: Store, after: Store, quiz: Quiz)
  {
    exists k :: k !in before && after == before[k := quiz.(id := Some(k))]
  }

  /** A row inserted under a fresh id is found under that id, and nothing else moves. */
  lemma InsertedRowIsFound(store: Store, quiz: Quiz, k: int)
    requires WellKeyed(store) && k !in store
    ensures WellKeyed(store[k := quiz.(id := Some(k))])
    ensures FindById(store[k := quiz.(id := Some(k))], k) == Some(quiz.(id := Some(k)))
    ensures forall j :: j != k ==> FindById(store[k := quiz.(id := Some(k))], j) == FindById(store, j)
  {
  }

  /**
   * An insert under a fresh id keeps the store well keyed, grows it by exactly
   * one row, leaves every old row where it was, and findAll then lists the
   * inserted quiz with its assigned id.
   */
  lemma FreshInsertAddsOneRow(before: Store, after: Store, quiz: Quiz)
    requires WellKeyed(before) && AddedUnderFreshId(before, after, quiz)
    ensures WellKeyed(after)
    ensures |after| == |before| + 1
    ensures forall id :: id in before ==> FindById(after, id) == FindById(before, id)
    ensures exists q :: q in FindAll(after) && q.id.Some? && q.id.value !in before && q == quiz.(id := q.id)
  {
  }

  /** In a well-keyed store, a row held anywhere in the store is the row under its own id. */
  lemma {:induction false} StoredRowIsKeyed(store: Store, q: Quiz)
    requires WellKeyed(store) && q in store.Values
    ensures q.id.Some? && q.id.value in store && store[q.id.value] == q
  {
    if forall k :: k in store ==> store[k] != q {
      assert false;
    }
    var k :| k in store && store[k] == q;
    assert store[k].id == Some(k);
  }

  class QuizServiceImpl {
    /** Stands in for the injected QuizRepository. */
    var store: Store

    ghost predicate Valid()
      reads this
    {
      WellKeyed(store)
    }

    /** Wires the service to a repository holding `rows`. */
    constructor (rows: Store)
      requires WellKeyed(rows)
      ensures Valid() && store == rows
    {
      store := rows;
    }

    /** selectAll: every stored quiz, each once; reading changes nothing. */
    function SelectAll(): (list: seq<Quiz>)
      reads this
      ensures |list| == |store|
      ensures forall q :: q in list <==> q in store.Values
    {
      FindAll(store)
    }

    /** selectOneById: the quiz stored under `id`, or None when there is none. */
    function SelectOneById(id: int): (r: Option<Quiz>)
      reads this
      ensures r.Some? <==> id in store
      ensures r.Some? ==> r.value == store[id]
      ensures Valid() && r.Some? ==> r.value.id == Some(id)
    {
      FindById(store, id)
    }

    /**
     * selectOneRandomQuiz: None on an empty store, otherwise a stored quiz
     * drawn at some index of the full listing. The pseudo-random draw is a
     * nondeterministic choice in [0, size).
     */
    method SelectOneRandomQuiz() returns (r: Option<Quiz>)
      requires Valid()
      ensures r.None? <==> |store| == 0
      ensures r.Some? ==> r.value in store.Values
      ensures r.Some? ==> r.value.id.Some? && SelectOneById(r.value.id.value) == r
    {
      var quizList: seq<Quiz> := [];
      var quizzes := FindAll(store);
      if |quizzes| == 0 {
        return None;
      }
      for i := 0 to |quizzes|
        invariant quizList == quizzes[..i]
      {
        quizList := quizList + [quizzes[i]];
      }
      var pseudoRandomNum :| 0 <= pseudoRandomNum < |quizList|;
      r := Some(quizList[pseudoRandomNum]);
      StoredRowIsKeyed(store, r.value);
    }

    /**
     * checkQuiz: true exactly when a quiz is stored under `id` and its answer
     * is `myAnswer`; a missing quiz and a wrong answer both give false.
     */
    method CheckQuiz(id: int, myAnswer: bool) returns (check: bool)
      ensures check <==> id in store && store[id].answer == myAnswer
    {
      check := false;
      var optQuiz := FindById(store, id);
      if optQuiz.Some? {
        var quiz := optQuiz.value;
        if quiz.answer == myAnswer {
          check := true;
        }
      }
    }

    /**
     * The repository's save: a quiz without an id is stored under a fresh id
     * of the store's choosing; a quiz with an id replaces the row under it.
     */
    method Save(quiz: Quiz)
      requires Valid()
      requires quiz.id.Some? ==> quiz.id.value in store
      modifies this
      ensures Valid()
      ensures quiz.id.None? ==> AddedUnderFreshId(old(store), store, quiz)
      ensures quiz.id.Some? ==> store == old(store)[quiz.id.value := quiz]
    {
      if quiz.id.None? {
        ghost var bound := IdAboveAll(store.Keys);
        assert bound !in store;
        var k :| k !in store;
        store := store[k := quiz.(id := Some(k))];
      } else {
        store := store[quiz.id.value := quiz];
      }
    }

    /** insertQuiz: a quiz without an id gains exactly one row under a fresh id. */
    method InsertQuiz(quiz: Quiz)
      requires Valid()
      requires quiz.id.Some? ==> quiz.id.value in store
      modifies this
      ensures Valid()
      ensures quiz.id.None? ==> AddedUnderFreshId(old(store), store, quiz)
      ensures quiz.id.Some? ==> store == old(store)[quiz.id.value := quiz]
    {
      Save(quiz);
    }

    /** updateQuiz: the row under the quiz's id is replaced whole; every other row stays. */
    method UpdateQuiz(quiz: Quiz)
      requires Valid()
      requires quiz.id.Some? ==> quiz.id.value in store
      modifies this
      ensures Valid()
      ensures quiz.id.None? ==> AddedUnderFreshId(old(store), store, quiz)
      ensures quiz.id.Some? ==> store == old(store)[quiz.id.value := quiz]
    {
      Save(quiz);
    }

    /** deleteQuizById: `id` is absent afterwards; deleting a missing id changes nothing. */
    method DeleteQuizById(id: int)
      requires Valid()
      modifies this
      ensures Valid()
      ensures store == old(store) - {id}
    {
      store := store - {id};
    }
  }

  /**
   * Deleting the one seeded quiz leaves no quiz to draw; after one insert the
   * draw yields that quiz with its assigned id.
   */
  method RandomDrawScenario(inserted: Quiz) returns (first: Option<Quiz>, second: Option<Quiz>)
    requires inserted.id.None?
    ensures first.None?
    ensures second.Some? && second.value.id.Some?
    ensures second.value == inserted.(id := second.value.id)
  {
    var service := new QuizServiceImpl(map[5 := Quiz(Some(5), "Quiz 1", true, "Quiz Taro")]);
    service.DeleteQuizById(5);
    first := service.SelectOneRandomQuiz();
    service.InsertQuiz(inserted);
    second := service.SelectOneRandomQuiz();
    var k :| service.store == map[k := inserted.(id := Some(k))];
    assert service.store.Values == {inserted.(id := Some(k))};
  }

  /**
   * Insert, update the same id, fetch, delete, fetch: the fetch after the
   * update sees every field replaced, the fetch after the delete sees nothing.
   */
  method CrudScenario() returns (listed: seq<Quiz>, afterUpdate: Option<Quiz>, afterDelete: Option<Quiz>)
    ensures |listed| == 1 && listed[0].id.Some?
    ensures listed[0] == Quiz(listed[0].id, "Q1", true, "A")
    ensures afterUpdate == Some(Quiz(listed[0].id, "Q1v2", false, "A2"))
    ensures afterDelete.None?
  {
    var service := new QuizServiceImpl(map[]);
    service.InsertQuiz(Quiz(None, "Q1", true, "A"));
    listed := service.SelectAll();
    var k :| service.store == map[k := Quiz(Some(k), "Q1", true, "A")];
    assert service.store.Values == {Quiz(Some(k), "Q1", true, "A")};
    assert listed[0] in service.store.Values;
    var id := listed[0].id.value;
    service.UpdateQuiz(Quiz(Some(id), "Q1v2", false, "A2"));
    afterUpdate := service.SelectOneById(id);
    service.DeleteQuizById(id);
    afterDelete := service.SelectOneById(id);
  }
}
