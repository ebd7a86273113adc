/** The entity stored in the quiz table. */
module Entity {
  import opened Optional

  /** One true/false quiz. `id` is None until the store assigns one on insert. */
  datatype Quiz = Quiz(id: Option<int>, question: string, answer: bool, author: string)
}
