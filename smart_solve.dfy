/**
 * The solve flow's input and output schemas, as validity predicates, and the
 * flow itself as seen by its caller: it yields a solution only when the input
 * validates and the model's reply is present and validates; otherwise it
 * throws (`None`). The model call is the `reply` parameter.
 */
module SmartSolve {
  import opened Js
  import opened Zod

  /** The subjects the input schema's `subject` enum admits. */
  const Subjects: seq<string> := ["Maths", "Science", "English"]

  const Difficulties: seq<string> := ["Easy", "Medium", "Hard"]

  /**
   * The object the home page passes to the flow. `gradeLevel` is `None` for
   * `NaN`. The last three fields are sent by the page but are not declared by
   * the schema; every optional field is `None` when the key is absent.
   */
  datatype SolveRequest = SolveRequest(
    question: string,
    gradeLevel: Option<int>,
    subject: string,
    difficultyLevel: string,
    studentAnswer: Option<string>,
    photoDataUri: Option<string>,
    language: Option<string>,
    userName: Option<string>)

  /** The keys the input schema declares. */
  const DeclaredKeys: set<string> := {"question", "gradeLevel", "subject", "difficultyLevel", "studentAnswer"}

  /** The keys present in a request object. */
  function Keys(r: SolveRequest): set<string> {
    {"question", "gradeLevel", "subject", "difficultyLevel"}
    + (if r.studentAnswer.Some? then {"studentAnswer"} else {})
    + (if r.photoDataUri.Some? then {"photoDataUri"} else {})
    + (if r.language.Some? then {"language"} else {})
    + (if r.userName.Some? then {"userName"} else {})
  }

  /** The schema declares no photo, language or user-name field: those keys lie outside it. */
  function UndeclaredKeys(r: SolveRequest): (u: set<string>)
    ensures "photoDataUri" in u <==> r.photoDataUri.Some?
    ensures "language" in u <==> r.language.Some?
    ensures "userName" in u <==> r.userName.Some?
    ensures u <= {"photoDataUri", "language", "userName"}
  {
    Keys(r) - DeclaredKeys
  }

  /** `SmartSolveInputSchema`: the checks on the declared fields. */
  predicate ValidInput(r: SolveRequest) {
    && IntIn(r.gradeLevel, 6, 12)
    && OneOf(r.subject, Subjects)
    && OneOf(r.difficultyLevel, Difficulties)
  }

  datatype SolveOutput = SolveOutput(solution: string, explanation: string, isCorrect: Option<bool>)

  /** The model's structured reply before validation. */
  datatype RawSolveOutput = RawSolveOutput(
    solution: RawField<string>,
    explanation: RawField<string>,
    isCorrect: RawField<bool>)

  /** `SmartSolveOutputSchema` */
  predicate ValidOutput(o: RawSolveOutput) {
    Required(o.solution) && Required(o.explanation) && Optional(o.isCorrect)
  }

  /** Validation of a reply: the typed output exactly when the reply conforms, its fields carried over. */
  function ParseOutput(o: RawSolveOutput): (r: Option<SolveOutput>)
    ensures r.Some? <==> ValidOutput(o)
    ensures r.Some? ==> r.value.solution == o.solution.value && r.value.explanation == o.explanation.value
    ensures r.Some? ==> (r.value.isCorrect.Some? <==> o.isCorrect.Present?)
    ensures r.Some? && o.isCorrect.Present? ==> r.value.isCorrect == Some(o.isCorrect.value)
  {
    if ValidOutput(o) then Some(SolveOutput(o.solution.value, o.explanation.value, OptionalValue(o.isCorrect)))
    else None
  }

  /** `smartSolve(input)`: `None` when it throws. */
  function Flow(r: SolveRequest, reply: Option<RawSolveOutput>): (out: Option<SolveOutput>)
    ensures out.Some? <==> ValidInput(r) && reply.Some? && ValidOutput(reply.value)
    ensures out.Some? ==> out == ParseOutput(reply.value)
  {
    if ValidInput(r) && reply.Some? then ParseOutput(reply.value) else None
  }

  /** A request whose subject is outside the three-value enum never yields a solution, whatever the model replies. */
  lemma SubjectOutsideEnumFails(r: SolveRequest, reply: Option<RawSolveOutput>)
    requires r.subject !in Subjects
    ensures Flow(r, reply) == None
  {
  }

  /** The empty question is a valid `question`, and the student answer may be absent. */
  lemma EmptyQuestionAccepted(grade: int, subject: string, difficulty: string)
    requires 6 <= grade <= 12 && subject in Subjects && difficulty in Difficulties
    ensures ValidInput(SolveRequest("", Some(grade), subject, difficulty, None, None, None, None))
  {
  }

  /** A reply without `isCorrect` validates, and its output carries no verdict. */
  lemma IsCorrectOptional(solution: string, explanation: string)
    ensures ParseOutput(RawSolveOutput(Present(solution), Present(explanation), Missing))
         == Some(SolveOutput(solution, explanation, None))
  {
  }
}
