/**
 * The test-generation flow's schemas as validity predicates, and the flow as
 * seen by the test page: it yields questions only when the input validates and
 * the model's reply is present and validates. The schemas promise less than
 * the prompt asks for: an MCQ may have any number of options, its correct
 * answer need not be one of them, and the number of questions is not tied to
 * `numQuestions`.
 */
module GenerateTest {
  import opened Js
  import opened Zod

  const Subjects: seq<string> := ["Maths", "Science", "English", "Hindi", "Social Science"]

  const Difficulties: seq<string> := ["Easy", "Medium", "Hard"]

  /** One multiple-choice question, after validation. */
  datatype Mcq = Mcq(question: string, options: seq<string>, correctAnswer: string)

  /** The object the test page passes to the flow; `language` is not declared by the schema. */
  datatype TestRequest = TestRequest(
    subject: string,
    gradeLevel: Option<int>,
    difficultyLevel: string,
    numQuestions: Option<int>,
    language: Option<string>)

  /** `GenerateTestInputSchema` */
  predicate ValidInput(r: TestRequest) {
    && OneOf(r.subject, Subjects)
    && IntIn(r.gradeLevel, 6, 12)
    && OneOf(r.difficultyLevel, Difficulties)
    && IntIn(r.numQuestions, 5, 20)
  }

  datatype TestOutput = TestOutput(questions: seq<Mcq>)

  datatype RawMcq = RawMcq(question: RawField<string>, options: RawField<seq<string>>, correctAnswer: RawField<string>)

  datatype RawTestOutput = RawTestOutput(questions: RawField<seq<RawMcq>>)

  /** `MCQSchema`: three required fields, no constraint tying them together. */
  predicate ValidMcq(m: RawMcq) {
    Required(m.question) && Required(m.options) && Required(m.correctAnswer)
  }

  /** `GenerateTestOutputSchema` */
  predicate ValidOutput(o: RawTestOutput) {
    Required(o.questions) && forall i | 0 <= i < |o.questions.value| :: ValidMcq(o.questions.value[i])
  }

  function McqOf(m: RawMcq): Mcq
    requires ValidMcq(m)
  {
    Mcq(m.question.value, m.options.value, m.correctAnswer.value)
  }

  /** Validation of a reply: the typed output exactly when the reply conforms, question by question. */
  function ParseOutput(o: RawTestOutput): (r: Option<TestOutput>)
    ensures r.Some? <==> ValidOutput(o)
    ensures r.Some? ==> |r.value.questions| == |o.questions.value|
    ensures r.Some? ==> forall i | 0 <= i < |r.value.questions| ::
      && r.value.questions[i].question == o.questions.value[i].question.value
      && r.value.questions[i].options == o.questions.value[i].options.value
      && r.value.questions[i].correctAnswer == o.questions.value[i].correctAnswer.value
  {
    if ValidOutput(o) then
      var qs := o.questions.value;
      Some(TestOutput(seq(|qs|, i requires 0 <= i < |qs| => McqOf(qs[i]))))
    else None
  }

  /** `generateTest(input)`: `None` when it throws. */
  function Flow(r: TestRequest, reply: Option<RawTestOutput>): (out: Option<TestOutput>)
    ensures out.Some? <==> ValidInput(r) && reply.Some? && ValidOutput(reply.value)
    ensures out.Some? ==> out == ParseOutput(reply.value)
  {
    if ValidInput(r) && reply.Some? then ParseOutput(reply.value) else None
  }

  /** A reply of `n` copies of one question. */
  function Repeat(n: nat, m: RawMcq): (qs: seq<RawMcq>)
    ensures |qs| == n && forall i | 0 <= i < n :: qs[i] == m
  {
    if n == 0 then [] else Repeat(n - 1, m) + [m]
  }

  /**
   * The output schema bounds neither the options nor the answer: a question
   * with any list of options (none, or other than four) and a correct answer
   * that is not among them still validates.
   */
  lemma AnyOptionsValidate(question: string, options: seq<string>, answer: string)
    ensures ValidMcq(RawMcq(Present(question), Present(options), Present(answer)))
    ensures McqOf(RawMcq(Present(question), Present(options), Present(answer))) == Mcq(question, options, answer)
  {
  }

  /**
   * Nor does it tie the number of questions to the request: for a valid
   * request, a reply with any number `n` of questions is accepted and passed
   * on with exactly `n` questions.
   */
  lemma QuestionCountUnconstrained(r: TestRequest, n: nat, m: RawMcq)
    requires ValidInput(r) && ValidMcq(m)
    ensures Flow(r, Some(RawTestOutput(Present(Repeat(n, m))))).Some?
    ensures |Flow(r, Some(RawTestOutput(Present(Repeat(n, m))))).value.questions| == n
  {
  }
}
