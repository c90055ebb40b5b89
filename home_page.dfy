/**
 * The solver page: a form, a guard against an empty request, a request
 * built with fields included only under conditions, the solve call and a
 * history entry written only on success; then "explain simply" and "listen",
 * both of which need a solution. The AI services are parameters: the reply of
 * the solve model goes through the solve flow's schemas; the explanation and
 * the speech are `Some` result or `None` for a throw.
 */
module HomePage {
  import opened Js
  import opened SmartSolve
  import opened LocalStorage
  import opened History
  import FormOptions

  /** What the form holds when a handler runs. */
  datatype Form = Form(
    gradeLevel: string,
    subject: string,
    difficulty: string,
    question: string,
    language: string,
    userName: string,
    studentAnswer: string,
    testMode: bool,
    image: Option<string>)

  /** The form's selects hold one of their options. */
  predicate SelectsValid(f: Form) {
    && f.gradeLevel in FormOptions.GradeValues()
    && f.subject in FormOptions.Subjects
    && f.difficulty in FormOptions.Difficulties
  }

  /** The guard of `handleSolve`: the trimmed question is empty and there is no image. */
  predicate NoInput(f: Form): (b: bool)
    ensures b <==> Trim(f.question) == "" && !TruthyOpt(f.image)
  {
    TrimEmptyIffBlank(f.question);
    Blank(f.question) && !TruthyOpt(f.image)
  }

  /** The solver form offers the difficulties of the solve schema's enum, and all three of its subjects. */
  lemma FormListsAgainstSchema()
    ensures FormOptions.Difficulties == SmartSolve.Difficulties
    ensures forall s | s in SmartSolve.Subjects :: s in FormOptions.Subjects
  {
  }

  /** `langParam`: no language for "auto", the selection otherwise. */
  function LangParam(language: string): (l: Option<string>)
    ensures l.None? <==> language == "auto"
    ensures l.Some? ==> l.value == language
  {
    if language == "auto" then None else Some(language)
  }

  /**
   * The request object: the question untrimmed, the parsed class, the subject
   * and the difficulty always; the student answer only in test mode; the
   * photo only when an image is set; the language only when one is chosen;
   * the name only when it is non-empty.
   */
  function BuildRequest(f: Form): (r: SolveRequest)
    ensures r.question == f.question && r.subject == f.subject && r.difficultyLevel == f.difficulty
    ensures r.gradeLevel == ParseDigits(f.gradeLevel)
    ensures r.studentAnswer.Some? <==> f.testMode
    ensures r.photoDataUri.Some? <==> f.image.Some? && f.image.value != ""
    ensures r.language.Some? <==> f.language != "auto" && f.language != ""
    ensures r.userName.Some? <==> f.userName != ""
    ensures r.studentAnswer.Some? ==> r.studentAnswer.value == f.studentAnswer
    ensures r.photoDataUri.Some? ==> r.photoDataUri == f.image
    ensures r.language.Some? ==> r.language.value == f.language
    ensures r.userName.Some? ==> r.userName.value == f.userName
  {
    var langParam := LangParam(f.language);
    SolveRequest(
      f.question,
      ParseDigits(f.gradeLevel),
      f.subject,
      f.difficulty,
      if f.testMode then Some(f.studentAnswer) else None,
      if TruthyOpt(f.image) then f.image else None,
      if TruthyOpt(langParam) then langParam else None,
      if Truthy(f.userName) then Some(f.userName) else None)
  }

  /** The history entry: the request, with its language replaced by `langParam`, the solution and the time. */
  function Entry(f: Form, result: SolveOutput, timestamp: string): (item: HistoryItem)
    ensures item.request.language == LangParam(f.language)
    ensures item.request == BuildRequest(f).(language := LangParam(f.language))
    ensures item.solution == result && item.timestamp == timestamp
  {
    HistoryItem(BuildRequest(f).(language := LangParam(f.language)), result, timestamp)
  }

  /** With the form's own options, the request passes the solve schema exactly when the subject is one of its three. */
  lemma RequestValidIffSubject(f: Form)
    requires SelectsValid(f)
    ensures ValidInput(BuildRequest(f)) <==> f.subject in SmartSolve.Subjects
  {
    FormOptions.ParsedGradeInRange(f.gradeLevel);
  }

  /**
   * Hindi and Social Science are offered by the form but refused by the
   * schema: those requests never yield a solution, whatever the model
   * replies, so they are never saved.
   */
  lemma OfferedSubjectsRefused(f: Form, reply: Option<RawSolveOutput>)
    requires f.subject == "Hindi" || f.subject == "Social Science"
    ensures f.subject in FormOptions.Subjects
    ensures Flow(BuildRequest(f), reply) == None
  {
  }

  /**
   * A request with only an image passes the guard; its question is the blank
   * text as typed, which the schema accepts, and the photo travels in a field
   * the schema does not declare.
   */
  lemma ImageOnlyRequest(f: Form)
    requires Blank(f.question) && f.image.Some? && f.image.value != ""
    ensures !NoInput(f)
    ensures Blank(BuildRequest(f).question)
    ensures "photoDataUri" in UndeclaredKeys(BuildRequest(f))
  {
  }

  /** The request `handleExplain` sends; the name is always sent, the language as `langParam`. */
  datatype ExplainRequest = ExplainRequest(
    question: string,
    solution: string,
    gradeLevel: Option<int>,
    userName: string,
    language: Option<string>)

  /**
   * The text read aloud: the solution, the explanation, and the simplified
   * explanation only when there is a non-empty one, inside the template's
   * line breaks and indentation.
   */
  function SpeechText(s: SolveOutput, simple: Option<string>): (text: string)
    ensures |text| == 73 + |s.solution| + |s.explanation|
      + (if TruthyOpt(simple) then 24 + |simple.value| else 0)
    ensures text[23..23 + |s.solution|] == s.solution
    ensures text[50 + |s.solution|..50 + |s.solution| + |s.explanation|] == s.explanation
    ensures TruthyOpt(simple) ==>
      text[88 + |s.solution| + |s.explanation|..88 + |s.solution| + |s.explanation| + |simple.value|] == simple.value
  {
    var indent := "\n            ";
    indent + "Solution: " + s.solution + "."
    + indent + "Explanation: " + s.explanation + "."
    + indent + (if TruthyOpt(simple) then "Simplified Explanation: " + simple.value else "")
    + "\n        "
  }

  class HomePage {
    var gradeLevel: string
    var subject: string
    var difficulty: string
    var question: string
    var language: string
    var userName: string
    var studentAnswer: string
    var testMode: bool
    var image: Option<string>

    var isLoading: bool
    var isExplaining: bool
    var isSpeaking: bool
    var solution: Option<SolveOutput>
    var simpleExplanation: Option<string>
    var audioDataUri: Option<string>

    function FormOf(): Form
      reads this
    {
      Form(gradeLevel, subject, difficulty, question, language, userName, studentAnswer, testMode, image)
    }

    constructor ()
      ensures SelectsValid(FormOf())
      ensures FormOf() == Form("8", "Maths", "Medium", "", "auto", "", "", false, None)
      ensures !isLoading && !isExplaining && !isSpeaking
      ensures solution == None && simpleExplanation == None && audioDataUri == None
    {
      gradeLevel, subject, difficulty, question := "8", "Maths", "Medium", "";
      language, userName, studentAnswer, testMode, image := "auto", "", "", false, None;
      isLoading, isExplaining, isSpeaking := false, false, false;
      solution, simpleExplanation, audioDataUri := None, None, None;
      FormOptions.InitialGradeOffered();
    }

    /**
     * `handleSolve`. `sent` is the request passed to the service, `None` when
     * the guard refuses. Without input nothing changes, the service is not
     * called and no history is written. Otherwise the previous results are
     * cleared, the solution is the flow's result, exactly one entry is saved
     * on success and none on failure, and loading ends either way.
     */
    method HandleSolve(store: Store<HistoryItem>, env: Env, reply: Option<RawSolveOutput>, timestamp: string)
      returns (sent: Option<SolveRequest>)
      modifies this, store
      ensures FormOf() == old(FormOf())
      ensures isExplaining == old(isExplaining) && isSpeaking == old(isSpeaking)
      ensures sent.None? <==> NoInput(old(FormOf()))
      ensures sent.None? ==>
        && isLoading == old(isLoading) && solution == old(solution)
        && simpleExplanation == old(simpleExplanation) && audioDataUri == old(audioDataUri)
      ensures sent.Some? ==>
        && sent.value == BuildRequest(old(FormOf()))
        && solution == Flow(sent.value, reply)
        && simpleExplanation == None && audioDataUri == None && !isLoading
      ensures store.data ==
        if sent.Some? && solution.Some? then AfterSave(old(store.data), env, Entry(old(FormOf()), solution.value, timestamp))
        else old(store.data)
    {
      var form := FormOf();
      if NoInput(form) {
        return None;
      }
      isLoading := true;
      solution := None;
      simpleExplanation := None;
      audioDataUri := None;
      var input := BuildRequest(form);
      sent := Some(input);
      var result := Flow(input, reply);
      if result.Some? {
        solution := result;
        SaveHistory(store, env, Entry(form, result.value, timestamp));
      }
      isLoading := false;
    }

    /**
     * `handleExplain`: nothing happens without a solution. Otherwise the old
     * simplified explanation is cleared, the service's answer replaces it on
     * success, and the busy flag ends false.
     */
    method HandleExplain(reply: Option<string>) returns (sent: Option<ExplainRequest>)
      modifies this
      ensures FormOf() == old(FormOf()) && solution == old(solution)
      ensures sent.None? <==> solution.None?
      ensures sent.None? ==> simpleExplanation == old(simpleExplanation) && isExplaining == old(isExplaining)
      ensures sent.Some? ==>
        && sent.value == ExplainRequest(question, solution.value.solution, ParseDigits(gradeLevel), userName, LangParam(language))
        && simpleExplanation == reply && !isExplaining
      ensures isLoading == old(isLoading) && isSpeaking == old(isSpeaking) && audioDataUri == old(audioDataUri)
    {
      if solution.None? {
        return None;
      }
      isExplaining := true;
      simpleExplanation := None;
      sent := Some(ExplainRequest(question, solution.value.solution, ParseDigits(gradeLevel), userName, LangParam(language)));
      if reply.Some? {
        simpleExplanation := reply;
      }
      isExplaining := false;
    }

    /**
     * `handleListen`: nothing happens without a solution. Otherwise the old
     * audio is cleared, the speech text is sent, its audio kept on success,
     * and the busy flag ends false.
     */
    method HandleListen(reply: Option<string>) returns (sent: Option<string>)
      modifies this
      ensures FormOf() == old(FormOf()) && solution == old(solution) && simpleExplanation == old(simpleExplanation)
      ensures sent.None? <==> solution.None?
      ensures sent.None? ==> audioDataUri == old(audioDataUri) && isSpeaking == old(isSpeaking)
      ensures sent.Some? ==>
        && sent.value == SpeechText(solution.value, simpleExplanation)
        && audioDataUri == reply && !isSpeaking
      ensures isLoading == old(isLoading) && isExplaining == old(isExplaining)
    {
      if solution.None? {
        return None;
      }
      isSpeaking := true;
      audioDataUri := None;
      sent := Some(SpeechText(solution.value, simpleExplanation));
      if reply.Some? {
        audioDataUri := reply;
      }
      isSpeaking := false;
    }
  }
}
