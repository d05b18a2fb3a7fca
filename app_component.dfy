/**
 * The upload wizard of the `App` component (frontend/src/App.jsx).
 *
 * The component's state slots are the fields of class `App`; `WizardState` is a snapshot of them.
 * Every handler is a pure transition on snapshots (the `On...` functions) and a method of `App`
 * proved to perform exactly that transition. What the user can do is read off the rendered view:
 * a handler fires only when the element that carries it is on screen (`Offered`). The awaited
 * request splits `handleSubmit` in two: `HandleSubmit` is the part before `await`, and
 * `SettleSubmit` is the part after it, fed with the fetch outcome that `ApiService` validates.
 */
module AppComponent {
  import opened Wrappers
  import opened JsValues
  import ApiService

  /** A browser `File` picked in a file input (any File object is truthy). */
  datatype FileHandle = FileHandle(name: string)

  /** The two upload slots of the `files` state object. */
  datatype Slot = Resume | JobDescription

  /** The `files` state: at most one staged file per slot. */
  datatype StagedFiles = StagedFiles(resume: Option<FileHandle>, jobDescription: Option<FileHandle>)
  {
    function Get(slot: Slot): Option<FileHandle>
    {
      if slot == Resume then resume else jobDescription
    }

    /** `{ ...prev, [slot]: file }` */
    function With(slot: Slot, file: FileHandle): (r: StagedFiles)
      ensures r.Get(slot) == Some(file)
      ensures forall other :: other != slot ==> r.Get(other) == Get(other)
    {
      if slot == Resume then this.(resume := Some(file)) else this.(jobDescription := Some(file))
    }

    /** `files.resume && files.jobDescription` */
    predicate Complete()
    {
      resume.Some? && jobDescription.Some?
    }
  }

  /** A snapshot of the component's state slots. `showAdditionalInfo` starts as null. */
  datatype WizardState = WizardState(
    step: int,
    files: StagedFiles,
    showAdditionalInfo: Option<bool>,
    additionalInfo: string,
    isLoading: bool,
    result: Option<Json>,
    error: Option<Msg>)

  /** The fallback shown when a thrown error has an empty message. */
  const GenericErrorMessage := "An error occurred while analyzing your resume. Please try again."
  /** The error `handleSubmit` throws itself when the response has no truthy score. */
  const InvalidServerResponseMessage := "Invalid response from server"
  /** The key of the generated document's path, which turns on the download button. */
  const DownloadPathKey := "improved_resume_path"

  /** The `useState` initial values. */
  function Initial(): (s: WizardState)
    ensures s.step == 1 && !s.isLoading
    ensures s.files.resume.None? && s.files.jobDescription.None?
    ensures s.showAdditionalInfo.None? && s.additionalInfo == ""
    ensures s.result.None? && s.error.None?
  {
    WizardState(1, StagedFiles(None, None), None, "", false, None, None)
  }

  /** What `handleSubmit` posts: the staged files and the additional text (the `FormData`). */
  datatype Request = Request(resume: Option<FileHandle>, jobDescription: Option<FileHandle>, additionalInfo: string)

  // ---------------------------------------------------------------------------------------------
  // The view

  /** What `renderResults` shows at step 4. */
  datatype Panel =
    | ErrorPanel(message: Msg)
    | InvalidPanel
    | ReportPanel(score: Json, statement: Option<Json>, suggestions: seq<Json>, downloadShown: bool)

  /** What `renderStep` shows. */
  datatype Screen =
    | LoadingScreen
    | UploadScreen(resume: Option<FileHandle>, jobDescription: Option<FileHandle>, continueShown: bool)
    | AskScreen
    | EnterScreen(text: string)
    | ResultsScreen(panel: Panel)
    | NoScreen

  /** `renderResults`: the error if there is one, else an invalid-result notice, else the report. */
  function RenderResults(s: WizardState): (r: Panel)
    ensures r.ErrorPanel? <==> s.error.Some? && !s.error.value.IsEmpty()
    ensures r.ErrorPanel? ==> r.message == s.error.value
    ensures r.InvalidPanel? <==>
              && !(s.error.Some? && !s.error.value.IsEmpty())
              && !(s.result.Some? && s.result.value.JObj? && ApiService.ScoreKey in s.result.value.fields
                   && Truthy(s.result.value.fields[ApiService.ScoreKey]))
    ensures r.ReportPanel? ==> && s.result.Some? && s.result.value.JObj? && ApiService.ScoreKey in s.result.value.fields
                               && r.score == s.result.value.fields[ApiService.ScoreKey] && Truthy(r.score)
    ensures r.ReportPanel? && s.result.value.JObj? && ApiService.SuggestionsKey in s.result.value.fields
              && s.result.value.fields[ApiService.SuggestionsKey].JArr?
            ==> r.suggestions == s.result.value.fields[ApiService.SuggestionsKey].items
    // the statement as stored (absent when the key is), and the download button iff a path is there
    ensures r.ReportPanel? ==> && s.result.value != JNull
                               && r.statement == Prop(s.result.value, ApiService.StatementKey)
                               && (r.downloadShown <==> TruthyOpt(Prop(s.result.value, DownloadPathKey)))
  {
    if s.error.Some? && !s.error.value.IsEmpty() then ErrorPanel(s.error.value)
    else if s.result.None? || !Truthy(s.result.value) || !TruthyOpt(Prop(s.result.value, ApiService.ScoreKey))
    then InvalidPanel
    else
      var report := s.result.value;
      var suggestions := Prop(report, ApiService.SuggestionsKey);
      ReportPanel(
        Prop(report, ApiService.ScoreKey).value,
        Prop(report, ApiService.StatementKey),
        // `Suggestions?.map(...)`: the list in order when it is an array (always so once validated)
        if suggestions.Some? && suggestions.value.JArr? then suggestions.value.items else [],
        TruthyOpt(Prop(report, DownloadPathKey)))
  }

  /** `renderStep`: the loader while a request is pending, else the screen of the current step. */
  function View(s: WizardState): (r: Screen)
    // while a request is pending only the loader is shown, whatever the step
    ensures r == LoadingScreen <==> s.isLoading
    ensures r.UploadScreen? <==> !s.isLoading && s.step == 1
    ensures r.UploadScreen? ==> (r.continueShown <==> s.files.Complete())
    ensures r == AskScreen <==> !s.isLoading && s.step == 2
    ensures r.EnterScreen? <==> !s.isLoading && s.step == 3
    ensures r.EnterScreen? ==> r.text == s.additionalInfo
    ensures r.ResultsScreen? <==> !s.isLoading && s.step == 4
    ensures r == NoScreen <==> !s.isLoading && !(1 <= s.step <= 4)
    // the upload screen shows the staged files, and the results step shows what renderResults gives
    ensures r.UploadScreen? ==> r.resume == s.files.resume && r.jobDescription == s.files.jobDescription
    ensures r.ResultsScreen? ==> r.panel == RenderResults(s)
  {
    if s.isLoading then LoadingScreen
    else if s.step == 1 then UploadScreen(s.files.resume, s.files.jobDescription, s.files.Complete())
    else if s.step == 2 then AskScreen
    else if s.step == 3 then EnterScreen(s.additionalInfo)
    else if s.step == 4 then ResultsScreen(RenderResults(s))
    else NoScreen
  }

  /** The progress indicator above the steps: three circles and the two connectors between them. */
  datatype Indicator = Hidden | Shown(circles: seq<bool>, connectors: seq<bool>)

  /** The step indicator, drawn above every step before the results (also while loading). */
  function StepIndicator(step: int): (r: Indicator)
    ensures r.Shown? <==> step < 4
    ensures r.Shown? ==> |r.circles| == 3 && |r.connectors| == 2
    // circle i + 1 is filled iff step >= i + 1, the connector after it iff step > i + 1
    ensures r.Shown? ==> forall i :: 0 <= i < 3 ==> (r.circles[i] <==> step >= i + 1)
    ensures r.Shown? ==> forall i :: 0 <= i < 2 ==> (r.connectors[i] <==> step > i + 1)
    // a connector is filled exactly when the circle it leads to is
    ensures r.Shown? ==> forall n :: 0 <= n < 2 ==> (r.connectors[n] <==> r.circles[n + 1])
    // the filled circles form a prefix, ending at the current step
    ensures r.Shown? ==> forall i, j :: 0 <= i <= j < 3 && r.circles[j] ==> r.circles[i]
    ensures r.Shown? && 1 <= step ==> r.circles[step - 1] && (step < 3 ==> !r.circles[step])
  {
    if step < 4 then Shown([step >= 1, step >= 2, step >= 3], [step > 1, step > 2]) else Hidden
  }

  // ---------------------------------------------------------------------------------------------
  // User actions and the handlers they run

  /** The events the component reacts to: clicks and inputs, and the settling of the request. */
  datatype Action =
    | PickFile(slot: Slot, picked: seq<FileHandle>)  // a file input's change event, with its FileList
    | Continue
    | AnswerYes
    | AnswerNo
    | EditInfo(text: string)
    | SubmitInfo
    | Settle(reply: ApiService.Reply)                // the awaited `analyzeResume` call completes
    | Reset

  /** Whether `a` can happen in `s`: its control is on screen (a pending request can always settle). */
  predicate Offered(s: WizardState, a: Action): (r: bool)
    ensures a == Continue ==> (r <==> !s.isLoading && s.step == 1 && s.files.Complete())
    ensures a.PickFile? ==> (r <==> !s.isLoading && s.step == 1)
    ensures (a == AnswerYes || a == AnswerNo) ==> (r <==> !s.isLoading && s.step == 2)
    ensures (a.EditInfo? || a == SubmitInfo) ==> (r <==> !s.isLoading && s.step == 3)
    // while a request is pending nothing but its settling can happen: no second submission
    ensures s.isLoading ==> (r <==> a.Settle?)
    ensures (a == AnswerNo || a == SubmitInfo) && r ==> !s.isLoading && (s.step == 2 || s.step == 3)
    ensures a == Reset ==> (r <==> !s.isLoading && s.step == 4)
  {
    match a
    case Settle(_) => s.isLoading
    case PickFile(_, _) => View(s).UploadScreen?
    case Continue => View(s).UploadScreen? && View(s).continueShown
    case AnswerYes => View(s).AskScreen?
    case AnswerNo => View(s).AskScreen?
    case EditInfo(_) => View(s).EnterScreen?
    case SubmitInfo => View(s).EnterScreen?
    case Reset => View(s).ResultsScreen?
  }

  /** `handleFileChange(slot)`: stage the first picked file, if any, in that slot only. */
  function OnFileChange(s: WizardState, slot: Slot, picked: seq<FileHandle>): (r: WizardState)
    ensures |picked| > 0 ==> r.files.Get(slot) == Some(picked[0])
    ensures |picked| == 0 ==> r == s
    ensures forall other :: other != slot ==> r.files.Get(other) == s.files.Get(other)
    ensures r.(files := s.files) == s
  {
    if |picked| > 0 then s.(files := s.files.With(slot, picked[0])) else s
  }

  /** The Continue button: `setStep(2)`. */
  function OnContinue(s: WizardState): (r: WizardState)
    ensures r.step == 2 && r.(step := s.step) == s
  {
    s.(step := 2)
  }

  /** The Yes button: `setShowAdditionalInfo(true); setStep(3)`. */
  function OnYes(s: WizardState): (r: WizardState)
    ensures r.step == 3 && r.showAdditionalInfo == Some(true)
    ensures r.(step := s.step, showAdditionalInfo := s.showAdditionalInfo) == s
  {
    s.(showAdditionalInfo := Some(true), step := 3)
  }

  /** The text area's change handler: `setAdditionalInfo(e.target.value)`. */
  function OnInfoChange(s: WizardState, text: string): (r: WizardState)
    ensures r.additionalInfo == text && r.(additionalInfo := s.additionalInfo) == s
  {
    s.(additionalInfo := text)
  }

  /** The synchronous part of `handleSubmit`: loading on, the previous error cleared. */
  function OnSubmitStart(s: WizardState): (r: WizardState)
    ensures r.isLoading && r.error.None?
    ensures r.(isLoading := s.isLoading, error := s.error) == s
  {
    s.(isLoading := true, error := None)
  }

  /** The `FormData` that `handleSubmit(additionalText)` posts. */
  function SubmitRequest(s: WizardState, additionalText: string): Request
  {
    Request(s.files.resume, s.files.jobDescription, additionalText)
  }

  /** `err.message || 'An error occurred ...'` */
  function DisplayedError(m: Msg): (d: Msg)
    ensures !d.IsEmpty()
    ensures !m.IsEmpty() ==> d == m
    ensures m.IsEmpty() ==> d == Text(GenericErrorMessage)
  {
    if m.IsEmpty() then Text(GenericErrorMessage) else m
  }

  /**
   * The part of `handleSubmit` after `await analyzeResume(...)`: on a response with a truthy score
   * the result is stored and step 4 entered; otherwise, and on any thrown error, the error message
   * is stored and step 1 entered. Either way loading ends; the files and the text are kept.
   */
  function OnSettle(s: WizardState, reply: ApiService.Reply): (r: WizardState)
    ensures !r.isLoading
    ensures r.files == s.files && r.additionalInfo == s.additionalInfo
    ensures r.showAdditionalInfo == s.showAdditionalInfo
    // the component's own score check never rejects what the service layer accepted
    ensures r.step == 4 <==> ApiService.AnalyzeResume(reply).Success?
    ensures r.step == 4 ==> r.result == Some(ApiService.AnalyzeResume(reply).value) && r.error == s.error
    ensures r.step != 4 ==> && r.step == 1 && r.result == s.result
                            && r.error == Some(DisplayedError(ApiService.AnalyzeResume(reply).error))
  {
    var outcome := ApiService.AnalyzeResume(reply);
    var thrown :=
      if outcome.Failure? then Some(outcome.error)
      else if !Truthy(outcome.value) || !TruthyOpt(Prop(outcome.value, ApiService.ScoreKey))
      then Some(Text(InvalidServerResponseMessage))
      else None;
    if thrown.None? then s.(result := Some(outcome.value), step := 4, isLoading := false)
    else s.(error := Some(DisplayedError(thrown.value)), step := 1, isLoading := false)
  }

  /** `handleReset`: back to the initial state, except that `showAdditionalInfo` is left as it is. */
  function OnReset(s: WizardState): (r: WizardState)
    ensures r == Initial().(showAdditionalInfo := s.showAdditionalInfo, isLoading := s.isLoading)
  {
    s.(step := 1, files := StagedFiles(None, None), additionalInfo := "", result := None, error := None)
  }

  /** The state after action `a` in state `s`. */
  function Next(s: WizardState, a: Action): WizardState
  {
    match a
    case PickFile(slot, picked) => OnFileChange(s, slot, picked)
    case Continue => OnContinue(s)
    case AnswerYes => OnYes(s)
    case AnswerNo => OnSubmitStart(s)
    case EditInfo(text) => OnInfoChange(s, text)
    case SubmitInfo => OnSubmitStart(s)
    case Settle(reply) => OnSettle(s, reply)
    case Reset => OnReset(s)
  }

  /** The state after a sequence of user events; an event whose control is not on screen cannot happen and is skipped. */
  function Run(s: WizardState, actions: seq<Action>): WizardState
    decreases |actions|
  {
    if actions == [] then s
    else Run(if Offered(s, actions[0]) then Next(s, actions[0]) else s, actions[1..])
  }

  // ---------------------------------------------------------------------------------------------
  // The invariant of all reachable states

  /**
   * Holds in every reachable state: the step is 1 to 4; steps 2 and 3 have both files staged; a
   * request is only pending from steps 2 and 3, with no error; step 4 holds a validated result
   * and no error; a stored error message is never empty.
   */
  ghost predicate Inv(s: WizardState)
  {
    && 1 <= s.step <= 4
    && (s.step == 2 || s.step == 3 ==> s.files.Complete())
    && (s.isLoading ==> (s.step == 2 || s.step == 3) && s.error.None?)
    && (s.step == 4 ==> s.error.None? && s.result.Some? && ApiService.WellFormed(s.result.value))
    && (s.error.Some? ==> !s.error.value.IsEmpty())
  }

  lemma InitialInv()
    ensures Inv(Initial())
  {
  }

  /** Every action that can happen keeps the invariant. */
  lemma NextInv(s: WizardState, a: Action)
    requires Inv(s) && Offered(s, a)
    ensures Inv(Next(s, a))
  {
  }

  /** Every state reached from a valid state by any sequence of events satisfies the invariant. */
  lemma {:induction false} RunInv(s: WizardState, actions: seq<Action>)
    requires Inv(s)
    ensures Inv(Run(s, actions))
    decreases |actions|
  {
    if actions != [] {
      var t := if Offered(s, actions[0]) then Next(s, actions[0]) else s;
      if Offered(s, actions[0]) {
        NextInv(s, actions[0]);
      }
      RunInv(t, actions[1..]);
    }
  }

  /**
   * In every reachable state, step 4 has no error and a result with a truthy score, so
   * `renderResults` always takes its report branch: its error branch and its invalid-response
   * branch are unreachable, and a stored error message never reaches the screen.
   */
  lemma {:induction false} ReachableResultsAreReports(actions: seq<Action>)
    ensures var s := Run(Initial(), actions);
            && (s.step == 4 ==> s.error.None? && s.result.Some? && s.result.value != JNull
                                  && TruthyOpt(Prop(s.result.value, ApiService.ScoreKey)))
            && (View(s).ResultsScreen? ==> View(s).panel.ReportPanel?)
            && !(View(s).ResultsScreen? && View(s).panel.ErrorPanel?)
  {
    InitialInv();
    RunInv(Initial(), actions);
  }

  /** A submission posts both staged files: in every valid state where it can start, both are there. */
  lemma SubmitCarriesFiles(s: WizardState, a: Action, text: string)
    requires Inv(s) && (a == AnswerNo || a == SubmitInfo) && Offered(s, a)
    ensures var req := SubmitRequest(s, text);
            req.resume.Some? && req.jobDescription.Some?
  {
  }

  /** Reset is idempotent. */
  lemma ResetIdempotent(s: WizardState)
    ensures OnReset(OnReset(s)) == OnReset(s)
  {
  }

  /**
   * A pending submission that receives
   * {"Evaluating Score": 8, "Evaluating Statement": "Good match", "Suggestions": ["Add metrics", "Shorten summary"]}
   * shows the report with score 8, that statement and the two suggestions in their order.
   */
  lemma SampleResponseShown(s: WizardState)
    requires Inv(s) && s.isLoading
    ensures var body := ApiService.SampleBody(8.0, [JStr("Add metrics"), JStr("Shorten summary")]);
            var t := OnSettle(s, ApiService.Received(true, ApiService.Parsed(body)));
            View(t) == ResultsScreen(ReportPanel(JNum(8.0), Some(JStr("Good match")),
                                                 [JStr("Add metrics"), JStr("Shorten summary")], false))
  {
  }

  // ---------------------------------------------------------------------------------------------
  // The component itself

  /** The `App` component's state slots, with one method per handler. */
  class App {
    var step: int
    var files: StagedFiles
    var showAdditionalInfo: Option<bool>
    var additionalInfo: string
    var isLoading: bool
    var result: Option<Json>
    var error: Option<Msg>

    /** The current values of all state slots. */
    function State(): WizardState
      reads this
    {
      WizardState(step, files, showAdditionalInfo, additionalInfo, isLoading, result, error)
    }

    ghost predicate Valid()
      reads this
    {
      Inv(State())
    }

    /** Mounting the component: every slot at its `useState` default. */
    constructor ()
      ensures Valid() && State() == Initial()
    {
      step := 1;
      files := StagedFiles(None, None);
      showAdditionalInfo := None;
      additionalInfo := "";
      isLoading := false;
      result := None;
      error := None;
    }

    /** `handleFileChange(slot)(e)` with `e.target.files == picked`. */
    method HandleFileChange(slot: Slot, picked: seq<FileHandle>)
      requires Valid() && Offered(State(), PickFile(slot, picked))
      modifies this
      ensures Valid() && State() == OnFileChange(old(State()), slot, picked)
    {
      if |picked| > 0 {
        var file := picked[0];
        files := files.With(slot, file);
      }
    }

    /** The Continue button, rendered only once both files are staged. */
    method ContinueClicked()
      requires Valid() && Offered(State(), Continue)
      modifies this
      ensures Valid() && State() == OnContinue(old(State()))
      ensures step == 2 && files.Complete()
    {
      step := 2;
    }

    /** The Yes button of step 2. */
    method YesClicked()
      requires Valid() && Offered(State(), AnswerYes)
      modifies this
      ensures Valid() && State() == OnYes(old(State()))
    {
      showAdditionalInfo := Some(true);
      step := 3;
    }

    /** Typing in the text area of step 3. */
    method InfoChanged(text: string)
      requires Valid() && Offered(State(), EditInfo(text))
      modifies this
      ensures Valid() && State() == OnInfoChange(old(State()), text)
    {
      additionalInfo := text;
    }

    /** `handleSubmit(additionalText)` up to its `await`: returns the request it posts. */
    method HandleSubmit(additionalText: string) returns (request: Request)
      requires Valid() && !isLoading && (step == 2 || step == 3)
      modifies this
      ensures Valid() && State() == OnSubmitStart(old(State()))
      ensures request == SubmitRequest(old(State()), additionalText)
      ensures request.resume.Some? && request.jobDescription.Some? && request.additionalInfo == additionalText
    {
      isLoading := true;
      error := None;
      request := Request(files.resume, files.jobDescription, additionalText);
    }

    /** The No button of step 2: `handleSubmit('')`. */
    method NoClicked() returns (request: Request)
      requires Valid() && Offered(State(), AnswerNo)
      modifies this
      ensures Valid() && State() == Next(old(State()), AnswerNo)
      ensures request == SubmitRequest(old(State()), "")
    {
      request := HandleSubmit("");
    }

    /** The submit button of step 3: `handleSubmit(additionalInfo)`. */
    method InfoSubmitted() returns (request: Request)
      requires Valid() && Offered(State(), SubmitInfo)
      modifies this
      ensures Valid() && State() == Next(old(State()), SubmitInfo)
      ensures request == SubmitRequest(old(State()), old(additionalInfo))
    {
      request := HandleSubmit(additionalInfo);
    }

    /** The rest of `handleSubmit`, once the awaited `analyzeResume` call has settled with `reply`. */
    method SettleSubmit(reply: ApiService.Reply)
      requires Valid() && isLoading
      modifies this
      ensures Valid() && State() == OnSettle(old(State()), reply)
    {
      var outcome := ApiService.AnalyzeResume(reply);
      var thrown: Option<Msg> := None;
      if outcome.Failure? {
        thrown := Some(outcome.error);
      } else {
        var response := outcome.value;
        if !Truthy(response) || !TruthyOpt(Prop(response, ApiService.ScoreKey)) {
          thrown := Some(Text(InvalidServerResponseMessage));
        } else {
          result := Some(response);
          step := 4;
        }
      }
      if thrown.Some? {
        error := Some(DisplayedError(thrown.value));
        step := 1;
      }
      isLoading := false;
    }

    /** `handleReset`, behind the buttons of the results step. */
    method HandleReset()
      requires Valid() && Offered(State(), Reset)
      modifies this
      ensures Valid() && State() == OnReset(old(State()))
    {
      step := 1;
      files := StagedFiles(None, None);
      additionalInfo := "";
      result := None;
      error := None;
    }
  }
}
