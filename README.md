# Resume analyzer: verified model of the upload wizard, the response check and the backend text cleanup

The resume analyzer is a web form. It collects a resume PDF, a job-description PDF and optional
free text, posts them to an analysis endpoint, and shows a score, an evaluation statement and a
list of suggestions. This project models its three pieces of logic in Dafny:

- **The upload wizard** (`frontend/src/App.jsx`, module `AppComponent`). Class `App` has one field
  per React state slot (`step`, `files`, `showAdditionalInfo`, `additionalInfo`, `isLoading`,
  `result`, `error`) and one method per handler.
  - Each method is proved to perform a pure transition on `WizardState` snapshots (`OnFileChange`,
    `OnContinue`, `OnYes`, `OnInfoChange`, `OnSubmitStart`, `OnSettle`, `OnReset`).
  - What the user can trigger is derived from the rendered view (`View`, `RenderResults`): a
    handler can fire only while the element that carries it is on screen (`Offered`).
  - `handleSubmit` awaits the request, so it is split in two. `HandleSubmit` runs up to the
    `await`. `SettleSubmit` receives the fetch outcome and passes it through `ApiService.AnalyzeResume`.
  - `Inv` is proved for every state reachable by any sequence of events. One consequence: step 4
    always holds a validated result and no error. So `renderResults` always takes its report branch.
    A failed submission stores its message in `error` and returns to step 1, where nothing renders
    `error`: the failure message never reaches the screen.
- **The response check of `analyzeResume`** (`frontend/src/services/api.js`, module `ApiService`).
  It is a function from the fetch outcome to the returned body or the thrown message. The model
  follows JavaScript semantics: truthiness (a score of 0 and an empty statement are rejected),
  and `typeof` (an array body passes the shape check and then fails the field check).
  - `response.json()` runs before the status check. A non-JSON error page therefore surfaces the
    parse error, not "Network response was not ok".
  - `null.detail` throws a `TypeError` for a non-ok reply with a `null` body.
  - `new Error(detail)` stringifies a non-string detail. `Msg` tracks exactly when that string is
    empty, as for `String([])`. An empty message makes `App` fall back to its generic text.
- **Text and list helpers of the endpoint** (`backend/main.py`, modules `BackendMain` and `PyText`):
  - the case-insensitive ".pdf" name check, resume first;
  - the one-shot fence cut in `convert_markdown_to_docx`;
  - the replace-and-strip chains for the generated resume and for the judgement. Removing "```" in
    one left-to-right pass is proved to leave no "```" behind;
  - the conditional `resume_path` key;
  - the `CORS_ORIGINS` list.

  Python's `str.strip()` is modelled over the exact set of characters for which `str.isspace()`
  holds. `str.replace(p, "")` is modelled as a single left-to-right pass.

What the wizard does not have, and what a failure keeps:
- There is no landing step: `LandingPage` is never mounted by `App`.
- There is no "back" transition and there are no timed status messages.
- A failed submission keeps the staged files and the additional text. It returns to step 1 without
  a full reset.

## Model

| member | source | states |
|---|---|---|
| `AppComponent.Initial` | frontend/src/App.jsx:8-17 | the initial state is step 1, with both file slots empty, empty additional text, showAdditionalInfo null, no result, no error and nothing loading |
| `AppComponent.View` | frontend/src/App.jsx:192-284 | only the loader shows while a request is pending; otherwise step 1 shows the upload screen, step 2 the Yes/No question, step 3 the text form with the stored text, and step 4 the results; the upload screen shows the two staged files, and Continue shows exactly when both are staged; the results screen shows exactly what renderResults gives |
| `AppComponent.RenderResults` | frontend/src/App.jsx:82-144 | the error panel shows exactly when a non-empty error is stored; otherwise the invalid-response panel shows exactly when the stored result is not an object with a truthy score; a report shows the stored score and the stored statement (absent when the key is absent), lists an array of suggestions in its order, and offers the download button exactly when the result has a truthy `improved_resume_path` |
| `AppComponent.StepIndicator` | frontend/src/App.jsx:298-316 | shown iff step < 4; circle n is filled iff step >= n; the connector after circle n is filled iff step > n, which is iff the next circle is filled; the filled circles form a prefix ending at the current step |
| `AppComponent.Offered` | frontend/src/App.jsx:192-284 | Continue is possible iff not loading, at step 1, with both files staged; files can be picked only at step 1; Yes and No iff step 2, and the text edit and submit iff step 3, when not loading; while loading, only the pending request can settle, so a second submission cannot start; Reset is possible only at step 4 |
| `AppComponent.OnFileChange` | frontend/src/App.jsx:34-39 | a pick stages its first file in the named slot; the other slot and all other state are unchanged; an empty pick changes nothing |
| `AppComponent.OnContinue` | frontend/src/App.jsx:227-229 | moves to step 2 and changes nothing else |
| `AppComponent.OnYes` | frontend/src/App.jsx:243-247 | sets showAdditionalInfo true, moves to step 3, and changes nothing else |
| `AppComponent.OnInfoChange` | frontend/src/App.jsx:264-268 | stores the typed text and changes nothing else |
| `AppComponent.OnSubmitStart` | frontend/src/App.jsx:41-43 | submission turns loading on and clears the previous error; nothing else changes |
| `AppComponent.DisplayedError` | frontend/src/App.jsx:60 | the stored error is never empty; a non-empty thrown message is kept, and an empty one becomes "An error occurred while analyzing your resume. Please try again." |
| `AppComponent.OnSettle` | frontend/src/App.jsx:50-64 | loading ends; files, text and showAdditionalInfo are kept; step 4 is entered iff the validator accepted the body, and then the result is that body; otherwise step 1 is entered, the result is untouched, and the error is the displayed form of the thrown message |
| `AppComponent.OnReset` | frontend/src/App.jsx:67-76 | reset gives the initial state, except that showAdditionalInfo (and loading) keep their values |
| `AppComponent.InitialInv` | frontend/src/App.jsx:8-17 | the initial state satisfies the invariant |
| `AppComponent.NextInv` | frontend/src/App.jsx:34-76 | every event that can happen preserves the invariant |
| `AppComponent.RunInv` | frontend/src/App.jsx:34-76 | every state reached by any event sequence satisfies the invariant |
| `AppComponent.ReachableResultsAreReports` | frontend/src/App.jsx:83-111 | in every reachable state, step 4 has no error and a result with a truthy score, and renderResults never shows its error or invalid-response panel |
| `AppComponent.SubmitCarriesFiles` | frontend/src/App.jsx:45-48 | every submission that can start posts both a resume and a job description |
| `AppComponent.ResetIdempotent` | frontend/src/App.jsx:67-76 | resetting twice equals resetting once |
| `AppComponent.SampleResponseShown` | frontend/src/App.jsx:113-144 | the sample response (score 8, "Good match", two suggestions) is shown as a report with that score, that statement and the suggestions in order |
| `AppComponent.App.constructor` | frontend/src/App.jsx:8-17 | mounting gives the initial state |
| `AppComponent.App.HandleFileChange` | frontend/src/App.jsx:34-39 | performs OnFileChange and keeps the invariant |
| `AppComponent.App.ContinueClicked` | frontend/src/App.jsx:227-229 | performs OnContinue; afterwards the step is 2 with both files staged |
| `AppComponent.App.YesClicked` | frontend/src/App.jsx:243-247 | performs OnYes and keeps the invariant |
| `AppComponent.App.InfoChanged` | frontend/src/App.jsx:267 | performs OnInfoChange and keeps the invariant |
| `AppComponent.App.HandleSubmit` | frontend/src/App.jsx:41-48 | performs OnSubmitStart; returns a request that carries both staged files and exactly the given text |
| `AppComponent.App.NoClicked` | frontend/src/App.jsx:252-253 | starts a submission whose text is "" |
| `AppComponent.App.InfoSubmitted` | frontend/src/App.jsx:268 | starts a submission whose text is the current additionalInfo |
| `AppComponent.App.SettleSubmit` | frontend/src/App.jsx:50-64 | performs OnSettle and keeps the invariant |
| `AppComponent.App.HandleReset` | frontend/src/App.jsx:67-76 | performs OnReset and keeps the invariant |
| `JsValues.ErrorMessageOf` | frontend/src/services/api.js:13 | a string detail becomes the message verbatim; the message is empty exactly when the value stringifies to "" |
| `ApiService.NotOkError` | frontend/src/services/api.js:12-14 | any truthy detail becomes the message through `new Error(detail)`, a string verbatim; a missing or falsy detail, or a non-object body, gives "Network response was not ok"; a null body gives the TypeError of reading `detail` from null |
| `ApiService.AnalyzeResume` | frontend/src/services/api.js:10-29 | fetch and parse errors are rethrown unchanged; a non-ok status always fails, with the message NotOkError gives for the parsed body (the TypeError text for a `null` body); with an ok status: "Invalid response format" iff the body is neither an object nor an array; then "Missing required fields in response" iff a field is falsy or Suggestions is not an array; success iff ok and well-formed, and then the body itself is returned |
| `ApiService.ValidationExamples` | frontend/src/services/api.js:12-25 | a score of 0 is rejected; empty suggestions are accepted; the sample is accepted; an array body is missing fields; a null body has an invalid format; a non-ok reply gives "file too large" from its detail, or the fallback message even with all fields present |
| `BackendMain.IsPdfName` | backend/main.py:109 | a name is accepted iff its last four characters are '.', then p, d, f in either case |
| `BackendMain.ValidateUploads` | backend/main.py:109-112 | passes iff both names are PDF names; a bad resume name is reported first, whatever the other name is |
| `BackendMain.UploadExamples` | backend/main.py:109-112 | "CV.PDF" is accepted; "resume.docx" and "resume.pdf " are refused; with both names bad, the resume error is reported |
| `BackendMain.StripFences` | backend/main.py:76-79 | the input is the output with at most one leading "```markdown\n" and at most one trailing "\n```"; the leading fence is removed whenever present; the trailing one whenever the text left after the leading cut ends with it, at any length; text with neither fence is unchanged |
| `PyText.Strip` | backend/main.py:155 | the result is a slice of the input with only whitespace cut from both ends; it has no whitespace at either end; it is empty iff the input is all whitespace |
| `PyText.RemoveAll` | backend/main.py:154 | the result is never longer than the input; it equals the input iff the pattern does not occur; otherwise it is at least one pattern length shorter |
| `PyText.RemoveAllKeepsPrefix` | backend/main.py:154 | a prefix holding no character that begins the pattern passes through `replace(p, "")` unchanged, and the deletion goes on in what follows |
| `BackendMain.CleanResume` | backend/main.py:147-161 | a successful result is non-empty, stripped, and no longer than the file text; all-whitespace text gives the 500 "Generated resume is empty"; text without markers is only stripped; for marked text, see FencedResume |
| `BackendMain.FencedResume` | backend/main.py:154-161 | a resume wrapped in "```markdown\n" and "\n```", whose body has no backtick and is not blank, is cleaned to its body stripped |
| `BackendMain.RemoveFenceLeavesNone` | backend/main.py:179 | deleting "```" in one pass leaves no "```" |
| `BackendMain.CleanJudgement` | backend/main.py:173-179 | the text passed to json.loads contains no "```", is stripped, and is no longer than the file text; text without fences is only stripped; for fenced text, see FencedJudgement |
| `BackendMain.FencedJudgement` | backend/main.py:179 | a judgement wrapped in "```json" and "```", whose body has no backtick, reaches json.loads as its body stripped |
| `BackendMain.AttachResumePath` | backend/main.py:182-183 | without a generated document the parsed result is returned unchanged; with one, a dict gains exactly the key resume_path with the docx path and keeps every other entry; any other value raises a TypeError |
| `BackendMain.CorsOrigins` | backend/main.py:37-45 | fails with the ValueError message iff neither URL is set; otherwise the list holds the set URLs only, the dev URL first and the prod URL last |

## Left out

- Network and browser I/O are not modelled. This covers `fetch`, the `FormData` object (modelled as the `Request` value), the `/health` probe at frontend/src/App.jsx:19-32, the blob download at frontend/src/App.jsx:149-165, `console` logging and `alert`. The fetch outcome is a parameter (`ApiService.Reply`).
- Intermediate renders between the `setState` calls of one handler are not modelled. Each handler's updates are applied together, as React 18 batches them.
- `Suggestions?.map(...)` on any non-null non-array value (`false`, `0` and `""` included) would throw while rendering, since `?.` only short-circuits null and undefined. The model renders no suggestions in that case. It cannot happen in a reachable state, because step 4 holds a validated body.
- The `default` branch of `renderStep` (a step outside 1 to 4) appears only as `NoScreen`. It is unreachable.
- `ApiService.NullDetailMessage` is V8's wording for reading `detail` from `null`. Other engines word that `TypeError` differently.
- JSON numbers are mathematical reals. Floating-point rounding and Python's int/float distinction are not modelled, because no modelled decision depends on them beyond being zero or not.
- `PyText.LowerAscii` lower-cases ASCII letters only. Python's `lower()` also maps other letters, but none of them lower-cases to '.', 'p', 'd' or 'f', so the ".pdf" test is unaffected.
- The exception handlers at backend/main.py:187-189 and 198-200 re-raise every exception, the 400 and 500 `HTTPException`s included, as a new 500 whose detail is the string form of the caught exception. That string form is defined by the web framework. The model reports each error where it is raised.
- `CORS_ORIGINS` is computed but not used: the middleware at backend/main.py:59 is given the raw pair `[FRONTEND_URL_DEV, FRONTEND_URL_PROD]`, unset values included. The model covers the list and its `ValueError` only.
- File reads and writes, the UTF-8/latin-1 fallback, temp-file cleanup, the spire.doc conversion (its truthy-or-None outcome is the `docGenerated` parameter), `json.loads`, and the server start-up are not modelled. They are I/O or foreign libraries.
- backend/crew.py (LLM agent orchestration) and backend/utils/pdf_generator.py (a wrapper over a PDF library) are not part of this model.
- backend/config/settings.py and backend/gunicorn_config.py (configuration) are not part of this model.
- The presentation components (LandingPage, FileUpload, ModernLoader, LoadingState, AdditionalInfo) and the `useScrollTop` hook are not part of this model. They render or scroll and hold no logic of the flow.
- BackendMain.CleanResume: the output is pinned down exactly for text without markers (only stripped) and for one block wrapped in the two fences whose body holds no backtick (`FencedResume`). For other marked text (several blocks, backticks inside the body, markers in the middle), only the general facts are stated: non-empty, stripped, no longer than the input.
- BackendMain.CleanJudgement: likewise exact only for fence-free text and for one "```json" ... "```" block with a backtick-free body (`FencedJudgement`). For other fenced text the contract states that no "```" is left, and that the text is stripped and no longer than the input.
- Two names disagree across files. The backend adds `resume_path` (backend/main.py:183), while the frontend looks for `improved_resume_path` (frontend/src/App.jsx:146). api.js reads `BACKEND_API_URL` while App.jsx reads `VITE_BACKEND_API_URL`. The model keeps each file's own name, so the download button is modelled as the frontend decides it.
