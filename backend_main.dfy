/**
 * The pure and small imperative steps of the analysis endpoint (backend/main.py): the upload
 * name check, the markdown fence cleanup of the generated resume, the cleanup of the judgement
 * text before it is parsed, the `resume_path` entry, and the CORS origin list. Reading and
 * writing files, the document conversion, the agent run and `json.loads` are not part of it:
 * their results are parameters.
 */
module BackendMain {
  import opened Wrappers
  import opened PyText
  import opened JsValues

  /** An `HTTPException(status_code, detail)`. */
  datatype HttpError = HttpError(status: int, detail: string)

  const PdfSuffix := ".pdf"
  const ResumeNotPdf := HttpError(400, "Resume must be a PDF file")
  const JobDescriptionNotPdf := HttpError(400, "Job description must be a PDF file")
  const EmptyResume := HttpError(500, "Generated resume is empty")

  const MarkdownOpen := "```markdown\n"
  const MarkdownClose := "\n```"
  const JsonOpen := "```json"
  const Fence := "```"

  const ResumePathKey := "resume_path"
  const ResumePath := "output/doc/improved_resume.docx"

  const NoCorsOrigins :=
    "No CORS origins configured. Set FRONTEND_URL_DEV and/or FRONTEND_URL_PROD environment variables."

  // ---------------------------------------------------------------------------------------------
  // Upload check

  /** `filename.lower().endswith('.pdf')`: the name ends in ".pdf" in any mix of letter cases. */
  function IsPdfName(filename: string): (ok: bool)
    ensures ok <==> var n := |filename|;
                    && n >= 4 && filename[n - 4] == '.'
                    && (filename[n - 3] == 'p' || filename[n - 3] == 'P')
                    && (filename[n - 2] == 'd' || filename[n - 2] == 'D')
                    && (filename[n - 1] == 'f' || filename[n - 1] == 'F')
  {
    var lower := LowerAscii(filename);
    var ok := EndsWith(lower, PdfSuffix);
    assert ok ==> lower[|lower| - 4..][0] == '.' && lower[|lower| - 4..][1] == 'p'
                  && lower[|lower| - 4..][2] == 'd' && lower[|lower| - 4..][3] == 'f';
    ok
  }

  /** The two checks that open the endpoint: the resume name first, then the job description name. */
  function ValidateUploads(resumeName: string, jobDescriptionName: string): (r: Result<(), HttpError>)
    ensures r.Success? <==> IsPdfName(resumeName) && IsPdfName(jobDescriptionName)
    // a bad resume name is reported whatever the job description name is
    ensures !IsPdfName(resumeName) ==> r == Failure(ResumeNotPdf)
    ensures IsPdfName(resumeName) && !IsPdfName(jobDescriptionName) ==> r == Failure(JobDescriptionNotPdf)
  {
    if !IsPdfName(resumeName) then Failure(ResumeNotPdf)
    else if !IsPdfName(jobDescriptionName) then Failure(JobDescriptionNotPdf)
    else Success(())
  }

  lemma UploadExamples()
    ensures IsPdfName("CV.PDF") && IsPdfName("resume.pdf") && IsPdfName(".pdf")
    ensures !IsPdfName("resume.docx") && !IsPdfName("pdf") && !IsPdfName("resume.pdf ")
    ensures ValidateUploads("cv.doc", "jd.txt") == Failure(ResumeNotPdf)
  {
  }

  // ---------------------------------------------------------------------------------------------
  // convert_markdown_to_docx: the fences around the file content

  /**
   * The cleanup at the top of `convert_markdown_to_docx`: a leading "```markdown\n" is cut once,
   * then a trailing "\n```" is cut once. The result is the input with at most one fence removed
   * at each end.
   */
  method StripFences(text: string) returns (content: string)
    ensures StartsWith(text, MarkdownOpen) ==>
              text == MarkdownOpen + content || text == MarkdownOpen + content + MarkdownClose
    ensures !StartsWith(text, MarkdownOpen) ==> text == content || text == content + MarkdownClose
    // content without fences passes through unchanged
    ensures !StartsWith(text, MarkdownOpen) && !EndsWith(text, MarkdownClose) ==> content == text
    // a closing fence is removed whenever it does not overlap the opening one
    ensures !StartsWith(text, MarkdownOpen) && EndsWith(text, MarkdownClose) ==> text == content + MarkdownClose
    ensures StartsWith(text, MarkdownOpen) && EndsWith(text[|MarkdownOpen|..], MarkdownClose) ==>
              text == MarkdownOpen + content + MarkdownClose
    ensures EndsWith(text, MarkdownClose) && |text| >= |MarkdownOpen| + |MarkdownClose| ==>
              EndsWith(text, content + MarkdownClose)
  {
    content := text;
    if StartsWith(content, MarkdownOpen) {
      content := content[|MarkdownOpen|..];
    }
    if EndsWith(content, MarkdownClose) {
      content := content[..|content| - 4];
    }
    assert EndsWith(text, MarkdownClose) && |text| >= |MarkdownOpen| + |MarkdownClose| ==>
             EndsWith(content + MarkdownClose, MarkdownClose);
  }

  // ---------------------------------------------------------------------------------------------
  // The generated resume

  /**
   * The markdown of the generated resume as the endpoint cleans it: stripped when read, every
   * "```markdown\n" then every "\n```" deleted, stripped again, and refused when nothing is left.
   */
  function CleanResume(fileText: string): (r: Result<string, HttpError>)
    ensures r.Failure? ==> r.error == EmptyResume
    ensures r.Success? ==> r.value != [] && Trimmed(r.value) && |r.value| <= |fileText|
    ensures AllSpace(fileText) ==> r == Failure(EmptyResume)
    // without any marker the text is only stripped
    ensures !Contains(fileText, MarkdownOpen) && !Contains(fileText, MarkdownClose) && !AllSpace(fileText)
            ==> r == Success(Strip(fileText))
  {
    var content := Strip(fileText);
    var cleaned := Strip(RemoveAll(RemoveAll(content, MarkdownOpen), MarkdownClose));
    assert !Contains(fileText, MarkdownOpen) && !Contains(fileText, MarkdownClose) ==> cleaned == content by {
      if !Contains(fileText, MarkdownOpen) && !Contains(fileText, MarkdownClose) {
        StripLacks(fileText, MarkdownOpen);
        StripLacks(fileText, MarkdownClose);
        StripTrimmed(content);
      }
    }
    if cleaned == [] then Failure(EmptyResume) else Success(cleaned)
  }

  /** Backtick-free text followed by the closing fence loses exactly that fence. */
  lemma {:induction false} DropClose(a: string)
    requires '`' !in a
    ensures RemoveAll(a + MarkdownClose, MarkdownClose) == a
    decreases |a|
  {
    var t := a + MarkdownClose;
    if a == [] {
      assert t[..|MarkdownClose|] == MarkdownClose && t[|MarkdownClose|..] == [];
    } else {
      assert '`' !in a[1..] by {
        forall i | 0 <= i < |a[1..]| ensures a[1..][i] != '`' { assert a[1..][i] == a[i + 1]; }
      }
      DropClose(a[1..]);
      // the second character is a[1] or the fence's newline, never a backtick
      assert t[..|MarkdownClose|] != MarkdownClose by {
        assert t[..|MarkdownClose|][1] == t[1];
        if |a| >= 2 { assert t[1] == a[1]; } else { assert t[1] == '\n'; }
      }
      assert t[1..] == a[1..] + MarkdownClose;
      assert a == [a[0]] + a[1..];
    }
  }

  /** The opening fence at the very start is the first thing deleted. */
  lemma CutMarkdownOpen(b: string)
    ensures RemoveAll(MarkdownOpen + b + MarkdownClose, MarkdownOpen) == RemoveAll(b + MarkdownClose, MarkdownOpen)
  {
    var t := MarkdownOpen + b + MarkdownClose;
    assert t[..|MarkdownOpen|] == MarkdownOpen;
    assert t[|MarkdownOpen|..] == b + MarkdownClose;
  }

  /** Both deletions applied to a fenced backtick-free block leave the block. */
  lemma FencedResumeDeletions(b: string)
    requires '`' !in b
    ensures RemoveAll(RemoveAll(MarkdownOpen + b + MarkdownClose, MarkdownOpen), MarkdownClose) == b
  {
    CutMarkdownOpen(b);
    RemoveAllKeepsPrefix(b, MarkdownClose, MarkdownOpen);
    assert RemoveAll(MarkdownClose, MarkdownOpen) == MarkdownClose;
    DropClose(b);
  }

  /**
   * A resume the agent wrapped in "```markdown\n" ... "\n```" is cleaned to its stripped body,
   * provided the body holds no backtick and is not blank.
   */
  lemma FencedResume(b: string)
    requires '`' !in b && !AllSpace(b)
    ensures CleanResume(MarkdownOpen + b + MarkdownClose) == Success(Strip(b))
  {
    var t := MarkdownOpen + b + MarkdownClose;
    assert Trimmed(t);
    StripTrimmed(t);
    FencedResumeDeletions(b);
  }

  // ---------------------------------------------------------------------------------------------
  // The judgement text

  /** A string that does not start with two backticks does not after the fence removal either. */
  lemma NoDoubleTickStart(t: string)
    requires |t| >= 2 && t[..2] != "``"
    ensures var r := RemoveAll(t, Fence); |r| < 2 || r[..2] != "``"
  {
  }

  /**
   * One left-to-right pass deleting "```" leaves no "```" behind: a kept character is never a
   * backtick directly before a deleted fence, since the fence would then have started there.
   */
  lemma {:induction false} RemoveFenceLeavesNone(s: string)
    ensures !Contains(RemoveAll(s, Fence), Fence)
    decreases |s|
  {
    if |s| < |Fence| {
    } else if s[..3] == Fence {
      RemoveFenceLeavesNone(s[3..]);
    } else {
      RemoveFenceLeavesNone(s[1..]);
      var rest := RemoveAll(s[1..], Fence);
      assert RemoveAll(s, Fence) == [s[0]] + rest;
      if s[0] == '`' {
        assert s[1..][..2] == s[1..3];
        NoDoubleTickStart(s[1..]);
      }
      assert ([s[0]] + rest)[1..] == rest;
    }
  }

  /** "```json" begins with "```", so text without "```" has no "```json" either. */
  lemma NoFenceNoJsonOpen(content: string)
    requires !Contains(content, Fence)
    ensures !Contains(content, JsonOpen)
  {
    if Contains(content, JsonOpen) {
      var k := ContainsWitness(content, JsonOpen);
      assert content[k..k + |Fence|] == content[k..k + |JsonOpen|][..|Fence|];
      ContainsAt(content, Fence, k);
    }
  }

  /** Text without any "```" goes through both deletions unchanged. */
  lemma FenceFreeUnchanged(content: string)
    requires !Contains(content, Fence)
    ensures RemoveAll(RemoveAll(content, JsonOpen), Fence) == content
  {
    NoFenceNoJsonOpen(content);
    assert RemoveAll(content, JsonOpen) == content;
  }

  /**
   * The judgement file as the endpoint cleans it before `json.loads`: stripped when read, every
   * "```json" then every "```" deleted, stripped again. No code fence is left in what is parsed.
   */
  function CleanJudgement(fileText: string): (r: string)
    ensures !Contains(r, Fence)
    ensures Trimmed(r) && |r| <= |fileText|
    ensures !Contains(fileText, Fence) ==> r == Strip(fileText)
  {
    var content := Strip(fileText);
    var withoutJson := RemoveAll(content, JsonOpen);
    var withoutFences := RemoveAll(withoutJson, Fence);
    RemoveFenceLeavesNone(withoutJson);
    StripLacks(withoutFences, Fence);
    if !Contains(fileText, Fence) then
      StripLacks(fileText, Fence);
      FenceFreeUnchanged(content);
      StripTrimmed(content);
      Strip(withoutFences)
    else
      Strip(withoutFences)
  }

  /** The "```json" at the very start is the first thing deleted. */
  lemma CutJsonOpen(j: string)
    ensures RemoveAll(JsonOpen + j + Fence, JsonOpen) == RemoveAll(j + Fence, JsonOpen)
  {
    var t := JsonOpen + j + Fence;
    assert t[..|JsonOpen|] == JsonOpen;
    assert t[|JsonOpen|..] == j + Fence;
  }

  /** Both deletions applied to a fenced backtick-free judgement leave the judgement. */
  lemma FencedJudgementDeletions(j: string)
    requires '`' !in j
    ensures RemoveAll(RemoveAll(JsonOpen + j + Fence, JsonOpen), Fence) == j
  {
    CutJsonOpen(j);
    RemoveAllKeepsPrefix(j, Fence, JsonOpen);
    assert RemoveAll(Fence, JsonOpen) == Fence;
    RemoveAllKeepsPrefix(j, Fence, Fence);
    assert Fence[..|Fence|] == Fence && Fence[|Fence|..] == [];
    assert j + [] == j;
  }

  /**
   * A judgement the agent wrapped in "```json" ... "```" reaches `json.loads` as its stripped
   * body, provided the body holds no backtick.
   */
  lemma FencedJudgement(j: string)
    requires '`' !in j
    ensures CleanJudgement(JsonOpen + j + Fence) == Strip(j)
  {
    var t := JsonOpen + j + Fence;
    assert Trimmed(t);
    StripTrimmed(t);
    FencedJudgementDeletions(j);
  }

  /** A Python `TypeError` from `result["resume_path"] = ...` on a parsed value that is not a dict. */
  datatype TypeError = ItemAssignment(target: Json)

  /**
   * `if doc_generated: result["resume_path"] = "output/doc/improved_resume.docx"`: the parsed
   * judgement gains exactly that key when the document was produced, and is returned as it is
   * otherwise.
   */
  method AttachResumePath(result: Json, docGenerated: bool) returns (r: Result<Json, TypeError>)
    ensures !docGenerated ==> r == Success(result)
    ensures docGenerated && !result.JObj? ==> r == Failure(ItemAssignment(result))
    ensures docGenerated && result.JObj? ==>
              && r.Success? && r.value.JObj?
              && r.value.fields.Keys == result.fields.Keys + {ResumePathKey}
              && r.value.fields[ResumePathKey] == JStr(ResumePath)
              && forall k :: k in result.fields && k != ResumePathKey ==> r.value.fields[k] == result.fields[k]
  {
    r := Success(result);
    if docGenerated {
      if result.JObj? {
        var fields := result.fields;
        fields := fields[ResumePathKey := JStr(ResumePath)];
        r := Success(JObj(fields));
      } else {
        r := Failure(ItemAssignment(result));
      }
    }
  }

  // ---------------------------------------------------------------------------------------------
  // CORS origins

  /** An environment variable counts when it is set and non-empty (`if FRONTEND_URL_DEV:`). */
  predicate IsSet(v: Option<string>)
  {
    v.Some? && v.value != ""
  }

  /**
   * `CORS_ORIGINS`: the development URL, then the production URL, each only when set; a
   * `ValueError` when neither is.
   */
  method CorsOrigins(devUrl: Option<string>, prodUrl: Option<string>) returns (r: Result<seq<string>, string>)
    ensures r.Failure? <==> !IsSet(devUrl) && !IsSet(prodUrl)
    ensures r.Failure? ==> r.error == NoCorsOrigins
    ensures r.Success? ==> |r.value| == (if IsSet(devUrl) then 1 else 0) + (if IsSet(prodUrl) then 1 else 0)
    ensures r.Success? ==> forall o :: o in r.value ==> (IsSet(devUrl) && o == devUrl.value) || (IsSet(prodUrl) && o == prodUrl.value)
    ensures IsSet(devUrl) ==> r.Success? && r.value[0] == devUrl.value
    ensures IsSet(prodUrl) ==> r.Success? && r.value[|r.value| - 1] == prodUrl.value
  {
    var origins: seq<string> := [];
    if IsSet(devUrl) {
      origins := origins + [devUrl.value];
    }
    if IsSet(prodUrl) {
      origins := origins + [prodUrl.value];
    }
    if origins == [] {
      r := Failure(NoCorsOrigins);
    } else {
      r := Success(origins);
    }
  }
}
