/**
 * The generic internal-test survey (`apps/internal_test.py`): 20 slots drawn
 * with replacement, the metadata and audio under `test/`, and a `main` that
 * draws and appends a fresh set of rows on every run while the form is open.
 */
module InternalTest {
  import opened PyBuiltins
  import opened Survey
  import Sampling

  const NumAudio: nat := 20
  const ResponsesDir: string := "wellsaid_labs_streamlit_data/test/test_responses"

  /** The columns of the empty response table, one per key of a row. */
  const Columns: seq<string> := [
    "Email", "Audio ID", "Form Audio ID", "Speaker", "Style", "Script",
    "Spectrogram Model", "Signal Model", "Pass?", "Comments"]

  /** The rows of this flow carry no audio columns (the audio is only played back). */
  function Source(csv: seq<MetaRow>, email: string): RowSource {
    RowSource(csv, email, None)
  }

  /**
   * One run of `main`: the session keys are initialised when absent; a
   * submitted session shows only the confirmation; otherwise the email form
   * is shown, and while the form is open a fresh draw of `NumAudio` slots is
   * made and one row per slot is appended to the table.
   */
  method Render(s: SessionState, csv: seq<MetaRow>, emailInput: string) returns (view: View, subset: seq<nat>)
    modifies s`openForm, s`formDisabled, s`userResponse
    ensures s.openForm == OrDefault(old(s.openForm), false)
    ensures s.formDisabled == OrDefault(old(s.formDisabled), false)
    ensures s.CurrentPhase() == old(s.CurrentPhase())
    ensures OffersSubmit(view) ==> s.CurrentPhase() == FormOpen
    ensures var t0 := OrDefault(old(s.userResponse), Table(Columns, [])).value;
      if s.formDisabled == Some(true) then
        view == Confirmation && s.userResponse == Some(t0)
      else if s.openForm != Some(true) then
        view == Page(true, NoSurvey) && s.userResponse == Some(t0)
      else if csv == [] then
        view == Page(false, SurveyFailed(EmptyPopulation)) && s.userResponse == Some(t0)
      else
        && Sampling.IsDrawWithReplacement(subset, |csv|, NumAudio)
        && var b := BuildBatch(Source(csv, emailInput), subset, NumAudio);
        && s.userResponse == Some(AppendAll(t0, b.rows))
        && view == Page(false, if b.failure.Some? then SurveyFailed(b.failure.value) else SurveyShown(SubmitButton))
  {
    s.InitSession(Columns);
    subset := [];
    if s.formDisabled == Some(true) {
      view := Confirmation;
      return;
    }
    if s.openForm != Some(true) {
      view := Page(true, NoSurvey);
      return;
    }
    var draw := Sampling.SampleWithReplacement(|csv|, NumAudio);
    if draw.Err? {
      view := Page(false, SurveyFailed(draw.failure));
      return;
    }
    subset := draw.value;
    var failure := s.AppendSlots(Source(csv, emailInput), subset, NumAudio);
    view := Page(false, if failure.Some? then SurveyFailed(failure.value) else SurveyShown(SubmitButton));
  }

  /**
   * A run that completes appends exactly `NumAudio` rows after the earlier
   * ones, which stay as they were; slot `k`'s row has Form Audio ID `k + 1`,
   * the drawn position as Audio ID, Pass? = 0 and an empty comment.
   */
  lemma RenderAppendsOneRowPerSlot(t0: Table, csv: seq<MetaRow>, email: string, subset: seq<nat>)
    requires Sampling.IsDrawWithReplacement(subset, |csv|, NumAudio)
    requires BuildBatch(Source(csv, email), subset, NumAudio).failure.None?
    ensures var rows := AppendAll(t0, BuildBatch(Source(csv, email), subset, NumAudio).rows).rows;
      && |rows| == |t0.rows| + NumAudio
      && rows[..|t0.rows|] == t0.rows
      && forall j :: |t0.rows| <= j < |rows| ==>
           var k := j - |t0.rows|;
           rows[j].formAudioId == k + 1 && rows[j].audioId == subset[k] && rows[j].audioId < |csv| &&
           rows[j].passed == 0 && rows[j].comments == [] && rows[j].email == email
  {
    var b := BuildBatch(Source(csv, email), subset, NumAudio);
    BuildBatchSpec(Source(csv, email), subset, NumAudio);
    AppendAllRows(t0, b.rows);
    forall k | 0 <= k < NumAudio
      ensures b.rows[k].formAudioId == k + 1 && b.rows[k].audioId == subset[k] &&
              b.rows[k].passed == 0 && b.rows[k].comments == [] && b.rows[k].email == email
    {
      assert SlotRow(Source(csv, email), subset[k], k) == Ok(b.rows[k]);
    }
  }

  /**
   * Every run while the form is open draws again and appends again, but
   * `update_results` merges the answers into rows `0 .. NumAudio-1` only: after
   * two runs the answers land on the first draw's rows, while the rows of
   * the second draw, whose audio the answers were given for, keep their
   * defaults.
   */
  lemma RerenderAnswersFirstDraw(t0: Table, first: seq<Response>, second: seq<Response>,
                                 choices: seq<string>, comments: seq<string>)
    requires t0.rows == [] && |first| == NumAudio && |second| == NumAudio
    requires |choices| >= NumAudio && |comments| >= NumAudio
    ensures var rows := AppendAll(AppendAll(t0, first), second).rows;
      && |rows| == 2 * NumAudio
      && Merged(rows, choices, comments, NumAudio)[..NumAudio] == Merged(first, choices, comments, NumAudio)
      && Merged(rows, choices, comments, NumAudio)[NumAudio..] == second
  {
    AppendAllRows(t0, first);
    AppendAllRows(AppendAll(t0, first), second);
    var rows := AppendAll(AppendAll(t0, first), second).rows;
    assert rows == first + second;
  }

  /** The rows of this flow match the initial column list, so appending adds no column. */
  lemma ColumnsMatchRows(t0: Table, rs: seq<Response>)
    requires t0.columns == Columns
    requires forall i :: 0 <= i < |rs| ==> rs[i].clip.None?
    ensures AppendAll(t0, rs).columns == Columns
  {
    if rs != [] {
      var keys := RowKeys(rs[0]);
      assert forall i :: 0 <= i < |rs| ==> RowKeys(rs[i]) == keys;
      AppendAllColumns(t0, rs, keys);
      UnionColumnsSpec(Columns, keys);
    }
  }

  /** The response file of this flow: `test_responses/{email}_{timestamp}.csv`. */
  lemma ResponseFileLocation(email: string, timestamp: string)
    requires !StartsWith(email, "/")
    ensures ResponsePath(ResponsesDir, email, timestamp)
      == "wellsaid_labs_streamlit_data/test/test_responses/" + email + "_" + timestamp + ".csv"
  {
    ResponsePathUnderDir(ResponsesDir, email, timestamp);
  }

  /**
   * A whole session as the buttons drive it: first run, accepted email, a
   * run with the form open and, when that run offers the submit button,
   * submission and a final run that shows only the confirmation.
   */
  method Walkthrough(csv: seq<MetaRow>, email: string, timestamp: string, choices: seq<string>, comments: seq<string>)
    returns (file: Option<Written>, last: View)
    requires EmailAccepted(email)
    requires |choices| >= NumAudio && |comments| >= NumAudio
    ensures file.Some? ==> last == Confirmation
    ensures file.Some? ==> |file.value.table.rows| == NumAudio
    ensures file.Some? ==> file.value.path == ResponsePath(ResponsesDir, email, timestamp)
    ensures file.None? ==> last.Page? && !last.emailButtonEnabled
  {
    var s := new SessionState();
    var view, subset := Render(s, csv, email);
    assert view == Page(true, NoSurvey);
    var warned := s.EmailBtn(email);
    assert s.userResponse == Some(Table(Columns, []));
    view, subset := Render(s, csv, email);
    file := None;
    if OffersSubmit(view) {
      var b := BuildBatch(Source(csv, email), subset, NumAudio);
      assert s.userResponse == Some(AppendAll(Table(Columns, []), b.rows));
      assert b.failure.None?;
      RenderAppendsOneRowPerSlot(Table(Columns, []), csv, email, subset);
      assert s.userResponse.value.rows[0].email == email;
      var written := s.UpdateResults(NumAudio, ResponsesDir, timestamp, choices, comments);
      file := Some(written);
    }
    last, subset := Render(s, csv, email);
  }
}
