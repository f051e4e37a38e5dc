/**
 * The voice-expansion survey (`apps/voice_expansions/internal_test_template.py`):
 * 40 slots drawn without replacement, rows that carry the audio path and
 * bytes, `load_subset` and `load_data` behind `st.cache_data`, a
 * "listened" checkbox per slot, and a submit tab that names the slots not yet
 * marked as listened.
 */
module VoiceExpansion {
  import opened PyBuiltins
  import opened Survey
  import Sampling

  const NumAudio: nat := 40
  const AudioDir: string := "wellsaid_labs_streamlit_data/voice_expansions/2023_q3/lyric_and_lee/audio"
  const ResponsesDir: string := "wellsaid_labs_streamlit_data/voice_expansions/2023_q3/lyric_and_lee/responses"

  /**
   * The columns of the empty response table as the script spells them: a
   * missing comma after "Audio" makes Python fuse it with the next literal,
   * so the list holds "AudioForm Audio ID" and neither "Audio" nor
   * "Form Audio ID".
   */
  const Columns: seq<string> := [
    "Email", "Audio ID", "Audio Path", "Audio" + "Form Audio ID", "Speaker", "Style",
    "Script", "Spectrogram Model", "Signal Model", "Pass?", "Comments"]

  /** The initial `listened` list: no slot marked yet. */
  const Unmarked: seq<bool> := seq(NumAudio, _ => false)

  /** The rows of this flow carry the audio path under `AudioDir` and the bytes read from storage. */
  function Source(csv: seq<MetaRow>, email: string, fetch: nat -> seq<bv8>): RowSource {
    RowSource(csv, email, Some(AudioSource(AudioDir, fetch)))
  }

  // ---------------------------------------------------------------------
  // The initial columns
  // ---------------------------------------------------------------------

  /** The fused label: eleven columns, one of them "AudioForm Audio ID". */
  lemma FusedColumnLabel()
    ensures |Columns| == 11
    ensures "AudioForm Audio ID" in Columns
    ensures "Audio" !in Columns && "Form Audio ID" !in Columns
  {
    assert Columns[3] == "AudioForm Audio ID";
    assert forall i :: 0 <= i < |Columns| ==> Columns[i] != "Audio" && Columns[i] != "Form Audio ID";
  }

  /**
   * Appending the first row brings in the two keys the initial list lacks:
   * the table ends up with twelve named columns plus "AudioForm Audio ID",
   * which stays empty.
   */
  lemma LoadedColumns(t0: Table, rs: seq<Response>)
    requires t0.columns == Columns
    requires rs != []
    requires forall i :: 0 <= i < |rs| ==> rs[i].clip.Some?
    ensures AppendAll(t0, rs).columns == Columns + ["Audio", "Form Audio ID"]
  {
    var known := ["Email", "Audio ID", "Audio Path"];
    var added := ["Audio", "Form Audio ID"];
    var rest := ["Speaker", "Style", "Script", "Spectrogram Model", "Signal Model", "Pass?", "Comments"];
    var keys := known + added + rest;
    forall i | 0 <= i < |rs| ensures RowKeys(rs[i]) == keys {
      ClipRowKeys(rs[i], keys);
    }
    AppendAllColumns(t0, rs, keys);
    UnionColumnsConcat(Columns, known + added, rest);
    UnionColumnsConcat(Columns, known, added);
    KnownKeysUnion(known);
    AddedKeysUnion(added);
    RestKeysUnion(rest);
  }

  lemma ClipRowKeys(r: Response, keys: seq<string>)
    requires r.clip.Some?
    requires keys == ["Email", "Audio ID", "Audio Path"] + ["Audio", "Form Audio ID"]
      + ["Speaker", "Style", "Script", "Spectrogram Model", "Signal Model", "Pass?", "Comments"]
    ensures RowKeys(r) == keys
  {
  }

  lemma KnownKeysUnion(known: seq<string>)
    requires known == ["Email", "Audio ID", "Audio Path"]
    ensures UnionColumns(Columns, known) == Columns
  {
    UnionColumnsSpec(Columns, known);
    assert Columns[0] == known[0] && Columns[1] == known[1] && Columns[2] == known[2];
  }

  lemma AddedKeysUnion(added: seq<string>)
    requires added == ["Audio", "Form Audio ID"]
    ensures UnionColumns(Columns, added) == Columns + added
  {
    FusedColumnLabel();
    assert added[1..] == ["Form Audio ID"];
    assert UnionColumns(Columns, added) == UnionColumns(Columns + ["Audio"], ["Form Audio ID"]);
    assert "Form Audio ID" !in Columns + ["Audio"];
    assert Columns + ["Audio"] + ["Form Audio ID"] == Columns + added;
  }

  lemma RestKeysUnion(rest: seq<string>)
    requires rest == ["Speaker", "Style", "Script", "Spectrogram Model", "Signal Model", "Pass?", "Comments"]
    ensures UnionColumns(Columns + ["Audio", "Form Audio ID"], rest) == Columns + ["Audio", "Form Audio ID"]
  {
    var full := Columns + ["Audio", "Form Audio ID"];
    UnionColumnsSpec(full, rest);
    assert full[4] == rest[0] && full[5] == rest[1] && full[6] == rest[2] && full[7] == rest[3];
    assert full[8] == rest[4] && full[9] == rest[5] && full[10] == rest[6];
  }

  // ---------------------------------------------------------------------
  // The cached loaders
  // ---------------------------------------------------------------------

  /**
   * The entries `st.cache_data` holds for `load_subset` and `load_data`:
   * the metadata and the drawn positions, and whether `load_data` has
   * completed. Neither takes arguments, so each has at most one entry.
   */
  class DataCache {
    var subset: Option<(seq<MetaRow>, seq<nat>)>
    var dataLoaded: bool

    /** A cached subset is a draw of `NumAudio` distinct positions of its table. */
    predicate Valid()
      reads this
    {
      subset.Some? ==> Sampling.IsDrawWithoutReplacement(subset.value.1, |subset.value.0|, NumAudio)
    }

    constructor ()
      ensures Valid() && subset.None? && !dataLoaded
    {
      subset, dataLoaded := None, false;
    }

    /** `st.cache_data.clear()`. */
    method Clear()
      modifies this
      ensures Valid() && subset.None? && !dataLoaded
    {
      subset, dataLoaded := None, false;
    }
  }

  /**
   * `load_subset`: the cached pair when there is one; otherwise the metadata
   * read from storage (`stored`) and `NumAudio` distinct row positions, a
   * ValueError when the table has fewer rows. Only a completed call is cached.
   */
  method LoadSubset(cache: DataCache, stored: seq<MetaRow>) returns (r: Result<(seq<MetaRow>, seq<nat>)>)
    requires cache.Valid()
    modifies cache`subset
    ensures cache.Valid()
    ensures old(cache.subset).Some? ==> r == Ok(old(cache.subset).value) && cache.subset == old(cache.subset)
    ensures old(cache.subset).None? ==> (r.Err? <==> |stored| < NumAudio)
    ensures old(cache.subset).None? && r.Err? ==>
      r.failure == SampleLargerThanPopulation(|stored|, NumAudio) && cache.subset.None?
    ensures old(cache.subset).None? && r.Ok? ==> r.value.0 == stored && cache.subset == Some(r.value)
    ensures r.Ok? ==> Sampling.IsDrawWithoutReplacement(r.value.1, |r.value.0|, NumAudio)
  {
    if cache.subset.Some? {
      return Ok(cache.subset.value);
    }
    var draw := Sampling.SampleWithoutReplacement(|stored|, NumAudio);
    if draw.Err? {
      return Err(draw.failure);
    }
    r := Ok((stored, draw.value));
    cache.subset := Some(r.value);
  }

  /**
   * `load_data`: nothing when a completed call is cached; otherwise the slot
   * loop over the (cached or fresh) subset, appending one row per slot, and
   * the result is cached only when every slot had its row.
   */
  method LoadData(s: SessionState, cache: DataCache, stored: seq<MetaRow>, email: string, fetch: nat -> seq<bv8>)
    returns (failure: Option<Failure>)
    requires cache.Valid() && s.userResponse.Some?
    modifies s`userResponse, cache
    ensures cache.Valid()
    ensures old(cache.dataLoaded) ==>
      && failure.None? && s.userResponse == old(s.userResponse)
      && cache.subset == old(cache.subset) && cache.dataLoaded
    ensures !old(cache.dataLoaded) && old(cache.subset).None? && |stored| < NumAudio ==>
      && failure == Some(SampleLargerThanPopulation(|stored|, NumAudio))
      && s.userResponse == old(s.userResponse) && cache.subset.None? && !cache.dataLoaded
    ensures !old(cache.dataLoaded) && (old(cache.subset).Some? || NumAudio <= |stored|) ==>
      && cache.subset.Some?
      && (old(cache.subset).Some? ==> cache.subset == old(cache.subset))
      && (old(cache.subset).None? ==> cache.subset.value.0 == stored)
      && var b := BuildBatch(Source(cache.subset.value.0, email, fetch), cache.subset.value.1, NumAudio);
      && failure == b.failure
      && s.userResponse == Some(AppendAll(old(s.userResponse).value, b.rows))
      && cache.dataLoaded == b.failure.None?
  {
    if cache.dataLoaded {
      return None;
    }
    var sub := LoadSubset(cache, stored);
    if sub.Err? {
      return Some(sub.failure);
    }
    failure := s.AppendSlots(Source(sub.value.0, email, fetch), sub.value.1, NumAudio);
    if failure.None? {
      cache.dataLoaded := true;
    }
  }

  /** `email_btn` of this flow: on acceptance the form opens and the data cache is cleared. */
  method EmailBtn(s: SessionState, cache: DataCache, input: string) returns (warned: bool)
    modifies s`openForm, cache
    ensures warned == !EmailAccepted(input)
    ensures s.openForm == if EmailAccepted(input) then Some(true) else old(s.openForm)
    ensures EmailAccepted(input) ==> cache.Valid() && cache.subset.None? && !cache.dataLoaded
    ensures !EmailAccepted(input) ==> cache.subset == old(cache.subset) && cache.dataLoaded == old(cache.dataLoaded)
  {
    warned := s.EmailBtn(input);
    if !warned {
      cache.Clear();
    }
  }

  // ---------------------------------------------------------------------
  // The submit tab
  // ---------------------------------------------------------------------

  /** `[not x for x in listened]`. */
  function UnlistenedMask(listened: seq<bool>): seq<bool> {
    seq(|listened|, i requires 0 <= i < |listened| => !listened[i])
  }

  /** The slots not yet marked as listened, in slot order. */
  function Unlistened(listened: seq<bool>): seq<nat> {
    Positions(UnlistenedMask(listened), |listened|)
  }

  /** The label of slot `k` in the missing list: a space and the 1-based slot number. */
  function SlotLabel(k: nat): string {
    " " + NatToString(k + 1)
  }

  function Labels(ks: seq<nat>): seq<string> {
    seq(|ks|, i requires 0 <= i < |ks| => SlotLabel(ks[i]))
  }

  /** The message of the submit tab: the labels of the unlistened slots, comma-separated. */
  function MissingMessage(listened: seq<bool>): string {
    Join(Labels(Unlistened(listened)), ',')
  }

  /** Each label followed by a comma, as the loop accumulates them. */
  function Terminated(pieces: seq<string>): string {
    if pieces == [] then [] else Terminated(pieces[..|pieces| - 1]) + pieces[|pieces| - 1] + [',']
  }

  /** The submit tab: the button once every slot is marked, otherwise the missing list. */
  function SubmitTabFor(listened: seq<bool>): SubmitTab {
    if forall i :: 0 <= i < |listened| ==> listened[i] then SubmitButton
    else MissingSlots(MissingMessage(listened))
  }

  lemma {:induction false} TerminatedJoin(pieces: seq<string>)
    requires |pieces| >= 1
    ensures Terminated(pieces) == Join(pieces, ',') + [',']
  {
    var init := pieces[..|pieces| - 1];
    if |init| >= 1 {
      TerminatedJoin(init);
      JoinSnoc(init, pieces[|pieces| - 1], ',');
      assert init + [pieces[|pieces| - 1]] == pieces;
    }
  }

  /** Dropping the trailing comma of the accumulated labels gives their comma-separated join. */
  lemma TerminatedDropLast(pieces: seq<string>)
    ensures var t := Terminated(pieces);
      (if |t| > 0 then t[..|t| - 1] else t) == Join(pieces, ',')
  {
    if pieces != [] {
      TerminatedJoin(pieces);
    }
  }

  /** One slot of the missing-slot loop: an unlistened slot adds its label and a comma. */
  lemma MissingStep(listened: seq<bool>, i: nat)
    requires i < |listened|
    ensures var mask := UnlistenedMask(listened);
      Terminated(Labels(Positions(mask, i + 1)))
      == Terminated(Labels(Positions(mask, i))) + (if !listened[i] then " " + NatToString(i + 1) + "," else [])
  {
    var mask := UnlistenedMask(listened);
    var before := Labels(Positions(mask, i));
    if !listened[i] {
      assert Positions(mask, i + 1) == Positions(mask, i) + [i];
      assert Labels(Positions(mask, i + 1)) == before + [SlotLabel(i)];
      assert (before + [SlotLabel(i)])[..|before|] == before;
    } else {
      assert Positions(mask, i + 1) == Positions(mask, i);
    }
  }

  /** The missing-slot loop: `" {i+1},"` per unlistened slot, then the last comma dropped. */
  method MissingNumbers(listened: seq<bool>) returns (message: string)
    ensures message == MissingMessage(listened)
  {
    var missing := "";
    for i := 0 to |listened|
      invariant missing == Terminated(Labels(Positions(UnlistenedMask(listened), i)))
    {
      MissingStep(listened, i);
      if !listened[i] {
        missing := missing + (" " + NatToString(i + 1) + ",");
      }
    }
    TerminatedDropLast(Labels(Unlistened(listened)));
    message := if |missing| > 0 then missing[..|missing| - 1] else missing;
  }

  /** A label is a space followed by the decimal slot number, and holds no comma. */
  lemma SlotLabelShape(k: nat)
    ensures |SlotLabel(k)| >= 2 && SlotLabel(k)[0] == ' '
    ensures forall i :: 1 <= i < |SlotLabel(k)| ==> IsDigit(SlotLabel(k)[i])
    ensures ',' !in SlotLabel(k)
    ensures ParseNat(SlotLabel(k)[1..]) == k + 1
  {
    var digits := NatToString(k + 1);
    assert SlotLabel(k)[1..] == digits;
    ParseNatToString(k + 1);
  }

  /** The unlistened slots are exactly the unmarked ones, in increasing order. */
  lemma UnlistenedSpec(listened: seq<bool>)
    ensures forall k: nat :: k in Unlistened(listened) <==> k < |listened| && !listened[k]
    ensures forall i, j :: 0 <= i < j < |Unlistened(listened)| ==>
      Unlistened(listened)[i] < Unlistened(listened)[j]
  {
    PositionsSpec(UnlistenedMask(listened), |listened|);
  }

  /** Some slot left unmarked means some slot listed. */
  lemma UnlistenedNonEmpty(listened: seq<bool>, i: nat)
    requires i < |listened| && !listened[i]
    ensures Unlistened(listened) != []
  {
    UnlistenedSpec(listened);
    assert i in Unlistened(listened);
  }

  /** Every label of the list is a space and a slot number, without a comma. */
  lemma LabelsShape(ks: seq<nat>)
    ensures |Labels(ks)| == |ks|
    ensures forall j :: 0 <= j < |ks| ==>
      var p := Labels(ks)[j];
      |p| >= 2 && p[0] == ' ' && IsDigit(p[|p| - 1]) && ',' !in p && ParseNat(p[1..]) == ks[j] + 1
  {
    forall j | 0 <= j < |ks|
      ensures var p := Labels(ks)[j];
        |p| >= 2 && p[0] == ' ' && IsDigit(p[|p| - 1]) && ',' !in p && ParseNat(p[1..]) == ks[j] + 1
    {
      SlotLabelShape(ks[j]);
    }
  }

  /** With a slot left unmarked, the message is non-empty and ends in a digit, not a comma. */
  lemma MissingMessageShape(listened: seq<bool>)
    requires exists i :: 0 <= i < |listened| && !listened[i]
    ensures var m := MissingMessage(listened);
      m != [] && IsDigit(m[|m| - 1])
  {
    var i :| 0 <= i < |listened| && !listened[i];
    UnlistenedNonEmpty(listened, i);
    var ks := Unlistened(listened);
    LabelsShape(ks);
    JoinEndsWithLast(Labels(ks), ',');
  }

  /**
   * The submit tab offers the button exactly when every slot is marked;
   * otherwise its message is non-empty and ends in a digit, not a comma.
   */
  lemma SubmitTabSpec(listened: seq<bool>)
    ensures SubmitTabFor(listened) == SubmitButton <==> forall i :: 0 <= i < |listened| ==> listened[i]
    ensures SubmitTabFor(listened).MissingSlots? ==>
      var m := SubmitTabFor(listened).message;
      m != [] && IsDigit(m[|m| - 1])
  {
    if SubmitTabFor(listened).MissingSlots? {
      MissingMessageShape(listened);
    }
  }

  /**
   * Reading the message back: splitting it on commas gives one piece per
   * unlistened slot, in slot order, and each piece is a space followed by
   * that slot's 1-based number.
   */
  lemma MissingMessageReadBack(listened: seq<bool>)
    requires exists i :: 0 <= i < |listened| && !listened[i]
    ensures var ks := Unlistened(listened);
      var pieces := Split(MissingMessage(listened), ',');
      && |pieces| == |ks|
      && forall j :: 0 <= j < |ks| ==>
           |pieces[j]| >= 2 && pieces[j][0] == ' ' && ParseNat(pieces[j][1..]) == ks[j] + 1
  {
    var i :| 0 <= i < |listened| && !listened[i];
    UnlistenedNonEmpty(listened, i);
    var ks := Unlistened(listened);
    var labels := Labels(ks);
    LabelsShape(ks);
    assert forall p :: p in labels ==> ',' !in p;
    SplitJoin(labels, ',');
  }

  // ---------------------------------------------------------------------
  // One run of main
  // ---------------------------------------------------------------------

  /**
   * The slot tabs of a run whose table holds `m` rows: slot `i` reads row
   * label `i` before storing its checkbox, so a table shorter than `NumAudio`
   * fails at label `m` with only the slots before it stored; otherwise every
   * checkbox is stored and the submit tab follows from them.
   */
  predicate SlotTabs(m: nat, l0: seq<bool>, checks: seq<bool>, view: View, listened: Option<seq<bool>>)
    requires |l0| == NumAudio && |checks| == NumAudio
  {
    if m < NumAudio then
      view == Page(false, SurveyFailed(MissingRowLabel(m))) && listened == Some(checks[..m] + l0[m..])
    else
      view == Page(false, SurveyShown(SubmitTabFor(checks))) && listened == Some(checks)
  }

  /**
   * The submit button needs both a table with a row label for every slot
   * and every slot marked; a table shorter than `NumAudio` never offers it.
   */
  lemma SlotTabsSubmit(m: nat, l0: seq<bool>, checks: seq<bool>, view: View, listened: Option<seq<bool>>)
    requires |l0| == NumAudio && |checks| == NumAudio
    requires SlotTabs(m, l0, checks, view, listened)
    ensures OffersSubmit(view) <==> m >= NumAudio && forall i :: 0 <= i < NumAudio ==> checks[i]
  {
    if m >= NumAudio {
      SubmitTabSpec(checks);
    }
  }

  /**
   * The tabs of a run with the form open, after `load_data`: slot `i` reads
   * row label `i` of the session table and then stores its checkbox value;
   * the submit tab follows from the stored values.
   */
  method ShowSlots(s: SessionState, checks: seq<bool>) returns (view: View)
    requires s.userResponse.Some? && s.listened.Some?
    requires |s.listened.value| == NumAudio && |checks| == NumAudio
    modifies s`listened
    ensures SlotTabs(|s.userResponse.value.rows|, old(s.listened.value), checks, view, s.listened)
  {
    ghost var l0 := s.listened.value;
    var m := |s.userResponse.value.rows|;
    for i := 0 to NumAudio
      invariant s.listened.Some? && |s.listened.value| == NumAudio
      invariant i <= m
      invariant s.listened.value == checks[..i] + l0[i..]
      modifies s`listened
    {
      if i == m {
        return Page(false, SurveyFailed(MissingRowLabel(i)));
      }
      s.listened := Some(s.listened.value[i := checks[i]]);
      assert s.listened.value == checks[..i + 1] + l0[i + 1..];
    }
    assert checks[..NumAudio] == checks && l0[NumAudio..] == [];
    assert s.listened.value == checks;
    var marks := s.listened.value;
    if forall i :: 0 <= i < |marks| ==> marks[i] {
      view := Page(false, SurveyShown(SubmitButton));
    } else {
      var message := MissingNumbers(marks);
      view := Page(false, SurveyShown(MissingSlots(message)));
    }
  }


  /**
   * One run of `main`: the session keys get their defaults when absent; a
   * submitted session shows only the confirmation; while the form is open
   * `load_data` runs (a failure aborts the run), then each slot reads its row
   * of the session table (a missing row label aborts the run) and stores its
   * checkbox value (`checks`) in `listened`, and the submit tab follows from it.
   */
  method Render(s: SessionState, cache: DataCache, stored: seq<MetaRow>, emailInput: string,
                fetch: nat -> seq<bv8>, checks: seq<bool>) returns (view: View)
    requires cache.Valid()
    requires |checks| == NumAudio
    requires s.listened.Some? ==> |s.listened.value| == NumAudio
    modifies s`openForm, s`formDisabled, s`userResponse, s`listened, cache
    ensures cache.Valid()
    ensures s.openForm == OrDefault(old(s.openForm), false)
    ensures s.formDisabled == OrDefault(old(s.formDisabled), false)
    ensures s.CurrentPhase() == old(s.CurrentPhase())
    ensures OffersSubmit(view) ==> s.CurrentPhase() == FormOpen
    ensures s.listened.Some? && |s.listened.value| == NumAudio
    ensures var t0 := OrDefault(old(s.userResponse), Table(Columns, [])).value;
      var l0 := OrDefault(old(s.listened), Unmarked).value;
      if s.formDisabled == Some(true) || s.openForm != Some(true) then
        && view == (if s.formDisabled == Some(true) then Confirmation else Page(true, NoSurvey))
        && s.userResponse == Some(t0) && s.listened == Some(l0)
        && cache.subset == old(cache.subset) && cache.dataLoaded == old(cache.dataLoaded)
      else if old(cache.dataLoaded) then
        && s.userResponse == Some(t0) && SlotTabs(|t0.rows|, l0, checks, view, s.listened)
        && cache.subset == old(cache.subset) && cache.dataLoaded
      else if old(cache.subset).None? && |stored| < NumAudio then
        && view == Page(false, SurveyFailed(SampleLargerThanPopulation(|stored|, NumAudio)))
        && s.userResponse == Some(t0) && s.listened == Some(l0)
        && cache.subset.None? && !cache.dataLoaded
      else
        && cache.subset.Some?
        && (if old(cache.subset).Some? then cache.subset == old(cache.subset) else cache.subset.value.0 == stored)
        && var b := BuildBatch(Source(cache.subset.value.0, emailInput, fetch), cache.subset.value.1, NumAudio);
        && s.userResponse == Some(AppendAll(t0, b.rows))
        && cache.dataLoaded == b.failure.None?
        && (b.failure.Some? ==> view == Page(false, SurveyFailed(b.failure.value)) && s.listened == Some(l0))
        && (b.failure.None? ==> SlotTabs(|s.userResponse.value.rows|, l0, checks, view, s.listened))
    ensures OffersSubmit(view) ==> |s.userResponse.value.rows| >= NumAudio
  {
    s.InitSession(Columns);
    if s.listened.None? {
      s.listened := Some(Unmarked);
    }
    if s.formDisabled == Some(true) {
      return Confirmation;
    }
    if s.openForm != Some(true) {
      return Page(true, NoSurvey);
    }
    var failure := LoadData(s, cache, stored, emailInput, fetch);
    if failure.Some? {
      return Page(false, SurveyFailed(failure.value));
    }
    view := ShowSlots(s, checks);
  }

  /** A run that completes appends one row per slot, with the slot's audio path and bytes. */
  lemma LoadedRows(t0: Table, csv: seq<MetaRow>, email: string, fetch: nat -> seq<bv8>, subset: seq<nat>)
    requires Sampling.IsDrawWithoutReplacement(subset, |csv|, NumAudio)
    requires BuildBatch(Source(csv, email, fetch), subset, NumAudio).failure.None?
    ensures var rows := AppendAll(t0, BuildBatch(Source(csv, email, fetch), subset, NumAudio).rows).rows;
      && |rows| == |t0.rows| + NumAudio
      && rows[..|t0.rows|] == t0.rows
      && forall j :: |t0.rows| <= j < |rows| ==>
           var k := j - |t0.rows|;
           && rows[j].formAudioId == k + 1 && rows[j].audioId == subset[k]
           && rows[j].clip == Some(Clip(AudioPath(AudioDir, subset[k]), fetch(subset[k])))
           && rows[j].passed == 0 && rows[j].comments == [] && rows[j].email == email
  {
    var src := Source(csv, email, fetch);
    var b := BuildBatch(src, subset, NumAudio);
    BuildBatchSpec(src, subset, NumAudio);
    AppendAllRows(t0, b.rows);
    forall k | 0 <= k < NumAudio
      ensures b.rows[k].formAudioId == k + 1 && b.rows[k].audioId == subset[k]
      ensures b.rows[k].clip == Some(Clip(AudioPath(AudioDir, subset[k]), fetch(subset[k])))
      ensures b.rows[k].passed == 0 && b.rows[k].comments == [] && b.rows[k].email == email
    {
      assert SlotRow(src, subset[k], k) == Ok(b.rows[k]);
    }
  }

  /** Slots of one draw show pairwise different samples. */
  lemma LoadedRowsDistinct(csv: seq<MetaRow>, email: string, fetch: nat -> seq<bv8>, subset: seq<nat>)
    requires Sampling.IsDrawWithoutReplacement(subset, |csv|, NumAudio)
    requires BuildBatch(Source(csv, email, fetch), subset, NumAudio).failure.None?
    ensures var rows := BuildBatch(Source(csv, email, fetch), subset, NumAudio).rows;
      forall i, j :: 0 <= i < j < |rows| ==> rows[i].audioId != rows[j].audioId
  {
    var src := Source(csv, email, fetch);
    var rows := BuildBatch(src, subset, NumAudio).rows;
    BuildBatchSpec(src, subset, NumAudio);
    forall i, j | 0 <= i < j < |rows| ensures rows[i].audioId != rows[j].audioId {
      assert SlotRow(src, subset[i], i) == Ok(rows[i]);
      assert SlotRow(src, subset[j], j) == Ok(rows[j]);
    }
  }

  /** The response file of this flow: `responses/{email}_{timestamp}.csv`. */
  lemma ResponseFileLocation(email: string, timestamp: string)
    requires !StartsWith(email, "/")
    ensures ResponsePath(ResponsesDir, email, timestamp)
      == "wellsaid_labs_streamlit_data/voice_expansions/2023_q3/lyric_and_lee/responses/" + email + "_" + timestamp + ".csv"
  {
    ResponsePathUnderDir(ResponsesDir, email, timestamp);
  }
}
