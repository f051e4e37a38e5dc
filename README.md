# Internal-testing survey sessions, modelled in Dafny

WellSaid Labs runs two Streamlit survey apps for listening tests of synthesized speech:

- the generic internal test, `apps/internal_test.py`: 20 audio slots, drawn with replacement;
- the voice-expansion test, `apps/voice_expansions/internal_test_template.py`: 40 slots, drawn without replacement, with a "listened" checkbox per slot.

A tester types a company email. Once the email is accepted, the app builds a response table. Each slot adds one row, built from the metadata row whose `Id` is the drawn sample: the speaker name formatted for display, the style taken from the `Session` field, the script and the two model names. The defaults are `Pass? = 0` and an empty comment. On submission, `update_results` merges the radio answers and comments into the table, writes it as `{email}_{timestamp}.csv` under the responses prefix, and marks the session as submitted.

The model keeps the session logic and drops the rendering:

- `py_builtins.dfy` (module `PyBuiltins`) holds the Python built-ins the apps rely on, over ASCII strings: `str.split`, `str.join`, `str.capitalize`, `in` on strings, `str(n)`, `os.path.join`, and the positions selected by a boolean mask.
- `survey.dfy` (module `Survey`) holds the code both apps share. The two copies of `format_speaker_name` and `update_results` are identical; the voice-expansion `email_btn` also clears the `st.cache_data` entries on acceptance, which `VoiceExpansion.EmailBtn` adds around the shared gate:
  - the records;
  - the speaker-name formatting;
  - the email gate;
  - the metadata lookup (`.loc[...].item()`);
  - the construction of one slot row, and the slot loop that stops at the first slot that raises;
  - the answer merge;
  - the response path;
  - the session store `st.session_state` as a class whose `Option` fields stand for keys that may be absent;
  - the `INIT -> FORM_OPEN -> SUBMITTED` life cycle.
- `sampling.dfy` (module `Sampling`) states what `random.sample` and `random.choices` may return. Each draw is a nondeterministic choice among the allowed outputs.
- `internal_test.dfy` (module `InternalTest`) is one run of `main` of the generic internal test.
- `voice_expansion.dfy` (module `VoiceExpansion`) covers the voice-expansion test:
  - the two `st.cache_data` entries, as a `DataCache` object shared by whoever holds it;
  - `load_subset` and `load_data`;
  - the listened checklist and the missing-slot message;
  - one run of `main`.

The model keeps several behaviours of the code exactly as written:

- The voice-expansion column list lacks a comma after `"Audio"`. Python therefore fuses two literals into `"AudioForm Audio ID"`, and the table gains `"Audio"` and `"Form Audio ID"` as extra columns on the first append.
- Slots are drawn as row positions, but rows are looked up by their `Id` column. A lookup succeeds only when exactly one row carries that `Id`.
- The generic internal test draws and appends a fresh set of rows on every run while the form is open. `update_results` only touches rows `0 .. 19`, so answers land on the first draw's rows.
- The email gate is a substring test. An email that starts with `/` makes `os.path.join` drop the responses directory.

## Model

| member | source | states |
|---|---|---|
| PyBuiltins.CapitalizeFixedPoints | apps/voice_expansions/internal_test_template.py:75 | `str.capitalize` is idempotent, and it leaves a token unchanged exactly when the token has no lower-case first letter and no upper-case later letter |
| PyBuiltins.JoinSplit | apps/voice_expansions/internal_test_template.py:75 | joining the pieces of `s.split(sep)` with `sep` gives back `s` |
| PyBuiltins.SplitJoin | apps/voice_expansions/internal_test_template.py:116 | splitting a join of separator-free pieces gives back the pieces, in order |
| PyBuiltins.JoinEndsWithLast | apps/voice_expansions/internal_test_template.py:212 | a join ends with the last character of its last piece |
| PyBuiltins.ContainsIffOccurs | apps/voice_expansions/internal_test_template.py:81 | the left-to-right scan for `needle in s` succeeds exactly when the needle occurs at some index |
| PyBuiltins.NatToString | apps/voice_expansions/internal_test_template.py:211 | `str(n)` is a non-empty string of decimal digits |
| PyBuiltins.ParseNatToString | apps/voice_expansions/internal_test_template.py:211 | reading back the decimal digits of `n` gives `n` |
| PyBuiltins.PositionsSpec | apps/voice_expansions/internal_test_template.py:114 | a boolean selection yields exactly the indices where the mask holds, in strictly increasing order |
| PyBuiltins.SinglePosition | apps/voice_expansions/internal_test_template.py:114 | a mask that holds at exactly one index selects exactly that index |
| Survey.UnionColumnsSpec | apps/voice_expansions/internal_test_template.py:139 | `pd.concat` keeps the existing columns as a prefix and holds exactly the old columns and the row's keys; it adds nothing when every key is already a column |
| Survey.UnionColumnsConcat | apps/voice_expansions/internal_test_template.py:139 | adding keys in two batches gives the same columns as adding them all at once |
| Survey.AppendAllRows | apps/internal_test.py:169 | appending rows leaves the earlier rows unchanged and adds the new ones at the end, in order |
| Survey.AppendAllColumns | apps/internal_test.py:169 | appending rows that share their keys adds each missing key once |
| Survey.FormatSpeakerNameTitled | apps/voice_expansions/internal_test_template.py:74-76 | the formatted name equals a character-by-character reference definition: `_` becomes a space, a token's first character is upper-cased and every other character lower-cased |
| Survey.FormatSpeakerNameAt | apps/voice_expansions/internal_test_template.py:74-76 | the formatted name has the input's length, and each position holds the space, upper-case or lower-case form the token structure dictates |
| Survey.FormatSpeakerNameNoUnderscore | apps/voice_expansions/internal_test_template.py:74-76 | the formatted name contains no `_` |
| Survey.FormatSpeakerNameWords | apps/internal_test.py:53-55 | for a name without spaces, splitting the formatted name on single spaces gives the capitalized `_`-tokens, one word per token, in order |
| Survey.FormatSpeakerNameTwoTokens | apps/internal_test.py:53-55 | `first_last` becomes `Capitalize(first) + " " + Capitalize(last)` |
| Survey.EmailGate | apps/voice_expansions/internal_test_template.py:79-85 | the input is accepted exactly when `@wellsaidlabs.com` occurs in it; the empty input is therefore rejected |
| Survey.EmailGateRejects | apps/internal_test.py:60 | `""` and `foo@bar.com` are rejected |
| Survey.EmailGateAcceptsAnyContaining | apps/internal_test.py:60 | any text around the company domain is accepted, including a look-alike host such as `wellsaidlabs.com.attacker.io` |
| Survey.LookupSpec | apps/voice_expansions/internal_test_template.py:114 | `.loc[Id == id].item()` succeeds exactly when one row has that `Id`, and then yields that row |
| Survey.StyleOfFields | apps/voice_expansions/internal_test_template.py:116 | the style is the third comma-separated field of `Session` |
| Survey.SlotRowSpec | apps/voice_expansions/internal_test_template.py:111-139 | a slot has a row exactly when one metadata row has the drawn `Id` and its session has a third field; the row then carries Audio ID, Form Audio ID = slot + 1, the formatted speaker, the style, script and models, Pass? = 0 and an empty comment |
| Survey.CollectSpec | apps/internal_test.py:133-169 | running over per-slot outcomes keeps the rows before the first failure, in order; it ends without failure exactly when every slot succeeds, and otherwise it names the first failing slot's failure |
| Survey.CollectStops | apps/internal_test.py:133-169 | outcomes after a failure are never looked at |
| Survey.BuildBatchSpec | apps/voice_expansions/internal_test_template.py:111-139 | the slot loop appends one row per slot in slot order up to the first slot that raises, and it completes exactly when every slot has a row |
| Survey.BuildBatchStops | apps/voice_expansions/internal_test_template.py:111-139 | once a slot has raised, later slots are never reached |
| Survey.PositionLookup | apps/voice_expansions/internal_test_template.py:69-70 | when every row's `Id` is its position, looking up a drawn position yields the row at that position |
| Survey.PositionLookupMismatch | apps/voice_expansions/internal_test_template.py:114 | a one-row table whose `Id` is 7 makes the lookup of position 0 fail with no match |
| Survey.MergedSpec | apps/voice_expansions/internal_test_template.py:92-99 | "Yes" gives Pass? = 1 and the slot's comment, "No" gives Pass? = 0 and the comment, any other value leaves the row; rows from `n` on are untouched, and no cell besides Pass? and Comments changes |
| Survey.UnansweredSlotKeepsDefault | apps/internal_test.py:71-78 | a slot whose radio value is neither "Yes" nor "No" keeps Pass? = 0 and an empty comment |
| Survey.ResponsePathUnderDir | apps/voice_expansions/internal_test_template.py:101-102 | for an email not starting with `/`, the file is `dir/{email}_{timestamp}.csv` |
| Survey.ResponsePathAbsoluteEmail | apps/internal_test.py:80-81 | an email starting with `/` makes the path `{email}_{timestamp}.csv`, outside the responses directory |
| Survey.SubmittedIsTerminal | apps/internal_test.py:115 | no sequence of events leaves SUBMITTED |
| Survey.NoReturnToInit | apps/internal_test.py:63 | once the form is open the session never returns to INIT |
| Survey.SubmittedOnlyBySubmit | apps/internal_test.py:85 | SUBMITTED is reached only through a submission |
| Survey.FormOpenOnlyByEmail | apps/internal_test.py:58-64 | from INIT, FORM_OPEN is reached only through an accepted email |
| Survey.SubmissionPassesThroughFormOpen | apps/internal_test.py:124-176 | a session that ends SUBMITTED had a submission while the form was open, since the submit button only exists inside the open form |
| Survey.SubmittedFromInit | apps/internal_test.py:124-176 | from INIT, every path to SUBMITTED has an accepted email before the submission |
| Survey.SessionState.constructor | apps/internal_test.py:97-101 | a fresh session has none of the keys |
| Survey.SessionState.InitSession | apps/internal_test.py:96-113 | `open_form`, `form_disabled` and `user_response` get their defaults (false, false, an empty table with the given columns) only when absent; present values are kept, and the phase does not change |
| Survey.SessionState.EmailBtn | apps/internal_test.py:58-64 | a warning exactly when the gate rejects; acceptance sets `open_form` to true, rejection leaves it unchanged, and the phase moves as the state machine says |
| Survey.SessionState.AppendSlots | apps/voice_expansions/internal_test_template.py:111-139 | the loop appends exactly the slot loop's rows to the existing table and reports the failure that stopped it, if any |
| Survey.SessionState.UpdateResults | apps/voice_expansions/internal_test_template.py:87-106 | the table becomes the merged table, in place; the file written is row 0's email and the timestamp under `dir`, holding the merged table; `form_disabled` becomes true, so the phase moves from FORM_OPEN, the only phase in which the submit button exists, to SUBMITTED |
| Sampling.SampleWithoutReplacement | apps/voice_expansions/internal_test_template.py:69-70 | `random.sample(range(n), k)` yields `k` pairwise-distinct positions below `n`, and raises exactly when `k > n` |
| Sampling.SampleWithReplacement | apps/internal_test.py:127-128 | `random.choices(range(n), k=k)` yields `k` positions below `n`, repeats allowed, and raises exactly when the range is empty and `k > 0` |
| Sampling.DistinctDrawFits | apps/voice_expansions/internal_test_template.py:70 | a distinct draw from `n` positions has at most `n` elements, so `k > n` admits no draw |
| InternalTest.Render | apps/internal_test.py:87-181 | one run of `main`: defaults set when absent; the confirmation alone once submitted; the email form alone while closed; while open, a fresh draw of 20 positions with one row appended per slot, and the run aborts at the first failing slot or on an empty metadata table; the submit button is offered only in phase FORM_OPEN |
| InternalTest.RenderAppendsOneRowPerSlot | apps/internal_test.py:133-169 | a completed run appends exactly 20 rows after the unchanged earlier ones; slot `k`'s row has Form Audio ID `k + 1`, the drawn Audio ID, Pass? = 0, an empty comment and the typed email |
| InternalTest.RerenderAnswersFirstDraw | apps/internal_test.py:71-78 | after two runs with the form open, the answers are merged into the first draw's rows, and the second draw's rows keep their defaults |
| InternalTest.ColumnsMatchRows | apps/internal_test.py:102-113 | the initial column list matches the row keys, so appending adds no column |
| InternalTest.ResponseFileLocation | apps/internal_test.py:18 | the response file is `wellsaid_labs_streamlit_data/test/test_responses/{email}_{timestamp}.csv` |
| InternalTest.Walkthrough | apps/internal_test.py:115-176 | first run, accepted email and a run with the form open; when that run completes and offers the submit button, the submission writes a file of 20 rows named after the email and the last run shows only the confirmation; otherwise the last run is a page whose email button is disabled |
| VoiceExpansion.FusedColumnLabel | apps/voice_expansions/internal_test_template.py:147-160 | the initial list has 11 labels, including `"AudioForm Audio ID"`, and has neither `"Audio"` nor `"Form Audio ID"` |
| VoiceExpansion.LoadedColumns | apps/voice_expansions/internal_test_template.py:151-152 | after the first append the header is the 11 initial labels, then `"Audio"`, then `"Form Audio ID"` |
| VoiceExpansion.DataCache.constructor | apps/voice_expansions/internal_test_template.py:59 | both cache entries start empty |
| VoiceExpansion.DataCache.Clear | apps/voice_expansions/internal_test_template.py:85 | `st.cache_data.clear()` empties both entries |
| VoiceExpansion.LoadSubset | apps/voice_expansions/internal_test_template.py:59-71 | the cached pair when there is one; otherwise the stored metadata and 40 distinct positions below its length, cached, or a ValueError when the table has fewer than 40 rows |
| VoiceExpansion.LoadData | apps/voice_expansions/internal_test_template.py:108-139 | nothing when a completed call is cached; otherwise it raises as `load_subset` does, or appends the slot loop's rows for the cached or fresh subset; the call is cached only when every slot had its row |
| VoiceExpansion.EmailBtn | apps/voice_expansions/internal_test_template.py:79-85 | as the shared email gate, and acceptance also empties the data cache |
| VoiceExpansion.MissingNumbers | apps/voice_expansions/internal_test_template.py:206-212 | the loop that builds `" {i+1},"` per unlistened slot and drops the last character yields the comma-joined labels of the unlistened slots |
| VoiceExpansion.SlotLabelShape | apps/voice_expansions/internal_test_template.py:211 | a label is a space followed by the slot's 1-based decimal number, holding no comma |
| VoiceExpansion.UnlistenedSpec | apps/voice_expansions/internal_test_template.py:209-210 | the listed slots are exactly the unmarked ones, in increasing order |
| VoiceExpansion.LabelsShape | apps/voice_expansions/internal_test_template.py:211 | every label reads back as its slot's 1-based number and holds no comma |
| VoiceExpansion.MissingMessageShape | apps/voice_expansions/internal_test_template.py:212 | with a slot unmarked, the message is non-empty and ends in a digit: no trailing comma |
| VoiceExpansion.SubmitTabSpec | apps/voice_expansions/internal_test_template.py:198-212 | the submit button is offered exactly when every slot is marked; otherwise the message is non-empty and does not end in a comma |
| VoiceExpansion.MissingMessageReadBack | apps/voice_expansions/internal_test_template.py:206-212 | splitting the message on commas gives one piece per unlistened slot, in slot order, each a space followed by that slot's 1-based number |
| VoiceExpansion.Render | apps/voice_expansions/internal_test_template.py:141-217 | one run of `main`: defaults (including 40 unmarked slots) set when absent; the confirmation alone once submitted; the email form alone while closed; while open, `load_data` (a failure aborts the run and leaves `listened`), then each slot reads its row of the session table, so a table with fewer than 40 rows (possible on a `load_data` cache hit) aborts at the first missing row label with only the earlier checkboxes stored; otherwise `listened` becomes this run's checkbox values and the submit tab follows from them; the submit button is offered only in phase FORM_OPEN and over a table of at least 40 rows |
| VoiceExpansion.ShowSlots | apps/voice_expansions/internal_test_template.py:178-212 | slot `i` reads row label `i` of the session table before storing its checkbox: a table of `m < 40` rows fails with a missing row label `m` and stores only the first `m` checkboxes; otherwise all checkboxes are stored and the submit tab follows from them |
| VoiceExpansion.SlotTabsSubmit | apps/voice_expansions/internal_test_template.py:178-205 | the submit button is offered exactly when the session table has a row for every slot and every slot is marked as listened |
| VoiceExpansion.LoadedRows | apps/voice_expansions/internal_test_template.py:111-139 | a completed `load_data` appends exactly 40 rows after the unchanged earlier ones; slot `k`'s row has Form Audio ID `k + 1`, the drawn Audio ID, the audio path `audio/{id}.wav` with its bytes, Pass? = 0, an empty comment and the typed email |
| VoiceExpansion.LoadedRowsDistinct | apps/voice_expansions/internal_test_template.py:69-70 | the rows of one `load_data` show pairwise different samples |
| VoiceExpansion.ResponseFileLocation | apps/voice_expansions/internal_test_template.py:18 | the response file is `.../lyric_and_lee/responses/{email}_{timestamp}.csv` |

## Left out

- Rendering is not modelled: page style, titles, captions, tabs, columns, spinners, the audio player, and the text of the warning and confirmation messages. A run's output is summarised as a `View`.
- Cloud storage is an input or an output value. The metadata CSV read by `conn.read` is a parameter. The audio bytes read by `conn.open` come from a `fetch` function parameter. The file written by `update_results` is returned as a `Written` value, not stored. A failing read or write is not modelled, and neither is the `NameError` branch, which only re-raises.
- `random.sample` and `random.choices` are modelled by their output contracts only. Their distribution is not modelled.
- `time.strftime` is not modelled; the timestamp is an input string.
- The widget values are inputs to the call that reads them. These are the radio choices, the comments, the checkbox values and the typed email. The radio's initial "Yes" is not modelled.
- `st.cache_data` in the voice-expansion test is global to the server, not to one session. `DataCache` is a separate object that several sessions may share, but concurrent sessions are not modelled.
- Survey.SessionState.UpdateResults: requires the table to hold at least `n` rows. `.at[i, col]` on a missing row label would add a row, which the model does not capture. The submit button is offered only over a table of at least `n` rows (`InternalTest.RenderAppendsOneRowPerSlot`, and `VoiceExpansion.Render`'s postcondition), so this case does not arise from the page.
- Case mapping covers ASCII letters only. Python's Unicode case mapping, and the `str(name)` conversion of a non-string speaker value, are not modelled.
- Table cells are typed record fields. pandas dtypes, NaN, and the empty `"AudioForm Audio ID"` column's cells are not modelled.
- `apps/voice_expansions/internal_test_results_template.py` is not part of this model. It only lists the response files.
