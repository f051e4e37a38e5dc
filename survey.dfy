/**
 * The survey-session logic that the generic internal test and the
 * voice-expansion test share: the metadata and response records, speaker
 * name formatting, the email gate, the per-slot row construction, the
 * answer merge of `update_results`, the response file name, and the
 * session store with its INIT -> FORM_OPEN -> SUBMITTED life cycle.
 */
module Survey {
  import opened PyBuiltins

  datatype Option<T> = None | Some(value: T)

  /** Why a run of a survey script raises instead of finishing. */
  datatype Failure =
    | NotExactlyOneRow(id: int, matches: nat)              // `.item()` on a selection that is not one row
    | TooFewSessionFields(id: int)                         // `Session.split(",")[2]` on fewer than three fields
    | SampleLargerThanPopulation(population: nat, k: nat)  // `random.sample` with k > population
    | EmptyPopulation                                      // `random.choices` from an empty range
    | MissingRowLabel(row: nat)                            // `.loc[row, column]` on a table without that row label

  datatype Result<T> = Ok(value: T) | Err(failure: Failure)

  /** One row of the metadata table read from storage. */
  datatype MetaRow = MetaRow(
    id: int, speaker: string, session: string, script: string,
    spectrogramModel: string, signalModel: string)

  /** The audio columns a voice-expansion row carries: storage path and bytes. */
  datatype Clip = Clip(path: string, audio: seq<bv8>)

  /** One response row: sampled metadata plus the answer cells `Pass?` and `Comments`. */
  datatype Response = Response(
    email: string, audioId: nat, clip: Option<Clip>, formAudioId: nat,
    speaker: string, style: string, script: string,
    spectrogramModel: string, signalModel: string,
    passed: nat, comments: string)

  /** The session's response DataFrame: its column labels and its rows. */
  datatype Table = Table(columns: seq<string>, rows: seq<Response>)

  /** What `update_results` writes: the storage path and the table serialised there. */
  datatype Written = Written(path: string, table: Table)

  // ---------------------------------------------------------------------
  // The response table and pd.concat
  // ---------------------------------------------------------------------

  /** The keys of the `pd.Series` a row is built from, in order. */
  function RowKeys(r: Response): seq<string> {
    ["Email", "Audio ID"]
    + (if r.clip.Some? then ["Audio Path", "Audio"] else [])
    + ["Form Audio ID", "Speaker", "Style", "Script",
       "Spectrogram Model", "Signal Model", "Pass?", "Comments"]
  }

  /** The columns of `pd.concat`: the existing ones, then each unseen key in order. */
  function UnionColumns(columns: seq<string>, keys: seq<string>): seq<string>
    decreases |keys|
  {
    if keys == [] then columns
    else UnionColumns(if keys[0] in columns then columns else columns + [keys[0]], keys[1..])
  }

  /** The union keeps the old columns as a prefix and holds exactly the old columns and the keys. */
  lemma {:induction false} UnionColumnsSpec(columns: seq<string>, keys: seq<string>)
    ensures columns <= UnionColumns(columns, keys)
    ensures forall k :: k in UnionColumns(columns, keys) <==> k in columns || k in keys
    ensures (forall k :: k in keys ==> k in columns) ==> UnionColumns(columns, keys) == columns
    decreases |keys|
  {
    if keys != [] {
      var next := if keys[0] in columns then columns else columns + [keys[0]];
      UnionColumnsSpec(next, keys[1..]);
      assert keys == [keys[0]] + keys[1..];
    }
  }

  /** Adding keys in two batches is adding them all at once. */
  lemma {:induction false} UnionColumnsConcat(columns: seq<string>, k1: seq<string>, k2: seq<string>)
    ensures UnionColumns(columns, k1 + k2) == UnionColumns(UnionColumns(columns, k1), k2)
    decreases |k1|
  {
    if k1 == [] {
      assert k1 + k2 == k2;
    } else {
      var next := if k1[0] in columns then columns else columns + [k1[0]];
      assert (k1 + k2)[0] == k1[0];
      assert (k1 + k2)[1..] == k1[1..] + k2;
      UnionColumnsConcat(next, k1[1..], k2);
    }
  }

  /** `pd.concat([table, row.to_frame().T], ignore_index=True)`. */
  function Append(t: Table, r: Response): Table {
    Table(UnionColumns(t.columns, RowKeys(r)), t.rows + [r])
  }

  /** Appending several rows, one `pd.concat` per row. */
  function AppendAll(t: Table, rs: seq<Response>): Table {
    if rs == [] then t else Append(AppendAll(t, rs[..|rs| - 1]), rs[|rs| - 1])
  }

  lemma AppendAllSnoc(t: Table, rs: seq<Response>, r: Response)
    ensures AppendAll(t, rs + [r]) == Append(AppendAll(t, rs), r)
  {
    assert (rs + [r])[..|rs|] == rs;
  }

  /** Appending never touches the rows already in the table. */
  lemma {:induction false} AppendAllRows(t: Table, rs: seq<Response>)
    ensures AppendAll(t, rs).rows == t.rows + rs
  {
    if rs != [] {
      AppendAllRows(t, rs[..|rs| - 1]);
      assert rs[..|rs| - 1] + [rs[|rs| - 1]] == rs;
    }
  }

  /** Appending rows that all carry the keys `keys` adds those keys once. */
  lemma {:induction false} AppendAllColumns(t: Table, rs: seq<Response>, keys: seq<string>)
    requires rs != []
    requires forall i :: 0 <= i < |rs| ==> RowKeys(rs[i]) == keys
    ensures AppendAll(t, rs).columns == UnionColumns(t.columns, keys)
  {
    var init := rs[..|rs| - 1];
    if init != [] {
      AppendAllColumns(t, init, keys);
      UnionColumnsSpec(t.columns, keys);
      UnionColumnsSpec(UnionColumns(t.columns, keys), keys);
    }
  }

  // ---------------------------------------------------------------------
  // format_speaker_name
  // ---------------------------------------------------------------------

  function CapitalizeAll(tokens: seq<string>): (words: seq<string>)
    ensures |words| == |tokens|
    ensures forall i :: 0 <= i < |tokens| ==> words[i] == Capitalize(tokens[i])
  {
    if tokens == [] then [] else [Capitalize(tokens[0])] + CapitalizeAll(tokens[1..])
  }

  /** `" ".join(t.capitalize() for t in name.split("_"))`. */
  function FormatSpeakerName(name: string): string {
    Join(CapitalizeAll(Split(name, '_')), ' ')
  }

  /** Reference definition, one character at a time: `_` becomes a space, a word's first letter is upper-cased, the others lower-cased. */
  function TitledFrom(s: string, atWordStart: bool): string {
    if s == [] then []
    else if s[0] == '_' then [' '] + TitledFrom(s[1..], true)
    else [if atWordStart then Upper(s[0]) else Lower(s[0])] + TitledFrom(s[1..], false)
  }

  /** Whether character `i` of `name` begins a `_`-separated token. */
  predicate WordStart(name: string, i: nat)
    requires i < |name|
  {
    i == 0 || name[i - 1] == '_'
  }

  lemma {:induction false} TitledFromTokens(s: string, atWordStart: bool)
    ensures var ts := Split(s, '_');
      TitledFrom(s, atWordStart)
      == Join([if atWordStart then Capitalize(ts[0]) else LowerAll(ts[0])] + CapitalizeAll(ts[1..]), ' ')
  {
    if s != [] {
      var rest := Split(s[1..], '_');
      if s[0] == '_' {
        TitledFromTokens(s[1..], true);
        assert Split(s, '_') == [[]] + rest;
        assert ([[]] + rest)[1..] == rest;
        assert CapitalizeAll(rest) == [Capitalize(rest[0])] + CapitalizeAll(rest[1..]);
        assert LowerAll([]) == [];
        assert ([[]] + CapitalizeAll(rest))[1..] == CapitalizeAll(rest);
      } else {
        TitledFromTokens(s[1..], false);
        var head := [s[0]] + rest[0];
        assert Split(s, '_') == [head] + rest[1..];
        assert ([head] + rest[1..])[1..] == rest[1..];
        var c := if atWordStart then Upper(s[0]) else Lower(s[0]);
        assert (if atWordStart then Capitalize(head) else LowerAll(head)) == [c] + LowerAll(rest[0]);
        JoinConsHead([c], LowerAll(rest[0]), CapitalizeAll(rest[1..]), ' ');
      }
    }
  }

  /** The formatted name is the character-by-character reference definition. */
  lemma FormatSpeakerNameTitled(name: string)
    ensures FormatSpeakerName(name) == TitledFrom(name, true)
  {
    var ts := Split(name, '_');
    TitledFromTokens(name, true);
    assert CapitalizeAll(ts) == [Capitalize(ts[0])] + CapitalizeAll(ts[1..]);
  }

  lemma {:induction false} TitledFromAt(s: string, atWordStart: bool)
    ensures |TitledFrom(s, atWordStart)| == |s|
    ensures forall i :: 0 <= i < |s| ==> (TitledFrom(s, atWordStart)[i] ==
      if s[i] == '_' then ' '
      else if (if i == 0 then atWordStart else s[i - 1] == '_') then Upper(s[i])
      else Lower(s[i]))
  {
    if s != [] {
      var t := TitledFrom(s[1..], s[0] == '_');
      TitledFromAt(s[1..], s[0] == '_');
      var first := if s[0] == '_' then ' ' else if atWordStart then Upper(s[0]) else Lower(s[0]);
      assert TitledFrom(s, atWordStart) == [first] + t;
      forall i | 0 <= i < |s| ensures TitledFrom(s, atWordStart)[i] ==
        if s[i] == '_' then ' '
        else if (if i == 0 then atWordStart else s[i - 1] == '_') then Upper(s[i])
        else Lower(s[i])
      {
        if i > 0 {
          assert TitledFrom(s, atWordStart)[i] == t[i - 1];
          assert s[1..][i - 1] == s[i];
          if i > 1 {
            assert s[1..][i - 2] == s[i - 1];
          }
        }
      }
    }
  }

  /**
   * format_speaker_name, character by character: same length, `_` becomes a
   * space, the first character of each token is upper-cased and every other
   * character lower-cased.
   */
  lemma FormatSpeakerNameAt(name: string)
    ensures |FormatSpeakerName(name)| == |name|
    ensures forall i :: 0 <= i < |name| ==> (FormatSpeakerName(name)[i] ==
      if name[i] == '_' then ' '
      else if WordStart(name, i) then Upper(name[i])
      else Lower(name[i]))
  {
    FormatSpeakerNameTitled(name);
    TitledFromAt(name, true);
    forall i | 0 <= i < |name| ensures FormatSpeakerName(name)[i] ==
      if name[i] == '_' then ' '
      else if WordStart(name, i) then Upper(name[i])
      else Lower(name[i])
    {
      assert FormatSpeakerName(name)[i] == TitledFrom(name, true)[i];
      assert WordStart(name, i) == if i == 0 then true else name[i - 1] == '_';
    }
  }

  /** Every `_` is consumed as a separator: the display name holds none. */
  lemma FormatSpeakerNameNoUnderscore(name: string)
    ensures '_' !in FormatSpeakerName(name)
  {
    FormatSpeakerNameAt(name);
    var r := FormatSpeakerName(name);
    forall i | 0 <= i < |r| ensures r[i] != '_' {
      CaseMappingKeepsNonLetters(name[i], '_');
    }
  }

  /** Splitting the display name on spaces gives back the capitalized tokens, one word per token, in order. */
  lemma FormatSpeakerNameWords(name: string)
    requires ' ' !in name
    ensures Split(FormatSpeakerName(name), ' ') == CapitalizeAll(Split(name, '_'))
  {
    var tokens := Split(name, '_');
    var words := CapitalizeAll(tokens);
    TokensKeepAbsentChar(name, '_', ' ');
    forall i | 0 <= i < |words| ensures ' ' !in words[i] {
      CapitalizeKeepsAbsentSeparator(tokens[i], ' ');
    }
    SplitJoin(words, ' ');
  }

  lemma TokensKeepAbsentChar(s: string, sep: char, c: char)
    requires c !in s
    ensures forall i :: 0 <= i < |Split(s, sep)| ==> c !in Split(s, sep)[i]
  {
    var tokens := Split(s, sep);
    SplitPiecesFrom(s, sep);
    forall i | 0 <= i < |tokens| ensures c !in tokens[i] {
      assert tokens[i] in tokens;
    }
  }

  lemma CapitalizeKeepsAbsentSeparator(t: string, d: char)
    requires d !in t && !IsLowerLetter(d) && !IsUpperLetter(d)
    ensures d !in Capitalize(t)
  {
    var r := Capitalize(t);
    forall j | 0 <= j < |r| ensures r[j] != d {
      if j == 0 {
        CaseMappingKeepsNonLetters(t[0], d);
      } else {
        assert r[j] == LowerAll(t[1..])[j - 1] == Lower(t[j]);
        CaseMappingKeepsNonLetters(t[j], d);
      }
    }
  }

  /** A two-token name `first_last` becomes `First Last`, each token capitalized on its own. */
  lemma FormatSpeakerNameTwoTokens(first: string, last: string)
    requires '_' !in first && '_' !in last
    ensures FormatSpeakerName(first + "_" + last) == Capitalize(first) + " " + Capitalize(last)
  {
    SplitSeparatorFree(last, '_');
    SplitAfterPiece(first, '_', last);
    assert Split(first + "_" + last, '_') == [first, last];
    var words := CapitalizeAll([first, last]);
    assert words == [Capitalize(first), Capitalize(last)];
    assert words[1..] == [Capitalize(last)];
    assert Join(words, ' ') == Capitalize(first) + [' '] + Join([Capitalize(last)], ' ');
  }

  // ---------------------------------------------------------------------
  // The email gate of email_btn
  // ---------------------------------------------------------------------

  const CompanyDomain: string := "@wellsaidlabs.com"

  /** `email_btn`'s test: rejected when empty or when the company domain is not a substring. */
  predicate EmailAccepted(input: string) {
    !(input == [] || !Contains(input, CompanyDomain))
  }

  /** The gate accepts exactly the inputs in which the company domain occurs; so the empty input is rejected. */
  lemma EmailGate(input: string)
    ensures EmailAccepted(input) <==> exists i: nat :: OccursAt(input, CompanyDomain, i)
  {
    ContainsIffOccurs(input, CompanyDomain);
    if input == [] {
      assert forall i: nat :: !OccursAt(input, CompanyDomain, i);
    }
  }

  /** The empty input and an address at another domain are rejected. */
  lemma EmailGateRejects()
    ensures !EmailAccepted("")
    ensures !EmailAccepted("foo@bar.com")
  {
    EmailGate("foo@bar.com");
  }

  /**
   * The gate is a substring test, not an address check: whatever surrounds
   * the company domain passes, a company address and a longer host such as
   * `wellsaidlabs.com.attacker.io` alike.
   */
  lemma EmailGateAcceptsAnyContaining(before: string, after: string)
    ensures EmailAccepted(before + CompanyDomain + after)
  {
    var input := before + CompanyDomain + after;
    assert input[|before|..|before| + |CompanyDomain|] == CompanyDomain;
    assert OccursAt(input, CompanyDomain, |before|);
    EmailGate(input);
  }

  // ---------------------------------------------------------------------
  // Metadata lookup and row construction
  // ---------------------------------------------------------------------

  /** `audio_csv["Id"] == id`. */
  function IdMask(csv: seq<MetaRow>, id: int): seq<bool> {
    seq(|csv|, j requires 0 <= j < |csv| => csv[j].id == id)
  }

  /** `audio_csv.loc[audio_csv["Id"] == id, col].item()`: the single row whose Id is `id`; raises on none or several. */
  function Lookup(csv: seq<MetaRow>, id: int): Result<MetaRow> {
    var hits := Positions(IdMask(csv, id), |csv|);
    if |hits| == 1 then Ok(csv[hits[0]])
    else Err(NotExactlyOneRow(id, |hits|))
  }

  /** Row `j` is the only row of `csv` whose Id is `id`. */
  predicate UniqueIdAt(csv: seq<MetaRow>, id: int, j: int) {
    0 <= j < |csv| && csv[j].id == id &&
    forall k :: 0 <= k < |csv| && csv[k].id == id ==> k == j
  }

  /** The lookup succeeds exactly when one row has the Id, and returns that row. */
  lemma LookupSpec(csv: seq<MetaRow>, id: int)
    ensures Lookup(csv, id).Ok? <==> exists j :: UniqueIdAt(csv, id, j)
    ensures forall j :: UniqueIdAt(csv, id, j) ==> Lookup(csv, id) == Ok(csv[j])
  {
    forall j | UniqueIdAt(csv, id, j) ensures Lookup(csv, id) == Ok(csv[j]) {
      SinglePosition(IdMask(csv, id), j, |csv|);
    }
    if Lookup(csv, id).Ok? {
      LookupHitIsUnique(csv, id);
    }
  }

  lemma LookupHitIsUnique(csv: seq<MetaRow>, id: int)
    requires |Positions(IdMask(csv, id), |csv|)| == 1
    ensures UniqueIdAt(csv, id, Positions(IdMask(csv, id), |csv|)[0])
  {
    var mask := IdMask(csv, id);
    var hits := Positions(mask, |csv|);
    PositionsSpec(mask, |csv|);
    assert hits[0] in hits;
    forall k | 0 <= k < |csv| && csv[k].id == id ensures k == hits[0] {
      assert mask[k];
      assert k in hits;
    }
  }

  /** `session.split(",")[2]`, or nothing when there are fewer than three fields. */
  function StyleOf(session: string): Option<string> {
    var fields := Split(session, ',');
    if |fields| >= 3 then Some(fields[2]) else None
  }

  /** The style is the third comma-separated field of the session string. */
  lemma StyleOfFields(fields: seq<string>)
    requires |fields| >= 3
    requires forall f :: f in fields ==> ',' !in f
    ensures StyleOf(Join(fields, ',')) == Some(fields[2])
  {
    SplitJoin(fields, ',');
  }

  /** Where a slot's audio comes from in the voice-expansion flow: the audio directory and the stored objects. */
  datatype AudioSource = AudioSource(dir: string, fetch: nat -> seq<bv8>)

  /** What a slot row is built from: the metadata table, the email typed in, and (voice expansion only) the audio. */
  datatype RowSource = RowSource(csv: seq<MetaRow>, email: string, audio: Option<AudioSource>)

  /** `os.path.join(audio_dir, f"{id}.wav")`. */
  function AudioPath(dir: string, id: nat): string {
    PathJoin(dir, NatToString(id) + ".wav")
  }

  /** The row appended for slot `slot` showing sample `id`, or the failure that aborts the run. */
  function SlotRow(src: RowSource, id: nat, slot: nat): Result<Response> {
    match Lookup(src.csv, id)
    case Err(f) => Err(f)
    case Ok(m) =>
      match StyleOf(m.session)
      case None => Err(TooFewSessionFields(id))
      case Some(style) =>
        var clip := match src.audio
          case None => None
          case Some(a) => Some(Clip(AudioPath(a.dir, id), a.fetch(id)));
        Ok(Response(src.email, id, clip, slot + 1, FormatSpeakerName(m.speaker), style,
                    m.script, m.spectrogramModel, m.signalModel, 0, ""))
  }

  /**
   * A slot row exists exactly when one metadata row has the sampled Id and its
   * session has a third field; the row then carries Form Audio ID = slot + 1,
   * that row's formatted speaker, its style, script and models, and the
   * default answer Pass? = 0 with an empty comment.
   */
  lemma SlotRowSpec(src: RowSource, id: nat, slot: nat)
    ensures SlotRow(src, id, slot).Ok? <==>
      exists j :: UniqueIdAt(src.csv, id, j) && StyleOf(src.csv[j].session).Some?
    ensures forall j :: UniqueIdAt(src.csv, id, j) && StyleOf(src.csv[j].session).Some? ==>
      var r := SlotRow(src, id, slot).value;
      && r.email == src.email && r.audioId == id && r.formAudioId == slot + 1
      && r.speaker == FormatSpeakerName(src.csv[j].speaker)
      && Some(r.style) == StyleOf(src.csv[j].session)
      && r.script == src.csv[j].script
      && r.spectrogramModel == src.csv[j].spectrogramModel
      && r.signalModel == src.csv[j].signalModel
      && r.passed == 0 && r.comments == []
      && (r.clip.Some? <==> src.audio.Some?)
  {
    LookupSpec(src.csv, id);
  }

  /** The rows of a slot loop and the failure that stopped it, if any. */
  datatype Batch = Batch(rows: seq<Response>, failure: Option<Failure>)

  /** Running through per-slot outcomes in order: collect the rows, stop at the first failure. */
  function Collect(results: seq<Result<Response>>): Batch {
    if results == [] then Batch([], None)
    else
      var b := Collect(results[..|results| - 1]);
      if b.failure.Some? then b
      else match results[|results| - 1]
        case Err(f) => Batch(b.rows, Some(f))
        case Ok(r) => Batch(b.rows + [r], None)
  }

  /**
   * Collecting keeps the rows before the first failure, in order; it ends
   * without failure exactly when every outcome is a row, and then holds
   * one row per outcome.
   */
  lemma {:induction false} CollectSpec(results: seq<Result<Response>>)
    ensures var b := Collect(results);
      && (b.failure.None? <==> forall s :: 0 <= s < |results| ==> results[s].Ok?)
      && |b.rows| <= |results|
      && (forall s :: 0 <= s < |b.rows| ==> results[s] == Ok(b.rows[s]))
      && (b.failure.None? ==> |b.rows| == |results|)
      && (b.failure.Some? ==> results[|b.rows|] == Err(b.failure.value))
  {
    if results != [] {
      var init := results[..|results| - 1];
      CollectSpec(init);
      assert forall s :: 0 <= s < |init| ==> init[s] == results[s];
    }
  }

  /** One more outcome after a run of rows. */
  lemma CollectSnoc(results: seq<Result<Response>>, k: nat)
    requires k < |results|
    requires Collect(results[..k]).failure.None?
    ensures Collect(results[..k + 1]) == match results[k]
      case Err(f) => Batch(Collect(results[..k]).rows, Some(f))
      case Ok(r) => Batch(Collect(results[..k]).rows + [r], None)
  {
    assert results[..k + 1][..k] == results[..k];
  }

  /** Once an outcome has failed, later outcomes are never looked at. */
  lemma {:induction false} CollectStops(results: seq<Result<Response>>, k: nat)
    requires k <= |results|
    requires Collect(results[..k]).failure.Some?
    ensures Collect(results) == Collect(results[..k])
  {
    if k < |results| {
      var init := results[..|results| - 1];
      assert init[..k] == results[..k];
      CollectStops(init, k);
    } else {
      assert results[..k] == results;
    }
  }

  /** The outcome of each of the slots `0 .. k-1`. */
  function SlotResults(src: RowSource, ids: seq<nat>, k: nat): seq<Result<Response>>
    requires k <= |ids|
  {
    seq(k, s requires 0 <= s < k => SlotRow(src, ids[s], s))
  }

  /** The slot loop over slots `0 .. k-1`: one row per slot, stopping at the first slot that raises. */
  function BuildBatch(src: RowSource, ids: seq<nat>, k: nat): Batch
    requires k <= |ids|
  {
    Collect(SlotResults(src, ids, k))
  }

  /**
   * The slot loop appends the rows of the slots before the first failing slot
   * in slot order; it finishes without failure exactly when every slot has a
   * row, and then it has appended exactly one row per slot.
   */
  lemma BuildBatchSpec(src: RowSource, ids: seq<nat>, k: nat)
    requires k <= |ids|
    ensures var b := BuildBatch(src, ids, k);
      && (b.failure.None? <==> forall s :: 0 <= s < k ==> SlotRow(src, ids[s], s).Ok?)
      && |b.rows| <= k
      && (forall s :: 0 <= s < |b.rows| ==> SlotRow(src, ids[s], s) == Ok(b.rows[s]))
      && (b.failure.None? ==> |b.rows| == k)
      && (b.failure.Some? ==> SlotRow(src, ids[|b.rows|], |b.rows|) == Err(b.failure.value))
  {
    var results := SlotResults(src, ids, k);
    CollectSpec(results);
    assert forall s :: 0 <= s < k ==> results[s] == SlotRow(src, ids[s], s);
  }

  /** Once a slot has failed, later slots are never reached. */
  lemma BuildBatchStops(src: RowSource, ids: seq<nat>, k: nat, m: nat)
    requires k <= m <= |ids|
    requires BuildBatch(src, ids, k).failure.Some?
    ensures BuildBatch(src, ids, m) == BuildBatch(src, ids, k)
  {
    assert SlotResults(src, ids, m)[..k] == SlotResults(src, ids, k);
    CollectStops(SlotResults(src, ids, m), k);
  }

  /**
   * Sample indices are positions `0 .. len-1`, but rows are looked up by their
   * Id column: the two agree only when every row's Id is its position. A
   * one-row table whose Id is 7 makes the only possible sample, position 0,
   * fail its lookup.
   */
  lemma PositionLookup(csv: seq<MetaRow>)
    requires forall j :: 0 <= j < |csv| ==> csv[j].id == j
    ensures forall j :: 0 <= j < |csv| ==> Lookup(csv, j) == Ok(csv[j])
  {
    forall j | 0 <= j < |csv| ensures Lookup(csv, j) == Ok(csv[j]) {
      LookupSpec(csv, j);
      assert UniqueIdAt(csv, j, j);
    }
  }

  lemma PositionLookupMismatch(m: MetaRow)
    requires m.id == 7
    ensures Lookup([m], 0) == Err(NotExactlyOneRow(0, 0))
  {
    assert IdMask([m], 0) == [false];
    assert Positions([false], 1) == Positions([false], 0) == [];
  }

  // ---------------------------------------------------------------------
  // update_results: merging the answers and naming the response file
  // ---------------------------------------------------------------------

  /** The effect of one slot's radio choice and comment on its row. */
  function MergeAnswer(row: Response, choice: string, comment: string): Response {
    if choice == "Yes" then row.(passed := 1, comments := comment)
    else if choice == "No" then row.(passed := 0, comments := comment)
    else row
  }

  /** The rows after the answers of slots `0 .. n-1` are merged in. */
  function Merged(rows: seq<Response>, choices: seq<string>, comments: seq<string>, n: nat): seq<Response>
    requires n <= |rows| && n <= |choices| && n <= |comments|
  {
    seq(|rows|, j requires 0 <= j < |rows| =>
      if j < n then MergeAnswer(rows[j], choices[j], comments[j]) else rows[j])
  }

  /** Two rows that differ at most in their Pass? and Comments cells. */
  predicate SameButAnswers(a: Response, b: Response) {
    a.(passed := b.passed, comments := b.comments) == b
  }

  /**
   * The merge rule of `update_results`: "Yes" gives Pass? = 1 and the slot's
   * comment, "No" gives Pass? = 0 and the comment, anything else leaves the
   * row; rows from `n` on are untouched and no other cell ever changes.
   */
  lemma MergedSpec(rows: seq<Response>, choices: seq<string>, comments: seq<string>, n: nat)
    requires n <= |rows| && n <= |choices| && n <= |comments|
    ensures var m := Merged(rows, choices, comments, n);
      && |m| == |rows|
      && (forall j :: 0 <= j < n && choices[j] == "Yes" ==>
            m[j].passed == 1 && m[j].comments == comments[j])
      && (forall j :: 0 <= j < n && choices[j] == "No" ==>
            m[j].passed == 0 && m[j].comments == comments[j])
      && (forall j :: 0 <= j < n && choices[j] != "Yes" && choices[j] != "No" ==> m[j] == rows[j])
      && (forall j :: n <= j < |rows| ==> m[j] == rows[j])
      && (forall j :: 0 <= j < |rows| ==> SameButAnswers(rows[j], m[j]))
  {
  }

  /** A slot row whose radio value is neither "Yes" nor "No" keeps Pass? = 0 and an empty comment. */
  lemma UnansweredSlotKeepsDefault(src: RowSource, ids: seq<nat>, n: nat, choices: seq<string>, comments: seq<string>, j: nat)
    requires n <= |ids| && n <= |choices| && n <= |comments|
    requires BuildBatch(src, ids, n).failure.None?
    requires j < n && choices[j] != "Yes" && choices[j] != "No"
    ensures var rows := BuildBatch(src, ids, n).rows;
      |rows| == n && Merged(rows, choices, comments, n)[j].passed == 0 &&
      Merged(rows, choices, comments, n)[j].comments == []
  {
    BuildBatchSpec(src, ids, n);
    var rows := BuildBatch(src, ids, n).rows;
    assert SlotRow(src, ids[j], j) == Ok(rows[j]);
    SlotRowSpec(src, ids[j], j);
  }

  /** `os.path.join(responses_dir, f"{email}_{timestr}.csv")`. */
  function ResponsePath(dir: string, email: string, timestamp: string): string {
    PathJoin(dir, email + "_" + timestamp + ".csv")
  }

  /** For a relative email the response file sits directly under the responses directory. */
  lemma ResponsePathUnderDir(dir: string, email: string, timestamp: string)
    requires dir != [] && dir[|dir| - 1] != '/'
    requires !StartsWith(email, "/")
    ensures ResponsePath(dir, email, timestamp) == dir + "/" + email + "_" + timestamp + ".csv"
  {
    var name := email + "_" + timestamp + ".csv";
    if email == [] {
      assert name[..1] == "_";
    } else {
      assert name[..1] == email[..1];
    }
  }

  /** An email that begins with `/` passes the gate, and `os.path.join` then drops the responses directory. */
  lemma ResponsePathAbsoluteEmail(dir: string, email: string, timestamp: string)
    requires StartsWith(email, "/")
    ensures ResponsePath(dir, email, timestamp) == email + "_" + timestamp + ".csv"
  {
    var name := email + "_" + timestamp + ".csv";
    assert name[..1] == email[..1];
  }

  // ---------------------------------------------------------------------
  // Session life cycle
  // ---------------------------------------------------------------------

  /** The session state machine: INIT -> FORM_OPEN -> SUBMITTED. */
  datatype Phase = Init | FormOpen | Submitted

  /** What can happen between two runs of a script: the email button, the submit button, or any other re-run. */
  datatype Event = EmailEntered(accepted: bool) | Submit | Rerun

  /** The submit button is only rendered while the form is open, so only there does a submission count. */
  function Next(p: Phase, e: Event): Phase {
    match e
    case EmailEntered(accepted) => if accepted && p == Init then FormOpen else p
    case Submit => if p == FormOpen then Submitted else p
    case Rerun => p
  }

  function Run(p: Phase, es: seq<Event>): Phase
    decreases |es|
  {
    if es == [] then p else Run(Next(p, es[0]), es[1..])
  }

  /** SUBMITTED is terminal: no sequence of events leaves it. */
  lemma {:induction false} SubmittedIsTerminal(es: seq<Event>)
    ensures Run(Submitted, es) == Submitted
  {
    if es != [] {
      SubmittedIsTerminal(es[1..]);
    }
  }

  /** Once the form is open the session never returns to INIT. */
  lemma {:induction false} NoReturnToInit(p: Phase, es: seq<Event>)
    requires p != Init
    ensures Run(p, es) != Init
    decreases |es|
  {
    if es != [] {
      NoReturnToInit(Next(p, es[0]), es[1..]);
    }
  }

  /** SUBMITTED is reached only through a submission. */
  lemma {:induction false} SubmittedOnlyBySubmit(p: Phase, es: seq<Event>)
    requires p != Submitted && Run(p, es) == Submitted
    ensures Submit in es
    decreases |es|
  {
    if es != [] && es[0] != Submit {
      SubmittedOnlyBySubmit(Next(p, es[0]), es[1..]);
      assert es == [es[0]] + es[1..];
    }
  }

  /** From INIT, FORM_OPEN is reached only through an accepted email. */
  lemma {:induction false} FormOpenOnlyByEmail(es: seq<Event>)
    requires Run(Init, es) == FormOpen
    ensures EmailEntered(true) in es
    decreases |es|
  {
    if es[0] != EmailEntered(true) {
      FormOpenOnlyByEmail(es[1..]);
      assert es == [es[0]] + es[1..];
    }
  }

  /**
   * A session that starts in INIT and ends SUBMITTED went through FORM_OPEN:
   * some submission happened while the form was open, after an accepted email.
   */
  lemma {:induction false} SubmissionPassesThroughFormOpen(p: Phase, es: seq<Event>)
    requires p != Submitted && Run(p, es) == Submitted
    ensures exists i :: 0 <= i < |es| && es[i] == Submit && Run(p, es[..i]) == FormOpen
    decreases |es|
  {
    if es[0] == Submit && p == FormOpen {
      assert es[..0] == [];
    } else {
      SubmissionPassesThroughFormOpen(Next(p, es[0]), es[1..]);
      var i :| 0 <= i < |es[1..]| && es[1..][i] == Submit && Run(Next(p, es[0]), es[1..][..i]) == FormOpen;
      assert es[..i + 1][1..] == es[1..][..i];
      assert es[i + 1] == Submit && Run(p, es[..i + 1]) == FormOpen;
    }
  }

  /** In particular, from INIT a submission is preceded by an accepted email. */
  lemma SubmittedFromInit(es: seq<Event>)
    requires Run(Init, es) == Submitted
    ensures exists i :: 0 <= i < |es| && es[i] == Submit && EmailEntered(true) in es[..i]
  {
    SubmissionPassesThroughFormOpen(Init, es);
    var i :| 0 <= i < |es| && es[i] == Submit && Run(Init, es[..i]) == FormOpen;
    FormOpenOnlyByEmail(es[..i]);
  }

  /** The submit tab: the submit button, or the list of slots not yet marked as listened. */
  datatype SubmitTab = SubmitButton | MissingSlots(message: string)

  /** The survey part of a page: not shown, aborted by a failure, or shown with its submit tab. */
  datatype SurveyPart = NoSurvey | SurveyFailed(failure: Failure) | SurveyShown(submit: SubmitTab)

  /** What a run of a script renders. */
  datatype View = Confirmation | Page(emailButtonEnabled: bool, survey: SurveyPart)

  /** The rendered page offers the submit button, i.e. `update_results` can be triggered. */
  predicate OffersSubmit(v: View) {
    v.Page? && v.survey.SurveyShown? && v.survey.submit.SubmitButton?
  }

  /** A session-store key set to its default only when absent. */
  function OrDefault<T>(o: Option<T>, default: T): Option<T> {
    if o.None? then Some(default) else o
  }

  /** `st.session_state`: `None` stands for a key not yet present. */
  class SessionState {
    var openForm: Option<bool>
    var formDisabled: Option<bool>
    var userResponse: Option<Table>
    var listened: Option<seq<bool>>

    /** A fresh browser session: the store is empty. */
    constructor ()
      ensures openForm == None && formDisabled == None
      ensures userResponse == None && listened == None
    {
      openForm, formDisabled, userResponse, listened := None, None, None, None;
    }

    function CurrentPhase(): Phase
      reads this
    {
      if formDisabled == Some(true) then Submitted
      else if openForm == Some(true) then FormOpen
      else Init
    }

    /** The set-up block of `main`: each key gets its default only when absent. */
    method InitSession(columns: seq<string>)
      modifies this`openForm, this`formDisabled, this`userResponse
      ensures openForm == OrDefault(old(openForm), false)
      ensures formDisabled == OrDefault(old(formDisabled), false)
      ensures userResponse == OrDefault(old(userResponse), Table(columns, []))
      ensures CurrentPhase() == old(CurrentPhase())
    {
      if openForm.None? {
        openForm := Some(false);
      }
      if formDisabled.None? {
        formDisabled := Some(false);
      }
      if userResponse.None? {
        userResponse := Some(Table(columns, []));
      }
    }

    /** `email_btn`: a warning on rejection; on acceptance `open_form` becomes true. */
    method EmailBtn(input: string) returns (warned: bool)
      modifies this`openForm
      ensures warned == !EmailAccepted(input)
      ensures openForm == if EmailAccepted(input) then Some(true) else old(openForm)
      ensures CurrentPhase() == Next(old(CurrentPhase()), EmailEntered(EmailAccepted(input)))
    {
      if input == [] || !Contains(input, CompanyDomain) {
        warned := true;
      } else {
        warned := false;
        openForm := Some(true);
      }
    }

    /** The slot loop: one row appended per slot, stopping at the first slot that raises. */
    method AppendSlots(src: RowSource, ids: seq<nat>, n: nat) returns (failure: Option<Failure>)
      requires userResponse.Some? && n <= |ids|
      modifies this`userResponse
      ensures failure == BuildBatch(src, ids, n).failure
      ensures userResponse == Some(AppendAll(old(userResponse).value, BuildBatch(src, ids, n).rows))
    {
      ghost var t0 := userResponse.value;
      ghost var results := SlotResults(src, ids, n);
      failure := None;
      var slot := 0;
      while slot < n
        invariant 0 <= slot <= n
        invariant Collect(results[..slot]).failure.None?
        invariant userResponse == Some(AppendAll(t0, Collect(results[..slot]).rows))
      {
        var row := SlotRow(src, ids[slot], slot);
        assert results[slot] == row;
        CollectSnoc(results, slot);
        if row.Err? {
          failure := Some(row.failure);
          CollectStops(results, slot + 1);
          return;
        }
        AppendAllSnoc(t0, Collect(results[..slot]).rows, row.value);
        userResponse := Some(Append(userResponse.value, row.value));
        slot := slot + 1;
      }
      assert results[..n] == results;
    }

    /**
     * `update_results`: merges the answers of slots `0 .. n-1` into the table
     * in place, names the file after row 0's email and the timestamp, and
     * sets the terminal flag.
     */
    method UpdateResults(n: nat, dir: string, timestamp: string, choices: seq<string>, comments: seq<string>)
      returns (file: Written)
      requires CurrentPhase() == FormOpen
      requires userResponse.Some? && 1 <= n <= |userResponse.value.rows|
      requires n <= |choices| && n <= |comments|
      modifies this`userResponse, this`formDisabled
      ensures userResponse == Some(old(userResponse).value.(rows :=
        Merged(old(userResponse).value.rows, choices, comments, n)))
      ensures file == Written(ResponsePath(dir, old(userResponse).value.rows[0].email, timestamp), userResponse.value)
      ensures formDisabled == Some(true)
      ensures CurrentPhase() == Next(old(CurrentPhase()), Submit)
    {
      var t0 := userResponse.value;
      var email := t0.rows[0].email;
      var i := 0;
      assert Merged(t0.rows, choices, comments, 0) == t0.rows;
      while i < n
        invariant 0 <= i <= n
        invariant userResponse == Some(t0.(rows := Merged(t0.rows, choices, comments, i)))
      {
        var t := userResponse.value;
        if choices[i] == "Yes" {
          t := t.(rows := t.rows[i := t.rows[i].(passed := 1)]);
          t := t.(rows := t.rows[i := t.rows[i].(comments := comments[i])]);
        } else if choices[i] == "No" {
          t := t.(rows := t.rows[i := t.rows[i].(passed := 0)]);
          t := t.(rows := t.rows[i := t.rows[i].(comments := comments[i])]);
        }
        assert t.rows == Merged(t0.rows, choices, comments, i)[i := MergeAnswer(t0.rows[i], choices[i], comments[i])];
        assert t.rows == Merged(t0.rows, choices, comments, i + 1);
        userResponse := Some(t);
        i := i + 1;
      }
      file := Written(ResponsePath(dir, email, timestamp), userResponse.value);
      formDisabled := Some(true);
    }
  }
}
