/** The batch loops around `addProfile`: a sequence of steps, each of which adds a
    decoded profile or aborts the load with an error code. */
module BatchLoad {
  import opened LangProfiles
  import opened Outcomes
  import opened ProbTable

  /** One step of a batch: a decoded profile to add with the next column, or an error
      raised before it could be added. */
  datatype Step = Add(profile: LangProfile) | Abort(code: ErrorCode)

  /** What `JSON.decode` produced for one profile text. */
  datatype JsonDecoding = Decoded(profile: LangProfile) | JsonError

  /** What reading one file produced: its decoded content, or an I/O failure. */
  datatype FileRead = Read(json: JsonDecoding) | IoError

  /** One entry of a profile directory listing. */
  datatype DirEntry = DirEntry(name: string, isFile: bool, read: FileRead)

  /** Adds the steps in order, step k with column `index + k`, stopping at the first
      failure and keeping whatever was added before it. */
  function AddAll(s: FactoryState, steps: seq<Step>, index: nat, langsize: nat): (a: Applied)
    requires WideRows(s.table, langsize) && index + |steps| <= langsize
    ensures WideRows(a.state.table, langsize)
    decreases |steps|
  {
    if steps == [] then Applied(Pass, s)
    else match steps[0]
      case Abort(code) => Applied(Fail(code), s)
      case Add(p) =>
        WideRowsFit(s.table, p, index, langsize);
        var a := AddSpec(s, p, index, langsize);
        if a.outcome.Fail? then a else AddAll(a.state, steps[1..], index + 1, langsize)
  }

  // ---------------------------------------------------------------------------
  // The three loaders, as functions of the state they start from

  function JsonStep(d: JsonDecoding): Step
  {
    match d
    case Decoded(p) => Add(p)
    case JsonError => Abort(FormatError)
  }

  function ListSteps(ps: seq<JsonDecoding>): seq<Step>
  {
    seq(|ps|, i requires 0 <= i < |ps| => JsonStep(ps[i]))
  }

  /** `loadProfile(List<String>)`: fewer than two profiles is refused before anything
      changes; otherwise the profiles are added with columns 0, 1, ... */
  function LoadList(s: FactoryState, ps: seq<JsonDecoding>): Applied
    requires WideRows(s.table, |ps|)
  {
    if |ps| < 2 then Applied(Fail(NeedLoadProfileError), s)
    else AddAll(s, ListSteps(ps), 0, |ps|)
  }

  /** Hidden files (a name starting with ".") and non-files are passed over. */
  predicate Skipped(e: DirEntry)
  {
    "." <= e.name || !e.isFile
  }

  function FileStep(f: FileRead): Step
  {
    match f
    case IoError => Abort(FileLoadError)
    case Read(d) => JsonStep(d)
  }

  /** The loop of `loadProfile(File)`: every entry counts towards `langsize`, but the
      running column `index` advances only when a profile is added. */
  function LoadEntries(s: FactoryState, entries: seq<DirEntry>, index: nat, langsize: nat): Applied
    requires WideRows(s.table, langsize) && index + |entries| <= langsize
    decreases |entries|
  {
    if entries == [] then Applied(Pass, s)
    else if Skipped(entries[0]) then LoadEntries(s, entries[1..], index, langsize)
    else match FileStep(entries[0].read)
      case Abort(code) => Applied(Fail(code), s)
      case Add(p) =>
        WideRowsFit(s.table, p, index, langsize);
        var a := AddSpec(s, p, index, langsize);
        if a.outcome.Fail? then a else LoadEntries(a.state, entries[1..], index + 1, langsize)
  }

  /** `loadProfile(File)`: a directory that cannot be listed is refused; otherwise its
      entries are loaded with `langsize` the number of entries. */
  function LoadDirectory(s: FactoryState, listing: Option<seq<DirEntry>>): Applied
    requires listing.Some? ==> WideRows(s.table, |listing.value|)
  {
    match listing
    case None => Applied(Fail(NeedLoadProfileError), s)
    case Some(entries) => LoadEntries(s, entries, 0, |entries|)
  }

  /** The steps of a directory load: the entries that are not skipped, in order. */
  function EntrySteps(entries: seq<DirEntry>): (r: seq<Step>)
    ensures |r| <= |entries|
  {
    if entries == [] then []
    else if Skipped(entries[0]) then EntrySteps(entries[1..])
    else [FileStep(entries[0].read)] + EntrySteps(entries[1..])
  }

  function ProfileSteps(ps: seq<LangProfile>): seq<Step>
  {
    seq(|ps|, i requires 0 <= i < |ps| => Add(ps[i]))
  }

  /** The errors the resource scan can end with: no code source or jar location, a
      malformed profile, or a jar or entry that cannot be read. */
  predicate IsScanError(e: ErrorCode)
  {
    e == NeedLoadProfileError || e == FormatError || e == FileLoadError
  }

  /** The loading half of `loadProfileAsResource`: the bundled profiles, already decoded
      in full (or the error that stopped the scan), added with columns 0, 1, ... */
  function LoadResource(s: FactoryState, scan: Result<seq<LangProfile>>): Applied
    requires scan.Failure? ==> IsScanError(scan.error)
    requires scan.Success? ==> WideRows(s.table, |scan.value|)
  {
    match scan
    case Failure(e) => Applied(Fail(e), s)
    case Success(ps) => AddAll(s, ProfileSteps(ps), 0, |ps|)
  }

  // ---------------------------------------------------------------------------
  // What a batch does to the table

  /** Every row of `t'` is as wide as the row `t` gives that gram, and agrees with it
      outside the columns `lo` to `hi - 1`. */
  ghost predicate RowsKept(t: Table, t': Table, langsize: nat, lo: nat, hi: nat)
  {
    && t.Keys <= t'.Keys
    && (forall w :: w in t' ==> |t'[w]| == |RowOf(t, w, langsize)|)
    && (forall w, c :: w in t' && 0 <= c < |t'[w]| && (c < lo || hi <= c) ==> t'[w][c] == RowOf(t, w, langsize)[c])
  }

  lemma RowsKeptTrans(t: Table, t1: Table, t2: Table, langsize: nat, lo: nat, mid: nat, hi: nat)
    requires lo <= mid <= hi
    requires RowsKept(t, t1, langsize, lo, mid) && RowsKept(t1, t2, langsize, mid, hi)
    ensures RowsKept(t, t2, langsize, lo, hi)
  {
  }

  /** Profile `p` is recorded in column `column` of `t`. */
  ghost predicate Recorded(t: Table, p: LangProfile, column: nat)
  {
    forall w :: w in p.freq && IsGramLength(w) ==> w in t && column < |t[w]| && t[w][column] == GramProb(p, w)
  }

  lemma RecordedKept(t: Table, t': Table, p: LangProfile, column: nat, langsize: nat, lo: nat, hi: nat)
    requires Recorded(t, p, column) && RowsKept(t, t', langsize, lo, hi)
    requires column < lo || hi <= column
    ensures Recorded(t', p, column)
  {
  }

  lemma AddedTableKept(t: Table, p: LangProfile, index: nat, langsize: nat)
    requires Fits(t, p, index, langsize)
    ensures RowsKept(t, AddedTable(t, p, index, langsize), langsize, index, index + 1)
  {
  }

  /** A batch never touches a column outside the ones it assigns, never removes a row or
      a language, keeps earlier languages in place, and keeps the names distinct. */
  lemma {:induction false} AddAllFrame(s: FactoryState, steps: seq<Step>, index: nat, langsize: nat)
    requires WideRows(s.table, langsize) && index + |steps| <= langsize
    ensures RowsKept(s.table, AddAll(s, steps, index, langsize).state.table, langsize, index, index + |steps|)
    ensures s.langlist <= AddAll(s, steps, index, langsize).state.langlist
    ensures Distinct(s.langlist) ==> Distinct(AddAll(s, steps, index, langsize).state.langlist)
    decreases |steps|
  {
    if steps != [] && steps[0].Add? {
      var p := steps[0].profile;
      WideRowsFit(s.table, p, index, langsize);
      var a := AddSpec(s, p, index, langsize);
      if a.outcome.Pass? {
        var fin := AddAll(a.state, steps[1..], index + 1, langsize).state;
        assert AddAll(s, steps, index, langsize).state == fin;
        AddedTableKept(s.table, p, index, langsize);
        AddAllFrame(a.state, steps[1..], index + 1, langsize);
        RowsKeptTrans(s.table, a.state.table, fin.table, langsize, index, index + 1, index + |steps|);
      }
    }
  }

  /** After a batch that passed: the k-th step added the k-th new language name, at the
      end of the old list, and that profile's probabilities are in column `index + k`. */
  ghost predicate LoadedInOrder(s: FactoryState, steps: seq<Step>, index: nat, s': FactoryState)
  {
    && |s'.langlist| == |s.langlist| + |steps|
    && s.langlist <= s'.langlist
    && forall k :: 0 <= k < |steps| ==>
         && steps[k].Add?
         && s'.langlist[|s.langlist| + k] == steps[k].profile.name
         && Recorded(s'.table, steps[k].profile, index + k)
  }

  /** Prepending a profile recorded in column `index` to a batch loaded in order from
      column `index + 1`. */
  lemma LoadedInOrderCons(s: FactoryState, p: LangProfile, steps: seq<Step>, mid: FactoryState, index: nat, fin: FactoryState)
    requires steps != [] && steps[0] == Add(p)
    requires mid.langlist == s.langlist + [p.name]
    requires Recorded(fin.table, p, index)
    requires LoadedInOrder(mid, steps[1..], index + 1, fin)
    ensures LoadedInOrder(s, steps, index, fin)
  {
  }

  /** A profile added with column `index` is recorded there. */
  lemma AddSpecRecords(s: FactoryState, p: LangProfile, index: nat, langsize: nat)
    requires Fits(s.table, p, index, langsize) && p.name !in s.langlist
    ensures AddSpec(s, p, index, langsize).state.langlist == s.langlist + [p.name]
    ensures Recorded(AddSpec(s, p, index, langsize).state.table, p, index)
  {
  }

  /** A batch assigning columns from `index` on keeps a profile recorded in an earlier column. */
  lemma AddAllKeepsRecorded(s: FactoryState, steps: seq<Step>, index: nat, langsize: nat, p: LangProfile, column: nat)
    requires WideRows(s.table, langsize) && index + |steps| <= langsize
    requires column < index && Recorded(s.table, p, column)
    ensures Recorded(AddAll(s, steps, index, langsize).state.table, p, column)
  {
    AddAllFrame(s, steps, index, langsize);
    RecordedKept(s.table, AddAll(s, steps, index, langsize).state.table, p, column, langsize, index, index + |steps|);
  }

  lemma {:induction false} AddAllPass(s: FactoryState, steps: seq<Step>, index: nat, langsize: nat)
    requires WideRows(s.table, langsize) && index + |steps| <= langsize
    requires AddAll(s, steps, index, langsize).outcome == Pass
    ensures LoadedInOrder(s, steps, index, AddAll(s, steps, index, langsize).state)
    decreases |steps|
  {
    if steps != [] {
      assert steps[0].Add?;
      var p := steps[0].profile;
      WideRowsFit(s.table, p, index, langsize);
      var mid := AddSpec(s, p, index, langsize).state;
      var fin := AddAll(mid, steps[1..], index + 1, langsize).state;
      assert AddAll(s, steps, index, langsize).state == fin;
      AddSpecRecords(s, p, index, langsize);
      AddAllPass(mid, steps[1..], index + 1, langsize);
      AddAllKeepsRecorded(mid, steps[1..], index + 1, langsize, p, index);
      LoadedInOrderCons(s, p, steps, mid, index, fin);
    }
  }

  /** The grams of the profiles a batch adds. */
  function GramsOf(steps: seq<Step>): set<string>
  {
    if steps == [] then {}
    else (if steps[0].Add? then steps[0].profile.freq.Keys else {}) + GramsOf(steps[1..])
  }

  /** Column `index + k` of every row of `t'` is what profile k wrote there, and where it
      wrote nothing (a gram outside the profile, or of another length) the cell is still
      the one `t` had, zero in a row `t` did not have. */
  ghost predicate ColumnsExact(t: Table, t': Table, steps: seq<Step>, index: nat, langsize: nat)
  {
    forall w, k :: w in t' && 0 <= k < |steps| && steps[k].Add? ==>
      && index + k < |t'[w]|
      && index + k < |RowOf(t, w, langsize)|
      && t'[w][index + k]
         == if w in steps[k].profile.freq && IsGramLength(w) then GramProb(steps[k].profile, w)
            else RowOf(t, w, langsize)[index + k]
  }

  /** A profile added with column `index`: column `index` of each row is exact. */
  lemma AddSpecColumnExact(s: FactoryState, p: LangProfile, index: nat, langsize: nat)
    requires WideRows(s.table, langsize) && index < langsize && p.name !in s.langlist
    ensures ColumnsExact(s.table, AddSpec(s, p, index, langsize).state.table, [Add(p)], index, langsize)
  {
  }

  /** Prepending a profile added with column `index` to a batch exact from `index + 1`. */
  lemma ColumnsExactCons(t: Table, mid: Table, fin: Table, p: LangProfile, steps: seq<Step>, index: nat, langsize: nat)
    requires steps != [] && steps[0] == Add(p)
    requires index + |steps| <= langsize && WideRows(t, langsize)
    requires mid == AddedTable(t, p, index, langsize)
    requires RowsKept(mid, fin, langsize, index + 1, index + |steps|)
    requires ColumnsExact(t, mid, [Add(p)], index, langsize)
    requires ColumnsExact(mid, fin, steps[1..], index + 1, langsize)
    ensures ColumnsExact(t, fin, steps, index, langsize)
  {
    forall w, k | w in fin && 0 <= k < |steps| && steps[k].Add?
      ensures index + k < |fin[w]| && index + k < |RowOf(t, w, langsize)|
      ensures fin[w][index + k]
           == if w in steps[k].profile.freq && IsGramLength(w) then GramProb(steps[k].profile, w)
              else RowOf(t, w, langsize)[index + k]
    {
      assert w !in mid ==> RowOf(mid, w, langsize) == RowOf(t, w, langsize);
      if k == 0 {
        assert w in mid ==> fin[w][index] == mid[w][index];
      } else {
        assert steps[1..][k - 1] == steps[k];
        assert RowOf(mid, w, langsize)[index + k] == RowOf(t, w, langsize)[index + k];
      }
    }
  }

  /** After a batch that passed, the table has exactly the old rows plus a row for each
      gram of the added profiles, and every assigned column is exact: profile k's
      probabilities in column `index + k` and every other cell of that column as before. */
  lemma {:induction false} AddAllColumnsExact(s: FactoryState, steps: seq<Step>, index: nat, langsize: nat)
    requires WideRows(s.table, langsize) && index + |steps| <= langsize
    requires AddAll(s, steps, index, langsize).outcome == Pass
    ensures AddAll(s, steps, index, langsize).state.table.Keys == s.table.Keys + GramsOf(steps)
    ensures ColumnsExact(s.table, AddAll(s, steps, index, langsize).state.table, steps, index, langsize)
    decreases |steps|
  {
    if steps != [] {
      assert steps[0].Add?;
      var p := steps[0].profile;
      WideRowsFit(s.table, p, index, langsize);
      var mid := AddSpec(s, p, index, langsize).state;
      var fin := AddAll(mid, steps[1..], index + 1, langsize).state;
      assert AddAll(s, steps, index, langsize).state == fin;
      AddAllColumnsExact(mid, steps[1..], index + 1, langsize);
      AddAllFrame(mid, steps[1..], index + 1, langsize);
      AddSpecColumnExact(s, p, index, langsize);
      ColumnsExactCons(s.table, mid.table, fin.table, p, steps, index, langsize);
    }
  }

  /** The names of the steps are all new and pairwise different. */
  ghost predicate FreshAdds(langs: seq<string>, steps: seq<Step>)
  {
    && (forall k :: 0 <= k < |steps| ==> steps[k].Add? && steps[k].profile.name !in langs)
    && (forall j, k :: 0 <= j < k < |steps| ==> steps[j].profile.name != steps[k].profile.name)
  }

  lemma FreshAddsCons(langs: seq<string>, steps: seq<Step>)
    requires steps != [] && steps[0].Add?
    ensures FreshAdds(langs, steps)
        <==> steps[0].profile.name !in langs && FreshAdds(langs + [steps[0].profile.name], steps[1..])
  {
  }

  /** A batch passes exactly when every step is a profile whose name is neither loaded
      already nor repeated within the batch. */
  lemma {:induction false} AddAllPassIff(s: FactoryState, steps: seq<Step>, index: nat, langsize: nat)
    requires WideRows(s.table, langsize) && index + |steps| <= langsize
    ensures AddAll(s, steps, index, langsize).outcome == Pass <==> FreshAdds(s.langlist, steps)
    decreases |steps|
  {
    if steps != [] {
      match steps[0]
      case Abort(_) =>
      case Add(p) =>
        WideRowsFit(s.table, p, index, langsize);
        var a := AddSpec(s, p, index, langsize);
        FreshAddsCons(s.langlist, steps);
        if a.outcome.Pass? {
          AddAllPassIff(a.state, steps[1..], index + 1, langsize);
        }
    }
  }

  /** Loading `steps` is loading a prefix and then, if that passed, the rest with the
      columns that follow. */
  lemma {:induction false} AddAllSplit(s: FactoryState, steps: seq<Step>, m: nat, index: nat, langsize: nat)
    requires WideRows(s.table, langsize) && index + |steps| <= langsize && m <= |steps|
    ensures AddAll(s, steps, index, langsize)
         == var a := AddAll(s, steps[..m], index, langsize);
            if a.outcome.Fail? then a else AddAll(a.state, steps[m..], index + m, langsize)
    decreases m
  {
    if m > 0 {
      assert steps[..m][0] == steps[0];
      assert steps[..m][1..] == steps[1..][..m - 1];
      assert steps[m..] == steps[1..][m - 1..];
      match steps[0]
      case Abort(_) =>
      case Add(p) =>
        WideRowsFit(s.table, p, index, langsize);
        var a := AddSpec(s, p, index, langsize);
        if a.outcome.Pass? {
          AddAllSplit(a.state, steps[1..], m - 1, index + 1, langsize);
        }
    } else {
      assert steps[m..] == steps;
    }
  }

  /** A failure in step `m` after steps 0..m-1 passed leaves exactly the state those
      steps produced: nothing is rolled back and nothing more is added. */
  lemma AddAllStopsAtFailure(s: FactoryState, steps: seq<Step>, m: nat, index: nat, langsize: nat)
    requires WideRows(s.table, langsize) && index + |steps| <= langsize && m < |steps|
    requires AddAll(s, steps[..m], index, langsize).outcome == Pass
    requires steps[m].Abort? || steps[m].profile.name in AddAll(s, steps[..m], index, langsize).state.langlist
    ensures AddAll(s, steps, index, langsize).outcome
         == Fail(if steps[m].Abort? then steps[m].code else DuplicateLangError)
    ensures AddAll(s, steps, index, langsize).state == AddAll(s, steps[..m], index, langsize).state
  {
    AddAllSplit(s, steps, m, index, langsize);
    assert steps[m..][0] == steps[m];
  }

  // ---------------------------------------------------------------------------
  // The loaders in terms of AddAll

  /** The directory loop is AddAll over the entries that are not skipped: skipped
      entries take no column, so loaded entries get consecutive columns. */
  lemma {:induction false} LoadEntriesIsAddAll(s: FactoryState, entries: seq<DirEntry>, index: nat, langsize: nat)
    requires WideRows(s.table, langsize) && index + |entries| <= langsize
    ensures LoadEntries(s, entries, index, langsize) == AddAll(s, EntrySteps(entries), index, langsize)
    decreases |entries|
  {
    if entries != [] {
      var rest := EntrySteps(entries[1..]);
      if Skipped(entries[0]) {
        LoadEntriesIsAddAll(s, entries[1..], index, langsize);
      } else {
        var steps := EntrySteps(entries);
        assert steps[0] == FileStep(entries[0].read) && steps[1..] == rest;
        match FileStep(entries[0].read)
        case Abort(_) =>
        case Add(p) =>
          WideRowsFit(s.table, p, index, langsize);
          var a := AddSpec(s, p, index, langsize);
          if a.outcome.Pass? {
            LoadEntriesIsAddAll(a.state, entries[1..], index + 1, langsize);
          }
      }
    }
  }

  /** A list load that passed: the i-th profile of the list got column i, and each
      created row has one column per profile. */
  lemma LoadListColumns(s: FactoryState, ps: seq<JsonDecoding>)
    requires WideRows(s.table, |ps|)
    requires LoadList(s, ps).outcome == Pass
    ensures 2 <= |ps|
    ensures forall i :: 0 <= i < |ps| ==> ps[i].Decoded?
    ensures LoadedInOrder(s, ListSteps(ps), 0, LoadList(s, ps).state)
    ensures RowsKept(s.table, LoadList(s, ps).state.table, |ps|, 0, |ps|)
    ensures LoadList(s, ps).state.table.Keys == s.table.Keys + GramsOf(ListSteps(ps))
    ensures ColumnsExact(s.table, LoadList(s, ps).state.table, ListSteps(ps), 0, |ps|)
  {
    AddAllPass(s, ListSteps(ps), 0, |ps|);
    AddAllColumnsExact(s, ListSteps(ps), 0, |ps|);
    AddAllFrame(s, ListSteps(ps), 0, |ps|);
    forall i | 0 <= i < |ps| ensures ps[i].Decoded? {
      assert ListSteps(ps)[i].Add?;
    }
  }

  /** A directory load that passed: the k-th entry that was not skipped got column k,
      and each created row has one column per entry, skipped ones included. */
  lemma LoadDirectoryColumns(s: FactoryState, entries: seq<DirEntry>)
    requires WideRows(s.table, |entries|)
    requires LoadDirectory(s, Some(entries)).outcome == Pass
    ensures LoadedInOrder(s, EntrySteps(entries), 0, LoadDirectory(s, Some(entries)).state)
    ensures RowsKept(s.table, LoadDirectory(s, Some(entries)).state.table, |entries|, 0, |EntrySteps(entries)|)
    ensures LoadDirectory(s, Some(entries)).state.table.Keys == s.table.Keys + GramsOf(EntrySteps(entries))
    ensures ColumnsExact(s.table, LoadDirectory(s, Some(entries)).state.table, EntrySteps(entries), 0, |entries|)
  {
    LoadEntriesIsAddAll(s, entries, 0, |entries|);
    AddAllPass(s, EntrySteps(entries), 0, |entries|);
    AddAllColumnsExact(s, EntrySteps(entries), 0, |entries|);
    AddAllFrame(s, EntrySteps(entries), 0, |entries|);
  }
}
