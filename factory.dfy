/** A detector factory: the language list and the gram table it compiles in place. */
module Factory {
  import opened LangProfiles
  import opened Outcomes
  import opened ProbTable
  import opened BatchLoad

  class DetectorFactory {
    /** Gram to per-language probabilities, one column per loaded language. */
    var wordLangProbMap: Table
    /** Language names in load order. */
    var langlist: seq<string>

    /** No language is loaded twice, and a factory without languages has no rows: every
        change to the table follows an append to the list, and `Clear` empties both. */
    ghost predicate Valid()
      reads this
    {
      && Distinct(langlist)
      && (langlist == [] ==> wordLangProbMap == map[])
    }

    function State(): FactoryState
      reads this
    {
      FactoryState(langlist, wordLangProbMap)
    }

    constructor ()
      ensures Valid()
      ensures langlist == [] && wordLangProbMap == map[]
    {
      wordLangProbMap := map[];
      langlist := [];
    }

    /** Adds `profile` as column `index` of rows `langsize` wide. A duplicate name is
        refused before anything changes. */
    method AddProfile(profile: LangProfile, index: nat, langsize: nat) returns (r: Outcome)
      requires Valid()
      requires Fits(wordLangProbMap, profile, index, langsize)
      modifies this
      ensures Valid()
      ensures profile.name in old(langlist) ==>
        && r == Fail(DuplicateLangError)
        && langlist == old(langlist)
        && wordLangProbMap == old(wordLangProbMap)
      ensures profile.name !in old(langlist) ==>
        && r == Pass
        && langlist == old(langlist) + [profile.name]
        && wordLangProbMap == AddedTable(old(wordLangProbMap), profile, index, langsize)
    {
      var lang := profile.name;
      if lang in langlist {
        return Fail(DuplicateLangError);
      }
      DistinctAppend(langlist, lang);
      langlist := langlist + [lang];
      var todo := profile.freq.Keys;
      while todo != {}
        invariant todo <= profile.freq.Keys
        invariant langlist == old(langlist) + [lang]
        invariant wordLangProbMap
               == WriteGrams(old(wordLangProbMap), profile, profile.freq.Keys - todo, index, langsize)
        decreases todo
      {
        var word :| word in todo;
        ghost var done := profile.freq.Keys - todo;
        WriteGramsNext(old(wordLangProbMap), profile, done, word, index, langsize);
        WriteWord(profile, word, index, langsize);
        assert profile.freq.Keys - (todo - {word}) == done + {word};
        todo := todo - {word};
      }
      assert profile.freq.Keys - todo == profile.freq.Keys;
      r := Pass;
    }

    /** One turn of the key loop of `addProfile`: the row of `word` is created if absent,
        and column `index` is written when `word` has Java length 1 to 3. */
    method WriteWord(profile: LangProfile, word: string, index: nat, langsize: nat)
      requires word in profile.freq
      requires IsGramLength(word) ==> index < |RowOf(wordLangProbMap, word, langsize)|
      modifies this
      ensures langlist == old(langlist)
      ensures wordLangProbMap == old(wordLangProbMap)[word :=
        var row := RowOf(old(wordLangProbMap), word, langsize);
        if IsGramLength(word) then row[index := GramProb(profile, word)] else row]
    {
      if word !in wordLangProbMap {
        wordLangProbMap := wordLangProbMap[word := Zeros(langsize)];
      }
      var length := JavaLength(word);
      if 1 <= length <= 3 {
        var prob := Prob(profile.freq[word], profile.nWords[length - 1]);
        wordLangProbMap := wordLangProbMap[word := wordLangProbMap[word][index := prob]];
      }
    }

    /** `loadProfile(List<String>)` over already-decoded texts. */
    method LoadProfiles(jsonProfiles: seq<JsonDecoding>) returns (r: Outcome)
      requires Valid()
      requires WideRows(wordLangProbMap, |jsonProfiles|)
      modifies this
      ensures Valid()
      ensures |jsonProfiles| < 2 ==>
        r == Fail(NeedLoadProfileError) && langlist == old(langlist) && wordLangProbMap == old(wordLangProbMap)
      ensures Applied(r, State()) == LoadList(old(State()), jsonProfiles)
    {
      var index := 0;
      var langsize := |jsonProfiles|;
      if langsize < 2 {
        return Fail(NeedLoadProfileError);
      }
      ghost var steps := ListSteps(jsonProfiles);
      for i := 0 to langsize
        invariant Valid()
        invariant index == i
        invariant WideRows(wordLangProbMap, langsize)
        invariant AddAll(State(), steps[i..], index, langsize) == AddAll(old(State()), steps, 0, langsize)
      {
        assert steps[i..][0] == JsonStep(jsonProfiles[i]) && steps[i..][1..] == steps[i + 1..];
        match jsonProfiles[i]
        case JsonError =>
          return Fail(FormatError);
        case Decoded(profile) =>
          WideRowsFit(wordLangProbMap, profile, index, langsize);
          r := AddProfile(profile, index, langsize);
          if r.Fail? {
            return;
          }
          index := index + 1;
      }
      assert steps[langsize..] == [];
      r := Pass;
    }

    /** The loop of `loadProfile(File)` over the directory listing (`None` when the
        directory cannot be listed). */
    method LoadProfileDirectory(listing: Option<seq<DirEntry>>) returns (r: Outcome)
      requires Valid()
      requires listing.Some? ==> WideRows(wordLangProbMap, |listing.value|)
      modifies this
      ensures Valid()
      ensures listing.None? ==>
        r == Fail(NeedLoadProfileError) && langlist == old(langlist) && wordLangProbMap == old(wordLangProbMap)
      ensures Applied(r, State()) == LoadDirectory(old(State()), listing)
    {
      if listing.None? {
        return Fail(NeedLoadProfileError);
      }
      var listFiles := listing.value;
      var langsize, index := |listFiles|, 0;
      for i := 0 to langsize
        invariant Valid()
        invariant index <= i
        invariant WideRows(wordLangProbMap, langsize)
        invariant LoadEntries(State(), listFiles[i..], index, langsize) == LoadEntries(old(State()), listFiles, 0, langsize)
      {
        var file := listFiles[i];
        assert listFiles[i..][0] == file && listFiles[i..][1..] == listFiles[i + 1..];
        if "." <= file.name || !file.isFile {
          continue;
        }
        match file.read
        case IoError =>
          return Fail(FileLoadError);
        case Read(JsonError) =>
          return Fail(FormatError);
        case Read(Decoded(profile)) =>
          WideRowsFit(wordLangProbMap, profile, index, langsize);
          r := AddProfile(profile, index, langsize);
          if r.Fail? {
            return;
          }
          index := index + 1;
      }
      assert listFiles[langsize..] == [];
      r := Pass;
    }

    /** The loading half of `loadProfileAsResource`: the scan of the bundled resources
        either failed, or produced every profile, which are then added in order. */
    method LoadProfileAsResource(scan: Result<seq<LangProfile>>) returns (r: Outcome)
      requires Valid()
      requires scan.Failure? ==> IsScanError(scan.error)
      requires scan.Success? ==> WideRows(wordLangProbMap, |scan.value|)
      modifies this
      ensures Valid()
      ensures scan.Failure? ==>
        r == Fail(scan.error) && langlist == old(langlist) && wordLangProbMap == old(wordLangProbMap)
      ensures Applied(r, State()) == LoadResource(old(State()), scan)
    {
      if scan.Failure? {
        return Fail(scan.error);
      }
      var profiles := scan.value;
      var langsize := |profiles|;
      ghost var steps := ProfileSteps(profiles);
      for i := 0 to langsize
        invariant Valid()
        invariant WideRows(wordLangProbMap, langsize)
        invariant AddAll(State(), steps[i..], i, langsize) == AddAll(old(State()), steps, 0, langsize)
      {
        assert steps[i..][0] == Add(profiles[i]) && steps[i..][1..] == steps[i + 1..];
        WideRowsFit(wordLangProbMap, profiles[i], i, langsize);
        r := AddProfile(profiles[i], i, langsize);
        if r.Fail? {
          return;
        }
      }
      assert steps[langsize..] == [];
      r := Pass;
    }

    /** Forgets every loaded language, so that the factory can be loaded afresh. */
    method Clear()
      modifies this
      ensures Valid()
      ensures langlist == [] && wordLangProbMap == map[]
    {
      langlist := [];
      wordLangProbMap := map[];
    }

    /** Whether a detector can be built on this factory: only once a language is loaded. */
    method Create() returns (r: Outcome)
      ensures r.Fail? <==> langlist == []
      ensures r.Fail? ==> r.error == NeedLoadProfileError
    {
      if langlist == [] {
        return Fail(NeedLoadProfileError);
      }
      return Pass;
    }

    /** The loaded languages in load order, column i naming language i of one batch. */
    function GetLangList(): (r: seq<string>)
      requires Valid()
      reads this
      ensures Distinct(r)
      ensures |r| == |langlist| && forall i :: 0 <= i < |r| ==> r[i] == langlist[i]
    {
      langlist
    }
  }
}
