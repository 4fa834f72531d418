/** Callers of the factory and the registry, proved from the contracts alone. */
module Usage {
  import opened LangProfiles
  import opened Outcomes
  import opened ProbTable
  import opened BatchLoad
  import opened Factory
  import opened Registry

  /** Two profiles with different names load into a fresh factory, in order, after which
      a detector can be created. */
  method LoadTwoThenCreate(p: LangProfile, q: LangProfile) returns (f: DetectorFactory, created: Outcome)
    requires p.name != q.name
    ensures f.Valid() && f.langlist == [p.name, q.name]
    ensures Recorded(f.wordLangProbMap, p, 0) && Recorded(f.wordLangProbMap, q, 1)
    ensures created == Pass
  {
    f := new DetectorFactory();
    ghost var s := f.State();
    var ps := [Decoded(p), Decoded(q)];
    AddAllPassIff(s, ListSteps(ps), 0, 2);
    var loaded := f.LoadProfiles(ps);
    LoadListColumns(s, ps);
    created := f.Create();
  }

  /** Loading the same name twice in one batch fails on the second copy; the languages
      before it stay loaded with their columns. */
  lemma DuplicateInBatchKeepsEarlier(p: LangProfile, q: LangProfile, p2: LangProfile)
    requires p.name != q.name && p2.name == p.name
    ensures var a := LoadList(FactoryState([], map[]), [Decoded(p), Decoded(q), Decoded(p2)]);
      && a.outcome == Fail(DuplicateLangError)
      && a.state.langlist == [p.name, q.name]
      && Recorded(a.state.table, p, 0) && Recorded(a.state.table, q, 1)
  {
    var s := FactoryState([], map[]);
    var steps := ListSteps([Decoded(p), Decoded(q), Decoded(p2)]);
    assert steps[..2] == [Add(p), Add(q)];
    AddAllPassIff(s, steps[..2], 0, 3);
    AddAllPass(s, steps[..2], 0, 3);
    AddAllStopsAtFailure(s, steps, 2, 0, 3);
  }

  /** After `Clear`, no detector can be created. */
  method ClearThenCreate(f: DetectorFactory) returns (created: Outcome)
    modifies f
    ensures f.Valid() && f.langlist == [] && f.wordLangProbMap == map[]
    ensures created == Fail(NeedLoadProfileError)
  {
    f.Clear();
    created := f.Create();
  }

  /** Asking the registry twice for one name gives the same factory both times. */
  method RequestTwice(registry: FactoryRegistry, name: string)
    returns (first: Result<DetectorFactory>, second: Result<DetectorFactory>)
    requires registry.Valid()
    modifies registry
    ensures registry.Valid()
    ensures first == second
    ensures first.Failure? <==> IsReserved(name)
  {
    first := registry.GetFactory(name);
    second := registry.GetFactory(name);
  }

  /** A second call to the default accessor returns the cached factory, untouched, even
      when the bundled profiles it is offered differ. */
  method DefaultLoadsOnce(registry: FactoryRegistry, bundled: Result<seq<LangProfile>>, other: Result<seq<LangProfile>>)
    returns (first: Result<DetectorFactory>, second: Result<DetectorFactory>)
    requires registry.Valid()
    requires bundled.Success? && 1 <= |bundled.value| && FreshAdds([], ProfileSteps(bundled.value))
    requires other.Failure? ==> IsScanError(other.error)
    requires DEFAULT_PROFILE !in registry.factories
    modifies registry, registry.factories.Values
    ensures first.Success? && first == second
    ensures DEFAULT_PROFILE in registry.factories && registry.factories[DEFAULT_PROFILE] == first.value
    // the factory holds what the first load left, whatever `other` would have loaded
    ensures Applied(Pass, first.value.State()) == LoadResource(FactoryState([], map[]), bundled)
  {
    AddAllPassIff(FactoryState([], map[]), ProfileSteps(bundled.value), 0, |bundled.value|);
    first := registry.GetDefaultFactory(bundled);
    AddAllPass(FactoryState([], map[]), ProfileSteps(bundled.value), 0, |bundled.value|);
    assert registry.factories[DEFAULT_PROFILE].langlist != [];
    second := registry.GetDefaultFactory(other);
  }

  /** Loaded into an empty factory, a gram that only language p has is p's probability in
      p's column and zero in the other language's column. */
  lemma GramOfOneLanguage(p: LangProfile, q: LangProfile, w: string)
    requires p.name != q.name && w in p.freq && IsGramLength(w) && w !in q.freq
    ensures LoadList(FactoryState([], map[]), [Decoded(p), Decoded(q)]).outcome == Pass
    ensures var t := LoadList(FactoryState([], map[]), [Decoded(p), Decoded(q)]).state.table;
      w in t && t[w] == [GramProb(p, w), 0.0]
  {
    var s := FactoryState([], map[]);
    var ps := [Decoded(p), Decoded(q)];
    var steps := ListSteps(ps);
    AddAllPassIff(s, steps, 0, 2);
    LoadListColumns(s, ps);
    var row := LoadList(s, ps).state.table[w];
    assert steps[0] == Add(p) && steps[1] == Add(q);
    assert |row| == 2;
    assert row[0] == GramProb(p, w);
    assert row == [row[0], row[1]];
  }
}
