/** The registry of named factories, with the two reserved, self-loading defaults. */
module Registry {
  import opened LangProfiles
  import opened Outcomes
  import opened ProbTable
  import opened BatchLoad
  import opened Factory

  /** Name of the factory for standard-length text. */
  const DEFAULT_PROFILE: string := "DEFAULT"
  /** Name of the factory for short text. */
  const DEFAULT_SHORT_PROFILE: string := "SHORT"

  predicate IsReserved(name: string)
  {
    name == DEFAULT_PROFILE || name == DEFAULT_SHORT_PROFILE
  }

  class FactoryRegistry {
    /** Factory name to factory. */
    var factories: map<string, DetectorFactory>

    /** Every registered factory is consistent, and no factory is registered under two
        names (each one is created for the name it is registered under). */
    ghost predicate Valid()
      reads this, factories.Values
    {
      && (forall n :: n in factories ==> factories[n].Valid())
      && (forall n, m :: n in factories && m in factories && n != m ==> factories[n] != factories[m])
    }

    constructor ()
      ensures Valid() && factories == map[]
    {
      factories := map[];
    }

    /** `getFactory(name, checkReserved)`: a reserved name is refused when `checkReserved`
        holds; a known name gives its factory; an unknown name registers a fresh, empty one. */
    method GetFactoryChecked(name: string, checkReserved: bool) returns (r: Result<DetectorFactory>)
      requires Valid()
      modifies this
      ensures Valid()
      ensures checkReserved && IsReserved(name) ==> r == Failure(ReservedName) && factories == old(factories)
      ensures !(checkReserved && IsReserved(name)) ==> r.Success? && name in factories && factories[name] == r.value
      ensures !(checkReserved && IsReserved(name)) && name in old(factories) ==>
        r.value == old(factories[name]) && factories == old(factories)
      ensures !(checkReserved && IsReserved(name)) && name !in old(factories) ==>
        && fresh(r.value)
        && r.value.langlist == [] && r.value.wordLangProbMap == map[]
        && factories == old(factories)[name := r.value]
    {
      if checkReserved && IsReserved(name) {
        return Failure(ReservedName);
      }
      if name in factories {
        return Success(factories[name]);
      }
      var factory := new DetectorFactory();
      factories := factories[name := factory];
      return Success(factory);
    }

    /** The public `getFactory(name)`, which checks for the reserved names. */
    method GetFactory(name: string) returns (r: Result<DetectorFactory>)
      requires Valid()
      modifies this
      ensures Valid()
      ensures IsReserved(name) <==> r.Failure?
      ensures IsReserved(name) ==> r.error == ReservedName && factories == old(factories)
      ensures !IsReserved(name) && name in old(factories) ==>
        r.value == old(factories[name]) && factories == old(factories)
      ensures !IsReserved(name) && name !in old(factories) ==>
        && fresh(r.value)
        && r.value.langlist == [] && r.value.wordLangProbMap == map[]
        && factories == old(factories)[name := r.value]
    {
      r := GetFactoryChecked(name, true);
    }

    /** The default accessors: get the factory without the reserved-name check, and load
        the bundled profiles into it only while its language list is empty. */
    method GetSelfLoadingFactory(name: string, bundled: Result<seq<LangProfile>>) returns (r: Result<DetectorFactory>)
      requires Valid()
      requires bundled.Failure? ==> IsScanError(bundled.error)
      modifies this, factories.Values
      ensures Valid()
      ensures name in factories && factories.Keys == old(factories.Keys) + {name}
      ensures name in old(factories) ==> factories[name] == old(factories[name])
      ensures name !in old(factories) ==> fresh(factories[name])
      ensures forall n :: n in old(factories) && n != name ==>
        factories[n] == old(factories[n]) && factories[n].State() == old(factories[n].State())
      // a factory that already has languages is returned as it is
      ensures old(name in factories && factories[name].langlist != []) ==>
        r == Success(factories[name]) && factories[name].State() == old(factories[name].State())
      // otherwise it is empty, and ends as the bundled load leaves it
      ensures !old(name in factories && factories[name].langlist != []) ==>
        && Applied(if r.Success? then Pass else Fail(r.error), factories[name].State())
           == LoadResource(FactoryState([], map[]), bundled)
        && (r.Success? ==> r.value == factories[name])
    {
      var got := GetFactoryChecked(name, false);
      var factory := got.value;
      if factory.langlist == [] {
        var loaded := factory.LoadProfileAsResource(bundled);
        if loaded.Fail? {
          return Failure(loaded.error);
        }
      }
      return Success(factory);
    }

    /** `getDefaultFactory`, with `bundled` the outcome of scanning "profiles/". */
    method GetDefaultFactory(bundled: Result<seq<LangProfile>>) returns (r: Result<DetectorFactory>)
      requires Valid()
      requires bundled.Failure? ==> IsScanError(bundled.error)
      modifies this, factories.Values
      ensures Valid()
      ensures DEFAULT_PROFILE in factories && factories.Keys == old(factories.Keys) + {DEFAULT_PROFILE}
      ensures DEFAULT_PROFILE !in old(factories) ==> fresh(factories[DEFAULT_PROFILE])
      ensures forall n :: n in old(factories) && n != DEFAULT_PROFILE ==>
        factories[n] == old(factories[n]) && factories[n].State() == old(factories[n].State())
      ensures old(DEFAULT_PROFILE in factories && factories[DEFAULT_PROFILE].langlist != []) ==>
        && r == Success(factories[DEFAULT_PROFILE])
        && factories[DEFAULT_PROFILE] == old(factories[DEFAULT_PROFILE])
        && factories[DEFAULT_PROFILE].State() == old(factories[DEFAULT_PROFILE].State())
      ensures !old(DEFAULT_PROFILE in factories && factories[DEFAULT_PROFILE].langlist != []) ==>
        && Applied(if r.Success? then Pass else Fail(r.error), factories[DEFAULT_PROFILE].State())
           == LoadResource(FactoryState([], map[]), bundled)
        && (r.Success? ==> r.value == factories[DEFAULT_PROFILE])
    {
      r := GetSelfLoadingFactory(DEFAULT_PROFILE, bundled);
    }

    /** `getDefaultShortTextFactory`, with `bundled` the outcome of scanning "profiles.sm/". */
    method GetDefaultShortTextFactory(bundled: Result<seq<LangProfile>>) returns (r: Result<DetectorFactory>)
      requires Valid()
      requires bundled.Failure? ==> IsScanError(bundled.error)
      modifies this, factories.Values
      ensures Valid()
      ensures DEFAULT_SHORT_PROFILE in factories && factories.Keys == old(factories.Keys) + {DEFAULT_SHORT_PROFILE}
      ensures DEFAULT_SHORT_PROFILE !in old(factories) ==> fresh(factories[DEFAULT_SHORT_PROFILE])
      ensures forall n :: n in old(factories) && n != DEFAULT_SHORT_PROFILE ==>
        factories[n] == old(factories[n]) && factories[n].State() == old(factories[n].State())
      ensures old(DEFAULT_SHORT_PROFILE in factories && factories[DEFAULT_SHORT_PROFILE].langlist != []) ==>
        && r == Success(factories[DEFAULT_SHORT_PROFILE])
        && factories[DEFAULT_SHORT_PROFILE] == old(factories[DEFAULT_SHORT_PROFILE])
        && factories[DEFAULT_SHORT_PROFILE].State() == old(factories[DEFAULT_SHORT_PROFILE].State())
      ensures !old(DEFAULT_SHORT_PROFILE in factories && factories[DEFAULT_SHORT_PROFILE].langlist != []) ==>
        && Applied(if r.Success? then Pass else Fail(r.error), factories[DEFAULT_SHORT_PROFILE].State())
           == LoadResource(FactoryState([], map[]), bundled)
        && (r.Success? ==> r.value == factories[DEFAULT_SHORT_PROFILE])
    {
      r := GetSelfLoadingFactory(DEFAULT_SHORT_PROFILE, bundled);
    }
  }
}
