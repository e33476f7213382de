/**
 * The trust registry: a map from configured class name to the source that lists it,
 * built once from the configuration records and then only queried.
 *
 * The iteration order of the underlying hash map is not specified by the platform;
 * every query takes it as an input `order`, the sequence in which the map's keys are
 * visited. Keys in `order` that are not in the map are skipped.
 */
module ConfigLoader {
  import opened Wrappers
  import opened ConfigRecords
  import opened ConstructorAnalyzer

  /** The class names a list of profiles declares. */
  function ClassNames(classes: seq<ConfigClass>): (names: set<string>)
    ensures forall p :: p in classes ==> p.className in names
    ensures forall n :: n in names ==> exists p :: p in classes && p.className == n
  {
    set p | p in classes :: p.className
  }

  /** Putting every class name of `classes`, in order, with `source` as value. */
  function RegisterClasses(m: map<string, Source>, source: Source, classes: seq<ConfigClass>): map<string, Source>
    decreases |classes|
  {
    if classes == [] then m
    else RegisterClasses(m, source, classes[..|classes| - 1])[classes[|classes| - 1].className := source]
  }

  /** Registering the sources, in configuration order, one class name at a time. */
  function RegisterSources(m: map<string, Source>, srcs: seq<Source>): map<string, Source>
    decreases |srcs|
  {
    if srcs == [] then m
    else
      var last := srcs[|srcs| - 1];
      RegisterClasses(RegisterSources(m, srcs[..|srcs| - 1]), last, last.classes)
  }

  /** What the registry holds after loading `config` on top of `m`: nothing happens without a non-empty source list. */
  function Registered(m: map<string, Source>, config: Option<Config>): map<string, Source> {
    if config.Some? && config.value.sources.Some? && |config.value.sources.value| > 0
    then RegisterSources(m, config.value.sources.value)
    else m
  }

  /** Registering one source's classes: their names become keys mapped to it; every other key keeps its value. */
  lemma {:induction false} RegisterClassesEffect(m: map<string, Source>, source: Source, classes: seq<ConfigClass>)
    ensures RegisterClasses(m, source, classes).Keys == m.Keys + ClassNames(classes)
    ensures forall k :: k in ClassNames(classes) ==> RegisterClasses(m, source, classes)[k] == source
    ensures forall k :: k in m && k !in ClassNames(classes) ==> RegisterClasses(m, source, classes)[k] == m[k]
    decreases |classes|
  {
    if classes != [] {
      var front := classes[..|classes| - 1];
      assert classes == front + [classes[|classes| - 1]];
      assert ClassNames(classes) == ClassNames(front) + {classes[|classes| - 1].className};
      RegisterClassesEffect(m, source, front);
    }
  }

  /** After registering `srcs`, the keys are the old keys plus every class name of every source. */
  lemma {:induction false} RegisterSourcesKeys(m: map<string, Source>, srcs: seq<Source>)
    ensures forall k :: k in RegisterSources(m, srcs) <==> k in m || exists i :: 0 <= i < |srcs| && k in ClassNames(srcs[i].classes)
    decreases |srcs|
  {
    if srcs != [] {
      var n := |srcs|;
      var front, last := srcs[..n - 1], srcs[n - 1];
      RegisterSourcesKeys(m, front);
      RegisterClassesEffect(RegisterSources(m, front), last, last.classes);
      assert forall i :: 0 <= i < n - 1 ==> front[i] == srcs[i];
      forall k | k in RegisterSources(m, srcs)
        ensures k in m || exists i :: 0 <= i < n && k in ClassNames(srcs[i].classes)
      {
        if k !in RegisterSources(m, front) {
          assert k in ClassNames(srcs[n - 1].classes);
        }
      }
      forall k | k in m || exists i :: 0 <= i < n && k in ClassNames(srcs[i].classes)
        ensures k in RegisterSources(m, srcs)
      {
        if k !in m {
          var i :| 0 <= i < n && k in ClassNames(srcs[i].classes);
          if i < n - 1 {
            assert k in ClassNames(front[i].classes);
          }
        }
      }
    }
  }

  /**
   * Last write wins: a name listed by some source maps, after registration, to the last
   * source in configuration order that lists it.
   */
  lemma {:induction false} RegisterSourcesLastWins(m: map<string, Source>, srcs: seq<Source>, i: nat, k: string)
    requires i < |srcs| && k in ClassNames(srcs[i].classes)
    requires forall j :: i < j < |srcs| ==> k !in ClassNames(srcs[j].classes)
    ensures k in RegisterSources(m, srcs) && RegisterSources(m, srcs)[k] == srcs[i]
    decreases |srcs|
  {
    var n := |srcs|;
    var front, last := srcs[..n - 1], srcs[n - 1];
    RegisterClassesEffect(RegisterSources(m, front), last, last.classes);
    if i < n - 1 {
      assert k !in ClassNames(last.classes);
      assert forall j :: i < j < n - 1 ==> front[j] == srcs[j];
      RegisterSourcesLastWins(m, front, i, k);
    }
  }

  /** A key no source lists keeps the value it had before registration. */
  lemma {:induction false} RegisterSourcesKeeps(m: map<string, Source>, srcs: seq<Source>, k: string)
    requires k in m && forall i :: 0 <= i < |srcs| ==> k !in ClassNames(srcs[i].classes)
    ensures k in RegisterSources(m, srcs) && RegisterSources(m, srcs)[k] == m[k]
    decreases |srcs|
  {
    if srcs != [] {
      var n := |srcs|;
      var front, last := srcs[..n - 1], srcs[n - 1];
      assert forall j :: 0 <= j < n - 1 ==> front[j] == srcs[j];
      RegisterSourcesKeeps(m, front, k);
      RegisterClassesEffect(RegisterSources(m, front), last, last.classes);
      assert k !in ClassNames(srcs[n - 1].classes);
    }
  }

  /** Loading `srcs` into an empty registry stores no source the configuration does not list. */
  lemma {:induction false} RegisteredSourcesAreConfigured(srcs: seq<Source>)
    ensures forall k :: k in RegisterSources(map[], srcs) ==> RegisterSources(map[], srcs)[k] in srcs
    decreases |srcs|
  {
    if srcs != [] {
      var n := |srcs|;
      var front, last := srcs[..n - 1], srcs[n - 1];
      RegisteredSourcesAreConfigured(front);
      RegisterClassesEffect(RegisterSources(map[], front), last, last.classes);
      assert forall x :: x in front ==> x in srcs;
    }
  }

  /** The map's values as the platform streams them: one per key, in iteration order. */
  function ValuesInOrder(m: map<string, Source>, order: seq<string>): (vs: seq<Source>)
    ensures forall v :: v in vs ==> v in m.Values
    ensures forall k :: k in order && k in m ==> m[k] in vs
  {
    if order == [] then []
    else (if order[0] in m then [m[order[0]]] else []) + ValuesInOrder(m, order[1..])
  }

  /** `order` visits every key of `m` (as a hash map's iteration does). */
  predicate Enumerates(order: seq<string>, m: map<string, Source>) {
    forall k :: k in m ==> k in order
  }

  /** The trust flag of the first source named `name`, if any. */
  function FirstTrustFlag(vs: seq<Source>, name: string): (flag: Option<bool>)
    ensures flag.None? <==> forall s :: s in vs ==> s.name != name
    ensures flag.Some? ==> exists s :: s in vs && s.name == name && s.trusted == flag.value
    ensures flag.Some? ==> exists i :: 0 <= i < |vs| && vs[i].name == name && vs[i].trusted == flag.value
                                       && forall j :: 0 <= j < i ==> vs[j].name != name
  {
    if vs == [] then None
    else if vs[0].name == name then Some(vs[0].trusted)
    else FirstTrustFlag(vs[1..], name)
  }

  /**
   * One profile contributes a match: same class name, the method among its methods, a
   * non-static call, a non-empty constructor list, and a constructor that matches the
   * argument list exactly.
   */
  predicate ProfileMatches(profile: ConfigClass, className: string, currentMethod: string,
                           parameterContext: seq<Token>, staticMethod: bool)
  {
    && profile.className == className
    && currentMethod in profile.methods
    && !staticMethod
    && |profile.constructors| > 0
    && exists c :: c in profile.constructors && MatchesConstructor(c, parameterContext)
  }

  /** What one source puts in the stream: itself, once per profile of its that matches. */
  function Contributions(source: Source, profiles: seq<ConfigClass>, className: string, currentMethod: string,
                         parameterContext: seq<Token>, staticMethod: bool): (out: seq<Source>)
    ensures forall s :: s in out ==> s == source
    ensures |out| > 0 <==> exists p :: p in profiles && ProfileMatches(p, className, currentMethod, parameterContext, staticMethod)
  {
    if profiles == [] then []
    else
      var p := profiles[0];
      var here := if p.className == className && currentMethod in p.methods then
                    if staticMethod || |p.constructors| == 0 then []
                    else if exists c :: c in p.constructors && MatchesConstructor(c, parameterContext) then [source]
                    else []
                  else [];
      assert |here| > 0 <==> ProfileMatches(p, className, currentMethod, parameterContext, staticMethod);
      assert forall x :: x in profiles <==> x == p || x in profiles[1..];
      here + Contributions(source, profiles[1..], className, currentMethod, parameterContext, staticMethod)
  }

  /** The flattened stream of candidate sources, values in iteration order. */
  function Candidates(vs: seq<Source>, className: string, currentMethod: string,
                      parameterContext: seq<Token>, staticMethod: bool): (out: seq<Source>)
    ensures forall s :: s in out <==> s in vs && exists p :: p in s.classes && ProfileMatches(p, className, currentMethod, parameterContext, staticMethod)
  {
    if vs == [] then []
    else
      var here := Contributions(vs[0], vs[0].classes, className, currentMethod, parameterContext, staticMethod);
      var rest := Candidates(vs[1..], className, currentMethod, parameterContext, staticMethod);
      assert forall x :: x in vs <==> x == vs[0] || x in vs[1..];
      assert |here| > 0 ==> here[0] in here;
      here + rest
  }

  /**
   * As written, the list of untrusted source names tests, for every name, the first
   * `trusted` value found in the whole source array, i.e. the flag of the first source.
   */
  function UntrustedSourcesAsWritten(srcs: seq<Source>): (names: seq<string>)
    ensures names == [] || |names| == |srcs|
    ensures |srcs| > 0 && !srcs[0].trusted ==> |names| == |srcs| && forall i :: 0 <= i < |srcs| ==> names[i] == srcs[i].name
    ensures |srcs| == 0 || srcs[0].trusted ==> names == []
  {
    if |srcs| > 0 && !srcs[0].trusted then SourceNames(srcs) else []
  }

  function SourceNames(srcs: seq<Source>): (names: seq<string>)
    ensures |names| == |srcs| && forall i :: 0 <= i < |srcs| ==> names[i] == srcs[i].name
  {
    if srcs == [] then [] else [srcs[0].name] + SourceNames(srcs[1..])
  }

  /** A trusted first source hides every untrusted one after it: no name at all is reported. */
  lemma UntrustedSourceMissed()
    ensures var srcs := [Source("trustedApi", true, []), Source("userInput", false, [])];
            !srcs[1].trusted && "userInput" !in UntrustedSourcesAsWritten(srcs)
  {
  }

  /** The names of the sources whose own flag is false, in configuration order. */
  function UntrustedSources(srcs: seq<Source>): (names: seq<string>)
    ensures forall n :: n in names <==> exists s :: s in srcs && s.name == n && !s.trusted
    ensures |names| <= |srcs|
  {
    if srcs == [] then []
    else (if srcs[0].trusted then [] else [srcs[0].name]) + UntrustedSources(srcs[1..])
  }

  /** When every source carries the same flag as the first, the as-written filter gives the intended list. */
  lemma {:induction false} UntrustedSourcesAgreeWhenUniform(srcs: seq<Source>)
    requires forall i :: 0 <= i < |srcs| ==> srcs[i].trusted == srcs[0].trusted
    ensures UntrustedSourcesAsWritten(srcs) == UntrustedSources(srcs)
  {
    if |srcs| > 0 && !srcs[0].trusted {
      AllUntrusted(srcs);
    } else if |srcs| > 0 {
      NoneUntrusted(srcs);
    }
  }

  lemma {:induction false} AllUntrusted(srcs: seq<Source>)
    requires forall i :: 0 <= i < |srcs| ==> !srcs[i].trusted
    ensures UntrustedSources(srcs) == SourceNames(srcs)
  {
    if srcs != [] {
      AllUntrusted(srcs[1..]);
    }
  }

  lemma {:induction false} NoneUntrusted(srcs: seq<Source>)
    requires forall i :: 0 <= i < |srcs| ==> srcs[i].trusted
    ensures UntrustedSources(srcs) == []
  {
    if srcs != [] {
      NoneUntrusted(srcs[1..]);
    }
  }

  /** The registry object: `sources` maps a configured class name to the source that lists it. */
  class ConfigLoader {
    var sources: map<string, Source>

    /** Builds the registry from a configuration already read from disk. */
    constructor (config: Option<Config>)
      ensures sources == Registered(map[], config)
    {
      sources := map[];
      new;
      InsertSources(config);
    }

    /** `insertSources`: for every source, for every class of it, `put(className, source)`. */
    method InsertSources(config: Option<Config>)
      modifies this
      ensures sources == Registered(old(sources), config)
      ensures config.None? || config.value.sources.None? || config.value.sources.value == [] ==> sources == old(sources)
    {
      if config.Some? && config.value.sources.Some? && |config.value.sources.value| > 0 {
        var srcs := config.value.sources.value;
        var i := 0;
        while i < |srcs|
          invariant 0 <= i <= |srcs|
          invariant sources == RegisterSources(old(sources), srcs[..i])
        {
          var source := srcs[i];
          var j := 0;
          while j < |source.classes|
            invariant 0 <= j <= |source.classes|
            invariant sources == RegisterClasses(RegisterSources(old(sources), srcs[..i]), source, source.classes[..j])
          {
            assert source.classes[..j + 1][..j] == source.classes[..j];
            sources := sources[source.classes[j].className := source];
            j := j + 1;
          }
          assert source.classes[..j] == source.classes;
          assert srcs[..i + 1][..i] == srcs[..i];
          i := i + 1;
        }
        assert srcs[..i] == srcs;
      }
    }

    /**
     * `isSourceTrusted`: the flag of the first registered source named `sourceName`, in
     * iteration order; `true` when there is none (fails open).
     */
    function IsSourceTrusted(sourceName: string, order: seq<string>): (t: bool)
      reads this
      ensures (forall k :: k in sources ==> sources[k].name != sourceName) ==> t
      ensures !t ==> exists k :: k in sources && sources[k].name == sourceName && !sources[k].trusted
    {
      match FirstTrustFlag(ValuesInOrder(sources, order), sourceName)
      case Some(flag) => flag
      case None => true
    }

    /**
     * `getSourceDetailsForResolvedType`: the first source, in iteration order, with a
     * profile for `className` that lists `currentMethod` and has a constructor matching
     * `parameterContext` exactly; never one for a static call.
     */
    function GetSourceDetailsForResolvedType(className: string, currentMethod: string, parameterContext: seq<Token>,
                                             staticMethod: bool, order: seq<string>): (s: Option<Source>)
      reads this
      ensures staticMethod ==> s.None?
      ensures (forall k :: k in sources ==> !Lists(sources[k], className)) ==> s.None?
      ensures s.Some? ==> s.value in sources.Values
                          && exists p :: p in s.value.classes && ProfileMatches(p, className, currentMethod, parameterContext, staticMethod)
      ensures Enumerates(order, sources)
              && (exists k, p :: k in sources && p in sources[k].classes && ProfileMatches(p, className, currentMethod, parameterContext, staticMethod))
              ==> s.Some?
    {
      var found := Candidates(ValuesInOrder(sources, order), className, currentMethod, parameterContext, staticMethod);
      if |found| > 0 then
        assert found[0] in found;
        assert exists p :: p in found[0].classes && p.className == className;
        Some(found[0])
      else None
    }
  }

  /** When every registered source with that name carries the same flag, the answer is that flag, whatever the order. */
  lemma IsSourceTrustedWhenAgreed(loader: ConfigLoader, sourceName: string, order: seq<string>, flag: bool)
    requires Enumerates(order, loader.sources)
    requires exists k :: k in loader.sources && loader.sources[k].name == sourceName
    requires forall k :: k in loader.sources && loader.sources[k].name == sourceName ==> loader.sources[k].trusted == flag
    ensures loader.IsSourceTrusted(sourceName, order) == flag
  {
    var k :| k in loader.sources && loader.sources[k].name == sourceName;
    assert loader.sources[k] in ValuesInOrder(loader.sources, order);
  }
}
