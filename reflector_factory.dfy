/** DefaultReflectorFactory: a memo cache of reflectors, one per class, that
    can be switched off. */
module ReflectorFactories {
  import opened Classes
  import CD = ClassDescriptors
  import opened Reflectors

  class DefaultReflectorFactory {
    /** The classes every reflector it builds looks into. */
    const universe: Universe
    var classCacheEnabled: bool
    var reflectorMap: map<ClassId, Reflector>

    /** Every cached reflector was built for its key and holds that class's descriptor. */
    ghost predicate Valid()
      reads this, reflectorMap.Values
    {
      forall c :: c in reflectorMap ==> reflectorMap[c].Describes(universe, c)
    }

    /** new DefaultReflectorFactory(): caching on, nothing cached. */
    constructor (u: Universe)
      ensures universe == u
      ensures classCacheEnabled
      ensures reflectorMap == map[]
      ensures Valid()
    {
      universe := u;
      classCacheEnabled := true;
      reflectorMap := map[];
    }

    method IsClassCacheEnabled() returns (enabled: bool)
      ensures enabled == classCacheEnabled
    {
      return classCacheEnabled;
    }

    method SetClassCacheEnabled(enabled: bool)
      modifies this
      ensures classCacheEnabled == enabled
      ensures reflectorMap == old(reflectorMap)
    {
      classCacheEnabled := enabled;
    }

    /** findForClass: with caching on, the cached reflector, built and added
        on the first request for the class; with caching off, a fresh
        reflector and an unchanged cache. */
    method FindForClass(c: ClassId) returns (r: Reflector)
      requires Valid()
      modifies this
      ensures Valid()
      ensures r.Describes(universe, c)
      ensures classCacheEnabled == old(classCacheEnabled)
      ensures old(classCacheEnabled) && c in old(reflectorMap) ==> r == old(reflectorMap)[c] && reflectorMap == old(reflectorMap)
      ensures old(classCacheEnabled) && c !in old(reflectorMap) ==> fresh(r) && reflectorMap == old(reflectorMap)[c := r]
      ensures !old(classCacheEnabled) ==> fresh(r) && reflectorMap == old(reflectorMap)
    {
      if classCacheEnabled {
        if c in reflectorMap {
          return reflectorMap[c];
        }
        r := new Reflector(universe, c);
        reflectorMap := reflectorMap[c := r];
        return;
      }
      r := new Reflector(universe, c);
    }
  }

  /** Two lookups of the same class with caching on, and nothing in between,
      return the same reflector, built at most once. */
  method RepeatedLookup(factory: DefaultReflectorFactory, c: ClassId) returns (first: Reflector, second: Reflector)
    requires factory.Valid() && factory.classCacheEnabled
    modifies factory
    ensures first == second
    ensures c in old(factory.reflectorMap) ==> first == old(factory.reflectorMap)[c]
    ensures factory.reflectorMap == old(factory.reflectorMap)[c := first]
  {
    first := factory.FindForClass(c);
    second := factory.FindForClass(c);
  }
}
