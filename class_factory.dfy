/**
  * The class factory: a registry from a subclass name to the creator that
  * makes a new instance, plus the set of registered names. One factory
  * exists per base type; here it is an explicit object.
  */
module Factory {
  import opened Base

  class ClassFactory<T> {
    var creators: map<string, () -> T>
    var names: set<string>

    /** The names are exactly the keys of the creator map. */
    ghost predicate Valid()
      reads this
    {
      creators.Keys == names
    }

    constructor ()
      ensures Valid()
      ensures creators == map[] && names == {}
    {
      creators := map[];
      names := {};
    }

    /**
      * Register: an already registered name throws and leaves both the map
      * and the set as they were; otherwise the name and its creator are added
      * and every other name keeps its creator.
      */
    method Register(name: string, creator: () -> T) returns (threw: bool)
      requires Valid()
      modifies this
      ensures Valid()
      ensures threw <==> name in old(creators)
      ensures threw ==> creators == old(creators) && names == old(names)
      ensures !threw ==> creators == old(creators)[name := creator] && names == old(names) + {name}
      ensures forall other :: other != name && other in old(creators) ==> other in creators && creators[other] == old(creators)[other]
    {
      if name in creators {
        return true;
      }
      creators := creators[name := creator];
      names := names + {name};
      return false;
    }

    /** New: the registered creator is invoked; an unknown name gives null. */
    method New(name: string) returns (r: Option<T>)
      requires Valid()
      ensures r.Some? <==> name in names
      ensures r.Some? ==> r.value == creators[name]()
    {
      if name !in creators {
        return None;
      }
      var create := creators[name];
      return Some(create());
    }

    /** Names: the registered names. */
    function Names(): (r: set<string>)
      reads this
      requires Valid()
      ensures forall name :: name in r <==> name in creators
    {
      names
    }
  }

  /** Registering a fresh name makes it listed and makes New invoke the given creator. */
  method RegisterThenNew<T>(factory: ClassFactory<T>, name: string, creator: () -> T) returns (threw: bool, r: Option<T>)
    requires factory.Valid() && name !in factory.Names()
    modifies factory
    ensures factory.Valid()
    ensures !threw && name in factory.Names()
    ensures r == Some(creator())
  {
    threw := factory.Register(name, creator);
    r := factory.New(name);
  }

  /** Registering a name twice: the second attempt throws and the first creator stays. */
  method RegisterTwice<T>(factory: ClassFactory<T>, name: string, first: () -> T, second: () -> T) returns (threw: bool, r: Option<T>)
    requires factory.Valid() && name !in factory.Names()
    modifies factory
    ensures threw
    ensures r == Some(first())
    ensures factory.Valid()
  {
    var _ := factory.Register(name, first);
    threw := factory.Register(name, second);
    r := factory.New(name);
  }
}
