/**
 * The entity base and the `Name` value of the company package's shared module: the
 * base that the company domain imports.
 */
module CompanyShared {
  import opened Wrappers
  import opened Failures

  /**
   * An entity in the sense of domain-driven design: the name of its concrete class
   * (`type(self)`) and the identifier given to `__init__`. No class of the core
   * subclasses a concrete entity class, so `isinstance(other, type(self))` holds
   * exactly when both objects have the same concrete class.
   */
  datatype Entity<I(==)> = Entity(typeName: string, identifier: I)
  {
    /** `__eq__`: same concrete type and equal identifiers; nothing else is compared. */
    predicate Equals(other: Entity<I>) {
      typeName == other.typeName && identifier == other.identifier
    }

    /** `__hash__` hashes the tuple `(type(self), self.identifier)`; the model keeps that tuple. */
    function Hash(): (string, I) {
      (typeName, identifier)
    }
  }

  /** `Entity.__init__` followed by the `identifier` property. */
  function NewEntity<I(==)>(typeName: string, identifier: I): (e: Entity<I>)
    ensures e.identifier == identifier
  {
    Entity(typeName, identifier)
  }

  /** `__eq__` behaves as an equivalence relation and agrees with `__hash__`. */
  lemma EqualsIsEquivalence<I>(a: Entity<I>, b: Entity<I>, c: Entity<I>)
    ensures a.Equals(a)
    ensures a.Equals(b) ==> b.Equals(a)
    ensures a.Equals(b) && b.Equals(c) ==> a.Equals(c)
  {
  }

  /** Equal entities hash equal, and (the hash being the tuple itself) only those. */
  lemma HashAgreesWithEquals<I>(a: Entity<I>, b: Entity<I>)
    ensures a.Equals(b) <==> a.Hash() == b.Hash()
  {
  }

  /** Entities of different concrete types are unequal, whatever their identifiers. */
  lemma DifferentTypesUnequal<I>(a: Entity<I>, b: Entity<I>)
    requires a.typeName != b.typeName
    ensures !a.Equals(b) && !b.Equals(a)
  {
  }

  /** The `Name` value object of this module. */
  datatype Name = Name(value: string)

  /**
   * Constructing `Name`. Its check is declared as `__post_init` (without the trailing
   * underscores), so the dataclass never calls it and every string is accepted.
   */
  function MakeName(value: string): (r: Result<Name, Error>)
    ensures r.Ok? && r.value.value == value
  {
    Ok(Name(value))
  }

  /** The empty name, which the check was meant to refuse, is accepted. */
  lemma EmptyNameAccepted()
    ensures MakeName("") == Ok(Name(""))
  {
  }
}
