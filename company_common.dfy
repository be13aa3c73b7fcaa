/** The company package's common module: `flatten`, the validated `Name`, and the entity base. */
module CompanyCommon {
  import opened Wrappers
  import opened Failures
  import CompanyShared

  /**
   * `Entity` here has the same body as the entity base of the shared module
   * (identifier set once, `__eq__` on type and identifier, `__hash__` on the pair),
   * so the model gives both one definition; the lemmas stated there hold for both.
   */
  type Entity<I(==)> = CompanyShared.Entity<I>

  /** `flatten(xss) = [x for xs in xss for x in xs]`. */
  function Flatten<T>(xss: seq<seq<T>>): seq<T> {
    if xss == [] then [] else xss[0] + Flatten(xss[1..])
  }

  /** The total length of the inner lists. */
  function SumLengths<T>(xss: seq<seq<T>>): nat {
    if xss == [] then 0 else |xss[0]| + SumLengths(xss[1..])
  }

  /** The flattened list is as long as the inner lists together; an empty outer list gives []. */
  lemma {:induction false} FlattenLength<T>(xss: seq<seq<T>>)
    ensures |Flatten(xss)| == SumLengths(xss)
    ensures xss == [] ==> Flatten(xss) == []
  {
    if xss != [] {
      FlattenLength(xss[1..]);
    }
  }

  /** Flattening distributes over concatenation of the outer lists. */
  lemma {:induction false} FlattenAppend<T>(a: seq<seq<T>>, b: seq<seq<T>>)
    ensures Flatten(a + b) == Flatten(a) + Flatten(b)
  {
    if a == [] {
      assert a + b == b;
    } else {
      assert (a + b)[1..] == a[1..] + b;
      FlattenAppend(a[1..], b);
    }
  }

  /**
   * The in-order concatenation: the `j`-th item of the `i`-th inner list sits right
   * after all items of the lists before it.
   */
  lemma {:induction false} FlattenIndex<T>(xss: seq<seq<T>>, i: nat, j: nat)
    requires i < |xss| && j < |xss[i]|
    ensures SumLengths(xss[..i]) + j < |Flatten(xss)|
    ensures Flatten(xss)[SumLengths(xss[..i]) + j] == xss[i][j]
  {
    FlattenLength(xss);
    FlattenLength(xss[..i]);
    if i == 0 {
      assert xss[..0] == [];
    } else {
      assert xss[1..][..i - 1] == xss[..i][1..];
      FlattenIndex(xss[1..], i - 1, j);
      FlattenLength(xss[1..]);
    }
  }

  /** An item is in the flattened list iff it is in one of the inner lists. */
  lemma {:induction false} FlattenMember<T>(xss: seq<seq<T>>, x: T)
    ensures x in Flatten(xss) <==> exists i :: 0 <= i < |xss| && x in xss[i]
  {
    if xss != [] {
      FlattenMember(xss[1..], x);
      if x in xss[0] {
      } else if exists i :: 0 <= i < |xss| && x in xss[i] {
        var i :| 0 <= i < |xss| && x in xss[i];
        assert 0 < i && x in xss[1..][i - 1];
      }
    }
  }

  /** The `Name` value object: a dataclass whose `__post_init__` refuses the empty string. */
  datatype Name = Name(value: string)

  /** Constructing `Name`: `ValueError` for the empty string, any other string accepted as is. */
  function MakeName(value: string): (r: Result<Name, Error>)
    ensures r.Err? <==> |value| == 0
    ensures r.Err? ==> r.error == ValueError(EmptyName)
    ensures r.Ok? ==> r.value.value == value
  {
    if 0 == |value| then Err(ValueError(EmptyName)) else Ok(Name(value))
  }
}
