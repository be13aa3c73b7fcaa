/**
 * The entity base of the meiro package: an identifier, equality and hashing by
 * concrete type and identifier, and the text form `TypeName(id=<id>)`.
 */
module MeiroShared {
  import opened Wrappers

  /**
   * An entity: the name of its concrete class (`type(self).__name__`) and the
   * identifier given to `__init__`. Every meiro entity has an `int` identifier.
   */
  datatype Entity = Entity(typeName: string, id: int)
  {
    /** `__eq__`: `isinstance(other, type(self)) and self.id == other.id`. */
    predicate Equals(other: Entity) {
      typeName == other.typeName && id == other.id
    }

    /** `__hash__` hashes the tuple `(type(self), self.id)`; the model keeps that tuple. */
    function Hash(): (string, int) {
      (typeName, id)
    }

    /** `__str__` (and `__repr__`): `f"{type(self).__name__}(id={self.id})"`. */
    function Str(): string {
      typeName + "(id=" + IntToDecimal(id) + ")"
    }
  }

  /** `Entity.__init__(id)` followed by the `id` property. */
  function NewEntity(typeName: string, id: int): (e: Entity)
    ensures e.id == id && e.typeName == typeName
  {
    Entity(typeName, id)
  }

  /** `__eq__` is an equivalence relation. */
  lemma EqualsIsEquivalence(a: Entity, b: Entity, c: Entity)
    ensures a.Equals(a)
    ensures a.Equals(b) ==> b.Equals(a)
    ensures a.Equals(b) && b.Equals(c) ==> a.Equals(c)
  {
  }

  /** Equal entities hash equal, and (the hash being the tuple itself) only those. */
  lemma HashAgreesWithEquals(a: Entity, b: Entity)
    ensures a.Equals(b) <==> a.Hash() == b.Hash()
  {
  }

  // ---------------------------------------------------------------------------
  // Decimal text of an integer, as `str(int)` writes it
  // ---------------------------------------------------------------------------

  predicate IsDigit(c: char) { '0' <= c <= '9' }

  predicate AllDigits(s: string) { forall i :: 0 <= i < |s| ==> IsDigit(s[i]) }

  function DigitChar(d: nat): (c: char)
    requires d < 10
    ensures IsDigit(c) && DigitValue(c) == d
  {
    ('0' as int + d) as char
  }

  /** The decimal digits of `n`, most significant first, without leading zeros. */
  function NatToDecimal(n: nat): (s: string)
    ensures |s| >= 1 && AllDigits(s)
    ensures s[0] == '0' ==> n == 0 && s == "0"
  {
    if n < 10 then [DigitChar(n)] else NatToDecimal(n / 10) + [DigitChar(n % 10)]
  }

  function DigitValue(c: char): (d: nat)
    requires IsDigit(c)
    ensures d < 10
  {
    c as int - '0' as int
  }

  /** The number a string of digits spells. */
  function DecimalValue(s: string): nat
    requires AllDigits(s)
  {
    if s == [] then 0 else DecimalValue(s[..|s| - 1]) * 10 + DigitValue(s[|s| - 1])
  }

  /** `str(n)` for an `int`: a minus sign before the digits of a negative number. */
  function IntToDecimal(i: int): (s: string)
    ensures |s| >= 1 && (i < 0 <==> s[0] == '-') && ('(' !in s && ')' !in s)
  {
    if i < 0 then "-" + NatToDecimal(-i) else NatToDecimal(i)
  }

  /** Whether `s` is the text of an integer: an optional minus sign and at least one digit. */
  predicate IsInteger(s: string) {
    if |s| > 0 && s[0] == '-' then |s| > 1 && AllDigits(s[1..]) else |s| > 0 && AllDigits(s)
  }

  /** `int(s)` on the text of an integer. */
  function ParseInt(s: string): int
    requires IsInteger(s)
  {
    if s[0] == '-' then -(DecimalValue(s[1..]) as int) else DecimalValue(s)
  }

  /** Reading back the digits of a natural number gives that number. */
  lemma {:induction false} NatDecimalRoundTrip(n: nat)
    ensures DecimalValue(NatToDecimal(n)) == n
  {
    if n >= 10 {
      NatDecimalRoundTrip(n / 10);
      var s := NatToDecimal(n);
      assert s[..|s| - 1] == NatToDecimal(n / 10);
    }
  }

  /** `int(str(i)) == i`. */
  lemma IntDecimalRoundTrip(i: int)
    ensures IsInteger(IntToDecimal(i)) && ParseInt(IntToDecimal(i)) == i
  {
    if i < 0 {
      var s := IntToDecimal(i);
      assert s[1..] == NatToDecimal(-i);
      NatDecimalRoundTrip(-i);
    } else {
      NatDecimalRoundTrip(i);
    }
  }

  // ---------------------------------------------------------------------------
  // Reading `TypeName(id=<id>)` back
  // ---------------------------------------------------------------------------

  /** The index of the first `c` in `s`, or `|s|` when there is none. */
  function IndexOf(s: string, c: char): (k: nat)
    ensures k <= |s| && (k < |s| ==> s[k] == c)
    ensures forall i :: 0 <= i < k ==> s[i] != c
  {
    if s == [] then 0 else if s[0] == c then 0 else 1 + IndexOf(s[1..], c)
  }

  /** The entity the text `TypeName(id=<id>)` names, for a type name without `(`. */
  function ParseStr(s: string): Option<Entity> {
    var k := IndexOf(s, '(');
    if k + 5 <= |s| && s[k..k + 4] == "(id=" && s[|s| - 1] == ')' && IsInteger(s[k + 4..|s| - 1])
    then Some(Entity(s[..k], ParseInt(s[k + 4..|s| - 1])))
    else None
  }

  lemma IndexOfPrefix(t: string, c: char, rest: string)
    requires c !in t
    ensures IndexOf(t + [c] + rest, c) == |t|
  {
    var s := t + [c] + rest;
    var k := IndexOf(s, c);
    assert s[|t|] == c;
  }

  /** `TypeName(id=<digits>)` reads back as the type name and the integer the digits spell. */
  lemma ParseStrOf(name: string, digits: string)
    requires '(' !in name && IsInteger(digits)
    ensures ParseStr(name + "(id=" + digits + ")") == Some(Entity(name, ParseInt(digits)))
  {
    var s := name + "(id=" + digits + ")";
    assert s == name + ['('] + ("id=" + digits + ")");
    IndexOfPrefix(name, '(', "id=" + digits + ")");
    var k := |name|;
    assert s[..k] == name;
    assert s[k..k + 4] == "(id=";
    assert s[k + 4..|s| - 1] == digits;
  }

  /** The text form names its entity back, so two entities print alike only when they are equal. */
  lemma StrRoundTrip(e: Entity)
    requires '(' !in e.typeName
    ensures ParseStr(e.Str()) == Some(e)
  {
    IntDecimalRoundTrip(e.id);
    ParseStrOf(e.typeName, IntToDecimal(e.id));
  }

  /** `str` tells entities apart: equal text means the same type name and the same id. */
  lemma StrInjective(a: Entity, b: Entity)
    requires '(' !in a.typeName && '(' !in b.typeName
    ensures a.Str() == b.Str() <==> a.Equals(b)
  {
    StrRoundTrip(a);
    StrRoundTrip(b);
  }
}
