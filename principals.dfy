/**
 * The identity holder of a Subject: the principals it carries and the typed
 * lookups over them (getPrincipal, getPrincipalByType, getAllPrincipalsByType).
 *
 * Java's `Class<T>` and run-time assignability are replaced by a finite set of
 * type tags with the subtyping that the boxed Java types have.
 */
module Principals {
  import opened Wrappers

  /** An application identity value, tagged with its run-time type. */
  datatype Principal =
    | Str(text: string)
    | Integer(intValue: int)
    | Long(longValue: int)
    | Boolean(flag: bool)

  /** The Java types a caller may ask for. */
  datatype JavaType = ObjectType | StringType | NumberType | IntegerType | LongType | BooleanType

  /** `t.isInstance(p)`: the principal's run-time type is assignable to `t`. */
  predicate IsInstance(p: Principal, t: JavaType)
  {
    match t
    case ObjectType => true
    case StringType => p.Str?
    case NumberType => p.Integer? || p.Long?
    case IntegerType => p.Integer?
    case LongType => p.Long?
    case BooleanType => p.Boolean?
  }

  /**
   * getPrincipal(): absent exactly when the Subject carries no principal.
   * With several principals (several realms) the documented rule is that the
   * first one, in the order the realms contributed them, is "the" principal.
   */
  function GetPrincipal(ps: seq<Principal>): (r: Option<Principal>)
    ensures r.None? <==> ps == []
    ensures r.Some? ==> r.value in ps && r.value == ps[0]
  {
    if ps == [] then None else Some(ps[0])
  }

  /**
   * getPrincipalByType(t): some principal of type `t`, or absent when there
   * is none; a miss is not an error. The first match is chosen.
   */
  function PrincipalByType(ps: seq<Principal>, t: JavaType): (r: Option<Principal>)
    ensures r.Some? ==> r.value in ps && IsInstance(r.value, t)
    ensures r.None? <==> forall i :: 0 <= i < |ps| ==> !IsInstance(ps[i], t)
  {
    if ps == [] then None
    else if IsInstance(ps[0], t) then Some(ps[0])
    else PrincipalByType(ps[1..], t)
  }

  /**
   * getAllPrincipalsByType(t): exactly the principals of type `t`, each as
   * often as it occurs, in the Subject's order; empty when there are none.
   */
  function AllPrincipalsByType(ps: seq<Principal>, t: JavaType): (r: seq<Principal>)
    ensures forall p :: p in r ==> IsInstance(p, t)
    ensures forall p {:trigger multiset(r)[p]} ::
      multiset(r)[p] == if IsInstance(p, t) then multiset(ps)[p] else 0
    ensures |r| <= |ps|
  {
    if ps == [] then []
    else if IsInstance(ps[0], t) then
      assert ps == [ps[0]] + ps[1..];
      [ps[0]] + AllPrincipalsByType(ps[1..], t)
    else
      assert ps == [ps[0]] + ps[1..];
      AllPrincipalsByType(ps[1..], t)
  }

  /** The single typed lookup returns the first element of the bulk one. */
  lemma {:induction false} PrincipalByTypeIsFirstOfAll(ps: seq<Principal>, t: JavaType)
    ensures PrincipalByType(ps, t) ==
      (if AllPrincipalsByType(ps, t) == [] then None else Some(AllPrincipalsByType(ps, t)[0]))
  {
    if ps != [] && !IsInstance(ps[0], t) {
      PrincipalByTypeIsFirstOfAll(ps[1..], t);
    }
  }

  /**
   * Principals contributed by several realms: the lookup over the combined
   * collection is the lookups over each contribution, in order.
   */
  lemma {:induction false} AllPrincipalsByTypeConcat(a: seq<Principal>, b: seq<Principal>, t: JavaType)
    ensures AllPrincipalsByType(a + b, t) == AllPrincipalsByType(a, t) + AllPrincipalsByType(b, t)
  {
    if a != [] {
      assert (a + b)[0] == a[0];
      assert (a + b)[1..] == a[1..] + b;
      AllPrincipalsByTypeConcat(a[1..], b, t);
    } else {
      assert a + b == b;
    }
  }

  /** Every principal is an Object: asking for Object returns them all, in order. */
  lemma {:induction false} AllOfObjectTypeIsEverything(ps: seq<Principal>)
    ensures AllPrincipalsByType(ps, ObjectType) == ps
  {
    if ps != [] {
      AllOfObjectTypeIsEverything(ps[1..]);
      assert ps == [ps[0]] + ps[1..];
    }
  }

  /**
   * A Subject holding "alice" from one realm and 42 from another: the typed
   * lookups separate them, and asking for a type nobody has is absent, not an error.
   */
  lemma TwoRealmLookup()
    ensures AllPrincipalsByType([Str("alice")] + [Integer(42)], IntegerType) == [Integer(42)]
    ensures AllPrincipalsByType([Str("alice")] + [Integer(42)], StringType) == [Str("alice")]
    ensures PrincipalByType([Str("alice")] + [Integer(42)], BooleanType) == None
    ensures GetPrincipal([Str("alice")] + [Integer(42)]) == Some(Str("alice"))
  {
  }
}
