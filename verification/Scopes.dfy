/** Scopes and tool arguments: the JSON objects a tool call, a permission rule and an approval carry. */
module Scopes {
  import opened Wrappers

  /** `Num` stands for Python's int, float and bool alike, which compare as numbers; `Other` for null
      and nested objects, told apart by their text. */
  datatype Value = Num(n: real) | Str(s: string) | List(items: seq<Value>) | Other(text: string)

  const NULL := Other("null")

  type Scope = map<string, Value>

  /** Python's truth value of an argument. */
  predicate Truthy(v: Value) {
    match v
    case Num(n) => n != 0.0
    case Str(s) => s != ""
    case List(items) => items != []
    case Other(text) => text != "null" && text != "{}"
  }

  function Lookup(scope: Scope, key: string): Option<Value> {
    if key in scope then Some(scope[key]) else None
  }

  /** `str(value)`; for anything but a string the exact text does not matter here. */
  function Text(v: Value): string {
    match v
    case Str(s) => s
    case Num(n) => "<number>"
    case List(items) => "<list>"
    case Other(text) => text
  }

  function Texts(items: seq<Value>): (r: seq<string>)
    ensures |r| == |items|
  {
    seq(|items|, i requires 0 <= i < |items| => Text(items[i]))
  }

  predicate AllStrings(items: seq<Value>) {
    forall v :: v in items ==> v.Str?
  }

  /** A value list as `_values_allowed` reads it: a bare string is a list of one.  Where the original
      would raise a TypeError the list is empty, which every check refuses. */
  function Strings(scope: Scope, key: string): seq<string> {
    match Lookup(scope, key)
    case Some(Str(s)) => [s]
    case Some(List(items)) => if AllStrings(items) then Texts(items) else []
    case _ => []
  }

  // ----- coverage (maurice/kernel/approvals.py:327-345) -----

  /** Does an approved value cover a requested one? */
  predicate ValueCovers(approved: Value, requested: Value) {
    if requested.Num? && approved.Num? then requested.n <= approved.n
    else if requested.List? then
      var values := if approved.List? then approved.items else [approved];
      Str("*") in values || forall v :: v in requested.items ==> v in values
    else requested == approved
  }

  predicate Covers(approved: Scope, requested: Scope) {
    forall key :: key in requested ==> key in approved && ValueCovers(approved[key], requested[key])
  }

  /** `_scope_covers`, which leaves at the first key that is not covered. */
  method ScopeCovers(approved: Scope, requested: Scope) returns (covers: bool)
    ensures covers == Covers(approved, requested)
  {
    var keys := requested.Keys;
    while keys != {}
      invariant keys <= requested.Keys
      invariant forall k :: k in requested.Keys - keys ==>
                  k in approved && ValueCovers(approved[k], requested[k])
      decreases |keys|
    {
      var key :| key in keys;
      keys := keys - {key};
      if key !in approved {
        return false;
      }
      if !ValueCovers(approved[key], requested[key]) {
        return false;
      }
    }
    return true;
  }

  /** What covers what: numbers are upper bounds, lists are sets of which `*` is all, a single value stands for
      the list of it, and everything else covers itself. */
  lemma CoverageOfValues(a: real, b: real, s: string, as_: seq<Value>, bs: seq<Value>)
    ensures ValueCovers(Num(a), Num(b)) <==> b <= a
    ensures ValueCovers(List(as_), List(bs)) <==> Str("*") in as_ || forall v :: v in bs ==> v in as_
    ensures ValueCovers(Str(s), List(bs)) <==> s == "*" || forall v :: v in bs ==> v == Str(s)
    ensures ValueCovers(Num(a), List(bs)) <==> forall v :: v in bs ==> v == Num(a)
    ensures ValueCovers(List(as_), Str(s)) <==> false
    ensures forall t :: ValueCovers(Str(s), Str(t)) <==> s == t
  {
    assert forall v :: v in [Str(s)] <==> v == Str(s);
    assert forall v :: v in [Num(a)] <==> v == Num(a);
  }

  lemma CoversReflexive(scope: Scope)
    ensures Covers(scope, scope)
  {
  }

  /** No key is a number in the wider scope and a non-empty list in the narrower one. */
  predicate KindKept(wide: Scope, narrow: Scope) {
    forall key :: key in narrow && key in wide ==>
      !(wide[key].Num? && narrow[key].List? && narrow[key].items != [])
  }

  /** Narrowing a covered request keeps it covered by everything that covered it, exactly when no key
      changes from a number to a list of numbers on the way.  A number is covered by any larger
      one; a list holding it is not. */
  lemma NarrowingKeepsCoverage(wide: Scope, narrow: Scope)
    requires Covers(wide, narrow)
    ensures (forall approved: Scope :: Covers(approved, wide) ==> Covers(approved, narrow))
            <==> KindKept(wide, narrow)
  {
    if KindKept(wide, narrow) {
      forall approved: Scope | Covers(approved, wide)
        ensures Covers(approved, narrow)
      {
        forall key | key in narrow
          ensures key in approved && ValueCovers(approved[key], narrow[key])
        {
          assert key in wide && ValueCovers(wide[key], narrow[key]) && ValueCovers(approved[key], wide[key]);
          ValueCoversTransitive(approved[key], wide[key], narrow[key]);
        }
      }
    } else {
      var key :| key in narrow && key in wide
        && wide[key].Num? && narrow[key].List? && narrow[key].items != [];
      var approved := wide[key := Num(wide[key].n + 1.0)];
      assert Covers(approved, wide);
      var item := narrow[key].items[0];
      assert ValueCovers(wide[key], narrow[key]);
      assert item in narrow[key].items && item == wide[key];
      assert !ValueCovers(approved[key], narrow[key]);
    }
  }

  lemma ValueCoversTransitive(a: Value, b: Value, c: Value)
    requires ValueCovers(a, b) && ValueCovers(b, c)
    requires !(b.Num? && c.List? && c.items != [])
    ensures ValueCovers(a, c)
  {
    if c.List? && b.List? && Str("*") in b.items {
    } else if c.List? && !b.List? {
      assert a == b || b.Num?;
    }
  }
}
