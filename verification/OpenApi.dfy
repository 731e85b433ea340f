/**
 Example values generated from API schemas, memoised per document by reference.
 */
module OpenApi {
  import opened Sequences
  import opened Wrappers

  datatype Value =
    | Null
    | Num(n: int)
    | Bool(b: bool)
    | Str(s: string)
    | Arr(items: seq<Value>)
    | Obj(fields: seq<(string, Value)>)

  /** A schema; an empty `reference` counts as none, as it does in the source. */
  datatype Schema = Schema(
    reference: Option<string>,
    example: Option<Value>,
    kind: Option<string>,
    properties: Option<Properties>,
    items: Option<Schema>,
    choices: Option<seq<Value>>
  )

  /** The entries of a `properties` object, in order. */
  datatype Properties = End | Prop(name: string, schema: Schema, rest: Properties)

  type Doc = map<string, Schema>

  const REF_PREFIX := "#/components/schemas/"

  function ResolveRef(doc: Doc, reference: string): Option<Schema> {
    if !(REF_PREFIX <= reference) then None
    else
      var name := reference[|REF_PREFIX|..];
      if name in doc then Some(doc[name]) else None
  }

  predicate IsRef(s: Schema) {
    s.reference.Some? && s.reference.value != ""
  }

  function Fallback(kind: Option<string>): Value {
    if kind.None? then Null
    else if kind.value == "string" then Str("string")
    else if kind.value == "integer" || kind.value == "number" then Num(0)
    else if kind.value == "boolean" then Bool(false)
    else Null
  }

  /** What is left when a schema has neither an example nor parts to walk. */
  function LeafExample(s: Schema): Value {
    if s.choices.Some? && s.choices.value != [] then s.choices.value[0] else Fallback(s.kind)
  }

  predicate WalksProperties(s: Schema) {
    s.example.None? && s.kind == Some("object") && s.properties.Some?
  }

  predicate WalksItems(s: Schema) {
    s.example.None? && !WalksProperties(s) && s.kind == Some("array") && s.items.Some?
  }

  // ---- References met on the way ----

  /** The references a generator asks for when given this schema, before following any of them. */
  function RefsOf(s: Schema): set<string>
    decreases s, 1
  {
    if IsRef(s) then {s.reference.value} else RefsInside(s)
  }

  /** The same for a schema's own parts, whatever its own reference field says. */
  function RefsInside(s: Schema): set<string>
    decreases s, 0
  {
    if WalksProperties(s) then RefsOfAll(s.properties.value)
    else if WalksItems(s) then RefsOf(s.items.value)
    else {}
  }

  function RefsOfAll(ps: Properties): set<string>
    decreases ps
  {
    if ps.End? then {} else RefsOf(ps.schema) + RefsOfAll(ps.rest)
  }

  type Ranking = string -> nat

  /** Every reference met in a component ranks below that component. */
  ghost predicate Acyclic(doc: Doc, rank: Ranking) {
    forall r, r' {:trigger Meets(doc, r, r')} :: Meets(doc, r, r') ==> rank(r') < rank(r)
  }

  ghost predicate Meets(doc: Doc, r: string, r': string) {
    ResolveRef(doc, r).Some? && r' in RefsInside(ResolveRef(doc, r).value)
  }

  ghost predicate Below(refs: set<string>, rank: Ranking, bound: nat) {
    forall r :: r in refs ==> rank(r) < bound
  }

  /** Each reference is met in the component before it. */
  ghost predicate MeetsOn(doc: Doc, path: seq<string>) {
    |path| >= 2 && forall i :: 0 <= i < |path| - 1 ==> Meets(doc, path[i], path[i + 1])
  }

  ghost predicate Reaches(doc: Doc, r: string, r': string) {
    exists path :: MeetsOn(doc, path) && path[0] == r && path[|path| - 1] == r'
  }

  /** References run in a circle. */
  ghost predicate Circular(doc: Doc) {
    exists r :: Reaches(doc, r, r)
  }

  /** Ranks fall along every path, so no ranking exists once references run in a circle. */
  lemma {:induction false} CircularHasNoRanking(doc: Doc, rank: Ranking, path: seq<string>)
    requires MeetsOn(doc, path)
    ensures Acyclic(doc, rank) ==> rank(path[|path| - 1]) < rank(path[0])
    ensures path[|path| - 1] == path[0] ==> !Acyclic(doc, rank)
  {
    var n := |path| - 1;
    assert Meets(doc, path[n - 1], path[n - 1 + 1]);
    if n > 1 {
      CircularHasNoRanking(doc, rank, path[..n]);
    }
  }

  lemma ReachesFirst(doc: Doc, r: string, r': string)
    requires Meets(doc, r, r')
    ensures Reaches(doc, r, r')
  {
    var path := [r, r'];
    assert MeetsOn(doc, path) && path[0] == r && path[|path| - 1] == r';
  }

  lemma ReachesMore(doc: Doc, r: string, r': string, r'': string)
    requires Meets(doc, r, r') && Reaches(doc, r', r'')
    ensures Reaches(doc, r, r'')
  {
    var path :| MeetsOn(doc, path) && path[0] == r' && path[|path| - 1] == r'';
    var more := [r] + path;
    forall i | 0 <= i < |more| - 1 ensures Meets(doc, more[i], more[i + 1]) {
      if i > 0 {
        assert Meets(doc, path[i - 1], path[i - 1 + 1]);
      }
    }
    assert MeetsOn(doc, more) && more[0] == r && more[|more| - 1] == r'';
  }

  function RefsMet(doc: Doc): set<string> {
    set name, r | name in doc && r in RefsInside(doc[name]) :: r
  }

  ghost function Reached(doc: Doc, r: string): set<string> {
    set r' | r' in RefsMet(doc) && Reaches(doc, r, r')
  }

  /** How many references a component leads to. */
  ghost function Height(doc: Doc): Ranking {
    r => |Reached(doc, r)|
  }

  lemma ReachedShrinks(doc: Doc, r: string, r': string)
    requires Meets(doc, r, r') && !Circular(doc)
    ensures Height(doc)(r') < Height(doc)(r)
  {
    hide Reaches, RefsInside;
    var smaller, larger := Reached(doc, r'), Reached(doc, r);
    forall r'' | r'' in smaller ensures r'' in larger {
      ReachesMore(doc, r, r', r'');
    }
    ReachesFirst(doc, r, r');
    assert r' in larger && r' !in smaller;
    assert larger == smaller + (larger - smaller);
    assert |larger| == |smaller| + |larger - smaller|;
  }

  /** A document has a ranking exactly when its references do not run in a circle. */
  lemma RankedIffNotCircular(doc: Doc)
    ensures (exists rank: Ranking :: Acyclic(doc, rank)) <==> !Circular(doc)
  {
    if Circular(doc) {
      var r :| Reaches(doc, r, r);
      var path :| MeetsOn(doc, path) && path[0] == r && path[|path| - 1] == r;
      forall rank: Ranking ensures !Acyclic(doc, rank) {
        CircularHasNoRanking(doc, rank, path);
      }
    } else {
      hide Height;
      forall r, r' {:trigger Meets(doc, r, r')} | Meets(doc, r, r') ensures Height(doc)(r') < Height(doc)(r) {
        ReachedShrinks(doc, r, r');
      }
      assert Acyclic(doc, Height(doc));
    }
  }

  // ---- The memo-free definition ----

  /** The example of a schema whose references all rank below `bound`. */
  ghost function Example(doc: Doc, rank: Ranking, s: Schema, bound: nat): Value
    requires Acyclic(doc, rank) && Below(RefsOf(s), rank, bound)
    decreases bound, s, 1
  {
    if IsRef(s) then RefExample(doc, rank, s.reference.value)
    else Build(doc, rank, s, bound)
  }

  ghost function RefExample(doc: Doc, rank: Ranking, reference: string): Value
    requires Acyclic(doc, rank)
    decreases rank(reference)
  {
    match ResolveRef(doc, reference)
    case None => Null
    case Some(component) =>
      ComponentBelow(doc, rank, reference);
      Build(doc, rank, component, rank(reference))
  }

  ghost function Build(doc: Doc, rank: Ranking, s: Schema, bound: nat): Value
    requires Acyclic(doc, rank) && Below(RefsInside(s), rank, bound)
    decreases bound, s, 0
  {
    if s.example.Some? then s.example.value
    else if WalksProperties(s) then Obj(BuildAll(doc, rank, s.properties.value, bound))
    else if WalksItems(s) then Arr([Example(doc, rank, s.items.value, bound)])
    else LeafExample(s)
  }

  ghost function BuildAll(doc: Doc, rank: Ranking, ps: Properties, bound: nat): seq<(string, Value)>
    requires Acyclic(doc, rank) && Below(RefsOfAll(ps), rank, bound)
    decreases bound, ps
  {
    if ps.End? then []
    else [(ps.name, Example(doc, rank, ps.schema, bound))] + BuildAll(doc, rank, ps.rest, bound)
  }

  lemma ComponentBelow(doc: Doc, rank: Ranking, reference: string)
    requires Acyclic(doc, rank) && ResolveRef(doc, reference).Some?
    ensures Below(RefsInside(ResolveRef(doc, reference).value), rank, rank(reference))
  {
    forall r | r in RefsInside(ResolveRef(doc, reference).value) ensures rank(r) < rank(reference) {
      assert Meets(doc, reference, r);
    }
  }

  /** The definition does not depend on which ranking shows the document to be acyclic. */
  lemma {:induction false} ExampleUnique(doc: Doc, rank: Ranking, rank': Ranking, s: Schema, bound: nat, bound': nat)
    requires Acyclic(doc, rank) && Below(RefsOf(s), rank, bound)
    requires Acyclic(doc, rank') && Below(RefsOf(s), rank', bound')
    ensures Example(doc, rank, s, bound) == Example(doc, rank', s, bound')
    decreases bound, s, 1
  {
    if IsRef(s) {
      RefExampleUnique(doc, rank, rank', s.reference.value);
    } else {
      BuildUnique(doc, rank, rank', s, bound, bound');
    }
  }

  lemma {:induction false} RefExampleUnique(doc: Doc, rank: Ranking, rank': Ranking, reference: string)
    requires Acyclic(doc, rank) && Acyclic(doc, rank')
    ensures RefExample(doc, rank, reference) == RefExample(doc, rank', reference)
    decreases rank(reference)
  {
    if ResolveRef(doc, reference).Some? {
      ComponentBelow(doc, rank, reference);
      ComponentBelow(doc, rank', reference);
      BuildUnique(doc, rank, rank', ResolveRef(doc, reference).value, rank(reference), rank'(reference));
    }
  }

  lemma {:induction false} BuildUnique(doc: Doc, rank: Ranking, rank': Ranking, s: Schema, bound: nat, bound': nat)
    requires Acyclic(doc, rank) && Below(RefsInside(s), rank, bound)
    requires Acyclic(doc, rank') && Below(RefsInside(s), rank', bound')
    ensures Build(doc, rank, s, bound) == Build(doc, rank', s, bound')
    decreases bound, s, 0
  {
    if WalksProperties(s) {
      BuildAllUnique(doc, rank, rank', s.properties.value, bound, bound');
    } else if WalksItems(s) {
      ExampleUnique(doc, rank, rank', s.items.value, bound, bound');
    }
  }

  lemma {:induction false} BuildAllUnique(doc: Doc, rank: Ranking, rank': Ranking, ps: Properties,
                                          bound: nat, bound': nat)
    requires Acyclic(doc, rank) && Below(RefsOfAll(ps), rank, bound)
    requires Acyclic(doc, rank') && Below(RefsOfAll(ps), rank', bound')
    ensures BuildAll(doc, rank, ps, bound) == BuildAll(doc, rank', ps, bound')
    decreases bound, ps
  {
    if ps.Prop? {
      ExampleUnique(doc, rank, rank', ps.schema, bound, bound');
      BuildAllUnique(doc, rank, rank', ps.rest, bound, bound');
    }
  }

  // ---- What an example is ----

  function Entries(ps: Properties): seq<(string, Schema)> {
    if ps.End? then [] else [(ps.name, ps.schema)] + Entries(ps.rest)
  }

  /** An object's example has its properties' names in order, each with its own schema's example. */
  lemma {:induction false} FieldExamples(doc: Doc, rank: Ranking, ps: Properties, bound: nat)
    requires Acyclic(doc, rank) && Below(RefsOfAll(ps), rank, bound)
    ensures |BuildAll(doc, rank, ps, bound)| == |Entries(ps)|
    ensures forall k :: 0 <= k < |Entries(ps)| ==>
      && Below(RefsOf(Entries(ps)[k].1), rank, bound)
      && BuildAll(doc, rank, ps, bound)[k] == (Entries(ps)[k].0, Example(doc, rank, Entries(ps)[k].1, bound))
    decreases ps
  {
    if ps.Prop? {
      FieldExamples(doc, rank, ps.rest, bound);
    }
  }

  /**
   The example of a schema's own parts: the one it gives, else its properties', else one of its items,
   else its first choice, else what its type stands for.
   */
  lemma ExampleOfParts(doc: Doc, rank: Ranking, s: Schema, bound: nat)
    requires Acyclic(doc, rank) && Below(RefsInside(s), rank, bound)
    ensures s.example.Some? ==> Build(doc, rank, s, bound) == s.example.value
    ensures s.example == None && s.kind == Some("object") && s.properties.Some? ==>
      var fields, entries := Build(doc, rank, s, bound), Entries(s.properties.value);
      && fields.Obj? && |fields.fields| == |entries|
      && forall k :: 0 <= k < |entries| ==>
           && fields.fields[k].0 == entries[k].0
           && Below(RefsOf(entries[k].1), rank, bound)
           && fields.fields[k].1 == Example(doc, rank, entries[k].1, bound)
    ensures s.example == None && s.kind == Some("array") && s.items.Some? ==>
      Below(RefsOf(s.items.value), rank, bound)
      && Build(doc, rank, s, bound) == Arr([Example(doc, rank, s.items.value, bound)])
    ensures s.example == None
            && !(s.kind == Some("object") && s.properties.Some?) && !(s.kind == Some("array") && s.items.Some?) ==>
      Build(doc, rank, s, bound) ==
      if s.choices.Some? && |s.choices.value| > 0 then s.choices.value[0]
      else if s.kind == Some("string") then Str("string")
      else if s.kind == Some("integer") || s.kind == Some("number") then Num(0)
      else if s.kind == Some("boolean") then Bool(false)
      else Null
  {
    if s.example == None && s.kind == Some("object") && s.properties.Some? {
      FieldExamples(doc, rank, s.properties.value, bound);
    }
  }

  /** A reference stands for its component, whatever else is beside it; one that names none is null. */
  lemma ExampleOfReference(doc: Doc, rank: Ranking, s: Schema, bound: nat)
    requires Acyclic(doc, rank) && Below(RefsOf(s), rank, bound)
    ensures forall name :: s.reference == Some("#/components/schemas/" + name) && name in doc ==>
      Below(RefsInside(doc[name]), rank, rank(s.reference.value))
      && Example(doc, rank, s, bound) == Build(doc, rank, doc[name], rank(s.reference.value))
    ensures s.reference.Some? && s.reference.value != ""
            && (forall name :: name in doc ==> s.reference.value != "#/components/schemas/" + name) ==>
      Example(doc, rank, s, bound) == Null
    ensures s.reference == None || s.reference == Some("") ==>
      Below(RefsInside(s), rank, bound) && Example(doc, rank, s, bound) == Build(doc, rank, s, bound)
  {
    hide Build;
    forall name | s.reference == Some("#/components/schemas/" + name) && name in doc
      ensures ResolveRef(doc, s.reference.value) == Some(doc[name])
      ensures Below(RefsInside(doc[name]), rank, rank(s.reference.value))
    {
      assert s.reference.value[|REF_PREFIX|..] == name;
      ComponentBelow(doc, rank, s.reference.value);
    }
    if IsRef(s) && ResolveRef(doc, s.reference.value).Some? {
      var name := s.reference.value[|REF_PREFIX|..];
      assert s.reference.value == "#/components/schemas/" + name;
    }
  }

  // ---- The memoised generator ----

  class ExampleGenerator {
    const doc: Doc
    var cache: map<string, Value>

    /** References in the order their expansion began. */
    ghost var expanded: seq<string>

    /**
     Every cached value is the memo-free one; every expansion ever begun is cached or still open, and
     none was begun twice.
     */
    ghost predicate Consistent(rank: Ranking, pending: set<string>)
      reads this
    {
      && Acyclic(doc, rank)
      && (forall r :: r in cache ==> cache[r] == RefExample(doc, rank, r))
      && (forall r :: r in expanded <==> r in cache || r in pending)
      && cache.Keys !! pending
      && Distinct(expanded)
    }

    constructor (doc: Doc, ghost rank: Ranking)
      requires Acyclic(doc, rank)
      ensures Consistent(rank, {}) && this.doc == doc && expanded == []
    {
      this.doc := doc;
      cache, expanded := map[], [];
    }

    /** The example of an optional schema; a missing schema has none. */
    method Generate(schema: Option<Schema>, ghost rank: Ranking, ghost bound: nat) returns (value: Value)
      requires Consistent(rank, {})
      requires schema.Some? ==> Below(RefsOf(schema.value), rank, bound)
      modifies this
      ensures Consistent(rank, {}) && old(cache.Keys) <= cache.Keys && old(expanded) <= expanded
      ensures value == if schema.Some? then Example(doc, rank, schema.value, bound) else Null
    {
      if schema.None? {
        return Null;
      }
      value := ExampleFromSchema(schema.value, rank, bound, {});
    }

    method ExampleFromSchema(s: Schema, ghost rank: Ranking, ghost bound: nat, ghost pending: set<string>)
      returns (value: Value)
      requires Consistent(rank, pending) && Below(RefsOf(s), rank, bound)
      requires forall r :: r in pending ==> rank(r) >= bound
      modifies this
      ensures Consistent(rank, pending) && Extends(old(cache), old(expanded), rank, bound)
      ensures value == Example(doc, rank, s, bound)
      decreases bound, s, 1
    {
      if !IsRef(s) {
        value := BuildExample(s, rank, bound, pending);
        return;
      }
      var reference := s.reference.value;
      if reference in cache {
        return cache[reference];
      }
      ghost var was := expanded;
      expanded := expanded + [reference];
      var component := ResolveRef(doc, reference);
      if component.None? {
        value := Null;
      } else {
        ComponentBelow(doc, rank, reference);
        value := BuildExample(component.value, rank, rank(reference), pending + {reference});
      }
      cache := cache[reference := value];
    }

    /** What a call may add: only references ranking below its bound. */
    ghost predicate Extends(before: map<string, Value>, begun: seq<string>, rank: Ranking, bound: nat)
      reads this
    {
      && before.Keys <= cache.Keys && begun <= expanded
      && forall r :: r in cache && r !in before ==> rank(r) < bound
    }

    method BuildExample(s: Schema, ghost rank: Ranking, ghost bound: nat, ghost pending: set<string>)
      returns (value: Value)
      requires Consistent(rank, pending) && Below(RefsInside(s), rank, bound)
      requires forall r :: r in pending ==> rank(r) >= bound
      modifies this
      ensures Consistent(rank, pending) && Extends(old(cache), old(expanded), rank, bound)
      ensures value == Build(doc, rank, s, bound)
      decreases bound, s, 0
    {
      if s.example.Some? {
        return s.example.value;
      }
      if s.kind == Some("object") && s.properties.Some? {
        var out, ps := [], s.properties.value;
        while ps.Prop?
          invariant ps < s && Below(RefsOfAll(ps), rank, bound)
          invariant Consistent(rank, pending) && Extends(old(cache), old(expanded), rank, bound)
          invariant out + BuildAll(doc, rank, ps, bound) == BuildAll(doc, rank, s.properties.value, bound)
          decreases ps
        {
          var field := ExampleFromSchema(ps.schema, rank, bound, pending);
          assert out + BuildAll(doc, rank, ps, bound) ==
                 (out + [(ps.name, field)]) + BuildAll(doc, rank, ps.rest, bound);
          out := out + [(ps.name, field)];
          ps := ps.rest;
        }
        assert out + [] == out;
        return Obj(out);
      }
      if s.kind == Some("array") && s.items.Some? {
        var item := ExampleFromSchema(s.items.value, rank, bound, pending);
        return Arr([item]);
      }
      value := LeafExample(s);
    }
  }
}
