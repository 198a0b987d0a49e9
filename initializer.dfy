/** `ITCentral.Common.Initializer.InitializeDb`: the metadata tables are the
    model classes of the program's assembly; each is created, in dependency
    order, unless its table already exists. The reflection over the
    assembly is replaced by the list of its types. */
module Initializer {
  import opened Results
  import AppCommon
  import Text

  /** What `InitializeDb` reads of a `System.Type`: its full name (its
      identity within the assembly), its `Name`, whether it implements
      `IModel`, whether it is a class, its `[Table]` attribute (None when
      absent, Some(None) when the attribute gives no name) and the full
      names of its properties' types, in declaration order. */
  datatype ModelType = ModelType(
    fullName: string,
    name: string,
    isModel: bool,
    isClass: bool,
    table: Option<Option<string>>,
    propertyTypes: seq<string>)

  /** `typeof(IModel).IsAssignableFrom(t) && t.IsClass &&
      t.GetCustomAttribute<TableAttribute>() != null`. */
  predicate IsEntity(t: ModelType) {
    t.isModel && t.isClass && t.table.Some?
  }

  /** The types of one assembly have distinct full names. */
  predicate UniqueNames(types: seq<ModelType>) {
    forall i, j :: 0 <= i < j < |types| ==> types[i].fullName != types[j].fullName
  }

  /** The `Where(...).ToList()` over the assembly's types. */
  function EntityTypes(assembly: seq<ModelType>): (entities: seq<ModelType>)
    ensures |entities| <= |assembly|
    ensures forall i :: 0 <= i < |entities| ==> entities[i] in assembly && IsEntity(entities[i])
    ensures forall i :: 0 <= i < |assembly| && IsEntity(assembly[i]) ==> assembly[i] in entities
  {
    if assembly == [] then []
    else
      var front := EntityTypes(assembly[..|assembly| - 1]);
      var last := assembly[|assembly| - 1];
      if IsEntity(last) then front + [last] else front
  }

  /** Filtering keeps full names distinct. */
  lemma {:induction false} EntityTypesUnique(assembly: seq<ModelType>)
    requires UniqueNames(assembly)
    ensures UniqueNames(EntityTypes(assembly))
  {
    if assembly != [] {
      var n := |assembly| - 1;
      var front := assembly[..n];
      UniqueFront(assembly);
      EntityTypesUnique(front);
      var kept := EntityTypes(front);
      if IsEntity(assembly[n]) {
        forall i | 0 <= i < |kept|
          ensures kept[i].fullName != assembly[n].fullName
        {
          var k :| 0 <= k < |front| && front[k] == kept[i];
          assert front[k] == assembly[k];
        }
        UniqueSnoc(kept, assembly[n]);
      }
    }
  }

  lemma UniqueFront(s: seq<ModelType>)
    requires UniqueNames(s) && s != []
    ensures UniqueNames(s[..|s| - 1])
  {
    var front := s[..|s| - 1];
    forall i, j | 0 <= i < j < |front|
      ensures front[i].fullName != front[j].fullName
    {
      assert front[i] == s[i] && front[j] == s[j];
    }
  }

  lemma UniqueSnoc(s: seq<ModelType>, x: ModelType)
    requires UniqueNames(s)
    requires forall i :: 0 <= i < |s| ==> s[i].fullName != x.fullName
    ensures UniqueNames(s + [x])
  {
    var r := s + [x];
    forall i, j | 0 <= i < j < |r|
      ensures r[i].fullName != r[j].fullName
    {
      assert r[i] == s[i];
      if j < |s| {
        assert r[j] == s[j];
      }
    }
  }

  /** `entityTypes.Contains(p.PropertyType)`, and which entity that is: the
      entity type with the given full name. */
  function Resolve(entities: seq<ModelType>, typeName: string): (r: Option<ModelType>)
    ensures r.Some? ==> r.value in entities && r.value.fullName == typeName
    ensures r.None? ==> forall i :: 0 <= i < |entities| ==> entities[i].fullName != typeName
  {
    if entities == [] then None
    else if entities[0].fullName == typeName then Some(entities[0])
    else Resolve(entities[1..], typeName)
  }

  /** `.Where(p => entityTypes.Contains(p.PropertyType)).Select(p =>
      p.PropertyType)`: the property types that are entity types, in
      property order. */
  function PropertyEntities(entities: seq<ModelType>, propertyTypes: seq<string>): (r: seq<ModelType>)
    ensures forall i :: 0 <= i < |r| ==> r[i] in entities
    ensures forall i :: 0 <= i < |r| ==> r[i].fullName in propertyTypes
    ensures forall j :: 0 <= j < |propertyTypes| && Resolve(entities, propertyTypes[j]).Some? ==>
      Resolve(entities, propertyTypes[j]).value in r
  {
    if propertyTypes == [] then []
    else
      var rest := PropertyEntities(entities, propertyTypes[1..]);
      match Resolve(entities, propertyTypes[0])
      case Some(t) => [t] + rest
      case None => rest
  }

  /** The `foreignKeys` of one type: its distinct entity-typed properties. */
  function ForeignKeys(entities: seq<ModelType>, t: ModelType): seq<ModelType> {
    AppCommon.Distinct(PropertyEntities(entities, t.propertyTypes))
  }

  /** The dictionary `InitializeDb` builds: an entry for every entity
      type. */
  ghost function DependencyMap(entities: seq<ModelType>): map<ModelType, seq<ModelType>> {
    map t | t in entities :: ForeignKeys(entities, t)
  }

  /** Every entity type has an entry, possibly empty; the entry of t lists
      each entity type that is the type of one of t's properties, exactly
      once. */
  lemma DependencyMapExact(entities: seq<ModelType>, t: ModelType)
    requires UniqueNames(entities) && t in entities
    ensures t in DependencyMap(entities)
    ensures AppCommon.NoDup(DependencyMap(entities)[t])
    ensures forall x :: x in DependencyMap(entities)[t] <==> x in entities && x.fullName in t.propertyTypes
  {
    var keys := ForeignKeys(entities, t);
    var found := PropertyEntities(entities, t.propertyTypes);
    forall x | x in entities && x.fullName in t.propertyTypes
      ensures x in keys
    {
      var j :| 0 <= j < |t.propertyTypes| && t.propertyTypes[j] == x.fullName;
      var r := Resolve(entities, x.fullName);
      var k :| 0 <= k < |entities| && entities[k] == x;
      assert r.Some?;
      var m :| 0 <= m < |entities| && entities[m] == r.value;
      assert m == k;
      assert r.value in found;
      var p :| 0 <= p < |found| && found[p] == x;
    }
    forall x | x in keys
      ensures x in entities && x.fullName in t.propertyTypes
    {
      var p :| 0 <= p < |keys| && keys[p] == x;
    }
  }

  /** The `foreach` that fills `dependencies`. */
  method BuildDependencies(entityTypes: seq<ModelType>) returns (dependencies: map<ModelType, seq<ModelType>>)
    ensures dependencies == DependencyMap(entityTypes)
  {
    dependencies := map[];
    var i := 0;
    while i < |entityTypes|
      invariant 0 <= i <= |entityTypes|
      invariant dependencies == PrefixMap(entityTypes, i)
    {
      var t := entityTypes[i];
      var foreignKeys := ForeignKeys(entityTypes, t);
      dependencies := dependencies[t := foreignKeys];
      PrefixMapStep(entityTypes, i);
      i := i + 1;
    }
    assert entityTypes[..i] == entityTypes;
  }

  /** The dictionary after the loop has visited the first i entity types. */
  ghost function PrefixMap(entities: seq<ModelType>, i: int): map<ModelType, seq<ModelType>>
    requires 0 <= i <= |entities|
  {
    map t | t in entities[..i] :: ForeignKeys(entities, t)
  }

  lemma PrefixMapStep(entities: seq<ModelType>, i: int)
    requires 0 <= i < |entities|
    ensures PrefixMap(entities, i + 1) == PrefixMap(entities, i)[entities[i] := ForeignKeys(entities, entities[i])]
  {
    assert entities[..i + 1] == entities[..i] + [entities[i]];
  }

  /** `tableAttribute?.Name ?? entityType.Name`. */
  function TableName(t: ModelType): string {
    match t.table
    case Some(Some(n)) => n
    case _ => t.name
  }

  function TableNames(types: seq<ModelType>): (names: seq<string>)
    ensures |names| == |types|
    ensures forall i :: 0 <= i < |types| ==> names[i] == TableName(types[i])
  {
    if types == [] then [] else [TableName(types[0])] + TableNames(types[1..])
  }

  /** A table name as `StringComparison.OrdinalIgnoreCase` compares it:
      two names match when their upper-case forms are equal. */
  function Fold(name: string): string {
    Text.ToUpper(name)
  }

  /** The folded forms of a set of table names. */
  function Folded(names: set<string>): set<string> {
    set n | n in names :: Fold(n)
  }

  lemma FoldedAdd(names: set<string>, x: string)
    ensures Folded(names + {x}) == Folded(names) + {Fold(x)}
  {
  }

  lemma SetAddMember<T>(s: set<T>, x: T)
    requires x in s
    ensures s + {x} == s
  {
  }

  lemma FoldedSnoc(s: seq<string>, x: string)
    ensures Folded(Text.Elements(s + [x])) == Folded(Text.Elements(s)) + {Fold(x)}
  {
    Text.ElementsSnoc(s, x);
    FoldedAdd(Text.Elements(s), x);
  }

  /** Two table names that no case-insensitive comparison tells apart. */
  predicate SameName(a: string, b: string) {
    Fold(a) == Fold(b)
  }

  /** `"users"` names the table `Users`; `User` is another table. */
  lemma SameNameExample()
    ensures SameName("Users", "users")
    ensures !SameName("Users", "User")
  {
    var a, b := Fold("Users"), Fold("users");
    assert forall i | 0 <= i < 5 :: a[i] == b[i];
    assert |Fold("User")| == 4;
  }

  /** The tables the create loop creates, in order, when tables of the
      folded names `existing` exist at its start: each name no existing
      table matches up to case, the first time it comes. */
  function CreatePlan(names: seq<string>, existing: set<string>): seq<string> {
    if names == [] then []
    else if Fold(names[0]) in existing then CreatePlan(names[1..], existing)
    else [names[0]] + CreatePlan(names[1..], existing + {Fold(names[0])})
  }

  /** A table is created exactly when its name is wanted and no table yet
      has it up to case, and no two created tables share a name up to
      case. */
  lemma CreatePlanExact(names: seq<string>, existing: set<string>)
    ensures forall i, j :: 0 <= i < j < |CreatePlan(names, existing)| ==>
      !SameName(CreatePlan(names, existing)[i], CreatePlan(names, existing)[j])
    ensures forall x :: x in CreatePlan(names, existing) ==> x in names && Fold(x) !in existing
    ensures Folded(Text.Elements(CreatePlan(names, existing))) == Folded(Text.Elements(names)) - existing
  {
    PlanDistinct(names, existing);
    PlanFromNames(names, existing);
    PlanFolds(names, existing);
  }

  /** Every created table is wanted and missing up to case. */
  lemma {:induction false} PlanFromNames(names: seq<string>, existing: set<string>)
    ensures forall x :: x in CreatePlan(names, existing) ==> x in names && Fold(x) !in existing
  {
    if names != [] {
      assert names == [names[0]] + names[1..];
      if Fold(names[0]) in existing {
        PlanFromNames(names[1..], existing);
      } else {
        PlanFromNames(names[1..], existing + {Fold(names[0])});
      }
    }
  }

  /** No two created tables share a name up to case. */
  lemma {:induction false} PlanDistinct(names: seq<string>, existing: set<string>)
    ensures forall i, j :: 0 <= i < j < |CreatePlan(names, existing)| ==>
      !SameName(CreatePlan(names, existing)[i], CreatePlan(names, existing)[j])
  {
    if names != [] {
      var tail := names[1..];
      if Fold(names[0]) in existing {
        PlanDistinct(tail, existing);
      } else {
        var rest := CreatePlan(tail, existing + {Fold(names[0])});
        PlanDistinct(tail, existing + {Fold(names[0])});
        PlanFromNames(tail, existing + {Fold(names[0])});
        var plan := CreatePlan(names, existing);
        assert plan == [names[0]] + rest;
        forall i, j | 0 <= i < j < |plan|
          ensures !SameName(plan[i], plan[j])
        {
          assert plan[j] == rest[j - 1] && plan[j] in rest;
          if i > 0 {
            assert plan[i] == rest[i - 1];
          }
        }
      }
    }
  }

  /** The created tables' names, up to case, are the wanted ones that do
      not exist. */
  lemma {:induction false} PlanFolds(names: seq<string>, existing: set<string>)
    ensures Folded(Text.Elements(CreatePlan(names, existing))) == Folded(Text.Elements(names)) - existing
  {
    if names != [] {
      var tail := names[1..];
      FoldedCons(names[0], tail);
      if Fold(names[0]) in existing {
        PlanFolds(tail, existing);
      } else {
        var rest := CreatePlan(tail, existing + {Fold(names[0])});
        PlanFolds(tail, existing + {Fold(names[0])});
        FoldedCons(names[0], rest);
      }
    }
  }

  lemma FoldedCons(x: string, s: seq<string>)
    ensures Folded(Text.Elements([x] + s)) == {Fold(x)} + Folded(Text.Elements(s))
  {
    assert Text.Elements([x] + s) == {x} + Text.Elements(s);
  }

  /** The destination catalog of the metadata database: `repository.Exists`
      and `DataExtensions.CreateTable<T>`. `created` records the tables
      created, in order. */
  class Catalog {
    var tables: set<string>
    var created: seq<string>

    constructor(tables: set<string>)
      ensures this.tables == tables && created == []
    {
      this.tables := tables;
      created := [];
    }

    /** `CallBase.Exists`: some table of the schema has the name, compared
        without regard to case. */
    predicate Exists(tableName: string)
      reads this
    {
      Fold(tableName) in Folded(tables)
    }

    method CreateTable(tableName: string)
      modifies this
      ensures tables == old(tables) + {tableName}
      ensures created == old(created) + [tableName]
    {
      tables := tables + {tableName};
      created := created + [tableName];
    }

    /** The `foreach` over the sorted entities: create each missing table. */
    method CreateMissing(sortedEntities: seq<ModelType>)
      modifies this
      ensures created == old(created) + CreatePlan(TableNames(sortedEntities), Folded(old(tables)))
      ensures tables == old(tables) + Text.Elements(CreatePlan(TableNames(sortedEntities), Folded(old(tables))))
      ensures forall i :: 0 <= i < |sortedEntities| ==> Exists(TableName(sortedEntities[i]))
    {
      ghost var names := TableNames(sortedEntities);
      ghost var tables0, created0 := tables, created;
      var i := 0;
      while i < |sortedEntities|
        invariant 0 <= i <= |sortedEntities| == |names|
        invariant created == created0 + CreatePlan(names[..i], Folded(tables0))
        invariant tables == tables0 + Text.Elements(CreatePlan(names[..i], Folded(tables0)))
        invariant Folded(tables) == Folded(tables0) + Folded(Text.Elements(names[..i]))
      {
        var entityType := sortedEntities[i];
        var tableName := TableName(entityType);
        CreateAt(names, i, tableName, tables0, created0);
        i := i + 1;
      }
      assert names[..i] == names;
      forall k | 0 <= k < |sortedEntities|
        ensures Exists(TableName(sortedEntities[k]))
      {
        assert names[k] in Text.Elements(names);
      }
    }

    /** Turn i of the create loop keeps its invariants: what was created,
        and what was added to the tables, is the plan for the names seen so
        far, and those names all exist up to case. */
    method CreateAt(ghost names: seq<string>, i: int, tableName: string,
                    ghost tables0: set<string>, ghost created0: seq<string>)
      requires 0 <= i < |names| && tableName == names[i]
      requires created == created0 + CreatePlan(names[..i], Folded(tables0))
      requires tables == tables0 + Text.Elements(CreatePlan(names[..i], Folded(tables0)))
      requires Folded(tables) == Folded(tables0) + Folded(Text.Elements(names[..i]))
      modifies this
      ensures created == created0 + CreatePlan(names[..i + 1], Folded(tables0))
      ensures tables == tables0 + Text.Elements(CreatePlan(names[..i + 1], Folded(tables0)))
      ensures Folded(tables) == Folded(tables0) + Folded(Text.Elements(names[..i + 1]))
    {
      ghost var plan := CreatePlan(names[..i], Folded(tables0));
      ghost var before := tables;
      ghost var here: seq<string> := if Fold(tableName) in Folded(before) then [] else [tableName];
      assert names[..i + 1] == names[..i] + [names[i]];
      PlanSnoc(names[..i], names[i], Folded(tables0));
      assert CreatePlan(names[..i + 1], Folded(tables0)) == plan + here;
      FoldedSnoc(names[..i], names[i]);
      CreateIfMissing(tableName);
      if here == [] {
        SetAddMember(Folded(before), Fold(tableName));
        assert plan + here == plan;
      } else {
        Text.ElementsSnoc(plan, tableName);
        FoldedAdd(before, tableName);
        Text.ConcatAssoc(created0, plan, [tableName]);
      }
    }

    /** One turn of the loop: `if (!repository.Exists(...)) CreateTable`. */
    method CreateIfMissing(tableName: string)
      modifies this
      ensures old(Exists(tableName)) ==> tables == old(tables) && created == old(created)
      ensures !old(Exists(tableName)) ==> tables == old(tables) + {tableName} && created == old(created) + [tableName]
      ensures Exists(tableName)
    {
      if !Exists(tableName) {
        CreateTable(tableName);
        FoldedAdd(old(tables), tableName);
      }
    }
  }

  /** The plan for one name more: the plan so far, then that name when no
      existing table and no name before it matches it up to case. */
  lemma {:induction false} PlanSnoc(s: seq<string>, x: string, existing: set<string>)
    ensures CreatePlan(s + [x], existing)
      == CreatePlan(s, existing) + if Fold(x) in existing + Folded(Text.Elements(s)) then [] else [x]
  {
    if s == [] {
      assert [] + [x] == [x];
      assert Folded(Text.Elements(s)) == {};
    } else {
      var rest := s[1..];
      assert (s + [x])[1..] == rest + [x];
      FoldedCons(s[0], rest);
      assert s == [s[0]] + rest;
      if Fold(s[0]) in existing {
        PlanSnoc(rest, x, existing);
      } else {
        PlanSnoc(rest, x, existing + {Fold(s[0])});
        ghost var here: seq<string> := if Fold(x) in existing + Folded(Text.Elements(s)) then [] else [x];
        Text.ConcatAssoc([s[0]], CreatePlan(rest, existing + {Fold(s[0])}), here);
      }
    }
  }

  lemma SliceStep<T>(s: seq<T>, i: int)
    requires 0 <= i < |s|
    ensures s[i..] == [s[i]] + s[i + 1..]
    ensures s[..i + 1] == s[..i] + [s[i]]
  {
  }

  lemma {:induction false} TableNamesAppend(a: seq<ModelType>, b: seq<ModelType>)
    ensures TableNames(a + b) == TableNames(a) + TableNames(b)
  {
    if a != [] {
      assert (a + b)[1..] == a[1..] + b;
      TableNamesAppend(a[1..], b);
    }
  }

  /** The order `TopologicalSort` gives the entity types of an assembly:
      each entity type once, nothing else, and, when `rank` ranks the
      dependency map, each after the entity types it refers to. */
  ghost predicate CreationOrder(assembly: seq<ModelType>, sortedEntities: seq<ModelType>, rank: ModelType -> nat) {
    (forall i :: 0 <= i < |assembly| && IsEntity(assembly[i]) ==> assembly[i] in sortedEntities)
    && AppCommon.NoDup(sortedEntities)
    && (forall t :: t in sortedEntities ==> t in assembly && IsEntity(t))
    && (AppCommon.Ranked(DependencyMap(EntityTypes(assembly)), rank) ==>
          AppCommon.DepsBefore(sortedEntities, DependencyMap(EntityTypes(assembly))))
  }

  /** Lines 20-44 of `InitializeDb`: filter, dependency map, sort. */
  method SortEntities(assembly: seq<ModelType>, ghost rank: ModelType -> nat)
    returns (sortedEntities: seq<ModelType>)
    ensures forall i :: 0 <= i < |assembly| && IsEntity(assembly[i]) ==> assembly[i] in sortedEntities
    ensures AppCommon.NoDup(sortedEntities)
    ensures forall t :: t in sortedEntities ==> t in assembly && IsEntity(t)
    ensures AppCommon.Ranked(DependencyMap(EntityTypes(assembly)), rank) ==>
      AppCommon.DepsBefore(sortedEntities, DependencyMap(EntityTypes(assembly)))
  {
    var entityTypes := EntityTypes(assembly);
    var dependencies := BuildDependencies(entityTypes);
    DependenciesAreEntities(entityTypes);
    sortedEntities := AppCommon.TopologicalSort(entityTypes, dependencies, rank);
    assert forall t :: t in sortedEntities ==> t in entityTypes;
    EntitiesOfAssembly(assembly);
  }

  lemma EntitiesOfAssembly(assembly: seq<ModelType>)
    ensures forall t :: t in EntityTypes(assembly) ==> t in assembly && IsEntity(t)
  {
    var entities := EntityTypes(assembly);
    forall t | t in entities
      ensures t in assembly && IsEntity(t)
    {
      var i :| 0 <= i < |entities| && entities[i] == t;
    }
  }

  /** A dependency is itself an entity type. */
  lemma DependenciesAreEntities(entities: seq<ModelType>)
    ensures forall x :: AppCommon.IsDependency(DependencyMap(entities), x) ==> x in entities
  {
    forall x | AppCommon.IsDependency(DependencyMap(entities), x)
      ensures x in entities
    {
      var k :| k in DependencyMap(entities) && x in DependencyMap(entities)[k];
      var keys := DependencyMap(entities)[k];
      var p :| 0 <= p < |keys| && keys[p] == x;
    }
  }

  /** `InitializeDb` once the connection is open: the entity types of the
      assembly in `TopologicalSort` order, then each missing table created.
      The order is returned. */
  method InitializeDb(catalog: Catalog, assembly: seq<ModelType>, ghost rank: ModelType -> nat)
    returns (sortedEntities: seq<ModelType>)
    modifies catalog
    ensures CreationOrder(assembly, sortedEntities, rank)
    ensures catalog.created == old(catalog.created) + CreatePlan(TableNames(sortedEntities), Folded(old(catalog.tables)))
    ensures catalog.tables == old(catalog.tables) + Text.Elements(CreatePlan(TableNames(sortedEntities), Folded(old(catalog.tables))))
    ensures forall i :: 0 <= i < |sortedEntities| ==> catalog.Exists(TableName(sortedEntities[i]))
  {
    sortedEntities := SortEntities(assembly, rank);
    catalog.CreateMissing(sortedEntities);
  }
}
