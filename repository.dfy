/** `MemoryRepository` (backend/internal/data/repository.go): four tables held in slices, IDs handed
    out as length + 1, lookups and updates by ID that fail with ErrNoRows, and list queries that
    filter and then page by offset and limit. The request context of every Go method is left out. */
module Repository {
  import opened Common
  import opened Records
  import opened Tables
  import Text

  /** The ListMeals filters: an empty query and a negative calorie bound are switched off. */
  predicate MealMatches(m: Meal, q: string, minCal: int, maxCal: int)
  {
    && (q == "" || Text.ContainsFold(m.name, q))
    && (minCal < 0 || m.calories >= minCal)
    && (maxCal < 0 || m.calories <= maxCal)
  }

  function MealFilter(q: string, minCal: int, maxCal: int): Meal -> bool
  {
    m => MealMatches(m, q, minCal, maxCal)
  }

  /** The ListWorkouts filter: exact type equality unless the filter is empty. */
  predicate WorkoutMatches(w: Workout, typeFilter: string)
  {
    typeFilter == "" || w.kind == typeFilter
  }

  function WorkoutFilter(typeFilter: string): Workout -> bool
  {
    w => WorkoutMatches(w, typeFilter)
  }

  class MemoryRepository {
    var conditions: seq<Condition>
    var meals: seq<Meal>
    var workouts: seq<Workout>
    var progress: seq<Progress>

    /** Nothing deletes a row and updates keep the ID, so in every table row i has ID i + 1. */
    ghost predicate Valid()
      reads this
    {
      && SequentialIds(conditions, ConditionId)
      && SequentialIds(meals, MealId)
      && SequentialIds(workouts, WorkoutId)
      && SequentialIds(progress, ProgressId)
    }

    /** `NewMemoryRepository`: four empty tables. */
    constructor ()
      ensures Valid()
      ensures conditions == [] && meals == [] && workouts == [] && progress == []
    {
      conditions, meals, workouts, progress := [], [], [], [];
    }

    method ListConditions() returns (list: seq<Condition>)
      ensures list == conditions
    {
      list := conditions;
    }

    method CreateCondition(name: string, kind: string) returns (id: int)
      requires Valid()
      modifies this
      ensures Valid()
      ensures id == |old(conditions)| + 1
      ensures conditions == old(conditions) + [Condition(id, name, kind)]
      ensures meals == old(meals) && workouts == old(workouts) && progress == old(progress)
    {
      id := |conditions| + 1;
      conditions := conditions + [Condition(id, name, kind)];
    }

    method GetCondition(key: int) returns (r: Result<Condition>)
      ensures r == Lookup(conditions, ConditionId, key)
      ensures Valid() ==> (r.Ok? <==> 1 <= key <= |conditions|)
      ensures Valid() && r.Ok? ==> r.value == conditions[key - 1]
    {
      if Valid() { SequentialLookup(conditions, ConditionId, key); }
      var i := 0;
      while i < |conditions|
        invariant 0 <= i <= |conditions|
        invariant forall j :: 0 <= j < i ==> conditions[j].id != key
      {
        if conditions[i].id == key {
          return Ok(conditions[i]);
        }
        i := i + 1;
      }
      return Err(ErrNoRows);
    }

    /** Renames and retypes the first condition with ID `key`; its ID stays `key`. */
    method UpdateCondition(key: int, name: string, kind: string) returns (err: Option<RepoError>)
      requires Valid()
      modifies this
      ensures Valid()
      ensures match FirstIndexOf(old(conditions), ConditionId, key)
        case None => err == Some(ErrNoRows) && conditions == old(conditions)
        case Some(k) => err == None && conditions == old(conditions)[k := Condition(key, name, kind)]
      ensures err.None? <==> 1 <= key <= |old(conditions)|
      ensures err.None? ==> conditions == old(conditions)[key - 1 := Condition(key, name, kind)]
      ensures meals == old(meals) && workouts == old(workouts) && progress == old(progress)
    {
      SequentialFind(conditions, ConditionId, key);
      var i := 0;
      while i < |conditions|
        invariant 0 <= i <= |conditions|
        invariant conditions == old(conditions)
        invariant forall j :: 0 <= j < i ==> conditions[j].id != key
      {
        if conditions[i].id == key {
          conditions := conditions[i := conditions[i].(name := name, kind := kind)];
          return None;
        }
        i := i + 1;
      }
      return Some(ErrNoRows);
    }

    /** Appends `items` in order, renumbering them |meals| + 1, |meals| + 2, ... */
    method StoreMeals(items: seq<Meal>)
      requires Valid()
      modifies this
      ensures Valid()
      ensures meals == old(meals) + Numbered(items, |old(meals)| + 1, MealWithId)
      ensures conditions == old(conditions) && workouts == old(workouts) && progress == old(progress)
    {
      var i := 0;
      while i < |items|
        invariant 0 <= i <= |items|
        invariant meals == old(meals) + Numbered(items[..i], |old(meals)| + 1, MealWithId)
        invariant Valid()
        invariant conditions == old(conditions) && workouts == old(workouts) && progress == old(progress)
      {
        var m := items[i].(id := |meals| + 1);
        meals := meals + [m];
        i := i + 1;
        assert Numbered(items[..i], |old(meals)| + 1, MealWithId)
            == Numbered(items[..i - 1], |old(meals)| + 1, MealWithId) + [m];
      }
      assert items[..i] == items;
    }

    method StoreWorkouts(items: seq<Workout>)
      requires Valid()
      modifies this
      ensures Valid()
      ensures workouts == old(workouts) + Numbered(items, |old(workouts)| + 1, WorkoutWithId)
      ensures conditions == old(conditions) && meals == old(meals) && progress == old(progress)
    {
      var i := 0;
      while i < |items|
        invariant 0 <= i <= |items|
        invariant workouts == old(workouts) + Numbered(items[..i], |old(workouts)| + 1, WorkoutWithId)
        invariant Valid()
        invariant conditions == old(conditions) && meals == old(meals) && progress == old(progress)
      {
        var w := items[i].(id := |workouts| + 1);
        workouts := workouts + [w];
        i := i + 1;
        assert Numbered(items[..i], |old(workouts)| + 1, WorkoutWithId)
            == Numbered(items[..i - 1], |old(workouts)| + 1, WorkoutWithId) + [w];
      }
      assert items[..i] == items;
    }

    method StoreProgress(items: seq<Progress>)
      requires Valid()
      modifies this
      ensures Valid()
      ensures progress == old(progress) + Numbered(items, |old(progress)| + 1, ProgressWithId)
      ensures conditions == old(conditions) && meals == old(meals) && workouts == old(workouts)
    {
      var i := 0;
      while i < |items|
        invariant 0 <= i <= |items|
        invariant progress == old(progress) + Numbered(items[..i], |old(progress)| + 1, ProgressWithId)
        invariant Valid()
        invariant conditions == old(conditions) && meals == old(meals) && workouts == old(workouts)
      {
        var p := items[i].(id := |progress| + 1);
        progress := progress + [p];
        i := i + 1;
        assert Numbered(items[..i], |old(progress)| + 1, ProgressWithId)
            == Numbered(items[..i - 1], |old(progress)| + 1, ProgressWithId) + [p];
      }
      assert items[..i] == items;
    }

    /** Filters the meals in store order, counts them, then cuts the page. `total` counts every
        meal that passes, whatever the offset and limit. */
    method ListMeals(limit: int, offset: int, q: string, minCal: int, maxCal: int)
      returns (page: seq<Meal>, total: int)
      requires 0 <= offset
      requires 0 <= limit || offset > |Filter(meals, MealFilter(q, minCal, maxCal))|
      ensures page == Page(Filter(meals, MealFilter(q, minCal, maxCal)), offset, limit)
      ensures total == |Passing(meals, MealFilter(q, minCal, maxCal))|
      ensures forall m :: m in page ==> m in meals && MealMatches(m, q, minCal, maxCal)
      ensures Valid() ==> IncreasingIds(page, MealId)
    {
      var filtered: seq<Meal> := [];
      var i := 0;
      while i < |meals|
        invariant 0 <= i <= |meals|
        invariant filtered == Filter(meals[..i], MealFilter(q, minCal, maxCal))
      {
        var m := meals[i];
        i := i + 1;
        assert meals[..i][..i - 1] == meals[..i - 1];
        if q != "" && !Text.ContainsFold(m.name, q) { continue; }
        if minCal >= 0 && m.calories < minCal { continue; }
        if maxCal >= 0 && m.calories > maxCal { continue; }
        filtered := filtered + [m];
      }
      assert meals[..i] == meals;
      FilterCount(meals, MealFilter(q, minCal, maxCal));
      forall m | m in filtered ensures m in meals && MealMatches(m, q, minCal, maxCal) {
        assert MealFilter(q, minCal, maxCal)(m);
      }
      if Valid() {
        FilterKeepsOrder(meals, MealFilter(q, minCal, maxCal), MealId);
        PageKeepsOrder(filtered, offset, limit, MealId);
      }
      total := |filtered|;
      var end := offset + limit;
      if offset > total { return [], total; }
      if end > total { end := total; }
      page := filtered[offset..end];
    }

    method GetMeal(key: int) returns (r: Result<Meal>)
      ensures r == Lookup(meals, MealId, key)
      ensures Valid() ==> (r.Ok? <==> 1 <= key <= |meals|)
      ensures Valid() && r.Ok? ==> r.value == meals[key - 1]
    {
      if Valid() { SequentialLookup(meals, MealId, key); }
      var i := 0;
      while i < |meals|
        invariant 0 <= i <= |meals|
        invariant forall j :: 0 <= j < i ==> meals[j].id != key
      {
        if meals[i].id == key {
          return Ok(meals[i]);
        }
        i := i + 1;
      }
      return Err(ErrNoRows);
    }

    method CreateMeal(m: Meal) returns (id: int)
      requires Valid()
      modifies this
      ensures Valid()
      ensures id == |old(meals)| + 1
      ensures meals == old(meals) + [m.(id := id)]
      ensures conditions == old(conditions) && workouts == old(workouts) && progress == old(progress)
    {
      var stored := m.(id := |meals| + 1);
      meals := meals + [stored];
      id := stored.id;
    }

    /** Replaces the first meal with ID `key` by `m`, which is stored under ID `key`. */
    method UpdateMeal(key: int, m: Meal) returns (err: Option<RepoError>)
      requires Valid()
      modifies this
      ensures Valid()
      ensures match FirstIndexOf(old(meals), MealId, key)
        case None => err == Some(ErrNoRows) && meals == old(meals)
        case Some(k) => err == None && meals == old(meals)[k := m.(id := key)]
      ensures err.None? <==> 1 <= key <= |old(meals)|
      ensures err.None? ==> meals == old(meals)[key - 1 := m.(id := key)]
      ensures conditions == old(conditions) && workouts == old(workouts) && progress == old(progress)
    {
      SequentialFind(meals, MealId, key);
      var i := 0;
      while i < |meals|
        invariant 0 <= i <= |meals|
        invariant meals == old(meals)
        invariant forall j :: 0 <= j < i ==> meals[j].id != key
      {
        if meals[i].id == key {
          meals := meals[i := m.(id := key)];
          return None;
        }
        i := i + 1;
      }
      return Some(ErrNoRows);
    }

    /** Filters the workouts by exact type (when the filter is not empty), counts, then pages. */
    method ListWorkouts(limit: int, offset: int, typeFilter: string)
      returns (page: seq<Workout>, total: int)
      requires 0 <= offset
      requires 0 <= limit || offset > |Filter(workouts, WorkoutFilter(typeFilter))|
      ensures page == Page(Filter(workouts, WorkoutFilter(typeFilter)), offset, limit)
      ensures total == |Passing(workouts, WorkoutFilter(typeFilter))|
      ensures forall w :: w in page ==> w in workouts && WorkoutMatches(w, typeFilter)
      ensures Valid() ==> IncreasingIds(page, WorkoutId)
    {
      var filtered: seq<Workout> := [];
      var i := 0;
      while i < |workouts|
        invariant 0 <= i <= |workouts|
        invariant filtered == Filter(workouts[..i], WorkoutFilter(typeFilter))
      {
        var w := workouts[i];
        i := i + 1;
        assert workouts[..i][..i - 1] == workouts[..i - 1];
        if typeFilter != "" && w.kind != typeFilter { continue; }
        filtered := filtered + [w];
      }
      assert workouts[..i] == workouts;
      FilterCount(workouts, WorkoutFilter(typeFilter));
      forall w | w in filtered ensures w in workouts && WorkoutMatches(w, typeFilter) {
        assert WorkoutFilter(typeFilter)(w);
      }
      if Valid() {
        FilterKeepsOrder(workouts, WorkoutFilter(typeFilter), WorkoutId);
        PageKeepsOrder(filtered, offset, limit, WorkoutId);
      }
      total := |filtered|;
      var end := offset + limit;
      if offset > total { return [], total; }
      if end > total { end := total; }
      page := filtered[offset..end];
    }

    method GetWorkout(key: int) returns (r: Result<Workout>)
      ensures r == Lookup(workouts, WorkoutId, key)
      ensures Valid() ==> (r.Ok? <==> 1 <= key <= |workouts|)
      ensures Valid() && r.Ok? ==> r.value == workouts[key - 1]
    {
      if Valid() { SequentialLookup(workouts, WorkoutId, key); }
      var i := 0;
      while i < |workouts|
        invariant 0 <= i <= |workouts|
        invariant forall j :: 0 <= j < i ==> workouts[j].id != key
      {
        if workouts[i].id == key {
          return Ok(workouts[i]);
        }
        i := i + 1;
      }
      return Err(ErrNoRows);
    }

    method CreateWorkout(w: Workout) returns (id: int)
      requires Valid()
      modifies this
      ensures Valid()
      ensures id == |old(workouts)| + 1
      ensures workouts == old(workouts) + [w.(id := id)]
      ensures conditions == old(conditions) && meals == old(meals) && progress == old(progress)
    {
      var stored := w.(id := |workouts| + 1);
      workouts := workouts + [stored];
      id := stored.id;
    }

    method UpdateWorkout(key: int, w: Workout) returns (err: Option<RepoError>)
      requires Valid()
      modifies this
      ensures Valid()
      ensures match FirstIndexOf(old(workouts), WorkoutId, key)
        case None => err == Some(ErrNoRows) && workouts == old(workouts)
        case Some(k) => err == None && workouts == old(workouts)[k := w.(id := key)]
      ensures err.None? <==> 1 <= key <= |old(workouts)|
      ensures err.None? ==> workouts == old(workouts)[key - 1 := w.(id := key)]
      ensures conditions == old(conditions) && meals == old(meals) && progress == old(progress)
    {
      SequentialFind(workouts, WorkoutId, key);
      var i := 0;
      while i < |workouts|
        invariant 0 <= i <= |workouts|
        invariant workouts == old(workouts)
        invariant forall j :: 0 <= j < i ==> workouts[j].id != key
      {
        if workouts[i].id == key {
          workouts := workouts[i := w.(id := key)];
          return None;
        }
        i := i + 1;
      }
      return Some(ErrNoRows);
    }

    /** Pages the progress table in insertion order; the date range is accepted and ignored. */
    method ListProgress(limit: int, offset: int, dateFrom: string, dateTo: string)
      returns (page: seq<Progress>, total: int)
      requires 0 <= offset
      requires 0 <= limit || offset > |progress|
      ensures page == Page(progress, offset, limit)
      ensures total == |progress|
      ensures Valid() ==> forall k :: 0 <= k < |page| ==> page[k].id == offset + k + 1
    {
      var filtered := progress;
      total := |filtered|;
      var end := offset + limit;
      if offset > total { return [], total; }
      if end > total { end := total; }
      page := filtered[offset..end];
    }
  }

  /** The cache-invalidation scenario: a condition created and then renamed is listed under its
      new name. */
  method CreateThenRenameCondition(repo: MemoryRepository, name: string, kind: string, newName: string)
    returns (list: seq<Condition>)
    requires repo.Valid()
    modifies repo
    ensures repo.Valid()
    ensures exists c :: c in list && c.name == newName
  {
    var id := repo.CreateCondition(name, kind);
    var err := repo.UpdateCondition(id, newName, kind);
    list := repo.ListConditions();
    assert list[id - 1] == Condition(id, newName, kind);
  }
}
