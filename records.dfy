/** The rows the backend stores (backend/internal/data/models.go). Each struct's `Type` field is
    called `kind` here, since `type` is a Dafny keyword. */
module Records {

  datatype Condition = Condition(id: int, name: string, kind: string)

  datatype Meal = Meal(id: int, name: string, calories: int, protein: int, carbs: int, fat: int)

  datatype Workout = Workout(id: int, name: string, duration: int, caloriesBurned: int, kind: string)

  /** `Weight` is a float64 in the source; no operation computes with it, so a real stands for it. */
  datatype Progress = Progress(id: int, date: string, weight: real)

  function ConditionId(c: Condition): int { c.id }
  function MealId(m: Meal): int { m.id }
  function WorkoutId(w: Workout): int { w.id }
  function ProgressId(p: Progress): int { p.id }

  function MealWithId(m: Meal, id: int): Meal { m.(id := id) }
  function WorkoutWithId(w: Workout, id: int): Workout { w.(id := id) }
  function ProgressWithId(p: Progress, id: int): Progress { p.(id := id) }
}
