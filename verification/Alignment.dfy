/** Pairing the rows of two variants task by task. */
module Alignment {
  import opened Options
  import opened Sums
  import opened Sorting
  import opened Sequences
  import Aggregation

  type Row = Aggregation.Aggregate
  type Category = Aggregation.Category
  type Budget = Aggregation.Budget

  datatype TaskKey = TaskKey(taskId: string, budget: Budget)

  datatype Error = DuplicateTasks | EmptySide | MixedVariants | DifferentTasks | MixedBudgets | MixedMetrics | CategoryMismatch

  datatype Result<T> = Ok(value: T) | Err(error: Error)

  function TaskKeyOf(r: Row): TaskKey {
    TaskKey(r.taskId, r.budget)
  }

  predicate TaskKeyAtMost(a: TaskKey, b: TaskKey) {
    if a.taskId != b.taskId then StringAtMost(a.taskId, b.taskId)
    else Aggregation.BudgetRank(a.budget) <= Aggregation.BudgetRank(b.budget)
  }

  predicate RowAtMost(a: Row, b: Row) {
    TaskKeyAtMost(TaskKeyOf(a), TaskKeyOf(b))
  }

  lemma TaskKeyOrder()
    ensures TotalPreorder(TaskKeyAtMost)
    ensures forall a, b :: TaskKeyAtMost(a, b) && TaskKeyAtMost(b, a) ==> a == b
  {
    forall a, b
      ensures TaskKeyAtMost(a, b) || TaskKeyAtMost(b, a)
      ensures TaskKeyAtMost(a, b) && TaskKeyAtMost(b, a) ==> a == b
    {
      StringTotal(a.taskId, b.taskId);
    }
    forall a, b, c | TaskKeyAtMost(a, b) && TaskKeyAtMost(b, c) ensures TaskKeyAtMost(a, c) {
      StringTotal(a.taskId, b.taskId);
      StringTotal(b.taskId, c.taskId);
      if StringAtMost(a.taskId, b.taskId) && StringAtMost(b.taskId, c.taskId) {
        StringTransitive(a.taskId, b.taskId, c.taskId);
      }
    }
  }

  lemma RowOrder()
    ensures TotalPreorder(RowAtMost)
  {
    TaskKeyOrder();
  }

  function TaskKeys(rows: seq<Row>): seq<TaskKey> {
    seq(|rows|, i requires 0 <= i < |rows| => TaskKeyOf(rows[i]))
  }

  /** The rows of the requested budget; all of them when no budget is requested. */
  function Selected(rows: seq<Row>, budget: Option<Budget>): seq<Row> {
    Filter(rows, (r: Row) => budget.None? || r.budget == budget.value)
  }

  predicate OneVariant(rows: seq<Row>) {
    forall r, s :: r in rows && s in rows ==> r.variant == s.variant
  }

  function SideError(rows: seq<Row>): Option<Error> {
    if !NoDuplicates(TaskKeys(rows)) then Some(DuplicateTasks)
    else if rows == [] then Some(EmptySide)
    else if !OneVariant(rows) then Some(MixedVariants)
    else None
  }

  predicate SameTasks(left: seq<Row>, right: seq<Row>) {
    (forall k :: k in TaskKeys(left) ==> k in TaskKeys(right)) && forall k :: k in TaskKeys(right) ==> k in TaskKeys(left)
  }

  predicate OneBudget(rows: seq<Row>) {
    forall r, s :: r in rows && s in rows ==> r.budget == s.budget
  }

  predicate OneMetric(rows: seq<Row>) {
    forall r, s :: r in rows && s in rows ==> r.metricName == s.metricName
  }

  /** Every row carries the category the mapping assigns to its task. */
  predicate Categorised(rows: seq<Row>, categories: map<string, Category>) {
    forall r :: r in rows ==> r.taskId in categories && r.category == categories[r.taskId]
  }

  function PairError(left: seq<Row>, right: seq<Row>, categories: map<string, Category>): Option<Error> {
    if SideError(left).Some? then SideError(left)
    else if SideError(right).Some? then SideError(right)
    else if !SameTasks(left, right) then Some(DifferentTasks)
    else if !OneBudget(left) then Some(MixedBudgets)
    else if !OneMetric(left + right) then Some(MixedMetrics)
    else if !Categorised(left, categories) || !Categorised(right, categories) then Some(CategoryMismatch)
    else None
  }

  /** Both sides in task order, or the first violated condition. */
  function Aligned(left: seq<Row>, right: seq<Row>, categories: map<string, Category>, budget: Option<Budget>)
    : Result<(seq<Row>, seq<Row>)>
  {
    var l, r := Selected(left, budget), Selected(right, budget);
    if PairError(l, r, categories).Some? then Err(PairError(l, r, categories).value)
    else Ok((Sorted(l, RowAtMost), Sorted(r, RowAtMost)))
  }

  lemma RowsAntisymmetric(rows: seq<Row>)
    requires NoDuplicates(TaskKeys(rows))
    ensures Antisymmetric(rows, RowAtMost)
  {
    TaskKeyOrder();
    forall a, b | a in rows && b in rows && RowAtMost(a, b) && RowAtMost(b, a) ensures a == b {
      assert TaskKeyOf(a) == TaskKeyOf(b);
      var i, j :| 0 <= i < |rows| && 0 <= j < |rows| && rows[i] == a && rows[j] == b;
      assert TaskKeys(rows)[i] == TaskKeys(rows)[j];
    }
  }

  /** A listing of keys in strictly increasing order is determined by its set. */
  lemma SortedTaskKeys(rows: seq<Row>)
    requires NoDuplicates(TaskKeys(rows))
    ensures TaskKeys(Sorted(rows, RowAtMost)) == Sorted(TaskKeys(rows), TaskKeyAtMost)
  {
    var s := Sorted(rows, RowAtMost);
    RowOrder();
    TaskKeyOrder();
    SortedSpec(rows, RowAtMost);
    SortedSpec(TaskKeys(rows), TaskKeyAtMost);
    ImagePermuted(rows, s, TaskKeyOf, TaskKeys(rows), TaskKeys(s));
    SameElements(TaskKeys(rows), TaskKeys(s));
    forall i, j | 0 <= i < j < |s| ensures TaskKeyAtMost(TaskKeys(s)[i], TaskKeys(s)[j]) {
      assert RowAtMost(s[i], s[j]);
    }
    OrderedUnique(TaskKeys(s), Sorted(TaskKeys(rows), TaskKeyAtMost), TaskKeyAtMost);
  }

  /** What an accepted alignment gives: two sides of equal length, position by position about the same task
      in the same category, each side a rearrangement of its selected rows. */
  lemma AlignedShape(left: seq<Row>, right: seq<Row>, categories: map<string, Category>, budget: Option<Budget>)
    requires Aligned(left, right, categories, budget).Ok?
    ensures var (l, r) := Aligned(left, right, categories, budget).value;
      && l != [] && |l| == |r|
      && multiset(l) == multiset(Selected(left, budget)) && multiset(r) == multiset(Selected(right, budget))
      && (forall i :: 0 <= i < |l| ==> TaskKeyOf(l[i]) == TaskKeyOf(r[i]) && l[i].category == r[i].category)
      && Ordered(l, RowAtMost) && NoDuplicates(TaskKeys(l))
  {
    var l0, r0 := Selected(left, budget), Selected(right, budget);
    var l, r := Sorted(l0, RowAtMost), Sorted(r0, RowAtMost);
    RowOrder();
    TaskKeyOrder();
    SortedSpec(l0, RowAtMost);
    SortedSpec(r0, RowAtMost);
    SameElements(l0, l);
    SameElements(r0, r);
    SortedTaskKeys(l0);
    SortedTaskKeys(r0);
    SameSetPermuted(TaskKeys(l0), TaskKeys(r0));
    SortedPermuted(TaskKeys(l0), TaskKeys(r0), TaskKeyAtMost);
    SortedNoDuplicates(TaskKeys(l0), TaskKeyAtMost);
    assert TaskKeys(l) == TaskKeys(r);
    forall i | 0 <= i < |l| ensures |l| == |r| && TaskKeyOf(l[i]) == TaskKeyOf(r[i]) && l[i].category == r[i].category {
      assert |TaskKeys(l)| == |TaskKeys(r)|;
      assert TaskKeys(l)[i] == TaskKeys(r)[i];
      assert l[i] in l0 && r[i] in r0;
    }
    assert |TaskKeys(l)| == |TaskKeys(r)|;
  }

  /** Swapping the two sides swaps the result and keeps acceptance. */
  lemma AlignedSwapped(left: seq<Row>, right: seq<Row>, categories: map<string, Category>, budget: Option<Budget>)
    ensures Aligned(left, right, categories, budget).Ok? <==> Aligned(right, left, categories, budget).Ok?
    ensures Aligned(left, right, categories, budget).Ok? ==>
      Aligned(right, left, categories, budget).value ==
        (Aligned(left, right, categories, budget).value.1, Aligned(left, right, categories, budget).value.0)
  {
    var l, r := Selected(left, budget), Selected(right, budget);
    if PairError(l, r, categories).None? { PairErrorSwapped(l, r, categories); }
    if PairError(r, l, categories).None? { PairErrorSwapped(r, l, categories); }
  }

  lemma PairErrorSwapped(l: seq<Row>, r: seq<Row>, categories: map<string, Category>)
    requires PairError(l, r, categories).None?
    ensures PairError(r, l, categories).None?
  {
    assert forall x :: x in l + r <==> x in r + l;
    forall a, b | a in r && b in r ensures a.budget == b.budget {
      var i, j :| 0 <= i < |r| && 0 <= j < |r| && r[i] == a && r[j] == b;
      assert TaskKeys(r)[i] in TaskKeys(l) && TaskKeys(r)[j] in TaskKeys(l);
      var p, q :| 0 <= p < |l| && 0 <= q < |l| && TaskKeys(l)[p] == TaskKeys(r)[i] && TaskKeys(l)[q] == TaskKeys(r)[j];
      assert l[p] in l && l[q] in l;
    }
  }

  /** The order in which the rows of either side arrive is irrelevant. */
  lemma AlignedPermuted(left: seq<Row>, left': seq<Row>, right: seq<Row>, right': seq<Row>,
                        categories: map<string, Category>, budget: Option<Budget>)
    requires multiset(left) == multiset(left') && multiset(right) == multiset(right')
    requires Aligned(left, right, categories, budget).Ok?
    ensures Aligned(left', right', categories, budget) == Aligned(left, right, categories, budget)
  {
    var selected := (r: Row) => budget.None? || r.budget == budget.value;
    FilterPermuted(left, left', selected);
    FilterPermuted(right, right', selected);
    var l, l', r, r' := Selected(left, budget), Selected(left', budget), Selected(right, budget), Selected(right', budget);
    SidePermuted(l, l');
    SidePermuted(r, r');
    PairErrorSameSides(l, l', r, r', categories);
  }

  lemma PairErrorSameSides(l: seq<Row>, l': seq<Row>, r: seq<Row>, r': seq<Row>, categories: map<string, Category>)
    requires PairError(l, r, categories).None? && SideError(l').None? && SideError(r').None?
    requires (forall x :: x in l <==> x in l') && forall x :: x in r <==> x in r'
    requires forall k :: k in TaskKeys(l) <==> k in TaskKeys(l')
    requires forall k :: k in TaskKeys(r) <==> k in TaskKeys(r')
    ensures PairError(l', r', categories).None?
  {
    assert SameTasks(l', r');
    assert OneMetric(l' + r') by {
    }
  }

  lemma SidePermuted(a: seq<Row>, b: seq<Row>)
    requires multiset(a) == multiset(b) && SideError(a).None?
    ensures SideError(b).None? && Sorted(a, RowAtMost) == Sorted(b, RowAtMost)
    ensures (forall x :: x in a <==> x in b) && forall k :: k in TaskKeys(a) <==> k in TaskKeys(b)
  {
    SameElements(a, b);
    ImagePermuted(a, b, TaskKeyOf, TaskKeys(a), TaskKeys(b));
    SameElements(TaskKeys(a), TaskKeys(b));
    NoDuplicatesPermuted(TaskKeys(a), TaskKeys(b));
    RowOrder();
    RowsAntisymmetric(a);
    SortedPermuted(a, b, RowAtMost);
  }

  // ----- What is accepted -----

  /** The row has the requested budget. */
  predicate Chosen(r: Row, budget: Option<Budget>) {
    budget == None || budget == Some(r.budget)
  }

  /** No two chosen rows are about the same task under the same budget. */
  predicate EachTaskOnce(rows: seq<Row>, budget: Option<Budget>) {
    forall i, j :: 0 <= i < j < |rows| && Chosen(rows[i], budget) && Chosen(rows[j], budget) ==>
      rows[i].taskId != rows[j].taskId || rows[i].budget != rows[j].budget
  }

  lemma SelectedChosen(rows: seq<Row>, budget: Option<Budget>)
    ensures forall x :: x in Selected(rows, budget) <==> x in rows && Chosen(x, budget)
  {
    FilterMembers(rows, (r: Row) => budget.None? || r.budget == budget.value);
  }

  lemma {:induction false} SelectedOnce(rows: seq<Row>, budget: Option<Budget>)
    ensures NoDuplicates(TaskKeys(Selected(rows, budget))) <==> EachTaskOnce(rows, budget)
  {
    if rows != [] {
      var first, rest := rows[0], rows[1..];
      SelectedOnce(rest, budget);
      SelectedChosen(rest, budget);
      assert forall i :: 0 <= i < |rest| ==> rest[i] == rows[i + 1];
      if Chosen(first, budget) {
        var keys, all := TaskKeys(Selected(rest, budget)), TaskKeys(Selected(rows, budget));
        assert Selected(rows, budget) == [first] + Selected(rest, budget);
        assert all == [TaskKeyOf(first)] + keys;
        FirstOnce(TaskKeyOf(first), keys);
        KeyAmong(first, rest, budget);
      } else {
        assert Selected(rows, budget) == Selected(rest, budget);
      }
    }
  }

  lemma FirstOnce(k: TaskKey, keys: seq<TaskKey>)
    ensures NoDuplicates([k] + keys) <==> NoDuplicates(keys) && k !in keys
  {
    var all := [k] + keys;
    if NoDuplicates(all) {
      forall i, j | 0 <= i < j < |keys| ensures keys[i] != keys[j] { assert all[i + 1] != all[j + 1]; }
      forall i | 0 <= i < |keys| ensures keys[i] != k { assert all[0] != all[i + 1]; }
    }
  }

  lemma KeyAmong(first: Row, rest: seq<Row>, budget: Option<Budget>)
    ensures TaskKeyOf(first) in TaskKeys(Selected(rest, budget)) <==>
      exists j :: 0 <= j < |rest| && Chosen(rest[j], budget) && rest[j].taskId == first.taskId && rest[j].budget == first.budget
  {
    SelectedChosen(rest, budget);
    var chosen := Selected(rest, budget);
    if TaskKeyOf(first) in TaskKeys(chosen) {
      var i :| 0 <= i < |chosen| && TaskKeys(chosen)[i] == TaskKeyOf(first);
      assert chosen[i] in rest;
    }
    if j :| 0 <= j < |rest| && Chosen(rest[j], budget) && rest[j].taskId == first.taskId && rest[j].budget == first.budget {
      assert rest[j] in chosen;
      var i :| 0 <= i < |chosen| && chosen[i] == rest[j];
      assert TaskKeys(chosen)[i] == TaskKeyOf(first);
    }
  }

  /** Every chosen row of one side has a chosen row of the other about its task under its budget. */
  predicate Answered(rows: seq<Row>, others: seq<Row>, budget: Option<Budget>) {
    forall x :: x in rows && Chosen(x, budget) ==>
      exists y :: y in others && Chosen(y, budget) && y.taskId == x.taskId && y.budget == x.budget
  }

  lemma AnsweredKeys(rows: seq<Row>, others: seq<Row>, budget: Option<Budget>)
    ensures Answered(rows, others, budget) <==>
      forall k :: k in TaskKeys(Selected(rows, budget)) ==> k in TaskKeys(Selected(others, budget))
  {
    SelectedChosen(rows, budget);
    var chosen := Selected(rows, budget);
    forall x | x in rows && Chosen(x, budget)
      ensures TaskKeyOf(x) in TaskKeys(chosen)
      ensures TaskKeyOf(x) in TaskKeys(Selected(others, budget)) <==>
        exists y :: y in others && Chosen(y, budget) && y.taskId == x.taskId && y.budget == x.budget
    {
      KeyAmong(x, others, budget);
      var i :| 0 <= i < |chosen| && chosen[i] == x;
      assert TaskKeys(chosen)[i] == TaskKeyOf(x);
      if y :| y in others && Chosen(y, budget) && y.taskId == x.taskId && y.budget == x.budget {
        var j :| 0 <= j < |others| && others[j] == y;
      }
    }
    forall k | k in TaskKeys(chosen) ensures exists x :: x in rows && Chosen(x, budget) && TaskKeyOf(x) == k {
      var i :| 0 <= i < |chosen| && TaskKeys(chosen)[i] == k;
      assert chosen[i] in chosen;
    }
  }

  /** One side: it has a chosen row, each task once, and one variant. */
  predicate SideAcceptable(rows: seq<Row>, budget: Option<Budget>) {
    && (exists x :: x in rows && Chosen(x, budget)) && EachTaskOnce(rows, budget)
    && (forall x, y :: x in rows && y in rows && Chosen(x, budget) && Chosen(y, budget) ==> x.variant == y.variant)
  }

  lemma SideExactly(rows: seq<Row>, budget: Option<Budget>)
    ensures SideError(Selected(rows, budget)).None? <==> SideAcceptable(rows, budget)
  {
    SelectedChosen(rows, budget);
    SelectedOnce(rows, budget);
    if Selected(rows, budget) != [] { assert Selected(rows, budget)[0] in Selected(rows, budget); }
  }

  /** All chosen rows have one budget and one metric. */
  predicate Uniform(rows: seq<Row>, budget: Option<Budget>) {
    forall x, y :: x in rows && y in rows && Chosen(x, budget) && Chosen(y, budget) ==>
      x.budget == y.budget && x.metricName == y.metricName
  }

  /** Every chosen row carries the category of its task. */
  predicate Assigned(rows: seq<Row>, categories: map<string, Category>, budget: Option<Budget>) {
    forall x :: x in rows && Chosen(x, budget) ==> x.taskId in categories && x.category == categories[x.taskId]
  }

  /** Sides are accepted exactly when each is acceptable, they are about the same tasks, the chosen rows have one budget and
      one metric, and each carries the category of its task. */
  lemma AlignedExactly(left: seq<Row>, right: seq<Row>, categories: map<string, Category>, budget: Option<Budget>)
    ensures Aligned(left, right, categories, budget).Ok? <==> SidesAcceptable(left, right, categories, budget)
  {
    AlignedWhenPaired(left, right, categories, budget);
    if Aligned(left, right, categories, budget).Ok? { PairedIsAcceptable(left, right, categories, budget); }
    if SidesAcceptable(left, right, categories, budget) { AcceptableIsPaired(left, right, categories, budget); }
  }

  /** Everything asked of the two sides. */
  predicate SidesAcceptable(left: seq<Row>, right: seq<Row>, categories: map<string, Category>, budget: Option<Budget>) {
    SideAcceptable(left, budget) && SideAcceptable(right, budget) && Answered(left, right, budget)
    && Answered(right, left, budget) && Uniform(left + right, budget) && Assigned(left + right, categories, budget)
  }

  lemma PairedIsAcceptable(left: seq<Row>, right: seq<Row>, categories: map<string, Category>, budget: Option<Budget>)
    requires PairError(Selected(left, budget), Selected(right, budget), categories).None?
    ensures SidesAcceptable(left, right, categories, budget)
  {
    PairAccepted(Selected(left, budget), Selected(right, budget), categories);
    SideExactly(left, budget);
    SideExactly(right, budget);
    SameTasksExactly(left, right, budget);
    UniformExactly(left, right, budget);
    AssignedExactly(left, right, categories, budget);
  }

  lemma AcceptableIsPaired(left: seq<Row>, right: seq<Row>, categories: map<string, Category>, budget: Option<Budget>)
    requires SidesAcceptable(left, right, categories, budget)
    ensures PairError(Selected(left, budget), Selected(right, budget), categories).None?
  {
    SideExactly(left, budget);
    SideExactly(right, budget);
    SameTasksExactly(left, right, budget);
    UniformExactly(left, right, budget);
    AssignedExactly(left, right, categories, budget);
    PairAccepted(Selected(left, budget), Selected(right, budget), categories);
  }

  lemma SameTasksExactly(left: seq<Row>, right: seq<Row>, budget: Option<Budget>)
    ensures SameTasks(Selected(left, budget), Selected(right, budget)) <==> Answered(left, right, budget) && Answered(right, left, budget)
  {
    AnsweredKeys(left, right, budget);
    AnsweredKeys(right, left, budget);
  }

  lemma PairAccepted(l: seq<Row>, r: seq<Row>, categories: map<string, Category>)
    ensures PairError(l, r, categories).None? <==>
      SideError(l).None? && SideError(r).None? && SameTasks(l, r) && OneBudget(l) && OneMetric(l + r)
      && Categorised(l, categories) && Categorised(r, categories)
  {
  }

  lemma AlignedWhenPaired(left: seq<Row>, right: seq<Row>, categories: map<string, Category>, budget: Option<Budget>)
    ensures Aligned(left, right, categories, budget).Ok? <==>
      PairError(Selected(left, budget), Selected(right, budget), categories).None?
  {
  }

  lemma AssignedExactly(left: seq<Row>, right: seq<Row>, categories: map<string, Category>, budget: Option<Budget>)
    ensures Assigned(left + right, categories, budget) <==>
      Categorised(Selected(left, budget), categories) && Categorised(Selected(right, budget), categories)
  {
    SelectedChosen(left, budget);
    SelectedChosen(right, budget);
  }

  lemma UniformExactly(left: seq<Row>, right: seq<Row>, budget: Option<Budget>)
    requires Answered(right, left, budget)
    ensures Uniform(left + right, budget) <==>
      OneBudget(Selected(left, budget)) && OneMetric(Selected(left, budget) + Selected(right, budget))
  {
    SelectedChosen(left, budget);
    SelectedChosen(right, budget);
    assert forall x :: x in Selected(left, budget) + Selected(right, budget) <==> x in left + right && Chosen(x, budget);
    if OneBudget(Selected(left, budget)) { OneBudgetAcross(left, right, budget); }
  }

  lemma OneBudgetAcross(left: seq<Row>, right: seq<Row>, budget: Option<Budget>)
    requires Answered(right, left, budget) && OneBudget(Selected(left, budget))
    ensures forall x, y :: x in left + right && y in left + right && Chosen(x, budget) && Chosen(y, budget) ==> x.budget == y.budget
  {
    SelectedChosen(left, budget);
    forall x, y | x in left + right && y in left + right && Chosen(x, budget) && Chosen(y, budget) ensures x.budget == y.budget {
      var x' :| x' in left && Chosen(x', budget) && x'.budget == x.budget;
      var y' :| y' in left && Chosen(y', budget) && y'.budget == y.budget;
    }
  }

  // ----- The loop -----

  /** One side's index: a row per task key, filled in order, skipping other budgets and refusing a repeated key. */
  method IndexSide(rows: seq<Row>, budget: Option<Budget>)
    returns (failure: Option<Error>, order: seq<TaskKey>, indexed: map<TaskKey, Row>)
    ensures failure == SideError(Selected(rows, budget))
    ensures failure.None? ==> order == TaskKeys(Selected(rows, budget)) && indexed.Keys == set k | k in order
    ensures failure.None? ==> forall r :: r in Selected(rows, budget) ==> TaskKeyOf(r) in indexed && indexed[TaskKeyOf(r)] == r
  {
    order, indexed := [], map[];
    for i := 0 to |rows|
      invariant IndexedSoFar(rows[..i], budget, order, indexed)
    {
      var row := rows[i];
      assert rows[..i + 1] == rows[..i] + [row];
      if budget.None? || row.budget == budget.value {
        if TaskKeyOf(row) in indexed {
          RepeatedKey(rows, i, budget);
          return Some(DuplicateTasks), order, indexed;
        }
        IndexRow(rows[..i], row, budget, order, indexed);
        order := order + [TaskKeyOf(row)];
        indexed := indexed[TaskKeyOf(row) := row];
      } else {
        SkipRow(rows[..i], row, budget, order, indexed);
      }
    }
    assert rows[..|rows|] == rows;
    IndexedVariants(Selected(rows, budget), indexed);
    if |indexed| == 0 { return Some(EmptySide), order, indexed; }
    if |set r | r in indexed.Values :: r.variant| != 1 { return Some(MixedVariants), order, indexed; }
    return None, order, indexed;
  }

  /** What the pass has indexed: the selected rows by their distinct task keys. */
  ghost predicate IndexedSoFar(rows: seq<Row>, budget: Option<Budget>, order: seq<TaskKey>, indexed: map<TaskKey, Row>) {
    && order == TaskKeys(Selected(rows, budget)) && NoDuplicates(order) && (forall k :: k in indexed <==> k in order)
    && forall r :: r in Selected(rows, budget) ==> TaskKeyOf(r) in indexed && indexed[TaskKeyOf(r)] == r
  }

  lemma SkipRow(rows: seq<Row>, row: Row, budget: Option<Budget>, order: seq<TaskKey>, indexed: map<TaskKey, Row>)
    requires IndexedSoFar(rows, budget, order, indexed) && budget.Some? && row.budget != budget.value
    ensures IndexedSoFar(rows + [row], budget, order, indexed)
  {
    FilterSnoc(rows, row, (r: Row) => budget.None? || r.budget == budget.value);
  }

  lemma IndexRow(rows: seq<Row>, row: Row, budget: Option<Budget>, order: seq<TaskKey>, indexed: map<TaskKey, Row>)
    requires IndexedSoFar(rows, budget, order, indexed) && (budget.None? || row.budget == budget.value)
    requires TaskKeyOf(row) !in indexed
    ensures IndexedSoFar(rows + [row], budget, order + [TaskKeyOf(row)], indexed[TaskKeyOf(row) := row])
  {
    var before := Selected(rows, budget);
    FilterSnoc(rows, row, (r: Row) => budget.None? || r.budget == budget.value);
    assert TaskKeys(before + [row]) == order + [TaskKeyOf(row)];
    NewKey(before, row);
  }

  lemma NewKey(before: seq<Row>, row: Row)
    requires TaskKeyOf(row) !in TaskKeys(before)
    ensures forall r :: r in before ==> TaskKeyOf(r) != TaskKeyOf(row)
  {
    forall r | r in before ensures TaskKeyOf(r) != TaskKeyOf(row) {
      var j :| 0 <= j < |before| && before[j] == r;
      assert TaskKeys(before)[j] == TaskKeyOf(r);
    }
  }

  lemma RepeatedKey(rows: seq<Row>, i: nat, budget: Option<Budget>)
    requires i < |rows| && (budget.None? || rows[i].budget == budget.value)
    requires TaskKeyOf(rows[i]) in TaskKeys(Selected(rows[..i], budget))
    ensures !NoDuplicates(TaskKeys(Selected(rows, budget)))
  {
    var selected := (r: Row) => budget.None? || r.budget == budget.value;
    var before := Selected(rows[..i], budget);
    FilterConcat(rows[..i], rows[i..], selected);
    assert rows == rows[..i] + rows[i..];
    var j :| 0 <= j < |before| && TaskKeys(before)[j] == TaskKeyOf(rows[i]);
    var all := Selected(rows, budget);
    assert all == before + Filter(rows[i..], selected) && Filter(rows[i..], selected)[0] == rows[i];
    assert TaskKeys(all)[j] == TaskKeyOf(all[j]) == TaskKeyOf(all[|before|]) == TaskKeys(all)[|before|];
  }

  /** Counting the variants in the index tells whether the side is empty or mixed. */
  lemma IndexedVariants(rows: seq<Row>, indexed: map<TaskKey, Row>)
    requires forall k :: k in indexed <==> k in TaskKeys(rows)
    requires forall r :: r in rows ==> TaskKeyOf(r) in indexed && indexed[TaskKeyOf(r)] == r
    ensures |indexed| == 0 <==> rows == []
    ensures rows != [] ==> (|set r | r in indexed.Values :: r.variant| == 1 <==> OneVariant(rows))
  {
    IndexedValues(rows, indexed);
    var variants := set r | r in indexed.Values :: r.variant;
    if rows != [] {
      var v := rows[0].variant;
      assert rows[0] in indexed.Values && v in variants;
      if OneVariant(rows) { assert variants == {v}; }
      if |variants| == 1 {
        assert |variants - {v}| == 0 && variants == {v};
        forall r | r in rows ensures r.variant == v { assert r in indexed.Values && r.variant in variants; }
      }
    }
  }

  lemma IndexedValues(rows: seq<Row>, indexed: map<TaskKey, Row>)
    requires forall k :: k in indexed <==> k in TaskKeys(rows)
    requires forall r :: r in rows ==> TaskKeyOf(r) in indexed && indexed[TaskKeyOf(r)] == r
    ensures forall r :: r in indexed.Values <==> r in rows
    ensures |indexed| == 0 <==> rows == []
  {
    forall k | k in indexed ensures indexed[k] in rows && TaskKeyOf(indexed[k]) == k {
      var i :| 0 <= i < |rows| && TaskKeys(rows)[i] == k;
      assert rows[i] in rows;
    }
    if rows != [] { assert TaskKeys(rows)[0] in indexed; }
    if rows == [] { assert indexed.Keys == {}; }
  }

  /** The rows of an index in key order. */
  method InOrder(keys: seq<TaskKey>, indexed: map<TaskKey, Row>, ghost rows: seq<Row>) returns (out: seq<Row>)
    requires NoDuplicates(TaskKeys(rows)) && keys == Sorted(TaskKeys(rows), TaskKeyAtMost)
    requires forall k :: k in TaskKeys(rows) ==> k in indexed
    requires forall r :: r in rows ==> TaskKeyOf(r) in indexed && indexed[TaskKeyOf(r)] == r
    ensures out == Sorted(rows, RowAtMost)
  {
    out := [];
    ghost var want := Sorted(rows, RowAtMost);
    SortedTaskKeys(rows);
    RowOrder();
    SortedSpec(rows, RowAtMost);
    SameElements(rows, want);
    assert |keys| == |TaskKeys(want)| == |want|;
    for i := 0 to |keys|
      invariant out == want[..i]
    {
      assert keys[i] == TaskKeys(want)[i] && want[i] in rows;
      out := out + [indexed[keys[i]]];
    }
  }

  /** An index listing exactly the given rows. */
  ghost predicate Indexes(rows: seq<Row>, indexed: map<TaskKey, Row>) {
    && (forall k :: k in indexed <==> k in TaskKeys(rows))
    && (forall r :: r in rows ==> TaskKeyOf(r) in indexed && indexed[TaskKeyOf(r)] == r)
  }

  function BudgetsOf(indexed: map<TaskKey, Row>): set<Budget> {
    set k | k in indexed.Keys :: k.budget
  }

  function MetricsOf(first: map<TaskKey, Row>, second: map<TaskKey, Row>): set<string> {
    set r | r in first.Values + second.Values :: r.metricName
  }

  /** Check the categories of both sides task by task. */
  method CheckCategories(order: seq<TaskKey>, first: map<TaskKey, Row>, second: map<TaskKey, Row>, categories: map<string, Category>)
    returns (ok: bool)
    ensures ok <==> AllInCategory(order, first, second, categories)
  {
    for i := 0 to |order|
      invariant forall j :: 0 <= j < i ==> InCategory(order[j], first, second, categories)
    {
      if !InCategory(order[i], first, second, categories) { return false; }
    }
    return true;
  }

  predicate AllInCategory(order: seq<TaskKey>, first: map<TaskKey, Row>, second: map<TaskKey, Row>, categories: map<string, Category>) {
    forall j :: 0 <= j < |order| ==> InCategory(order[j], first, second, categories)
  }

  /** The check by task keys decides whether the rows carry their tasks' categories. */
  lemma CategoriesDecided(order: seq<TaskKey>, first: map<TaskKey, Row>, second: map<TaskKey, Row>,
                          categories: map<string, Category>, l: seq<Row>, s: seq<Row>)
    requires Indexes(l, first) && Indexes(s, second) && order == TaskKeys(l) && SameTasks(l, s)
    ensures AllInCategory(order, first, second, categories) <==> Categorised(l, categories) && Categorised(s, categories)
  {
    if AllInCategory(order, first, second, categories) {
      CategoriesCovered(l, first, order, first, second, categories);
      CategoriesCovered(s, second, order, first, second, categories);
    } else {
      var j :| 0 <= j < |order| && !InCategory(order[j], first, second, categories);
      NotCategorised(order[j], first, second, categories, l, s);
    }
  }

  predicate InCategory(k: TaskKey, first: map<TaskKey, Row>, second: map<TaskKey, Row>, categories: map<string, Category>) {
    && k in first && k in second && k.taskId in categories
    && first[k].category == categories[k.taskId] && second[k].category == categories[k.taskId]
  }

  lemma NotCategorised(k: TaskKey, first: map<TaskKey, Row>, second: map<TaskKey, Row>,
                       categories: map<string, Category>, l: seq<Row>, s: seq<Row>)
    requires Indexes(l, first) && Indexes(s, second) && SameTasks(l, s) && k in TaskKeys(l)
    requires !InCategory(k, first, second, categories)
    ensures !Categorised(l, categories) || !Categorised(s, categories)
  {
  }

  lemma CategoriesCovered(rows: seq<Row>, indexed: map<TaskKey, Row>, order: seq<TaskKey>,
                          first: map<TaskKey, Row>, second: map<TaskKey, Row>, categories: map<string, Category>)
    requires Indexes(rows, indexed) && (indexed == first || indexed == second)
    requires forall k :: k in TaskKeys(rows) ==> k in order
    requires forall j :: 0 <= j < |order| ==> InCategory(order[j], first, second, categories)
    ensures Categorised(rows, categories)
  {
    forall x | x in rows ensures x.taskId in categories && x.category == categories[x.taskId] {
      assert TaskKeyOf(x) in indexed && TaskKeyOf(x) in TaskKeys(rows);
      var j :| 0 <= j < |order| && order[j] == TaskKeyOf(x);
      assert InCategory(order[j], first, second, categories);
    }
  }

  /** The comparisons between two indexed sides, in the order they run. */
  method ComparePair(order: seq<TaskKey>, first: map<TaskKey, Row>, second: map<TaskKey, Row>,
                     categories: map<string, Category>, ghost l: seq<Row>, ghost s: seq<Row>)
    returns (failure: Option<Error>)
    requires Indexes(l, first) && Indexes(s, second) && order == TaskKeys(l)
    requires SideError(l).None? && SideError(s).None?
    ensures failure == PairError(l, s, categories)
  {
    IndexedValues(l, first);
    IndexedValues(s, second);
    SameKeys(l, s, first, second);
    if first.Keys != second.Keys { return Some(DifferentTasks); }
    BudgetSet(l, first);
    if |BudgetsOf(first)| != 1 { return Some(MixedBudgets); }
    MetricSet(l, s, first, second);
    if |MetricsOf(first, second)| != 1 { return Some(MixedMetrics); }
    CategoriesDecided(order, first, second, categories, l, s);
    var ok := CheckCategories(order, first, second, categories);
    if !ok { return Some(CategoryMismatch); }
    return None;
  }

  /** The alignment as the evaluator runs it: index both sides, compare them, list both in key order. */
  method AlignTaskPairs(left: seq<Row>, right: seq<Row>, categories: map<string, Category>, budget: Option<Budget>)
    returns (r: Result<(seq<Row>, seq<Row>)>)
    ensures r == Aligned(left, right, categories, budget)
  {
    ghost var l, s := Selected(left, budget), Selected(right, budget);
    var failure, order, first := IndexSide(left, budget);
    if failure.Some? { return Err(failure.value); }
    var failure', order', second := IndexSide(right, budget);
    if failure'.Some? { return Err(failure'.value); }
    failure := ComparePair(order, first, second, categories, l, s);
    if failure.Some? { return Err(failure.value); }
    SameSetPermuted(TaskKeys(l), TaskKeys(s));
    TaskKeyOrder();
    SortedPermuted(TaskKeys(l), TaskKeys(s), TaskKeyAtMost);
    var keys := Sorted(order, TaskKeyAtMost);
    var a := InOrder(keys, first, l);
    var b := InOrder(keys, second, s);
    return Ok((a, b));
  }

  lemma SameKeys(l: seq<Row>, s: seq<Row>, first: map<TaskKey, Row>, second: map<TaskKey, Row>)
    requires (forall k :: k in first <==> k in TaskKeys(l)) && forall k :: k in second <==> k in TaskKeys(s)
    ensures first.Keys == second.Keys <==> SameTasks(l, s)
  {
    assert forall k :: k in TaskKeys(l) <==> k in first.Keys;
    assert forall k :: k in TaskKeys(s) <==> k in second.Keys;
  }

  lemma BudgetSet(rows: seq<Row>, indexed: map<TaskKey, Row>)
    requires rows != [] && forall k :: k in indexed <==> k in TaskKeys(rows)
    ensures |BudgetsOf(indexed)| == 1 <==> OneBudget(rows)
  {
    var budgets := BudgetsOf(indexed);
    var b := rows[0].budget;
    assert TaskKeys(rows)[0] in indexed.Keys && b in budgets;
    if OneBudget(rows) {
      forall x | x in budgets ensures x == b {
        var k :| k in indexed.Keys && k.budget == x;
        var i :| 0 <= i < |rows| && TaskKeys(rows)[i] == k;
        assert rows[i] in rows && rows[0] in rows;
      }
      assert budgets == {b};
    }
    if |budgets| == 1 {
      assert |budgets - {b}| == 0 && budgets == {b};
      forall r | r in rows ensures r.budget == b {
        var i :| 0 <= i < |rows| && rows[i] == r;
        assert TaskKeys(rows)[i] in indexed.Keys && r.budget in budgets;
      }
    }
  }

  lemma MetricSet(l: seq<Row>, s: seq<Row>, first: map<TaskKey, Row>, second: map<TaskKey, Row>)
    requires l != [] && (forall r :: r in first.Values <==> r in l) && forall r :: r in second.Values <==> r in s
    ensures |MetricsOf(first, second)| == 1 <==> OneMetric(l + s)
  {
    var names := MetricsOf(first, second);
    var m := l[0].metricName;
    assert l[0] in first.Values && m in names;
    assert forall r :: r in l + s <==> r in first.Values + second.Values;
    if OneMetric(l + s) { assert names == {m}; }
    if |names| == 1 {
      assert |names - {m}| == 0 && names == {m};
      forall r | r in l + s ensures r.metricName == m { assert r.metricName in names; }
    }
  }
}
