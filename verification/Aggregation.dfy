/** Averaging repetitions: one row per task, variant and budget, whatever order the runs arrive in. */
module Aggregation {
  import opened Options
  import opened RealArithmetic
  import opened Sums
  import opened Sorting
  import opened Sequences

  datatype Category = TechnicalSurvey | MethodComparison | MultiHopHistory | Freshness | Bilingual | SourceConflict

  datatype Budget = Low | Medium | High

  /** Exactly one of seed and repeat id is set. */
  datatype Replication = Seed(n: nat) | Repeat(n: nat)

  datatype Metric = Metric(name: string, value: real, version: string)

  datatype SeedRun = SeedRun(
    taskId: string, category: Category, variant: string, budget: Budget,
    replication: Replication, metrics: map<string, Metric>)

  datatype Key = Key(taskId: string, variant: string, budget: Budget)

  datatype Identity = Identity(key: Key, replication: Replication)

  datatype Aggregate = Aggregate(
    taskId: string, category: Category, variant: string, budget: Budget, metricName: string,
    mean: real, observed: seq<real>, runCount: nat)

  datatype Error = EmptyRecords | MissingMetric | MetricNameMismatch | DuplicateIdentity | InconsistentCategory | InconsistentVersion

  datatype Result<T> = Ok(value: T) | Err(error: Error)

  function KeyOf(r: SeedRun): Key {
    Key(r.taskId, r.variant, r.budget)
  }

  function IdentityOf(r: SeedRun): Identity {
    Identity(KeyOf(r), r.replication)
  }

  // ----- The orders the rows and the runs are sorted by -----

  /** The budget literals in string order: high, low, medium. */
  function BudgetRank(b: Budget): nat {
    match b case High => 0 case Low => 1 case Medium => 2
  }

  predicate KeyAtMost(a: Key, b: Key) {
    if a.taskId != b.taskId then StringAtMost(a.taskId, b.taskId)
    else if a.variant != b.variant then StringAtMost(a.variant, b.variant)
    else BudgetRank(a.budget) <= BudgetRank(b.budget)
  }

  /** "repeat" sorts before "seed", then by number. */
  predicate RunAtMost(a: SeedRun, b: SeedRun) {
    (a.replication.Repeat? && b.replication.Seed?)
    || (a.replication.Seed? == b.replication.Seed? && a.replication.n <= b.replication.n)
  }

  lemma KeyOrder()
    ensures TotalPreorder(KeyAtMost)
    ensures forall a, b :: KeyAtMost(a, b) && KeyAtMost(b, a) ==> a == b
  {
    forall a, b ensures KeyAtMost(a, b) || KeyAtMost(b, a) {
      StringTotal(a.taskId, b.taskId);
      StringTotal(a.variant, b.variant);
    }
    forall a, b | KeyAtMost(a, b) && KeyAtMost(b, a) ensures a == b {
      StringTotal(a.taskId, b.taskId);
      StringTotal(a.variant, b.variant);
    }
    forall a, b, c | KeyAtMost(a, b) && KeyAtMost(b, c) ensures KeyAtMost(a, c) {
      KeyTransitive(a, b, c);
    }
  }

  lemma KeyTransitive(a: Key, b: Key, c: Key)
    requires KeyAtMost(a, b) && KeyAtMost(b, c)
    ensures KeyAtMost(a, c)
  {
    StringTotal(a.taskId, b.taskId);
    StringTotal(b.taskId, c.taskId);
    StringTotal(a.variant, b.variant);
    StringTotal(b.variant, c.variant);
    if StringAtMost(a.taskId, b.taskId) && StringAtMost(b.taskId, c.taskId) {
      StringTransitive(a.taskId, b.taskId, c.taskId);
    }
    if StringAtMost(a.variant, b.variant) && StringAtMost(b.variant, c.variant) {
      StringTransitive(a.variant, b.variant, c.variant);
    }
  }

  // ----- What the loop accepts -----

  function Identities(records: seq<SeedRun>): seq<Identity> {
    seq(|records|, i requires 0 <= i < |records| => IdentityOf(records[i]))
  }

  function Keys(records: seq<SeedRun>): seq<Key> {
    seq(|records|, i requires 0 <= i < |records| => KeyOf(records[i]))
  }

  /** The category recorded for a task: that of its first record. */
  function CategoryOf(records: seq<SeedRun>, taskId: string): Option<Category> {
    if records == [] then None
    else if records[0].taskId == taskId then Some(records[0].category)
    else CategoryOf(records[1..], taskId)
  }

  /** Why a record is rejected after the records before it, in the order the checks run. */
  function RecordError(before: seq<SeedRun>, r: SeedRun, metric: string): Option<Error> {
    if metric !in r.metrics then Some(MissingMetric)
    else if r.metrics[metric].name != metric then Some(MetricNameMismatch)
    else if IdentityOf(r) in Identities(before) then Some(DuplicateIdentity)
    else if CategoryOf(before, r.taskId).Some? && CategoryOf(before, r.taskId).value != r.category then Some(InconsistentCategory)
    else None
  }

  function FirstError(records: seq<SeedRun>, metric: string): Option<Error> {
    if records == [] then None
    else
      var init := records[..|records| - 1];
      if FirstError(init, metric).Some? then FirstError(init, metric)
      else RecordError(init, records[|records| - 1], metric)
  }

  predicate HasMetric(r: SeedRun, metric: string) {
    metric in r.metrics && r.metrics[metric].name == metric
  }

  function MetricOf(r: SeedRun, metric: string): Metric
    requires HasMetric(r, metric)
  {
    r.metrics[metric]
  }

  predicate OneVersion(records: seq<SeedRun>, metric: string)
    requires forall r :: r in records ==> HasMetric(r, metric)
  {
    forall r, s :: r in records && s in records ==> MetricOf(r, metric).version == MetricOf(s, metric).version
  }

  predicate OneCategoryPerTask(records: seq<SeedRun>) {
    forall r, s :: r in records && s in records && r.taskId == s.taskId ==> r.category == s.category
  }

  /** The order-free acceptance condition. */
  predicate Acceptable(records: seq<SeedRun>, metric: string) {
    && records != []
    && (forall r :: r in records ==> HasMetric(r, metric))
    && NoDuplicates(Identities(records))
    && OneCategoryPerTask(records)
    && OneVersion(records, metric)
  }

  // ----- The rows -----

  function Group(records: seq<SeedRun>, key: Key): seq<SeedRun> {
    Filter(records, r => KeyOf(r) == key)
  }

  function ValuesOf(runs: seq<SeedRun>, metric: string): seq<real>
    requires forall r :: r in runs ==> HasMetric(r, metric)
  {
    seq(|runs|, i requires 0 <= i < |runs| => MetricOf(runs[i], metric).value)
  }

  /** The mean is accumulated as a sum of v / n. */
  function MeanOf(values: seq<real>): real {
    if values == [] then 0.0 else SumBy(values, v => v / |values| as real)
  }

  lemma RunsOf(records: seq<SeedRun>, key: Key)
    ensures forall r :: r in Sorted(Group(records, key), RunAtMost) <==> r in records && KeyOf(r) == key
    ensures |Sorted(Group(records, key), RunAtMost)| == Count(records, r => KeyOf(r) == key)
  {
    FilterMembers(records, r => KeyOf(r) == key);
    SortedSpec(Group(records, key), RunAtMost);
    SameElements(Group(records, key), Sorted(Group(records, key), RunAtMost));
  }

  function RowOf(records: seq<SeedRun>, key: Key, metric: string): Aggregate
    requires forall r :: r in records ==> HasMetric(r, metric)
    requires CategoryOf(records, key.taskId).Some?
  {
    RunsOf(records, key);
    var values := ValuesOf(Sorted(Group(records, key), RunAtMost), metric);
    Aggregate(key.taskId, CategoryOf(records, key.taskId).value, key.variant, key.budget, metric,
      MeanOf(values), values, |values|)
  }

  lemma {:induction false} CategoryFound(records: seq<SeedRun>, taskId: string)
    ensures CategoryOf(records, taskId).Some? <==> exists r :: r in records && r.taskId == taskId
    ensures CategoryOf(records, taskId).Some? ==>
      exists r :: r in records && r.taskId == taskId && r.category == CategoryOf(records, taskId).value
  {
    if records != [] {
      CategoryFound(records[1..], taskId);
      assert records[0] in records;
    }
  }

  lemma KeyHasCategory(records: seq<SeedRun>, key: Key)
    requires key in Keys(records)
    ensures CategoryOf(records, key.taskId).Some?
  {
    var i :| 0 <= i < |records| && Keys(records)[i] == key;
    assert records[i] in records;
    CategoryFound(records, key.taskId);
  }

  function SortedKeys(records: seq<SeedRun>): (keys: seq<Key>)
    ensures NoDuplicates(keys) && forall k :: k in keys <==> k in Keys(records)
    ensures Ordered(keys, KeyAtMost) && multiset(keys) == multiset(Distinct(Keys(records)))
  {
    KeyOrder();
    DistinctSpec(Keys(records));
    SortedSpec(Distinct(Keys(records)), KeyAtMost);
    SortedNoDuplicates(Distinct(Keys(records)), KeyAtMost);
    SameElements(Distinct(Keys(records)), Sorted(Distinct(Keys(records)), KeyAtMost));
    Sorted(Distinct(Keys(records)), KeyAtMost)
  }

  function RowsFor(records: seq<SeedRun>, keys: seq<Key>, metric: string): seq<Aggregate>
    requires forall r :: r in records ==> HasMetric(r, metric)
    requires forall k :: k in keys ==> k in Keys(records)
  {
    if keys == [] then []
    else
      KeyHasCategory(records, keys[0]);
      [RowOf(records, keys[0], metric)] + RowsFor(records, keys[1..], metric)
  }

  function Aggregated(records: seq<SeedRun>, metric: string): Result<seq<Aggregate>> {
    if records == [] then Err(EmptyRecords)
    else if FirstError(records, metric).Some? then Err(FirstError(records, metric).value)
    else
      NoErrorMeans(records, metric);
      if !OneVersion(records, metric) then Err(InconsistentVersion)
      else Ok(RowsFor(records, SortedKeys(records), metric))
  }

  lemma IdentitiesSnoc(init: seq<SeedRun>, last: SeedRun)
    ensures NoDuplicates(Identities(init + [last])) <==> NoDuplicates(Identities(init)) && IdentityOf(last) !in Identities(init)
  {
    var a, b := Identities(init), Identities(init + [last]);
    assert b == a + [IdentityOf(last)];
    if NoDuplicates(b) {
      forall i | 0 <= i < |a| ensures a[i] != IdentityOf(last) { assert b[i] != b[|a|]; }
      forall i, j | 0 <= i < j < |a| ensures a[i] != a[j] { assert b[i] != b[j]; }
    }
  }

  lemma CategorySnoc(init: seq<SeedRun>, last: SeedRun)
    ensures OneCategoryPerTask(init + [last]) <==>
      OneCategoryPerTask(init) && (CategoryOf(init, last.taskId).Some? ==> CategoryOf(init, last.taskId).value == last.category)
  {
    CategoryFound(init, last.taskId);
    assert forall r :: r in init + [last] <==> r in init || r == last;
    if CategoryOf(init, last.taskId).Some? {
      var r :| r in init && r.taskId == last.taskId && r.category == CategoryOf(init, last.taskId).value;
      assert r in init + [last] && last in init + [last];
      if OneCategoryPerTask(init) && r.category == last.category {
      }
    }
  }

  /** No record is rejected exactly when the order-free conditions hold. */
  lemma {:induction false} NoErrorMeans(records: seq<SeedRun>, metric: string)
    ensures FirstError(records, metric).None? <==>
      (forall r :: r in records ==> HasMetric(r, metric)) && NoDuplicates(Identities(records)) && OneCategoryPerTask(records)
  {
    if records != [] {
      var init, last := records[..|records| - 1], records[|records| - 1];
      NoErrorMeans(init, metric);
      assert records == init + [last];
      assert forall r :: r in records <==> r in init || r == last;
      assert FirstError(records, metric) ==
        if FirstError(init, metric).Some? then FirstError(init, metric) else RecordError(init, last, metric);
      IdentitiesSnoc(init, last);
      CategorySnoc(init, last);
      assert (forall r :: r in records ==> HasMetric(r, metric)) <==>
        (forall r :: r in init ==> HasMetric(r, metric)) && HasMetric(last, metric);
    }
  }

  /** Acceptance is the order-free condition. */
  lemma AcceptedExactly(records: seq<SeedRun>, metric: string)
    ensures Aggregated(records, metric).Ok? <==> Acceptable(records, metric)
  {
    NoErrorMeans(records, metric);
  }

  // ----- Order independence -----

  /** Runs of one key with distinct identities never tie. */
  lemma GroupAntisymmetric(records: seq<SeedRun>, key: Key)
    requires NoDuplicates(Identities(records))
    ensures Antisymmetric(Group(records, key), RunAtMost)
  {
    FilterMembers(records, r => KeyOf(r) == key);
    forall a, b | a in Group(records, key) && b in Group(records, key) && RunAtMost(a, b) && RunAtMost(b, a) ensures a == b {
      assert IdentityOf(a) == IdentityOf(b);
      var i, j :| 0 <= i < |records| && 0 <= j < |records| && records[i] == a && records[j] == b;
      assert Identities(records)[i] == Identities(records)[j];
    }
  }

  lemma CategoryPermuted(a: seq<SeedRun>, b: seq<SeedRun>, taskId: string)
    requires multiset(a) == multiset(b) && OneCategoryPerTask(a)
    ensures CategoryOf(a, taskId) == CategoryOf(b, taskId)
  {
    SameElements(a, b);
    CategoryFound(a, taskId);
    CategoryFound(b, taskId);
  }

  lemma AcceptablePermuted(a: seq<SeedRun>, b: seq<SeedRun>, metric: string)
    requires multiset(a) == multiset(b) && Acceptable(a, metric)
    ensures Acceptable(b, metric)
  {
    SameElements(a, b);
    ImagePermuted(a, b, IdentityOf, Identities(a), Identities(b));
    NoDuplicatesPermuted(Identities(a), Identities(b));
  }

  lemma SortedKeysPermuted(a: seq<SeedRun>, b: seq<SeedRun>)
    requires multiset(a) == multiset(b)
    ensures SortedKeys(a) == SortedKeys(b)
  {
    KeyOrder();
    ImagePermuted(a, b, KeyOf, Keys(a), Keys(b));
    DistinctPermuted(Keys(a), Keys(b));
    OrderedUnique(SortedKeys(a), SortedKeys(b), KeyAtMost);
  }

  lemma RowPermuted(a: seq<SeedRun>, b: seq<SeedRun>, key: Key, metric: string)
    requires multiset(a) == multiset(b) && Acceptable(a, metric) && Acceptable(b, metric)
    requires CategoryOf(a, key.taskId).Some? && CategoryOf(b, key.taskId).Some?
    ensures RowOf(a, key, metric) == RowOf(b, key, metric)
  {
    CategoryPermuted(a, b, key.taskId);
    FilterPermuted(a, b, r => KeyOf(r) == key);
    GroupAntisymmetric(a, key);
    SortedPermuted(Group(a, key), Group(b, key), RunAtMost);
  }

  lemma {:induction false} RowsPermuted(a: seq<SeedRun>, b: seq<SeedRun>, keys: seq<Key>, metric: string)
    requires multiset(a) == multiset(b) && Acceptable(a, metric) && Acceptable(b, metric)
    requires forall k :: k in keys ==> k in Keys(a) && k in Keys(b)
    ensures RowsFor(a, keys, metric) == RowsFor(b, keys, metric)
  {
    if keys != [] {
      KeyHasCategory(a, keys[0]);
      KeyHasCategory(b, keys[0]);
      RowPermuted(a, b, keys[0], metric);
      RowsPermuted(a, b, keys[1..], metric);
    }
  }

  /** Permuting the records changes neither acceptance nor the rows. */
  lemma OrderIrrelevant(a: seq<SeedRun>, b: seq<SeedRun>, metric: string)
    requires multiset(a) == multiset(b)
    ensures Aggregated(a, metric).Ok? <==> Aggregated(b, metric).Ok?
    ensures Aggregated(a, metric).Ok? ==> Aggregated(a, metric) == Aggregated(b, metric)
  {
    AcceptedExactly(a, metric);
    AcceptedExactly(b, metric);
    if Acceptable(a, metric) {
      AcceptablePermuted(a, b, metric);
      SortedKeysPermuted(a, b);
      RowsPermuted(a, b, SortedKeys(a), metric);
    } else if Acceptable(b, metric) {
      AcceptablePermuted(b, a, metric);
    }
  }

  // ----- Shape of the rows -----

  function RowKey(row: Aggregate): Key {
    Key(row.taskId, row.variant, row.budget)
  }

  function TotalRuns(rows: seq<Aggregate>): nat {
    if rows == [] then 0 else rows[0].runCount + TotalRuns(rows[1..])
  }

  lemma {:induction false} RowsIndexed(records: seq<SeedRun>, keys: seq<Key>, metric: string)
    requires forall r :: r in records ==> HasMetric(r, metric)
    requires forall k :: k in keys ==> k in Keys(records)
    ensures |RowsFor(records, keys, metric)| == |keys|
    ensures forall i :: 0 <= i < |keys| ==>
      CategoryOf(records, keys[i].taskId).Some? && RowsFor(records, keys, metric)[i] == RowOf(records, keys[i], metric)
  {
    if keys != [] {
      KeyHasCategory(records, keys[0]);
      RowsIndexed(records, keys[1..], metric);
      forall i | 0 < i < |keys| ensures CategoryOf(records, keys[i].taskId).Some?
          && RowsFor(records, keys, metric)[i] == RowOf(records, keys[i], metric)
      {
        assert keys[i] == keys[1..][i - 1];
      }
    }
  }

  /** The groups of distinct keys partition the records. */
  lemma {:induction false} GroupSizes(records: seq<SeedRun>, keys: seq<Key>, size: Key -> nat)
    requires NoDuplicates(keys) && forall i :: 0 <= i < |records| ==> KeyOf(records[i]) in keys
    requires forall k :: size(k) == Count(records, r => KeyOf(r) == k)
    ensures SumBy(keys, k => size(k) as real) == |records| as real
  {
    if records == [] {
      SumConstant(keys, 0.0, k => size(k) as real);
    } else {
      var rest, first := records[1..], KeyOf(records[0]);
      var size': Key -> nat := k => Count(rest, r => KeyOf(r) == k);
      assert forall i :: 0 <= i < |rest| ==> rest[i] == records[i + 1];
      GroupSizes(rest, keys, size');
      var one := k => if k == first then 1.0 else 0.0;
      SumAdd(keys, k => size'(k) as real, one, k => size(k) as real);
      IndicatorSum(keys, first, one);
    }
  }

  lemma {:induction false} TotalRunsIsSum(rows: seq<Aggregate>, keys: seq<Key>, size: Key -> nat)
    requires |rows| == |keys| && forall i :: 0 <= i < |rows| ==> rows[i].runCount == size(keys[i])
    ensures TotalRuns(rows) as real == SumBy(keys, k => size(k) as real)
  {
    if rows != [] {
      assert forall i :: 0 <= i < |rows| - 1 ==> rows[1..][i] == rows[i + 1] && keys[1..][i] == keys[i + 1];
      TotalRunsIsSum(rows[1..], keys[1..], size);
    }
  }

  /** Each row carries its key and exactly as many values as the key has runs. */
  lemma RowFacts(records: seq<SeedRun>, key: Key, metric: string)
    requires (forall r :: r in records ==> HasMetric(r, metric)) && CategoryOf(records, key.taskId).Some?
    ensures var row := RowOf(records, key, metric);
      RowKey(row) == key && row.runCount == |row.observed| == |Group(records, key)| == Count(records, r => KeyOf(r) == key)
  {
    RunsOf(records, key);
    FilterMembers(records, r => KeyOf(r) == key);
  }

  function RowKeys(rows: seq<Aggregate>): seq<Key> {
    seq(|rows|, i requires 0 <= i < |rows| => RowKey(rows[i]))
  }

  /** The rows' keys are the keys that occur, each once and in strictly increasing order;
      each row holds one value per run of its key. */
  lemma RowsShape(records: seq<SeedRun>, metric: string)
    requires Aggregated(records, metric).Ok?
    ensures var keys := RowKeys(Aggregated(records, metric).value);
      NoDuplicates(keys) && Ordered(keys, KeyAtMost) && forall k :: k in keys <==> k in Keys(records)
    ensures forall i :: 0 <= i < |Aggregated(records, metric).value| ==>
      var row := Aggregated(records, metric).value[i];
      row.runCount == |row.observed| == |Group(records, RowKey(row))|
  {
    AcceptedExactly(records, metric);
    var keys := SortedKeys(records);
    var rows := RowsFor(records, keys, metric);
    RowsIndexed(records, keys, metric);
    forall i | 0 <= i < |rows|
      ensures RowKey(rows[i]) == keys[i] && rows[i].runCount == |rows[i].observed| == |Group(records, RowKey(rows[i]))|
    {
      RowFacts(records, keys[i], metric);
    }
    assert RowKeys(rows) == keys;
  }

  function ValueIn(metric: string): SeedRun -> real {
    (r: SeedRun) => if metric in r.metrics then r.metrics[metric].value else 0.0
  }

  lemma MeanOfTimes(values: seq<real>)
    requires values != []
    ensures Product(|values| as real, MeanOf(values)) == SumBy(values, v => v)
  {
    var n := |values| as real;
    forall v | v in values ensures v == Product(n, v / n) { ShareTimes(v, n); }
    SumScale(values, n, v => v / n, v => v);
  }

  lemma ShareTimes(v: real, n: real)
    requires n > 0.0
    ensures Product(n, v / n) == v
  {
    QuotientSign(v, n);
    ProductCommutes(n, v / n);
  }

  lemma GroupListed(records: seq<SeedRun>, key: Key, runs: seq<SeedRun>)
    requires NoDuplicates(Identities(records)) && Ordered(runs, RunAtMost)
    requires forall r :: multiset(runs)[r] == if KeyOf(r) == key then multiset(records)[r] else 0
    ensures Sorted(Group(records, key), RunAtMost) == runs
  {
    forall r ensures multiset(Group(records, key))[r] == multiset(runs)[r] {
      FilterMultiplicity(records, r => KeyOf(r) == key, r);
    }
    assert multiset(Group(records, key)) == multiset(runs);
    SortedSpec(Group(records, key), RunAtMost);
    GroupAntisymmetric(records, key);
    OrderedUnique(Sorted(Group(records, key), RunAtMost), runs, RunAtMost);
  }

  /** Numbered repeats come first, then numbered seeds. */
  predicate ByNumber(runs: seq<SeedRun>) {
    forall i, j :: 0 <= i < j < |runs| ==>
      var a, b := runs[i].replication, runs[j].replication;
      (a.Repeat? || b.Seed?) && (a.Repeat? == b.Repeat? ==> a.n <= b.n)
  }

  /** A row lists the metric's values of exactly its key's runs, repeats first and by number; the count times the mean is
      their sum; and its category is that of every record of its task. */
  lemma RowValues(records: seq<SeedRun>, metric: string, i: nat, runs: seq<SeedRun>)
    requires Aggregated(records, metric).Ok? && i < |Aggregated(records, metric).value| && ByNumber(runs)
    requires var row := Aggregated(records, metric).value[i];
      forall r :: multiset(runs)[r] ==
        if r.taskId == row.taskId && r.variant == row.variant && r.budget == row.budget then multiset(records)[r] else 0
    ensures var row := Aggregated(records, metric).value[i];
      && row.metricName == metric && row.runCount == |row.observed| == |runs| >= 1
      && (forall j :: 0 <= j < |runs| ==> row.observed[j] == ValueIn(metric)(runs[j]))
      && Product(|runs| as real, row.mean) == SumBy(runs, ValueIn(metric))
      && forall r :: r in records && r.taskId == row.taskId ==> r.category == row.category
  {
    AcceptedExactly(records, metric);
    var keys := SortedKeys(records);
    RowsIndexed(records, keys, metric);
    var key := keys[i];
    assert Aggregated(records, metric).value[i] == RowOf(records, key, metric);
    assert forall r: SeedRun :: KeyOf(r) == key <==> r.taskId == key.taskId && r.variant == key.variant && r.budget == key.budget;
    RowListed(records, key, metric, runs);
    CategoryFound(records, key.taskId);
  }

  lemma RowListed(records: seq<SeedRun>, key: Key, metric: string, runs: seq<SeedRun>)
    requires (forall r :: r in records ==> HasMetric(r, metric)) && NoDuplicates(Identities(records)) && key in Keys(records)
    requires CategoryOf(records, key.taskId).Some? && ByNumber(runs)
    requires forall r :: multiset(runs)[r] == if KeyOf(r) == key then multiset(records)[r] else 0
    ensures var row := RowOf(records, key, metric);
      && row.runCount == |row.observed| == |runs| >= 1
      && (forall j :: 0 <= j < |runs| ==> row.observed[j] == ValueIn(metric)(runs[j]))
      && Product(|runs| as real, row.mean) == SumBy(runs, ValueIn(metric))
  {
    GroupListed(records, key, runs);
    RunsOf(records, key);
    KeyOccurs(records, key, runs);
    var values := ValuesOf(runs, metric);
    MeanOfTimes(values);
    SumReindex(values, runs, v => v, ValueIn(metric));
  }

  lemma KeyOccurs(records: seq<SeedRun>, key: Key, runs: seq<SeedRun>)
    requires key in Keys(records) && forall r :: r in runs <==> r in records && KeyOf(r) == key
    ensures runs != []
  {
    var i :| 0 <= i < |records| && Keys(records)[i] == key;
    assert records[i] in runs;
  }

  /** No run is lost or counted twice: the run counts add up to the number of records. */
  lemma RunsConserved(records: seq<SeedRun>, metric: string)
    requires Aggregated(records, metric).Ok?
    ensures TotalRuns(Aggregated(records, metric).value) == |records|
  {
    AcceptedExactly(records, metric);
    var keys := SortedKeys(records);
    RowsIndexed(records, keys, metric);
    var size: Key -> nat := k => Count(records, r => KeyOf(r) == k);
    forall i | 0 <= i < |keys| ensures RowsFor(records, keys, metric)[i].runCount == size(keys[i]) {
      RowFacts(records, keys[i], metric);
    }
    forall i | 0 <= i < |records| ensures KeyOf(records[i]) in keys { assert Keys(records)[i] in Keys(records); }
    GroupSizes(records, keys, size);
    TotalRunsIsSum(RowsFor(records, keys, metric), keys, size);
  }

  // ----- The loop -----

  // What the loop's tables hold after the records seen so far.

  ghost predicate GroupTable(seen: seq<SeedRun>, order: seq<Key>, groups: map<Key, seq<SeedRun>>) {
    && order == Distinct(Keys(seen))
    && (forall k :: k in groups <==> k in order)
    && (forall k :: k in groups ==> groups[k] == Group(seen, k))
  }

  ghost predicate IdentityTable(seen: seq<SeedRun>, identities: set<Identity>) {
    forall x :: x in identities <==> x in Identities(seen)
  }

  ghost predicate CategoryTable(seen: seq<SeedRun>, categories: map<string, Category>) {
    && (forall t :: t in categories <==> CategoryOf(seen, t).Some?)
    && (forall t :: t in categories ==> categories[t] == CategoryOf(seen, t).value)
  }

  ghost predicate VersionTable(seen: seq<SeedRun>, metric: string, versions: set<string>) {
    && (forall r :: r in seen ==> HasMetric(r, metric) && MetricOf(r, metric).version in versions)
    && (forall v :: v in versions ==> exists r :: r in seen && HasMetric(r, metric) && MetricOf(r, metric).version == v)
  }

  lemma {:induction false} CategoryAppend(seen: seq<SeedRun>, r: SeedRun, t: string)
    ensures CategoryOf(seen + [r], t) ==
      if CategoryOf(seen, t).Some? then CategoryOf(seen, t) else if r.taskId == t then Some(r.category) else None
  {
    if seen == [] {
      assert [] + [r] == [r];
      assert CategoryOf([r][1..], t) == None;
    } else {
      assert (seen + [r])[1..] == seen[1..] + [r];
      CategoryAppend(seen[1..], r, t);
    }
  }

  lemma NewKeyHasNoGroup(seen: seq<SeedRun>, key: Key)
    requires key !in Keys(seen)
    ensures Group(seen, key) == []
  {
    FilterMembers(seen, x => KeyOf(x) == key);
    forall x | x in seen ensures KeyOf(x) != key {
      var i :| 0 <= i < |seen| && seen[i] == x;
      assert Keys(seen)[i] in Keys(seen);
    }
    CountNone(seen, x => KeyOf(x) == key);
  }

  lemma GroupStep(seen: seq<SeedRun>, r: SeedRun, order: seq<Key>, groups: map<Key, seq<SeedRun>>)
    requires GroupTable(seen, order, groups)
    ensures var key := KeyOf(r);
      GroupTable(seen + [r], if key in groups then order else order + [key],
        groups[key := (if key in groups then groups[key] else []) + [r]])
  {
    var key := KeyOf(r);
    var groups' := groups[key := (if key in groups then groups[key] else []) + [r]];
    assert Keys(seen + [r]) == Keys(seen) + [key];
    DistinctSpec(Keys(seen));
    DistinctSnoc(Keys(seen), key);
    if key !in groups { NewKeyHasNoGroup(seen, key); }
    forall k | k in groups' ensures groups'[k] == Group(seen + [r], k) { GroupAppend(seen, r, k); }
  }

  lemma GroupAppend(seen: seq<SeedRun>, r: SeedRun, k: Key)
    ensures Group(seen + [r], k) == if KeyOf(r) == k then Group(seen, k) + [r] else Group(seen, k)
  {
    FilterSnoc(seen, r, x => KeyOf(x) == k);
  }

  lemma CategoryStep(seen: seq<SeedRun>, r: SeedRun, categories: map<string, Category>)
    requires CategoryTable(seen, categories)
    ensures CategoryTable(seen + [r], if r.taskId in categories then categories else categories[r.taskId := r.category])
  {
    forall t ensures CategoryOf(seen + [r], t) ==
        if CategoryOf(seen, t).Some? then CategoryOf(seen, t) else if r.taskId == t then Some(r.category) else None
    {
      CategoryAppend(seen, r, t);
    }
  }

  lemma IdentityStep(seen: seq<SeedRun>, r: SeedRun, identities: set<Identity>)
    requires IdentityTable(seen, identities)
    ensures IdentityTable(seen + [r], identities + {IdentityOf(r)})
  {
    assert Identities(seen + [r]) == Identities(seen) + [IdentityOf(r)];
  }

  lemma VersionStep(seen: seq<SeedRun>, r: SeedRun, metric: string, versions: set<string>)
    requires VersionTable(seen, metric, versions) && HasMetric(r, metric)
    ensures VersionTable(seen + [r], metric, versions + {MetricOf(r, metric).version})
  {
    assert forall x :: x in seen + [r] <==> x in seen || x == r;
  }

  lemma ErrorStep(records: seq<SeedRun>, metric: string, i: nat)
    requires i < |records| && FirstError(records[..i], metric).None?
    ensures FirstError(records[..i + 1], metric) == RecordError(records[..i], records[i], metric)
    ensures RecordError(records[..i], records[i], metric).Some? ==>
      FirstError(records, metric) == RecordError(records[..i], records[i], metric)
  {
    assert records[..i + 1][..i] == records[..i];
    if RecordError(records[..i], records[i], metric).Some? { FirstErrorPrefix(records, metric, i + 1); }
  }

  /** The pass over the records: reject the first bad one, or return the filled tables. */
  method Tabulate(records: seq<SeedRun>, metric: string)
    returns (failure: Option<Error>, order: seq<Key>, groups: map<Key, seq<SeedRun>>,
             categories: map<string, Category>, versions: set<string>)
    ensures failure == FirstError(records, metric)
    ensures failure.None? ==>
      GroupTable(records, order, groups) && CategoryTable(records, categories) && VersionTable(records, metric, versions)
  {
    order, groups, categories, versions := [], map[], map[], {};
    var identities: set<Identity> := {};
    for i := 0 to |records|
      invariant FirstError(records[..i], metric).None?
      invariant GroupTable(records[..i], order, groups) && IdentityTable(records[..i], identities)
      invariant CategoryTable(records[..i], categories) && VersionTable(records[..i], metric, versions)
    {
      var record := records[i];
      ErrorStep(records, metric, i);
      if metric !in record.metrics { return Some(MissingMetric), order, groups, categories, versions; }
      if record.metrics[metric].name != metric { return Some(MetricNameMismatch), order, groups, categories, versions; }
      var key := KeyOf(record);
      if IdentityOf(record) in identities { return Some(DuplicateIdentity), order, groups, categories, versions; }
      if record.taskId in categories && categories[record.taskId] != record.category {
        return Some(InconsistentCategory), order, groups, categories, versions;
      }
      GroupStep(records[..i], record, order, groups);
      CategoryStep(records[..i], record, categories);
      VersionStep(records[..i], record, metric, versions);
      IdentityStep(records[..i], record, identities);
      assert records[..i + 1] == records[..i] + [record];
      order := if key in groups then order else order + [key];
      groups := groups[key := (if key in groups then groups[key] else []) + [record]];
      identities := identities + {IdentityOf(record)};
      categories := if record.taskId in categories then categories else categories[record.taskId := record.category];
      versions := versions + {record.metrics[metric].version};
    }
    assert records[..|records|] == records;
    failure := None;
  }

  /** The aggregation as the evaluator runs it: one pass filling the tables, then the groups in key order. */
  method AggregateSeeds(records: seq<SeedRun>, metric: string) returns (r: Result<seq<Aggregate>>)
    ensures r == Aggregated(records, metric)
  {
    if records == [] { return Err(EmptyRecords); }
    var failure, order, groups, categories, versions := Tabulate(records, metric);
    if failure.Some? { return Err(failure.value); }
    SingleVersion(records, metric, versions);
    if |versions| != 1 { return Err(InconsistentVersion); }
    var keys := Sorted(order, KeyAtMost);
    assert keys == SortedKeys(records);
    forall k | k in keys ensures k in Keys(records) && k in order {
      assert k in SortedKeys(records);
      DistinctSpec(Keys(records));
    }
    var rows := BuildRows(records, keys, metric, groups, categories);
    return Ok(rows);
  }

  /** The groups in the given key order, each averaged. */
  method BuildRows(ghost records: seq<SeedRun>, keys: seq<Key>, metric: string,
                   groups: map<Key, seq<SeedRun>>, categories: map<string, Category>)
    returns (rows: seq<Aggregate>)
    requires forall r :: r in records ==> HasMetric(r, metric)
    requires forall k :: k in keys ==> k in Keys(records) && k in groups && groups[k] == Group(records, k)
    requires CategoryTable(records, categories)
    ensures rows == RowsFor(records, keys, metric)
  {
    rows := [];
    for i := 0 to |keys|
      invariant rows == RowsFor(records, keys[..i], metric)
    {
      var key := keys[i];
      assert key in keys;
      RowsSnoc(records, keys[..i], key, metric);
      assert keys[..i + 1] == keys[..i] + [key];
      var row := BuildRow(records, key, metric, groups[key], categories);
      rows := rows + [row];
    }
    assert keys[..|keys|] == keys;
  }

  /** One group, in replication order, averaged. */
  method BuildRow(ghost records: seq<SeedRun>, key: Key, metric: string, group: seq<SeedRun>, categories: map<string, Category>)
    returns (row: Aggregate)
    requires forall r :: r in records ==> HasMetric(r, metric)
    requires CategoryOf(records, key.taskId).Some? && group == Group(records, key) && CategoryTable(records, categories)
    ensures row == RowOf(records, key, metric)
  {
    RunsOf(records, key);
    var values := ValuesOf(Sorted(group, RunAtMost), metric);
    return Aggregate(key.taskId, categories[key.taskId], key.variant, key.budget, metric, MeanOf(values), values, |values|);
  }

  /** An error found in a prefix is the error of the whole list. */
  lemma {:induction false} FirstErrorPrefix(records: seq<SeedRun>, metric: string, n: nat)
    requires n <= |records| && FirstError(records[..n], metric).Some?
    ensures FirstError(records, metric) == FirstError(records[..n], metric)
    decreases |records|
  {
    if n == |records| {
      assert records[..n] == records;
    } else {
      assert records[..|records| - 1][..n] == records[..n];
      FirstErrorPrefix(records[..|records| - 1], metric, n);
    }
  }

  lemma {:induction false} RowsSnoc(records: seq<SeedRun>, keys: seq<Key>, key: Key, metric: string)
    requires forall r :: r in records ==> HasMetric(r, metric)
    requires key in Keys(records) && forall k :: k in keys ==> k in Keys(records)
    ensures CategoryOf(records, key.taskId).Some?
    ensures RowsFor(records, keys + [key], metric) == RowsFor(records, keys, metric) + [RowOf(records, key, metric)]
  {
    KeyHasCategory(records, key);
    if keys == [] {
      assert [] + [key] == [key];
      assert RowsFor(records, [key][1..], metric) == [];
    } else {
      assert (keys + [key])[1..] == keys[1..] + [key];
      KeyHasCategory(records, keys[0]);
      RowsSnoc(records, keys[1..], key, metric);
    }
  }

  lemma SingleVersion(records: seq<SeedRun>, metric: string, versions: set<string>)
    requires records != [] && forall r :: r in records ==> HasMetric(r, metric)
    requires forall r :: r in records ==> MetricOf(r, metric).version in versions
    requires forall v :: v in versions ==> exists r :: r in records && MetricOf(r, metric).version == v
    ensures |versions| == 1 <==> OneVersion(records, metric)
  {
    var v := MetricOf(records[0], metric).version;
    assert records[0] in records && v in versions;
    if OneVersion(records, metric) {
      assert versions == {v};
    }
    if |versions| == 1 {
      assert |versions - {v}| == 0;
      assert versions == {v};
    }
  }
}
