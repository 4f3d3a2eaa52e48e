/** The date / label / working-hour filter that every chart callback runs
    before plotting: the date picker's two bounds, the label checklist and
    the working-hour-group dropdown turned into a subset of the table. */
module Filter {
  import opened Wrappers
  import opened StrOrder
  import opened Records
  import opened Frames

  /** A selector's value as Dash delivers it: a single string or a list. */
  datatype Selector = One(value: string) | Many(values: seq<string>)

  /** The working-hour-group option that switches the step off. */
  const AllGroups: string := "all"

  /** With neither date bound set, `filtered_df` is read before it is ever
      assigned and the callback raises instead of drawing. */
  datatype FilterError = NoDateBound

  /** The selector values one callback receives. */
  datatype Query = Query(
    startDate: Option<string>,
    endDate: Option<string>,
    labels: Selector,
    hourGroups: Selector)

  /** Python truthiness of a date bound: `None` and `''` are false. */
  predicate Truthy(bound: Option<string>)
  {
    bound.Some? && bound.value != ""
  }

  /** `v` is one of the values the selector chose. */
  predicate SelectedBy(s: Selector, v: string)
  {
    match s
    case One(only) => v == only
    case Many(values) => v in values
  }

  /** The date a row must carry: equal to the single bound that is set, or
      between both bounds inclusive. */
  predicate DateMatches(startDate: Option<string>, endDate: Option<string>, day: string)
  {
    if Truthy(startDate) && Truthy(endDate) then
      LexLe(startDate.value, day) && LexLe(day, endDate.value)
    else if Truthy(startDate) then day == startDate.value
    else if Truthy(endDate) then day == endDate.value
    else false
  }

  /** The rows a query keeps, judged one row at a time. */
  predicate Admits(q: Query, hourStep: bool, r: Record)
  {
    && DateMatches(q.startDate, q.endDate, r.date)
    && SelectedBy(q.labels, r.labels)
    && (!hourStep || SelectedBy(q.hourGroups, AllGroups) || SelectedBy(q.hourGroups, r.workingHourGroup))
  }

  /** `if type(v) == str: v = [v]` */
  function Promote(s: Selector): (values: seq<string>)
    ensures forall v :: v in values <==> SelectedBy(s, v)
  {
    match s
    case One(only) => [only]
    case Many(values) => values
  }

  /** The three date assignments in source order: each one that runs
      replaces the subset built by the ones before it. */
  function DateStep(t: seq<Record>, startDate: Option<string>, endDate: Option<string>)
    : (r: Result<seq<Record>, FilterError>)
    ensures r.Failure? <==> !Truthy(startDate) && !Truthy(endDate)
    ensures r.Success? ==> forall x :: x in r.value <==> x in t && DateMatches(startDate, endDate, x.date)
    ensures r.Success? ==> IsSubsequence(r.value, t)
  {
    var unbound: Result<seq<Record>, FilterError> := Failure(NoDateBound);
    var afterStart := if Truthy(startDate) then Success(Where(t, DateEq(startDate.value))) else unbound;
    var afterEnd := if Truthy(endDate) then Success(Where(t, DateEq(endDate.value))) else afterStart;
    if Truthy(startDate) && Truthy(endDate) then
      Success(Where(t, DateIn(startDate.value, endDate.value)))
    else afterEnd
  }

  /** Every row on a matching date is kept as often as it occurs in the
      table, every other row not at all. */
  lemma DateStepCounts(t: seq<Record>, startDate: Option<string>, endDate: Option<string>)
    requires Truthy(startDate) || Truthy(endDate)
    ensures forall x :: (multiset(DateStep(t, startDate, endDate).value)[x]
      == if DateMatches(startDate, endDate, x.date) then multiset(t)[x] else 0)
  {
    assert DateStep(t, startDate, endDate) == Success(Where(t, DateCond(startDate, endDate)));
    WhereCounts(t, DateCond(startDate, endDate));
  }

  /** The shared filter of `update_box_plot`, `update_sunburst_plot`,
      `update_scatter_plot`, `update_polar_plot` and `update_hist_plot`
      (`hourStep` true) and of `update_heatmap_plot` (`hourStep` false). */
  function ApplyFilter(t: seq<Record>, q: Query, hourStep: bool): (r: Result<seq<Record>, FilterError>)
    ensures r.Failure? <==> !Truthy(q.startDate) && !Truthy(q.endDate)
    ensures r.Success? ==> forall x :: x in r.value <==> x in t && Admits(q, hourStep, x)
  {
    var dated := DateStep(t, q.startDate, q.endDate);
    if dated.Failure? then Failure(dated.error)
    else
      var byLabel := Where(dated.value, LabelIn(Promote(q.labels)));
      if !hourStep then Success(byLabel)
      else
        var groups := Promote(q.hourGroups);
        if AllGroups !in groups then Success(Where(byLabel, HourGroupIn(groups)))
        else Success(byLabel)
  }

  /** The date step as one row condition. */
  function DateCond(startDate: Option<string>, endDate: Option<string>): Cond
  {
    if Truthy(startDate) && Truthy(endDate) then DateIn(startDate.value, endDate.value)
    else if Truthy(startDate) then DateEq(startDate.value)
    else if Truthy(endDate) then DateEq(endDate.value)
    else Always
  }

  /** The working-hour step as one row condition. */
  function HourCond(q: Query, hourStep: bool): Cond
  {
    var groups := Promote(q.hourGroups);
    if !hourStep || AllGroups in groups then Always else HourGroupIn(groups)
  }

  /** The whole filter as one row condition. */
  function QueryCond(q: Query, hourStep: bool): Cond
  {
    And(And(DateCond(q.startDate, q.endDate), LabelIn(Promote(q.labels))), HourCond(q, hourStep))
  }

  /** The three steps select exactly what one pass with their conjunction
      selects. */
  lemma FilterIsOnePass(t: seq<Record>, q: Query, hourStep: bool)
    requires Truthy(q.startDate) || Truthy(q.endDate)
    ensures ApplyFilter(t, q, hourStep) == Success(Where(t, QueryCond(q, hourStep)))
  {
    var d := DateCond(q.startDate, q.endDate);
    var l := LabelIn(Promote(q.labels));
    var h := HourCond(q, hourStep);
    assert DateStep(t, q.startDate, q.endDate) == Success(Where(t, d));
    WhereAnd(t, d, l);
    var byLabel := Where(Where(t, d), l);
    WhereAnd(t, And(d, l), h);
    if h == Always {
      WhereKeepsAll(byLabel, Always);
    }
  }

  /** Every admitted row is kept as often as it occurs in the table, every
      other row not at all. */
  lemma FilterCounts(t: seq<Record>, q: Query, hourStep: bool)
    requires Truthy(q.startDate) || Truthy(q.endDate)
    ensures forall x :: (multiset(ApplyFilter(t, q, hourStep).value)[x]
      == if Admits(q, hourStep, x) then multiset(t)[x] else 0)
  {
    FilterIsOnePass(t, q, hourStep);
    WhereCounts(t, QueryCond(q, hourStep));
    forall x
      ensures Holds(QueryCond(q, hourStep), x) <==> Admits(q, hourStep, x)
    {
      assert Holds(QueryCond(q, hourStep), x)
        <==> Holds(DateCond(q.startDate, q.endDate), x) && Holds(LabelIn(Promote(q.labels)), x)
             && Holds(HourCond(q, hourStep), x);
    }
  }

  /** The result keeps the table's order and only deletes rows. */
  lemma FilterIsSubsequence(t: seq<Record>, q: Query, hourStep: bool)
    requires Truthy(q.startDate) || Truthy(q.endDate)
    ensures IsSubsequence(ApplyFilter(t, q, hourStep).value, t)
  {
    FilterIsOnePass(t, q, hourStep);
  }

  /** Filtering the filtered rows again changes nothing. */
  lemma FilterIdempotent(t: seq<Record>, q: Query, hourStep: bool)
    requires Truthy(q.startDate) || Truthy(q.endDate)
    ensures ApplyFilter(ApplyFilter(t, q, hourStep).value, q, hourStep) == ApplyFilter(t, q, hourStep)
  {
    var u := ApplyFilter(t, q, hourStep).value;
    FilterIsOnePass(t, q, hourStep);
    FilterIsOnePass(u, q, hourStep);
    WhereIdempotent(t, QueryCond(q, hourStep));
  }

  /** Rows are judged independently: filtering a concatenated table is
      concatenating the filtered parts. */
  lemma FilterConcat(a: seq<Record>, b: seq<Record>, q: Query, hourStep: bool)
    requires Truthy(q.startDate) || Truthy(q.endDate)
    ensures ApplyFilter(a + b, q, hourStep).value
         == ApplyFilter(a, q, hourStep).value + ApplyFilter(b, q, hourStep).value
  {
    FilterIsOnePass(a + b, q, hourStep);
    FilterIsOnePass(a, q, hourStep);
    FilterIsOnePass(b, q, hourStep);
    WhereConcat(a, b, QueryCond(q, hourStep));
  }

  /** A start bound after the end bound selects nothing, without an error. */
  lemma InvertedRangeIsEmpty(t: seq<Record>, q: Query, hourStep: bool)
    requires Truthy(q.startDate) && Truthy(q.endDate)
    requires !LexLe(q.startDate.value, q.endDate.value)
    ensures ApplyFilter(t, q, hourStep) == Success([])
  {
    FilterIsOnePass(t, q, hourStep);
    forall r | r in t
      ensures !Holds(QueryCond(q, hourStep), r)
    {
      if LexLe(q.startDate.value, r.date) && LexLe(r.date, q.endDate.value) {
        LexLeTransitive(q.startDate.value, r.date, q.endDate.value);
      }
    }
    WhereNone(t, QueryCond(q, hourStep));
  }

  /** Ticking no label selects nothing, without an error. */
  lemma EmptyLabelSelectionIsEmpty(t: seq<Record>, q: Query, hourStep: bool)
    requires Truthy(q.startDate) || Truthy(q.endDate)
    requires q.labels == Many([])
    ensures ApplyFilter(t, q, hourStep) == Success([])
  {
    FilterIsOnePass(t, q, hourStep);
    WhereNone(t, QueryCond(q, hourStep));
  }

  /** A label condition every row meets can be dropped from the conjunction. */
  lemma LabelStepVacuous(t: seq<Record>, d: Cond, h: Cond, wanted: seq<string>)
    requires forall r :: r in t ==> r.labels in wanted
    ensures Where(t, And(And(d, LabelIn(wanted)), h)) == Where(t, And(d, h))
  {
    forall r | r in t
      ensures Holds(And(And(d, LabelIn(wanted)), h), r) <==> Holds(And(d, h), r)
    {
      assert Holds(LabelIn(wanted), r);
    }
    WhereCongruent(t, And(And(d, LabelIn(wanted)), h), And(d, h));
  }

  /** The checklist's default value, every label present in the table,
      leaves the label step without effect. */
  lemma DefaultLabelsKeepAll(t: seq<Record>, q: Query, hourStep: bool)
    requires Truthy(q.startDate) || Truthy(q.endDate)
    requires q.labels == Many(UniqueLabels(t))
    ensures ApplyFilter(t, q, hourStep)
         == Success(Where(t, And(DateCond(q.startDate, q.endDate), HourCond(q, hourStep))))
  {
    FilterIsOnePass(t, q, hourStep);
    EveryLabelIsListed(t);
    LabelStepVacuous(t, DateCond(q.startDate, q.endDate), HourCond(q, hourStep), UniqueLabels(t));
  }

  /** Every row's label is among the table's unique labels. */
  lemma EveryLabelIsListed(t: seq<Record>)
    ensures forall r :: r in t ==> r.labels in UniqueLabels(t)
  {
    forall r | r in t
      ensures r.labels in UniqueLabels(t)
    {
      var i :| 0 <= i < |t| && t[i] == r;
    }
  }

  /** `'all'` among the chosen working-hour groups switches the step off,
      whatever else is chosen with it. */
  lemma AllGroupsOverrides(t: seq<Record>, q: Query)
    requires SelectedBy(q.hourGroups, AllGroups)
    ensures ApplyFilter(t, q, true) == ApplyFilter(t, q, false)
  {
  }

  /** The heatmap's filter has no working-hour step, so the dropdown's value
      cannot change its rows. */
  lemma HeatmapIgnoresHourGroups(t: seq<Record>, q: Query, groups: Selector)
    ensures ApplyFilter(t, q, false) == ApplyFilter(t, q.(hourGroups := groups), false)
  {
  }

  /** The five other charts plot the heatmap's rows narrowed by the
      working-hour step. */
  lemma HourStepNarrowsHeatmap(t: seq<Record>, q: Query)
    requires Truthy(q.startDate) || Truthy(q.endDate)
    ensures ApplyFilter(t, q, true).value == Where(ApplyFilter(t, q, false).value, HourCond(q, true))
    ensures IsSubsequence(ApplyFilter(t, q, true).value, ApplyFilter(t, q, false).value)
  {
    var groups := Promote(q.hourGroups);
    if AllGroups in groups {
      WhereKeepsAll(ApplyFilter(t, q, false).value, Always);
    }
  }
}
