/** One network-flow record of the dashboard's table, and the classification
    that derives its `labels` and `description` columns from `bytes`. */
module Records {
  import opened StrOrder

  /** One row of the table. `count` is the
      aggregation weight, always 1 in the generated data. */
  datatype Record = Record(
    date: string,
    ips: string,
    hour: string,
    flows: nat,
    bytes: nat,
    packets: nat,
    flowDuration: nat,
    communications: nat,
    country: nat,
    k: nat,
    workingHourGroup: string,
    dayGroup: string,
    subnet: string,
    count: nat,
    labels: string,
    description: string)

  /** The five label values, in ascending order of activity. */
  const Labels: seq<string> := ["0", "1", "2", "3", "4"]

  /** The band a byte count effectively lands in once every later band has
      overwritten the earlier, overlapping ones. */
  function EffectiveBand(bytes: int): string
  {
    if bytes <= 990 then "0"
    else if bytes <= 4950 then "1"
    else if bytes <= 29950 then "2"
    else if bytes <= 79950 then "3"
    else "4"
  }

  /** Position of a label in `Labels`. */
  function Level(name: string): nat
    requires name in Labels
  {
    if name == "0" then 0
    else if name == "1" then 1
    else if name == "2" then 2
    else if name == "3" then 3
    else 4
  }

  /** The five band assignments, applied in order to a row whose label
      starts out as `initial`; each later assignment overwrites earlier ones. */
  function Relabel(bytes: int, initial: string): (band: string)
    ensures band == EffectiveBand(bytes)
    ensures band in Labels
  {
    var afterBand0 := if bytes <= 1000 then "0" else initial;
    var afterBand1 := if bytes <= 5000 && bytes > 990 then "1" else afterBand0;
    var afterBand2 := if bytes <= 30000 && bytes > 4950 then "2" else afterBand1;
    var afterBand3 := if bytes <= 80000 && bytes > 29950 then "3" else afterBand2;
    if bytes > 79950 then "4" else afterBand3
  }

  /** More bytes never give a lower label. */
  lemma RelabelMonotone(a: int, b: int, initialA: string, initialB: string)
    requires a <= b
    ensures Level(Relabel(a, initialA)) <= Level(Relabel(b, initialB))
  {
  }

  /** Values just inside and outside the thresholds written in the comparisons. */
  lemma RelabelAtWrittenThresholds(initial: string)
    ensures Relabel(500, initial) == "0" && Relabel(990, initial) == "0"
    ensures Relabel(991, initial) == "1" && Relabel(1000, initial) == "1"
    ensures Relabel(4950, initial) == "1" && Relabel(5000, initial) == "2"
    ensures Relabel(29950, initial) == "2" && Relabel(30000, initial) == "3"
    ensures Relabel(79950, initial) == "3" && Relabel(80000, initial) == "4"
    ensures Relabel(150000, initial) == "4"
  {
  }

  /** The description column: the placeholder "0" for every row, then one
      overwrite per label value. */
  function Describe(name: string): (description: string)
    ensures description == "0" <==> name !in Labels
  {
    var placeholder := "0";
    var after0 := if name == "0" then "very low activity and risk" else placeholder;
    var after1 := if name == "1" then "low activity and risk" else after0;
    var after2 := if name == "2" then "medium activity and risk" else after1;
    var after3 := if name == "3" then "high activity and risk" else after2;
    if name == "4" then "very high activity and risk" else after3
  }

  /** Distinct labels get distinct descriptions. */
  lemma DescribeInjective(a: string, b: string)
    requires a in Labels && b in Labels
    requires Describe(a) == Describe(b)
    ensures a == b
  {
  }

  /** A row whose label and description are the ones its byte count determines. */
  predicate WellClassified(r: Record)
  {
    r.labels == EffectiveBand(r.bytes) && r.description == Describe(r.labels)
  }

  /** The start-up relabelling of one row: the random initial label is replaced by
      the band of `bytes`, and the description follows the label. */
  function Classify(r: Record): (c: Record)
    ensures WellClassified(c)
    ensures c.labels in Labels && c.description != "0"
    ensures c.(labels := r.labels, description := r.description) == r
  {
    var name := Relabel(r.bytes, r.labels);
    r.(labels := name, description := Describe(name))
  }

  /** Classification is a function of `bytes` alone. */
  lemma SameBytesSameClassification(r1: Record, r2: Record)
    requires r1.bytes == r2.bytes
    ensures Classify(r1).labels == Classify(r2).labels
    ensures Classify(r1).description == Classify(r2).description
  {
  }

  /** The start-up relabelling applied to every row of the table: the
      `labels` column is overwritten band by band, then `description` is
      derived from it. */
  function ClassifyTable(t: seq<Record>): (u: seq<Record>)
    ensures |u| == |t|
    ensures forall i :: 0 <= i < |u| ==> WellClassified(u[i])
    ensures forall i :: 0 <= i < |u| ==>
      u[i].(labels := t[i].labels, description := t[i].description) == t[i]
  {
    seq(|t|, i requires 0 <= i < |t| => Classify(t[i]))
  }

  /** `sorted(df['labels'].unique())`: the label values present, ascending,
      each once. It is the label checklist's options and default value. */
  function UniqueLabels(t: seq<Record>): (labels: seq<string>)
    ensures StrictlySorted(labels)
    ensures forall l :: l in labels <==> exists i :: 0 <= i < |t| && t[i].labels == l
  {
    var column := seq(|t|, i requires 0 <= i < |t| => t[i].labels);
    var labels := SortedDistinct(column);
    assert forall l :: l in column <==> exists i :: 0 <= i < |t| && t[i].labels == l by {
      forall l | (exists i :: 0 <= i < |t| && t[i].labels == l)
        ensures l in column
      {
        var i :| 0 <= i < |t| && t[i].labels == l;
        assert column[i] == l;
      }
      forall l | l in column
        ensures exists i :: 0 <= i < |t| && t[i].labels == l
      {
        var i :| 0 <= i < |column| && column[i] == l;
      }
    }
    labels
  }

  /** On a classified table the default label selection is a sorted selection
      from the five label values. */
  lemma UniqueLabelsOfClassified(t: seq<Record>)
    requires forall i :: 0 <= i < |t| ==> WellClassified(t[i])
    ensures forall l :: l in UniqueLabels(t) ==> l in Labels
  {
    var u := UniqueLabels(t);
    forall l | l in u
      ensures l in Labels
    {
      var i :| 0 <= i < |t| && t[i].labels == l;
      assert WellClassified(t[i]);
    }
  }
}
