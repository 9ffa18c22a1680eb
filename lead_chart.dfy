/** The bar chart's data, built from the lead list by two `map` calls: one
    x-axis label and one bar value per lead. Despite the chart title, no
    grouping into 25-lead buckets takes place. */
module LeadChart {
  import opened JsValues

  const DatasetLabel := "Leads Converted to Deals"

  datatype Dataset = Dataset(caption: string, data: seq<JsValue>)

  datatype ChartData = ChartData(labels: seq<string>, datasets: seq<Dataset>)

  /** `r` splits at `i` into the decimal text of `lo`, then " - ", then the
      decimal text of `hi`: each part is a digit string without a leading
      zero that reads back as its number. */
  predicate RangeText(r: string, i: nat, lo: nat, hi: nat) {
    0 < i && i + 3 < |r| && r[i..i + 3] == " - " &&
    AllDigits(r[..i]) && DigitsValue(r[..i]) == lo && (i > 1 ==> r[0] != '0') &&
    AllDigits(r[i + 3..]) && DigitsValue(r[i + 3..]) == hi && (|r| > i + 4 ==> r[i + 3] != '0')
  }

  /** The label at position `index` names the 25 leads from index*25+1 to
      index*25+25. */
  function RangeLabel(index: nat): (r: string)
    ensures RangeText(r, |NatToString(index * 25 + 1)|, index * 25 + 1, index * 25 + 25)
  {
    var first, last := NatToString(index * 25 + 1), NatToString(index * 25 + 25);
    var r := first + " - " + last;
    NatToStringValue(index * 25 + 1);
    NatToStringValue(index * 25 + 25);
    assert r[..|first|] == first && r[|first|..|first| + 3] == " - " && r[|first| + 3..] == last;
    r
  }

  /** A string that splits as RangeText says is exactly the template text
      `${lo} - ${hi}`. */
  lemma RangeTextIsTemplate(r: string, i: nat, lo: nat, hi: nat)
    requires RangeText(r, i, lo, hi)
    ensures r == NatToString(lo) + " - " + NatToString(hi)
  {
    CanonicalDigits(r[..i]);
    CanonicalDigits(r[i + 3..]);
    assert r == r[..i] + r[i..i + 3] + r[i + 3..];
  }

  /** `chartData`: label k is RangeLabel(k) and bar k is lead k's own
      `deal_status`, for every lead, in input order. */
  function ChartDataOf(leadsData: seq<Lead>): (r: ChartData)
    ensures |r.labels| == |leadsData| && |r.datasets| == 1
    ensures |r.datasets[0].data| == |leadsData|
    ensures forall k :: 0 <= k < |leadsData| ==> r.labels[k] == RangeLabel(k)
    ensures forall k :: 0 <= k < |leadsData| ==> r.datasets[0].data[k] == Field(leadsData[k], "deal_status")
  {
    ChartData(
      seq(|leadsData|, k requires 0 <= k < |leadsData| => RangeLabel(k)),
      [Dataset(DatasetLabel, seq(|leadsData|, k requires 0 <= k < |leadsData| => Field(leadsData[k], "deal_status")))])
  }

  /** The first label reads "1 - 25". */
  lemma FirstRangeLabel()
    ensures RangeLabel(0) == "1 - 25"
  {
    assert NatToString(1) == "1" && NatToString(2) == "2" && NatToString(5) == "5";
    assert NatToString(25) == "25";
  }

  /** The second label reads "26 - 50". */
  lemma SecondRangeLabel()
    ensures RangeLabel(1) == "26 - 50"
  {
    assert NatToString(2) == "2" && NatToString(6) == "6" && NatToString(26) == "26";
    assert NatToString(0) == "0" && NatToString(5) == "5" && NatToString(50) == "50";
  }

  /** Different positions get different labels. */
  lemma RangeLabelsDistinct(i: nat, j: nat)
    requires i != j
    ensures RangeLabel(i) != RangeLabel(j)
  {
    var r, r' := RangeLabel(i), RangeLabel(j);
    var m, n := |NatToString(i * 25 + 1)|, |NatToString(j * 25 + 1)|;
    assert r[m] == r[m..m + 3][0] && r'[n] == r'[n..n + 3][0];
  }

  /** The bars are per lead: the chart of a concatenation carries the bars of
      the first part followed by those of the second, and its leading labels
      are the first part's labels. */
  lemma ChartOfAppend(a: seq<Lead>, b: seq<Lead>)
    ensures ChartDataOf(a + b).datasets[0].data == ChartDataOf(a).datasets[0].data + ChartDataOf(b).datasets[0].data
    ensures ChartDataOf(a + b).labels[..|a|] == ChartDataOf(a).labels
  {
  }

  /** No leads, no labels and no bars. */
  lemma EmptyChart()
    ensures ChartDataOf([]).labels == [] && ChartDataOf([]).datasets[0].data == []
  {
  }
}
