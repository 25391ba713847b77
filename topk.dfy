/** The results panel of one classified image: the top-K prefix of the
    classifier's ranking, its text lines and the bar chart's x-labels.
    Scores are opaque values of type S. */
module TopK {
  import opened Wrappers

  /** One `{"label": ..., "score": ...}` entry returned by the classifier (`label` is a keyword here, hence `category`). */
  datatype Prediction<S> = Prediction(category: string, score: S)

  /** One text line of the panel: bold when `emphasised`, then a progress bar for `score`. */
  datatype Line<S> = Line(category: string, score: S, emphasised: bool)

  /** The panel is drawn only for a non-empty result list (`if results:`). */
  predicate PanelShown<S>(results: seq<Prediction<S>>) {
    |results| > 0
  }

  /** `results[:top_k]` with the slider's bounds `1 <= top_k <= len(results)`. */
  function Shown<S>(results: seq<Prediction<S>>, topK: int): (shown: seq<Prediction<S>>)
    requires 1 <= topK <= |results|
    ensures |shown| == topK
    ensures forall i :: 0 <= i < topK ==> shown[i] == results[i]
  {
    results[..topK]
  }

  /** The lines of `for i, result in enumerate(shown, start)`; only i == 0 is bold. */
  function Lines<S>(shown: seq<Prediction<S>>, start: nat): (lines: seq<Line<S>>)
    ensures |lines| == |shown|
    ensures forall k :: 0 <= k < |lines| ==>
              lines[k].category == shown[k].category && lines[k].score == shown[k].score
    ensures forall k :: 0 <= k < |lines| ==> (lines[k].emphasised <==> start + k == 0)
    decreases |shown|
  {
    if shown == [] then []
    else [Line(shown[0].category, shown[0].score, start == 0)] + Lines(shown[1..], start + 1)
  }

  /** The expander drawn under a classified image: nothing for an empty result
      list, otherwise the lines for slider value topK, which the slider keeps
      within `1 <= topK <= len(results)`. */
  function Panel<S>(results: seq<Prediction<S>>, topK: int): (p: Option<seq<Line<S>>>)
    requires PanelShown(results) ==> 1 <= topK <= |results|
    ensures p.Some? <==> results != []
    ensures p.Some? ==> |p.value| == topK && p.value[0].emphasised &&
                        p.value[0].category == results[0].category
  {
    if PanelShown(results) then Some(Displayed(results, topK)) else None
  }

  /** The text lines of the panel for slider value topK. */
  function Displayed<S>(results: seq<Prediction<S>>, topK: int): (lines: seq<Line<S>>)
    requires 1 <= topK <= |results|
    ensures |lines| == topK
    ensures forall k :: 0 <= k < topK ==>
              lines[k].category == results[k].category && lines[k].score == results[k].score
    ensures lines[0].emphasised
    ensures forall k :: 0 < k < topK ==> !lines[k].emphasised
  {
    Lines(Shown(results, topK), 0)
  }

  /** `[res["label"] for res in shown]`. */
  function Labels<S>(shown: seq<Prediction<S>>): (xs: seq<string>)
    ensures |xs| == |shown|
    ensures forall k :: 0 <= k < |xs| ==> xs[k] == shown[k].category
    decreases |shown|
  {
    if shown == [] then [] else [shown[0].category] + Labels(shown[1..])
  }

  /** The bar chart's x-labels for slider value topK. */
  function ChartLabels<S>(results: seq<Prediction<S>>, topK: int): (xs: seq<string>)
    requires 1 <= topK <= |results|
    ensures |xs| == topK
    ensures forall k :: 0 <= k < topK ==> xs[k] == results[k].category
  {
    Labels(Shown(results, topK))
  }

  /** Drops the emphasis from displayed lines, giving back the entries they show. */
  function Entries<S>(lines: seq<Line<S>>): (preds: seq<Prediction<S>>)
    ensures |preds| == |lines|
    decreases |lines|
  {
    if lines == [] then [] else [Prediction(lines[0].category, lines[0].score)] + Entries(lines[1..])
  }

  /** The text lines show exactly `results[:top_k]`, in the classifier's order. */
  lemma DisplayedIsPrefix<S>(results: seq<Prediction<S>>, topK: int)
    requires 1 <= topK <= |results|
    ensures Entries(Displayed(results, topK)) == results[..topK]
  {
    var lines := Displayed(results, topK);
    EntriesAt(lines);
  }

  lemma {:induction false} EntriesAt<S>(lines: seq<Line<S>>)
    ensures forall k :: 0 <= k < |lines| ==>
              Entries(lines)[k] == Prediction(lines[k].category, lines[k].score)
    decreases |lines|
  {
    if lines != [] {
      EntriesAt(lines[1..]);
    }
  }

  /** The chart's x-labels are the labels of the displayed lines: same length, same order. */
  lemma ChartMatchesDisplayed<S>(results: seq<Prediction<S>>, topK: int)
    requires 1 <= topK <= |results|
    ensures |ChartLabels(results, topK)| == |Displayed(results, topK)| == topK
    ensures forall k :: 0 <= k < topK ==>
              ChartLabels(results, topK)[k] == Displayed(results, topK)[k].category
  {
  }

  /** Five results with the slider at 5: all five are listed, the first in bold,
      and the chart has five bars. */
  lemma FiveOfFive<S>(s0: S, s1: S, s2: S, s3: S, s4: S)
    ensures var results := [Prediction("cat", s0), Prediction("dog", s1), Prediction("fox", s2),
                            Prediction("wolf", s3), Prediction("lynx", s4)];
            Displayed(results, 5)[0] == Line("cat", s0, true) &&
            ChartLabels(results, 5) == ["cat", "dog", "fox", "wolf", "lynx"]
  {
    var results := [Prediction("cat", s0), Prediction("dog", s1), Prediction("fox", s2),
                    Prediction("wolf", s3), Prediction("lynx", s4)];
    var xs := ChartLabels(results, 5);
    assert xs[0] == "cat" && xs[1] == "dog" && xs[2] == "fox" && xs[3] == "wolf" && xs[4] == "lynx";
  }
}
