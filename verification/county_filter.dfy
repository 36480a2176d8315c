/** The county filter: three row masks (risk category, climate trend, minimum
    population) applied one after the other, the first two switched off by
    the `All` selector value. */
module CountyFilter {
  import opened Records
  import opened Seqs

  /** The sidebar selection one render pass filters by. */
  datatype Selection = Selection(risk: string, trend: string, minPopulation: int)

  /** The reference rule: a county is shown iff it passes all three predicates. */
  predicate Shown(sel: Selection, c: County) {
    && (sel.risk == All || c.category == sel.risk)
    && (sel.trend == All || c.trend == sel.trend)
    && c.population >= sel.minPopulation
  }

  function ShownMask(sel: Selection): County -> bool {
    (c: County) => Shown(sel, c)
  }

  function CategoryMask(risk: string): County -> bool {
    (c: County) => c.category == risk
  }

  function TrendMask(trend: string): County -> bool {
    (c: County) => c.trend == trend
  }

  function PopulationMask(minPopulation: int): County -> bool {
    (c: County) => c.population >= minPopulation
  }

  /** The filtered county table, built in the order the dashboard applies its masks. */
  function FilterCounties(cs: seq<County>, sel: Selection): (r: seq<County>)
    ensures forall c :: c in r ==> c in cs && Shown(sel, c)
    ensures forall c :: c in cs && Shown(sel, c) ==> c in r
  {
    var byRisk := if sel.risk != All then Filter(cs, CategoryMask(sel.risk)) else cs;
    var byTrend := if sel.trend != All then Filter(byRisk, TrendMask(sel.trend)) else byRisk;
    Filter(byTrend, PopulationMask(sel.minPopulation))
  }

  /** The staged masks compute exactly the one-pass conjunction: same rows, same order. */
  lemma FilterIsConjunction(cs: seq<County>, sel: Selection)
    ensures FilterCounties(cs, sel) == Filter(cs, ShownMask(sel))
  {
    var pr, pt, pp := CategoryMask(sel.risk), TrendMask(sel.trend), PopulationMask(sel.minPopulation);
    // The first two stages as one mask.
    var stage: County -> bool :=
      if sel.risk != All then
        if sel.trend != All then Both(pr, pt) else pr
      else
        if sel.trend != All then pt else (c: County) => true;
    if sel.risk != All && sel.trend != All {
      FilterFilter(cs, pr, pt);
    } else if sel.risk == All && sel.trend == All {
      FilterAll(cs, stage);
    }
    FilterFilter(cs, stage, pp);
    FilterExtensional(cs, Both(stage, pp), ShownMask(sel));
  }

  /** The result keeps the input order: it is a subsequence of the county table. */
  lemma FilterKeepsOrder(cs: seq<County>, sel: Selection)
    ensures IsSubsequence(FilterCounties(cs, sel), cs)
  {
    FilterIsConjunction(cs, sel);
    FilterIsSubsequence(cs, ShownMask(sel));
  }

  /** Raising the population threshold never adds a county and keeps the order. */
  lemma RaisingMinPopulationNarrows(cs: seq<County>, sel: Selection, higher: int)
    requires higher >= sel.minPopulation
    ensures IsSubsequence(FilterCounties(cs, sel.(minPopulation := higher)), FilterCounties(cs, sel))
    ensures |FilterCounties(cs, sel.(minPopulation := higher))| <= |FilterCounties(cs, sel)|
  {
    var sel' := sel.(minPopulation := higher);
    FilterIsConjunction(cs, sel);
    FilterIsConjunction(cs, sel');
    FilterMonotone(cs, ShownMask(sel'), ShownMask(sel));
    SubsequenceLength(FilterCounties(cs, sel'), FilterCounties(cs, sel));
  }

  /** Choosing a specific category or trend instead of `All` never adds a county. */
  lemma ChoosingSelectorNarrows(cs: seq<County>, sel: Selection, risk: string, trend: string)
    requires sel.risk == All || risk == sel.risk
    requires sel.trend == All || trend == sel.trend
    ensures IsSubsequence(FilterCounties(cs, sel.(risk := risk, trend := trend)), FilterCounties(cs, sel))
  {
    var sel' := sel.(risk := risk, trend := trend);
    FilterIsConjunction(cs, sel);
    FilterIsConjunction(cs, sel');
    FilterMonotone(cs, ShownMask(sel'), ShownMask(sel));
  }

  /** With both selectors on `All` and a threshold no county falls below, every county is shown. */
  lemma NoFilterShowsAll(cs: seq<County>, minPopulation: int)
    requires forall c :: c in cs ==> c.population >= minPopulation
    ensures FilterCounties(cs, Selection(All, All, minPopulation)) == cs
  {
    var sel := Selection(All, All, minPopulation);
    FilterIsConjunction(cs, sel);
    FilterAll(cs, ShownMask(sel));
  }

  /** A threshold above every population shows no county (an empty result is valid). */
  lemma ThresholdAboveMaximumIsEmpty(cs: seq<County>, sel: Selection)
    requires forall c :: c in cs ==> c.population < sel.minPopulation
    ensures FilterCounties(cs, sel) == []
  {
    FilterIsConjunction(cs, sel);
    FilterNone(cs, ShownMask(sel));
  }
}
