/**
 Search-intent classification: matched terms become scores, scores become probabilities, and the
 intent is the label that is clearly ahead.
 */
module IntentClassification {
  import opened Sorting
  import opened Probabilities

  datatype Intent = Informational | Commercial | Transactional | Trust | Navigational | Mixed | Uncertain

  datatype Score = Score(topic: Intent, value: real)

  datatype Share = Share(topic: Intent, share: int)

  /** Confidence counts thousandths. */
  datatype Classification = Classification(intent: Intent, stage: string, role: string, confidence: int,
                                           probabilities: seq<Share>)

  datatype Outcome = Classified(result: Classification) | Rejected(error: string)

  function Context(intent: Intent): (string, string) {
    match intent
    case Informational => ("understand", "attract")
    case Commercial => ("compare", "support_choice")
    case Transactional => ("act", "convert")
    case Trust => ("consider", "provide_proof")
    case Navigational => ("act", "navigate")
    case Mixed => ("uncertain", "uncertain")
    case Uncertain => ("uncertain", "uncertain")
  }

  // ---------- scores ----------

  function Labels(scores: seq<Score>): (labels: seq<Intent>)
    ensures |labels| == |scores|
    ensures forall i :: 0 <= i < |scores| ==> labels[i] == scores[i].topic
  {
    seq(|scores|, i requires 0 <= i < |scores| => scores[i].topic)
  }

  function Values(scores: seq<Score>): (values: seq<real>)
    ensures |values| == |scores|
    ensures forall i :: 0 <= i < |scores| ==> values[i] == scores[i].value
  {
    seq(|scores|, i requires 0 <= i < |scores| => scores[i].value)
  }

  /** A score dictionary: every label once, and never the outcome "mixed". */
  ghost predicate IsDictionary(scores: seq<Score>) {
    Distinct(Labels(scores)) && Mixed !in Labels(scores)
  }

  function Positive(scores: seq<Score>): (p: seq<Score>)
    ensures forall s :: s in p <==> s in scores && s.value > 0.0
  {
    if scores == [] then [] else
      assert scores == [scores[0]] + scores[1..];
      (if scores[0].value > 0.0 then [scores[0]] else []) + Positive(scores[1..])
  }

  lemma LabelIn(scores: seq<Score>, s: Score)
    requires s in scores
    ensures s.topic in Labels(scores)
  {
    var i :| 0 <= i < |scores| && scores[i] == s;
    assert Labels(scores)[i] == s.topic;
  }

  lemma LabelsTail(scores: seq<Score>)
    requires scores != [] && IsDictionary(scores)
    ensures IsDictionary(scores[1..]) && scores[0].topic !in Labels(scores[1..]) && scores[0].topic != Mixed
  {
    assert Labels(scores)[1..] == Labels(scores[1..]);
    assert Labels(scores) == [scores[0].topic] + Labels(scores[1..]);
  }

  lemma LabelsCons(s: Score, scores: seq<Score>)
    requires IsDictionary(scores) && s.topic !in Labels(scores) && s.topic != Mixed
    ensures IsDictionary([s] + scores)
  {
    assert Labels([s] + scores) == [s.topic] + Labels(scores);
  }

  lemma {:induction false} PositiveIsDictionary(scores: seq<Score>)
    requires IsDictionary(scores)
    ensures IsDictionary(Positive(scores))
  {
    if scores != [] {
      LabelsTail(scores);
      var rest := Positive(scores[1..]);
      PositiveIsDictionary(scores[1..]);
      if scores[0].topic in Labels(rest) {
        var i :| 0 <= i < |rest| && rest[i].topic == scores[0].topic;
        assert rest[i] in rest;
        LabelIn(scores[1..], rest[i]);
        assert false;
      }
      LabelsCons(scores[0], rest);
      assert [] + rest == rest;
    }
  }

  /** There are only so many labels. */
  lemma FewLabels(scores: seq<Score>)
    requires IsDictionary(scores)
    ensures |scores| <= 6
  {
    var labels := Labels(scores);
    DistinctSize(labels);
    SubsetSize(Elements(labels), {Informational, Commercial, Transactional, Trust, Navigational, Uncertain});
  }

  // ---------- classification ----------

  function WithShares(scores: seq<Score>, shares: seq<int>): (p: seq<Share>)
    requires |scores| == |shares|
    ensures |p| == |scores|
    ensures forall i :: 0 <= i < |p| ==> p[i] == Share(scores[i].topic, shares[i])
  {
    seq(|scores|, i requires 0 <= i < |scores| => Share(scores[i].topic, shares[i]))
  }

  function SharesOf(probabilities: seq<Share>): (shares: seq<int>)
    ensures |shares| == |probabilities|
    ensures forall i :: 0 <= i < |shares| ==> shares[i] == probabilities[i].share
  {
    seq(|probabilities|, i requires 0 <= i < |probabilities| => probabilities[i].share)
  }

  /** The checks every stored distribution must pass. */
  function Validate(probabilities: seq<Share>): Outcome {
    var shares := SharesOf(probabilities);
    if shares == [] then Rejected("empty")
    else if exists i :: 0 <= i < |shares| && (shares[i] < 0 || shares[i] > UNIT) then Rejected("range")
    else if Sum(shares) - UNIT > SUM_TOLERANCE || UNIT - Sum(shares) > SUM_TOLERANCE then Rejected("sum")
    else Classified(Classification(Uncertain, "", "", 0, probabilities))
  }

  predicate Descends(a: int, b: int) { a >= b }

  predicate TooClose(shares: seq<int>) {
    |shares| > 1 && (var ordered := Sort(shares, Descends); ordered[0] - ordered[1] < CLEAR_LEAD)
  }

  function Confidence(intent: Intent, shares: seq<int>): int
    requires shares != []
  {
    if intent == Mixed || intent == Uncertain then 400 else Round(shares[Winner(shares)] as real / 1000.0)
  }

  function Classify(scores: seq<Score>): Outcome {
    var positive := Positive(scores);
    if positive == [] then Finish(Uncertain, [Share(Uncertain, UNIT)]) else
      AllPositive(scores);
      var values := Values(positive);
      var shares := Corrected(Shares(values, Total(values)));
      var intent := if TooClose(shares) then Mixed else positive[Winner(Shares(values, Total(values)))].topic;
      Finish(intent, WithShares(positive, shares))
  }

  function Finish(intent: Intent, probabilities: seq<Share>): Outcome
    requires probabilities != []
  {
    var valid := Validate(probabilities);
    if valid.Rejected? then valid else
      var (stage, role) := Context(intent);
      Classified(Classification(intent, stage, role, Confidence(intent, SharesOf(probabilities)), probabilities))
  }

  lemma AllPositive(scores: seq<Score>)
    requires Positive(scores) != []
    ensures forall i :: 0 <= i < |Positive(scores)| ==> Values(Positive(scores))[i] > 0.0
    ensures Total(Values(Positive(scores))) > 0.0
  {
    var p := Positive(scores);
    forall i | 0 <= i < |p| ensures Values(p)[i] > 0.0 {
      assert p[i] in p;
    }
    TotalPositive(Values(p));
  }

  /** A distribution: shares between zero and one whole that make exactly one whole. */
  ghost predicate IsDistribution(probabilities: seq<Share>) {
    && probabilities != []
    && Sum(SharesOf(probabilities)) == UNIT
    && forall i :: 0 <= i < |probabilities| ==> 0 <= probabilities[i].share <= UNIT
  }

  lemma DistributionIsValid(intent: Intent, probabilities: seq<Share>)
    requires IsDistribution(probabilities)
    ensures Finish(intent, probabilities).Classified?
    ensures Finish(intent, probabilities).result.intent == intent
    ensures Finish(intent, probabilities).result.probabilities == probabilities
    ensures 0 <= Finish(intent, probabilities).result.confidence <= 1000
  {
    var shares := SharesOf(probabilities);
    assert forall i :: 0 <= i < |shares| ==> 0 <= shares[i] <= UNIT;
  }

  /** Validation never fails, whatever was scored: the result is always a distribution. */
  lemma AlwaysADistribution(scores: seq<Score>)
    requires IsDictionary(scores)
    ensures Classify(scores).Classified?
    ensures IsDistribution(Classify(scores).result.probabilities)
    ensures 0 <= Classify(scores).result.confidence <= 1000
  {
    var positive := Positive(scores);
    PositiveIsDictionary(scores);
    FewLabels(positive);
    if positive == [] {
      assert SharesOf([Share(Uncertain, UNIT)]) == [UNIT];
      DistributionIsValid(Uncertain, [Share(Uncertain, UNIT)]);
    } else {
      hide Positive, Shares, Corrected, TooClose, Finish, Total;
      AllPositive(scores);
      var values := Values(positive);
      var shares := Corrected(Shares(values, Total(values)));
      CorrectedSum(Shares(values, Total(values)));
      forall i | 0 <= i < |shares| ensures 0 <= shares[i] <= UNIT {
        CorrectedInRange(values, i);
      }
      assert SharesOf(WithShares(positive, shares)) == shares;
      var intent := if TooClose(shares) then Mixed else positive[Winner(Shares(values, Total(values)))].topic;
      DistributionIsValid(intent, WithShares(positive, shares));
    }
  }

  // ---------- a clear winner ----------

  lemma DescendsOrder()
    ensures TotalPreorder(Descends)
  {
  }

  function Others(shares: seq<int>, w: nat): seq<int>
    requires w < |shares|
  {
    shares[..w] + shares[w + 1..]
  }

  lemma OthersAre(shares: seq<int>, w: nat)
    requires w < |shares|
    ensures multiset(Others(shares, w)) == multiset(shares) - multiset{shares[w]}
    ensures forall k :: 0 <= k < |shares| - 1 ==> Others(shares, w)[k] == shares[if k < w then k else k + 1]
  {
    assert shares == shares[..w] + [shares[w]] + shares[w + 1..];
  }

  lemma Dropped(shares: seq<int>, top: nat, first: int, rest: seq<int>)
    requires top < |shares| && shares[top] == first
    requires multiset(shares) == multiset{first} + multiset(rest)
    ensures forall j :: 0 <= j < |shares| && j != top ==> shares[j] in rest
  {
    var others := Others(shares, top);
    OthersAre(shares, top);
    assert multiset(others) == multiset(rest);
    forall j | 0 <= j < |shares| && j != top ensures shares[j] in multiset(rest) {
      hide Others;
      assert shares[j] == others[if j < top then j else j - 1];
      assert shares[j] in multiset(others);
    }
  }

  /** All shares but the top one are at most the second in order. */
  lemma TopTwo(shares: seq<int>, top: nat)
    requires |shares| > 1 && top < |shares| && shares[top] == Sort(shares, Descends)[0]
    ensures forall j :: 0 <= j < |shares| && j != top ==> shares[j] <= Sort(shares, Descends)[1]
  {
    hide Sort;
    var ordered := Sort(shares, Descends);
    DescendsOrder();
    SortSorts(shares, Descends);
    assert ordered == [ordered[0]] + ordered[1..];
    Dropped(shares, top, ordered[0], ordered[1..]);
    forall j | 0 <= j < |shares| && j != top ensures shares[j] <= ordered[1] {
      var k :| 0 <= k < |ordered[1..]| && ordered[1..][k] == shares[j];
      if k > 0 { assert Descends(ordered[1], ordered[k + 1]); }
    }
  }

  /** Not too close: the corrected winner leads all other shares clearly. */
  lemma WinnerLeads(shares: seq<int>, j: nat)
    requires |shares| <= 6 && -6 <= 2 * (UNIT - Sum(shares)) <= 6
    requires j < |shares| && j != Winner(shares) && !TooClose(Corrected(shares))
    ensures Corrected(shares)[Winner(shares)] - Corrected(shares)[j] >= CLEAR_LEAD
  {
    hide Sum, Sort;
    var corrected, w := Corrected(shares), Winner(shares);
    var ordered := Sort(corrected, Descends);
    assert ordered[0] in multiset(ordered);
    assert ordered[0] in multiset(corrected);
    var top :| 0 <= top < |corrected| && corrected[top] == ordered[0];
    TopTwo(corrected, top);
    assert corrected[w] == shares[w] + (UNIT - Sum(shares));
    var atTop, atWinner, uncorrected, second := corrected[top], corrected[w], shares[top], ordered[1];
    assert top != w ==> atTop == uncorrected && atWinner <= second;
    assert top == w;
  }

  lemma RoundRises(a: real, b: real)
    requires Round(a) >= Round(b) + 2
    ensures a > b
  {
  }

  lemma ExactMonotone(a: real, b: real, total: real)
    requires total > 0.0
    ensures a <= b ==> Exact(a, total) <= Exact(b, total)
  {
    if a <= b { assert a / total <= b / total; }
  }

  lemma ExactRises(a: real, b: real, total: real)
    requires total > 0.0 && Exact(a, total) > Exact(b, total)
    ensures a > b
  {
    ExactMonotone(a, b, total);
  }

  /** An intent other than mixed has strictly the largest raw score of all. */
  lemma IntentScoredMost(scores: seq<Score>, s: Score)
    requires IsDictionary(scores) && Classify(scores).Classified? && s in scores
    requires Classify(scores).result.intent != Mixed
    requires s.topic != Classify(scores).result.intent && s.value > 0.0
    ensures exists best :: best in scores && best.topic == Classify(scores).result.intent && best.value > s.value
  {
    hide Sum, Total, Exact, Round, Finish, TooClose, Corrected;
    var positive := Positive(scores);
    AllPositive(scores);
    PositiveIsDictionary(scores);
    FewLabels(positive);
    AlwaysADistribution(scores);
    IntentIs(scores);
    var values := Values(positive);
    var shares := Shares(values, Total(values));
    var w := Winner(shares);
    var j :| 0 <= j < |positive| && positive[j] == s;
    ResidueSmall(values);
    WinnerLeads(shares, j);
    LeadIsReal(values, j);
    assert positive[w] in positive;
  }

  lemma IntentIs(scores: seq<Score>)
    requires Positive(scores) != [] && Classify(scores).Classified? && Total(Values(Positive(scores))) > 0.0
    ensures
      var values := Values(Positive(scores));
      var shares := Shares(values, Total(values));
      Classify(scores).result.intent ==
      if TooClose(Corrected(shares)) then Mixed else Positive(scores)[Winner(shares)].topic
  {
    hide Sum, Total, Exact, Round, TooClose, Corrected, Positive, Sort;
  }

  lemma LeadIsReal(values: seq<real>, j: nat)
    requires 0 < |values| <= 6 && Total(values) > 0.0 && j < |values|
    requires j != Winner(Shares(values, Total(values)))
    requires
      var shares := Shares(values, Total(values));
      Corrected(shares)[Winner(shares)] - Corrected(shares)[j] >= CLEAR_LEAD
    ensures values[Winner(Shares(values, Total(values)))] > values[j]
  {
    hide Sum, Total, Exact, Round;
    var shares := Shares(values, Total(values));
    var w := Winner(shares);
    ResidueSmall(values);
    assert shares[w] >= shares[j] + 2;
    RoundRises(Exact(values[w], Total(values)), Exact(values[j], Total(values)));
    ExactRises(values[w], values[j], Total(values));
  }

  /** The largest share comes first in order, and one of the others second. */
  lemma OrderedFrom(shares: seq<int>, w: nat)
    requires |shares| > 1 && w < |shares| && forall j :: 0 <= j < |shares| ==> shares[j] <= shares[w]
    ensures Sort(shares, Descends)[0] == shares[w]
    ensures exists j :: 0 <= j < |shares| && j != w && Sort(shares, Descends)[1] == shares[j]
  {
    hide Sort;
    var ordered := Sort(shares, Descends);
    DescendsOrder();
    SortSorts(shares, Descends);
    assert shares[w] in multiset(ordered) && ordered[0] in multiset(shares);
    var k :| 0 <= k < |ordered| && ordered[k] == shares[w];
    if k > 0 { assert Descends(ordered[0], ordered[k]); }
    HeadAndTail(ordered);
    SecondFrom(shares, w, ordered);
  }

  lemma SecondFrom(shares: seq<int>, w: nat, ordered: seq<int>)
    requires |ordered| > 1 && w < |shares| && ordered[0] == shares[w]
    requires multiset(ordered) == multiset(shares)
    ensures exists j :: 0 <= j < |shares| && j != w && ordered[1] == shares[j]
  {
    var others := Others(shares, w);
    OthersAre(shares, w);
    HeadAndTail(ordered);
    assert ordered[1] in multiset(others) by { assert ordered[1..][0] in multiset(ordered[1..]); }
    var k :| 0 <= k < |others| && others[k] == ordered[1];
    var j := if k < w then k else k + 1;
    assert shares[j] == ordered[1];
  }

  ghost predicate LeadsBy(values: seq<real>, w: nat, lead: real)
    requires w < |values| && Total(values) > 0.0
  {
    forall j :: 0 <= j < |values| && j != w ==>
      Exact(values[w], Total(values)) - Exact(values[j], Total(values)) >= lead
  }

  lemma LeadSurvives(values: seq<real>, w: nat)
    requires w < |values| <= 6 && Total(values) > 0.0 && LeadsBy(values, w, (CLEAR_LEAD + 8) as real)
    ensures Winner(Shares(values, Total(values))) == w
    ensures !TooClose(Corrected(Shares(values, Total(values))))
  {
    hide Sum, Total, Exact, Round, Sort;
    var shares := Shares(values, Total(values));
    ResidueSmall(values);
    forall j | 0 <= j < |shares| && j != w ensures shares[w] - shares[j] >= CLEAR_LEAD + 7 {
      var x, y := Exact(values[w], Total(values)), Exact(values[j], Total(values));
      assert -0.5 <= Round(x) as real - x <= 0.5 && -0.5 <= Round(y) as real - y <= 0.5;
    }
    var corrected := Corrected(shares);
    if |corrected| > 1 {
      OrderedFrom(corrected, w);
    }
  }

  /** A topic whose true share leads by the margin, and a rounding allowance, is reported. */
  lemma ClearLeadReported(scores: seq<Score>, best: Score)
    requires IsDictionary(scores) && best in Positive(scores)
    requires Total(Values(Positive(scores))) > 0.0
    requires
      var total := Total(Values(Positive(scores)));
      forall s :: s in Positive(scores) && s != best ==>
        Exact(best.value, total) - Exact(s.value, total) >= (CLEAR_LEAD + 8) as real
    ensures Classify(scores).Classified? && Classify(scores).result.intent == best.topic
  {
    hide Classify, Shares, Sum, Total, Exact, Round, Positive, TooClose, Corrected;
    AlwaysADistribution(scores);
    var positive := Positive(scores);
    var values := Values(positive);
    var w :| 0 <= w < |positive| && positive[w] == best;
    PositiveIsDictionary(scores);
    FewLabels(positive);
    forall j | 0 <= j < |values| && j != w
      ensures Exact(values[w], Total(values)) - Exact(values[j], Total(values)) >= (CLEAR_LEAD + 8) as real
    {
      assert Labels(positive)[w] != Labels(positive)[j];
      assert positive[j] in positive;
    }
    LeadSurvives(values, w);
    IntentIs(scores);
  }

  // ---------- scoring ----------

  const INTENTS := [Informational, Commercial, Transactional, Trust, Navigational]

  function Terms(intent: Intent): set<string> {
    match intent
    case Informational => {"how", "what", "why", "guide", "uitleg", "hoe", "wat", "waarom"}
    case Commercial => {"best", "compare", "review", "comparison", "beste", "vergelijk", "ervaring"}
    case Transactional => {"buy", "order", "book", "quote", "koop", "bestel", "boek", "offerte", "prijs"}
    case Trust => {"about", "case", "certified", "testimonial", "over", "keurmerk", "referentie", "ervaringen"}
    case Navigational => {"login", "contact", "portal", "inloggen", "adres", "telefoon"}
    case _ => {}
  }

  /** The score of a topic; zero if there is none. */
  function ScoreOf(scores: seq<Score>, topic: Intent): real {
    if scores == [] then 0.0
    else if scores[0].topic == topic then scores[0].value
    else ScoreOf(scores[1..], topic)
  }

  function AddTo(scores: seq<Score>, topic: Intent, points: real): seq<Score> {
    if scores == [] then [Score(topic, points)]
    else if scores[0].topic == topic then [Score(topic, scores[0].value + points)] + scores[1..]
    else [scores[0]] + AddTo(scores[1..], topic, points)
  }

  lemma {:induction false} AddToAdds(scores: seq<Score>, topic: Intent, points: real, t: Intent)
    ensures ScoreOf(AddTo(scores, topic, points), t) == ScoreOf(scores, t) + (if t == topic then points else 0.0)
  {
    if scores != [] && scores[0].topic != topic {
      AddToAdds(scores[1..], topic, points, t);
    }
  }

  lemma LabelOfCons(s: Score, scores: seq<Score>, t: Intent)
    ensures t in Labels([s] + scores) <==> t == s.topic || t in Labels(scores)
  {
    assert Labels([s] + scores) == [s.topic] + Labels(scores);
  }

  lemma {:induction false} AddToLabels(scores: seq<Score>, topic: Intent, points: real, t: Intent)
    ensures t in Labels(AddTo(scores, topic, points)) <==> t in Labels(scores) || t == topic
  {
    if scores == [] {
      LabelOfCons(Score(topic, points), [], t);
      assert [Score(topic, points)] + [] == [Score(topic, points)];
    } else {
      hide Labels;
      var first, rest := scores[0], scores[1..];
      assert scores == [first] + rest;
      LabelOfCons(first, rest, t);
      if first.topic != topic {
        var added := AddTo(rest, topic, points);
        assert AddTo(scores, topic, points) == [first] + added;
        hide AddTo;
        AddToLabels(rest, topic, points, t);
        LabelOfCons(first, added, t);
      } else {
        assert AddTo(scores, topic, points) == [Score(topic, first.value + points)] + rest;
        hide AddTo;
        LabelOfCons(Score(topic, first.value + points), rest, t);
      }
    }
  }

  lemma {:induction false} AddToKeepsDictionary(scores: seq<Score>, topic: Intent, points: real)
    requires IsDictionary(scores) && topic != Mixed
    ensures IsDictionary(AddTo(scores, topic, points))
  {
    if scores == [] {
      assert Labels([Score(topic, points)]) == [topic];
    } else if scores[0].topic == topic {
      assert Labels(AddTo(scores, topic, points)) == Labels(scores);
    } else {
      LabelsTail(scores);
      AddToKeepsDictionary(scores[1..], topic, points);
      AddToLabels(scores[1..], topic, points, scores[0].topic);
      LabelsCons(scores[0], AddTo(scores[1..], topic, points));
    }
  }

  lemma {:induction false} ScoreOfIs(scores: seq<Score>, topic: Intent)
    requires IsDictionary(scores)
    ensures forall s :: s in scores && s.topic == topic ==> s.value == ScoreOf(scores, topic)
    ensures ScoreOf(scores, topic) != 0.0 ==> Score(topic, ScoreOf(scores, topic)) in scores
  {
    if scores != [] {
      LabelsTail(scores);
      ScoreOfIs(scores[1..], topic);
      forall s | s in scores && s.topic == topic ensures s.value == ScoreOf(scores, topic) {
        if s != scores[0] {
          assert s in scores[1..];
          LabelIn(scores[1..], s);
        }
      }
    }
  }

  /** A clear intent leads every other topic that scored at all. */
  lemma IntentLeads(scores: seq<Score>, t: Intent)
    requires IsDictionary(scores) && Classify(scores).Classified?
    requires Classify(scores).result.intent != Mixed && t != Classify(scores).result.intent
    ensures ScoreOf(scores, t) <= 0.0 || ScoreOf(scores, t) < ScoreOf(scores, Classify(scores).result.intent)
  {
    hide Classify, IsDictionary;
    ScoreOfIs(scores, t);
    ScoreOfIs(scores, Classify(scores).result.intent);
    if ScoreOf(scores, t) > 0.0 {
      IntentScoredMost(scores, Score(t, ScoreOf(scores, t)));
    }
  }

  /** Nothing scored gives uncertain; otherwise the intent is mixed or a topic that scored. */
  lemma IntentScored(scores: seq<Score>)
    requires IsDictionary(scores) && Classify(scores).Classified?
    ensures
      var intent := Classify(scores).result.intent;
      (intent == Uncertain && forall s :: s in scores ==> s.value <= 0.0) || intent == Mixed ||
        ScoreOf(scores, intent) > 0.0
  {
    hide IsDictionary, Positive;
    var positive := Positive(scores);
    if positive == [] {
      NothingScored(scores);
    } else {
      AllPositive(scores);
      IntentIs(scores);
      var shares := Shares(Values(positive), Total(Values(positive)));
      var best := positive[Winner(shares)];
      assert best in positive;
      ScoreOfIs(scores, best.topic);
    }
  }

  lemma NothingScored(scores: seq<Score>)
    requires Positive(scores) == [] && Classify(scores).Classified?
    ensures Classify(scores).result.intent == Uncertain
    ensures forall s :: s in scores ==> s.value <= 0.0
  {
    forall s | s in scores ensures s.value <= 0.0 {
      assert s in Positive(scores) <==> s.value > 0.0;
    }
  }

  // ---------- what a result says about the weights it was made from ----------

  /** The share leads every other by at least 0.15. */
  ghost predicate Leads(probabilities: seq<Share>, i: nat)
    requires i < |probabilities|
  {
    forall j :: 0 <= j < |probabilities| && j != i ==> probabilities[i].share - probabilities[j].share >= 150_000
  }

  /** The intent is the label that leads, and mixed if none does. */
  ghost predicate IntentFits(r: Classification) {
    var p := r.probabilities;
    && (forall i :: 0 <= i < |p| && Leads(p, i) ==> r.intent == p[i].topic)
    && ((forall i :: 0 <= i < |p| ==> !Leads(p, i)) ==> r.intent == Mixed)
  }

  /** The leading share rounded to thousandths, a half to the even one; 0.4 without a clear intent. */
  ghost predicate ConfidenceFits(r: Classification) {
    var p := r.probabilities;
    if r.intent == Mixed || r.intent == Uncertain then r.confidence == 400
    else forall i :: 0 <= i < |p| && Leads(p, i) ==> Nearest(r.confidence, p[i].share)
  }

  /** To the nearest thousandth. */
  predicate Nearest(thousandths: int, millionths: int) {
    var error := 1000 * thousandths - millionths;
    -500 <= error <= 500 && (error == 500 || error == -500 ==> thousandths % 2 == 0)
  }

  /** Every topic with a positive weight once, or only uncertain. */
  ghost predicate LabelsFit(probabilities: seq<Share>, weight: Intent -> real) {
    if forall t :: weight(t) <= 0.0 then probabilities == [Share(Uncertain, 1_000_000)] else
      && (forall i, j :: 0 <= i < j < |probabilities| ==> probabilities[i].topic != probabilities[j].topic)
      && forall t :: weight(t) > 0.0 <==> exists i :: 0 <= i < |probabilities| && probabilities[i].topic == t
  }

  function Plus(x: real): real {
    if x > 0.0 then x else 0.0
  }

  /** All positive weights together; mixed never has one. */
  ghost function TotalWeight(weight: Intent -> real): real {
    Plus(weight(Informational)) + Plus(weight(Commercial)) + Plus(weight(Transactional))
    + Plus(weight(Trust)) + Plus(weight(Navigational)) + Plus(weight(Uncertain))
  }

  /** The share differs from weight / total by at most so many halves of a millionth. */
  ghost predicate Near(share: int, weight: real, total: real, halves: int) {
    var error := share as real * total - 1_000_000.0 * weight;
    -(halves as real * total) <= 2.0 * error <= halves as real * total
  }

  /** All shares are rounded to the nearest, but that of w, the largest, has the rounding residue too. */
  ghost predicate SharesFit(probabilities: seq<Share>, weight: Intent -> real, w: nat)
    requires w < |probabilities|
  {
    var p, total := probabilities, TotalWeight(weight);
    forall i :: 0 <= i < |p| ==>
      && Near(p[i].share, weight(p[i].topic), total, if i == w then |p| + 1 else 1)
      && 1_000_000.0 * weight(p[i].topic) <= 1_000_000.0 * weight(p[w].topic) + total
  }

  ghost predicate Reflects(r: Classification, weight: Intent -> real) {
    && IsDistribution(r.probabilities)
    && LabelsFit(r.probabilities, weight)
    && ((exists t :: weight(t) > 0.0) ==>
      exists w :: 0 <= w < |r.probabilities| && SharesFit(r.probabilities, weight, w))
    && IntentFits(r) && ConfidenceFits(r) && (r.stage, r.role) == Context(r.intent)
  }

  lemma ReflectsSame(r: Classification, f: Intent -> real, g: Intent -> real)
    requires Reflects(r, f) && forall t :: f(t) == g(t)
    ensures Reflects(r, g)
  {
    hide IsDistribution, LabelsFit, SharesFit, IntentFits, ConfidenceFits, Context;
    LabelsSame(r.probabilities, f, g);
    if t :| g(t) > 0.0 {
      assert f(t) > 0.0;
      var w :| 0 <= w < |r.probabilities| && SharesFit(r.probabilities, f, w);
      SharesSame(r.probabilities, f, g, w);
    }
  }

  lemma LabelsSame(probabilities: seq<Share>, f: Intent -> real, g: Intent -> real)
    requires LabelsFit(probabilities, f) && forall t :: f(t) == g(t)
    ensures LabelsFit(probabilities, g)
  {
    if forall t :: f(t) <= 0.0 {
      assert forall t :: g(t) == f(t) <= 0.0;
    } else {
      var t :| f(t) > 0.0;
      assert g(t) > 0.0;
    }
  }

  lemma SharesSame(probabilities: seq<Share>, f: Intent -> real, g: Intent -> real, w: nat)
    requires w < |probabilities| && SharesFit(probabilities, f, w) && forall t :: f(t) == g(t)
    ensures SharesFit(probabilities, g, w)
  {
    hide Near;
    assert TotalWeight(f) == TotalWeight(g);
  }

  // ---------- that it holds ----------

  function ScoreOn(scores: seq<Score>): Intent -> real {
    t => ScoreOf(scores, t)
  }

  lemma PositiveScores(scores: seq<Score>)
    requires IsDictionary(scores)
    ensures forall i :: 0 <= i < |Positive(scores)| ==>
              ScoreOf(scores, Positive(scores)[i].topic) == Positive(scores)[i].value > 0.0
    ensures forall t :: ScoreOf(scores, t) > 0.0 ==>
              exists i :: 0 <= i < |Positive(scores)| && Positive(scores)[i].topic == t
  {
    var p := Positive(scores);
    forall i | 0 <= i < |p| ensures ScoreOf(scores, p[i].topic) == p[i].value > 0.0 {
      assert p[i] in p;
      ScoreOfIs(scores, p[i].topic);
    }
    forall t | ScoreOf(scores, t) > 0.0 ensures exists i :: 0 <= i < |p| && p[i].topic == t {
      ScoreOfIs(scores, t);
      assert Score(t, ScoreOf(scores, t)) in p;
      var i :| 0 <= i < |p| && p[i] == Score(t, ScoreOf(scores, t));
    }
  }

  lemma {:induction false} NoScore(scores: seq<Score>, t: Intent)
    requires t !in Labels(scores)
    ensures ScoreOf(scores, t) == 0.0
  {
    if scores != [] {
      assert Labels(scores) == [scores[0].topic] + Labels(scores[1..]);
      NoScore(scores[1..], t);
    }
  }

  lemma {:induction false} TotalIs(scores: seq<Score>)
    requires IsDictionary(scores)
    ensures Total(Values(Positive(scores))) == TotalWeight(ScoreOn(scores))
  {
    if scores == [] {
      TotalOfNone();
    } else {
      hide Total, TotalWeight, Positive, Values, ScoreOf, Labels, ScoreOn;
      LabelsTail(scores);
      var first, rest := scores[0], scores[1..];
      assert scores == [first] + rest;
      TotalIs(rest);
      NoScore(rest, first.topic);
      TotalCons(first, rest);
    }
  }

  lemma TotalOfNone()
    ensures Total(Values(Positive([]))) == TotalWeight(ScoreOn([])) == 0.0
  {
  }

  lemma TotalCons(first: Score, rest: seq<Score>)
    requires first.topic != Mixed && ScoreOf(rest, first.topic) == 0.0
    ensures TotalWeight(ScoreOn([first] + rest)) == TotalWeight(ScoreOn(rest)) + Plus(first.value)
    ensures Total(Values(Positive([first] + rest))) == Total(Values(Positive(rest))) + Plus(first.value)
  {
    var all := [first] + rest;
    assert all[0] == first && all[1..] == rest;
    forall t ensures ScoreOf(all, t) == if t == first.topic then first.value else ScoreOf(rest, t) {}
    WeightCons(first, rest);
    ValuesCons(first, rest);
  }

  lemma WeightCons(first: Score, rest: seq<Score>)
    requires first.topic != Mixed && ScoreOf(rest, first.topic) == 0.0
    requires forall t :: ScoreOf([first] + rest, t) == if t == first.topic then first.value else ScoreOf(rest, t)
    ensures TotalWeight(ScoreOn([first] + rest)) == TotalWeight(ScoreOn(rest)) + Plus(first.value)
  {
    hide ScoreOf;
  }

  lemma ValuesCons(first: Score, rest: seq<Score>)
    ensures Total(Values(Positive([first] + rest))) == Total(Values(Positive(rest))) + Plus(first.value)
  {
    PositiveCons(first, rest);
    hide Positive, Values;
    if first.value > 0.0 {
      ValuesOfCons(first, Positive(rest));
    }
  }

  lemma PositiveCons(first: Score, rest: seq<Score>)
    ensures Positive([first] + rest) == if first.value > 0.0 then [first] + Positive(rest) else Positive(rest)
  {
    var all := [first] + rest;
    assert all[0] == first && all[1..] == rest;
    assert [] + Positive(rest) == Positive(rest);
  }

  lemma ValuesOfCons(first: Score, rest: seq<Score>)
    ensures Total(Values([first] + rest)) == first.value + Total(Values(rest))
  {
    assert Values([first] + rest) == [first.value] + Values(rest);
    assert ([first.value] + Values(rest))[1..] == Values(rest);
  }

  lemma NearExact(share: int, weight: real, total: real, halves: int)
    requires total > 0.0
    requires -(halves as real) <= 2.0 * (share as real - Exact(weight, total)) <= halves as real
    ensures Near(share, weight, total, halves)
  {
    ExactTimes(weight, total);
    var error := share as real - Exact(weight, total);
    assert error * total == share as real * total - 1_000_000.0 * weight;
    TimesKeeps(-(halves as real), 2.0 * error, total);
    TimesKeeps(2.0 * error, halves as real, total);
  }

  lemma ExactTimes(weight: real, total: real)
    requires total > 0.0
    ensures Exact(weight, total) * total == 1_000_000.0 * weight
  {
    assert weight / total * total == weight;
  }

  lemma TimesKeeps(a: real, b: real, total: real)
    requires a <= b && total > 0.0
    ensures a * total <= b * total
  {
  }

  lemma LargestWeight(values: seq<real>, i: nat)
    requires i < |values| && Total(values) > 0.0
    ensures
      var w := Winner(Shares(values, Total(values)));
      1_000_000.0 * values[i] <= 1_000_000.0 * values[w] + Total(values)
  {
    hide Total, Exact, Round, Shares;
    var total := Total(values);
    var shares := Shares(values, total);
    var w := Winner(shares);
    CloseWeights(values[i], values[w], total);
  }

  /** A share that is no larger when rounded is larger by at most one millionth before. */
  lemma CloseWeights(a: real, b: real, total: real)
    requires total > 0.0 && Round(Exact(a, total)) <= Round(Exact(b, total))
    ensures 1_000_000.0 * a <= 1_000_000.0 * b + total
  {
    hide Round, Exact;
    var x, y := Exact(a, total), Exact(b, total);
    assert -0.5 <= Round(x) as real - x <= 0.5 && -0.5 <= Round(y) as real - y <= 0.5;
    TimesKeeps(x, y + 1.0, total);
    assert (y + 1.0) * total == y * total + total;
    ExactTimes(a, total);
    ExactTimes(b, total);
  }

  lemma PositiveShares(scores: seq<Score>)
    requires IsDictionary(scores) && Positive(scores) != [] && Total(Values(Positive(scores))) > 0.0
    ensures
      var values := Values(Positive(scores));
      var shares := Shares(values, Total(values));
      SharesFit(WithShares(Positive(scores), Corrected(shares)), ScoreOn(scores), Winner(shares))
  {
    hide Positive, Shares, Corrected, Total, Values, Exact, Near, IsDictionary, ScoreOf, TotalWeight;
    var positive := Positive(scores);
    var values := Values(positive);
    TotalIs(scores);
    PositiveScores(scores);
    PairedShares(positive, values, ScoreOn(scores));
  }

  lemma PairedShares(positive: seq<Score>, values: seq<real>, weight: Intent -> real)
    requires |values| == |positive| > 0 && Total(values) == TotalWeight(weight) > 0.0
    requires forall i :: 0 <= i < |positive| ==> values[i] == positive[i].value == weight(positive[i].topic)
    ensures
      var shares := Shares(values, Total(values));
      SharesFit(WithShares(positive, Corrected(shares)), weight, Winner(shares))
  {
    hide Shares, Corrected, Total, Exact, Near, TotalWeight;
    var shares := Shares(values, Total(values));
    var w, p := Winner(shares), WithShares(positive, Corrected(shares));
    forall i | 0 <= i < |p|
      ensures Near(p[i].share, values[i], Total(values), if i == w then |p| + 1 else 1)
      ensures 1_000_000.0 * values[i] <= 1_000_000.0 * values[w] + Total(values)
    {
      ShareError(values, i);
      NearExact(p[i].share, values[i], Total(values), if i == w then |p| + 1 else 1);
      LargestWeight(values, i);
    }
  }

  lemma PositiveLabels(scores: seq<Score>, shares: seq<int>)
    requires IsDictionary(scores) && Positive(scores) != [] && |shares| == |Positive(scores)|
    ensures LabelsFit(WithShares(Positive(scores), shares), ScoreOn(scores))
  {
    hide Positive, ScoreOf;
    var positive := Positive(scores);
    var p := WithShares(positive, shares);
    PositiveScores(scores);
    PositiveIsDictionary(scores);
    forall i, j | 0 <= i < j < |p| ensures p[i].topic != p[j].topic {
      assert Labels(positive)[i] != Labels(positive)[j];
    }
    var weight := ScoreOn(scores);
    assert weight(positive[0].topic) > 0.0;
    forall i | 0 <= i < |p| ensures weight(p[i].topic) > 0.0 {
      assert p[i].topic == positive[i].topic;
    }
    forall t | ScoreOf(scores, t) > 0.0 ensures exists i :: 0 <= i < |p| && p[i].topic == t {
      var i :| 0 <= i < |positive| && positive[i].topic == t;
      assert p[i].topic == t;
    }
  }

  /** Shares that lead are not too close, and the shares that are not too close have a leader. */
  lemma LeadersFit(scores: seq<Score>, shares: seq<int>, r: Classification)
    requires 0 < |scores| == |shares| <= 6 && -6 <= 2 * (UNIT - Sum(shares)) <= 6
    requires r.probabilities == WithShares(scores, Corrected(shares))
    requires r.intent == if TooClose(Corrected(shares)) then Mixed else scores[Winner(shares)].topic
    ensures IntentFits(r)
  {
    hide Sum, Sort, Corrected, TooClose;
    var p, corrected, w := r.probabilities, Corrected(shares), Winner(shares);
    forall i | 0 <= i < |p| && Leads(p, i) ensures !TooClose(corrected) {
      LeaderNotClose(p, corrected, i);
    }
    if !TooClose(corrected) {
      forall j | 0 <= j < |p| && j != w ensures p[w].share - p[j].share >= 150_000 {
        WinnerLeads(shares, j);
      }
      assert Leads(p, w);
      forall i | 0 <= i < |p| && Leads(p, i) ensures i == w {
        assert p[w].share < p[i].share + 150_000;
      }
    }
  }

  lemma LeaderNotClose(p: seq<Share>, shares: seq<int>, i: nat)
    requires i < |p| == |shares| && Leads(p, i) && forall k :: 0 <= k < |p| ==> p[k].share == shares[k]
    ensures !TooClose(shares)
  {
    hide Sort;
    if |shares| > 1 {
      OrderedFrom(shares, i);
    }
  }

  lemma ConfidenceHolds(intent: Intent, probabilities: seq<Share>)
    requires IsDistribution(probabilities)
    ensures ConfidenceFits(Finish(intent, probabilities).result)
    ensures
      var r := Finish(intent, probabilities).result;
      (r.stage, r.role) == Context(r.intent)
  {
    hide IsDistribution;
    DistributionIsValid(intent, probabilities);
    var r := Finish(intent, probabilities).result;
    var shares := SharesOf(probabilities);
    hide Sum, Round, Validate;
    if intent != Mixed && intent != Uncertain {
      forall i | 0 <= i < |probabilities| && Leads(probabilities, i)
        ensures Nearest(r.confidence, probabilities[i].share)
      {
        assert i == Winner(shares) by { assert shares[i] <= shares[Winner(shares)]; }
        RoundNearest(shares[i]);
      }
    }
  }

  lemma RoundNearest(millionths: int)
    ensures Nearest(Round(millionths as real / 1000.0), millionths)
  {
    hide Round;
    var x := millionths as real / 1000.0;
    var r := Round(x);
    assert -0.5 <= r as real - x <= 0.5;
    assert (1000 * r - millionths) as real == 1000.0 * (r as real - x);
  }

  /** What is classified reflects the scores. */
  lemma ClassifyReflects(scores: seq<Score>)
    requires IsDictionary(scores)
    ensures Classify(scores).Classified? && Reflects(Classify(scores).result, ScoreOn(scores))
  {
    hide IsDictionary, Finish, IsDistribution, ConfidenceFits, IntentFits, SharesFit, Positive, Corrected, TooClose;
    hide Total, ScoreOf;
    AlwaysADistribution(scores);
    var positive := Positive(scores);
    if positive == [] {
      NothingReflected(scores);
    } else {
      AllPositive(scores);
      PositiveIsDictionary(scores);
      FewLabels(positive);
      var values := Values(positive);
      var shares := Shares(values, Total(values));
      ResidueSmall(values);
      SomethingReflected(scores, shares);
    }
  }

  lemma NothingReflected(scores: seq<Score>)
    requires IsDictionary(scores) && Positive(scores) == []
    ensures Classify(scores).Classified? && Reflects(Classify(scores).result, ScoreOn(scores))
  {
    hide Labels, ScoreOf, Finish;
    var p := [Share(Uncertain, UNIT)];
    PositiveScores(scores);
    AlwaysADistribution(scores);
    DistributionIsValid(Uncertain, p);
    ConfidenceHolds(Uncertain, p);
    assert Leads(p, 0);
  }

  lemma SomethingReflected(scores: seq<Score>, shares: seq<int>)
    requires IsDictionary(scores) && Positive(scores) != [] && |Positive(scores)| <= 6
    requires Total(Values(Positive(scores))) > 0.0
    requires shares == Shares(Values(Positive(scores)), Total(Values(Positive(scores))))
    requires -6 <= 2 * (UNIT - Sum(shares)) <= 6
    ensures Classify(scores).Classified? && Reflects(Classify(scores).result, ScoreOn(scores))
  {
    hide IsDictionary, Finish, IsDistribution, ConfidenceFits, IntentFits, SharesFit, LabelsFit, Positive, Sum;
    hide Shares, Total, Corrected, TooClose, ScoreOf;
    AlwaysADistribution(scores);
    var positive := Positive(scores);
    var p := WithShares(positive, Corrected(shares));
    var intent := if TooClose(Corrected(shares)) then Mixed else positive[Winner(shares)].topic;
    assert Classify(scores) == Finish(intent, p);
    FinishKeeps(intent, p);
    PositiveShares(scores);
    PositiveLabels(scores, Corrected(shares));
    LeadersFit(positive, shares, Classify(scores).result);
    ConfidenceHolds(intent, p);
  }

  lemma FinishKeeps(intent: Intent, probabilities: seq<Share>)
    requires probabilities != [] && Finish(intent, probabilities).Classified?
    ensures Finish(intent, probabilities).result.intent == intent
    ensures Finish(intent, probabilities).result.probabilities == probabilities
  {
    hide Validate, Confidence;
  }

  // ---------- queries ----------

  function Matches(tokens: set<string>, topic: Intent): real {
    |tokens * Terms(topic)| as real
  }

  /** What a query is worth for a topic; branded says that it names a brand. */
  function QueryWeight(tokens: set<string>, branded: bool, topic: Intent): real {
    Matches(tokens, topic) + (if branded && topic == Navigational then 1.5 else 0.0)
  }

  lemma IntentsComplete(t: Intent)
    ensures t in INTENTS <==> t != Mixed && t != Uncertain
    ensures Distinct(INTENTS)
  {
    assert INTENTS[0] == Informational && INTENTS[1] == Commercial && INTENTS[2] == Transactional;
    assert INTENTS[3] == Trust && INTENTS[4] == Navigational;
  }

  method ScoreQuery(tokens: set<string>, branded: bool) returns (scores: seq<Score>)
    ensures IsDictionary(scores) && Uncertain !in Labels(scores)
    ensures forall t :: ScoreOf(scores, t) == QueryWeight(tokens, branded, t)
  {
    hide Labels, IsDictionary, Terms;
    scores := [];
    EmptyDictionary();
    for i := 0 to |INTENTS|
      invariant IsDictionary(scores) && Uncertain !in Labels(scores)
      invariant forall t :: ScoreOf(scores, t) == if t in INTENTS[..i] then Matches(tokens, t) else 0.0
    {
      var intent := INTENTS[i];
      IntentsComplete(intent);
      var matched := tokens * Terms(intent);
      if matched != {} {
        ghost var was := scores;
        scores := AddTo(scores, intent, |matched| as real);
        AddToKeepsDictionary(was, intent, |matched| as real);
        AddToLabels(was, intent, |matched| as real, Uncertain);
        forall t ensures ScoreOf(scores, t) == if t in INTENTS[..i + 1] then Matches(tokens, t) else 0.0 {
          AddToAdds(was, intent, |matched| as real, t);
        }
      }
    }
    if branded {
      ghost var was := scores;
      scores := AddTo(scores, Navigational, 1.5);
      AddToKeepsDictionary(was, Navigational, 1.5);
      AddToLabels(was, Navigational, 1.5, Uncertain);
      forall t { AddToAdds(was, Navigational, 1.5, t); }
    }
    forall t ensures t in INTENTS || Matches(tokens, t) == 0.0 { NoTerms(tokens, t); }
  }

  lemma EmptyDictionary()
    ensures IsDictionary([]) && Uncertain !in Labels([])
  {
  }

  lemma NoTerms(tokens: set<string>, t: Intent)
    ensures t in INTENTS || Matches(tokens, t) == 0.0
  {
    IntentsComplete(t);
    if t !in INTENTS { assert tokens * Terms(t) == {}; }
  }

  /** The result is a distribution; a clear intent has strictly the most points; nothing matched is uncertain. */
  method ClassifyQuery(tokens: set<string>, branded: bool) returns (r: Classification)
    ensures Reflects(r, t =>
              |tokens * Terms(t)| as real + (if branded && t == Navigational then 1.5 else 0.0))
    ensures r.intent == Uncertain <==> forall t :: QueryWeight(tokens, branded, t) == 0.0
    ensures r.intent != Mixed && r.intent != Uncertain ==> forall t :: t != r.intent ==>
      QueryWeight(tokens, branded, t) < QueryWeight(tokens, branded, r.intent)
  {
    hide Classify, Reflects, IsDictionary, Terms;
    var scores := ScoreQuery(tokens, branded);
    ClassifyReflects(scores);
    r := Classify(scores).result;
    ReflectsSame(r, ScoreOn(scores), t =>
      |tokens * Terms(t)| as real + (if branded && t == Navigational then 1.5 else 0.0));
    QueryResult(tokens, branded, scores);
  }

  lemma UncertainIff(tokens: set<string>, branded: bool, scores: seq<Score>)
    requires IsDictionary(scores) && Classify(scores).Classified?
    requires forall t :: ScoreOf(scores, t) == QueryWeight(tokens, branded, t)
    ensures Classify(scores).result.intent == Uncertain <==> forall t :: QueryWeight(tokens, branded, t) == 0.0
  {
    hide IsDictionary, Classify, Positive, QueryWeight;
    var intent := Classify(scores).result.intent;
    IntentScored(scores);
    forall t ensures QueryWeight(tokens, branded, t) >= 0.0 && QueryWeight(tokens, branded, Uncertain) == 0.0 {
      WeightRange(tokens, branded, t);
    }
    if intent == Uncertain {
      forall t ensures QueryWeight(tokens, branded, t) == 0.0 {
        ScoreOfIs(scores, t);
      }
    } else if Positive(scores) == [] {
      NothingScored(scores);
      assert false;
    } else {
      ScoredSomething(scores);
    }
  }

  lemma ScoredSomething(scores: seq<Score>)
    requires IsDictionary(scores) && Positive(scores) != []
    ensures exists t :: ScoreOf(scores, t) > 0.0
  {
    var s := Positive(scores)[0];
    assert s in Positive(scores);
    ScoreOfIs(scores, s.topic);
  }

  lemma WeightRange(tokens: set<string>, branded: bool, t: Intent)
    ensures QueryWeight(tokens, branded, t) >= 0.0 && QueryWeight(tokens, branded, Uncertain) == 0.0
  {
    hide Terms;
    NoTerms(tokens, Uncertain);
    IntentsComplete(Uncertain);
  }

  lemma QueryResult(tokens: set<string>, branded: bool, scores: seq<Score>)
    requires IsDictionary(scores) && Classify(scores).Classified?
    requires forall t :: ScoreOf(scores, t) == QueryWeight(tokens, branded, t)
    ensures
      var intent := Classify(scores).result.intent;
      && (intent == Uncertain <==> forall t :: QueryWeight(tokens, branded, t) == 0.0)
      && (intent != Mixed && intent != Uncertain ==> forall t :: t != intent ==>
          QueryWeight(tokens, branded, t) < QueryWeight(tokens, branded, intent))
  {
    hide IsDictionary, Classify, QueryWeight;
    UncertainIff(tokens, branded, scores);
    IntentScored(scores);
    var intent := Classify(scores).result.intent;
    if intent != Mixed && intent != Uncertain {
      forall t | t != intent ensures QueryWeight(tokens, branded, t) < QueryWeight(tokens, branded, intent) {
        IntentLeads(scores, t);
      }
    }
  }

  // ---------- pages ----------

  /** What a page is worth for a topic: its queries, and its terms by where they occur. */
  function PageWeight(prominent: set<string>, body: set<string>, weights: seq<Score>, topic: Intent): real {
    ScoreOf(weights, topic) + 2.0 * Matches(prominent, topic) + 0.5 * Matches(body - prominent, topic)
  }

  method ScorePage(prominent: set<string>, body: set<string>, weights: seq<Score>) returns (scores: seq<Score>)
    requires IsDictionary(weights)
    ensures IsDictionary(scores)
    ensures forall t :: ScoreOf(scores, t) == PageWeight(prominent, body, weights, t)
  {
    hide Labels, IsDictionary, Terms;
    scores := weights;
    for i := 0 to |INTENTS|
      invariant IsDictionary(scores)
      invariant forall t :: t in INTENTS[..i] ==> ScoreOf(scores, t) == PageWeight(prominent, body, weights, t)
      invariant forall t :: t !in INTENTS[..i] ==> ScoreOf(scores, t) == ScoreOf(weights, t)
    {
      var intent := INTENTS[i];
      IntentsComplete(intent);
      var strong := prominent * Terms(intent);
      var weak := body * Terms(intent) - strong;
      assert weak == (body - prominent) * Terms(intent);
      if strong != {} || weak != {} {
        ghost var was := scores;
        var points := |strong| as real * 2.0 + |weak| as real * 0.5;
        scores := AddTo(scores, intent, points);
        AddToKeepsDictionary(was, intent, points);
        forall t { AddToAdds(was, intent, points, t); }
      }
    }
    forall t ensures t in INTENTS || (Matches(prominent, t) == 0.0 && Matches(body - prominent, t) == 0.0) {
      NoTerms(prominent, t);
      NoTerms(body - prominent, t);
    }
  }

  /** The same for pages: a distribution, and a clear intent leads every topic that scored. */
  method ClassifyPage(prominent: set<string>, body: set<string>, weights: seq<Score>) returns (r: Classification)
    requires IsDictionary(weights)
    ensures Reflects(r, t =>
              ScoreOf(weights, t) + 2.0 * |prominent * Terms(t)| as real
              + 0.5 * |(body - prominent) * Terms(t)| as real)
    ensures
      r.intent != Mixed ==> forall t :: t != r.intent && PageWeight(prominent, body, weights, t) > 0.0 ==>
        PageWeight(prominent, body, weights, t) < PageWeight(prominent, body, weights, r.intent)
  {
    hide Classify, Reflects, IsDictionary, Terms;
    var scores := ScorePage(prominent, body, weights);
    ClassifyReflects(scores);
    r := Classify(scores).result;
    ReflectsSame(r, ScoreOn(scores), t =>
      ScoreOf(weights, t) + 2.0 * |prominent * Terms(t)| as real + 0.5 * |(body - prominent) * Terms(t)| as real);
    if r.intent != Mixed {
      forall t | t != r.intent && PageWeight(prominent, body, weights, t) > 0.0
        ensures PageWeight(prominent, body, weights, t) < PageWeight(prominent, body, weights, r.intent)
      {
        IntentLeads(scores, t);
      }
    }
  }
}
