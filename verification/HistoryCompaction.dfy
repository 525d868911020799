/**
 * Rolling summaries of an append-only history. Facts are either covered by the returned
 * summary or returned as they are; what a summary covers only grows.
 */
module HistoryCompaction {
  import opened Common

  /** Memories of one run and scope, oldest first. */
  datatype Record = Fact(id: Id) | Summary(id: Id, covered: seq<Id>)

  datatype Settings = Settings(threshold: nat, batch: nat)

  /** The constructor's floors. */
  predicate Configured(s: Settings) {
    s.threshold >= 4 && s.batch >= 4
  }

  function Facts(durable: seq<Record>): (facts: seq<Record>)
    ensures forall f :: f in facts ==> f in durable && f.Fact?
  {
    if durable == [] then []
    else
      var last := durable[|durable| - 1];
      Facts(durable[..|durable| - 1]) + if last.Fact? then [last] else []
  }

  function Latest(durable: seq<Record>): (s: Option<Record>)
    ensures s.Some? ==> s.value.Summary? && s.value in durable
  {
    if durable == [] then None
    else if durable[|durable| - 1].Summary? then Some(durable[|durable| - 1])
    else Latest(durable[..|durable| - 1])
  }

  function SummaryCount(durable: seq<Record>): nat {
    if durable == [] then 0
    else SummaryCount(durable[..|durable| - 1]) + if durable[|durable| - 1].Summary? then 1 else 0
  }

  function Ids(records: seq<Record>): (ids: seq<Id>)
    ensures |ids| == |records| && forall k :: 0 <= k < |ids| ==> ids[k] == records[k].id
  {
    seq(|records|, k requires 0 <= k < |records| => records[k].id)
  }

  function CoveredBy(s: Option<Record>): seq<Id> {
    if s.Some? && s.value.Summary? then s.value.covered else []
  }

  function Head(s: Option<Record>): seq<Record> {
    if s.Some? then [s.value] else []
  }

  /** Where the recent window of `n` entries starts; it is never shorter than two. */
  function Split(n: nat, w: nat): (k: nat)
    ensures k <= n
  {
    if Max(2, w) <= n then n - Max(2, w) else 0
  }

  // ---------------------------------------------------------------- the history

  /** The least coverage after `k` summaries: the first covers something, the others a batch each. */
  function Floor(batch: nat, k: nat): nat {
    if k <= 1 then k else Floor(batch, k - 1) + batch
  }

  lemma {:induction false} FloorIs(batch: nat, k: nat)
    requires k >= 1
    ensures Floor(batch, k) == (k - 1) * batch + 1
  {
    if k > 1 {
      FloorIs(batch, k - 1);
      assert (k - 2) * batch + batch == (k - 1) * batch;
    }
  }

  ghost predicate DistinctIds(facts: seq<Record>) {
    forall i, j :: 0 <= i < j < |facts| ==> facts[i].id != facts[j].id
  }

  /** Distinct facts; the latest summary covers a prefix of them, and each refresh a full batch. */
  ghost predicate Sound(s: Settings, durable: seq<Record>) {
    var facts, covered := Facts(durable), CoveredBy(Latest(durable));
    && DistinctIds(facts) && |covered| <= |facts| && covered == Ids(facts[..|covered|])
    && (Latest(durable).Some? <==> SummaryCount(durable) > 0)
    && |covered| >= Floor(s.batch, SummaryCount(durable))
  }

  datatype Turn = Turn(records: seq<Record>, durable: seq<Record>)

  /** What is returned above the threshold, and the summary that is made, if one is. */
  function Composed(s: Settings, facts: seq<Record>, previous: Option<Record>, cut: nat, answer: Option<Id>): (seq<Record>, Option<Record>)
    requires cut <= |facts| && |CoveredBy(previous)| <= |facts|
  {
    var c := |CoveredBy(previous)|;
    if cut <= c then (Head(previous) + facts[cut..], None)
    else if answer.None? || (previous.Some? && cut - c < s.batch) then (Head(previous) + facts[c..], None)
    else
      var next := Min(c + s.batch, cut);
      var summary := Summary(answer.value, Ids(facts[..next]));
      ([summary] + facts[next..], Some(summary))
  }

  /**
   * The context for one call with recent window `w`. `answer` is the id of the new summary
   * if the model is asked and answers well, and `None` if that fails.
   */
  function Context(s: Settings, durable: seq<Record>, w: nat, answer: Option<Id>): Turn
    requires |CoveredBy(Latest(durable))| <= |Facts(durable)|
  {
    var facts := Facts(durable);
    if |facts| <= s.threshold then Turn(durable[Split(|durable|, w)..], durable)
    else
      var (records, made) := Composed(s, facts, Latest(durable), Split(|facts|, w), answer);
      Turn(records, durable + Head(made))
  }

  // ---------------------------------------------------------------- the service

  class Compactor {
    const settings: Settings
    var durable: seq<Record>

    constructor (settings: Settings)
      ensures this.settings == settings && durable == []
    {
      this.settings, durable := settings, [];
    }

    /** Facts are only ever appended, each under an id of its own. */
    method Remember(id: Id)
      requires Sound(settings, durable) && forall f :: f in Facts(durable) ==> f.id != id
      modifies this
      ensures Sound(settings, durable) && durable == old(durable) + [Fact(id)]
    {
      AppendFact(settings, durable, id);
      durable := durable + [Fact(id)];
    }

    /** The source records: everything that is not a summary. */
    method Source() returns (facts: seq<Record>)
      ensures facts == Facts(durable)
    {
      facts := [];
      for k := 0 to |durable|
        invariant facts == Facts(durable[..k])
      {
        assert durable[..k + 1][..k] == durable[..k];
        if durable[k].Fact? { facts := facts + [durable[k]]; }
      }
      assert durable[..|durable|] == durable;
    }

    method LatestSummary() returns (s: Option<Record>)
      ensures s == Latest(durable)
    {
      var k := |durable|;
      assert durable[..k] == durable;
      while k > 0
        invariant 0 <= k <= |durable| && Latest(durable) == Latest(durable[..k])
      {
        assert durable[..k][..k - 1] == durable[..k - 1];
        if durable[k - 1].Summary? { return Some(durable[k - 1]); }
        k := k - 1;
      }
      s := None;
    }

    method ContextRecords(w: nat, answer: Option<Id>) returns (records: seq<Record>)
      requires Sound(settings, durable) && Configured(settings)
      modifies this
      ensures Sound(settings, durable)
      ensures Turn(records, durable) == Context(settings, old(durable), w, answer)
      ensures |Facts(old(durable))| <= settings.threshold ==>
                durable == old(durable) && LastOnes(records, durable, Min(Max(2, w), |durable|))
      ensures WindowReturned(settings, durable, w, records)
    {
      hide Sound;
      hide WindowReturned;
      hide Context;
      hide Composed;
      hide LastOnes;
      hide Facts;
      hide Latest;
      hide Ids;
      hide DistinctIds;
      BelowThreshold(settings, durable, w, answer);
      LastFactsReturned(settings, durable, w, answer);
      ContextBranches(settings, durable, w, answer);
      ContextKeepsSound(settings, durable, w, answer);
      WindowStaysReturned(settings, durable, w, answer);
      var facts := Source();
      if |facts| <= settings.threshold { return durable[Split(|durable|, w)..]; }
      var previous := LatestSummary();
      var made: Option<Record>;
      records, made := Compose(settings, facts, previous, Split(|facts|, w), answer);
      durable := durable + Head(made);
    }
  }

  /** The last `n` records, in order. */
  predicate LastOnes(records: seq<Record>, durable: seq<Record>, n: int) {
    0 <= n <= |durable| && |records| == n && forall k :: 0 <= k < n ==> records[k] == durable[|durable| - n + k]
  }

  /** The last `max(2, w)` facts are returned as they are, unless summaries take their places below the threshold. */
  predicate WindowReturned(s: Settings, durable: seq<Record>, w: nat, records: seq<Record>) {
    var facts := Facts(durable);
    |facts| > s.threshold || Latest(durable).None? ==>
      forall i :: 0 <= i < |facts| && |facts| - Max(2, w) <= i ==> facts[i] in records
  }

  lemma SoundBounds(s: Settings, durable: seq<Record>)
    requires Sound(s, durable)
    ensures var covered := CoveredBy(Latest(durable));
            |covered| <= |Facts(durable)| && covered == Ids(Facts(durable)[..|covered|]) && DistinctIds(Facts(durable))
  {
  }

  /** What the service needs to know of its specification. */
  lemma ContextBranches(s: Settings, durable: seq<Record>, w: nat, answer: Option<Id>)
    requires Sound(s, durable)
    ensures var facts, covered := Facts(durable), CoveredBy(Latest(durable));
            && |covered| <= |facts| && covered == Ids(facts[..|covered|]) && DistinctIds(facts)
            && Context(s, durable, w, answer) ==
               if |facts| <= s.threshold then Turn(durable[Split(|durable|, w)..], durable)
               else
                 var (records, made) := Composed(s, facts, Latest(durable), Split(|facts|, w), answer);
                 Turn(records, durable + Head(made))
  {
  }

  method Compose(s: Settings, facts: seq<Record>, previous: Option<Record>, cut: nat, answer: Option<Id>)
    returns (records: seq<Record>, made: Option<Record>)
    requires cut <= |facts| && DistinctIds(facts) && Configured(s)
    requires var covered := CoveredBy(previous); |covered| <= |facts| && covered == Ids(facts[..|covered|])
    ensures (records, made) == Composed(s, facts, previous, cut, answer)
  {
    var recent, covered := facts[cut..], CoveredBy(previous);
    var uncovered := Uncovered(facts, cut, covered);
    UncoveredThenRecent(facts, cut, |covered|);
    assert cut <= |covered| ==> uncovered == [] && uncovered + recent == recent;
    if previous.Some? && |uncovered| < s.batch { return Head(previous) + (uncovered + recent), None; }
    var batch := uncovered[..Min(s.batch, |uncovered|)];
    if batch == [] { return Head(previous) + recent, None; }
    if answer.None? { return Head(previous) + (uncovered + recent), None; }
    var ids := Extend(facts, covered, batch);
    UncoveredThenRecent(facts, cut, |ids|);
    var summary := Summary(answer.value, ids);
    return [summary] + (uncovered[|batch|..] + recent), Some(summary);
  }

  lemma UncoveredThenRecent(facts: seq<Record>, cut: nat, c: nat)
    requires cut <= |facts|
    ensures c <= cut ==> facts[c..cut] + facts[cut..] == facts[c..]
  {
  }

  /** The eligible facts whose ids are not covered. */
  method Uncovered(facts: seq<Record>, cut: nat, covered: seq<Id>) returns (uncovered: seq<Record>)
    requires cut <= |facts| && |covered| <= |facts| && covered == Ids(facts[..|covered|]) && DistinctIds(facts)
    ensures uncovered == if |covered| <= cut then facts[|covered|..cut] else []
  {
    uncovered := [];
    for k := 0 to cut
      invariant uncovered == if |covered| <= k then facts[|covered|..k] else []
    {
      InCovered(facts, covered, k);
      if facts[k].id !in covered { uncovered := uncovered + [facts[k]]; }
    }
  }

  /** The covered ids with those of the batch appended, each once. */
  method Extend(facts: seq<Record>, covered: seq<Id>, batch: seq<Record>) returns (ids: seq<Id>)
    requires |covered| + |batch| <= |facts| && batch == facts[|covered|..|covered| + |batch|]
    requires covered == Ids(facts[..|covered|]) && DistinctIds(facts)
    ensures ids == Ids(facts[..|covered| + |batch|])
  {
    ids := covered;
    for k := 0 to |batch|
      invariant ids == Ids(facts[..|covered| + k])
    {
      var next := |covered| + k;
      InCovered(facts, ids, next);
      assert facts[..next + 1] == facts[..next] + [facts[next]];
      if batch[k].id !in ids { ids := ids + [batch[k].id]; }
    }
  }

  /** Membership in a covered prefix is a matter of position. */
  lemma InCovered(facts: seq<Record>, covered: seq<Id>, k: nat)
    requires |covered| <= |facts| && covered == Ids(facts[..|covered|]) && k < |facts|
    requires DistinctIds(facts)
    ensures facts[k].id in covered <==> k < |covered|
  {
    if k < |covered| { assert covered[k] == facts[k].id; }
  }

  lemma AppendFact(s: Settings, durable: seq<Record>, id: Id)
    requires Sound(s, durable) && forall f :: f in Facts(durable) ==> f.id != id
    ensures Sound(s, durable + [Fact(id)])
    ensures Facts(durable + [Fact(id)]) == Facts(durable) + [Fact(id)]
    ensures Latest(durable + [Fact(id)]) == Latest(durable)
  {
    var next := durable + [Fact(id)];
    assert next[..|durable|] == durable;
    var facts, covered := Facts(durable), CoveredBy(Latest(durable));
    assert Facts(next) == facts + [Fact(id)];
    assert Facts(next)[..|covered|] == facts[..|covered|];
    forall k | 0 <= k < |facts| ensures facts[k].id != id { assert facts[k] in facts; }
  }

  lemma AppendSummary(durable: seq<Record>, summary: Record)
    requires summary.Summary?
    ensures var next := durable + [summary];
            && Facts(next) == Facts(durable) && Latest(next) == Some(summary)
            && SummaryCount(next) == SummaryCount(durable) + 1
  {
    assert (durable + [summary])[..|durable|] == durable;
  }

  lemma ContextKeepsSound(s: Settings, durable: seq<Record>, w: nat, answer: Option<Id>)
    requires Sound(s, durable) && Configured(s)
    ensures Sound(s, Context(s, durable, w, answer).durable)
    ensures Facts(Context(s, durable, w, answer).durable) == Facts(durable)
    ensures CoveredBy(Latest(durable)) <= CoveredBy(Latest(Context(s, durable, w, answer).durable))
  {
    hide Facts;
    hide Latest;
    hide SummaryCount;
    hide Composed;
    hide Ids;
    hide DistinctIds;
    var facts := Facts(durable);
    if |facts| > s.threshold {
      var (records, made) := Composed(s, facts, Latest(durable), Split(|facts|, w), answer);
      CoveredExtends(s, durable, w, answer);
      if made.Some? {
        AppendSummary(durable, made.value);
      } else {
        assert durable + [] == durable;
      }
    }
  }

  lemma CoveredExtends(s: Settings, durable: seq<Record>, w: nat, answer: Option<Id>)
    requires Sound(s, durable) && Configured(s)
    ensures var facts, c := Facts(durable), |CoveredBy(Latest(durable))|;
            var (records, made) := Composed(s, facts, Latest(durable), Split(|facts|, w), answer);
            made.Some? ==>
              && made.value.Summary? && c < |made.value.covered| <= Split(|facts|, w)
              && (Latest(durable).Some? ==> |made.value.covered| == c + s.batch)
              && CoveredBy(Latest(durable)) <= made.value.covered == Ids(facts[..|made.value.covered|])
  {
  }

  lemma LatestIsSummary(durable: seq<Record>)
    ensures Latest(durable).Some? ==> Latest(durable).value.Summary?
  {
  }

  /** What a call returns, however it comes about: the summary, then the facts from some position on. */
  lemma ReturnedShape(s: Settings, durable: seq<Record>, w: nat, answer: Option<Id>)
    requires Sound(s, durable) && Configured(s) && s.threshold < |Facts(durable)|
    ensures var facts, turn := Facts(durable), Context(s, durable, w, answer);
            var summary, cut := Latest(turn.durable), Split(|facts|, w);
            && (summary.Some? ==> summary.value.Summary?)
            && turn.records == Head(summary) + facts[Min(|CoveredBy(summary)|, cut)..]
            && |CoveredBy(summary)| <= Max(|CoveredBy(Latest(durable))|, cut)
  {
    hide Facts;
    hide Latest;
    hide SummaryCount;
    hide DistinctIds;
    hide Ids;
    LatestIsSummary(durable);
    ContextKeepsSound(s, durable, w, answer);
    var facts := Facts(durable);
    var (records, made) := Composed(s, facts, Latest(durable), Split(|facts|, w), answer);
    if made.Some? {
      AppendSummary(durable, made.value);
      CoveredExtends(s, durable, w, answer);
    } else {
      assert durable + [] == durable;
    }
  }

  // ---------------------------------------------------------------- the recent window, and when to summarise

  /** Without a summary every record is a fact. */
  lemma {:induction false} OnlyFacts(durable: seq<Record>)
    requires Latest(durable).None?
    ensures Facts(durable) == durable
  {
    if durable != [] { OnlyFacts(durable[..|durable| - 1]); }
  }

  lemma LastFactsReturned(s: Settings, durable: seq<Record>, w: nat, answer: Option<Id>)
    requires Sound(s, durable) && Configured(s)
    ensures |CoveredBy(Latest(durable))| <= |Facts(durable)|
    ensures WindowReturned(s, durable, w, Context(s, durable, w, answer).records)
  {
    hide Sound;
    hide Context;
    hide Facts;
    hide Latest;
    ContextBranches(s, durable, w, answer);
    var facts, turn := Facts(durable), Context(s, durable, w, answer);
    if |facts| > s.threshold {
      ReturnedShape(s, durable, w, answer);
      ReturnsSuffix(facts, Head(Latest(turn.durable)), Min(|CoveredBy(Latest(turn.durable))|, Split(|facts|, w)), w, turn.records);
    } else if Latest(durable).None? {
      OnlyFacts(durable);
      assert [] + facts[Split(|facts|, w)..] == facts[Split(|facts|, w)..];
      ReturnsSuffix(facts, [], Split(|facts|, w), w, turn.records);
    }
  }

  lemma ReturnsSuffix(facts: seq<Record>, head: seq<Record>, from: nat, w: nat, records: seq<Record>)
    requires from <= Split(|facts|, w) && records == head + facts[from..]
    ensures forall i :: 0 <= i < |facts| && |facts| - Max(2, w) <= i ==> facts[i] in records
  {
    forall i | 0 <= i < |facts| && |facts| - Max(2, w) <= i ensures facts[i] in records {
      assert records[|head| + (i - from)] == facts[i];
    }
  }

  /** What a call adds is no fact, so its window is that of the memory it leaves. */
  lemma WindowStaysReturned(s: Settings, durable: seq<Record>, w: nat, answer: Option<Id>)
    requires Sound(s, durable) && Configured(s)
    ensures |CoveredBy(Latest(durable))| <= |Facts(durable)|
    ensures var turn := Context(s, durable, w, answer);
            WindowReturned(s, durable, w, turn.records) ==> WindowReturned(s, turn.durable, w, turn.records)
  {
    hide Sound;
    hide Facts;
    hide Latest;
    hide Composed;
    ContextBranches(s, durable, w, answer);
    ContextKeepsSound(s, durable, w, answer);
  }

  /** At or below the threshold nothing is stored, and the window is what was remembered last. */
  lemma BelowThreshold(s: Settings, durable: seq<Record>, w: nat, answer: Option<Id>)
    requires Sound(s, durable)
    ensures |CoveredBy(Latest(durable))| <= |Facts(durable)|
    ensures var turn := Context(s, durable, w, answer);
            |Facts(durable)| <= s.threshold ==>
              turn.durable == durable && LastOnes(turn.records, durable, Min(Max(2, w), |durable|))
  {
    hide Sound;
    hide Facts;
    hide Latest;
    ContextBranches(s, durable, w, answer);
  }

  /** When a summary is made, and of what. */
  lemma ComposedIff(s: Settings, facts: seq<Record>, previous: Option<Record>, w: nat, answer: Option<Id>)
    requires Configured(s) && s.threshold < |facts| && |CoveredBy(previous)| <= |facts|
    ensures var c, made := |CoveredBy(previous)|, Composed(s, facts, previous, Split(|facts|, w), answer).1;
            var open := |facts| - Max(2, w) - c;
            if answer.Some? && open >= (if previous.Some? then s.batch else 1) then
              c + Min(s.batch, open) <= |facts| && made == Some(Summary(answer.value, Ids(facts[..c + Min(s.batch, open)])))
            else made == None
  {
    hide Ids;
  }

  /**
   * Above the threshold a new summary is made exactly if the model answers and enough facts
   * before the recent window are not covered: a full batch of them, or one if there is no
   * summary yet. It then covers one more batch, or all of them if they are fewer.
   */
  lemma RefreshIff(s: Settings, durable: seq<Record>, w: nat, answer: Option<Id>)
    requires Sound(s, durable) && Configured(s) && s.threshold < |Facts(durable)|
    ensures |CoveredBy(Latest(durable))| <= |Facts(durable)|
    ensures var facts, after, c := Facts(durable), Context(s, durable, w, answer).durable, |CoveredBy(Latest(durable))|;
            var open := |facts| - Max(2, w) - c;
            if answer.Some? && open >= (if Latest(durable).Some? then s.batch else 1) then
              c + Min(s.batch, open) <= |facts| && after == durable + [Summary(answer.value, Ids(facts[..c + Min(s.batch, open)]))]
            else after == durable
  {
    hide Sound;
    hide Facts;
    hide Latest;
    hide Composed;
    hide Ids;
    ContextBranches(s, durable, w, answer);
    ComposedIff(s, Facts(durable), Latest(durable), w, answer);
    assert durable + [] == durable;
  }

  // ---------------------------------------------------------------- nothing is lost

  /**
   * Above the threshold every fact is covered by the returned summary or returned as it is,
   * in order and no fact twice - whether or not the model is asked and whether or not it
   * answers.
   */
  lemma NothingLost(s: Settings, durable: seq<Record>, w: nat, answer: Option<Id>, k: nat)
    requires Sound(s, durable) && Configured(s) && s.threshold < |Facts(durable)| && k < |Facts(durable)|
    ensures var facts, turn := Facts(durable), Context(s, durable, w, answer);
            var summary := Latest(turn.durable);
            && Head(summary) <= turn.records
            && (exists from :: 0 <= from <= |facts| && turn.records == Head(summary) + facts[from..])
            && (facts[k].id in CoveredBy(summary) || facts[k] in turn.records)
  {
    ContextKeepsSound(s, durable, w, answer);
    ReturnedShape(s, durable, w, answer);
    var facts, summary := Facts(durable), Latest(Context(s, durable, w, answer).durable);
    InCovered(facts, CoveredBy(summary), k);
    ReturnedFrom(facts, summary, Min(|CoveredBy(summary)|, Split(|facts|, w)), k);
  }

  /**
   * A fact is both covered and returned exactly when it lies in the recent window and was
   * covered before the call; so never, as long as the window does not reach back past the
   * watermark.
   */
  lemma CoveredTwiceIff(s: Settings, durable: seq<Record>, w: nat, answer: Option<Id>, k: nat)
    requires Sound(s, durable) && Configured(s) && s.threshold < |Facts(durable)| && k < |Facts(durable)|
    ensures var facts, turn := Facts(durable), Context(s, durable, w, answer);
            (facts[k].id in CoveredBy(Latest(turn.durable)) && facts[k] in turn.records)
            <==> Split(|facts|, w) <= k < |CoveredBy(Latest(durable))|
  {
    ContextKeepsSound(s, durable, w, answer);
    ReturnedShape(s, durable, w, answer);
    var facts, summary := Facts(durable), Latest(Context(s, durable, w, answer).durable);
    InCovered(facts, CoveredBy(summary), k);
    ReturnedFrom(facts, summary, Min(|CoveredBy(summary)|, Split(|facts|, w)), k);
  }

  lemma ReturnedFrom(facts: seq<Record>, summary: Option<Record>, from: nat, k: nat)
    requires DistinctIds(facts)
    requires forall f :: f in facts ==> f.Fact?
    requires summary.Some? ==> summary.value.Summary?
    requires from <= |facts| && k < |facts|
    ensures facts[k] in Head(summary) + facts[from..] <==> from <= k
  {
    assert facts[k] in facts;
    if from <= k { assert facts[from..][k - from] == facts[k]; }
  }

  /**
   * The recent window is never covered: a watermark that is not inside the window stays
   * outside it in this call and, while facts are appended, in every later call whose window
   * is no wider.
   */
  lemma WindowStaysUncovered(s: Settings, durable: seq<Record>, w: nat, answer: Option<Id>, n: nat, v: nat)
    requires Sound(s, durable) && Configured(s)
    requires |CoveredBy(Latest(durable))| <= Split(|Facts(durable)|, w)
    requires n >= |Facts(durable)| && v <= w
    ensures |CoveredBy(Latest(Context(s, durable, w, answer).durable))| <= Split(n, v)
  {
    if |Facts(durable)| > s.threshold { ReturnedShape(s, durable, w, answer); }
  }

  // ---------------------------------------------------------------- whole sessions

  /** A fact is remembered, or the context for a call with recent window `w` is asked for. */
  datatype Event = Remembers(id: Id) | Asks(window: nat, answer: Option<Id>)

  predicate FreshIds(events: seq<Event>) {
    forall i, j :: 0 <= i < j < |events| && events[i].Remembers? && events[j].Remembers? ==> events[i].id != events[j].id
  }

  predicate NeverWider(events: seq<Event>) {
    forall i, j :: 0 <= i < j < |events| && events[i].Asks? && events[j].Asks? ==> events[j].window <= events[i].window
  }

  /** No fact is covered by the summary and returned as well. */
  predicate NoneTwice(t: Turn) {
    forall f :: f in Facts(t.durable) ==> !(f.id in CoveredBy(Latest(t.durable)) && f in t.records)
  }

  predicate NoneLost(t: Turn) {
    forall f :: f in Facts(t.durable) ==> f.id in CoveredBy(Latest(t.durable)) || f in t.records
  }

  /**
   * The watermark stays outside every window still to come, and below the threshold there is
   * no summary yet.
   */
  ghost predicate Ahead(s: Settings, durable: seq<Record>, widest: Option<nat>) {
    && Sound(s, durable)
    && (Latest(durable).Some? ==> |Facts(durable)| > s.threshold)
    && (forall n: nat, v: nat {:trigger Split(n, v)} :: n >= |Facts(durable)| && (widest.Some? ==> v <= widest.value) ==>
          |CoveredBy(Latest(durable))| <= Split(n, v))
  }

  lemma AheadAfterFact(s: Settings, durable: seq<Record>, widest: Option<nat>, id: Id)
    requires Ahead(s, durable, widest) && forall f :: f in Facts(durable) ==> f.id != id
    ensures Ahead(s, durable + [Fact(id)], widest)
  {
    AppendFact(s, durable, id);
  }

  lemma AheadAfterCall(s: Settings, durable: seq<Record>, widest: Option<nat>, w: nat, answer: Option<Id>)
    requires Configured(s) && Ahead(s, durable, widest) && (widest.Some? ==> w <= widest.value)
    ensures Ahead(s, Context(s, durable, w, answer).durable, Some(w))
  {
    hide Facts;
    hide Latest;
    var after := Context(s, durable, w, answer).durable;
    ContextKeepsSound(s, durable, w, answer);
    assert |CoveredBy(Latest(durable))| <= Split(|Facts(durable)|, w);
    forall n: nat, v: nat | n >= |Facts(after)| && v <= w ensures |CoveredBy(Latest(after))| <= Split(n, v) {
      WindowStaysUncovered(s, durable, w, answer, n, v);
    }
  }

  /** One call of a session: nothing covered is returned, and above the threshold nothing is lost. */
  lemma CallSeparates(s: Settings, durable: seq<Record>, widest: Option<nat>, w: nat, answer: Option<Id>)
    requires Configured(s) && Ahead(s, durable, widest) && (widest.Some? ==> w <= widest.value)
    ensures NoneTwice(Context(s, durable, w, answer))
    ensures |Facts(durable)| > s.threshold ==> NoneLost(Context(s, durable, w, answer))
  {
    hide Sound;
    hide Facts;
    hide Latest;
    var turn, facts := Context(s, durable, w, answer), Facts(durable);
    SoundAhead(s, durable, widest);
    ContextKeepsSound(s, durable, w, answer);
    assert |CoveredBy(Latest(durable))| <= Split(|facts|, w);
    if |facts| > s.threshold {
      forall f | f in facts
        ensures !(f.id in CoveredBy(Latest(turn.durable)) && f in turn.records)
        ensures f.id in CoveredBy(Latest(turn.durable)) || f in turn.records
      {
        var k :| 0 <= k < |facts| && facts[k] == f;
        CoveredTwiceIff(s, durable, w, answer, k);
        NothingLost(s, durable, w, answer, k);
      }
    }
  }

  lemma SoundAhead(s: Settings, durable: seq<Record>, widest: Option<nat>)
    requires Ahead(s, durable, widest)
    ensures Sound(s, durable)
  {
  }

  /**
   * Any number of facts and calls in any order, with windows that never widen: no call ever
   * returns a fact that its summary covers, and above the threshold none loses a fact.
   */
  method Session(s: Settings, events: seq<Event>) returns (turns: seq<Turn>)
    requires Configured(s) && FreshIds(events) && NeverWider(events)
    ensures |turns| == Calls(events) && forall k :: 0 <= k < |turns| ==> Separates(s, turns[k])
  {
    hide AtEvent;
    hide Separates;
    hide Context;
    hide Sound;
    hide Facts;
    var c := new Compactor(s);
    ghost var widest: Option<nat> := None;
    turns := [];
    NothingYet(s, events);
    for k := 0 to |events|
      invariant AtEvent(s, events, k, c.durable, widest) && c.settings == s
      invariant |turns| == Calls(events[..k]) && forall i :: 0 <= i < |turns| ==> Separates(s, turns[i])
    {
      assert events[..k + 1][..k] == events[..k];
      match events[k] {
        case Remembers(id) =>
          FactRemembered(s, events, k, c.durable, widest);
          c.Remember(id);
        case Asks(w, answer) =>
          CallAnswered(s, events, k, c.durable, widest);
          var records := c.ContextRecords(w, answer);
          turns := turns + [Turn(records, c.durable)];
          widest := Some(w);
      }
    }
    assert events[..|events|] == events;
  }

  function Calls(events: seq<Event>): nat {
    if events == [] then 0 else Calls(events[..|events| - 1]) + if events[|events| - 1].Asks? then 1 else 0
  }

  predicate Separates(s: Settings, t: Turn) {
    NoneTwice(t) && (|Facts(t.durable)| > s.threshold ==> NoneLost(t))
  }

  /** The state of a session before its event `k`. */
  ghost predicate AtEvent(s: Settings, events: seq<Event>, k: nat, durable: seq<Record>, widest: Option<nat>) {
    && k <= |events| && Ahead(s, durable, widest)
    && (forall f :: f in Facts(durable) ==> exists i :: 0 <= i < k && events[i] == Remembers(f.id))
    && (forall j :: k <= j < |events| && events[j].Asks? && widest.Some? ==> events[j].window <= widest.value)
  }

  lemma FactRemembered(s: Settings, events: seq<Event>, k: nat, durable: seq<Record>, widest: Option<nat>)
    requires k < |events| && events[k].Remembers? && FreshIds(events) && AtEvent(s, events, k, durable, widest)
    ensures Sound(s, durable) && forall f :: f in Facts(durable) ==> f.id != events[k].id
    ensures AtEvent(s, events, k + 1, durable + [Fact(events[k].id)], widest)
  {
    hide Ahead;
    SoundAhead(s, durable, widest);
    AheadAfterFact(s, durable, widest, events[k].id);
    AppendFact(s, durable, events[k].id);
  }

  lemma CallAnswered(s: Settings, events: seq<Event>, k: nat, durable: seq<Record>, widest: Option<nat>)
    requires Configured(s) && k < |events| && events[k].Asks? && NeverWider(events) && AtEvent(s, events, k, durable, widest)
    ensures Sound(s, durable)
    ensures |CoveredBy(Latest(durable))| <= |Facts(durable)|
    ensures var turn := Context(s, durable, events[k].window, events[k].answer);
            Separates(s, turn) && AtEvent(s, events, k + 1, turn.durable, Some(events[k].window))
  {
    hide Ahead;
    hide Context;
    SoundAhead(s, durable, widest);
    ContextKeepsSound(s, durable, events[k].window, events[k].answer);
    CallSeparates(s, durable, widest, events[k].window, events[k].answer);
    AheadAfterCall(s, durable, widest, events[k].window, events[k].answer);
  }

  lemma NothingYet(s: Settings, events: seq<Event>)
    requires Configured(s)
    ensures AtEvent(s, events, 0, [], None)
  {
    assert Ids([]) == [];
  }

  /**
   * Asked with a wider window than before, the service does return a covered fact once more:
   * after five facts and a call with window 2, a call with window 3 does.
   */
  lemma WiderWindowRepeats(s: Settings)
    requires s == Settings(4, 4)
    ensures var facts := [Fact(0), Fact(1), Fact(2), Fact(3), Fact(4)];
            && |CoveredBy(Latest(facts))| <= |Facts(facts)|
            && var first := Context(s, facts, 2, Some(9));
               && |CoveredBy(Latest(first.durable))| <= |Facts(first.durable)|
               && NoneTwice(first) && !NoneTwice(Context(s, first.durable, 3, None))
  {
    hide Facts;
    hide Latest;
    hide SummaryCount;
    var facts := [Fact(0), Fact(1), Fact(2), Fact(3), Fact(4)];
    FactsOnly(facts);
    assert Sound(s, facts);
    ContextKeepsSound(s, facts, 2, Some(9));
    var summary := Summary(9, Ids(facts[..3]));
    AppendSummary(facts, summary);
    var first := Context(s, facts, 2, Some(9));
    assert Split(5, 2) == 3 && Split(5, 3) == 2;
    assert first.durable == facts + [summary];
    forall f | f in facts ensures !(f.id in summary.covered && f in first.records) {
      var k :| 0 <= k < 5 && facts[k] == f;
      CoveredTwiceIff(s, facts, 2, Some(9), k);
    }
    CoveredTwiceIff(s, first.durable, 3, None, 2);
    ContextKeepsSound(s, first.durable, 3, None);
    assert facts[2] in facts;
  }

  lemma {:induction false} FactsOnly(facts: seq<Record>)
    requires forall f :: f in facts ==> f.Fact?
    ensures Facts(facts) == facts && Latest(facts).None? && SummaryCount(facts) == 0
  {
    if facts != [] {
      FactsOnly(facts[..|facts| - 1]);
      assert facts[|facts| - 1] in facts;
    }
  }

  /** After `k` summaries at least `(k - 1) * batch + 1` facts are covered. */
  lemma CoverageGrows(s: Settings, durable: seq<Record>)
    requires Sound(s, durable) && Configured(s) && SummaryCount(durable) > 0
    ensures |CoveredBy(Latest(durable))| >= (SummaryCount(durable) - 1) * s.batch + 1
  {
    FloorIs(s.batch, SummaryCount(durable));
  }
}
