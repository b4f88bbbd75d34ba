/** Counters with labels on top of a metric that can only be added to (pkg/networkservice/metrics/stats/prometheus.go). */
module LabeledCounter {
  import opened Wrappers

  type Labels = seq<string>

  /** Whole numbers that a float64 holds exactly, and so do their sums and differences in this range. */
  type Value = x: int | 0 <= x < 0x20_0000_0000_0000

  /** The exported series and the last value of each key. */
  datatype Counter = Counter(metric: map<Labels, nat>, lastValues: map<string, Value>)

  const EMPTY := Counter(map[], map[])

  function Get<K, V>(m: map<K, V>, key: K): Option<V> {
    if key in m then Some(m[key]) else None
  }

  function ValueOr0(o: Option<nat>): nat {
    if o.Some? then o.value else 0
  }

  // ---- Keys ----

  function KeyFromLabels(labels: Labels): string {
    if labels == [] then ""
    else if |labels| == 1 then labels[0]
    else labels[0] + "|" + KeyFromLabels(labels[1..])
  }

  /** As many labels as the metric has names, without the separator in any. */
  predicate Plain(labels: Labels, n: nat) {
    |labels| == n && forall i :: 0 <= i < n ==> '|' !in labels[i]
  }

  lemma FirstLabel(a: string, b: string, as': string, bs: string)
    requires '|' !in a && '|' !in b && a + "|" + as' == b + "|" + bs
    ensures a == b && as' == bs
  {
    var s := a + "|" + as';
    assert s[|a|] == '|' && s[|b|] == '|';
    assert forall i :: 0 <= i < |a| ==> s[i] in a;
    assert forall i :: 0 <= i < |b| ==> s[i] in b;
    assert s[..|a|] == a && s[..|b|] == b && s[|a| + 1..] == as' && s[|b| + 1..] == bs;
  }

  lemma {:induction false} PlainKeysDiffer(a: Labels, b: Labels, n: nat)
    requires Plain(a, n) && Plain(b, n)
    ensures KeyFromLabels(a) == KeyFromLabels(b) <==> a == b
  {
    if n > 1 && KeyFromLabels(a) == KeyFromLabels(b) {
      FirstLabel(a[0], b[0], KeyFromLabels(a[1..]), KeyFromLabels(b[1..]));
      PlainKeysDiffer(a[1..], b[1..], n - 1);
      assert a == [a[0]] + a[1..] && b == [b[0]] + b[1..];
    }
  }

  // ---- Steps ----

  function AfterUpdate(c: Counter, labels: Labels, newValue: Value): Counter {
    var key := KeyFromLabels(labels);
    var last := if key in c.lastValues then c.lastValues[key] else 0;
    if newValue - last >= 0
    then Counter(c.metric[labels := ValueOr0(Get(c.metric, labels)) + (newValue - last)], c.lastValues[key := newValue])
    else c
  }

  function AfterDelete(c: Counter, labels: Labels): Counter {
    Counter(c.metric - {labels}, c.lastValues - {KeyFromLabels(labels)})
  }

  datatype Event = Update(labels: Labels, newValue: Value) | Delete(labels: Labels)

  function Step(c: Counter, e: Event): Counter {
    match e
    case Update(labels, newValue) => AfterUpdate(c, labels, newValue)
    case Delete(labels) => AfterDelete(c, labels)
  }

  function Run(events: seq<Event>): Counter {
    if events == [] then EMPTY else Step(Run(events[..|events| - 1]), events[|events| - 1])
  }

  /** The largest value reported for the labels since they were last deleted. */
  function Largest(events: seq<Event>, labels: Labels): Option<nat> {
    if events == [] then None
    else
      var before, e := Largest(events[..|events| - 1], labels), events[|events| - 1];
      if e.labels != labels then before
      else if e.Delete? then None
      else if before.Some? && before.value > e.newValue then before
      else Some(e.newValue)
  }

  // ---- Exactness ----

  ghost predicate KeysDiffer(all: iset<Labels>) {
    forall a, b :: a in all && b in all && KeyFromLabels(a) == KeyFromLabels(b) ==> a == b
  }

  predicate About(events: seq<Event>, all: iset<Labels>) {
    forall i :: 0 <= i < |events| ==> events[i].labels in all
  }

  /** Every series shows its last value, which is the largest one reported. */
  ghost predicate Exact(events: seq<Event>, all: iset<Labels>) {
    var c := Run(events);
    forall labels :: labels in all ==>
      Get(c.metric, labels) == Largest(events, labels) == Get(c.lastValues, KeyFromLabels(labels))
  }

  lemma StepExact(c: Counter, e: Event, labels: Labels, before: Option<nat>)
    requires KeyFromLabels(e.labels) == KeyFromLabels(labels) ==> e.labels == labels
    requires Get(c.metric, labels) == before == Get(c.lastValues, KeyFromLabels(labels))
    ensures var c' := Step(c, e);
            Get(c'.metric, labels) == Get(c'.lastValues, KeyFromLabels(labels)) ==
            if e.labels != labels then before
            else if e.Delete? then None
            else if before.Some? && before.value > e.newValue then before
            else Some(e.newValue)
  {
  }

  lemma {:induction false} RunExact(events: seq<Event>, all: iset<Labels>)
    requires KeysDiffer(all) && About(events, all)
    ensures Exact(events, all)
  {
    if events != [] {
      var init, e := events[..|events| - 1], events[|events| - 1];
      assert e.labels in all;
      RunExact(init, all);
      forall labels | labels in all
        ensures Get(Run(events).metric, labels) == Largest(events, labels) == Get(Run(events).lastValues, KeyFromLabels(labels))
      {
        StepExact(Run(init), e, labels, Largest(init, labels));
      }
    }
  }

  /** Two labels with one key: the second series shows only what it was ahead of the first. */
  lemma CollidingKeys(a: Labels, b: Labels, all: iset<Labels>)
    requires a in all && b in all && a != b && KeyFromLabels(a) == KeyFromLabels(b)
    ensures !Exact([Update(a, 5), Update(b, 7)], all)
  {
    var events := [Update(a, 5), Update(b, 7)];
    assert events[..1] == [Update(a, 5)];
    assert [Update(a, 5)][..0] == [];
    assert Run([Update(a, 5)]) == Counter(map[a := 5], map[KeyFromLabels(a) := 5]);
    assert Get(Run(events).metric, b) == Some(2);
  }

  /** Counters of a set of labels are exact for every sequence of updates and deletes, exactly if no two of the labels
      have the same key. */
  lemma ExactIff(all: iset<Labels>)
    ensures (forall events :: About(events, all) ==> Exact(events, all)) <==> KeysDiffer(all)
  {
    if KeysDiffer(all) {
      forall events | About(events, all)
        ensures Exact(events, all)
      {
        RunExact(events, all);
      }
    } else {
      var a, b :| a in all && b in all && KeyFromLabels(a) == KeyFromLabels(b) && a != b;
      CollidingKeys(a, b, all);
      assert About([Update(a, 5), Update(b, 7)], all);
    }
  }

  /** So they are exact for plain labels. */
  lemma PlainIsExact(events: seq<Event>, n: nat)
    requires About(events, iset labels | Plain(labels, n))
    ensures Exact(events, iset labels | Plain(labels, n))
  {
    var all := iset labels | Plain(labels, n);
    forall a, b | a in all && b in all
      ensures KeyFromLabels(a) == KeyFromLabels(b) ==> a == b
    {
      PlainKeysDiffer(a, b, n);
    }
    RunExact(events, all);
  }

  // ---- The program ----

  class LabeledCounter {
    var metric: map<Labels, nat>
    var lastValues: map<string, Value>

    ghost function St(): Counter
      reads this
    {
      Counter(metric, lastValues)
    }

    constructor ()
      ensures St() == EMPTY
    {
      metric, lastValues := map[], map[];
    }

    method Update(labelValues: Labels, newValue: Value)
      modifies this
      ensures St() == AfterUpdate(old(St()), labelValues, newValue)
    {
      hide KeyFromLabels;
      var key := KeyFromLabels(labelValues);
      var delta := newValue - if key in lastValues then lastValues[key] else 0;
      if delta >= 0 {
        metric := metric[labelValues := ValueOr0(Get(metric, labelValues)) + delta];
        lastValues := lastValues[key := newValue];
      }
    }

    method Delete(labelValues: Labels)
      modifies this
      ensures St() == AfterDelete(old(St()), labelValues)
    {
      lastValues := lastValues - {KeyFromLabels(labelValues)};
      metric := metric - {labelValues};
    }
  }
}
