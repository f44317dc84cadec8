/** The queues the hub subscribes `receive` to: three fixed build-request
    queues, one jobs queue per distinct reporting queue name, and the workers
    queue, each with explicit acknowledgement. The reporting names are
    'builds.common' followed by the `queue` attribute of every configured
    queue entry, with duplicates dropped by Ruby's Array#uniq.
 */
module Queues {
  import opened Common

  predicate Distinct<T(==)>(s: seq<T>) {
    forall i, j :: 0 <= i < j < |s| ==> s[i] != s[j]
  }

  /** Index of the first occurrence of `x` in `s`. */
  function FirstIndex<T(==)>(s: seq<T>, x: T): (i: nat)
    requires x in s
    ensures i < |s| && s[i] == x
    ensures forall j :: 0 <= j < i ==> s[j] != x
  {
    if s[0] == x then 0 else 1 + FirstIndex(s[1..], x)
  }

  /** Ruby's Array#uniq, defined on growing prefixes: an element is appended
      when it has not been seen before. */
  function Uniq<T(==)>(s: seq<T>): (r: seq<T>)
    ensures forall i :: 0 <= i < |s| ==> s[i] in r
    ensures forall i :: 0 <= i < |r| ==> r[i] in s
    ensures Distinct(r)
    decreases |s|
  {
    if |s| == 0 then []
    else
      var p := Uniq(s[..|s| - 1]);
      if s[|s| - 1] in p then p else p + [s[|s| - 1]]
  }

  /** An element of a prefix has its first occurrence in that prefix. */
  lemma FirstIndexInPrefix<T>(s: seq<T>, n: nat, x: T)
    requires n <= |s| && x in s[..n]
    ensures FirstIndex(s, x) == FirstIndex(s[..n], x)
  {
    var a := FirstIndex(s, x);
    var b := FirstIndex(s[..n], x);
    assert s[b] == x;
    assert s[..n][a] == x by {
      assert a <= b;
    }
  }

  /** `r` lists elements of `s` in the order of their first occurrence in `s`. */
  ghost predicate InFirstOccurrenceOrder<T>(s: seq<T>, r: seq<T>)
    requires forall k :: 0 <= k < |r| ==> r[k] in s
  {
    forall i, j :: 0 <= i < j < |r| ==> FirstIndex(s, r[i]) < FirstIndex(s, r[j])
  }

  /** An element not seen before the last position first occurs there. */
  lemma FirstIndexOfFresh<T>(s: seq<T>)
    requires |s| > 0 && s[|s| - 1] !in s[..|s| - 1]
    ensures FirstIndex(s, s[|s| - 1]) == |s| - 1
  {
  }

  /** Order by first occurrence in a prefix is order in the whole sequence. */
  lemma OrderInPrefix<T>(s: seq<T>, n: nat, p: seq<T>)
    requires n <= |s|
    requires forall k :: 0 <= k < |p| ==> p[k] in s[..n]
    requires InFirstOccurrenceOrder(s[..n], p)
    ensures forall k :: 0 <= k < |p| ==> p[k] in s && FirstIndex(s, p[k]) < n
    ensures InFirstOccurrenceOrder(s, p)
  {
    forall k | 0 <= k < |p|
      ensures p[k] in s && FirstIndex(s, p[k]) == FirstIndex(s[..n], p[k])
    {
      FirstIndexInPrefix(s, n, p[k]);
    }
  }

  /** Appending an element whose first occurrence comes after those of all
      listed elements keeps the order. */
  lemma OrderAppend<T>(s: seq<T>, p: seq<T>, x: T)
    requires x in s
    requires forall k :: 0 <= k < |p| ==> p[k] in s && FirstIndex(s, p[k]) < FirstIndex(s, x)
    requires InFirstOccurrenceOrder(s, p)
    ensures InFirstOccurrenceOrder(s, p + [x])
  {
  }

  /** One step of Uniq keeps the order: what held for the prefix holds for
      the whole sequence. */
  lemma UniqOrderStep<T>(s: seq<T>)
    requires |s| > 0
    requires InFirstOccurrenceOrder(s[..|s| - 1], Uniq(s[..|s| - 1]))
    ensures InFirstOccurrenceOrder(s, Uniq(s))
  {
    var n := |s| - 1;
    var p := Uniq(s[..n]);
    OrderInPrefix(s, n, p);
    if s[n] !in p {
      assert s[n] !in s[..n];
      FirstIndexOfFresh(s);
      OrderAppend(s, p, s[n]);
    }
  }

  /** Uniq lists elements in the order of their first occurrence. */
  lemma {:induction false} UniqKeepsFirstOccurrenceOrder<T>(s: seq<T>)
    ensures InFirstOccurrenceOrder(s, Uniq(s))
    decreases |s|
  {
    if |s| > 0 {
      UniqKeepsFirstOccurrenceOrder(s[..|s| - 1]);
      UniqOrderStep(s);
    }
  }

  /** The first element of a nonempty sequence stays first after Uniq. */
  lemma UniqHead<T>(s: seq<T>)
    requires |s| > 0
    ensures |Uniq(s)| > 0 && Uniq(s)[0] == s[0]
  {
  }

  /** The way Ruby computes uniq: one forward pass that keeps an element
      unless it is already in the set of those seen. It agrees with Uniq. */
  method UniqScan<T(==)>(s: seq<T>) returns (r: seq<T>)
    ensures r == Uniq(s)
  {
    r := [];
    var seen: set<T> := {};
    var i := 0;
    while i < |s|
      invariant 0 <= i <= |s|
      invariant r == Uniq(s[..i])
      invariant forall x :: x in seen <==> x in r
    {
      assert s[..i + 1][..i] == s[..i];
      if s[i] !in seen {
        r := r + [s[i]];
        seen := seen + {s[i]};
      }
      i := i + 1;
    }
    assert s[..|s|] == s;
  }

  /** One entry of the configured queue list: a hash of string attributes. */
  type QueueConfig = map<string, string>

  /** `queue[:queue]`: the entry's queue name, `nil` when it has none. */
  function QueueOf(c: QueueConfig): Option<string>
  {
    if "queue" in c then Some(c["queue"]) else None
  }

  /** The reporting queue every hub subscribes to before the configured ones. */
  const CommonQueue: string := "builds.common"

  /** `config.map { |q| q[:queue] }` */
  function ConfiguredNames(config: seq<QueueConfig>): (r: seq<Option<string>>)
    ensures |r| == |config|
    ensures forall i :: 0 <= i < |config| ==> r[i] == QueueOf(config[i])
  {
    if |config| == 0 then [] else [QueueOf(config[0])] + ConfiguredNames(config[1..])
  }

  /** `['builds.common'] + config.map { |q| q[:queue] }`, before `uniq`. */
  function CandidateNames(config: seq<QueueConfig>): seq<Option<string>>
  {
    [Some(CommonQueue)] + ConfiguredNames(config)
  }

  /** The names before `uniq`: 'builds.common' first, then every
      configured entry's name, and nothing else. */
  lemma CandidateNamesContents(config: seq<QueueConfig>)
    ensures var names := CandidateNames(config);
      && names[0] == Some(CommonQueue)
      && (forall c :: c in config ==> QueueOf(c) in names)
      && (forall k :: 0 <= k < |names| ==> names[k] == Some(CommonQueue) || names[k] in ConfiguredNames(config))
  {
    var names := CandidateNames(config);
    forall c | c in config ensures QueueOf(c) in names {
      var i :| 0 <= i < |config| && config[i] == c;
      assert names[i + 1] == QueueOf(c);
    }
    forall k | 1 <= k < |names| ensures names[k] in ConfiguredNames(config) {
      assert names[k] == ConfiguredNames(config)[k - 1];
    }
  }

  /** `(['builds.common'] + config.map { |q| q[:queue] }).uniq` */
  function ReportingQueueNames(config: seq<QueueConfig>): (r: seq<Option<string>>)
    ensures |r| > 0 && r[0] == Some(CommonQueue)
    ensures forall c :: c in config ==> QueueOf(c) in r
    ensures forall k :: 0 <= k < |r| ==> r[k] == Some(CommonQueue) || r[k] in ConfiguredNames(config)
    ensures Distinct(r)
  {
    CandidateNamesContents(config);
    UniqHead(CandidateNames(config));
    Uniq(CandidateNames(config))
  }

  /** Each reporting name keeps the position of its first occurrence among
      'builds.common' and the configured names. */
  lemma ReportingQueueOrder(config: seq<QueueConfig>)
    ensures InFirstOccurrenceOrder(CandidateNames(config), ReportingQueueNames(config))
  {
    UniqKeepsFirstOccurrenceOrder(CandidateNames(config));
  }

  /** What a subscription consumes from: a queue named outright, the jobs
      consumer for a reporting name, or the workers consumer. */
  datatype Consumer = Queue(queue: string) | Jobs(reporting: Option<string>) | Workers

  /** A consumer subscribed with `:ack => true` (explicit acknowledgement) or not. */
  datatype Subscription = Subscription(consumer: Consumer, ack: bool)

  /** The queues carrying build requests and configure jobs, in order. */
  const BuildRequestQueues: seq<string> :=
    ["builds.requests", "builds.configure", "reporting.jobs.builds.configure"]

  /** `subscribe_to_build_requests_and_configure_builds` */
  function BuildRequestSubscriptions(): seq<Subscription>
  {
    seq(|BuildRequestQueues|, i requires 0 <= i < |BuildRequestQueues| =>
          Subscription(Queue(BuildRequestQueues[i]), true))
  }

  /** `subscribe_to_reporting`: one jobs consumer per name, in order. */
  function ReportingSubscriptions(names: seq<Option<string>>): (r: seq<Subscription>)
    ensures |r| == |names|
    ensures forall k :: 0 <= k < |r| ==> r[k] == Subscription(Jobs(names[k]), true)
  {
    seq(|names|, i requires 0 <= i < |names| => Subscription(Jobs(names[i]), true))
  }

  /** `subscribe`: build requests, then reporting, then worker status. */
  function Subscribe(config: seq<QueueConfig>): seq<Subscription>
  {
    BuildRequestSubscriptions()
    + ReportingSubscriptions(ReportingQueueNames(config))
    + [Subscription(Workers, true)]
  }

  /** The subscriptions, in order: the three build-request queues, the jobs
      consumer for 'builds.common' and then for every other reporting name,
      and the workers consumer last; every one with explicit acks. */
  lemma SubscribeOrder(config: seq<QueueConfig>)
    ensures var r := Subscribe(config);
      && |r| == 4 + |ReportingQueueNames(config)|
      && r[..3] == [Subscription(Queue("builds.requests"), true),
                    Subscription(Queue("builds.configure"), true),
                    Subscription(Queue("reporting.jobs.builds.configure"), true)]
      && r[3] == Subscription(Jobs(Some(CommonQueue)), true)
      && r[3..|r| - 1] == ReportingSubscriptions(ReportingQueueNames(config))
      && r[|r| - 1] == Subscription(Workers, true)
      && (forall k :: 0 <= k < |r| ==> r[k].ack)
  {
    var b := BuildRequestSubscriptions();
    var j := ReportingSubscriptions(ReportingQueueNames(config));
    var r := Subscribe(config);
    assert b == [Subscription(Queue("builds.requests"), true),
                 Subscription(Queue("builds.configure"), true),
                 Subscription(Queue("reporting.jobs.builds.configure"), true)];
    assert r[..3] == b;
    assert r[3] == j[0];
    forall k | 0 <= k < |r| ensures r[k].ack {
      if k < 3 {
        assert r[k] == b[k];
      } else if k < 3 + |j| {
        assert r[k] == j[k - 3];
      }
    }
  }

  /** Every configured queue name gets a jobs consumer, and no consumer
      constructor is called twice with the same argument. */
  lemma SubscribeCovers(config: seq<QueueConfig>)
    ensures var r := Subscribe(config);
      && (forall c :: c in config ==> Subscription(Jobs(QueueOf(c)), true) in r)
      && Distinct(r)
  {
  }
}
