// The partition log as its readers see it, and the paged listing built on it.
module Log {
  import opened Basics

  /** A stored record; `lane` is the flow-lane owner derived from it. */
  datatype Message = Message(offset: nat, topic: string, lane: Uuid, id: Uuid)

  type Log = seq<Message>

  predicate Ascending(log: Log) {
    forall i, j :: 0 <= i < j < |log| ==> log[i].offset < log[j].offset
  }

  /** Index of the first record at or after an offset, or the length. */
  function IndexFrom(log: Log, offset: nat): (k: nat)
    ensures k <= |log|
    ensures forall i :: 0 <= i < k ==> log[i].offset < offset
    ensures k < |log| ==> log[k].offset >= offset
    decreases |log|
  {
    if |log| == 0 || log[0].offset >= offset then 0 else 1 + IndexFrom(log[1..], offset)
  }

  function Take<T>(s: seq<T>, n: nat): seq<T> {
    if n < |s| then s[..n] else s
  }

  function ReadRange(log: Log, offset: nat, max: nat): Log {
    Take(log[IndexFrom(log, offset)..], max)
  }

  function OfTopic(log: Log, topic: string): Log {
    if |log| == 0 then []
    else (if log[0].topic == topic then [log[0]] else []) + OfTopic(log[1..], topic)
  }

  /** What a reader of one topic may still see from an offset on. */
  function TopicFrom(log: Log, topic: string, offset: nat): Log {
    OfTopic(log[IndexFrom(log, offset)..], topic)
  }

  lemma IndexFromIs(log: Log, offset: nat, k: nat)
    requires Ascending(log) && k <= |log|
    requires k > 0 ==> log[k - 1].offset < offset
    requires k < |log| ==> log[k].offset >= offset
    ensures IndexFrom(log, offset) == k
  {
    var i := IndexFrom(log, offset);
    assert k > 0 ==> forall j :: 0 <= j < k ==> log[j].offset <= log[k - 1].offset;
    assert forall j :: 0 <= j < i ==> log[j].offset < offset;
  }

  lemma SameOffset(log: Log, x: Message, y: Message)
    requires Ascending(log) && x in log && y in log && x.offset == y.offset
    ensures x == y
  {
    var i :| 0 <= i < |log| && log[i] == x;
    var j :| 0 <= j < |log| && log[j] == y;
    assert i == j;
  }

  lemma {:induction false} OfTopicSplits(a: Log, b: Log, topic: string)
    ensures OfTopic(a + b, topic) == OfTopic(a, topic) + OfTopic(b, topic)
  {
    if |a| == 0 {
      assert a + b == b;
    } else {
      OfTopicSplits(a[1..], b, topic);
      assert (a + b)[1..] == a[1..] + b && (a + b)[0] == a[0];
      var head := if a[0].topic == topic then [a[0]] else [];
      assert head + (OfTopic(a[1..], topic) + OfTopic(b, topic)) == (head + OfTopic(a[1..], topic)) + OfTopic(b, topic);
    }
  }

  lemma {:induction false} OfTopicMembers(log: Log, topic: string)
    ensures forall m :: m in OfTopic(log, topic) <==> m in log && m.topic == topic
    ensures |OfTopic(log, topic)| <= |log|
  {
    if |log| > 0 {
      OfTopicMembers(log[1..], topic);
      var rest := OfTopic(log[1..], topic);
      assert forall m :: m in log <==> m == log[0] || m in log[1..];
      assert forall m :: m in [log[0]] + rest <==> m == log[0] || m in rest;
      assert [] + rest == rest;
    }
  }

  lemma {:induction false} OfTopicAscending(log: Log, topic: string)
    requires Ascending(log)
    ensures Ascending(OfTopic(log, topic))
  {
    if |log| > 0 {
      OfTopicAscending(log[1..], topic);
      OfTopicMembers(log[1..], topic);
    }
  }

  /** The listing of a topic is ascending and holds exactly its records from there on. */
  lemma TopicFromMembers(log: Log, topic: string, offset: nat)
    requires Ascending(log)
    ensures Ascending(TopicFrom(log, topic, offset))
    ensures forall m :: m in TopicFrom(log, topic, offset) <==> m in log && m.topic == topic && m.offset >= offset
  {
    hide OfTopic;
    var k := IndexFrom(log, offset);
    var suffix := log[k..];
    OfTopicMembers(suffix, topic);
    OfTopicAscending(suffix, topic);
    forall m | m in log && m.offset >= offset ensures m in suffix {
      var i :| 0 <= i < |log| && log[i] == m;
      assert suffix[i - k] == m;
    }
    forall m | m in suffix ensures m in log && m.offset >= offset {
      var i :| 0 <= i < |suffix| && suffix[i] == m;
      assert log[k + i] == m;
    }
  }

  /** Reading on after the last record of a batch continues exactly where it ended. */
  lemma NextBatch(log: Log, topic: string, cursor: nat, i: nat, j: nat)
    requires Ascending(log) && i == IndexFrom(log, cursor) && i < j <= |log|
    ensures TopicFrom(log, topic, cursor) == OfTopic(log[i..j], topic) + TopicFrom(log, topic, log[j - 1].offset + 1)
  {
    hide OfTopic, IndexFrom;
    IndexFromIs(log, log[j - 1].offset + 1, j);
    assert log[i..] == log[i..j] + log[j..];
    OfTopicSplits(log[i..j], log[j..], topic);
  }

  function ScanSize(remaining: nat): nat {
    if remaining * 2 < 64 then 64 else if remaining * 2 > 1024 then 1024 else remaining * 2
  }

  /** Pages through the shared partition log and filters by topic: the result is the
      first `max` records of the topic from that offset, short only when there are no more. */
  method ListTopicMessagesFrom(log: Log, end: nat, topic: string, from: nat, max: nat) returns (out: Log)
    requires Ascending(log) && forall m :: m in log ==> m.offset < end
    ensures out == Take(TopicFrom(log, topic, from), max)
  {
    hide OfTopic, IndexFrom, TopicFrom, Take;
    out := [];
    if max == 0 {
      TakeNone(TopicFrom(log, topic, from));
      return;
    }
    var cursor := from;
    assert [] + Take(TopicFrom(log, topic, from), max) == Take(TopicFrom(log, topic, from), max);
    while |out| < max
      invariant |out| <= max
      invariant out + Take(TopicFrom(log, topic, cursor), max - |out|) == Take(TopicFrom(log, topic, from), max)
      decreases end - cursor
    {
      var batch := ReadRange(log, cursor, ScanSize(max - |out|));
      if |batch| == 0 {
        NothingLeft(log, topic, cursor, max - |out|);
        break;
      }
      var matched, next := OnePage(log, topic, cursor, batch, max - |out|);
      ghost var was, target := out, Take(TopicFrom(log, topic, from), max);
      out := out + matched;
      assert was + (matched + Take(TopicFrom(log, topic, next), max - |out|)) == target;
      assert out + Take(TopicFrom(log, topic, next), max - |out|) == target;
      cursor := next;
      if cursor >= end {
        NothingBeyond(log, topic, cursor, end, max - |out|);
        break;
      }
    }
    if |out| == max {
      TakeNone(TopicFrom(log, topic, cursor));
    }
  }

  method OnePage(log: Log, topic: string, cursor: nat, batch: Log, remaining: nat) returns (matched: Log, next: nat)
    requires Ascending(log) && |batch| > 0 && remaining > 0 && batch == ReadRange(log, cursor, ScanSize(remaining))
    ensures cursor < next && (exists m :: m in log && next == m.offset + 1)
    ensures |matched| <= remaining
    ensures Take(TopicFrom(log, topic, cursor), remaining) == matched + Take(TopicFrom(log, topic, next), remaining - |matched|)
  {
    hide OfTopic, TopicFrom;
    next := batch[|batch| - 1].offset + 1;
    matched := Take(OfTopic(batch, topic), remaining);
    ghost var i := IndexFrom(log, cursor);
    ghost var j := i + |batch|;
    assert batch == log[i..j];
    assert batch[|batch| - 1] == log[j - 1] && log[j - 1] in log;
    assert log[i].offset >= cursor && log[j - 1].offset >= log[i].offset;
    NextBatch(log, topic, cursor, i, j);
    TakeSplit(OfTopic(batch, topic), TopicFrom(log, topic, next), remaining);
  }

  lemma TakeNone<T>(s: seq<T>)
    ensures Take(s, 0) == []
  {
  }

  lemma NothingLeft(log: Log, topic: string, cursor: nat, n: nat)
    requires IndexFrom(log, cursor) == |log| || ReadRange(log, cursor, ScanSize(n)) == []
    ensures Take(TopicFrom(log, topic, cursor), n) == []
  {
    assert ScanSize(n) > 0;
    assert log[IndexFrom(log, cursor)..] == [];
  }

  lemma NothingBeyond(log: Log, topic: string, cursor: nat, end: nat, n: nat)
    requires Ascending(log) && (forall m :: m in log ==> m.offset < end) && cursor >= end
    ensures Take(TopicFrom(log, topic, cursor), n) == []
  {
    var k := IndexFrom(log, cursor);
    assert forall j :: 0 <= j < |log| ==> log[j] in log;
    NothingLeft(log, topic, cursor, n);
  }

  lemma TakeSplit<T>(a: seq<T>, b: seq<T>, n: nat)
    ensures Take(a + b, n) == Take(a, n) + Take(b, n - |Take(a, n)|)
  {
  }
}
