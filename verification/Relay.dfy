/** The relay's durable object: a bounded broadcast log with one cursor per node, and one bounded
    queue per target. A run is any interleaving of pushes and pulls. */
module Relay {
  import opened Domain

  const CAPACITY: nat := 5000

  // `to` is the message's target; the empty string (falsy in the source) means broadcast.
  datatype Msg = Msg(to: Str, body: Str)
  datatype Entry = Entry(seqNo: nat, node: Str, msg: Msg, ts: int)
  datatype Queued = Queued(node: Str, msg: Msg, ts: int)

  datatype State = State(
    nodes: seq<Str>, log: seq<Entry>, lastSeq: nat, cursors: map<Str, nat>, queues: map<Str, seq<Queued>>)
  datatype Event = Push(node: Str, msg: Msg, ts: int) | Pull(who: Str)

  // A run: the events handled so far, in order.
  datatype History = Start | Then(past: History, event: Event)

  const EMPTY := State([], [], 0, map[], map[])

  function Min(a: int, b: int): int { if a <= b then a else b }
  function Max(a: int, b: int): int { if a <= b then b else a }

  /** The newest CAPACITY elements: what the splice after a push leaves. */
  function Newest<T>(xs: seq<T>): (r: seq<T>)
    ensures |r| <= CAPACITY
  {
    if |xs| > CAPACITY then xs[|xs| - CAPACITY..] else xs
  }

  function QueueOf(s: State, n: Str): seq<Queued> { if n in s.queues then s.queues[n] else [] }
  function CursorOf(s: State, n: Str): nat { if n in s.cursors then s.cursors[n] else 0 }

  function After(log: seq<Entry>, cursor: nat): seq<Entry> {
    if log == [] then []
    else After(log[..|log| - 1], cursor) + (if log[|log| - 1].seqNo > cursor then [log[|log| - 1]] else [])
  }

  function LogMsgs(es: seq<Entry>): seq<Msg> { seq(|es|, i requires 0 <= i < |es| => es[i].msg) }
  function QueueMsgs(qs: seq<Queued>): seq<Msg> { seq(|qs|, i requires 0 <= i < |qs| => qs[i].msg) }

  // What a pull by `n` answers: from the log, then from its queue.
  function LogOutput(s: State, n: Str): seq<Msg> { LogMsgs(After(s.log, CursorOf(s, n))) }
  function QueueOutput(s: State, n: Str): seq<Msg> { QueueMsgs(QueueOf(s, n)) }
  function Output(s: State, n: Str): seq<Msg> { LogOutput(s, n) + QueueOutput(s, n) }

  function LastIn(log: seq<Entry>): nat { if log == [] then 0 else log[|log| - 1].seqNo }

  function WithNode(s: State, node: Str): State {
    if node in s.nodes then s else s.(nodes := s.nodes + [node])
  }

  function Step(s: State, e: Event): State {
    match e
    case Push(node, msg, ts) =>
      var s := WithNode(s, node);
      if msg.to != [] then
        s.(queues := s.queues[msg.to := Newest(QueueOf(s, msg.to) + [Queued(node, msg, ts)])])
      else
        s.(log := Newest(s.log + [Entry(s.lastSeq + 1, node, msg, ts)]), lastSeq := s.lastSeq + 1)
    case Pull(n) =>
      s.(cursors := s.cursors[n := LastIn(s.log)],
         queues := if QueueOf(s, n) == [] then s.queues else s.queues[n := []])
  }

  function Run(es: History): State {
    if es.Start? then EMPTY else Step(Run(es.past), es.event)
  }

  // ---------------------------------------------------------------------------------------------
  // What the run's history alone says: a channel is the broadcast log or one target's queue.

  datatype Channel = Broadcast | To(target: Str)

  predicate OnChannel(e: Event, c: Channel) {
    e.Push? && if e.msg.to == [] then c == Broadcast else c == To(e.msg.to)
  }

  /** Every message pushed on the channel, oldest first. */
  function Pushed(es: History, c: Channel): seq<Msg> {
    if es.Start? then []
    else Pushed(es.past, c) + (if OnChannel(es.event, c) then [es.event.msg] else [])
  }

  /** How many messages had been pushed on the channel when `n` last pulled. */
  function Mark(es: History, n: Str, c: Channel): (r: nat)
    ensures r <= |Pushed(es, c)|
  {
    if es.Start? then 0
    else if es.event == Pull(n) then |Pushed(es, c)|
    else Mark(es.past, n, c)
  }

  /** The first push a pull now still finds: pushes before `n`'s last pull are consumed,
      and only the newest CAPACITY survive. */
  function First(es: History, n: Str, c: Channel): (r: nat)
    ensures Mark(es, n, c) <= r <= |Pushed(es, c)|
  {
    Max(Mark(es, n, c), |Pushed(es, c)| - CAPACITY)
  }

  function Range(lo: nat, hi: nat): (r: seq<nat>)
    requires lo <= hi
  {
    seq(hi - lo, i requires 0 <= i < hi - lo => lo + i)
  }

  /** The positions, among the pushes on the channel, that survive until a pull by `n`. */
  function Got(es: History, n: Str, c: Channel): seq<nat> {
    if es.Start? then []
    else
      var before := es.past;
      Got(before, n, c) + (if es.event == Pull(n) then Range(First(before, n, c), |Pushed(before, c)|) else [])
  }

  /** Every pull by `n` came at most CAPACITY pushes after the previous one (or after the start). */
  predicate KeepsUp(es: History, n: Str, c: Channel) {
    es.Start? ||
    var before := es.past;
    KeepsUp(before, n, c) &&
    (es.event == Pull(n) ==> |Pushed(before, c)| - Mark(before, n, c) <= CAPACITY)
  }

  // ---------------------------------------------------------------------------------------------
  // The stored state, at any point of any run, in terms of the history.

  lemma DropAppend<T>(t: seq<T>, k: nat, x: T)
    requires k <= |t|
    ensures (t + [x])[k..] == t[k..] + [x]
  {
  }

  lemma DropDrop<T>(t: seq<T>, j: nat, k: nat)
    requires j + k <= |t|
    ensures t[j..][k..] == t[j + k..]
  {
  }

  predicate Numbered(log: seq<Entry>, base: nat) { forall i :: 0 <= i < |log| ==> log[i].seqNo == base + i + 1 }

  /** The entries are the last messages of b, numbered by their position. */
  ghost predicate LogHolds(log: seq<Entry>, b: seq<Msg>) {
    |log| <= |b| && Numbered(log, |b| - |log|) && LogMsgs(log) == b[|b| - |log|..]
  }

  ghost predicate LogIsNewest(s: State, b: seq<Msg>) {
    s.lastSeq == |b| && |s.log| == Min(|b|, CAPACITY) && LogHolds(s.log, b)
  }

  ghost predicate QueueIsNewest(q: seq<Queued>, t: seq<Msg>, mark: nat)
    requires mark <= |t|
  {
    |q| == Min(|t| - mark, CAPACITY) && QueueMsgs(q) == t[|t| - |q|..]
  }

  lemma LogMsgsParts(log: seq<Entry>, e: Entry, k: nat)
    requires k <= |log|
    ensures LogMsgs(log + [e]) == LogMsgs(log) + [e.msg] && LogMsgs(log[k..]) == LogMsgs(log)[k..]
  {
  }

  lemma QueueMsgsParts(q: seq<Queued>, x: Queued, k: nat)
    requires k <= |q|
    ensures QueueMsgs(q + [x]) == QueueMsgs(q) + [x.msg] && QueueMsgs(q[k..]) == QueueMsgs(q)[k..]
  {
  }

  lemma AppendHolds(log: seq<Entry>, b: seq<Msg>, e: Entry)
    requires LogHolds(log, b) && e.seqNo == |b| + 1
    ensures LogHolds(log + [e], b + [e.msg])
  {
    LogMsgsParts(log, e, 0);
    DropAppend(b, |b| - |log|, e.msg);
  }

  lemma SuffixHolds(log: seq<Entry>, b: seq<Msg>, k: nat)
    requires LogHolds(log, b) && k < |log|
    ensures LogHolds(log[k..], b)
  {
    LogMsgsParts(log, log[0], k);
    DropDrop(b, |b| - |log|, k);
  }

  lemma PushKeepsLog(s: State, b: seq<Msg>, e: Event)
    requires LogIsNewest(s, b) && OnChannel(e, Broadcast)
    ensures LogIsNewest(Step(s, e), b + [e.msg])
  {
    var entry := Entry(s.lastSeq + 1, e.node, e.msg, e.ts);
    AppendHolds(s.log, b, entry);
    SuffixHolds(s.log + [entry], b + [e.msg], Max(|s.log| + 1 - CAPACITY, 0));
  }

  lemma StepLog(s: State, e: Event)
    requires !OnChannel(e, Broadcast)
    ensures Step(s, e).log == s.log && Step(s, e).lastSeq == s.lastSeq
  {
  }

  lemma {:induction false} LogInvariant(es: History)
    ensures LogIsNewest(Run(es), Pushed(es, Broadcast))
  {
    match es
    case Start =>
    case Then(before, e) =>
      LogInvariant(before);
      if OnChannel(e, Broadcast) {
        PushKeepsLog(Run(before), Pushed(before, Broadcast), e);
      } else {
        StepLog(Run(before), e);
        assert Pushed(es, Broadcast) == Pushed(before, Broadcast);
      }
  }

  lemma StepCursor(s: State, e: Event, n: Str)
    ensures CursorOf(Step(s, e), n) == if e == Pull(n) then LastIn(s.log) else CursorOf(s, n)
  {
  }

  lemma LastIsCount(s: State, b: seq<Msg>)
    requires LogIsNewest(s, b)
    ensures LastIn(s.log) == |b|
  {
  }

  lemma {:induction false} CursorInvariant(es: History, n: Str)
    ensures CursorOf(Run(es), n) == Mark(es, n, Broadcast)
  {
    if es.Then? {
      CursorInvariant(es.past, n);
      StepCursor(Run(es.past), es.event, n);
      LogInvariant(es.past);
      LastIsCount(Run(es.past), Pushed(es.past, Broadcast));
    }
  }

  lemma PushKeepsQueue(q: seq<Queued>, t: seq<Msg>, mark: nat, x: Queued)
    requires mark <= |t| && QueueIsNewest(q, t, mark)
    ensures QueueIsNewest(Newest(q + [x]), t + [x.msg], mark)
  {
    QueueMsgsParts(q, x, 0);
    DropAppend(t, |t| - |q|, x.msg);
    if |q + [x]| > CAPACITY {
      QueueMsgsParts(q + [x], x, 1);
      DropDrop(t + [x.msg], |t| - |q|, 1);
    }
  }

  lemma StepQueue(s: State, e: Event, t: Str)
    ensures QueueOf(Step(s, e), t) ==
            if OnChannel(e, To(t)) then Newest(QueueOf(s, t) + [Queued(e.node, e.msg, e.ts)])
            else if e == Pull(t) then []
            else QueueOf(s, t)
  {
  }

  lemma {:induction false} QueueInvariant(es: History, t: Str)
    ensures QueueIsNewest(QueueOf(Run(es), t), Pushed(es, To(t)), Mark(es, t, To(t)))
  {
    match es
    case Start =>
    case Then(before, e) =>
      QueueInvariant(before, t);
      var q := QueueOf(Run(before), t);
      StepQueue(Run(before), e, t);
      if OnChannel(e, To(t)) {
        PushKeepsQueue(q, Pushed(before, To(t)), Mark(before, t, To(t)), Queued(e.node, e.msg, e.ts));
      } else {
        assert Pushed(es, To(t)) == Pushed(before, To(t));
      }
  }

  lemma {:induction false} AfterIsSuffix(log: seq<Entry>, cursor: nat, base: nat)
    requires Numbered(log, base)
    ensures After(log, cursor) == log[Min(Max(cursor - base, 0), |log|)..]
  {
    if log != [] {
      var n := |log| - 1;
      var shorter, last := log[..n], log[n];
      AfterIsSuffix(shorter, cursor, base);
      var k := Min(Max(cursor - base, 0), n);
      assert After(shorter, cursor) == shorter[k..];
      if last.seqNo > cursor {
        assert shorter[k..] + [last] == log[k..];
      } else {
        assert shorter[k..] == [] && log[n + 1..] == [];
      }
    }
  }

  lemma SuffixMsgs(log: seq<Entry>, b: seq<Msg>, cursor: nat)
    requires cursor <= |b| && |log| == Min(|b|, CAPACITY) && LogHolds(log, b)
    ensures LogMsgs(After(log, cursor)) == b[Max(cursor, |b| - CAPACITY)..]
  {
    var base := |b| - |log|;
    var k := Min(Max(cursor - base, 0), |log|);
    AfterIsSuffix(log, cursor, base);
    if log != [] {
      LogMsgsParts(log, log[0], k);
      DropDrop(b, base, k);
    }
  }

  lemma LogAnswers(es: History, n: Str)
    ensures LogOutput(Run(es), n) == Pushed(es, Broadcast)[First(es, n, Broadcast)..]
  {
    LogInvariant(es);
    CursorInvariant(es, n);
    SuffixMsgs(Run(es).log, Pushed(es, Broadcast), CursorOf(Run(es), n));
  }

  lemma QueueAnswers(es: History, n: Str)
    ensures QueueOutput(Run(es), n) == Pushed(es, To(n))[First(es, n, To(n))..]
  {
    QueueInvariant(es, n);
  }

  /** A pull answers exactly the broadcasts since the node's last pull that are among the newest
      CAPACITY, in push order, then likewise the messages addressed to that node and to no other. */
  lemma PullAnswers(es: History, n: Str)
    ensures Output(Run(es), n) ==
            Pushed(es, Broadcast)[First(es, n, Broadcast)..] + Pushed(es, To(n))[First(es, n, To(n))..]
  {
    LogAnswers(es, n);
    QueueAnswers(es, n);
  }

  lemma {:induction false} PushedIsAddressed(es: History, c: Channel, m: Msg)
    requires m in Pushed(es, c)
    ensures m.to == if c.Broadcast? then [] else c.target
  {
    var before := es.past;
    if m in Pushed(before, c) {
      PushedIsAddressed(before, c, m);
    }
  }

  /** At any point of any run, a pull answers no message addressed to another node. */
  lemma OnlyItsTarget(es: History, n: Str, m: Msg)
    requires m in Output(Run(es), n)
    ensures m.to == [] || m.to == n
  {
    PullAnswers(es, n);
    if m in Pushed(es, Broadcast)[First(es, n, Broadcast)..] {
      PushedIsAddressed(es, Broadcast, m);
    } else {
      PushedIsAddressed(es, To(n), m);
    }
  }

  predicate HasPushed(es: History, n: Str) {
    es.Then? && (HasPushed(es.past, n) || (es.event.Push? && es.event.node == n))
  }

  lemma StepNodes(s: State, e: Event)
    ensures Step(s, e).nodes == if e.Push? then WithNode(s, e.node).nodes else s.nodes
  {
  }

  /** The peers list names exactly the nodes that have pushed, each once. */
  lemma {:induction false} PeersArePushers(es: History, n: Str)
    ensures n in Run(es).nodes <==> HasPushed(es, n)
    ensures forall i, j :: 0 <= i < j < |Run(es).nodes| ==> Run(es).nodes[i] != Run(es).nodes[j]
  {
    if es.Then? {
      PeersArePushers(es.past, n);
      StepNodes(Run(es.past), es.event);
    }
  }

  // ---------------------------------------------------------------------------------------------
  // Delivery over whole runs.

  /** The channels a node is answered from. */
  predicate Serves(c: Channel, n: Str) { c == Broadcast || c == To(n) }

  function OutputOn(s: State, n: Str, c: Channel): seq<Msg> {
    if c.Broadcast? then LogOutput(s, n) else QueueOutput(s, n)
  }

  /** Everything the relay answered `n` from the channel, over all of its pulls. */
  function Answered(es: History, n: Str, c: Channel): seq<Msg> {
    if es.Start? then []
    else Answered(es.past, n, c) + (if es.event == Pull(n) then OutputOn(Run(es.past), n, c) else [])
  }

  predicate Increasing(xs: seq<nat>) { forall i, j :: 0 <= i < j < |xs| ==> xs[i] < xs[j] }
  predicate Below(xs: seq<nat>, m: nat) { forall i :: 0 <= i < |xs| ==> xs[i] < m }

  /** A sequence read at some positions. */
  function Read(b: seq<Msg>, at: seq<nat>): seq<Msg>
    requires Below(at, |b|)
  {
    seq(|at|, i requires 0 <= i < |at| => b[at[i]])
  }

  lemma IncreasingMore(xs: seq<nat>, m: nat, lo: nat, hi: nat)
    requires Increasing(xs) && Below(xs, m) && m <= lo <= hi
    ensures Increasing(xs + Range(lo, hi)) && Below(xs + Range(lo, hi), hi)
  {
  }

  lemma {:induction false} GotIncreases(es: History, n: Str, c: Channel)
    ensures Increasing(Got(es, n, c)) && Below(Got(es, n, c), Mark(es, n, c))
  {
    if es.Then? {
      var before := es.past;
      GotIncreases(before, n, c);
      if es.event == Pull(n) {
        IncreasingMore(Got(before, n, c), Mark(before, n, c), First(before, n, c), |Pushed(before, c)|);
      } else {
        assert Got(es, n, c) == Got(before, n, c);
      }
    }
  }

  lemma ReadMore(b: seq<Msg>, more: seq<Msg>, at: seq<nat>, first: nat)
    requires Below(at, |b|) && first <= |b|
    ensures Below(at, |b + more|) && Read(b + more, at) == Read(b, at)
    ensures Below(at + Range(first, |b|), |b|) && Read(b, at + Range(first, |b|)) == Read(b, at) + b[first..]
  {
  }

  /** What the relay answered is what was pushed, read at those positions. */
  lemma {:induction false} AnsweredIsRead(es: History, n: Str, c: Channel)
    requires Serves(c, n)
    ensures Below(Got(es, n, c), |Pushed(es, c)|)
    ensures Answered(es, n, c) == Read(Pushed(es, c), Got(es, n, c))
  {
    GotIncreases(es, n, c);
    if es.Then? {
      var before, e := es.past, es.event;
      AnsweredIsRead(before, n, c);
      var b, got := Pushed(before, c), Got(before, n, c);
      ReadMore(b, if OnChannel(e, c) then [e.msg] else [], got, First(before, n, c));
      if e == Pull(n) {
        assert Pushed(es, c) == b;
        LogAnswers(before, n);
        QueueAnswers(before, n);
      }
    }
  }

  /** In every interleaving, what a node is answered from a channel are messages pushed on it, in push
      order, each push at most once. */
  lemma OrderedNoDuplicates(es: History, n: Str, c: Channel) returns (at: seq<nat>)
    requires Serves(c, n)
    ensures Increasing(at) && Below(at, |Pushed(es, c)|) && Answered(es, n, c) == Read(Pushed(es, c), at)
  {
    at := Got(es, n, c);
    GotIncreases(es, n, c);
    AnsweredIsRead(es, n, c);
  }

  lemma {:induction false} GotCount(es: History, n: Str, c: Channel)
    ensures |Got(es, n, c)| <= Mark(es, n, c)
    ensures |Got(es, n, c)| == Mark(es, n, c) <==> KeepsUp(es, n, c)
  {
    if es.Then? {
      GotCount(es.past, n, c);
    }
  }

  lemma {:induction false} IncreasingFull(xs: seq<nat>, m: nat)
    requires |xs| == m && Increasing(xs) && Below(xs, m)
    ensures forall i :: 0 <= i < m ==> xs[i] == i
  {
    if m > 0 {
      assert forall i :: 0 <= i < m - 1 ==> xs[i] < xs[m - 1];
      IncreasingFull(xs[..m - 1], m - 1);
      assert forall i :: 0 <= i < m - 1 ==> xs[i] == xs[..m - 1][i] == i;
      assert m > 1 ==> xs[m - 2] < xs[m - 1];
    }
  }

  /** A node has been answered every message of the channel exactly once and in order, up to its last
      pull, if and only if it never let more than CAPACITY pushes pass before its first pull or between
      two successive ones. */
  lemma CompleteIffKeepsUp(es: History, n: Str, c: Channel)
    requires Serves(c, n)
    ensures Answered(es, n, c) == Pushed(es, c)[..Mark(es, n, c)] <==> KeepsUp(es, n, c)
  {
    GotCount(es, n, c);
    GotIncreases(es, n, c);
    AnsweredIsRead(es, n, c);
    if KeepsUp(es, n, c) {
      IncreasingFull(Got(es, n, c), Mark(es, n, c));
    }
  }

  // ---------------------------------------------------------------------------------------------
  // The durable object itself: one key-value store holds the log, the counter, cursors and queues.

  datatype Key = LogKey | SeqKey | NodesKey | CursorKey(node: Str) | QueueKey(node: Str)

  /** The string a key is stored under. */
  function Name(k: Key): Str {
    var log: Str, seqNo: Str, nodes: Str, cursor: Str, queue: Str := "log", "lastSeq", "nodes", "cursor:", "q:";
    match k
    case LogKey => log
    case SeqKey => seqNo
    case NodesKey => nodes
    case CursorKey(n) => cursor + n
    case QueueKey(n) => queue + n
  }

  /** No two uses of the store share a stored key, whatever the nodes are called. */
  lemma NamesDistinct(k: Key, l: Key)
    requires Name(k) == Name(l)
    ensures k == l
  {
    var a, b := Name(k), Name(l);
    assert a[0] == b[0] && a[1] == b[1];
    if k.CursorKey? {
      assert a[7..] == k.node && b[7..] == l.node;
    } else if k.QueueKey? {
      assert a[2..] == k.node && b[2..] == l.node;
    }
  }

  datatype Value =
    | LogValue(log: seq<Entry>)
    | NumValue(num: nat)
    | QueueValue(queue: seq<Queued>)
    | NodesValue(nodes: seq<Str>)

  type Store = map<Key, Value>

  function GetNodes(m: Store): seq<Str> {
    if NodesKey in m && m[NodesKey].NodesValue? then m[NodesKey].nodes else []
  }

  function GetLog(m: Store): seq<Entry> {
    if LogKey in m && m[LogKey].LogValue? then m[LogKey].log else []
  }

  function GetNum(m: Store, key: Key): nat {
    if key in m && m[key].NumValue? then m[key].num else 0
  }

  function GetQueue(m: Store, key: Key): seq<Queued> {
    if key in m && m[key].QueueValue? then m[key].queue else []
  }

  ghost predicate Holds(m: Store, s: State) {
    && GetNodes(m) == s.nodes
    && GetLog(m) == s.log
    && GetNum(m, SeqKey) == s.lastSeq
    && (forall n: Str :: GetNum(m, CursorKey(n)) == CursorOf(s, n))
    && (forall n: Str :: GetQueue(m, QueueKey(n)) == QueueOf(s, n))
  }

  lemma PutNodes(m: Store, s: State, nodes: seq<Str>)
    requires Holds(m, s)
    ensures Holds(m[NodesKey := NodesValue(nodes)], s.(nodes := nodes))
  {
  }

  lemma PutLog(m: Store, s: State, log: seq<Entry>, last: nat)
    requires Holds(m, s)
    ensures Holds(m[LogKey := LogValue(log)][SeqKey := NumValue(last)], s.(log := log, lastSeq := last))
  {
  }

  lemma PutQueue(m: Store, s: State, t: Str, q: seq<Queued>)
    requires Holds(m, s)
    ensures Holds(m[QueueKey(t) := QueueValue(q)], s.(queues := s.queues[t := q]))
  {
  }

  lemma PutCursor(m: Store, s: State, n: Str, cursor: nat)
    requires Holds(m, s)
    ensures Holds(m[CursorKey(n) := NumValue(cursor)], s.(cursors := s.cursors[n := cursor]))
  {
  }

  /** The push and the splice after it. */
  method AppendBounded<T>(xs: seq<T>, x: T) returns (r: seq<T>)
    ensures r == Newest(xs + [x])
  {
    r := xs + [x];
    if |r| > 5000 {
      r := r[|r| - 5000..];
    }
  }

  class RelayDO {
    var storage: Store
    ghost var events: History

    /** The store holds the state reached by the events handled so far. */
    ghost predicate Valid()
      reads this
    {
      Holds(storage, Run(events))
    }

    constructor ()
      ensures Valid() && events == Start
    {
      storage := map[];
      events := Start;
    }

    /** Adds the node to the known ones. */
    method NoteNode(node: Str)
      requires Valid()
      modifies this`storage
      ensures Holds(storage, WithNode(Run(events), node))
    {
      var nodes := GetNodes(storage);
      if node !in nodes {
        PutNodes(storage, Run(events), nodes + [node]);
        storage := storage[NodesKey := NodesValue(nodes + [node])];
      }
    }

    method PushTargeted(node: Str, msg: Msg, now: int)
      requires Valid() && msg.to != []
      modifies this
      ensures Valid() && events == Then(old(events), Push(node, msg, now))
    {
      ghost var s := WithNode(Run(events), node);
      NoteNode(node);
      var queue := AppendBounded(GetQueue(storage, QueueKey(msg.to)), Queued(node, msg, now));
      PutQueue(storage, s, msg.to, queue);
      storage := storage[QueueKey(msg.to) := QueueValue(queue)];
      events := Then(events, Push(node, msg, now));
    }

    method PushBroadcast(node: Str, msg: Msg, now: int)
      requires Valid() && msg.to == []
      modifies this
      ensures Valid() && events == Then(old(events), Push(node, msg, now))
    {
      ghost var s := WithNode(Run(events), node);
      NoteNode(node);
      var seqNo := GetNum(storage, SeqKey) + 1;
      var log := AppendBounded(GetLog(storage), Entry(seqNo, node, msg, now));
      assert s.(log := log, lastSeq := seqNo) == Step(Run(events), Push(node, msg, now));
      PutLog(storage, s, log, seqNo);
      storage := storage[LogKey := LogValue(log)];
      storage := storage[SeqKey := NumValue(seqNo)];
      events := Then(events, Push(node, msg, now));
    }

    method HandlePush(node: Str, msg: Msg, now: int)
      requires Valid()
      modifies this
      ensures Valid() && events == Then(old(events), Push(node, msg, now))
    {
      if msg.to != [] {
        PushTargeted(node, msg, now);
      } else {
        PushBroadcast(node, msg, now);
      }
    }

    method HandlePull(node: Str) returns (out: seq<Msg>)
      requires Valid()
      modifies this
      ensures Valid() && events == Then(old(events), Pull(node))
      ensures out == Output(Run(old(events)), node)
    {
      ghost var s := Run(events);
      var log := GetLog(storage);
      var cursor := GetNum(storage, CursorKey(node));
      out := LogMsgs(After(log, cursor));
      var queue := GetQueue(storage, QueueKey(node));
      if |queue| > 0 {
        out := out + QueueMsgs(queue);
        PutQueue(storage, s, node, []);
        s := s.(queues := s.queues[node := []]);
        storage := storage[QueueKey(node) := QueueValue([])];
      }
      var last := 0;
      if |log| > 0 {
        last := log[|log| - 1].seqNo;
      }
      PutCursor(storage, s, node, last);
      storage := storage[CursorKey(node) := NumValue(last)];
      events := Then(events, Pull(node));
    }
  }
}
