/** online.judge `ResultListener.handleFinalResult`: the consumer of the
    results queue settles each delivery it is handed exactly once, by
    acknowledging it when processing succeeded and otherwise by rejecting it
    without requeueing. The channel is recorded as the calls made on it;
    whether `processTestResult`, `basicAck` and `basicNack` return normally
    is a parameter of each delivery. */
module ResultListener {

  datatype ChannelCall =
    | BasicAck(tag: int, multiple: bool)
    | BasicNack(tag: int, multiple: bool, requeue: bool)

  /** One delivery: its tag and how the collaborators behave on it. */
  datatype Delivery = Delivery(tag: int, processOk: bool, ackOk: bool, nackOk: bool)

  /** The calls made on the channel, and whether an `IOException` escaped. */
  datatype Handling = Handling(calls: seq<ChannelCall>, escaped: bool)

  function AckCount(calls: seq<ChannelCall>): (n: nat) {
    if calls == [] then 0 else (if calls[0].BasicAck? then 1 else 0) + AckCount(calls[1..])
  }

  function NackCount(calls: seq<ChannelCall>): (n: nat) {
    if calls == [] then 0 else (if calls[0].BasicNack? then 1 else 0) + NackCount(calls[1..])
  }

  /** Every call settles a single delivery of `tag` and no rejection requeues. */
  predicate SettlesOnly(calls: seq<ChannelCall>, tags: set<int>) {
    forall i :: 0 <= i < |calls| ==>
      calls[i].tag in tags && !calls[i].multiple && (calls[i].BasicNack? ==> !calls[i].requeue)
  }

  function HandleFinalResult(d: Delivery): (h: Handling)
    ensures d.processOk && d.ackOk <==> h.calls == [BasicAck(d.tag, false)]
    ensures !d.processOk ==> h.calls == [BasicNack(d.tag, false, false)]
    ensures d.processOk && !d.ackOk ==> h.calls == [BasicAck(d.tag, false), BasicNack(d.tag, false, false)]
    ensures AckCount(h.calls) == (if d.processOk then 1 else 0)
    ensures NackCount(h.calls) == (if d.processOk && d.ackOk then 0 else 1)
    ensures SettlesOnly(h.calls, {d.tag})
    ensures h.escaped <==> NackCount(h.calls) == 1 && !d.nackOk
  {
    if !d.processOk then
      Handling([BasicNack(d.tag, false, false)], !d.nackOk)
    else if !d.ackOk then
      var calls := [BasicAck(d.tag, false), BasicNack(d.tag, false, false)];
      assert calls[1..] == [calls[1]] && calls[1..][1..] == [];
      assert AckCount(calls[1..]) == 0 && NackCount(calls[1..]) == 1;
      Handling(calls, !d.nackOk)
    else
      Handling([BasicAck(d.tag, false)], false)
  }

  lemma {:induction false} CountsOfConcatenation(a: seq<ChannelCall>, b: seq<ChannelCall>)
    ensures AckCount(a + b) == AckCount(a) + AckCount(b)
    ensures NackCount(a + b) == NackCount(a) + NackCount(b)
  {
    if a == [] {
      assert a + b == b;
    } else {
      assert (a + b)[0] == a[0];
      assert (a + b)[1..] == a[1..] + b;
      CountsOfConcatenation(a[1..], b);
    }
  }

  /** How many deliveries were processed without an exception. */
  function Processed(ds: seq<Delivery>): (n: nat) {
    if ds == [] then 0 else Processed(ds[..|ds| - 1]) + (if ds[|ds| - 1].processOk then 1 else 0)
  }

  /** How many deliveries were processed and acknowledged without an exception. */
  function Settled(ds: seq<Delivery>): (n: nat) {
    if ds == [] then 0 else Settled(ds[..|ds| - 1]) + (if ds[|ds| - 1].processOk && ds[|ds| - 1].ackOk then 1 else 0)
  }

  /** The delivery tags. */
  function Tags(ds: seq<Delivery>): (tags: set<int>) {
    set i | 0 <= i < |ds| :: ds[i].tag
  }

  /** The calls `handleFinalResult` makes for each delivery, delivery after
      delivery. */
  function Transcript(ds: seq<Delivery>): (calls: seq<ChannelCall>) {
    if ds == [] then [] else Transcript(ds[..|ds| - 1]) + HandleFinalResult(ds[|ds| - 1]).calls
  }

  /** How many deliveries let an exception escape the handler. */
  function Escapes(ds: seq<Delivery>): (n: nat) {
    if ds == [] then 0 else Escapes(ds[..|ds| - 1]) + (if HandleFinalResult(ds[|ds| - 1]).escaped then 1 else 0)
  }

  /** Splitting a run of deliveries splits what the channel sees: the calls
      of the later deliveries follow all the calls of the earlier ones. */
  lemma {:induction false} TranscriptAppend(a: seq<Delivery>, b: seq<Delivery>)
    ensures Transcript(a + b) == Transcript(a) + Transcript(b)
    ensures Escapes(a + b) == Escapes(a) + Escapes(b)
    decreases |b|
  {
    if b == [] {
      assert a + b == a;
    } else {
      var b' := b[..|b| - 1];
      assert (a + b)[..|a + b| - 1] == a + b';
      assert (a + b)[|a + b| - 1] == b[|b| - 1];
      TranscriptAppend(a, b');
    }
  }

  /** A good delivery followed by one whose processing failed: the first is
      acknowledged and the second rejected, never the other way round. */
  lemma TranscriptKeepsDeliveriesApart()
    ensures Transcript([Delivery(1, true, true, true), Delivery(2, false, true, true)])
            == [BasicAck(1, false), BasicNack(2, false, false)]
  {
    var ds := [Delivery(1, true, true, true), Delivery(2, false, true, true)];
    assert ds[..1] == [ds[0]] && ds[..1][..0] == [];
  }

  /** What the transcript of a run amounts to: one acknowledgement per
      successfully processed result, one rejection per delivery that was not
      acknowledged cleanly, at most two calls per delivery, nothing requeued,
      nothing settled but the deliveries' own tags, and an escape only where
      a rejection was made. */
  lemma {:induction false} TranscriptSettles(ds: seq<Delivery>)
    ensures AckCount(Transcript(ds)) == Processed(ds)
    ensures NackCount(Transcript(ds)) == |ds| - Settled(ds)
    ensures SettlesOnly(Transcript(ds), Tags(ds))
    ensures |Transcript(ds)| <= 2 * |ds|
    ensures Escapes(ds) <= |ds| - Settled(ds)
    decreases |ds|
  {
    if ds != [] {
      var init, d := ds[..|ds| - 1], ds[|ds| - 1];
      TranscriptSettles(init);
      assert Settled(init) <= |init|;
      CountsOfConcatenation(Transcript(init), HandleFinalResult(d).calls);
      assert Tags(ds) == Tags(init) + {d.tag} by {
        forall t | t in Tags(ds) ensures t in Tags(init) + {d.tag} {
          var i :| 0 <= i < |ds| && ds[i].tag == t;
          if i < |init| { assert init[i] == ds[i]; }
        }
        forall t | t in Tags(init) ensures t in Tags(ds) {
          var i :| 0 <= i < |init| && init[i].tag == t;
          assert ds[i] == init[i];
        }
      }
    }
  }

  /** The listener handed the deliveries one after another: the channel sees
      each delivery's own calls, in delivery order, and `escaped` counts the
      deliveries whose rejection itself failed. */
  method Consume(ds: seq<Delivery>) returns (log: seq<ChannelCall>, escaped: nat)
    ensures log == Transcript(ds)
    ensures escaped == Escapes(ds)
    ensures AckCount(log) == Processed(ds)
    ensures NackCount(log) == |ds| - Settled(ds)
    ensures SettlesOnly(log, Tags(ds))
    ensures |log| <= 2 * |ds|
    ensures escaped <= |ds| - Settled(ds)
  {
    log, escaped := [], 0;
    var n := 0;
    while n < |ds|
      invariant 0 <= n <= |ds|
      invariant log == Transcript(ds[..n])
      invariant escaped == Escapes(ds[..n])
    {
      var h := HandleFinalResult(ds[n]);
      assert ds[..n + 1][..n] == ds[..n];
      log := log + h.calls;
      if h.escaped {
        escaped := escaped + 1;
      }
      n := n + 1;
    }
    assert ds[..n] == ds;
    TranscriptSettles(ds);
  }
}
