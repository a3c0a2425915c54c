/** The span stack of apps/assistant/src/observability/trace-context.ts. */
module TraceContext {
  import opened Common

  datatype Attribute = Text(text: string) | Number(number: real) | Flag(flag: bool)

  datatype Status = Unset | StatusOk | StatusError

  datatype Edit = SetTo(key: string, value: Attribute) | MarkAs(status: Status, message: Option<string>)

  /** The status set last, if any was. */
  function LastStatus(edits: seq<Edit>): Option<Status> {
    if edits == [] then None
    else
      var last := edits[|edits| - 1];
      if last.MarkAs? then Some(last.status) else LastStatus(edits[..|edits| - 1])
  }

  class SimpleSpan {
    const traceId: string
    const spanId: string
    /** The context whose stack the `onEnd` closure edits. */
    const context: NoopTraceContext
    var attributes: map<string, Attribute>
    var status: Status
    var ended: bool

    constructor (traceId: string, spanId: string, context: NoopTraceContext)
      ensures this.traceId == traceId && this.spanId == spanId && this.context == context
      ensures attributes == map[] && status == Unset && !ended
    {
      this.traceId, this.spanId, this.context := traceId, spanId, context;
      attributes, status, ended := map[], Unset, false;
    }

    method SetAttribute(key: string, value: Attribute)
      modifies this`attributes
      ensures attributes == if ended then old(attributes) else old(attributes)[key := value]
    {
      if ended { return; }
      attributes := attributes[key := value];
    }

    method SetStatus(value: Status, message: Option<string>)
      modifies this`attributes, this`status
      ensures ended ==> status == old(status) && attributes == old(attributes)
      ensures !ended ==> status == value
      ensures !ended && message.Or("") == "" ==> attributes == old(attributes)
      ensures !ended && message.Or("") != "" ==> attributes == old(attributes)["status.message" := Text(message.value)]
    {
      if ended { return; }
      status := value;
      if message.Or("") != "" { attributes := attributes["status.message" := Text(message.value)]; }
    }

    /** Whatever is set on a span, in whatever order: an ended one is frozen, a live one has the last status set. */
    method Apply(edits: seq<Edit>)
      modifies this`attributes, this`status
      ensures ended ==> attributes == old(attributes) && status == old(status)
      ensures !ended ==> status == LastStatus(edits).Or(old(status))
    {
      assert edits[..0] == [];
      for i := 0 to |edits|
        invariant ended ==> attributes == old(attributes) && status == old(status)
        invariant !ended ==> status == LastStatus(edits[..i]).Or(old(status))
      {
        assert edits[..i + 1][..i] == edits[..i];
        match edits[i]
        case SetTo(key, value) => SetAttribute(key, value);
        case MarkAs(value, message) => SetStatus(value, message);
      }
      assert edits[..|edits|] == edits;
    }

    /**
     * Ends the span in whatever order: the stack loses this span and no other. Ending it again
     * changes nothing.
     */
    method End()
      requires context.Valid() && this in context.started
      modifies this`ended, context`stack, context`live
      ensures context.Valid() && ended
      ensures context.stack == Without(old(context.stack), this)
      ensures old(ended) ==> context.stack == old(context.stack)
      ensures this !in context.stack
    {
      EndStep(context.started, context.live, this);
      if ended { return; }
      ended := true;
      context.OnEnd(this);
      context.live := context.live - {this};
    }
  }

  ghost predicate NoRepeats(spans: seq<SimpleSpan>) {
    forall i, j :: 0 <= i < j < |spans| ==> spans[i] != spans[j]
  }

  ghost predicate OneTrace(spans: seq<SimpleSpan>) {
    forall i :: 0 <= i < |spans| ==> spans[i].traceId == spans[0].traceId
  }

  /** `spans[k]` is the last of `spans` that is in `live`. */
  ghost predicate LatestIn(spans: seq<SimpleSpan>, live: set<SimpleSpan>, k: int) {
    0 <= k < |spans| && spans[k] in live && forall j :: k < j < |spans| ==> spans[j] !in live
  }

  /** The spans of `spans` that are in `live`, in order. */
  ghost function Pick(spans: seq<SimpleSpan>, live: set<SimpleSpan>): seq<SimpleSpan> {
    if spans == [] then []
    else
      var n := |spans| - 1;
      Pick(spans[..n], live) + if spans[n] in live then [spans[n]] else []
  }

  ghost function Without(spans: seq<SimpleSpan>, span: SimpleSpan): seq<SimpleSpan> {
    if spans == [] then []
    else
      var n := |spans| - 1;
      Without(spans[..n], span) + if spans[n] == span then [] else [spans[n]]
  }

  lemma {:induction false} PickedIsLive(spans: seq<SimpleSpan>, live: set<SimpleSpan>, span: SimpleSpan)
    ensures span in Pick(spans, live) <==> span in spans && span in live
  {
    if spans == [] {
    } else {
      var n := |spans| - 1;
      PickedIsLive(spans[..n], live, span);
      assert spans == spans[..n] + [spans[n]];
    }
  }

  lemma {:induction false} PickHasNoRepeats(spans: seq<SimpleSpan>, live: set<SimpleSpan>)
    requires NoRepeats(spans)
    ensures NoRepeats(Pick(spans, live))
  {
    if spans == [] {
    } else {
      var n := |spans| - 1;
      PickHasNoRepeats(spans[..n], live);
      PickedIsLive(spans[..n], live, spans[n]);
      assert spans[n] !in spans[..n];
    }
  }

  lemma {:induction false} PickWithout(spans: seq<SimpleSpan>, live: set<SimpleSpan>, span: SimpleSpan)
    ensures Pick(spans, live - {span}) == Without(Pick(spans, live), span)
  {
    if spans == [] {
    } else {
      var n := |spans| - 1;
      PickWithout(spans[..n], live, span);
      var picked := Pick(spans[..n], live);
      assert (picked + [spans[n]])[..|picked|] == picked && picked + [] == picked;
    }
  }

  lemma {:induction false} PickIgnoresOthers(spans: seq<SimpleSpan>, live: set<SimpleSpan>, span: SimpleSpan)
    requires span !in spans
    ensures Pick(spans, live + {span}) == Pick(spans, live)
  {
    if spans == [] {
    } else {
      PickIgnoresOthers(spans[..|spans| - 1], live, span);
    }
  }

  lemma {:induction false} AbsentIsKept(spans: seq<SimpleSpan>, span: SimpleSpan)
    requires span !in spans
    ensures Without(spans, span) == spans
  {
    if spans == [] {
    } else {
      AbsentIsKept(spans[..|spans| - 1], span);
    }
  }

  /** Removing one span from a stack without repetition is the splice at its index. */
  lemma {:induction false} WithoutIsSplice(spans: seq<SimpleSpan>, k: nat)
    requires k < |spans| && NoRepeats(spans)
    ensures Without(spans, spans[k]) == spans[..k] + spans[k + 1..]
  {
    var n := |spans| - 1;
    if k == n {
      AbsentIsKept(spans[..n], spans[n]);
    } else {
      WithoutIsSplice(spans[..n], k);
      assert spans[k + 1..] == spans[..n][k + 1..] + [spans[n]];
    }
  }

  /** What ending a span does to the picked spans. */
  lemma EndStep(spans: seq<SimpleSpan>, live: set<SimpleSpan>, span: SimpleSpan)
    requires NoRepeats(spans) && span in spans && OneTrace(Pick(spans, live))
    ensures
      var before, after := Pick(spans, live), Pick(spans, live - {span});
      && after == Without(before, span) && OneTrace(after) && span !in after && NoRepeats(before)
      && (span in before <==> span in live) && (span !in live ==> after == before)
  {
    var before, after := Pick(spans, live), Pick(spans, live - {span});
    PickWithout(spans, live, span);
    PickHasNoRepeats(spans, live);
    PickedIsLive(spans, live, span);
    PickedIsLive(spans, live - {span}, span);
    forall i | 0 <= i < |after| ensures after[i].traceId == before[0].traceId {
      PickedIsLive(spans, live - {span}, after[i]);
      PickedIsLive(spans, live, after[i]);
    }
    if span !in live { AbsentIsKept(before, span); }
  }

  /** What starting a span does to them. */
  lemma StartStep(spans: seq<SimpleSpan>, live: set<SimpleSpan>, span: SimpleSpan)
    requires NoRepeats(spans) && span !in spans
    ensures NoRepeats(spans + [span])
    ensures Pick(spans + [span], live + {span}) == Pick(spans, live) + [span]
  {
    PickIgnoresOthers(spans, live, span);
    assert (spans + [span])[..|spans|] == spans;
  }

  lemma OneTraceAppend(picked: seq<SimpleSpan>, span: SimpleSpan)
    requires OneTrace(picked) && (picked != [] ==> span.traceId == picked[|picked| - 1].traceId)
    ensures OneTrace(picked + [span])
  {
  }

  class NoopTraceContext {
    var stack: seq<SimpleSpan>
    /** Every span this context ever started, in start order. */
    ghost var started: seq<SimpleSpan>
    /** Those of them that have not ended. */
    ghost var live: set<SimpleSpan>

    constructor ()
      ensures Valid() && stack == [] && started == []
    {
      stack, started, live := [], [], {};
    }

    /**
     * The stack is exactly the spans that have not ended, in the order they were started, and
     * they all carry one trace id.
     */
    ghost predicate Valid()
      reads this, started
    {
      && NoRepeats(started)
      && (forall k :: 0 <= k < |started| ==> started[k].context == this)
      && (forall k :: 0 <= k < |started| ==> (started[k] in live <==> !started[k].ended))
      && stack == Pick(started, live)
      && OneTrace(stack)
    }

    /** The `onEnd` closure: the first frame of that span is spliced out. */
    method OnEnd(span: SimpleSpan)
      requires NoRepeats(stack) && span in stack
      modifies this`stack
      ensures stack == Without(old(stack), span)
      ensures exists k :: 0 <= k < |old(stack)| && stack == old(stack)[..k] + old(stack)[k + 1..]
    {
      var idx := 0;
      while stack[idx] != span
        invariant 0 <= idx < |stack| && stack == old(stack)
        invariant span !in stack[..idx]
        decreases |stack| - idx
      {
        idx := idx + 1;
      }
      WithoutIsSplice(stack, idx);
      stack := stack[..idx] + stack[idx + 1..];
    }

    method NewSpan(traceId: string, spanHex: string, name: string, given: map<string, Attribute>) returns (span: SimpleSpan)
      ensures fresh(span) && !span.ended && span.context == this && span.traceId == traceId && span.spanId == spanHex
      ensures span.attributes == given["span.name" := Text(name)]
    {
      span := new SimpleSpan(traceId, spanHex, this);
      span.attributes := given;
      span.SetAttribute("span.name", Text(name));
    }

    /** A span joins the trace of the live spans; with none live it begins a new one. */
    method StartSpan(name: string, given: map<string, Attribute>, traceHex: string, spanHex: string) returns (span: SimpleSpan)
      requires Valid()
      modifies this
      ensures Valid() && fresh(span) && !span.ended && span.context == this && span.spanId == spanHex
      ensures started == old(started) + [span]
      ensures stack == old(stack) + [span]
      ensures span.traceId == if old(stack) == [] then traceHex else old(stack)[0].traceId
      ensures span.attributes == given["span.name" := Text(name)]
    {
      var traceId := if stack == [] then traceHex else stack[|stack| - 1].traceId;
      span := NewSpan(traceId, spanHex, name, given);
      StartStep(started, live, span);
      OneTraceAppend(stack, span);
      stack := stack + [span];
      started, live := started + [span], live + {span};
    }

    /** The latest started span that has not ended. */
    function CurrentSpan(): (r: Option<SimpleSpan>)
      requires Valid()
      reads this, started
      ensures r.None? <==> forall k :: 0 <= k < |started| ==> started[k].ended
      ensures r.Some? ==> exists k :: LatestIn(started, live, k) && started[k] == r.value
    {
      LastPicked(started, live);
      if stack == [] then None else Some(stack[|stack| - 1])
    }

    /** With ids of their proper length the header has 55 characters, the ids in their places. */
    function OutboundHeader(): (header: Option<string>)
      requires Valid()
      reads this, started
      ensures header.None? <==> CurrentSpan().None?
      ensures
        header.Some? ==>
          var span := CurrentSpan().value;
          |span.traceId| == 32 && |span.spanId| == 16 ==>
            && |header.value| == 55 && header.value[3..35] == span.traceId && header.value[36..52] == span.spanId
            && header.value[..3] == "00-" && header.value[35] == '-' && header.value[52..] == "-01"
    {
      match CurrentSpan()
      case None => None
      case Some(span) => Some("00-" + span.traceId + "-" + span.spanId + "-01")
    }
  }

  lemma {:induction false} LastPicked(spans: seq<SimpleSpan>, live: set<SimpleSpan>)
    ensures Pick(spans, live) == [] ==> forall k :: 0 <= k < |spans| ==> spans[k] !in live
    ensures Pick(spans, live) != [] ==>
              exists k :: LatestIn(spans, live, k) && spans[k] == Pick(spans, live)[|Pick(spans, live)| - 1]
  {
    if spans == [] {
    } else {
      var n := |spans| - 1;
      LastPicked(spans[..n], live);
      assert spans == spans[..n] + [spans[n]];
      if spans[n] in live {
        assert LatestIn(spans, live, n);
      } else if Pick(spans, live) != [] {
        var k :| LatestIn(spans[..n], live, k) && spans[k] == Pick(spans, live)[|Pick(spans, live)| - 1];
        assert LatestIn(spans, live, k);
      }
    }
  }
}
