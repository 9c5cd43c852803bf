/** The decode as it runs: the parser's loop and the one slot for a deferred fault, proved to do
    what the traces of `NativeHtml` and `NativeDecode` say. */
module NativeScan {
  import opened Text
  import opened NativeFaults
  import opened NativeHtml
  import opened NativeDecode
  import opened NoteDocument
  import opened NativeWalk

  /** `parseHtml` */
  method ParseHtml(env: Env, html: string, scan: FaultScan) returns (thrown: Option<Reason>, nodes: seq<Node>)
    requires scan.Valid() && scan.scanning
    modifies scan
    ensures scan.Valid() && scan.scanning && Ran(old(scan.reached), scan.reached, ParseOf(env, html).trace, thrown)
    ensures thrown == None ==> nodes == ParseOf(env, html).nodes
  {
    hide NextState;
    ghost var before := scan.reached;
    nodes := [];
    thrown := scan.Reach(CleanTrace(html));
    if thrown.Some? {
      Stops(before, scan.reached, CleanTrace(html), Run(env, LIMITS, html, INITIAL).trace, thrown);
      return;
    }
    ghost var done := CleanTrace(html);
    var st := INITIAL;
    while st.pos < |html|
      invariant Live(html, st) && scan.Valid() && scan.scanning && Ran(before, scan.reached, done, None)
      invariant ParseOf(env, html) == Parse(done.Then(Run(env, LIMITS, html, st).trace), Run(env, LIMITS, html, st).nodes)
      decreases |html| - st.pos
    {
      var step := NextState(env, LIMITS, html, st);
      ghost var rest := RunTurn(env, html, st);
      ghost var mid := scan.reached;
      thrown := scan.Reach(step.trace);
      RanThen(before, mid, scan.reached, done, step.trace, thrown);
      ThenThen(done, step.trace, rest);
      done := done.Then(step.trace);
      if thrown.Some? {
        Stops(before, scan.reached, done, rest, thrown);
        return;
      }
      assert step.trace.stop == None;
      st := step.next;
    }
    RunEnd(env, html, st);
    var end := Unless(|st.stack| == 1, Stopped(UnclosedElement));
    ghost var mid := scan.reached;
    thrown := scan.Reach(end);
    RanThen(before, mid, scan.reached, done, end, thrown);
    nodes := st.stack[0].children;
  }

  lemma Stops(before: seq<Reason>, after: seq<Reason>, t: Trace, next: Trace, thrown: Option<Reason>)
    requires Ran(before, after, t, thrown) && thrown.Some?
    ensures t.Then(next) == t
  {
  }

  lemma RunTurn(env: Env, html: string, st: State) returns (rest: Trace)
    requires Live(html, st) && st.pos < |html|
    ensures var step := NextState(env, LIMITS, html, st);
            var run := Run(env, LIMITS, html, st);
            && run.trace == step.trace.Then(rest)
            && (step.trace.stop == None ==>
                  Run(env, LIMITS, html, step.next) == Parse(rest, run.nodes))
  {
    hide NextState;
    var step := NextState(env, LIMITS, html, st);
    rest := if step.trace.stop.Some? then NO_FAULT else Run(env, LIMITS, html, step.next).trace;
  }

  lemma {:induction false} RunEnd(env: Env, html: string, st: State)
    requires Live(html, st) && st.pos == |html|
    ensures Run(env, LIMITS, html, st)
         == Parse(Unless(|st.stack| == 1, Stopped(UnclosedElement)), st.stack[0].children)
  {
  }

  /** One more stretch of a decode, unless it has been thrown out of before. */
  lemma Stretch(before: seq<Reason>, mid: seq<Reason>, after: seq<Reason>, done: Trace, t: Trace, earlier: Option<Reason>,
                thrown: Option<Reason>)
    requires Ran(before, mid, done, earlier)
    requires if earlier == None then Ran(mid, after, t, thrown) else after == mid && thrown == earlier
    ensures Ran(before, after, done.Then(t), thrown)
  {
    hide Ran;
    if earlier == None { RanThen(before, mid, after, done, t, thrown); } else { Stops(before, mid, done, t, earlier); }
  }

  /** The faults around the walk over the content. */
  function Above(stored: Stored, nodes: seq<Node>): Trace {
    Unless(!StrayText(nodes), Stopped(InternalFailure))
      .Then(Unless(ElementsOf(nodes) != [] || Blank(stored.data), Deferred(DocumentWithoutBlocks)))
      .Then(Unless(!StrayText(Content(nodes)), Stopped(InternalFailure)))
  }

  /** From the parsed body to the validated blocks. */
  method DecodeBody(env: Env, stored: Stored, b: Binding, nodes: seq<Node>, scan: FaultScan)
    returns (thrown: Option<Reason>, d: Decoded)
    requires scan.Valid() && scan.scanning
    modifies scan
    ensures scan.Valid() && scan.scanning && Ran(old(scan.reached), scan.reached, BodyTrace(env, stored, b, nodes), thrown)
    ensures thrown == None ==> d == DecodeNodes(env, b, Content(nodes), 0, true).1
  {
    hide Ran, Trace.Then, Trace.Clean, Unless, Stopped, Deferred, Content, DecodeNodes, ValidatedTrace, StrayText, ElementsOf, Blank, References,
      DistinctTokens;
    d := NOTHING;
    ghost var before, walked := scan.reached, DecodeNodes(env, b, Content(nodes), 0, true);
    var above := Above(stored, nodes);
    thrown := scan.Reach(above);
    StopOf(before, scan.reached, above, thrown);
    ghost var done, mid, earlier := above, scan.reached, thrown;
    if thrown == None {
      var payloads := new Payloads();
      var blocks, records;
      thrown, blocks, records := ReadBlocks(env, b, Content(nodes), true, payloads, scan);
      d := Decoded(blocks, records, payloads.sources);
      assert [] + walked.1.regions == walked.1.regions;
      assert thrown == None ==> d == walked.1;
    }
    Stretch(before, mid, scan.reached, done, walked.0, earlier, thrown);
    done, mid, earlier := done.Then(walked.0), scan.reached, thrown;
    if thrown == None { thrown := scan.Reach(ValidatedTrace(Validate(d.blocks))); }
    Stretch(before, mid, scan.reached, done, ValidatedTrace(Validate(walked.1.blocks)), earlier, thrown);
    done, mid, earlier := done.Then(ValidatedTrace(Validate(walked.1.blocks))), scan.reached, thrown;
    if thrown == None { thrown := scan.Reach(Unless(DistinctTokens(References(d.blocks)), Stopped(DuplicateOpaqueToken))); }
    Stretch(before, mid, scan.reached, done, Unless(DistinctTokens(References(walked.1.blocks)), Stopped(DuplicateOpaqueToken)), earlier, thrown);
  }

  /** `decodeNoteDocumentNative`: a scan of its own around the whole decode. */
  method DecodeNote(env: Env, stored: Stored, b: Binding, scan: FaultScan) returns (outcome: Outcome)
    modifies scan
    ensures scan.Valid() && !scan.scanning
    ensures outcome == Decode(env, stored, b)
  {
    hide ParseOf, BodyTrace, EnvelopeTrace, BindingTrace, Ran, Trace.Then, FirstWorst, WorstOf, DecodeNodes, Content,
      ContainerElement;
    scan.Begin();
    ghost var parse := ParseOf(env, stored.data);
    ghost var body := BodyTrace(env, stored, b, parse.nodes);
    var thrown := scan.Reach(BindingTrace(b));
    ghost var done, mid, earlier := BindingTrace(b), scan.reached, thrown;
    if thrown == None { thrown := scan.Reach(EnvelopeTrace(stored)); }
    Stretch([], mid, scan.reached, done, EnvelopeTrace(stored), earlier, thrown);
    done, mid, earlier := done.Then(EnvelopeTrace(stored)), scan.reached, thrown;
    var nodes, d := [], NOTHING;
    if thrown == None { thrown, nodes := ParseHtml(env, stored.data, scan); }
    Stretch([], mid, scan.reached, done, parse.trace, earlier, thrown);
    done, mid, earlier := done.Then(parse.trace), scan.reached, thrown;
    if thrown == None { thrown, d := DecodeBody(env, stored, b, nodes, scan); }
    Stretch([], mid, scan.reached, done, body, earlier, thrown);
    ghost var trace := DecodeTrace(env, stored, b);
    assert trace == done.Then(body);
    if thrown == None && scan.deferred.Some? {
      EndsWorst(scan.reached, trace);
      var worst := scan.Fail(scan.deferred.value);
      FailsWorst(scan.reached, scan.deferred.value, worst);
      thrown := Some(worst);
    } else {
      Concludes(scan.reached, trace, thrown);
    }
    assert trace.Clean() <==> thrown == None;
    if thrown.Some? {
      outcome := Refused(thrown.value);
    } else {
      var container := match ContainerElement(nodes) case Some(n) => Some(n.open) case None => None;
      outcome := Accepted(d.blocks, Context(b, stored, container, d.blocks, d.regions, d.records));
    }
    scan.End();
  }

  lemma EndsWorst(reached: seq<Reason>, t: Trace)
    requires Ran([], reached, t, None)
    ensures t.Reached() == reached && (t.Clean() <==> reached == [])
  {
    hide FirstWorst;
    assert [] + Outsides(t.deferred) == Outsides(t.deferred);
  }

  lemma FailsWorst(reached: seq<Reason>, r: Reason, thrown: Reason)
    requires WorstOf(reached) == Some(r) && FirstWorst(reached + [r], thrown)
    ensures thrown == r
  {
    hide FirstWorst, Severity, WorstOf;
    WorstOfAppend(reached, r);
    FirstWorstUnique(reached + [r], r, thrown);
  }

  lemma Concludes(reached: seq<Reason>, t: Trace, thrown: Option<Reason>)
    requires Ran([], reached, t, thrown)
    requires thrown == None ==> WorstOf(reached) == None
    ensures thrown == None <==> t.Clean()
    ensures thrown.Some? ==> WorstOf(t.Reached()) == thrown
  {
    if thrown == None {
      EndsWorst(reached, t);
    } else {
      assert [] + t.Reached() == t.Reached();
      FirstWorstUnique(t.Reached(), thrown.value, WorstOf(t.Reached()).value);
    }
  }

  /** The worst-fault rule: a decode is refused for the first-reached fault of the worst class
      among all the faults it reached; and a refusal classed uninterpretable means that it reached
      the end of the document and no fault of a worse class. */
  lemma WorstFault(env: Env, stored: Stored, b: Binding)
    ensures var t := DecodeTrace(env, stored, b);
            match Decode(env, stored, b)
            case Accepted(_, _) => t.Reached() == []
            case Refused(r) =>
              && FirstWorst(t.Reached(), r)
              && (ClassOf(r) == Uninterpretable <==> t.stop == None)
              && (ClassOf(r) == Uninterpretable ==> forall q :: q in t.Reached() ==> ClassOf(q) == Uninterpretable)
  {
    hide DecodeTrace, FirstWorst, WorstOf;
    var t := DecodeTrace(env, stored, b);
    if t.stop.Some? { assert Stop(t.stop.value) in t.Reached(); }
  }
}
