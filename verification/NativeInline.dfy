/** Inline runs: canonical form is stable, and printed runs are read back as they were. */
module NativeInline {
  import opened Text
  import opened NativeFaults
  import opened NativeHtml
  import opened NativeHtmlTheory
  import opened NoteDocument
  import opened NativeDecode
  import opened NativeSerialize
  import opened NativeCanon

  // ---------- Canonical marks and runs ----------

  predicate Ascending(ms: seq<Mark>) {
    forall i, j :: 0 <= i < j < |ms| ==> Rank(ms[i]) < Rank(ms[j])
  }

  predicate Sorted(ms: seq<Mark>) {
    forall i, j :: 0 <= i < j < |ms| ==> Rank(ms[i]) <= Rank(ms[j])
  }

  lemma {:induction false} PlaceSorted(ms: seq<Mark>, m: Mark)
    requires Sorted(ms)
    ensures Sorted(Place(ms, m))
    ensures forall x :: x in Place(ms, m) <==> x in ms || x == m
  {
    var n := |ms| - 1;
    if ms != [] && Rank(ms[n]) > Rank(m) {
      PlaceSorted(ms[..n], m);
      assert ms == ms[..n] + [ms[n]];
      var p := Place(ms[..n], m);
      forall i | 0 <= i < |p| ensures Rank(p[i]) <= Rank(ms[n]) {
        assert p[i] in p;
      }
    }
  }

  lemma {:induction false} SortStep(ms: seq<Mark>)
    requires ms != []
    ensures SortedMarks(ms) == Place(SortedMarks(ms[..|ms| - 1]), ms[|ms| - 1])
  {
  }

  lemma {:induction false} SortSorts(ms: seq<Mark>)
    ensures Sorted(SortedMarks(ms))
    ensures forall x :: x in SortedMarks(ms) <==> x in ms
  {
    if ms != [] {
      var n := |ms| - 1;
      SortSorts(ms[..n]);
      SortStep(ms);
      hide SortedMarks, Place, Sorted;
      PlaceSorted(SortedMarks(ms[..n]), ms[n]);
      assert ms == ms[..n] + [ms[n]];
    }
  }

  lemma {:induction false} SortedAlready(ms: seq<Mark>)
    requires Ascending(ms)
    ensures SortedMarks(ms) == ms
  {
    if ms != [] {
      var n := |ms| - 1;
      SortedAlready(ms[..n]);
      SortStep(ms);
      hide SortedMarks;
      assert n > 0 ==> Rank(ms[n - 1]) < Rank(ms[n]);
      assert ms == ms[..n] + [ms[n]];
    }
  }

  lemma {:induction false} FirstsStep(ms: seq<Mark>)
    requires ms != []
    ensures var n, before := |ms| - 1, FirstOfEach(ms[..|ms| - 1]);
            FirstOfEach(ms) == if exists i :: 0 <= i < n && Rank(ms[i]) == Rank(ms[n]) then before
                               else before + [ms[n]]
  {
  }

  lemma {:induction false} FirstsAscend(ms: seq<Mark>)
    requires Sorted(ms)
    ensures Ascending(FirstOfEach(ms))
    ensures forall x :: x in FirstOfEach(ms) ==> x in ms
  {
    if ms != [] {
      hide Rank;
      var n := |ms| - 1;
      FirstsAscend(ms[..n]);
      FirstsStep(ms);
      hide FirstOfEach;
      assert ms == ms[..n] + [ms[n]];
      var before := FirstOfEach(ms[..n]);
      forall i | 0 <= i < |before| ensures exists k :: 0 <= k < n && ms[k] == before[i] {
        assert before[i] in ms[..n];
      }
    }
  }

  lemma {:induction false} FirstsAlready(ms: seq<Mark>)
    requires Ascending(ms)
    ensures FirstOfEach(ms) == ms
  {
    if ms != [] {
      hide Rank;
      FirstsAlready(ms[..|ms| - 1]);
      FirstsStep(ms);
      hide FirstOfEach;
    }
  }

  function CanonMarks(ms: seq<Mark>): seq<Mark> { FirstOfEach(SortedMarks(ms)) }

  lemma CanonMarksAscend(ms: seq<Mark>)
    ensures Ascending(CanonMarks(ms))
    ensures forall x :: x in CanonMarks(ms) ==> x in ms
    ensures Ascending(ms) ==> CanonMarks(ms) == ms
  {
    hide Ascending, Sorted, FirstOfEach, SortedMarks;
    SortSorts(ms);
    FirstsAscend(SortedMarks(ms));
    if Ascending(ms) {
      SortedAlready(ms);
      FirstsAlready(ms);
    }
  }

  /** What `canonicalRuns` produces. */
  predicate Canonical(rs: seq<Inline>) {
    && (forall i :: 0 <= i < |rs| ==>
          rs[i].text != "" && rs[i] == MarkedRun(rs[i].text, MarksOf(rs[i])) && Ascending(MarksOf(rs[i])))
    && (forall i :: 0 <= i < |rs| - 1 ==> MarksOf(rs[i]) != MarksOf(rs[i + 1]))
  }

  lemma {:induction false} CanonStep(rs: seq<Inline>)
    requires rs != []
    ensures CanonRuns(rs)
         == PushRun(CanonRuns(rs[..|rs| - 1]), rs[|rs| - 1].text, CanonMarks(MarksOf(rs[|rs| - 1])))
  {
  }

  lemma {:induction false} CanonRunsCanonical(rs: seq<Inline>)
    ensures Canonical(CanonRuns(rs))
    ensures Canonical(rs) ==> CanonRuns(rs) == rs
  {
    if rs != [] {
      hide CanonRuns, PushRun, CanonMarks;
      var n := |rs| - 1;
      CanonStep(rs);
      CanonRunsCanonical(rs[..n]);
      CanonMarksAscend(MarksOf(rs[n]));
      PushCanonical(CanonRuns(rs[..n]), rs[n].text, CanonMarks(MarksOf(rs[n])));
      if Canonical(rs) { PushLast(rs); }
    }
  }

  lemma PushLast(rs: seq<Inline>)
    requires rs != [] && Canonical(rs)
    ensures Canonical(rs[..|rs| - 1])
    ensures PushRun(rs[..|rs| - 1], rs[|rs| - 1].text, MarksOf(rs[|rs| - 1])) == rs
    ensures CanonMarks(MarksOf(rs[|rs| - 1])) == MarksOf(rs[|rs| - 1])
  {
    hide CanonMarks;
    CanonMarksAscend(MarksOf(rs[|rs| - 1]));
  }

  lemma PushCanonical(runs: seq<Inline>, text: string, ms: seq<Mark>)
    requires Canonical(runs) && Ascending(ms)
    ensures Canonical(PushRun(runs, text, ms))
  {
    hide Ascending;
    var p, m := PushRun(runs, text, ms), |runs| - 1;
    if text != "" && runs != [] && MarksOf(runs[m]) == ms {
      assert p == runs[..m] + [MarkedRun(runs[m].text + text, ms)];
    }
  }

  // ---------- Runs that share their marks ----------

  function JoinRuns(rs: seq<Inline>): string {
    if rs == [] then "" else JoinRuns(rs[..|rs| - 1]) + rs[|rs| - 1].text
  }

  predicate Uniform(rs: seq<Inline>, ms: seq<Mark>) {
    forall i :: 0 <= i < |rs| ==> MarksOf(rs[i]) == ms
  }

  predicate EndsWith(runs: seq<Inline>, ms: seq<Mark>) {
    runs != [] && MarksOf(runs[|runs| - 1]) == ms
  }

  function OneRun(text: string, ms: seq<Mark>): seq<Inline> {
    if text == "" then [] else [MarkedRun(text, ms)]
  }

  lemma PushOne(runs: seq<Inline>, a: string, b: string, ms: seq<Mark>)
    requires !EndsWith(runs, ms)
    ensures PushRun(runs + OneRun(a, ms), b, ms) == runs + OneRun(a + b, ms)
  {
    if b == "" {
      assert a + b == a;
    } else if a == "" {
      assert a + b == b && runs + [] == runs;
    } else {
      var all := runs + [MarkedRun(a, ms)];
      assert all[|all| - 1] == MarkedRun(a, ms) && MarksOf(MarkedRun(a, ms)) == ms;
      assert all[|all| - 1 := MarkedRun(a + b, ms)] == runs + [MarkedRun(a + b, ms)];
    }
  }

  /** Runs with the same marks come out as one run with their whole text. */
  lemma {:induction false} UniformJoins(before: seq<Inline>, rs: seq<Inline>, ms: seq<Mark>)
    requires Uniform(rs, ms) && Ascending(ms) && !EndsWith(CanonRuns(before), ms)
    ensures CanonRuns(before + rs) == CanonRuns(before) + OneRun(JoinRuns(rs), ms)
  {
    hide CanonRuns, PushRun, CanonMarks, Ascending, EndsWith;
    if rs == [] {
      assert before + rs == before;
    } else {
      var n := |rs| - 1;
      UniformJoins(before, rs[..n], ms);
      CanonMarksAscend(ms);
      CanonStep(before + rs);
      assert (before + rs)[..|before| + n] == before + rs[..n];
      PushOne(CanonRuns(before), JoinRuns(rs[..n]), rs[n].text, ms);
    }
  }

  // ---------- Printed text ----------

  const BREAK := Element(Br, map[], "<br>", [], "", "<br>", false)

  predicate NotNewline(c: char) { c != '\n' }

  /** The nodes of printed text: a line break element for every newline. */
  function TextNodes(t: string): seq<Node>
    decreases |t|
  {
    if t == "" then []
    else if t[0] == '\n' then [BREAK] + TextNodes(t[1..])
    else
      var n := End(t, 0, NotNewline);
      [TextNode(Escape(t[..n]), t[..n], false)] + TextNodes(t[n..])
  }

  /** Text starts with a newline or with a stretch that holds none. */
  lemma TextNodesStep(t: string) returns (head: Node, n: nat)
    requires t != ""
    ensures 1 <= n <= |t| && TextNodes(t) == [head] + TextNodes(t[n..])
    ensures if t[0] == '\n' then head == BREAK && n == 1
            else head == TextNode(Escape(t[..n]), t[..n], false) && '\n' !in t[..n]
  {
    hide Escape;
    n := if t[0] == '\n' then 1 else End(t, 0, NotNewline);
    head := if t[0] == '\n' then BREAK else TextNode(Escape(t[..n]), t[..n], false);
    assert t[0] != '\n' ==> forall k :: 0 <= k < n ==> t[..n][k] == t[k] && NotNewline(t[k]);
  }

  lemma BreakSource()
    ensures BREAK.Element? && Source(BREAK) == "<br>" && !Unsupported(BREAK) && Breaks(Escape("\n")) == "<br>"
  {
    assert Sources([]) == "";
    assert Escape("\n") == "\n" && "\n"[1..] == "";
  }

  lemma SourcesStep(n: Node, ns: seq<Node>)
    ensures Sources([n] + ns) == Source(n) + Sources(ns)
    ensures Supported([n] + ns) <==> (if n.TextNode? then !n.unsupported else !Unsupported(n)) && Supported(ns)
  {
    hide Source, Unsupported;
    assert ([n] + ns)[1..] == ns;
  }

  lemma {:induction false} TextSource(t: string)
    ensures Sources(TextNodes(t)) == Breaks(Escape(t))
    ensures Supported(TextNodes(t))
    decreases |t|
  {
    if t == "" {
    } else {
      var head, n := TextNodesStep(t);
      TextSource(t[n..]);
      SourcesStep(head, TextNodes(t[n..]));
      assert t == t[..n] + t[n..];
      EscapeOf(t[..n], t[n..]);
      BreaksOf(Escape(t[..n]), Escape(t[n..]));
      if t[0] == '\n' {
        assert t[..n] == "\n";
        BreakSource();
      } else {
        EscapedSafe(t[..n]);
        BreaksPlain(Escape(t[..n]));
      }
    }
  }

  /** An element whose children may be text and inline elements. */
  predicate Flow(tag: Tag) {
    !tag.List() && !tag.Table? && !tag.TableSection() && !tag.Tr? && tag != Other("constructor")
  }

  predicate InFlow(ctx: seq<Tag>) { ctx != [] && Flow(ctx[|ctx| - 1]) }

  lemma {:induction false} TextWf(env: Env, t: string, ctx: seq<Tag>)
    requires InFlow(ctx) && CleanText(t) && t != ""
    ensures Wf(env, TextNode(Escape(t), t, false), ctx)
  {
    hide Entities, Escape;
    EntitiesEscape(t);
    EscapedSafe(t);
  }

  lemma {:induction false} BreakWf(env: Env, ctx: seq<Tag>)
    requires InFlow(ctx)
    ensures Wf(env, BREAK, ctx)
  {
    hide LexOpen;
    assert StructTrace(ctx, Br).Clean();
    assert TagOf("br") == Br && NameText("br");
    assert AttrsFine(env, Br, [], {}) && AttrMap([], map[]) == map[];
    OpenRead(env, "br", [], ">");
    assert OpenText("br", [], ">") == "<br>";
  }

  lemma {:induction false} TextNodesWf(env: Env, t: string, ctx: seq<Tag>)
    requires InFlow(ctx) && CleanText(t)
    ensures WfAll(env, TextNodes(t), ctx)
    decreases |t|
  {
    hide Wf, End, CleanChar, Flow;
    if t != "" && t[0] == '\n' {
      BreakWf(env, ctx);
      TextNodesWf(env, t[1..], ctx);
      assert ([BREAK] + TextNodes(t[1..]))[1..] == TextNodes(t[1..]);
    } else if t != "" {
      var n := End(t, 0, NotNewline);
      TextWf(env, t[..n], ctx);
      TextNodesWf(env, t[n..], ctx);
      var head := TextNode(Escape(t[..n]), t[..n], false);
      assert ([head] + TextNodes(t[n..]))[1..] == TextNodes(t[n..]);
      assert t[n..] != "" ==> t[n..][0] == '\n';
    }
  }

  lemma {:induction false} JoinFirst(r: Inline, rs: seq<Inline>)
    ensures JoinRuns([r] + rs) == r.text + JoinRuns(rs)
  {
    if rs == [] {
      assert [r] + rs == [r] && [r][..0] == [];
    } else {
      JoinFirst(r, rs[..|rs| - 1]);
      assert ([r] + rs)[..|rs|] == [r] + rs[..|rs| - 1];
    }
  }

  /** What text is read back as, before the runs are joined. */
  ghost predicate ReadAs(d: Dec<seq<Inline>>, text: string, ms: seq<Mark>) {
    && d.trace == NO_FAULT && d.value.Some?
    && Uniform(d.value.value, ms) && JoinRuns(d.value.value) == text
  }

  lemma {:induction false} ReadFirst(head: string, rest: seq<Inline>, text: string, ms: seq<Mark>)
    requires Uniform(rest, ms) && JoinRuns(rest) == text
    ensures Uniform([MarkedRun(head, ms)] + rest, ms) && JoinRuns([MarkedRun(head, ms)] + rest) == head + text
  {
    JoinFirst(MarkedRun(head, ms), rest);
  }

  lemma ReadNext(env: Env, n: Node, ns: seq<Node>, head: string, text: string, ms: seq<Mark>)
    requires InlineNode(env, n, ms) == Dec(NO_FAULT, Some([MarkedRun(head, ms)])) && ReadAs(InlineNodes(env, ns, ms), text, ms)
    ensures ReadAs(InlineNodes(env, [n] + ns, ms), head + text, ms)
  {
    assert ([n] + ns)[1..] == ns;
    assert InlineNodes(env, [n] + ns, ms) ==
           Dec(NO_FAULT, Some([MarkedRun(head, ms)] + InlineNodes(env, ns, ms).value.value));
    ReadFirst(head, InlineNodes(env, ns, ms).value.value, text, ms);
  }

  lemma NoTextRead(env: Env, ms: seq<Mark>)
    ensures ReadAs(InlineNodes(env, TextNodes(""), ms), "", ms)
  {
  }

  lemma {:induction false} TextRead(env: Env, t: string, ms: seq<Mark>)
    ensures ReadAs(InlineNodes(env, TextNodes(t), ms), t, ms)
    decreases |t|
  {
    hide CanonRuns, DuplicateTrace, UrlTrace, Escape, CleanText, Inlines, MarkOf, Trace.Then, FirstWorst, WorstOf,
      TextNodes, JoinRuns;
    if t == "" {
      NoTextRead(env, ms);
    } else {
      var head, n := TextNodesStep(t);
      TextRead(env, t[n..], ms);
      assert InlineNode(env, head, ms) == Dec(NO_FAULT, Some([MarkedRun(t[..n], ms)])) by {
        assert t[0] == '\n' ==> t[..n] == "\n";
      }
      assert t[..n] + t[n..] == t;
      ReadNext(env, head, TextNodes(t[n..]), t[..n], t[n..], ms);
    }
  }

  // ---------- Printed marks ----------

  function MarkName(m: Mark): string {
    match m
    case Bold => "strong" case Italic => "em" case Underline => "u" case Strike => "s"
    case Link(_) => "a" case Code => "code"
  }

  function MarkPairs(m: Mark): seq<KeyValue> {
    if m.Link? then [KeyValue("href", m.href)] else []
  }

  function MarkNodes(ms: seq<Mark>, inner: seq<Node>): seq<Node> {
    if ms == [] then inner else [El(MarkName(ms[0]), MarkPairs(ms[0]), MarkNodes(ms[1..], inner))]
  }

  /** The nodes of printed runs. */
  function RunNodes(rs: seq<Inline>): seq<Node> {
    if rs == [] then [] else MarkNodes(MarksOf(rs[0]), TextNodes(rs[0].text)) + RunNodes(rs[1..])
  }

  lemma MarkTag(m: Mark)
    ensures NameText(MarkName(m)) && (m.Link? <==> TagOf(MarkName(m)).A?)
    ensures var tag := TagOf(MarkName(m));
            tag.Known() && tag.Phrasing() && Flow(tag) && !tag.Void() && !tag.Br?
            && (!m.Link? ==> MarkOf(tag) == Some(m))
  {
  }

  lemma {:induction false} MarkOpen(m: Mark)
    ensures OpenText(MarkName(m), MarkPairs(m), ">") == OpenMark(m)
    ensures CloseText(MarkName(m)) == CloseMark(m)
  {
    hide OpenText, Attribute, Escape;
    if m.Link? { LinkOpens(m.href); } else { TagOpens(MarkName(m)); }
  }

  lemma {:induction false} LinkOpens(href: string)
    ensures OpenText("a", [KeyValue("href", href)], ">") == "<a" + Attribute("href", Escape(href)) + ">"
  {
    hide AttrText, Attribute, Escape;
    LinkAttr(href);
  }

  lemma TagOpens(name: string)
    ensures OpenText(name, [], ">") == "<" + name + ">"
  {
    var none: seq<KeyValue> := [];
    assert AttrText(none) == "";
  }

  lemma {:induction false} LinkAttr(href: string)
    ensures AttrText([KeyValue("href", href)]) == Attribute("href", Escape(href))
  {
    hide Escape;
    var none: seq<KeyValue> := [];
    assert AttrText(none) == "" && [KeyValue("href", href)][1..] == none;
  }

  /** Every link is one the serializer lets through. */
  predicate GoodLinks(env: Env, ms: seq<Mark>) {
    forall i :: 0 <= i < |ms| ==> ms[i].Link? ==> UrlTrace(env, ms[i].href, false).Clean()
  }

  lemma UrlText(env: Env, s: string)
    requires UrlTrace(env, s, false).Clean()
    ensures s != "" && CleanText(s)
  {
    hide CleanText;
  }

  lemma {:induction false} MarkAttrs(env: Env, m: Mark)
    requires m.Link? ==> UrlTrace(env, m.href, false).Clean()
    ensures AttrsFine(env, TagOf(MarkName(m)), MarkPairs(m), {})
    ensures AttrMap(MarkPairs(m), map[]) == if m.Link? then map["href" := m.href] else map[]
  {
    hide AttrTrace, UrlTrace;
    if m.Link? {
      UrlText(env, m.href);
      assert AllowedAttr("href", A);
      assert "href"[0] == 'h' && "on"[0] == 'o';
      assert !ActiveAttr("href");
      assert TagOf("a") == A;
      AttrFine(env, A, {}, "href", m.href);
      assert NameText("href");
    }
  }

  lemma {:induction false} MarkSource(ms: seq<Mark>, inner: seq<Node>)
    requires Supported(inner)
    ensures Sources(MarkNodes(ms, inner)) == WrapMarks(ms, Sources(inner))
    ensures Supported(MarkNodes(ms, inner))
    decreases |ms|
  {
    hide El, OpenText, CloseText, OpenMark, CloseMark, MarkName, MarkPairs;
    if ms != [] {
      MarkSource(ms[1..], inner);
      MarkOpen(ms[0]);
      var kids := MarkNodes(ms[1..], inner);
      var n := El(MarkName(ms[0]), MarkPairs(ms[0]), kids);
      ElSource(MarkName(ms[0]), MarkPairs(ms[0]), kids);
      assert MarkNodes(ms, inner) == [n] && [n][1..] == [];
      assert Sources([n]) == Source(n) + "";
    }
  }

  predicate InInline(ctx: seq<Tag>, ms: seq<Mark>) {
    InFlow(ctx) && ((exists i :: 0 <= i < |ms| && ms[i].Link?) ==> A !in ctx)
  }

  lemma MarkStruct(ctx: seq<Tag>, ms: seq<Mark>)
    requires ms != [] && Ascending(ms) && InInline(ctx, ms)
    ensures StructTrace(ctx, TagOf(MarkName(ms[0]))).Clean()
    ensures Ascending(ms[1..]) && InInline(ctx + [TagOf(MarkName(ms[0]))], ms[1..])
  {
    hide MarkName, TagOf;
    MarkTag(ms[0]);
    var ctx' := ctx + [TagOf(MarkName(ms[0]))];
    if i :| 0 <= i < |ms| - 1 && ms[1..][i].Link? {
      assert ms[i + 1].Link? && !ms[0].Link?;
      assert A !in ctx';
    }
  }

  lemma {:induction false} MarkNodesWf(env: Env, ms: seq<Mark>, t: string, ctx: seq<Tag>)
    requires Ascending(ms) && InInline(ctx, ms) && GoodLinks(env, ms) && CleanText(t)
    ensures WfAll(env, MarkNodes(ms, TextNodes(t)), ctx)
    decreases |ms|
  {
    hide Ascending, Wf, TagOf, MarkName, MarkPairs, Flow, TextNodes;
    if ms == [] {
      TextNodesWf(env, t, ctx);
    } else {
      MarkTag(ms[0]);
      MarkAttrs(env, ms[0]);
      MarkStruct(ctx, ms);
      assert GoodLinks(env, ms[1..]);
      MarkNodesWf(env, ms[1..], t, ctx + [TagOf(MarkName(ms[0]))]);
      TextSource(t);
      var kids := MarkNodes(ms[1..], TextNodes(t));
      MarkSource(ms[1..], TextNodes(t));
      assert ctx != [];
      KnownTag(TagOf(MarkName(ms[0])));
      ElWf(env, MarkName(ms[0]), MarkPairs(ms[0]), kids, ctx);
      var n := El(MarkName(ms[0]), MarkPairs(ms[0]), kids);
      assert [n][1..] == [];
    }
  }

  lemma KnownTag(tag: Tag)
    requires tag.Known()
    ensures !tag.Forbidden()
  {
  }

  lemma {:induction false} UniformDuplicates(rs: seq<Inline>, ms: seq<Mark>)
    requires Uniform(rs, ms) && Ascending(ms)
    ensures DuplicateTrace(rs) == NO_FAULT
  {
    hide Rank;
    if rs != [] { UniformDuplicates(rs[1..], ms); }
  }

  lemma {:induction false} OneNodeRead(env: Env, n: Node, t: string, ms: seq<Mark>, all: seq<Mark>)
    requires InlineNode(env, n, ms) == Dec(NO_FAULT, Some(OneRun(t, all)))
    ensures ReadAs(InlineNodes(env, [n], ms), t, all)
  {
    hide InlineNode;
    assert [n][1..] == [];
    assert InlineNodes(env, [], ms) == Dec(NO_FAULT, Some([]));
    assert OneRun(t, all) + [] == OneRun(t, all);
    assert NO_FAULT.Then(NO_FAULT) == NO_FAULT;
    if t != "" {
      JoinFirst(MarkedRun(t, all), []);
      assert [MarkedRun(t, all)] + [] == [MarkedRun(t, all)];
    }
  }

  lemma {:induction false} MarkRead(env: Env, m: Mark, kids: seq<Node>, ms: seq<Mark>)
    requires m.Link? ==> UrlTrace(env, m.href, false).Clean()
    ensures InlineNode(env, El(MarkName(m), MarkPairs(m), kids), ms) == Inlines(env, kids, ms + [m])
  {
    hide Inlines, UrlTrace, TagOf, MarkName;
    MarkTag(m);
    MarkAttrs(env, m);
    if m.Link? { UrlText(env, m.href); }
  }

  /** Marked text is read back with its marks and its text. */
  lemma {:induction false} MarkedTextRead(env: Env, ms: seq<Mark>, t: string, outer: seq<Mark>)
    requires Ascending(outer + ms) && GoodLinks(env, ms)
    ensures ReadAs(InlineNodes(env, MarkNodes(ms, TextNodes(t)), outer), t, outer + ms)
    decreases |ms|
  {
    hide Ascending, El, TextNodes, InlineNodes, InlineNode, Inlines, UrlTrace, ReadAs, MarkName, MarkPairs;
    if ms == [] {
      TextRead(env, t, outer);
      assert outer + ms == outer;
    } else {
      var outer' := outer + [ms[0]];
      assert outer' + ms[1..] == outer + ms;
      MarkedTextRead(env, ms[1..], t, outer');
      var kids := MarkNodes(ms[1..], TextNodes(t));
      MarkRead(env, ms[0], kids, outer);
      LevelRead(env, ms[1..], t, outer');
      OneNodeRead(env, El(MarkName(ms[0]), MarkPairs(ms[0]), kids), t, outer, outer + ms);
    }
  }

  lemma {:induction false} LevelRead(env: Env, ms: seq<Mark>, t: string, outer: seq<Mark>)
    requires Ascending(outer + ms)
    requires ReadAs(InlineNodes(env, MarkNodes(ms, TextNodes(t)), outer), t, outer + ms)
    ensures Inlines(env, MarkNodes(ms, TextNodes(t)), outer) == Dec(NO_FAULT, Some(OneRun(t, outer + ms)))
  {
    var d := InlineNodes(env, MarkNodes(ms, TextNodes(t)), outer);
    UniformDuplicates(d.value.value, outer + ms);
    assert CanonRuns([]) == [];
    UniformJoins([], d.value.value, outer + ms);
    assert [] + d.value.value == d.value.value;
    assert [] + OneRun(t, outer + ms) == OneRun(t, outer + ms);
  }

  // ---------- Printed runs ----------

  predicate CleanRuns(rs: seq<Inline>) {
    forall i :: 0 <= i < |rs| ==> CleanText(rs[i].text)
  }

  predicate GoodRuns(env: Env, rs: seq<Inline>) {
    CleanRuns(rs) && forall i :: 0 <= i < |rs| ==> GoodLinks(env, MarksOf(rs[i]))
  }

  lemma {:induction false} CheckedLinks(env: Env, ms: seq<Mark>)
    requires CheckLinks(env, ms).Ok?
    ensures GoodLinks(env, ms)
  {
    hide UrlTrace;
    if ms != [] { CheckedLinks(env, ms[1..]); }
  }

  lemma {:induction false} RunsStep(rs: seq<Inline>)
    requires rs != []
    ensures RunNodes(rs) == MarkNodes(MarksOf(rs[0]), TextNodes(rs[0].text)) + RunNodes(rs[1..])
  {
  }

  lemma {:induction false} RunsSource(env: Env, rs: seq<Inline>)
    requires RenderRuns(env, rs).Ok?
    ensures RenderRuns(env, rs).value == Sources(RunNodes(rs)) && Supported(RunNodes(rs))
    ensures forall i :: 0 <= i < |rs| ==> GoodLinks(env, MarksOf(rs[i]))
  {
    if rs == [] {
      assert RunNodes(rs) == [] && Sources([]) == "" && Supported([]);
    } else {
      var head, text := MarkNodes(MarksOf(rs[0]), TextNodes(rs[0].text)), TextNodes(rs[0].text);
      RunsStep(rs);
      RunsSource(env, rs[1..]);
      CheckedLinks(env, MarksOf(rs[0]));
      TextSource(rs[0].text);
      MarkSource(MarksOf(rs[0]), text);
      SourcesOf(head, RunNodes(rs[1..]));
      SupportedOf(head, RunNodes(rs[1..]));
    }
  }

  lemma {:induction false} MarkedIsElement(ms: seq<Mark>, t: string)
    requires t != ""
    ensures var ns := MarkNodes(ms, TextNodes(t));
            ns != [] && (ms != [] ==> ns[0].Element? && ns[|ns| - 1].Element?)
  {
    hide End;
  }

  lemma {:induction false} RunsWf(env: Env, rs: seq<Inline>, ctx: seq<Tag>)
    requires Canonical(rs) && GoodRuns(env, rs) && InFlow(ctx) && A !in ctx
    ensures WfAll(env, RunNodes(rs), ctx)
  {
    hide MarkNodes, TextNodes, GoodLinks, Wf;
    if rs == [] {
      assert RunNodes(rs) == [] && WfAll(env, [], ctx);
    } else {
      RunsStep(rs);
      RunsWf(env, rs[1..], ctx);
      MarkNodesWf(env, MarksOf(rs[0]), rs[0].text, ctx);
      MarkedIsElement(MarksOf(rs[0]), rs[0].text);
      if |rs| > 1 {
        RunsStep(rs[1..]);
        MarkedIsElement(MarksOf(rs[1]), rs[1].text);
        assert MarksOf(rs[0]) != MarksOf(rs[1]);
      } else {
        assert RunNodes(rs[1..]) == [];
      }
      WfJoin(env, MarkNodes(MarksOf(rs[0]), TextNodes(rs[0].text)), RunNodes(rs[1..]), ctx);
    }
  }

  lemma {:induction false} InlineNodesOf(env: Env, a: seq<Node>, b: seq<Node>, ms: seq<Mark>)
    requires InlineNodes(env, a, ms).trace == NO_FAULT && InlineNodes(env, a, ms).value.Some?
    requires InlineNodes(env, b, ms).trace == NO_FAULT && InlineNodes(env, b, ms).value.Some?
    ensures InlineNodes(env, a + b, ms)
         == Dec(NO_FAULT, Some(InlineNodes(env, a, ms).value.value + InlineNodes(env, b, ms).value.value))
  {
    hide InlineNode;
    if a == [] {
      assert a + b == b;
      var last := InlineNodes(env, b, ms).value.value;
      assert [] + last == last;
    } else {
      assert (a + b)[1..] == a[1..] + b;
      var head, tail := InlineNode(env, a[0], ms), InlineNodes(env, a[1..], ms);
      NoFaultBoth(head.trace, tail.trace);
      InlineNodesOf(env, a[1..], b, ms);
      var last := InlineNodes(env, b, ms).value.value;
      assert head.value.value + (tail.value.value + last) == head.value.value + tail.value.value + last;
    }
  }

  lemma NoFaultBoth(a: Trace, b: Trace)
    ensures a.Then(b) == NO_FAULT <==> a == NO_FAULT && b == NO_FAULT
  {
  }

  lemma {:induction false} DuplicatesOf(a: seq<Inline>, b: seq<Inline>)
    requires DuplicateTrace(a) == NO_FAULT && DuplicateTrace(b) == NO_FAULT
    ensures DuplicateTrace(a + b) == NO_FAULT
  {
    hide DistinctMarks, MarksOf, Trace.Then, Trace.Clean, NO_FAULT, Deferred, Unless;
    if a == [] {
      assert a + b == b;
    } else {
      assert (a + b)[1..] == a[1..] + b && (a + b)[0] == a[0];
      NoFaultBoth(Unless(DistinctMarks(MarksOf(a[0])), Deferred(DuplicateMark)), DuplicateTrace(a[1..]));
      DuplicatesOf(a[1..], b);
    }
  }

  /** The raw runs read from `ns`, which join `before` as `rs`. */
  ghost predicate ReadsRuns(env: Env, ns: seq<Node>, before: seq<Inline>, rs: seq<Inline>) {
    var d := InlineNodes(env, ns, []);
    && d.trace == NO_FAULT && d.value.Some?
    && DuplicateTrace(d.value.value) == NO_FAULT
    && CanonRuns(before + d.value.value) == CanonRuns(before) + rs
  }

  lemma NoRunsRead(env: Env, before: seq<Inline>)
    ensures ReadsRuns(env, RunNodes([]), before, [])
  {
    assert before + [] == before;
    assert CanonRuns(before) + [] == CanonRuns(before);
  }

  lemma {:induction false} OneRunRead(env: Env, before: seq<Inline>, r: Inline)
    requires Ascending(MarksOf(r)) && r == MarkedRun(r.text, MarksOf(r)) && r.text != "" && GoodLinks(env, MarksOf(r))
    requires !EndsWith(CanonRuns(before), MarksOf(r))
    ensures ReadsRuns(env, MarkNodes(MarksOf(r), TextNodes(r.text)), before, [r])
  {
    hide RunNodes, MarkNodes, TextNodes, InlineNodes, CanonRuns, DuplicateTrace, GoodLinks, Ascending, Uniform,
      JoinRuns, EndsWith;
    var ms := MarksOf(r);
    assert [] + ms == ms;
    MarkedTextRead(env, ms, r.text, []);
    var raw := InlineNodes(env, MarkNodes(ms, TextNodes(r.text)), []).value.value;
    UniformDuplicates(raw, ms);
    UniformJoins(before, raw, ms);
  }

  lemma {:induction false} RunsRead(env: Env, before: seq<Inline>, rs: seq<Inline>)
    requires Canonical(rs) && GoodRuns(env, rs)
    requires rs != [] ==> !EndsWith(CanonRuns(before), MarksOf(rs[0]))
    ensures ReadsRuns(env, RunNodes(rs), before, rs)
    decreases |rs|
  {
    hide RunNodes, MarkNodes, TextNodes, InlineNodes, CanonRuns, DuplicateTrace, GoodLinks, CleanText, Ascending;
    if rs == [] {
      NoRunsRead(env, before);
    } else {
      var head, tail := MarkNodes(MarksOf(rs[0]), TextNodes(rs[0].text)), RunNodes(rs[1..]);
      RunsStep(rs);
      OneRunRead(env, before, rs[0]);
      var raw := InlineNodes(env, head, []).value.value;
      RunsRead(env, before + raw, rs[1..]);
      ReadsBoth(env, head, tail, before, rs[0], rs[1..]);
      assert rs == [rs[0]] + rs[1..];
    }
  }

  lemma {:induction false} ReadsBoth(env: Env, a: seq<Node>, b: seq<Node>, before: seq<Inline>, r: Inline,
                                     rs: seq<Inline>)
    requires ReadsRuns(env, a, before, [r])
    requires ReadsRuns(env, b, before + InlineNodes(env, a, []).value.value, rs)
    ensures ReadsRuns(env, a + b, before, [r] + rs)
  {
    hide InlineNodes, CanonRuns, DuplicateTrace;
    var x, y := InlineNodes(env, a, []).value.value, InlineNodes(env, b, []).value.value;
    InlineNodesOf(env, a, b, []);
    DuplicatesOf(x, y);
    assert before + (x + y) == before + x + y;
    assert CanonRuns(before) + ([r] + rs) == CanonRuns(before) + [r] + rs;
  }

  lemma JoinedClean(runs: seq<Inline>, text: string, ms: seq<Mark>)
    requires CleanRuns(runs) && CleanText(text)
    ensures CleanRuns(PushRun(runs, text, ms))
  {
    hide CleanChar;
  }

  lemma {:induction false} CanonRunsClean(rs: seq<Inline>)
    requires CleanRuns(rs)
    ensures CleanRuns(CanonRuns(rs))
  {
    if rs != [] {
      hide CanonRuns, PushRun, CanonMarks, CleanText;
      var n := |rs| - 1;
      CanonStep(rs);
      CanonRunsClean(rs[..n]);
      JoinedClean(CanonRuns(rs[..n]), rs[n].text, CanonMarks(MarksOf(rs[n])));
    }
  }

  lemma {:induction false} BreaksClean(s: string)
    requires CleanText(s)
    ensures CleanText(Breaks(s))
  {
    if s != "" { BreaksClean(s[1..]); }
  }

  lemma MarkClean(env: Env, m: Mark)
    requires m.Link? ==> UrlTrace(env, m.href, false).Clean()
    ensures CleanText(OpenMark(m)) && CleanText(CloseMark(m))
  {
    hide UrlTrace, Escape;
    if m.Link? {
      UrlText(env, m.href);
      EscapeClean(m.href);
    }
  }

  lemma {:induction false} WrapClean(env: Env, ms: seq<Mark>, inner: string)
    requires GoodLinks(env, ms) && CleanText(inner)
    ensures CleanText(WrapMarks(ms, inner))
  {
    hide UrlTrace, CleanChar, OpenMark, CloseMark;
    if ms != [] {
      MarkClean(env, ms[0]);
      WrapClean(env, ms[1..], inner);
    }
  }

  lemma {:induction false} RunsClean(env: Env, rs: seq<Inline>)
    requires RenderRuns(env, rs).Ok? && CleanRuns(rs)
    ensures CleanText(RenderRuns(env, rs).value)
  {
    hide CheckLinks, CleanChar, WrapMarks, Breaks, Escape, GoodLinks;
    if rs != [] {
      CheckedLinks(env, MarksOf(rs[0]));
      EscapeClean(rs[0].text);
      BreaksClean(Escape(rs[0].text));
      WrapClean(env, MarksOf(rs[0]), Breaks(Escape(rs[0].text)));
      RunsClean(env, rs[1..]);
    }
  }

  /** Whatever runs the serializer prints, it prints their canonical nodes, which stand wherever
      text may stand and are read back as the canonical runs. */
  lemma {:induction false} InlinesRoundTrip(env: Env, rs: seq<Inline>, ctx: seq<Tag>)
    requires RenderInlines(env, rs).Ok? && CleanRuns(rs) && InFlow(ctx) && A !in ctx
    ensures var ns := RunNodes(CanonRuns(rs));
            && RenderInlines(env, rs).value == Sources(ns)
            && CleanText(Sources(ns))
            && Supported(ns)
            && WfAll(env, ns, ctx)
            && Inlines(env, ns, []) == Dec(NO_FAULT, Some(CanonRuns(rs)))
  {
    hide RunNodes, InlineNodes, CanonRuns, RenderRuns, DuplicateTrace, GoodLinks, CleanText, Flow, WfAll, Canonical,
      EndsWith;
    var c := CanonRuns(rs);
    CanonRunsCanonical(rs);
    CanonRunsClean(rs);
    RunsSource(env, c);
    RunsClean(env, c);
    RunsWf(env, c, ctx);
    NoRuns(if c != [] then MarksOf(c[0]) else []);
    RunsRead(env, [], c);
    var raw := InlineNodes(env, RunNodes(c), []).value.value;
    assert [] + raw == raw && [] + c == c;
  }

  lemma NoRuns(ms: seq<Mark>)
    ensures CanonRuns([]) == [] && !EndsWith(CanonRuns([]), ms)
  {
  }
}
