/** Which documents are written. */
module NativeWritable {
  import opened Text
  import opened NativeFaults
  import opened NativeHtml
  import opened NoteDocument
  import opened NativeDecode
  import opened NativeSerialize
  import opened NativeInline
  import opened NativeText
  import opened NativeSafety

  // ---------- What HTML can say ----------

  /** A link is a web or mail address. */
  predicate LinkWritable(env: Env, m: Mark) {
    m.Link? ==> SafeUrl(m.href) && env.parseUrl(m.href).Plain? && CleanText(m.href)
  }

  predicate MarksWritable(env: Env, ms: seq<Mark>) { forall i :: 0 <= i < |ms| ==> LinkWritable(env, ms[i]) }

  /** No run has a mark twice, and what is shown links to nothing but web and mail addresses. */
  predicate RunsWritable(env: Env, rs: seq<Inline>) {
    forall i :: 0 <= i < |rs| ==> DistinctMarks(MarksOf(rs[i])) && (rs[i].text != "" ==> MarksWritable(env, MarksOf(rs[i])))
  }

  predicate TasksWritable(env: Env, ts: seq<TaskItem>) {
    forall i :: 0 <= i < |ts| ==> RunsWritable(env, ts[i].inlines) && TasksWritable(env, ts[i].children)
  }

  predicate ItemsWritable(env: Env, items: seq<ListItem>, tokens: set<string>)
    decreases items, 0
  {
    items != [] ==>
      && RunsWritable(env, items[0].inlines)
      && (match items[0] case ItemWith(_, blocks) => AllWritable(env, blocks, tokens) case Item(_) => true)
      && ItemsWritable(env, items[1..], tokens)
  }

  /** Everything but images, attachments and embeds, with a code language that is one word, a table
      that has columns, and a region that is known. */
  predicate Writable(env: Env, b: Block, tokens: set<string>)
    decreases b, 0
  {
    match b
    case Paragraph(inlines) => RunsWritable(env, inlines)
    case Heading(_, inlines) => RunsWritable(env, inlines)
    case BulletList(items) => ItemsWritable(env, items, tokens)
    case OrderedList(items) => ItemsWritable(env, items, tokens)
    case TaskList(_, _, tasks) => TasksWritable(env, tasks)
    case Blockquote(blocks) => AllWritable(env, blocks, tokens)
    case Callout(_, blocks) => AllWritable(env, blocks, tokens)
    case CodeBlock(_, language) => language.Some? ==> LanguageText(language.value)
    case Table(columns, _) => columns != []
    case HorizontalRule => true
    case Reference(_) => false
    case Opaque(_, sentinel) => sentinel.token in tokens
  }

  predicate AllWritable(env: Env, bs: seq<Block>, tokens: set<string>)
    decreases bs, 1
  {
    bs != [] ==> Writable(env, bs[0], tokens) && AllWritable(env, bs[1..], tokens)
  }

  // ---------- Runs ----------

  lemma ThrownIs(t: Trace)
    ensures Thrown(t).Ok? <==> t.Clean()
  {
  }

  lemma LinkExact(env: Env, href: string)
    ensures Thrown(UrlTrace(env, href, false)).Ok? <==> LinkWritable(env, Link(href))
  {
    hide CleanTrace, InertLink, IsSpace, CleanText;
    ThrownIs(UrlTrace(env, href, false));
    CleanIs(href);
    if UrlTrace(env, href, false).Clean() {
      UrlSafe(env, href, false);
    } else if LinkWritable(env, Link(href)) {
      UrlAccepted(env, href, false);
    }
  }

  lemma {:induction false} LinksExact(env: Env, ms: seq<Mark>)
    ensures CheckLinks(env, ms).Ok? <==> MarksWritable(env, ms)
  {
    hide LinkWritable, UrlTrace;
    if ms != [] {
      LinksExact(env, ms[1..]);
      assert forall i :: 0 <= i < |ms[1..]| ==> ms[1..][i] == ms[i + 1];
      assert forall i :: 0 < i < |ms| ==> ms[i] == ms[1..][i - 1];
      if ms[0].Link? { LinkExact(env, ms[0].href); } else { NoLink(env, ms[0]); }
    }
  }

  lemma NoLink(env: Env, m: Mark)
    requires !m.Link?
    ensures LinkWritable(env, m)
  {
  }

  /** What is said of canonical runs: all of them show something. */
  predicate ShownWritable(env: Env, rs: seq<Inline>) {
    forall i :: 0 <= i < |rs| ==> rs[i].text != "" && MarksWritable(env, MarksOf(rs[i]))
  }

  predicate AllShown(rs: seq<Inline>) { forall i :: 0 <= i < |rs| ==> rs[i].text != "" }

  lemma {:induction false} RenderRunsExact(env: Env, rs: seq<Inline>)
    requires AllShown(rs)
    ensures RenderRuns(env, rs).Ok? <==> ShownWritable(env, rs)
  {
    hide MarksWritable, CheckLinks, WrapMarks;
    if rs != [] {
      assert forall i :: 0 <= i < |rs[1..]| ==> rs[1..][i] == rs[i + 1];
      assert forall i :: 0 < i < |rs| ==> rs[i] == rs[1..][i - 1];
      RenderRunsExact(env, rs[1..]);
      LinksExact(env, MarksOf(rs[0]));
    }
  }

  lemma PushWritable(env: Env, rs: seq<Inline>, text: string, ms: seq<Mark>)
    requires AllShown(rs)
    ensures AllShown(PushRun(rs, text, ms))
    ensures ShownWritable(env, PushRun(rs, text, ms)) <==> ShownWritable(env, rs) && (text != "" ==> MarksWritable(env, ms))
  {
    hide MarksWritable;
    var out := PushRun(rs, text, ms);
    if text != "" && rs != [] && MarksOf(rs[|rs| - 1]) == ms {
      assert forall i :: 0 <= i < |rs| - 1 ==> out[i] == rs[i];
      assert MarksOf(out[|rs| - 1]) == MarksOf(rs[|rs| - 1]);
    } else if text != "" {
      assert MarksOf(MarkedRun(text, ms)) == ms;
      assert out == rs + [MarkedRun(text, ms)];
      assert out[|rs|] == MarkedRun(text, ms);
      assert forall i :: 0 <= i < |rs| ==> out[i] == rs[i];
    }
  }

  lemma CanonMarksWritable(env: Env, ms: seq<Mark>)
    requires DistinctMarks(ms)
    ensures MarksWritable(env, CanonMarks(ms)) <==> MarksWritable(env, ms)
  {
    hide LinkWritable, CanonMarks, DistinctMarks;
    CanonMarkSet(ms);
    var cs := CanonMarks(ms);
    assert forall m :: m in cs <==> m in ms by { SameMembers(cs, ms); }
    assert MarksWritable(env, cs) <==> forall m :: m in cs ==> LinkWritable(env, m);
    assert MarksWritable(env, ms) <==> forall m :: m in ms ==> LinkWritable(env, m);
  }

  lemma SameMembers(a: seq<Mark>, b: seq<Mark>)
    requires MarkSet(a) == MarkSet(b)
    ensures forall m :: m in a <==> m in b
  {
    forall m ensures m in a <==> m in b { assert m in MarkSet(a) <==> m in a; assert m in MarkSet(b) <==> m in b; }
  }

  /** Every run that shows something links only where it may. */
  predicate VisibleWritable(env: Env, rs: seq<Inline>) {
    forall i :: 0 <= i < |rs| ==> rs[i].text != "" ==> MarksWritable(env, MarksOf(rs[i]))
  }

  lemma {:induction false} CanonWritable(env: Env, rs: seq<Inline>)
    requires AllDistinct(rs)
    ensures AllShown(CanonRuns(rs)) && (ShownWritable(env, CanonRuns(rs)) <==> VisibleWritable(env, rs))
  {
    hide PushRun, FirstOfEach, SortedMarks, DistinctMarks, MarksWritable, ShownWritable;
    if rs == [] {
      NothingShown(env);
    } else {
      var before, last := rs[..|rs| - 1], rs[|rs| - 1];
      assert forall i :: 0 <= i < |before| ==> before[i] == rs[i];
      CanonWritable(env, before);
      PushWritable(env, CanonRuns(before), last.text, CanonMarks(MarksOf(last)));
      CanonMarksWritable(env, MarksOf(last));
      VisibleLast(env, rs);
    }
  }

  lemma NothingShown(env: Env)
    ensures ShownWritable(env, [])
  {
  }

  lemma VisibleLast(env: Env, rs: seq<Inline>)
    requires rs != []
    ensures var last := rs[|rs| - 1];
            VisibleWritable(env, rs) <==>
              VisibleWritable(env, rs[..|rs| - 1]) && (last.text != "" ==> MarksWritable(env, MarksOf(last)))
  {
    hide MarksWritable;
  }

  lemma {:induction false} DuplicatesExact(rs: seq<Inline>)
    ensures DuplicateTrace(rs).Clean() <==> AllDistinct(rs)
  {
    hide DistinctMarks;
    if rs != [] {
      DuplicatesExact(rs[1..]);
      assert forall i :: 0 <= i < |rs[1..]| ==> rs[1..][i] == rs[i + 1];
      assert forall i :: 0 < i < |rs| ==> rs[i] == rs[1..][i - 1];
    }
  }

  lemma RunsExact(env: Env, rs: seq<Inline>)
    ensures RenderInlines(env, rs).Ok? <==> RunsWritable(env, rs)
  {
    hide RenderRuns, CanonRuns, DuplicateTrace, DistinctMarks, MarksWritable, ShownWritable, Thrown;
    ThrownIs(DuplicateTrace(rs));
    DuplicatesExact(rs);
    if AllDistinct(rs) {
      CanonWritable(env, rs);
      RenderRunsExact(env, CanonRuns(rs));
    }
  }

  // ---------- Blocks ----------

  lemma {:induction false} TaskExact(env: Env, t: TaskItem, k: ListKind)
    ensures RenderTask(env, t, k).Ok? <==> RunsWritable(env, t.inlines) && TasksWritable(env, t.children)
    decreases t, 0
  {
    hide RenderInlines, RenderTaskItems, RunsWritable, Tagged;
    RunsExact(env, t.inlines);
    TasksExact(env, t.children, k);
  }

  lemma TasksFirst(env: Env, ts: seq<TaskItem>)
    requires ts != []
    ensures TasksWritable(env, ts) <==>
              RunsWritable(env, ts[0].inlines) && TasksWritable(env, ts[0].children) && TasksWritable(env, ts[1..])
  {
    hide RunsWritable;
    assert forall i :: 0 <= i < |ts[1..]| ==> ts[1..][i] == ts[i + 1];
    assert forall i :: 0 < i < |ts| ==> ts[i] == ts[1..][i - 1];
  }

  lemma {:induction false} TasksExact(env: Env, ts: seq<TaskItem>, k: ListKind)
    ensures RenderTaskItems(env, ts, k).Ok? <==> TasksWritable(env, ts)
    decreases ts, 1
  {
    hide RenderTask, TasksWritable, RunsWritable;
    if ts == [] {
      NoTasksWritable(env);
    } else {
      TasksFirst(env, ts);
      TaskExact(env, ts[0], k);
      TasksExact(env, ts[1..], k);
    }
  }

  lemma NoTasksWritable(env: Env)
    ensures TasksWritable(env, [])
  {
  }

  lemma LeafWritable(env: Env, b: Block, k: ListKind, payloads: map<string, string>)
    requires !HoldsBlocks(b) && !b.BulletList? && !b.OrderedList?
    ensures RenderLeaf(env, b, k, payloads).Ok? <==> Writable(env, b, payloads.Keys)
  {
    hide RenderInlines, RenderTaskItems, RunsWritable, TasksWritable, Tagged, Cells, Rows, LanguageText, Attribute, Escape, HR_STYLE;
    match b
    case Paragraph(inlines) => RunsExact(env, inlines);
    case Heading(_, inlines) => RunsExact(env, inlines);
    case TaskList(kind, _, tasks) => TasksExact(env, tasks, if kind.Some? then kind.value else k);
    case _ =>
  }

  /** A list of blocks that is written anew is written exactly when it can be said in HTML. */
  lemma {:induction false} BlocksExact(env: Env, bs: seq<Block>, k: ListKind, payloads: map<string, string>)
    ensures RenderBlocks(env, bs, None, k, payloads).Ok? <==> AllWritable(env, bs, payloads.Keys)
    decreases bs, 2
  {
    hide RenderPlanned, AllWritable;
    var plan: seq<Planned> := seq(|bs|, i => Fresh);
    FreshExact(env, bs, plan, k, payloads);
    assert RenderBlocks(env, bs, None, k, payloads) == RenderPlanned(env, bs, plan, k, payloads);
  }

  lemma {:induction false} FreshExact(env: Env, bs: seq<Block>, plan: seq<Planned>, k: ListKind, payloads: map<string, string>)
    requires |plan| == |bs| && forall i :: 0 <= i < |plan| ==> plan[i] == Fresh
    ensures RenderPlanned(env, bs, plan, k, payloads).Ok? <==> AllWritable(env, bs, payloads.Keys)
    decreases bs, 1
  {
    hide RenderBlock, Writable;
    if bs != [] {
      BlockExact(env, bs[0], k, payloads);
      FreshExact(env, bs[1..], plan[1..], k, payloads);
    }
  }

  lemma {:induction false} BlockExact(env: Env, b: Block, k: ListKind, payloads: map<string, string>)
    ensures RenderBlock(env, b, Fresh, k, payloads).Ok? <==> Writable(env, b, payloads.Keys)
    decreases b, 0
  {
    hide RenderBlocks, RenderItems, RenderLeaf, AllWritable, ItemsWritable, RunsWritable, TasksWritable, OpenContainer, CloseContainer,
      Tagged, LanguageText;
    match b
    case Blockquote(blocks) => BlocksExact(env, blocks, k, payloads);
    case Callout(_, blocks) => BlocksExact(env, blocks, k, payloads);
    case BulletList(items) => ItemsExact(env, items, k, payloads);
    case OrderedList(items) => ItemsExact(env, items, k, payloads);
    case _ => LeafWritable(env, b, k, payloads);
  }

  lemma {:induction false} ItemsExact(env: Env, items: seq<ListItem>, k: ListKind, payloads: map<string, string>)
    ensures RenderItems(env, items, k, payloads).Ok? <==> ItemsWritable(env, items, payloads.Keys)
    decreases items, 0
  {
    hide RenderBlocks, RenderInlines, AllWritable, RunsWritable, Tagged;
    if items != [] {
      RunsExact(env, items[0].inlines);
      if items[0].ItemWith? { BlocksExact(env, items[0].blocks, k, payloads); }
      ItemsExact(env, items[1..], k, payloads);
    }
  }

  // ---------- Edits ----------

  /** Whatever originals there are, what can be said in HTML is written. */
  lemma {:induction false} BlocksWritten(env: Env, bs: seq<Block>, records: Option<seq<Record>>, k: ListKind,
                                         payloads: map<string, string>)
    requires AllWritable(env, bs, payloads.Keys)
    ensures RenderBlocks(env, bs, records, k, payloads).Ok?
    decreases bs, 3
  {
    hide RenderPlanned, AllWritable, Plan;
    var plan := if records.Some? then Plan(bs, records.value) else seq(|bs|, i => Fresh);
    PlannedWritten(env, bs, plan, k, payloads);
  }

  lemma {:induction false} PlannedWritten(env: Env, bs: seq<Block>, plan: seq<Planned>, k: ListKind, payloads: map<string, string>)
    requires |plan| == |bs| && AllWritable(env, bs, payloads.Keys)
    ensures RenderPlanned(env, bs, plan, k, payloads).Ok?
    decreases bs, 2
  {
    hide RenderBlock, Writable;
    if bs != [] {
      BlockWritten(env, bs[0], plan[0], k, payloads);
      PlannedWritten(env, bs[1..], plan[1..], k, payloads);
    }
  }

  lemma {:induction false} BlockWritten(env: Env, b: Block, p: Planned, k: ListKind, payloads: map<string, string>)
    requires Writable(env, b, payloads.Keys)
    ensures RenderBlock(env, b, p, k, payloads).Ok?
    decreases b, 1
  {
    hide RenderBlocks, RenderItems, RenderLeaf, AllWritable, ItemsWritable, OpenContainer, CloseContainer, RunsWritable, TasksWritable,
      LanguageText;
    var records := if p.Inside? then Some(p.record.children) else None;
    match b
    case Blockquote(blocks) => BlocksWritten(env, blocks, records, k, payloads);
    case Callout(_, blocks) => BlocksWritten(env, blocks, records, k, payloads);
    case _ => OtherWritten(env, b, p, k, payloads);
  }

  lemma {:induction false} OtherWritten(env: Env, b: Block, p: Planned, k: ListKind, payloads: map<string, string>)
    requires Writable(env, b, payloads.Keys) && !HoldsBlocks(b)
    ensures RenderBlock(env, b, p, k, payloads).Ok?
  {
    hide RenderItems, RenderLeaf, Writable, RenderContainer;
    BlockExact(env, b, k, payloads);
  }

  // ---------- Documents ----------

  lemma {:induction false} StringsExact(ss: seq<string>)
    ensures CleanStrings(ss).Ok? <==> forall i :: 0 <= i < |ss| ==> CleanText(ss[i])
  {
    hide CleanText, CleanTrace, Thrown;
    if ss != [] {
      ThrownIs(CleanTrace(ss[0]));
      CleanIs(ss[0]);
      StringsExact(ss[1..]);
      assert forall i :: 0 <= i < |ss[1..]| ==> ss[1..][i] == ss[i + 1];
      assert forall i :: 0 < i < |ss| ==> ss[i] == ss[1..][i - 1];
    }
  }

  /** A document that may be handed to the serializer at all. */
  predicate Presentable(doc: seq<Block>) {
    && (forall i :: 0 <= i < |Strings(doc)| ==> CleanText(Strings(doc)[i]))
    && Validate(doc) == None && DistinctTokens(References(doc))
  }

  /** The note is stored unless it is too large. */
  predicate Stores(result: Result<Stored, Reason>, stored: Stored) {
    result == if WithinBytes(stored) then Ok(stored) else Err(Stop(DocumentTooLarge))
  }

  lemma ValidatedIs(doc: seq<Block>)
    ensures Thrown(ValidatedTrace(Validate(doc))).Ok? <==> Validate(doc) == None
  {
    hide Validate;
  }

  /** Without an original, only presentable documents without regions that HTML can say are written,
      and they are unless they come out too large. */
  lemma FreshWritten(env: Env, doc: seq<Block>, b: Binding, k: ListKind) returns (body: string)
    ensures var sayable := Presentable(doc) && References(doc) == [] && AllWritable(env, doc, {});
            && (Serialize(env, doc, None, b, k).Ok? ==> sayable)
            && (sayable ==> Stores(Serialize(env, doc, None, b, k), Stored(true, "<div data-type=\"document\">" + body + "</div>")))
  {
    hide CleanStrings, Strings, Validate, ValidatedTrace, Thrown, Refs, DistinctTokens, RenderBlocks, AllWritable, WithinBytes, CleanText;
    StringsExact(Strings(doc));
    ValidatedIs(doc);
    var none: map<string, string> := map[];
    BlocksExact(env, doc, k, none);
    OpensAs();
    assert none.Keys == {};
    body := if RenderBlocks(env, doc, None, k, none).Ok? then RenderBlocks(env, doc, None, k, none).value else "";
  }

  /** An edit is written only if it is presentable, comes with the binding of its context, and keeps the
      original's references; it is written then, unless it comes out too large, if HTML can say it and
      its regions are the stored ones. */
  lemma EditWritten(env: Env, doc: seq<Block>, c: Context, b: Binding, k: ListKind) returns (data: string)
    ensures var kept := Presentable(doc) && BindingTrace(b).Clean() && c.binding == b && References(doc) == References(c.baseline);
            && (Serialize(env, doc, Some(c), b, k).Ok? ==> kept)
            && (kept && doc == c.baseline ==> Serialize(env, doc, Some(c), b, k) == Ok(c.original))
            && (kept && doc != c.baseline && AllWritable(env, doc, Payloads(env, b, c.regions).Keys) ==>
                  Stores(Serialize(env, doc, Some(c), b, k), Stored(c.original.tiptap, data)))
  {
    hide CleanStrings, Strings, Validate, ValidatedTrace, Thrown, Refs, DistinctTokens, RenderBlocks, AllWritable, WithinBytes, CleanText,
      BindingTrace, Payloads, DOCUMENT_OPEN;
    StringsExact(Strings(doc));
    ValidatedIs(doc);
    ThrownIs(BindingTrace(b));
    var payloads := Payloads(env, b, c.regions);
    if AllWritable(env, doc, payloads.Keys) {
      BlocksWritten(env, doc, Some(c.records), k, payloads);
      data := (if c.container.Some? then c.container.value else DOCUMENT_OPEN)
              + RenderBlocks(env, doc, Some(c.records), k, payloads).value + "</div>";
    } else {
      data := "";
    }
  }

  lemma OpensAs()
    ensures DOCUMENT_OPEN == "<div data-type=\"document\">"
  {
  }
}
