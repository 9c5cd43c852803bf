/** The two parsers as they run: positions and results are fields that the loops advance. They are
    proved to compute the functions of `Markdown` and `MarkdownBlocks`. */
module MarkdownParser {
  import opened Text
  import opened NoteDocument
  import opened Markdown
  import opened MarkdownBlocks
  import MarkdownJson

  /** How a call whose specified outcome is `r` ends. */
  ghost predicate Ends(r: Outcome<Read>, failed: Option<ErrorCode>, pos: nat, out: seq<Inline>) {
    match r
    case Ok(read) => failed == None && pos == read.pos && out == read.out
    case Err(code) => failed == Some(code)
  }

  /** A turn whose specified outcome is `r` fails with it, or leaves `rest` to do. */
  ghost predicate Goes(r: Outcome<Read>, failed: Option<ErrorCode>, rest: Outcome<Read>) {
    if failed == None then r == rest else r == Err(failed.value)
  }

  // ---------- One turn of `sequence` at a time ----------

  lemma {:induction false} StopStep(url: UrlCheck, s: string, pos: nat, text: string, ms: seq<Mark>,
                                    stop: Option<string>, out: seq<Inline>)
    requires pos <= |s| && stop.Some? && stop.value != "" && At(s, pos, stop.value)
    ensures Sequence(url, s, pos, text, ms, stop, out)
         == match Add(out, text, ms) case Ok(o) => Ok(Read(pos + |stop.value|, o)) case Err(e) => Err(e)
  {
    hide Add;
  }

  lemma {:induction false} EndStep(url: UrlCheck, s: string, text: string, ms: seq<Mark>, stop: Option<string>,
                                   out: seq<Inline>)
    requires stop != Some("")
    ensures Sequence(url, s, |s|, text, ms, stop, out)
         == match Add(out, text, ms)
            case Ok(o) => if stop.Some? then Err(InvalidShape) else Ok(Read(|s|, o))
            case Err(e) => Err(e)
  {
    hide Add;
  }

  predicate Stops(s: string, pos: nat, stop: Option<string>) { stop.Some? && At(s, pos, stop.value) }

  /** A character that is text, escaped or not, or that may not stand here. */
  lemma CharStep(url: UrlCheck, s: string, pos: nat, text: string, ms: seq<Mark>, stop: Option<string>,
                 out: seq<Inline>)
    requires pos < |s| && stop != Some("") && !Stops(s, pos, stop) && s[pos] != '`' && s[pos] != '['
    requires var word := s[pos] == '_' && IsWordAt(Before(s, pos)) && IsWordAt(CharAt(s, pos + 1));
             s[pos] == '\\' || word || DelimiterAt(s, pos) == None
    ensures var c, next := s[pos], CharAt(s, pos + 1);
            var word := c == '_' && IsWordAt(Before(s, pos)) && IsWordAt(next);
            Sequence(url, s, pos, text, ms, stop, out)
            == if c == '\\' && next.Some? && IsEscapable(next.value) then
                 Sequence(url, s, pos + 2, text + [next.value], ms, stop, out)
               else if c != '\\' && !word && IsSyntax(c) then Err(InvalidShape)
               else Sequence(url, s, pos + 1, text + [c], ms, stop, out)
  {
    hide Add, DelimiterAt, IsWord;
  }

  lemma CodeStep(url: UrlCheck, s: string, pos: nat, text: string, ms: seq<Mark>, stop: Option<string>,
                 out: seq<Inline>)
    requires pos < |s| && stop != Some("") && !Stops(s, pos, stop) && s[pos] == '`'
    ensures var open := End(s, pos, IsTick);
            var end := Find(s, s[pos..open], open);
            Sequence(url, s, pos, text, ms, stop, out)
            == match Add(out, text, ms)
               case Err(e) => Err(e)
               case Ok(o) =>
                 if end == None || end.value == open || '\n' in s[open..end.value] then Err(InvalidShape)
                 else
                   match Add(o, s[open..end.value], ms + [Code])
                   case Err(e) => Err(e)
                   case Ok(o') => Sequence(url, s, end.value + (open - pos), "", ms, stop, o')
  {
    hide Add, DelimiterAt, IsWord, Find, End;
  }

  lemma LinkStep(url: UrlCheck, s: string, pos: nat, text: string, ms: seq<Mark>, stop: Option<string>,
                 out: seq<Inline>)
    requires pos < |s| && stop != Some("") && !Stops(s, pos, stop) && s[pos] == '['
    ensures Sequence(url, s, pos, text, ms, stop, out)
         == match Add(out, text, ms)
            case Err(e) => Err(e)
            case Ok(o) =>
              if exists i :: 0 <= i < |ms| && ms[i].Link? then Err(MalformedLink)
              else
                match Enter(url, s, pos + 1, ms + [PENDING], Some("]"), o)
                case Err(e) => Err(e)
                case Ok(inner) =>
                  if CharAt(s, inner.pos) != Some('(') then Err(MalformedLink)
                  else
                    var end := Find(s, ")", inner.pos + 1);
                    if end == None then Err(MalformedLink)
                    else
                      match Href(url, s[inner.pos + 1..end.value])
                      case Err(e) => Err(e)
                      case Ok(_) =>
                        Sequence(url, s, end.value + 1, "", ms, stop, ResolveFrom(inner.out, |o|, s[inner.pos + 1..end.value]))
  {
    hide Add, DelimiterAt, IsWord, Find, Href, ResolveFrom, Enter;
  }

  lemma {:induction false} MarkStep(url: UrlCheck, s: string, pos: nat, text: string, ms: seq<Mark>,
                                    stop: Option<string>, out: seq<Inline>, m: Mark)
    requires pos < |s| && stop != Some("") && !Stops(s, pos, stop) && s[pos] != '\\' && s[pos] != '`' && s[pos] != '['
    requires !(s[pos] == '_' && IsWordAt(Before(s, pos)) && IsWordAt(CharAt(s, pos + 1))) && DelimiterAt(s, pos) == Some(m)
    ensures Sequence(url, s, pos, text, ms, stop, out)
         == match Add(out, text, ms)
            case Err(e) => Err(e)
            case Ok(o) =>
              if m in ms then Err(UnsupportedMark)
              else
                match Enter(url, s, pos + |Delimiter(m)|, ms + [m], Some(Delimiter(m)), o)
                case Err(e) => Err(e)
                case Ok(inner) => Sequence(url, s, inner.pos, "", ms, stop, inner.out)
  {
    hide Add, DelimiterAt, IsWord, Enter;
  }

  /** `parseInlines`: the position and the runs that `sequence` shares with its nested calls. */
  class InlineReader {
    const url: UrlCheck
    const s: string
    var pos: nat
    var out: seq<Inline>

    constructor (url: UrlCheck, s: string)
      ensures this.url == url && this.s == s && pos == 0 && out == []
    {
      this.url, this.s, pos, out := url, s, 0, [];
    }

    method Flush(text: string, ms: seq<Mark>) returns (failed: Option<ErrorCode>)
      modifies this`out
      ensures match Add(old(out), text, ms)
              case Ok(out') => failed == None && out == out'
              case Err(code) => failed == Some(code)
    {
      match Add(out, text, ms)
      case Ok(out') => out, failed := out', None;
      case Err(code) => failed := Some(code);
    }

    /** Code between equal runs of backticks. */
    method ReadCode(text: string, ms: seq<Mark>, stop: Option<string>) returns (failed: Option<ErrorCode>)
      requires pos < |s| && stop != Some("") && !Stops(s, pos, stop) && s[pos] == '`'
      modifies this
      ensures failed == None ==> old(pos) < pos <= |s|
      ensures Goes(Sequence(url, s, old(pos), text, ms, stop, old(out)), failed,
                   if pos <= |s| then Sequence(url, s, pos, "", ms, stop, out) else Err(InvalidShape))
    {
      hide Sequence, Find;
      CodeStep(url, s, pos, text, ms, stop, out);
      failed := Flush(text, ms);
      if failed.Some? { return; }
      var open := End(s, pos, IsTick);
      var end := Find(s, s[pos..open], open);
      if end == None || end.value == open || '\n' in s[open..end.value] {
        return Some(InvalidShape);
      }
      failed := Flush(s[open..end.value], ms + [Code]);
      if failed.Some? { return; }
      assert open > pos;
      pos := end.value + (open - pos);
    }

    /** A link: its text in brackets, then its target in parentheses. */
    method ReadLink(text: string, ms: seq<Mark>, stop: Option<string>) returns (failed: Option<ErrorCode>)
      requires pos < |s| && stop != Some("") && !Stops(s, pos, stop) && s[pos] == '['
      modifies this
      ensures failed == None ==> old(pos) < pos <= |s|
      ensures Goes(Sequence(url, s, old(pos), text, ms, stop, old(out)), failed,
                   if pos <= |s| then Sequence(url, s, pos, "", ms, stop, out) else Err(InvalidShape))
      decreases |s| - pos, 0
    {
      hide Sequence, Add, Find, Href, ResolveFrom, Enter;
      LinkStep(url, s, pos, text, ms, stop, out);
      failed := Flush(text, ms);
      if failed.Some? { return; }
      if exists i :: 0 <= i < |ms| && ms[i].Link? {
        return Some(MalformedLink);
      }
      var start := |out|;
      pos := pos + 1;
      failed := ReadSequence(ms + [PENDING], Some("]"));
      if failed.Some? { return; }
      if CharAt(s, pos) != Some('(') {
        return Some(MalformedLink);
      }
      var end := Find(s, ")", pos + 1);
      if end == None {
        return Some(MalformedLink);
      }
      var href := s[pos + 1..end.value];
      if Href(url, href).Err? {
        return Some(Href(url, href).error);
      }
      out := ResolveFrom(out, start, href);
      pos := end.value + 1;
    }

    /** Text between two equal delimiters. */
    method ReadMarked(text: string, ms: seq<Mark>, stop: Option<string>, m: Mark) returns (failed: Option<ErrorCode>)
      requires pos < |s| && stop != Some("") && !Stops(s, pos, stop) && s[pos] != '\\' && s[pos] != '`' && s[pos] != '['
      requires !(s[pos] == '_' && IsWordAt(Before(s, pos)) && IsWordAt(CharAt(s, pos + 1))) && DelimiterAt(s, pos) == Some(m)
      modifies this
      ensures failed == None ==> old(pos) < pos <= |s|
      ensures Goes(Sequence(url, s, old(pos), text, ms, stop, old(out)), failed,
                   if pos <= |s| then Sequence(url, s, pos, "", ms, stop, out) else Err(InvalidShape))
      decreases |s| - pos, 0
    {
      hide Sequence, Add, DelimiterAt, Enter, IsWord;
      MarkStep(url, s, pos, text, ms, stop, out, m);
      failed := Flush(text, ms);
      if failed.Some? { return; }
      if m in ms {
        return Some(UnsupportedMark);
      }
      pos := pos + |Delimiter(m)|;
      failed := ReadSequence(ms + [m], Some(Delimiter(m)));
    }

    /** `sequence` */
    method ReadSequence(ms: seq<Mark>, stop: Option<string>) returns (failed: Option<ErrorCode>)
      requires pos <= |s| && stop != Some("")
      modifies this
      ensures Ends(Enter(url, s, old(pos), ms, stop, old(out)), failed, pos, out)
      ensures failed == None ==> old(pos) <= pos <= |s|
      decreases |s| - pos, 1
    {
      hide Sequence, Add, DelimiterAt, IsEscapable, IsWord, IsSyntax;
      if |ms| > 6 {
        return Some(UnsupportedMark);
      }
      ghost var result := Sequence(url, s, pos, "", ms, stop, out);
      var text := "";
      while pos < |s|
        invariant old(pos) <= pos <= |s|
        invariant Sequence(url, s, pos, text, ms, stop, out) == result
        decreases |s| - pos
      {
        var c, next := s[pos], CharAt(s, pos + 1);
        if Stops(s, pos, stop) {
          StopStep(url, s, pos, text, ms, stop, out);
          failed := Flush(text, ms);
          pos := pos + |stop.value|;
          return;
        }
        var word := c == '_' && IsWordAt(Before(s, pos)) && IsWordAt(next);
        var m := DelimiterAt(s, pos);
        if c == '`' {
          failed := ReadCode(text, ms, stop);
          if failed.Some? { return; }
          text := "";
        } else if c == '[' {
          failed := ReadLink(text, ms, stop);
          if failed.Some? { return; }
          text := "";
        } else if c != '\\' && !word && m.Some? {
          failed := ReadMarked(text, ms, stop, m.value);
          if failed.Some? { return; }
          text := "";
        } else {
          CharStep(url, s, pos, text, ms, stop, out);
          if c == '\\' && next.Some? && IsEscapable(next.value) {
            text, pos := text + [next.value], pos + 2;
          } else if c != '\\' && !word && IsSyntax(c) {
            return Some(InvalidShape);
          } else {
            text, pos := text + [c], pos + 1;
          }
        }
      }
      EndStep(url, s, text, ms, stop, out);
      failed := Flush(text, ms);
      if failed == None && stop.Some? {
        failed := Some(InvalidShape);
      }
    }
  }

  method ReadInlines(url: UrlCheck, s: string) returns (r: Outcome<seq<Inline>>)
    ensures r == ParseInlines(url, s)
  {
    var reader := new InlineReader(url, s);
    var failed := reader.ReadSequence([], None);
    r := if failed.Some? then Err(failed.value) else Ok(reader.out);
  }

  // ---------- Blocks ----------

  /** How a call whose specified outcome is `r` ends. */
  ghost predicate Did<T(!new)>(r: Outcome<Parsed<T>>, got: Outcome<T>, pos: nat) {
    match r
    case Ok(p) => got == Ok(p.value) && pos == p.pos
    case Err(e) => got == Err(e)
  }

  ghost predicate Counted<T(!new)>(r: Outcome<Parsed<T>>, count: nat) { r.Ok? ==> count == r.value.count }

  /** `r` is `rest` with `done` in front. */
  ghost predicate Prefixed<T(!new)>(r: Outcome<Parsed<seq<T>>>, done: seq<T>, rest: Outcome<Parsed<seq<T>>>) {
    match rest
    case Ok(p) => r == Ok(Parsed(done + p.value, p.pos, p.count))
    case Err(e) => r == Err(e)
  }

  lemma PrefixedNone<T(!new)>(r: Outcome<Parsed<seq<T>>>)
    ensures Prefixed(r, [], r)
  {
    if r.Ok? { assert [] + r.value.value == r.value.value; }
  }

  lemma PrefixedMore<T(!new)>(r: Outcome<Parsed<seq<T>>>, done: seq<T>, rest: Outcome<Parsed<seq<T>>>, x: T,
                       more: Outcome<Parsed<seq<T>>>)
    requires Prefixed(r, done, rest) && Prefixed(rest, [x], more)
    ensures Prefixed(r, done + [x], more)
  {
    if more.Ok? { assert done + ([x] + more.value.value) == done + [x] + more.value.value; }
  }

  /** One turn of the loop over tasks. */
  lemma TaskTurn(url: UrlCheck, lines: seq<string>, pos: nat, depth: nat, indent: nat, n: nat)
    requires pos < |lines| && ReadTask(lines[pos]).Some?
    ensures var t := ReadTask(lines[pos]).value;
            var r := Tasks(url, lines, pos, depth, indent, n);
            if t.indent < indent then r == Ok(Parsed([], pos, 0))
            else if t.indent != indent then r == Err(InvalidShape)
            else if n >= MAX_LIST_ITEMS then r == Err(OversizeDocument)
            else
              match ParseInlines(url, t.text)
              case Err(e) => r == Err(e)
              case Ok(inlines) =>
                var nested := pos + 1 < |lines| && NestedIndent(lines[pos + 1]) > indent;
                if nested && depth + 2 > MAX_DEPTH then r == Err(DepthExceeded)
                else
                  match (if nested then Tasks(url, lines, pos + 1, depth + 1, indent + 2, 0) else Ok(Parsed([], pos + 1, 0)))
                  case Err(e) => r == Err(e)
                  case Ok(children) =>
                    Prefixed(r, [TaskItem(t.checked, inlines, children.value)], Tasks(url, lines, children.pos, depth, indent, n + 1))
                    && pos < children.pos <= |lines|
                    && (r.Ok? ==> r.value.count == 0)
  {
    hide ReadTask, ParseInlines, NestedIndent;
  }

  lemma {:induction false} TasksStop(url: UrlCheck, lines: seq<string>, pos: nat, depth: nat, indent: nat, n: nat)
    requires pos <= |lines| && (pos == |lines| || ReadTask(lines[pos]) == None)
    ensures Tasks(url, lines, pos, depth, indent, n) == Ok(Parsed([], pos, 0))
  {
    hide ReadTask;
  }

  lemma ItemTurn(url: UrlCheck, lines: seq<string>, pos: nat, ordered: bool, n: nat)
    requires pos < |lines| && ReadItem(lines[pos], ordered).Some?
    ensures var r := Items(url, lines, pos, ordered, n);
            if n >= MAX_LIST_ITEMS then r == Err(OversizeDocument)
            else
              match ParseInlines(url, ReadItem(lines[pos], ordered).value)
              case Err(e) => r == Err(e)
              case Ok(inlines) => Prefixed(r, [Item(inlines)], Items(url, lines, pos + 1, ordered, n + 1)) && (r.Ok? ==> r.value.count == 0)
  {
    hide ReadItem, ParseInlines;
  }

  lemma {:induction false} ItemsStop(url: UrlCheck, lines: seq<string>, pos: nat, ordered: bool, n: nat)
    requires pos <= |lines| && (pos == |lines| || ReadItem(lines[pos], ordered) == None)
    ensures Items(url, lines, pos, ordered, n) == Ok(Parsed([], pos, 0))
  {
    hide ReadItem;
  }

  function QuoteAt(url: UrlCheck, lines: seq<string>, pos: nat, count: nat, depth: nat): Outcome<Parsed<Block>>
    requires pos < |lines| && depth <= MAX_DEPTH
  {
    var end := FirstLine(lines, pos + 1, l => !IsQuoteLine(l));
    var inner :- Blocks(url, UnquotedAll(lines[pos..end]), 0, 0, depth + 1, false);
    Ok(Parsed(Blockquote(inner.value), end, count))
  }

  function ParagraphAt(url: UrlCheck, lines: seq<string>, pos: nat, count: nat): Outcome<Parsed<Block>>
    requires pos < |lines|
  {
    var end := FirstLine(lines, pos + 1, EndsParagraph);
    if exists i :: pos <= i < end && !ParagraphLine(lines[i]) then Err(InvalidShape)
    else
      var inlines :- ParseInlines(url, Join(lines[pos..end], "\n"));
      Ok(Parsed(Paragraph(inlines), end, count))
  }

  lemma {:induction false} DirectiveTurn(url: UrlCheck, lines: seq<string>, pos: nat, count: nat, depth: nat)
    requires pos < |lines| && depth <= MAX_DEPTH && StartsWith(lines[pos], CLOSE)
    ensures BlockAt(url, lines, pos, count, depth) == DirectiveAt(url, lines, pos, count, depth)
  {
    hide DirectiveAt;
  }

  function TaskListAt(url: UrlCheck, lines: seq<string>, pos: nat, count: nat, depth: nat): Outcome<Parsed<Block>>
    requires pos < |lines|
  {
    var items :- TasksAt(url, lines, pos, depth);
    if items.value == [] then Err(InvalidShape) else Ok(Parsed(TaskList(None, None, items.value), items.pos, count))
  }

  function ListAt(url: UrlCheck, lines: seq<string>, pos: nat, count: nat, ordered: bool): Outcome<Parsed<Block>>
    requires pos < |lines|
  {
    var items :- Items(url, lines, pos, ordered, 0);
    if items.pos == pos then Err(InvalidShape)
    else Ok(Parsed(if ordered then OrderedList(items.value) else BulletList(items.value), items.pos, count))
  }

  function HeadingAt(url: UrlCheck, pos: nat, count: nat, heading: (nat, string)): Outcome<Parsed<Block>> {
    var inlines :- ParseInlines(url, heading.1);
    Ok(Parsed(Heading(heading.0, inlines), pos + 1, count))
  }

  lemma {:induction false} FlatTurn(url: UrlCheck, lines: seq<string>, pos: nat, count: nat, depth: nat)
    requires pos < |lines| && depth <= MAX_DEPTH && !StartsWith(lines[pos], CLOSE)
    ensures var line := lines[pos];
            BlockAt(url, lines, pos, count, depth)
            == if FenceLine(line).Some? then CodeAt(lines, pos, count, FenceLine(line).value)
               else if StartsTask(line) then TaskListAt(url, lines, pos, count, depth)
               else if line == "---" then Ok(Parsed(HorizontalRule, pos + 1, count))
               else if StartsWith(line, "- ") || StartsOrdered(line) then ListAt(url, lines, pos, count, StartsOrdered(line))
               else if IsQuoteLine(line) then QuoteAt(url, lines, pos, count, depth)
               else if ReadHeading(line).Some? then HeadingAt(url, pos, count, ReadHeading(line).value)
               else ParagraphAt(url, lines, pos, count)
  {
    hide CodeAt, FenceLine, StartsTask, StartsOrdered, Tasks, Items, ReadHeading, ParseInlines, FirstLine, Join,
      Blocks, UnquotedAll, ParagraphLine, TasksAt;
  }

  lemma CodeCount(lines: seq<string>, pos: nat, count: nat, fence: (string, string))
    requires pos < |lines|
    ensures Counted(CodeAt(lines, pos, count, fence), count)
  {
  }

  lemma TableCount(lines: seq<string>, pos: nat, count: nat)
    requires pos < |lines| && TableAt(lines, pos, count).Ok?
    ensures TableAt(lines, pos, count).value.count == count
  {
  }

  lemma OpaqueCount(lines: seq<string>, pos: nat, count: nat, nodeType: string)
    requires pos < |lines| && OpaqueAt(lines, pos, count, nodeType).Ok?
    ensures OpaqueAt(lines, pos, count, nodeType).value.count == count
  {
  }

  lemma {:induction false} LoopEnd(url: UrlCheck, lines: seq<string>, count: nat, depth: nat, nested: bool)
    requires depth <= MAX_DEPTH
    ensures BlockLoop(url, lines, |lines|, count, depth, nested)
         == if nested then Err(InvalidShape) else Ok(Parsed([], |lines|, count))
  {
  }

  /** A block that is counted and within its bound. */
  function CountedAt(url: UrlCheck, lines: seq<string>, pos: nat, count: nat, depth: nat): (r: Outcome<Parsed<Block>>)
    requires pos < |lines| && depth <= MAX_DEPTH
    ensures r.Ok? ==> pos < r.value.pos <= |lines|
  {
    if count + 1 > MAX_BLOCKS then Err(OversizeDocument)
    else
      var head :- BlockAt(url, lines, pos, count + 1, depth);
      var _ :- Bounded(Join(lines[pos..head.pos], "\n"), MAX_BLOCK_BYTES, OversizeBlock);
      Ok(head)
  }

  /** Where the loop goes on after a block that ends at `pos`, unless it may not. */
  function Separated(lines: seq<string>, pos: nat, nested: bool): (next: Option<nat>)
    requires pos < |lines|
    ensures next.Some? ==> pos <= next.value < |lines|
  {
    if nested && lines[pos] == CLOSE then Some(pos)
    else if lines[pos] != "" || pos + 1 == |lines| || lines[pos + 1] == "" then None
    else Some(pos + 1)
  }

  /** One turn of the loop over blocks. */
  lemma {:induction false} LoopTurn(url: UrlCheck, lines: seq<string>, pos: nat, count: nat, depth: nat, nested: bool)
    requires pos < |lines| && depth <= MAX_DEPTH && lines[pos] != CLOSE
    ensures var r, head := BlockLoop(url, lines, pos, count, depth, nested), CountedAt(url, lines, pos, count, depth);
            && (head.Err? ==> r == Err(head.error))
            && (head.Ok? && head.value.pos == |lines| ==>
                  r == if nested then Err(InvalidShape) else Ok(Parsed([head.value.value], head.value.pos, head.value.count)))
            && (head.Ok? && head.value.pos < |lines| ==>
                  var next := Separated(lines, head.value.pos, nested);
                  && (next == None ==> r == Err(InvalidShape))
                  && (next.Some? ==>
                        Prefixed(r, [head.value.value], BlockLoop(url, lines, next.value, head.value.count, depth, nested))))
  {
    hide BlockAt, Join, Utf8;
  }

  lemma {:induction false} CloseTurn(url: UrlCheck, lines: seq<string>, pos: nat, count: nat, depth: nat, nested: bool)
    requires pos < |lines| && depth <= MAX_DEPTH && lines[pos] == CLOSE
    ensures BlockLoop(url, lines, pos, count, depth, nested)
         == if nested then Ok(Parsed([], pos + 1, count)) else Err(InvalidShape)
  {
  }

  class Parser {
    const url: UrlCheck
    const lines: seq<string>
    var pos: nat
    var count: nat

    constructor (url: UrlCheck, lines: seq<string>)
      ensures this.url == url && this.lines == lines && pos == 0 && count == 0
    {
      this.url, this.lines, pos, count := url, lines, 0, 0;
    }

    /** `tasks` after its check of the depth. */
    method ParseTasks(depth: nat, indent: nat) returns (r: Outcome<seq<TaskItem>>)
      requires pos <= |lines|
      modifies this`pos
      ensures Did(Tasks(url, lines, old(pos), depth, indent, 0), r, pos) && (r.Ok? ==> pos <= |lines|)
      decreases |lines| - pos
    {
      hide Tasks, ReadTask, ParseInlines, NestedIndent;
      ghost var result := Tasks(url, lines, pos, depth, indent, 0);
      var items: seq<TaskItem> := [];
      PrefixedNone(result);
      while pos < |lines|
        invariant old(pos) <= pos <= |lines|
        invariant Prefixed(result, items, Tasks(url, lines, pos, depth, indent, |items|))
        decreases |lines| - pos
      {
        var t := ReadTask(lines[pos]);
        if t == None {
          break;
        }
        TaskTurn(url, lines, pos, depth, indent, |items|);
        if t.value.indent < indent {
          assert items + [] == items;
          return Ok(items);
        }
        if t.value.indent != indent {
          return Err(InvalidShape);
        }
        if |items| >= MAX_LIST_ITEMS {
          return Err(OversizeDocument);
        }
        ghost var turn := Tasks(url, lines, pos, depth, indent, |items|);
        pos := pos + 1;
        var inlines := ReadInlines(url, t.value.text);
        if inlines.Err? {
          return Err(inlines.error);
        }
        var children: seq<TaskItem> := [];
        if pos < |lines| && NestedIndent(lines[pos]) > indent {
          if depth + 2 > MAX_DEPTH {
            return Err(DepthExceeded);
          }
          var nested := ParseTasks(depth + 1, indent + 2);
          if nested.Err? {
            return Err(nested.error);
          }
          children := nested.value;
        }
        var item := TaskItem(t.value.checked, inlines.value, children);
        PrefixedMore(result, items, turn, item, Tasks(url, lines, pos, depth, indent, |items| + 1));
        items := items + [item];
      }
      TasksStop(url, lines, pos, depth, indent, |items|);
      assert items + [] == items;
      r := Ok(items);
    }

    method ParseItems(ordered: bool) returns (r: Outcome<seq<ListItem>>)
      requires pos <= |lines|
      modifies this`pos
      ensures Did(Items(url, lines, old(pos), ordered, 0), r, pos) && (r.Ok? ==> pos <= |lines|)
    {
      hide Items, ReadItem, ParseInlines;
      ghost var result := Items(url, lines, pos, ordered, 0);
      PrefixedNone(result);
      var items: seq<ListItem> := [];
      while pos < |lines| && ReadItem(lines[pos], ordered).Some?
        invariant old(pos) <= pos <= |lines|
        invariant Prefixed(result, items, Items(url, lines, pos, ordered, |items|))
        decreases |lines| - pos
      {
        ItemTurn(url, lines, pos, ordered, |items|);
        if |items| >= MAX_LIST_ITEMS {
          return Err(OversizeDocument);
        }
        var inlines := ReadInlines(url, ReadItem(lines[pos], ordered).value);
        if inlines.Err? {
          return Err(inlines.error);
        }
        PrefixedMore(result, items, Items(url, lines, pos, ordered, |items|), Item(inlines.value), Items(url, lines, pos + 1, ordered, |items| + 1));
        items := items + [Item(inlines.value)];
        pos := pos + 1;
      }
      ItemsStop(url, lines, pos, ordered, |items|);
      assert items + [] == items;
      r := Ok(items);
    }

    /** A fenced block of code, after its opening line. */
    method ParseCode(fence: (string, string)) returns (r: Outcome<Block>)
      requires 0 < pos <= |lines|
      modifies this`pos
      ensures Did(CodeAt(lines, old(pos) - 1, count, fence), r, pos) && (r.Ok? ==> pos <= |lines|)
    {
      hide Join, Utf8;
      var start := pos;
      while pos < |lines| && lines[pos] != fence.0
        invariant start <= pos <= |lines| && FirstLine(lines, pos, l => l == fence.0) == FirstLine(lines, start, l => l == fence.0)
        decreases |lines| - pos
      {
        pos := pos + 1;
      }
      if pos == |lines| {
        return Err(InvalidShape);
      }
      var text := Join(lines[start..pos], "\n");
      pos := pos + 1;
      if Utf8(text) > MAX_INLINE_BYTES {
        return Err(OversizeInline);
      }
      r := Ok(CodeBlock(text, if fence.1 == "" then None else Some(fence.1)));
    }

    /** `block`, at the line before `pos`. */
    method ParseBlock(depth: nat) returns (r: Outcome<Block>)
      requires pos < |lines| && depth <= MAX_DEPTH
      modifies this
      ensures Did(BlockAt(url, lines, old(pos), old(count), depth), r, pos)
      ensures Counted(BlockAt(url, lines, old(pos), old(count), depth), count)
      ensures r.Ok? ==> old(pos) < pos <= |lines|
      decreases MAX_DEPTH + 1 - depth, |lines| - pos, 0
    {
      var line := lines[pos];
      if StartsWith(line, CLOSE) {
        DirectiveTurn(url, lines, pos, count, depth);
        r := ParseDirective(depth);
        return;
      }
      FlatTurn(url, lines, pos, count, depth);
      if FenceLine(line).Some? {
        pos := pos + 1;
        r := ParseCode(FenceLine(line).value);
        CodeCount(lines, old(pos), count, FenceLine(line).value);
      } else if StartsTask(line) {
        r := ParseTaskList(depth);
      } else if line == "---" {
        pos := pos + 1;
        r := Ok(HorizontalRule);
      } else if StartsWith(line, "- ") || StartsOrdered(line) {
        r := ParseList(StartsOrdered(line));
      } else if IsQuoteLine(line) {
        r := ParseQuote(depth);
      } else if ReadHeading(line).Some? {
        r := ParseHeading(ReadHeading(line).value);
      } else {
        r := ParseParagraph();
      }
    }

    method ParseTaskList(depth: nat) returns (r: Outcome<Block>)
      requires pos < |lines|
      modifies this`pos
      ensures Did(TaskListAt(url, lines, old(pos), count, depth), r, pos) && Counted(TaskListAt(url, lines, old(pos), count, depth), count)
      ensures r.Ok? ==> old(pos) < pos <= |lines|
    {
      hide Tasks;
      if depth + 1 > MAX_DEPTH {
        return Err(DepthExceeded);
      }
      var items := ParseTasks(depth, 0);
      r := if items.Err? then Err(items.error) else if items.value == [] then Err(InvalidShape)
           else Ok(TaskList(None, None, items.value));
    }

    method ParseList(ordered: bool) returns (r: Outcome<Block>)
      requires pos < |lines|
      modifies this`pos
      ensures Did(ListAt(url, lines, old(pos), count, ordered), r, pos) && Counted(ListAt(url, lines, old(pos), count, ordered), count)
      ensures r.Ok? ==> old(pos) < pos <= |lines|
    {
      hide Items;
      var start := pos;
      var items := ParseItems(ordered);
      r := if items.Err? then Err(items.error) else if pos == start then Err(InvalidShape)
           else Ok(if ordered then OrderedList(items.value) else BulletList(items.value));
    }

    method ParseHeading(heading: (nat, string)) returns (r: Outcome<Block>)
      requires pos < |lines|
      modifies this`pos
      ensures Did(HeadingAt(url, old(pos), count, heading), r, pos) && Counted(HeadingAt(url, old(pos), count, heading), count)
      ensures r.Ok? ==> old(pos) < pos <= |lines|
    {
      hide ParseInlines;
      pos := pos + 1;
      var inlines := ReadInlines(url, heading.1);
      r := if inlines.Err? then Err(inlines.error) else Ok(Heading(heading.0, inlines.value));
    }

    /** A quote: its lines without their prefix, read by a parser of their own. */
    method ParseQuote(depth: nat) returns (r: Outcome<Block>)
      requires pos < |lines| && depth <= MAX_DEPTH && IsQuoteLine(lines[pos])
      modifies this`pos
      ensures Did(QuoteAt(url, lines, old(pos), count, depth), r, pos) && Counted(QuoteAt(url, lines, old(pos), count, depth), count)
      ensures r.Ok? ==> old(pos) < pos <= |lines|
      decreases MAX_DEPTH + 1 - depth, |lines| - pos - 1, 3
    {
      hide Blocks, IsQuoteLine, Unquoted;
      var start := pos;
      var quote := [Unquoted(lines[pos])];
      pos := pos + 1;
      while pos < |lines| && IsQuoteLine(lines[pos])
        invariant start < pos <= |lines| && quote == UnquotedAll(lines[start..pos])
        invariant FirstLine(lines, pos, l => !IsQuoteLine(l)) == FirstLine(lines, start + 1, l => !IsQuoteLine(l))
        decreases |lines| - pos
      {
        quote := quote + [Unquoted(lines[pos])];
        pos := pos + 1;
      }
      var parser := new Parser(url, quote);
      var inner := parser.ParseBlocks(depth + 1, false);
      r := if inner.Err? then Err(inner.error) else Ok(Blockquote(inner.value));
    }

    /** A paragraph, which ends at a blank line or a closing directive. */
    method ParseParagraph() returns (r: Outcome<Block>)
      requires pos < |lines|
      modifies this`pos
      ensures Did(ParagraphAt(url, lines, old(pos), count), r, pos) && Counted(ParagraphAt(url, lines, old(pos), count), count)
      ensures r.Ok? ==> old(pos) < pos <= |lines|
    {
      hide ParseInlines, ParagraphLine, Join, EndsParagraph;
      var start := pos;
      pos := pos + 1;
      while pos < |lines| && !EndsParagraph(lines[pos])
        invariant start < pos <= |lines| && FirstLine(lines, pos, EndsParagraph) == FirstLine(lines, start + 1, EndsParagraph)
        decreases |lines| - pos
      {
        pos := pos + 1;
      }
      for i := start to pos
        invariant forall j :: start <= j < i ==> ParagraphLine(lines[j])
      {
        if !ParagraphLine(lines[i]) {
          return Err(InvalidShape);
        }
      }
      var inlines := ReadInlines(url, Join(lines[start..pos], "\n"));
      r := if inlines.Err? then Err(inlines.error) else Ok(Paragraph(inlines.value));
    }

    /** A directive. */
    method ParseDirective(depth: nat) returns (r: Outcome<Block>)
      requires pos < |lines| && depth <= MAX_DEPTH
      modifies this
      ensures Did(DirectiveAt(url, lines, old(pos), old(count), depth), r, pos)
      ensures Counted(DirectiveAt(url, lines, old(pos), old(count), depth), count)
      ensures r.Ok? ==> old(pos) < pos <= |lines|
      decreases MAX_DEPTH + 1 - depth, |lines| - pos - 1, 3
    {
      hide Blocks, Tasks, TableAt, OpaqueAt, Word, ListLine, ReadTitle, NodeTypeText, DIRECTIVE, VariantOf, KindOf;
      var line, start := lines[pos], pos;
      pos := pos + 1;
      if line == DIRECTIVE + "table" {
        var at := TableAt(lines, start, count);
        if at.Err? {
          return Err(at.error);
        }
        pos := at.value.pos;
        TableCount(lines, start, count);
        r := Ok(at.value.value);
      } else if Word(line, DIRECTIVE + "callout ").Some? {
        var v := VariantOf(Word(line, DIRECTIVE + "callout ").value);
        if v == None {
          return Err(UnsupportedCalloutVariant);
        }
        var inner := ParseBlocks(depth + 1, true);
        r := if inner.Err? then Err(inner.error) else Ok(Callout(v.value, inner.value));
      } else if ListLine(line, DIRECTIVE + "list ").Some? {
        var (name, json) := ListLine(line, DIRECTIVE + "list ").value;
        var kind := KindOf(name);
        if kind == None {
          return Err(UnsupportedListKind);
        }
        var title := ReadTitle(json, kind.value);
        if title.Err? {
          return Err(title.error);
        }
        if depth + 1 > MAX_DEPTH {
          return Err(DepthExceeded);
        }
        var items := ParseTasks(depth, 0);
        if items.Err? {
          return Err(items.error);
        }
        if items.value == [] || !LineIs(lines, pos, CLOSE) {
          return Err(InvalidShape);
        }
        pos := pos + 1;
        r := Ok(TaskList(kind, title.value, items.value));
      } else if StartsWith(line, DIRECTIVE + "opaque ") && NodeTypeText(line[|DIRECTIVE| + 7..]) {
        var at := OpaqueAt(lines, start, count, line[|DIRECTIVE| + 7..]);
        if at.Err? {
          return Err(at.error);
        }
        pos := at.value.pos;
        OpaqueCount(lines, start, count, line[|DIRECTIVE| + 7..]);
        r := Ok(at.value.value);
      } else {
        r := Err(InvalidShape);
      }
    }

    /** `blocks` */
    method ParseBlocks(depth: nat, nested: bool) returns (r: Outcome<seq<Block>>)
      requires pos <= |lines|
      modifies this
      ensures Did(Blocks(url, lines, old(pos), old(count), depth, nested), r, pos)
      ensures Counted(Blocks(url, lines, old(pos), old(count), depth, nested), count)
      ensures r.Ok? ==> old(pos) <= pos <= |lines|
      decreases if depth <= MAX_DEPTH then MAX_DEPTH + 1 - depth else 0, |lines| - pos, 2
    {
      if depth > MAX_DEPTH {
        return Err(DepthExceeded);
      }
      hide BlockLoop, CountedAt, Separated;
      ghost var result := BlockLoop(url, lines, pos, count, depth, nested);
      var blocks: seq<Block> := [];
      PrefixedNone(result);
      while pos < |lines|
        invariant old(pos) <= pos <= |lines|
        invariant Prefixed(result, blocks, BlockLoop(url, lines, pos, count, depth, nested))
        decreases |lines| - pos
      {
        if lines[pos] == CLOSE {
          CloseTurn(url, lines, pos, count, depth, nested);
          if !nested {
            return Err(InvalidShape);
          }
          pos := pos + 1;
          assert blocks + [] == blocks;
          return Ok(blocks);
        }
        LoopTurn(url, lines, pos, count, depth, nested);
        ghost var turn := BlockLoop(url, lines, pos, count, depth, nested);
        var block := ParseCounted(depth);
        if block.Err? {
          return Err(block.error);
        }
        if pos == |lines| {
          r := if nested then Err(InvalidShape) else Ok(blocks + [block.value]);
          return;
        }
        var next := Separated(lines, pos, nested);
        if next == None {
          return Err(InvalidShape);
        }
        pos := next.value;
        PrefixedMore(result, blocks, turn, block.value, BlockLoop(url, lines, pos, count, depth, nested));
        blocks := blocks + [block.value];
      }
      LoopEnd(url, lines, count, depth, nested);
      assert blocks + [] == blocks;
      r := if nested then Err(InvalidShape) else Ok(blocks);
    }

    method ParseCounted(depth: nat) returns (r: Outcome<Block>)
      requires pos < |lines| && depth <= MAX_DEPTH
      modifies this
      ensures Did(CountedAt(url, lines, old(pos), old(count), depth), r, pos)
      ensures Counted(CountedAt(url, lines, old(pos), old(count), depth), count)
      ensures r.Ok? ==> old(pos) < pos <= |lines|
      decreases MAX_DEPTH + 1 - depth, |lines| - pos, 1
    {
      hide BlockAt, Join, Utf8;
      if count + 1 > MAX_BLOCKS {
        return Err(OversizeDocument);
      }
      var start := pos;
      count := count + 1;
      r := ParseBlock(depth);
      if r.Ok? && Utf8(Join(lines[start..pos], "\n")) > MAX_BLOCK_BYTES {
        r := Err(OversizeBlock);
      }
    }
  }

  method ParseLines(url: UrlCheck, lines: seq<string>) returns (r: Outcome<seq<Block>>)
    ensures match Blocks(url, lines, 0, 0, 1, false)
            case Ok(p) => r == Ok(p.value)
            case Err(e) => r == Err(e)
  {
    var parser := new Parser(url, lines);
    r := parser.ParseBlocks(1, false);
  }
}
