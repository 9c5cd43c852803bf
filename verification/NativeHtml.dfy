/** The strict HTML reader of the native codec: character references, the lexer of tags and
    attributes, and the stack machine that `parseHtml` runs. */
module NativeHtml {
  import opened Text
  import opened NativeFaults

  /** What `new URL(s)` makes of a URL. */
  datatype UrlParse = Unparsable | Plain | WithCredentials

  /** Code this model cannot see: the URL parser, the CSS declaration filter, and the keyed
      digest that mints the token of the region with this binding, index and source. */
  datatype Env = Env(
    parseUrl: string -> UrlParse,
    safeStyle: string -> bool,
    token: (Binding, nat, string) -> string)

  datatype Binding = Binding(noteId: string, revision: string)

  // ---------- Characters ----------

  /** `clean`: a control character ends the decode, a CRLF line ending is deferred. */
  function CleanTrace(s: string): (t: Trace)
    ensures CleanText(s) ==> t.Clean()
    ensures t.Clean() ==> CleanText(s)
  {
    if exists i :: 0 <= i < |s| && HostileAt(s, i) then
      assert !CleanText(s) by {
        var i :| 0 <= i < |s| && HostileAt(s, i);
        assert s[i] in s;
      }
      Stopped(ControlCharacter)
    else if '\r' in s then Deferred(CrlfLineEnding)
    else
      assert forall i :: 0 <= i < |s| && s[i] != '\r' ==> HostileAt(s, i) || CleanChar(s[i]);
      NO_FAULT
  }

  /** A lone carriage return, or another control character that is neither a tab nor a newline. */
  predicate HostileAt(s: string, i: nat)
    requires i < |s|
  {
    if s[i] == '\r' then i + 1 == |s| || s[i + 1] != '\n' else !CleanChar(s[i])
  }

  // ---------- Character references ----------

  datatype Unescaped = Unescaped(value: string, unsupported: bool, raw: bool)

  predicate IsReferenceChar(c: char) { c != ';' && !IsSpace(c) && c != '<' && c != '&' }

  function Named(name: string): Option<char> {
    if name == "amp" then Some('&')
    else if name == "lt" then Some('<')
    else if name == "gt" then Some('>')
    else if name == "quot" then Some('"')
    else if name == "apos" then Some('\'')
    else if name == "nbsp" then Some('\U{A0}')
    else Numeric(name)
  }

  function NumberIn(digits: string, base: nat): nat
    requires forall c :: c in digits ==> IsHexDigit(c)
  {
    if digits == "" then 0
    else NumberIn(digits[..|digits| - 1], base) * base + HexValue(digits[|digits| - 1])
  }

  function Numeric(name: string): Option<char> {
    if |name| >= 2 && name[0] == '#' && (forall c :: c in name[1..] ==> IsDigit(c)) then
      ScalarValue(NumberIn(name[1..], 10))
    else if |name| >= 3 && name[0] == '#' && (name[1] == 'x' || name[1] == 'X')
            && (forall c :: c in name[2..] ==> IsHexDigit(c)) then
      ScalarValue(NumberIn(name[2..], 16))
    else None
  }

  function ScalarValue(n: nat): Option<char> {
    if 0 < n <= 0x10FFFF && !(0xD800 <= n <= 0xDFFF) then Some(n as char) else None
  }

  /** A browser leaves an `&` before `name` literal in an attribute value. */
  predicate LiteralAmpersand(name: string) {
    || name == ""
    || (!IsWord(name[0]) && name[0] != '#')
    || (var n := End(name, 0, IsWord); 0 < n < |name| && name[n] == '=')
  }

  function Entities(s: string): Unescaped
    decreases |s|
  {
    if s == "" then Unescaped("", false, true)
    else if s[0] != '&' then
      var rest := Entities(s[1..]);
      rest.(value := [s[0]] + rest.value)
    else
      var n := End(s, 1, IsReferenceChar);
      var name := s[1..n];
      if n < |s| && s[n] == ';' && Named(name).Some? then
        var rest := Entities(s[n + 1..]);
        rest.(value := [Named(name).value] + rest.value)
      else
        var end := if n < |s| && s[n] == ';' then n + 1 else n;
        var rest := Entities(s[end..]);
        Unescaped(s[..end] + rest.value, true, LiteralAmpersand(name) && rest.raw)
  }

  // ---------- Tags ----------

  datatype Tag =
    | Root
    | Div | P | H1 | H2 | H3 | H4 | H5 | H6 | Ul | Ol | Li | Strong | B | Em | I | U | S
    | Strike | Del | Code | A | Br | Pre | Blockquote | Table | Thead | Tbody | Tfoot | Tr
    | Th | Td | SpanTag | Img | Hr | Figure | Figcaption | Sup | Sub | Mark
    | Other(name: string)
  {
    /** The parser's `tags`. */
    predicate Known() { !Root? && !Other? }

    predicate Phrasing() {
      Strong? || B? || Em? || I? || U? || S? || Strike? || Del? || Code? || A? || Br?
      || SpanTag? || Img? || Sup? || Sub? || Mark?
    }

    predicate Heading() { H1? || H2? || H3? || H4? || H5? || H6? }

    predicate List() { Ul? || Ol? }

    predicate TableSection() { Thead? || Tbody? || Tfoot? }

    predicate Cell() { Th? || Td? }

    predicate Void() {
      Br? || Hr? || Img? || (Other? && VoidName(name))
    }

    predicate Forbidden() { Other? && ForbiddenName(name) }

    predicate StopsListItemScope() {
      Heading() || List() || Pre? || Blockquote? || Table? || TableSection() || Tr? || Cell()
      || Figure? || Figcaption?
    }
  }

  predicate VoidName(name: string) {
    match name
    case "area" | "base" | "col" | "embed" | "input" | "link" | "meta" | "param" | "source"
      | "track" | "wbr" => true
    case _ => false
  }

  predicate ForbiddenName(name: string) {
    match name
    case "applet" | "audio" | "base" | "embed" | "form" | "frame" | "frameset" | "iframe"
      | "link" | "math" | "noembed" | "noframes" | "object" | "portal" | "plaintext"
      | "script" | "source" | "style" | "title" | "svg" | "textarea" | "track" | "video"
      | "xmp" => true
    case _ => false
  }

  function TagOf(name: string): Tag {
    match name
    case "root" => Root
    case "div" => Div case "p" => P case "h1" => H1 case "h2" => H2 case "h3" => H3
    case "h4" => H4 case "h5" => H5 case "h6" => H6 case "ul" => Ul case "ol" => Ol
    case "li" => Li case "strong" => Strong case "b" => B case "em" => Em case "i" => I
    case "u" => U case "s" => S case "strike" => Strike case "del" => Del case "code" => Code
    case "a" => A case "br" => Br case "pre" => Pre case "blockquote" => Blockquote
    case "table" => Table case "thead" => Thead case "tbody" => Tbody case "tfoot" => Tfoot
    case "tr" => Tr case "th" => Th case "td" => Td case "span" => SpanTag case "img" => Img
    case "hr" => Hr case "figure" => Figure case "figcaption" => Figcaption
    case "sup" => Sup case "sub" => Sub case "mark" => Mark
    case _ => Other(name)
  }

  // ---------- Lexing one tag ----------

  predicate IsNameChar(c: char) { IsWord(c) || c == ':' || c == '_' || c == '-' }

  /** Where a name that starts at `i` ends; `i` itself when there is none. */
  function NameEnd(s: string, i: nat): (e: nat)
    requires i <= |s|
    ensures i <= e <= |s|
  {
    if i < |s| && IsLetter(s[i]) then End(s, i, IsNameChar) else i
  }

  /** A closing tag at the front of `s`: its lower-cased name and its length. */
  function LexClose(s: string): (r: Option<(string, nat)>)
    ensures r.Some? ==> 0 < r.value.1 <= |s|
  {
    if |s| < 2 || s[0] != '<' || s[1] != '/' then None
    else
      var n := NameEnd(s, 2);
      var e := End(s, n, IsSpace);
      if n > 2 && e < |s| && s[e] == '>' then Some((Lower(s[2..n]), e + 1)) else None
  }

  /** If nothing but white space and `>` or `/>` is left of the tag at `i`: whether it is `/>`,
      and where the tag ends. */
  function LexTagEnd(s: string, i: nat): (r: Option<(bool, nat)>)
    requires i <= |s|
    ensures r.Some? ==> i < r.value.1 <= |s|
  {
    var e := End(s, i, IsSpace);
    if e < |s| && s[e] == '>' then Some((false, e + 1))
    else if e + 1 < |s| && s[e] == '/' && s[e + 1] == '>' then Some((true, e + 2))
    else None
  }

  predicate IsUnquoted(c: char) {
    !IsSpace(c) && c != '"' && c != '\'' && c != '=' && c != '<' && c != '>' && c != '`'
  }

  predicate NotDoubleQuote(c: char) { c != '"' }

  predicate NotSingleQuote(c: char) { c != '\'' }

  predicate NotTagStart(c: char) { c != '<' }

  /** The undecoded attribute value at `i`, and where it ends. */
  function LexValue(s: string, i: nat): (r: Option<(string, nat)>)
    requires i <= |s|
    ensures r.Some? ==> i < r.value.1 <= |s|
  {
    if i < |s| && (s[i] == '"' || s[i] == '\'') then
      var e := End(s, i + 1, if s[i] == '"' then NotDoubleQuote else NotSingleQuote);
      if e < |s| then Some((s[i + 1..e], e + 1)) else None
    else
      var e := End(s, i, IsUnquoted);
      if e > i then Some((s[i..e], e)) else None
  }

  /** One attribute: its lower-cased name, its undecoded value, and where it ends. */
  datatype RawAttr = RawAttr(key: string, value: string, end: nat)

  /** The attribute name at `i` and where its value starts. */
  function LexAttrName(s: string, i: nat): (r: Option<(string, nat)>)
    requires i <= |s|
    ensures r.Some? ==> i < r.value.1 <= |s|
  {
    var a := End(s, i, IsSpace);
    var n := NameEnd(s, a);
    var e := End(s, n, IsSpace);
    if i < a < n && e < |s| && s[e] == '=' then Some((Lower(s[a..n]), End(s, e + 1, IsSpace)))
    else None
  }

  function LexAttr(s: string, i: nat): (r: Option<RawAttr>)
    requires i <= |s|
    ensures r.Some? ==> i < r.value.end <= |s|
  {
    var name := LexAttrName(s, i);
    if name == None then None
    else
      var value := LexValue(s, name.value.1);
      if value == None then None
      else Some(RawAttr(name.value.0, value.value.0, value.value.1))
  }

  // ---------- What one attribute may be ----------

  type Attrs = map<string, string>

  predicate IsDataName(key: string, prefix: string) {
    && StartsWith(key, prefix)
    && |key| > |prefix|
    && forall c :: c in key[|prefix|..] ==> 'a' <= c <= 'z' || IsDigit(c) || c == '-'
  }

  predicate InertFor(key: string, tag: Tag) {
    match key
    case "alt" | "src" => tag.Img?
    case "colspan" | "rowspan" => tag.Cell()
    case "height" | "width" => tag.Hr? || tag.Img?
    case "href" | "rel" | "target" => tag.A?
    case "reversed" | "start" => tag.Ol?
    case _ => false
  }

  predicate AllowedAttr(key: string, tag: Tag) {
    || IsDataName(key, "data-")
    || IsDataName(key, "aria-")
    || key == "class" || key == "title" || key == "style" || key == "dir"
    || InertFor(key, tag)
    || (tag.P? && key == "id")
  }

  predicate ActiveAttr(key: string) {
    || StartsWith(key, "on")
    || match key
       case "action" | "formaction" | "ping" | "poster" | "srcset" => true
       case _ => false
  }

  predicate FetchingAttr(key: string) {
    match key
    case "background" | "dynsrc" | "http-equiv" | "lowsrc" | "manifest" | "src" => true
    case _ => false
  }

  predicate StartsWithFold(s: string, p: string) { |p| <= |s| && Lower(s[..|p|]) == p }

  predicate PermittedUrl(s: string) {
    StartsWithFold(s, "http://") || StartsWithFold(s, "https://") || StartsWithFold(s, "mailto:")
  }

  /** An internal link without credentials, a telephone number, a fragment or a relative path. */
  predicate InertLink(s: string) {
    if StartsWithFold(s, "nn://") then
      var host := s[5..];
      '@' !in host[..End(host, 0, IsHostChar)]
    else
      || StartsWithFold(s, "tel:")
      || StartsWith(s, "#")
      || (!HasScheme(s) && !StartsWith(s, "//"))
  }

  predicate IsHostChar(c: char) { c != '/' && c != '?' && c != '#' }

  predicate IsSchemeChar(c: char) { IsWord(c) || c == '+' || c == '.' || c == '-' }

  predicate HasScheme(s: string) {
    && s != ""
    && IsLetter(s[0])
    && var n := End(s, 0, IsSchemeChar);
       n < |s| && s[n] == ':'
  }

  function UrlTrace(env: Env, s: string, fetched: bool): (t: Trace)
  {
    var repaired := exists c :: c in s && (IsSpace(c) || c == '\\');
    if !repaired && !PermittedUrl(s) && !fetched && InertLink(s) then
      CleanTrace(s).Then(Deferred(UrlInert))
    else if repaired || !PermittedUrl(s) then Stopped(UrlNotPermitted)
    else
      CleanTrace(s).Then(
        match env.parseUrl(s)
        case Unparsable => Stopped(InternalFailure)
        case WithCredentials => Stopped(UrlCredentials)
        case Plain => NO_FAULT)
  }

  predicate IsDirection(s: string) { Lower(s) == "ltr" || Lower(s) == "rtl" || Lower(s) == "auto" }

  /** Every fault one attribute of `tag` reaches, in order; `seen` holds the earlier names. */
  function AttrTrace(env: Env, tag: Tag, seen: set<string>, key: string, raw: string): (t: Trace)
  {
    var d := Entities(raw);
    var link := key == "href" || key == "src";
    CleanTrace(d.value)
      .Then(Unless(key !in seen, Stopped(DuplicateAttribute)))
      .Then(Unless(!ActiveAttr(key), Stopped(ActiveAttribute)))
      .Then(Unless(AllowedAttr(key, tag) || key != "constructor", Stopped(InternalFailure)))
      .Then(Unless(AllowedAttr(key, tag) || !FetchingAttr(key), Stopped(FetchingAttribute)))
      .Then(Unless(AllowedAttr(key, tag), Deferred(AttrUnrecognised)))
      .Then(Unless(key != "style" || (!d.unsupported && env.safeStyle(d.value)), Stopped(UnsafeStyle)))
      .Then(Unless(key != "dir" || IsDirection(d.value), Deferred(DirUnrecognised)))
      .Then(Unless(!link || !d.unsupported || d.raw, Stopped(EntityEncodedUrl)))
      .Then(if link then UrlTrace(env, d.value, key == "src") else NO_FAULT)
      .Then(Unless(!link || !d.unsupported, Deferred(UrlRawAmpersand)))
  }

  /** What is read of a tag after its name, up to and including its `>`. */
  datatype TagRest = TagRest(trace: Trace, attrs: Attrs, unsupported: bool, end: nat)

  function LexAttrs(env: Env, tag: Tag, s: string, i: nat, attrs: Attrs): (r: TagRest)
    requires i <= |s|
    ensures r.trace.stop == None ==> i < r.end <= |s|
    decreases |s| - i
  {
    var end := LexTagEnd(s, i);
    if end.Some? then
      TagRest(Unless(!end.value.0 || tag.Void(), Stopped(SelfClosingElement)), attrs, false, end.value.1)
    else
      var a := LexAttr(s, i);
      if a == None then TagRest(Stopped(MalformedAttribute), attrs, false, i)
      else
        var value := Entities(a.value.value).value;
        WithAttr(env, tag, attrs.Keys, a.value,
                 LexAttrs(env, tag, s, a.value.end, attrs[a.value.key := value]))
  }

  /** The attribute `a` and what is read after it. */
  function WithAttr(env: Env, tag: Tag, seen: set<string>, a: RawAttr, rest: TagRest): (r: TagRest)
    ensures r.trace.stop == None ==> rest.trace.stop == None
    ensures r.end == rest.end && r.attrs == rest.attrs
    ensures r.trace.Clean() <==> AttrTrace(env, tag, seen, a.key, a.value).Clean() && rest.trace.Clean()
    ensures r.unsupported == (Entities(a.value).unsupported || rest.unsupported)
  {
    TagRest(
      AttrTrace(env, tag, seen, a.key, a.value).Then(rest.trace),
      rest.attrs,
      Entities(a.value).unsupported || rest.unsupported,
      rest.end)
  }

  // ---------- Which element may stand where ----------

  /** `ctx` holds the tags of the open elements, the parser's root first. */
  predicate ClosesOpenListItem(ctx: seq<Tag>) {
    if |ctx| <= 1 then false
    else
      var last := ctx[|ctx| - 1];
      last.Li? || (!last.StopsListItemScope() && ClosesOpenListItem(ctx[..|ctx| - 1]))
  }

  predicate ChildAllowed(parent: Tag, tag: Tag) {
    if parent.List() then tag.Li?
    else if parent.Table? then tag.TableSection() || tag.Tr?
    else if parent.TableSection() then tag.Tr?
    else if parent.Tr? then tag.Cell()
    else true
  }

  predicate ParentAllowed(parent: Tag, tag: Tag) {
    if tag.Li? then parent.List()
    else if tag.TableSection() then parent.Table?
    else if tag.Tr? then parent.Table? || parent.TableSection()
    else if tag.Cell() then parent.Tr?
    else true
  }

  /** The faults of opening `tag` inside `ctx`. */
  function StructTrace(ctx: seq<Tag>, tag: Tag): (t: Trace)
    requires ctx != []
  {
    var parent := ctx[|ctx| - 1];
    if !tag.Known() then NO_FAULT
    else
      Unless(
        !((parent.P? || parent.Heading() || parent.Phrasing()) && !tag.Phrasing()),
        Stopped(MisnestedBlock))
        .Then(Unless(!tag.A? || A !in ctx, Stopped(NestedAnchor)))
        .Then(Unless(parent != Other("constructor"), Stopped(InternalFailure)))
        .Then(Unless(
          ChildAllowed(parent, tag),
          if parent.List() && tag.List() then Deferred(NestedList) else Stopped(InvalidChild)))
        .Then(Unless(
          ParentAllowed(parent, tag) || !(parent.Root? || parent.Known()),
          if tag.Li? && !ClosesOpenListItem(ctx) then Deferred(OrphanListItem)
          else Stopped(MisplacedElement)))
  }

  /** The faults of text with this decoded value directly inside `parent`. */
  function TextTrace(parent: Tag, value: string): (t: Trace)
  {
    CleanTrace(value).Then(
      if Blank(value) then NO_FAULT
      else if parent.Table? || parent.TableSection() || parent.Tr? then Stopped(StrayTextInTable)
      else Unless(!parent.List(), Deferred(StrayTextInContainer)))
  }

  // ---------- The stack machine ----------

  /** A text node or an element. Text keeps its source and an element its closing tag, so that
      sources can be put together again; `raw` is the slice of the input the parser took. */
  datatype Node =
    | TextNode(src: string, value: string, unsupported: bool)
    | Element(tag: Tag, attrs: Attrs, open: string, children: seq<Node>, close: string,
              raw: string, unsupported: bool)

  datatype Frame = Frame(tag: Tag, attrs: Attrs, open: string, start: nat, unsupported: bool,
                         children: seq<Node>)

  datatype State = State(pos: nat, count: nat, stack: seq<Frame>)

  /** The parser's bounds on tokens and on open elements, its root included. */
  datatype Limits = Limits(tokens: nat, open: nat)

  const LIMITS := Limits(30_000, 64)

  const ROOT_FRAME := Frame(Root, map[], "", 0, false, [])

  const INITIAL := State(0, 0, [ROOT_FRAME])

  function Tags(stack: seq<Frame>): (ctx: seq<Tag>)
    ensures |ctx| == |stack|
  {
    seq(|stack|, i requires 0 <= i < |stack| => stack[i].tag)
  }

  function WithChild(stack: seq<Frame>, n: Node): (r: seq<Frame>)
    requires stack != []
    ensures |r| == |stack|
  {
    var top := stack[|stack| - 1];
    stack[|stack| - 1 := top.(
      children := top.children + [n],
      unsupported := top.unsupported || (n.TextNode? && n.unsupported))]
  }

  datatype Step = Step(trace: Trace, next: State)

  predicate Live(html: string, st: State) { st.pos <= |html| && st.stack != [] }

  /** One turn of the parser's loop. */
  function NextState(env: Env, limits: Limits, html: string, st: State): (r: Step)
    requires Live(html, st) && st.pos < |html|
    ensures r.trace.stop == None ==> Live(html, r.next) && r.next.pos > st.pos
  {
    var count := st.count + 1;
    var rest := html[st.pos..];
    if count > limits.tokens || |st.stack| > limits.open then Step(Stopped(DocumentTooComplex), st)
    else if rest[0] != '<' then ReadText(st.(count := count), rest)
    else
      var close := LexClose(rest);
      if close.Some? then ReadClose(html, st.(count := count), rest, close.value)
      else ReadOpen(env, st.(count := count), rest)
  }

  function ReadText(st: State, rest: string): (r: Step)
    requires st.stack != [] && rest != "" && rest[0] != '<'
    ensures r.next.stack != [] && st.pos < r.next.pos <= st.pos + |rest|
  {
    var n := End(rest, 0, NotTagStart);
    var d := Entities(rest[..n]);
    Step(
      TextTrace(st.stack[|st.stack| - 1].tag, d.value),
      st.(pos := st.pos + n, stack := WithChild(st.stack, TextNode(rest[..n], d.value, d.unsupported))))
  }

  function ReadClose(html: string, st: State, rest: string, close: (string, nat)): (r: Step)
    requires Live(html, st) && rest == html[st.pos..] && 0 < close.1 <= |rest|
    ensures r.trace.stop == None ==> Live(html, r.next) && r.next.pos > st.pos
  {
    var m := |st.stack| - 1;
    var top := st.stack[m];
    if m == 0 || top.tag != TagOf(close.0) || top.start > st.pos then Step(Stopped(MismatchedTag), st)
    else
      var pos := st.pos + close.1;
      var node := Element(top.tag, top.attrs, top.open, top.children, rest[..close.1],
                          html[top.start..pos], top.unsupported);
      Step(NO_FAULT, st.(pos := pos, stack := WithChild(st.stack[..m], node)))
  }

  function ReadOpen(env: Env, st: State, rest: string): (r: Step)
    requires st.stack != [] && rest != "" && rest[0] == '<'
    ensures r.trace.stop == None ==> r.next.stack != [] && st.pos < r.next.pos <= st.pos + |rest|
  {
    var o := LexOpen(env, rest);
    var trace := o.before.Then(StructTrace(Tags(st.stack), o.tag)).Then(o.rest.trace);
    if trace.stop.Some? then Step(trace, st)
    else
      var open := rest[..o.rest.end];
      var st' := st.(pos := st.pos + o.rest.end);
      if o.tag.Void() then
        Step(trace, st'.(stack := WithChild(
          st.stack, Element(o.tag, o.rest.attrs, open, [], "", open, o.rest.unsupported))))
      else
        Step(trace, st'.(stack := st.stack + [
          Frame(o.tag, o.rest.attrs, open, st.pos, o.rest.unsupported, [])]))
  }

  /** An opening tag: the faults before its place is checked, and all that follows its name. */
  datatype OpenTag = OpenTag(before: Trace, tag: Tag, rest: TagRest)

  function LexOpen(env: Env, s: string): (r: OpenTag)
    requires s != "" && s[0] == '<'
    ensures r.before.stop == None && r.rest.trace.stop == None ==> 0 < r.rest.end <= |s|
  {
    var n := NameEnd(s, 1);
    if n == 1 then OpenTag(Stopped(MalformedMarkup), Root, TagRest(NO_FAULT, map[], false, 0))
    else
      var tag := TagOf(Lower(s[1..n]));
      OpenTag(Unless(!tag.Forbidden(), Stopped(ForbiddenTag)), tag, LexAttrs(env, tag, s, n, map[]))
  }

  datatype Parse = Parse(trace: Trace, nodes: seq<Node>)

  /** Every turn of the loop from `st`, and the check after it. */
  function Run(env: Env, limits: Limits, html: string, st: State): (r: Parse)
    requires Live(html, st)
    decreases |html| - st.pos
  {
    if st.pos == |html| then
      Parse(Unless(|st.stack| == 1, Stopped(UnclosedElement)), st.stack[0].children)
    else
      var step := NextState(env, limits, html, st);
      if step.trace.stop.Some? then Parse(step.trace, [])
      else
        var rest := Run(env, limits, html, step.next);
        Parse(step.trace.Then(rest.trace), rest.nodes)
  }

  function ParseOf(env: Env, html: string): (r: Parse)
  {
    var run := Run(env, LIMITS, html, INITIAL);
    Parse(CleanTrace(html).Then(run.trace), run.nodes)
  }
}
