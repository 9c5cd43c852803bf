/** The canonical Markdown form of a document: its printer and its line parser. */
module Markdown {
  import opened Text
  import opened NoteDocument

  type Outcome<+T> = Result<T, ErrorCode>

  const MAX_MARKDOWN_BYTES := 4 * 1024 * 1024

  const HEADER := "---\nnookbridge-format: 1\n---\n"

  function Bounded(s: string, max: nat, code: ErrorCode): Outcome<()> {
    if Utf8(s) > max then Err(code) else Ok(())
  }

  // ---------- Escaping ----------

  predicate IsPunctuation(c: char) {
    '!' <= c <= '/' || ':' <= c <= '@' || '[' <= c <= '`' || '{' <= c <= '~'
  }

  /** The characters `escapeSyntax` looks at. */
  predicate IsSyntax(c: char) {
    c == '*' || c == '_' || c == '~' || c == '`' || c == '[' || c == ']' || c == '<' || c == '>'
  }

  predicate IsWordAt(c: Option<char>) { c.Some? && IsWord(c.value) }

  function Head(s: string): Option<char> { if s == "" then None else Some(s[0]) }

  /** `escapeSyntax` of what follows the character `prev`. */
  function EscapeSyntax(prev: Option<char>, s: string): string
    decreases |s|
  {
    if s == "" then ""
    else
      var c, next := s[0], Head(s[1..]);
      (if c == '\\' then (if next.Some? && IsPunctuation(next.value) then "\\\\" else "\\")
       else if c == '_' && IsWordAt(prev) && IsWordAt(next) then "_"
       else if IsSyntax(c) then ['\\', c]
       else [c])
      + EscapeSyntax(Some(c), s[1..])
  }

  /** What `^` and `$` with the multiline flag and `.` treat as the end of a line. */
  predicate EndsLine(c: char) { c == '\n' || c == '\r' || c == '\U{2028}' || c == '\U{2029}' }

  /** `\d{1,9}\. ` at the front. */
  predicate StartsOrdered(s: string) {
    var n := End(s, 0, IsDigit);
    1 <= n <= 9 && n + 1 < |s| && s[n] == '.' && s[n + 1] == ' '
  }

  /** A line that starts like this would be read as a block of another kind. */
  predicate StartsBlock(s: string) {
    && s != ""
    && (s[0] == '#' || s[0] == '>' || s[0] == ':' || s[0] == '+' || s[0] == '!' || s[0] == '|'
        || StartsWith(s, "- ") || StartsOrdered(s))
  }

  function EscapeStarts(atStart: bool, s: string): string
    decreases |s|
  {
    if s == "" then ""
    else (if atStart && StartsBlock(s) then "\\" else "") + [s[0]] + EscapeStarts(EndsLine(s[0]), s[1..])
  }

  predicate IsRule(s: string) { StartsWith(s, "---") && (|s| == 3 || EndsLine(s[3])) }

  function EscapeRules(atStart: bool, s: string): string
    decreases |s|
  {
    if s == "" then ""
    else if atStart && IsRule(s) then "\\-\\-\\-" + EscapeRules(false, s[3..])
    else [s[0]] + EscapeRules(EndsLine(s[0]), s[1..])
  }

  function EscapeText(s: string): string { EscapeRules(true, EscapeStarts(true, EscapeSyntax(None, s))) }

  // ---------- Printing runs ----------

  /** The length of the longest run of backticks in `s`, where `run` end at its front. */
  function LongestRun(s: string, run: nat): nat {
    if s == "" then run
    else
      var rest := LongestRun(s[1..], if s[0] == '`' then run + 1 else 0);
      if run >= rest then run else rest
  }

  function Repeat(c: char, n: nat): (s: string)
    ensures |s| == n && forall i :: 0 <= i < n ==> s[i] == c
  {
    seq(n, i => c)
  }

  function Fence(s: string): string {
    var n := LongestRun(s, 0);
    Repeat('`', if n < 2 then 3 else n + 1)
  }

  function InlineCode(s: string): Outcome<string> {
    if s == "" || '\n' in s || s[0] == '`' || s[|s| - 1] == '`' then Err(InvalidShape)
    else
      var d := Repeat('`', LongestRun(s, 0) + 1);
      Ok(d + s + d)
  }

  /** What a link may point to; the URL parser is a parameter. */
  predicate HrefText(s: string) {
    exists n: nat :: n in {7, 8} && HrefAfter(s, n)
  }

  predicate HrefAfter(s: string, n: nat) {
    && n < |s|
    && (s[..n] == "http://" || s[..n] == "https://" || s[..n] == "mailto:")
    && forall i :: n <= i < |s| ==> IsHrefChar(s[i])
  }

  predicate IsHrefChar(c: char) {
    !IsSpace(c) && c != '<' && c != '>' && c != '(' && c != ')' && c != '[' && c != ']' && c != '\\'
  }

  type UrlCheck = string -> bool

  function Href(url: UrlCheck, s: string): Outcome<()> {
    if HrefText(s) && url(s) then Ok(()) else Err(MalformedLink)
  }

  /** The delimiter of a mark that is neither a link nor code. */
  function Delimiter(m: Mark): string {
    match m
    case Bold => "**" case Italic => "*" case Underline => "__" case Strike => "~~"
    case _ => ""
  }

  function OpenMark(m: Mark): string { if m.Link? then "[" else Delimiter(m) }

  function CloseMark(m: Mark): string { if m.Link? then "](" + m.href + ")" else Delimiter(m) }

  function OpenMarks(ms: seq<Mark>): string { if ms == [] then "" else OpenMark(ms[0]) + OpenMarks(ms[1..]) }

  function CloseMarks(ms: seq<Mark>): string { if ms == [] then "" else CloseMarks(ms[1..]) + CloseMark(ms[0]) }

  function Shared(a: seq<Mark>, b: seq<Mark>): (n: nat)
    ensures n <= |a| && n <= |b|
  {
    if a != [] && b != [] && a[0] == b[0] then 1 + Shared(a[1..], b[1..]) else 0
  }

  predicate SameKind(a: Mark, b: Mark) { a == b || (a.Link? && b.Link?) }

  predicate DistinctKinds(ms: seq<Mark>) {
    forall i, j :: 0 <= i < j < |ms| ==> !SameKind(ms[i], ms[j])
  }

  function CheckLinks(url: UrlCheck, ms: seq<Mark>): Outcome<()> {
    if ms == [] then Ok(())
    else
      var _ :- if ms[0].Link? then Href(url, ms[0].href) else Ok(());
      CheckLinks(url, ms[1..])
  }

  predicate CodeLast(ms: seq<Mark>) { forall i :: 0 <= i < |ms| - 1 ==> !ms[i].Code? }

  /** The runs from here on, when the marks `open` are open. */
  function RenderRuns(url: UrlCheck, rs: seq<Inline>, open: seq<Mark>): Outcome<string> {
    if rs == [] then Ok(CloseMarks(open))
    else
      var all := MarksOf(rs[0]);
      if !DistinctKinds(all) then Err(UnsupportedMark)
      else
        var _ :- CheckLinks(url, all);
        if !CodeLast(all) then Err(UnsupportedMark)
        else
          var code := all != [] && all[|all| - 1].Code?;
          var ms := if code then all[..|all| - 1] else all;
          var n := Shared(open, ms);
          var text :- if code then InlineCode(rs[0].text) else Ok(EscapeText(rs[0].text));
          var rest :- RenderRuns(url, rs[1..], ms);
          Ok(CloseMarks(open[n..]) + OpenMarks(ms[n..]) + text + rest)
  }

  function RenderInlines(url: UrlCheck, rs: seq<Inline>): Outcome<string> { RenderRuns(url, rs, []) }

  // ---------- Reading runs ----------

  datatype Read = Read(pos: nat, out: seq<Inline>)

  /** Append text, joining it to the last run when both carry the same marks. */
  function Add(out: seq<Inline>, text: string, ms: seq<Mark>): Outcome<seq<Inline>> {
    if text == "" then Ok(out)
    else
      var joined := if out != [] && MarksOf(out[|out| - 1]) == ms
                    then out[|out| - 1 := out[|out| - 1].(text := out[|out| - 1].text + text)]
                    else out + [MarkedRun(text, ms)];
      if |joined| > MAX_INLINES_PER_BLOCK || Utf8(joined[|joined| - 1].text) > MAX_INLINE_BYTES then Err(OversizeInline)
      else Ok(joined)
  }

  /** What a backslash escapes. */
  predicate IsEscapable(c: char) {
    || c == '\\' || IsSyntax(c) || c == '#' || c == ':' || c == '+' || c == '!' || c == '|' || c == '.' || c == '-'
    || IsDigit(c)
  }

  predicate IsTick(c: char) { c == '`' }

  /** `s.indexOf(d, pos)` */
  function Find(s: string, d: string, pos: nat): (e: Option<nat>)
    ensures e.Some? ==> pos <= e.value && e.value + |d| <= |s|
    decreases |s| - pos
  {
    if pos + |d| > |s| then None
    else if s[pos..pos + |d|] == d then Some(pos)
    else Find(s, d, pos + 1)
  }

  predicate At(s: string, pos: nat, d: string) { pos + |d| <= |s| && s[pos..pos + |d|] == d }

  const PENDING := Link("pending")

  function Resolve(ms: seq<Mark>, href: string): seq<Mark> {
    seq(|ms|, i requires 0 <= i < |ms| => if ms[i] == PENDING then Link(href) else ms[i])
  }

  /** The runs from `start` on, with the pending link resolved. */
  function ResolveFrom(out: seq<Inline>, start: nat, href: string): seq<Inline> {
    seq(|out|, i requires 0 <= i < |out| =>
      if i < start then out[i] else Inline(out[i].text, Some(Resolve(MarksOf(out[i]), href))))
  }

  /** The delimiter at `pos` in the order the source tries them, and its mark. */
  function DelimiterAt(s: string, pos: nat): (m: Option<Mark>)
    ensures m.Some? ==> Delimiter(m.value) != "" && pos + |Delimiter(m.value)| <= |s|
  {
    if At(s, pos, "**") then Some(Bold)
    else if At(s, pos, "*") then Some(Italic)
    else if At(s, pos, "__") then Some(Underline)
    else if At(s, pos, "~~") then Some(Strike)
    else None
  }

  function CharAt(s: string, pos: nat): Option<char> { if pos < |s| then Some(s[pos]) else None }

  function Before(s: string, pos: nat): Option<char> { if 0 < pos <= |s| then Some(s[pos - 1]) else None }

  /** `sequence` from `pos` on, when `text` has been read since the last flush. */
  function Sequence(url: UrlCheck, s: string, pos: nat, text: string, ms: seq<Mark>, stop: Option<string>,
                    out: seq<Inline>)
    : (r: Outcome<Read>)
    requires pos <= |s| && stop != Some("")
    ensures r.Ok? ==> pos <= r.value.pos <= |s|
    decreases |s| - pos, 1
  {
    if stop.Some? && At(s, pos, stop.value) then
      var out' :- Add(out, text, ms);
      Ok(Read(pos + |stop.value|, out'))
    else if pos == |s| then
      var out' :- Add(out, text, ms);
      if stop.Some? then Err(InvalidShape) else Ok(Read(pos, out'))
    else
      var c, next := s[pos], CharAt(s, pos + 1);
      if c == '\\' then
        if next.Some? && IsEscapable(next.value) then Sequence(url, s, pos + 2, text + [next.value], ms, stop, out)
        else Sequence(url, s, pos + 1, text + [c], ms, stop, out)
      else if c == '`' then CodeSequence(url, s, pos, text, ms, stop, out)
      else if c == '[' then LinkSequence(url, s, pos, text, ms, stop, out)
      else if c == '_' && IsWordAt(Before(s, pos)) && IsWordAt(next) then
        Sequence(url, s, pos + 1, text + [c], ms, stop, out)
      else
        var m := DelimiterAt(s, pos);
        if m.Some? then
          var out' :- Add(out, text, ms);
          if m.value in ms then Err(UnsupportedMark)
          else
            var inner :- Enter(url, s, pos + |Delimiter(m.value)|, ms + [m.value], Some(Delimiter(m.value)), out');
            Sequence(url, s, inner.pos, "", ms, stop, inner.out)
        else if IsSyntax(c) then Err(InvalidShape)
        else Sequence(url, s, pos + 1, text + [c], ms, stop, out)
  }

  /** `sequence` at a backtick. */
  function CodeSequence(url: UrlCheck, s: string, pos: nat, text: string, ms: seq<Mark>, stop: Option<string>,
                        out: seq<Inline>)
    : (r: Outcome<Read>)
    requires pos < |s| && s[pos] == '`' && stop != Some("")
    ensures r.Ok? ==> pos <= r.value.pos <= |s|
    decreases |s| - pos, 0
  {
    var out' :- Add(out, text, ms);
    var open := End(s, pos, IsTick);
    var end := Find(s, s[pos..open], open);
    if end == None || end.value == open || '\n' in s[open..end.value] then Err(InvalidShape)
    else
      var out'' :- Add(out', s[open..end.value], ms + [Code]);
      Sequence(url, s, end.value + (open - pos), "", ms, stop, out'')
  }

  /** `sequence` at an opening bracket. */
  function LinkSequence(url: UrlCheck, s: string, pos: nat, text: string, ms: seq<Mark>, stop: Option<string>,
                        out: seq<Inline>)
    : (r: Outcome<Read>)
    requires pos < |s| && stop != Some("")
    ensures r.Ok? ==> pos <= r.value.pos <= |s|
    decreases |s| - pos, 0
  {
    var out' :- Add(out, text, ms);
    if exists i :: 0 <= i < |ms| && ms[i].Link? then Err(MalformedLink)
    else
      var inner :- Enter(url, s, pos + 1, ms + [PENDING], Some("]"), out');
      if CharAt(s, inner.pos) != Some('(') then Err(MalformedLink)
      else
        var end := Find(s, ")", inner.pos + 1);
        if end == None then Err(MalformedLink)
        else
          var href := s[inner.pos + 1..end.value];
          var _ :- Href(url, href);
          Sequence(url, s, end.value + 1, "", ms, stop, ResolveFrom(inner.out, |out'|, href))
  }

  /** `sequence` from its start. */
  function Enter(url: UrlCheck, s: string, pos: nat, ms: seq<Mark>, stop: Option<string>,
                 out: seq<Inline>): (r: Outcome<Read>)
    requires pos <= |s| && stop != Some("")
    ensures r.Ok? ==> pos <= r.value.pos <= |s|
    decreases |s| - pos, 2
  {
    if |ms| > 6 then Err(UnsupportedMark) else Sequence(url, s, pos, "", ms, stop, out)
  }

  function ParseInlines(url: UrlCheck, s: string): Outcome<seq<Inline>> {
    var r :- Enter(url, s, 0, [], None, []);
    Ok(r.out)
  }
}
