/** The message renderer of the tenant-insurance chat widget
    (apps/tenant-insurance/pagemate/views/ChatView.tsx), as a segmenter: a
    message becomes a list of markdown, command and retrieval segments in
    text order.

    Each regular expression is abstracted as the list of its matches in
    the text, each with its span and captured groups; the command pattern,
    which runs on every stretch of text outside the retrieval blocks, is
    the function `commandMatches` giving the matches in a stretch. React
    nodes are the `Segment` values they would display. */
module ChatView {
  import opened Wrappers
  import opened Text
  import opened PagemateChat

  datatype Segment =
    | Markdown(text: string)
    | Command(verb: string, target: string)
    | Rag(header: string, items: seq<string>)

  /** A match: the span `[start, end)` and the captured groups. */
  datatype Match<G> = Match(start: nat, end: nat, groups: G)

  /** What `exec` finds in a text of length `n`: non-empty spans inside the
      text, each starting at or after the end of the one before. */
  predicate WellFormed<G>(ms: seq<Match<G>>, n: nat) {
    && (forall i :: 0 <= i < |ms| ==> ms[i].start < ms[i].end <= n)
    && (forall i :: 0 < i < |ms| ==> ms[i - 1].end <= ms[i].start)
  }

  /** `lastIndex` after the first `k` matches. */
  function LastEnd<G>(ms: seq<Match<G>>, k: nat): nat
    requires k <= |ms|
  {
    if k == 0 then 0 else ms[k - 1].end
  }

  /** `text.slice(i, j)`, built up one character at a time so that proofs
      about consecutive stretches need no sequence drops. */
  function Slice(text: string, i: nat, j: nat): (r: string)
    requires i <= j <= |text|
    ensures |r| == j - i
    decreases j - i
  {
    if i == j then [] else Slice(text, i, j - 1) + [text[j - 1]]
  }

  lemma {:induction false} SliceIsSlice(text: string, i: nat, j: nat)
    requires i <= j <= |text|
    ensures Slice(text, i, j) == text[i..j]
    decreases j - i
  {
    if i < j {
      SliceIsSlice(text, i, j - 1);
      assert text[i..j] == text[i..j - 1] + [text[j - 1]];
    }
  }

  /** Two consecutive stretches make up the stretch spanning both. */
  lemma {:induction false} SliceSplit(text: string, i: nat, j: nat, k: nat)
    requires i <= j <= k <= |text|
    ensures Slice(text, i, j) + Slice(text, j, k) == Slice(text, i, k)
    decreases k - j
  {
    if j < k {
      SliceSplit(text, i, j, k - 1);
    }
  }

  lemma SliceWhole(text: string)
    ensures Slice(text, 0, |text|) == text
  {
    SliceIsSlice(text, 0, |text|);
  }

  /** The markdown segment of the text between two matches, if non-empty. */
  function Gap(text: string, i: nat, j: nat): (r: seq<Segment>)
    requires i <= j <= |text|
    ensures |r| <= 1 && (r == [] <==> i == j)
  {
    if i < j then [Markdown(Slice(text, i, j))] else []
  }

  /** The row of a command match: the verb upper-cased and trimmed, the
      target trimmed and unquoted, as for the actions themselves. */
  function CommandOf(m: Match<Directive>): Segment {
    Command(Verb(m.groups), DirectiveTarget(m.groups))
  }

  /** The segments pushed for the first `k` matches, with `row` the
      segment each match is shown as. */
  function CommandSegments(text: string, ms: seq<Match<Directive>>, k: nat, row: Match<Directive> -> Segment)
    : seq<Segment>
    requires WellFormed(ms, |text|) && k <= |ms|
    decreases k
  {
    if k == 0 then []
    else CommandSegments(text, ms, k - 1, row) + Gap(text, LastEnd(ms, k - 1), ms[k - 1].start) + [row(ms[k - 1])]
  }

  /** What `renderTextWithCommands` shows. */
  function TextSegments(text: string, ms: seq<Match<Directive>>, parseCommands: bool): seq<Segment>
    requires WellFormed(ms, |text|)
  {
    if !parseCommands then [Markdown(text)]
    else CommandSegments(text, ms, |ms|, CommandOf) + Gap(text, LastEnd(ms, |ms|), |text|)
  }

  /** The `exec` loop of `renderTextWithCommands`: the text before each
      match when non-empty, then the match's row, then a non-empty tail. The
      row a match is shown as is the parameter `row`. */
  method SegmentCommands(text: string, ms: seq<Match<Directive>>, row: Match<Directive> -> Segment)
    returns (out: seq<Segment>)
    requires WellFormed(ms, |text|)
    ensures out == CommandSegments(text, ms, |ms|, row) + Gap(text, LastEnd(ms, |ms|), |text|)
  {
    out := [];
    var lastIndex := 0;
    var k := 0;
    while k < |ms|
      invariant 0 <= k <= |ms|
      invariant lastIndex == LastEnd(ms, k)
      invariant out == CommandSegments(text, ms, k, row)
    {
      var start, end := ms[k].start, ms[k].end;
      var before := Slice(text, lastIndex, start);
      if before != "" {
        out := out + [Markdown(before)];
      }
      out := out + [row(ms[k])];
      lastIndex := end;
      k := k + 1;
    }
    var tail := Slice(text, lastIndex, |text|);
    if tail != "" {
      out := out + [Markdown(tail)];
    }
  }

  /** `renderTextWithCommands`: the whole text as one markdown segment when
      commands are not parsed; otherwise the loop above with the command
      row of each match. */
  method RenderTextWithCommands(text: string, parseCommands: bool, ms: seq<Match<Directive>>)
    returns (out: seq<Segment>)
    requires WellFormed(ms, |text|)
    ensures out == TextSegments(text, ms, parseCommands)
    ensures !parseCommands ==> out == [Markdown(text)]
  {
    if !parseCommands {
      return [Markdown(text)];
    }
    out := SegmentCommands(text, ms, CommandOf);
  }

  predicate EmptyMarkdown(s: Segment) { s.Markdown? && s.text == "" }

  lemma {:induction false} CommandSegmentsNoEmpty(text: string, ms: seq<Match<Directive>>, k: nat,
                                                   row: Match<Directive> -> Segment)
    requires WellFormed(ms, |text|) && k <= |ms|
    requires forall m :: row(m).Command?
    ensures forall i :: 0 <= i < |CommandSegments(text, ms, k, row)| ==> !EmptyMarkdown(CommandSegments(text, ms, k, row)[i])
    decreases k
  {
    if k > 0 {
      CommandSegmentsNoEmpty(text, ms, k - 1, row);
    }
  }

  /** With commands parsed, no markdown segment is empty. */
  lemma NoEmptyMarkdown(text: string, ms: seq<Match<Directive>>)
    requires WellFormed(ms, |text|)
    ensures forall i :: 0 <= i < |TextSegments(text, ms, true)| ==> !EmptyMarkdown(TextSegments(text, ms, true)[i])
  {
    CommandSegmentsNoEmpty(text, ms, |ms|, CommandOf);
  }

  /** The segments of a non-empty text are never an empty list. */
  lemma {:induction false} TextSegmentsNonEmpty(text: string, ms: seq<Match<Directive>>, parseCommands: bool)
    requires WellFormed(ms, |text|) && text != ""
    ensures TextSegments(text, ms, parseCommands) != []
  {
    if parseCommands && ms == [] {
      assert Gap(text, 0, |text|) != [];
    }
  }

  /** The command segments among the first `n`, in order. */
  function CommandsUpTo(segs: seq<Segment>, n: nat): seq<Segment>
    requires n <= |segs|
    decreases n
  {
    if n == 0 then []
    else CommandsUpTo(segs, n - 1) + (if segs[n - 1].Command? then [segs[n - 1]] else [])
  }

  function Commands(segs: seq<Segment>): seq<Segment> { CommandsUpTo(segs, |segs|) }

  lemma {:induction false} CommandsUpToPrefix(a: seq<Segment>, b: seq<Segment>, n: nat)
    requires n <= |a|
    ensures CommandsUpTo(a + b, n) == CommandsUpTo(a, n)
    decreases n
  {
    if n > 0 {
      CommandsUpToPrefix(a, b, n - 1);
      assert (a + b)[n - 1] == a[n - 1];
    }
  }

  lemma {:induction false} CommandsUpToAppend(a: seq<Segment>, b: seq<Segment>, n: nat)
    requires n <= |b|
    ensures CommandsUpTo(a + b, |a| + n) == Commands(a) + CommandsUpTo(b, n)
    decreases n
  {
    if n == 0 {
      CommandsUpToPrefix(a, b, |a|);
    } else {
      CommandsUpToAppend(a, b, n - 1);
      assert (a + b)[|a| + n - 1] == b[n - 1];
    }
  }

  lemma CommandsAppend(a: seq<Segment>, b: seq<Segment>)
    ensures Commands(a + b) == Commands(a) + Commands(b)
  {
    CommandsUpToAppend(a, b, |b|);
  }

  /** The rows of the first `k` matches. */
  function Rows(ms: seq<Match<Directive>>, k: nat, row: Match<Directive> -> Segment): seq<Segment>
    requires k <= |ms|
  {
    seq(k, i requires 0 <= i < k => row(ms[i]))
  }

  lemma {:induction false} CommandSegmentsCommands(text: string, ms: seq<Match<Directive>>, k: nat,
                                                   row: Match<Directive> -> Segment)
    requires WellFormed(ms, |text|) && k <= |ms|
    requires forall m :: row(m).Command?
    ensures Commands(CommandSegments(text, ms, k, row)) == Rows(ms, k, row)
    decreases k
  {
    if k > 0 {
      CommandSegmentsCommands(text, ms, k - 1, row);
      var prev := CommandSegments(text, ms, k - 1, row);
      var g := Gap(text, LastEnd(ms, k - 1), ms[k - 1].start);
      var c := row(ms[k - 1]);
      CommandsAppend(prev + g, [c]);
      CommandsAppend(prev, g);
      assert Commands(g) == [];
      assert Commands([c]) == [c];
      assert Rows(ms, k, row) == Rows(ms, k - 1, row) + [c];
    }
  }

  /** With commands parsed, there is one command row per match, in match
      order. */
  lemma CommandsInOrder(text: string, ms: seq<Match<Directive>>)
    requires WellFormed(ms, |text|)
    ensures Commands(TextSegments(text, ms, true)) == Rows(ms, |ms|, CommandOf)
  {
    var g := Gap(text, LastEnd(ms, |ms|), |text|);
    CommandSegmentsCommands(text, ms, |ms|, CommandOf);
    CommandsAppend(CommandSegments(text, ms, |ms|, CommandOf), g);
    assert Commands(g) == [];
  }

  // ---------------------------------------------------------------------------
  // Nothing of the text is lost or reordered

  /** The text the segments stand for, given the matched text of each
      command row in order. */
  function Rebuild(segs: seq<Segment>, spans: seq<string>): string
    decreases |segs|
  {
    if segs == [] then ""
    else
      var init := segs[..|segs| - 1];
      match segs[|segs| - 1]
      case Markdown(t) => Rebuild(init, spans) + t
      case Command(_, _) => if spans == [] then "" else Rebuild(init, spans[..|spans| - 1]) + spans[|spans| - 1]
      case Rag(_, _) => Rebuild(init, spans)
  }

  /** The matched text of the first `k` matches. */
  function Spans<G>(text: string, ms: seq<Match<G>>, k: nat): (r: seq<string>)
    requires WellFormed(ms, |text|) && k <= |ms|
    ensures |r| == k
    decreases k
  {
    if k == 0 then [] else Spans(text, ms, k - 1) + [Slice(text, ms[k - 1].start, ms[k - 1].end)]
  }

  lemma RebuildMarkdown(segs: seq<Segment>, spans: seq<string>, g: seq<Segment>, text: string, i: nat, j: nat)
    requires i <= j <= |text| && g == Gap(text, i, j)
    ensures Rebuild(segs + g, spans) == Rebuild(segs, spans) + Slice(text, i, j)
  {
    if g == [] {
      assert segs + g == segs;
    } else {
      assert (segs + g)[..|segs + g| - 1] == segs;
    }
  }

  lemma RebuildCommand(segs: seq<Segment>, spans: seq<string>, c: Segment, s: string)
    requires c.Command?
    ensures Rebuild(segs + [c], spans + [s]) == Rebuild(segs, spans) + s
  {
    assert (segs + [c])[..|segs + [c]| - 1] == segs;
    assert (spans + [s])[..|spans + [s]| - 1] == spans;
  }

  /** One step of the loop: the text up to `prev` extended by the gap
      before a match and the match's own text is the text up to its end. */
  lemma RebuildStep(segs: seq<Segment>, spans: seq<string>, text: string, prev: nat, start: nat, end: nat,
                    c: Segment)
    requires prev <= start < end <= |text| && c.Command?
    requires Rebuild(segs, spans) == Slice(text, 0, prev)
    ensures Rebuild(segs + Gap(text, prev, start) + [c], spans + [Slice(text, start, end)]) == Slice(text, 0, end)
  {
    var g := Gap(text, prev, start);
    RebuildMarkdown(segs, spans, g, text, prev, start);
    RebuildCommand(segs + g, spans, c, Slice(text, start, end));
    SliceSplit(text, 0, prev, start);
    SliceSplit(text, 0, start, end);
  }

  lemma {:induction false} RebuildCommandSegments(text: string, ms: seq<Match<Directive>>, k: nat,
                                                   row: Match<Directive> -> Segment)
    requires WellFormed(ms, |text|) && k <= |ms|
    requires forall m :: row(m).Command?
    ensures LastEnd(ms, k) <= |text|
    ensures Rebuild(CommandSegments(text, ms, k, row), Spans(text, ms, k)) == Slice(text, 0, LastEnd(ms, k))
    decreases k
  {
    if k > 0 {
      RebuildCommandSegments(text, ms, k - 1, row);
      var prev := LastEnd(ms, k - 1);
      assert prev <= ms[k - 1].start by {
        if k > 1 {
          assert ms[k - 2].end <= ms[k - 1].start;
        }
      }
      RebuildStep(CommandSegments(text, ms, k - 1, row), Spans(text, ms, k - 1), text,
                  prev, ms[k - 1].start, ms[k - 1].end, row(ms[k - 1]));
    }
  }

  /** With commands parsed, the markdown segments and the matched text of
      the command rows, read in order, give back the whole text. */
  lemma RebuildText(text: string, ms: seq<Match<Directive>>)
    requires WellFormed(ms, |text|)
    ensures Rebuild(TextSegments(text, ms, true), Spans(text, ms, |ms|)) == text
  {
    RebuildCommandSegments(text, ms, |ms|, CommandOf);
    var e := LastEnd(ms, |ms|);
    RebuildMarkdown(CommandSegments(text, ms, |ms|, CommandOf), Spans(text, ms, |ms|), Gap(text, e, |text|), text, e, |text|);
    SliceSplit(text, 0, e, |text|);
    SliceWhole(text);
  }

  // ---------------------------------------------------------------------------
  // Retrieval blocks

  /** The captured groups of a retrieval block: its header line and body. */
  datatype RagGroups = RagGroups(header: string, body: string)

  const DefaultRagHeader: string := "Retrieved results"

  /** An empty captured header becomes "Retrieved results"; the header is
      trimmed. */
  function HeaderOf(header: string): (r: string)
    ensures header == "" ==> r == DefaultRagHeader
    ensures header != "" ==> r == JsTrim(header)
  {
    JsTrim(if header == "" then DefaultRagHeader else header)
  }

  lemma DefaultHeaderTrimmed()
    ensures JsTrim(DefaultRagHeader) == DefaultRagHeader
  {
    StripOfStripped(DefaultRagHeader, JsSpace);
  }

  /** A list entry: a trimmed line starting with "- ". */
  predicate IsItemLine(l: string) { StartsWith(l, "- ") }

  /** `line.replace(/^\-\s*\/, '')` on a list entry. */
  function ItemOf(l: string): string
    requires IsItemLine(l)
  {
    DropWhile(l[1..], JsSpace)
  }

  /** The trimmed lines of the body, splitting at each newline; a carriage
      return before it is white space the trim removes. */
  function BodyLines(body: string): (r: seq<string>)
    ensures |r| == |Split(JsTrim(body), '\n')|
    ensures forall i :: 0 <= i < |r| ==> r[i] == JsTrim(Split(JsTrim(body), '\n')[i])
  {
    var ls := Split(JsTrim(body), '\n');
    seq(|ls|, i requires 0 <= i < |ls| => JsTrim(ls[i]))
  }

  /** The list items of a block: the entries, in order, without the dash and
      the white space after it. */
  function Items(lines: seq<string>): seq<string>
    decreases |lines|
  {
    if lines == [] then []
    else
      var l := lines[|lines| - 1];
      Items(lines[..|lines| - 1]) + (if IsItemLine(l) then [ItemOf(l)] else [])
  }

  /** Non-empty, with no white space at either end. */
  predicate Trimmed(it: string) { it != [] && !JsSpace(it[0]) && !JsSpace(it[|it| - 1]) }

  predicate AllTrimmed(its: seq<string>) { forall k :: 0 <= k < |its| ==> Trimmed(its[k]) }

  lemma AllTrimmedAppend(a: seq<string>, b: seq<string>)
    requires AllTrimmed(a) && AllTrimmed(b)
    ensures AllTrimmed(a + b)
  {
    forall k | 0 <= k < |a + b| ensures Trimmed((a + b)[k]) {
      if k < |a| { assert (a + b)[k] == a[k]; } else { assert (a + b)[k] == b[k - |a|]; }
    }
  }

  /** An item of a stripped entry is non-empty and has no white space at
      either end. */
  lemma ItemStripped(l: string)
    requires IsItemLine(l) && Stripped(l, JsSpace)
    ensures Trimmed(ItemOf(l))
    ensures l == "-" + l[1..|l| - |ItemOf(l)|] + ItemOf(l)
  {
    assert l[..2] == "- ";
    var t := l[1..];
    var n := RunEnd(t, JsSpace, 0);
    assert t[|t| - 1] == l[|l| - 1];
    assert n < |t|;
    var it := t[n..];
    assert ItemOf(l) == it;
    assert it[0] == t[n] && it[|it| - 1] == t[|t| - 1];
    assert l == [l[0]] + t && t == t[..n] + it;
    assert l[1..|l| - |it|] == t[..n];
  }

  /** Every item of a block is non-empty and trimmed, and there are no
      more items than lines. */
  lemma {:induction false} ItemsStripped(lines: seq<string>)
    requires forall i :: 0 <= i < |lines| ==> Stripped(lines[i], JsSpace)
    ensures |Items(lines)| <= |lines|
    ensures AllTrimmed(Items(lines))
    decreases |lines|
  {
    if lines != [] {
      var init, l := lines[..|lines| - 1], lines[|lines| - 1];
      assert forall i :: 0 <= i < |init| ==> init[i] == lines[i];
      ItemsStripped(init);
      var last := if IsItemLine(l) then [ItemOf(l)] else [];
      if IsItemLine(l) {
        ItemStripped(l);
      }
      AllTrimmedAppend(Items(init), last);
    }
  }

  /** The items shown for a body are non-empty and trimmed. */
  lemma BodyItemsStripped(body: string)
    ensures AllTrimmed(Items(BodyLines(body)))
  {
    var ls := BodyLines(body);
    forall i | 0 <= i < |ls| ensures Stripped(ls[i], JsSpace) {
      StripStripped(Split(JsTrim(body), '\n')[i], JsSpace);
    }
    ItemsStripped(ls);
  }

  function RagOf(m: Match<RagGroups>): Segment {
    Rag(HeaderOf(m.groups.header), Items(BodyLines(m.groups.body)))
  }

  /** The command-parsing switch: only the last message, and only when
      actions are not suppressed. */
  function ParseCommands(isLast: bool, suppress: bool): bool { isLast && !suppress }

  /** The segments of the stretch `[i, j)` of a message outside retrieval
      blocks: none when it is empty. */
  function StretchSegments(content: string, i: nat, j: nat, commandMatches: string -> seq<Match<Directive>>,
                           parseCommands: bool): seq<Segment>
    requires i <= j <= |content|
    requires forall t :: WellFormed(commandMatches(t), |t|)
  {
    if i < j then TextSegments(Slice(content, i, j), commandMatches(Slice(content, i, j)), parseCommands) else []
  }

  /** The nodes pushed for the first `k` retrieval blocks. */
  function BlockSegments(content: string, rms: seq<Match<RagGroups>>, k: nat,
                         commandMatches: string -> seq<Match<Directive>>, parseCommands: bool,
                         rag: Match<RagGroups> -> Segment): seq<Segment>
    requires WellFormed(rms, |content|) && k <= |rms|
    requires forall t :: WellFormed(commandMatches(t), |t|)
    decreases k
  {
    if k == 0 then []
    else BlockSegments(content, rms, k - 1, commandMatches, parseCommands, rag)
         + StretchSegments(content, LastEnd(rms, k - 1), rms[k - 1].start, commandMatches, parseCommands)
         + [rag(rms[k - 1])]
  }

  datatype Rendered = Raw(content: string) | Nodes(segments: seq<Segment>)

  /** What `renderMessageContent` shows: the raw content when no node was
      produced. */
  function MessageContent(content: string, rms: seq<Match<RagGroups>>,
                          commandMatches: string -> seq<Match<Directive>>, isLast: bool, suppress: bool): Rendered
    requires WellFormed(rms, |content|)
    requires forall t :: WellFormed(commandMatches(t), |t|)
  {
    var parse := ParseCommands(isLast, suppress);
    var nodes := BlockSegments(content, rms, |rms|, commandMatches, parse, RagOf)
                 + StretchSegments(content, LastEnd(rms, |rms|), |content|, commandMatches, parse);
    if nodes == [] then Raw(content) else Nodes(nodes)
  }

  /** The text between two retrieval blocks, or after the last, rendered
      with `renderTextWithCommands` when it is not empty. */
  method RenderStretch(content: string, i: nat, j: nat, commandMatches: string -> seq<Match<Directive>>,
                       parseCommands: bool) returns (segs: seq<Segment>)
    requires i <= j <= |content|
    requires forall t :: WellFormed(commandMatches(t), |t|)
    ensures segs == StretchSegments(content, i, j, commandMatches, parseCommands)
  {
    var stretch := Slice(content, i, j);
    segs := [];
    if stretch != "" {
      segs := RenderTextWithCommands(stretch, parseCommands, commandMatches(stretch));
    }
  }

  /** The `exec` loop of `renderMessageContent`: the text before each
      retrieval block, then the block, then the tail; the segment a block is
      shown as is the parameter `rag`. */
  method SegmentBlocks(content: string, rms: seq<Match<RagGroups>>,
                       commandMatches: string -> seq<Match<Directive>>, parseCommands: bool,
                       rag: Match<RagGroups> -> Segment) returns (nodes: seq<Segment>)
    requires WellFormed(rms, |content|)
    requires forall t :: WellFormed(commandMatches(t), |t|)
    ensures nodes == BlockSegments(content, rms, |rms|, commandMatches, parseCommands, rag)
                     + StretchSegments(content, LastEnd(rms, |rms|), |content|, commandMatches, parseCommands)
  {
    nodes := [];
    var lastIndex := 0;
    var k := 0;
    while k < |rms|
      invariant 0 <= k <= |rms|
      invariant lastIndex == LastEnd(rms, k)
      invariant nodes == BlockSegments(content, rms, k, commandMatches, parseCommands, rag)
    {
      var start, end := rms[k].start, rms[k].end;
      var segs := RenderStretch(content, lastIndex, start, commandMatches, parseCommands);
      nodes := nodes + segs;
      nodes := nodes + [rag(rms[k])];
      lastIndex := end;
      k := k + 1;
    }
    var segs := RenderStretch(content, lastIndex, |content|, commandMatches, parseCommands);
    nodes := nodes + segs;
  }

  /** `renderMessageContent`: commands are parsed only for the last message
      when actions are not suppressed; each retrieval block shows its header
      and list items; the raw content is returned when nothing was
      produced. */
  method RenderMessageContent(content: string, rms: seq<Match<RagGroups>>,
                              commandMatches: string -> seq<Match<Directive>>, isLast: bool, suppress: bool)
    returns (r: Rendered)
    requires WellFormed(rms, |content|)
    requires forall t :: WellFormed(commandMatches(t), |t|)
    ensures r == MessageContent(content, rms, commandMatches, isLast, suppress)
  {
    var parse := isLast && !suppress;
    var nodes := SegmentBlocks(content, rms, commandMatches, parse, RagOf);
    r := if nodes == [] then Raw(content) else Nodes(nodes);
  }

  /** No node is pushed exactly when the message is empty, whatever a
      block is shown as. */
  lemma NoNodesIffEmpty(content: string, rms: seq<Match<RagGroups>>,
                        commandMatches: string -> seq<Match<Directive>>, parse: bool,
                        rag: Match<RagGroups> -> Segment)
    requires WellFormed(rms, |content|)
    requires forall t :: WellFormed(commandMatches(t), |t|)
    ensures BlockSegments(content, rms, |rms|, commandMatches, parse, rag)
            + StretchSegments(content, LastEnd(rms, |rms|), |content|, commandMatches, parse) == []
            <==> content == ""
  {
    if rms != [] {
      var k := |rms|;
      assert BlockSegments(content, rms, k, commandMatches, parse, rag)[|BlockSegments(content, rms, k, commandMatches, parse, rag)| - 1]
             == rag(rms[k - 1]);
      assert rms[0].start < rms[0].end <= |content|;
    } else if content != "" {
      TextSegmentsNonEmpty(Slice(content, 0, |content|), commandMatches(Slice(content, 0, |content|)), parse);
    }
  }

  /** The raw content is shown exactly when the message is empty. */
  lemma RawIffEmpty(content: string, rms: seq<Match<RagGroups>>,
                    commandMatches: string -> seq<Match<Directive>>, isLast: bool, suppress: bool)
    requires WellFormed(rms, |content|)
    requires forall t :: WellFormed(commandMatches(t), |t|)
    ensures MessageContent(content, rms, commandMatches, isLast, suppress).Raw? <==> content == ""
  {
    NoNodesIffEmpty(content, rms, commandMatches, ParseCommands(isLast, suppress), RagOf);
  }

  /** Without command parsing and without retrieval blocks, a non-empty
      message is one markdown segment. */
  lemma PlainMessage(content: string, commandMatches: string -> seq<Match<Directive>>, isLast: bool, suppress: bool)
    requires forall t :: WellFormed(commandMatches(t), |t|)
    requires content != "" && !ParseCommands(isLast, suppress)
    ensures MessageContent(content, [], commandMatches, isLast, suppress) == Nodes([Markdown(content)])
  {
    SliceWhole(content);
  }
}
