/** The assistant side of the tenant-insurance chat widget
    (apps/tenant-insurance/pagemate/PagemateChat.tsx): turning `ACTION`
    directives in a reply into tool actions, the XPath heuristic, the
    preference rule for finding a clickable element by its text, and the
    two text blocks built from retrieved chunks.

    The directive pattern is abstracted as the list of its matches, each
    with its two captured groups, in text order; the page's visible
    clickable elements as the list of their labels, in document order; the
    two XPath-looking regular expressions as one predicate parameter; and
    `Number.prototype.toFixed` as a function parameter. */
module PagemateChat {
  import opened Wrappers
  import opened Text
  import opened Environ

  datatype Action =
    | HighlightByXPath(xpath: string)
    | HighlightByText(text: string)
    | ClickByXPath(xpath: string)
    | ClickByText(text: string)
    | Retrieve(query: string)

  /** What an action was aimed at. */
  function Target(a: Action): string {
    match a
    case HighlightByXPath(x) => x
    case HighlightByText(t) => t
    case ClickByXPath(x) => x
    case ClickByText(t) => t
    case Retrieve(q) => q
  }

  /** One match of the directive pattern: its verb and target groups. */
  datatype Directive = Directive(verb: string, target: string)

  const Spotlight: string := "SPOTLIGHT"
  const Click: string := "CLICK"
  const RetrieveVerb: string := "RETRIEVE"
  const ClickXPath: string := "CLICK_XPATH"
  const SpotlightXPath: string := "SPOTLIGHT_XPATH"

  predicate IsQuote(c: char) { c == '"' || c == '\'' || c == '`' }

  /** Drops one pair of matching quotes or backticks around a target; a
      lone quote character becomes empty. */
  function StripQuotes(t: string): (r: string)
    ensures |r| <= |t|
    ensures t == [] || !IsQuote(t[0]) || t[|t| - 1] != t[0] ==> r == t
  {
    if |t| >= 1 && IsQuote(t[0]) && t[|t| - 1] == t[0] then
      (if |t| >= 2 then t[1..|t| - 1] else "")
    else t
  }

  /** Exactly one surrounding pair is removed. */
  lemma StripQuotesOfQuoted(q: char, s: string)
    requires IsQuote(q)
    ensures StripQuotes([q] + s + [q]) == s
  {
    var t := [q] + s + [q];
    assert t[1..|t| - 1] == s;
  }

  /** `isLikelyXPath`; `xpathPattern` stands for the two regular
      expressions it also tries on the trimmed text. */
  predicate IsLikelyXPath(s: string, xpathPattern: string -> bool) {
    var t := JsTrim(s);
    StartsWith(t, "//") || StartsWith(t, ".//") || StartsWith(t, "/") || xpathPattern(t)
  }

  /** Any trimmed text starting with "/" or ".//" is taken for an XPath, and
      apart from the two patterns those are the only ones: the "//" test
      adds nothing. */
  lemma XPathPrefixes(s: string, xpathPattern: string -> bool)
    ensures var t := JsTrim(s);
      (StartsWith(t, "/") || StartsWith(t, ".//")) ==> IsLikelyXPath(s, xpathPattern)
    ensures var t := JsTrim(s);
      !xpathPattern(t) ==> (IsLikelyXPath(s, xpathPattern) <==> StartsWith(t, "/") || StartsWith(t, ".//"))
  {
    var t := JsTrim(s);
    if StartsWith(t, "//") {
      assert t[0] == '/';
      assert "/" <= t;
    }
  }

  /** The verb as dispatched: upper-cased and trimmed. */
  function Verb(d: Directive): string { JsTrim(UpperAll(d.verb)) }

  /** The target as dispatched: trimmed, then unquoted. */
  function DirectiveTarget(d: Directive): string { StripQuotes(JsTrim(d.target)) }

  /** The verbs the dispatch knows, and every other one. */
  datatype VerbKind = SpotlightVerb | ClickVerb | RetrieveKind | ClickXPathVerb | SpotlightXPathVerb | OtherVerb

  function KindOf(verb: string): (k: VerbKind)
    ensures k == SpotlightVerb <==> verb == Spotlight
    ensures k == ClickVerb <==> verb == Click
    ensures k == RetrieveKind <==> verb == RetrieveVerb
    ensures k == ClickXPathVerb <==> verb == ClickXPath
    ensures k == SpotlightXPathVerb <==> verb == SpotlightXPath
  {
    if verb == Spotlight then SpotlightVerb
    else if verb == Click then ClickVerb
    else if verb == RetrieveVerb then RetrieveKind
    else if verb == ClickXPath then ClickXPathVerb
    else if verb == SpotlightXPath then SpotlightXPathVerb
    else OtherVerb
  }

  /** The action one directive asks for, if any: none for an empty target
      or an unknown verb (such as NOTE). */
  function ActionOf(d: Directive, xpathPattern: string -> bool): (r: Option<Action>)
    ensures r.None? <==> DirectiveTarget(d) == "" || KindOf(Verb(d)) == OtherVerb
    ensures r.Some? ==> Target(r.value) == DirectiveTarget(d)
    ensures r.Some? && r.value.HighlightByXPath? <==>
              DirectiveTarget(d) != "" &&
              (KindOf(Verb(d)) == SpotlightXPathVerb
               || (KindOf(Verb(d)) == SpotlightVerb && IsLikelyXPath(DirectiveTarget(d), xpathPattern)))
    ensures r.Some? && r.value.HighlightByText? <==>
              DirectiveTarget(d) != "" && KindOf(Verb(d)) == SpotlightVerb && !IsLikelyXPath(DirectiveTarget(d), xpathPattern)
    ensures r.Some? && r.value.ClickByXPath? <==>
              DirectiveTarget(d) != "" &&
              (KindOf(Verb(d)) == ClickXPathVerb
               || (KindOf(Verb(d)) == ClickVerb && IsLikelyXPath(DirectiveTarget(d), xpathPattern)))
    ensures r.Some? && r.value.ClickByText? <==>
              DirectiveTarget(d) != "" && KindOf(Verb(d)) == ClickVerb && !IsLikelyXPath(DirectiveTarget(d), xpathPattern)
    ensures r.Some? && r.value.Retrieve? <==> DirectiveTarget(d) != "" && KindOf(Verb(d)) == RetrieveKind
  {
    var target := DirectiveTarget(d);
    var xpath := IsLikelyXPath(target, xpathPattern);
    if target == "" then None
    else
      match KindOf(Verb(d))
      case SpotlightVerb => Some(if xpath then HighlightByXPath(target) else HighlightByText(target))
      case ClickVerb => Some(if xpath then ClickByXPath(target) else ClickByText(target))
      case RetrieveKind => Some(Retrieve(target))
      case ClickXPathVerb => Some(ClickByXPath(target))
      case SpotlightXPathVerb => Some(HighlightByXPath(target))
      case OtherVerb => None
  }

  /** `ActionOf` with the XPath test fixed, as the loop calls it. */
  function ActionOfWith(xpathPattern: string -> bool): Directive -> Option<Action> {
    d => ActionOf(d, xpathPattern)
  }

  /** The actions `act` asks for over a list of directives, in directive
      order. */
  function Actions(ds: seq<Directive>, act: Directive -> Option<Action>): seq<Action>
    decreases |ds|
  {
    if ds == [] then []
    else
      var last := act(ds[|ds| - 1]);
      Actions(ds[..|ds| - 1], act) + (if last.Some? then [last.value] else [])
  }

  /** The actions of consecutive stretches of text come out one after the
      other. */
  lemma {:induction false} ActionsAppend(a: seq<Directive>, b: seq<Directive>, act: Directive -> Option<Action>)
    ensures Actions(a + b, act) == Actions(a, act) + Actions(b, act)
    decreases |b|
  {
    if b == [] {
      assert a + b == a;
    } else {
      var b' := b[..|b| - 1];
      assert (a + b)[..|a + b| - 1] == a + b';
      assert (a + b)[|a + b| - 1] == b[|b| - 1];
      ActionsAppend(a, b', act);
    }
  }

  /** At most one action per directive. */
  lemma {:induction false} ActionsLength(ds: seq<Directive>, act: Directive -> Option<Action>)
    ensures |Actions(ds, act)| <= |ds|
    decreases |ds|
  {
    if ds != [] {
      ActionsLength(ds[..|ds| - 1], act);
    }
  }

  /** A single directive gives its action, or nothing. */
  lemma ActionsOfOne(d: Directive, xpathPattern: string -> bool)
    ensures var r := ActionOf(d, xpathPattern);
      Actions([d], ActionOfWith(xpathPattern)) == if r.Some? then [r.value] else []
  {
    assert [d][..0] == [];
  }

  /** The note line the retrieval summary ends with asks for no action. */
  lemma NoteIsIgnored(xpathPattern: string -> bool)
    ensures ActionOf(Directive("NOTE", "Retrieved context loaded."), xpathPattern).None?
  {
    assert UpperAll("NOTE") == "NOTE";
    StripOfStripped("NOTE", JsSpace);
  }

  /** The `re.exec` loop, pushing the action of each directive that asks
      for one. */
  method PushActions(ds: seq<Directive>, act: Directive -> Option<Action>) returns (actions: seq<Action>)
    ensures actions == Actions(ds, act)
  {
    actions := [];
    var i := 0;
    while i < |ds|
      invariant 0 <= i <= |ds|
      invariant actions == Actions(ds[..i], act)
    {
      var a := act(ds[i]);
      assert ds[..i + 1][..i] == ds[..i];
      if a.Some? {
        actions := actions + [a.value];
      }
      i := i + 1;
    }
    assert ds[..|ds| - 0] == ds;
  }

  /** `parseAssistantActions`: the actions of the directive matches, at
      most one each, in order. */
  method ParseAssistantActions(ds: seq<Directive>, xpathPattern: string -> bool) returns (actions: seq<Action>)
    ensures actions == Actions(ds, ActionOfWith(xpathPattern))
    ensures |actions| <= |ds|
  {
    actions := PushActions(ds, ActionOfWith(xpathPattern));
    ActionsLength(ds, ActionOfWith(xpathPattern));
  }

  // ---------------------------------------------------------------------------
  // Finding a clickable element by its text

  /** A visible clickable element: its text content and its `aria-label`. */
  datatype Clickable = Clickable(textContent: Option<string>, ariaLabel: Option<string>)

  /** The label compared: the text content, else the `aria-label`, else "". */
  function Label(c: Clickable): string { Or(c.textContent, c.ariaLabel).GetOr("") }

  /** `norm`: white-space runs collapsed to one space, trimmed, lower-cased. */
  function Norm(s: string): string { LowerAll(JsTrim(CollapseSpace(s))) }

  predicate ExactMatch(c: Clickable, t: string) { Norm(Label(c)) == t }

  predicate PartialMatch(c: Clickable, t: string) { Contains(Norm(Label(c)), t) }

  /** The first index from `k` on whose element satisfies `p`. */
  function FindFirst(cs: seq<Clickable>, p: Clickable -> bool, k: nat): (r: Option<nat>)
    requires k <= |cs|
    ensures r.Some? ==> k <= r.value < |cs| && p(cs[r.value]) && forall j :: k <= j < r.value ==> !p(cs[j])
    ensures r.None? ==> forall j :: k <= j < |cs| ==> !p(cs[j])
    decreases |cs| - k
  {
    if k == |cs| then None
    else if p(cs[k]) then Some(k)
    else FindFirst(cs, p, k + 1)
  }

  /** The first index satisfying `exact`, else the first satisfying the
      weaker `partial`. */
  function FindPreferred(cs: seq<Clickable>, exact: Clickable -> bool, partial: Clickable -> bool): (r: Option<nat>)
    requires forall c :: exact(c) ==> partial(c)
    ensures r.Some? ==> r.value < |cs|
    ensures (exists i :: 0 <= i < |cs| && exact(cs[i])) ==>
              r.Some? && exact(cs[r.value]) && forall j :: 0 <= j < r.value ==> !exact(cs[j])
    ensures (forall i :: 0 <= i < |cs| ==> !exact(cs[i])) && r.Some? ==>
              partial(cs[r.value]) && forall j :: 0 <= j < r.value ==> !partial(cs[j])
    ensures r.None? <==> forall i :: 0 <= i < |cs| ==> !partial(cs[i])
  {
    var e := FindFirst(cs, exact, 0);
    if e.Some? then e else FindFirst(cs, partial, 0)
  }

  lemma ExactIsPartial(c: Clickable, t: string)
    ensures ExactMatch(c, t) ==> PartialMatch(c, t)
  {
    if ExactMatch(c, t) {
      assert StartsWith(Norm(Label(c)), t);
    }
  }

  /** `findClickableByText`: the first element whose normalised label equals
      the normalised target, else the first whose label contains it. */
  function FindClickableByText(cs: seq<Clickable>, targetText: string): (r: Option<nat>)
    ensures r.Some? ==> r.value < |cs|
    ensures (exists i :: 0 <= i < |cs| && ExactMatch(cs[i], Norm(targetText))) ==>
              r.Some? && ExactMatch(cs[r.value], Norm(targetText))
              && forall j :: 0 <= j < r.value ==> !ExactMatch(cs[j], Norm(targetText))
    ensures (forall i :: 0 <= i < |cs| ==> !ExactMatch(cs[i], Norm(targetText))) && r.Some? ==>
              PartialMatch(cs[r.value], Norm(targetText))
              && forall j :: 0 <= j < r.value ==> !PartialMatch(cs[j], Norm(targetText))
    ensures r.None? <==> forall i :: 0 <= i < |cs| ==> !PartialMatch(cs[i], Norm(targetText))
  {
    var t := Norm(targetText);
    assert forall c :: ExactMatch(c, t) ==> PartialMatch(c, t) by {
      forall c ensures ExactMatch(c, t) ==> PartialMatch(c, t) { ExactIsPartial(c, t); }
    }
    FindPreferred(cs, c => ExactMatch(c, t), c => PartialMatch(c, t))
  }

  // ---------------------------------------------------------------------------
  // Retrieved chunks

  /** A retrieved chunk: its `content` and `text`, its document id and its
      score, each absent when not a string (a number for the score). */
  datatype Chunk = Chunk(content: Option<string>, text: Option<string>, documentId: Option<string>,
                         score: Option<real>)

  /** The chunk's text with its white space collapsed and trimmed. */
  function ChunkText(c: Chunk): string { JsTrim(CollapseSpace(Or(c.content, c.text).GetOr(""))) }

  const SummaryItemLength: nat := 280
  const SummaryItems: nat := 5
  const ContextChunks: nat := 8
  const NoteLine: string := "ACTION NOTE Retrieved context loaded."

  function Top(chunks: seq<Chunk>, n: nat): (r: seq<Chunk>)
    ensures |r| == if |chunks| < n then |chunks| else n
    ensures forall i :: 0 <= i < |r| ==> r[i] == chunks[i]
  {
    chunks[..if |chunks| < n then |chunks| else n]
  }

  /** The text of a summary item: the chunk's text cut to 280 UTF-16 code
      units, as `slice(0, 280)` counts them. */
  function ItemText(c: Chunk): string {
    var t := ChunkText(c);
    t[..Utf16Cut(t, SummaryItemLength)]
  }

  /** An item's text is a prefix of the chunk's text of at most 280 code
      units, the longest such prefix, and all of the text when that is
      short enough. For text in the Basic Multilingual Plane that is the
      first 280 characters. */
  lemma ItemTextSpec(c: Chunk)
    ensures Utf16Length(ItemText(c)) <= SummaryItemLength && ItemText(c) <= ChunkText(c)
    ensures |ItemText(c)| == |ChunkText(c)| ||
            Utf16Length(ChunkText(c)[..|ItemText(c)| + 1]) > SummaryItemLength
    ensures Utf16Length(ChunkText(c)) <= SummaryItemLength ==> ItemText(c) == ChunkText(c)
    ensures InBmp(ChunkText(c)) ==>
              |ItemText(c)| == if |ChunkText(c)| < SummaryItemLength then |ChunkText(c)| else SummaryItemLength
  {
    var t := ChunkText(c);
    var k := Utf16Cut(t, SummaryItemLength);
    if Utf16Length(t) <= SummaryItemLength {
      assert t[..|t|] == t;
    }
    if InBmp(t) {
      var p := t[..k];
      assert InBmp(p) by { forall i | 0 <= i < |p| ensures p[i] as int <= 0xFFFF { assert p[i] == t[i]; } }
      Utf16LengthBmp(p);
      if k < |t| {
        var q := t[..k + 1];
        assert InBmp(q) by { forall i | 0 <= i < |q| ensures q[i] as int <= 0xFFFF { assert q[i] == t[i]; } }
        Utf16LengthBmp(q);
      }
    }
  }

  function SummaryHeader(query: string, count: nat): string {
    "RAG: Retrieved " + NatToString(count) + " results for \"" + query + "\""
  }

  /** The line of the item numbered `n` (from 1). */
  function ItemLine(n: nat, c: Chunk, toFixed: (real, nat) -> string): string {
    "- [" + NatToString(n) + "]"
    + (if Truthy(c.documentId) then " doc:" + c.documentId.value else "")
    + (if c.score.Some? then " score:" + toFixed(c.score.value, 3) else "")
    + " " + ItemText(c)
  }

  /** `ItemLine` with the rounding fixed, as the loop calls it. */
  function ItemLineOf(toFixed: (real, nat) -> string): (nat, Chunk) -> string {
    (n: nat, c: Chunk) => ItemLine(n, c, toFixed)
  }

  /** The lines `line` makes of the chunks, numbered from 1. */
  function ItemLines(top: seq<Chunk>, line: (nat, Chunk) -> string): seq<string>
    decreases |top|
  {
    if top == [] then []
    else ItemLines(top[..|top| - 1], line) + [line(|top|, top[|top| - 1])]
  }

  /** There is one line per chunk, the i-th for the i-th chunk, numbered i + 1. */
  lemma {:induction false} ItemLinesShape(top: seq<Chunk>, line: (nat, Chunk) -> string)
    ensures |ItemLines(top, line)| == |top|
    ensures forall i :: 0 <= i < |top| ==> ItemLines(top, line)[i] == line(i + 1, top[i])
    decreases |top|
  {
    if top != [] {
      var init := top[..|top| - 1];
      ItemLinesShape(init, line);
      var ls := ItemLines(top, line);
      assert ls == ItemLines(init, line) + [line(|top|, top[|top| - 1])];
      forall i | 0 <= i < |top| ensures ls[i] == line(i + 1, top[i]) {
        if i < |init| {
          assert ls[i] == ItemLines(init, line)[i];
          assert init[i] == top[i];
        }
      }
    }
  }

  /** The lines of `formatRetrievalSummary`. */
  function SummaryLines(query: string, chunks: seq<Chunk>, toFixed: (real, nat) -> string): seq<string> {
    [SummaryHeader(query, |chunks|)] + ItemLines(Top(chunks, SummaryItems), ItemLineOf(toFixed)) + ["", NoteLine]
  }

  /** The summary names the total count, lists at most five items, the
      i-th for the i-th chunk with at most 280 characters of its text, and
      ends with an empty line and the note. */
  lemma SummaryShape(query: string, chunks: seq<Chunk>, toFixed: (real, nat) -> string)
    ensures var ls, n := SummaryLines(query, chunks, toFixed), |Top(chunks, SummaryItems)|;
      && |ls| == n + 3 && n <= SummaryItems
      && ls[0] == SummaryHeader(query, |chunks|)
      && (forall i :: 0 <= i < n ==> ls[i + 1] == ItemLine(i + 1, chunks[i], toFixed))
      && ls[n + 1] == "" && ls[n + 2] == NoteLine
  {
    var top := Top(chunks, SummaryItems);
    ItemLinesShape(top, ItemLineOf(toFixed));
    var ls := SummaryLines(query, chunks, toFixed);
    forall i | 0 <= i < |top| ensures ls[i + 1] == ItemLine(i + 1, chunks[i], toFixed) {
      assert ls[i + 1] == ItemLines(top, ItemLineOf(toFixed))[i];
    }
  }

  /** The numbered lines pushed one by one after `lines`. */
  method PushItemLines(lines: seq<string>, top: seq<Chunk>, line: (nat, Chunk) -> string) returns (r: seq<string>)
    ensures r == lines + ItemLines(top, line)
  {
    r := lines;
    var i := 0;
    while i < |top|
      invariant 0 <= i <= |top|
      invariant r == lines + ItemLines(top[..i], line)
    {
      assert top[..i + 1][..i] == top[..i];
      r := r + [line(i + 1, top[i])];
      i := i + 1;
    }
    assert top[..|top|] == top;
  }

  /** Two more lines, an empty one and `last`, after a non-empty list. */
  lemma JoinBlankThen(body: seq<string>, last: string)
    requires body != []
    ensures Join(body + ["", last], "\n") == Join(body, "\n") + "\n\n" + last
  {
    JoinSnoc(body, "", "\n");
    assert body + ["", last] == (body + [""]) + [last];
    JoinSnoc(body + [""], last, "\n");
  }

  /** `formatRetrievalSummary`: the lines pushed in order, joined by
      newlines; the text ends with a blank line and the note. */
  method FormatRetrievalSummary(query: string, chunks: seq<Chunk>, toFixed: (real, nat) -> string) returns (s: string)
    ensures s == Join(SummaryLines(query, chunks, toFixed), "\n")
    ensures s == Join([SummaryHeader(query, |chunks|)] + ItemLines(Top(chunks, SummaryItems), ItemLineOf(toFixed)), "\n")
                 + "\n\n" + NoteLine
  {
    var body := PushItemLines([SummaryHeader(query, |chunks|)], Top(chunks, SummaryItems), ItemLineOf(toFixed));
    var lines := body + ["", NoteLine];
    JoinBlankThen(body, NoteLine);
    s := Join(lines, "\n");
  }

  /** The numbered reference line of a context chunk. */
  function ReferenceLine(n: nat, c: Chunk, toFixed: (real, nat) -> string): string {
    "[" + NatToString(n) + "] doc:" + c.documentId.GetOr("")
    + " score:" + (if c.score.Some? then toFixed(c.score.value, 4) else "")
  }

  /** `ReferenceLine` with the rounding fixed, as the loop calls it. */
  function ReferenceLineOf(toFixed: (real, nat) -> string): (nat, Chunk) -> string {
    (n: nat, c: Chunk) => ReferenceLine(n, c, toFixed)
  }

  const ContextHeader: string := "RAG_CONTEXT Query: "

  /** The first line `head`, then for each chunk its numbered `reference`
      line and its `body`. */
  function ContextParts(head: string, top: seq<Chunk>, reference: (nat, Chunk) -> string, body: Chunk -> string)
    : seq<string>
    decreases |top|
  {
    if top == [] then [head]
    else ContextParts(head, top[..|top| - 1], reference, body)
         + [reference(|top|, top[|top| - 1]), body(top[|top| - 1])]
  }

  /** The context block is the first line and then, for each chunk in
      order, its reference line and its body. */
  lemma {:induction false} ContextPartsShape(head: string, top: seq<Chunk>, reference: (nat, Chunk) -> string,
                                             body: Chunk -> string)
    ensures var ps := ContextParts(head, top, reference, body);
      && |ps| == 1 + 2 * |top| && ps[0] == head
      && forall i :: 0 <= i < |top| ==> ps[1 + 2 * i] == reference(i + 1, top[i]) && ps[2 + 2 * i] == body(top[i])
    decreases |top|
  {
    if top != [] {
      var init := top[..|top| - 1];
      ContextPartsShape(head, init, reference, body);
      var ps := ContextParts(head, top, reference, body);
      var last := [reference(|top|, top[|top| - 1]), body(top[|top| - 1])];
      assert ps == ContextParts(head, init, reference, body) + last;
      forall i | 0 <= i < |top|
        ensures ps[1 + 2 * i] == reference(i + 1, top[i]) && ps[2 + 2 * i] == body(top[i])
      {
        if i < |init| {
          assert ps[1 + 2 * i] == ContextParts(head, init, reference, body)[1 + 2 * i];
          assert ps[2 + 2 * i] == ContextParts(head, init, reference, body)[2 + 2 * i];
          assert init[i] == top[i];
        }
      }
    }
  }

  /** The context of `buildRagContextFromChunks`: the query line, and the
      reference line and whole (uncut) text of each of the first eight
      chunks. */
  function RagContextParts(query: string, chunks: seq<Chunk>, toFixed: (real, nat) -> string): seq<string> {
    ContextParts(ContextHeader + query, Top(chunks, ContextChunks), ReferenceLineOf(toFixed), ChunkText)
  }

  /** At most eight chunks are cited, in order, each with its number,
      document and score, followed by its text. */
  lemma RagContextShape(query: string, chunks: seq<Chunk>, toFixed: (real, nat) -> string)
    ensures var ps, n := RagContextParts(query, chunks, toFixed), |Top(chunks, ContextChunks)|;
      && |ps| == 1 + 2 * n && n <= ContextChunks && ps[0] == ContextHeader + query
      && forall i :: 0 <= i < n ==>
           ps[1 + 2 * i] == ReferenceLine(i + 1, chunks[i], toFixed) && ps[2 + 2 * i] == ChunkText(chunks[i])
  {
    var top := Top(chunks, ContextChunks);
    ContextPartsShape(ContextHeader + query, top, ReferenceLineOf(toFixed), ChunkText);
  }

  /** The loop of `buildRagContextFromChunks`: two parts pushed per chunk. */
  method PushContextParts(head: string, top: seq<Chunk>, reference: (nat, Chunk) -> string, body: Chunk -> string)
    returns (parts: seq<string>)
    ensures parts == ContextParts(head, top, reference, body)
  {
    parts := [head];
    var i := 0;
    while i < |top|
      invariant 0 <= i <= |top|
      invariant parts == ContextParts(head, top[..i], reference, body)
    {
      assert top[..i + 1][..i] == top[..i];
      parts := parts + [reference(i + 1, top[i])];
      parts := parts + [body(top[i])];
      i := i + 1;
    }
    assert top[..|top|] == top;
  }

  /** `buildRagContextFromChunks`: the parts joined by newlines. */
  method BuildRagContextFromChunks(query: string, chunks: seq<Chunk>, toFixed: (real, nat) -> string)
    returns (s: string)
    ensures s == Join(RagContextParts(query, chunks, toFixed), "\n")
  {
    var parts := PushContextParts(ContextHeader + query, Top(chunks, ContextChunks), ReferenceLineOf(toFixed), ChunkText);
    s := Join(parts, "\n");
  }
}
