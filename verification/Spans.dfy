// Character ranges to byte spans: acceptance in one element, rebasing into the
// tree's buffer, finding the owner by byte position, and resolving quotes.

module Spans {
  import opened Common
  import opened Utf8
  import opened DocTree

  /** What the span model returned for one element. */
  datatype Candidate = Candidate(start: int, end: int, text: string, confidence: real)

  datatype SpanError = InvalidRange | NotVerbatim | ConversionFailed | InvalidConfidence

  /** An accepted span, in bytes local to its element. */
  datatype LocalSpan = LocalSpan(elementId: string, text: string, byteStart: nat, byteEnd: nat)

  predicate Verbatim(text: string, start: int, quote: string) {
    0 <= start && start + |quote| <= |text| && text[start..start + |quote|] == quote
  }

  /** The bytes from start to end are the encoded text. */
  predicate Holds(bytes: seq<Byte>, start: int, end: int, text: string) {
    0 <= start <= end <= |bytes| && bytes[start..end] == Encode(text)
  }

  /** The byte conversion is re-checked, as the source does; the contract shows that check never fails. */
  function NormalizeSpan(e: Element, c: Candidate): (r: Result<LocalSpan, SpanError>)
    ensures r.Ok? <==> 0 <= c.start < c.end && c.end == c.start + |c.text| && Verbatim(e.text, c.start, c.text)
                       && 0.0 <= c.confidence <= 1.0
    ensures r.Err? ==>
              if !(0 <= c.start < c.end <= |e.text|) then r.error == InvalidRange
              else if e.text[c.start..c.end] != c.text then r.error == NotVerbatim
              else r.error == InvalidConfidence
    ensures r.Ok? ==>
      && r.value.elementId == e.id && r.value.text == c.text
      && r.value.byteStart < r.value.byteEnd && Holds(Encode(e.text), r.value.byteStart, r.value.byteEnd, c.text)
  {
    if !(0 <= c.start < c.end <= |e.text|) then Err(InvalidRange)
    else if e.text[c.start..c.end] != c.text then Err(NotVerbatim)
    else
      SliceByPrefixes(e.text, c.start, c.end);
      var byteStart, byteEnd := |Encode(e.text[..c.start])|, |Encode(e.text[..c.end])|;
      if Encode(e.text)[byteStart..byteEnd] != Encode(c.text) then Err(ConversionFailed)
      else if !(0.0 <= c.confidence <= 1.0) then Err(InvalidConfidence)
      else Ok(LocalSpan(e.id, c.text, byteStart, byteEnd))
  }

  /** The first element with the id. */
  function Get(elements: seq<Element>, id: string): Option<Element> {
    if elements == [] then None
    else if elements[0].id == id then Some(elements[0])
    else Get(elements[1..], id)
  }

  function GlobalSpan(t: Tree, s: LocalSpan): Option<(int, int)> {
    match Get(t.elements, s.elementId)
    case None => None
    case Some(e) => Some((e.byteStart + s.byteStart, e.byteStart + s.byteEnd))
  }

  /** The first element whose span covers a byte position. */
  function Owner(elements: seq<Element>, position: int): Option<Element> {
    if elements == [] then None
    else if elements[0].byteStart <= position < elements[0].byteEnd then Some(elements[0])
    else Owner(elements[1..], position)
  }

  lemma {:induction false} GetFinds(elements: seq<Element>, i: nat)
    requires UniqueIds(elements) && i < |elements|
    ensures Get(elements, elements[i].id) == Some(elements[i])
  {
    if i != 0 {
      assert elements[0].id != elements[i].id;
      assert elements[1..][i - 1] == elements[i];
      GetFinds(elements[1..], i - 1);
    }
  }

  lemma {:induction false} OwnerFinds(elements: seq<Element>, i: nat, position: int)
    requires i < |elements| && elements[i].byteStart <= position < elements[i].byteEnd
    requires forall k :: 0 <= k < i ==> elements[k].byteEnd <= elements[i].byteStart
    ensures Owner(elements, position) == Some(elements[i])
  {
    if i != 0 {
      assert elements[1..][i - 1] == elements[i];
      assert forall k :: 0 <= k < i - 1 ==> elements[1..][k] == elements[k + 1];
      OwnerFinds(elements[1..], i - 1, position);
    }
  }

  /** Rebasing a local span into a buffer where its element's span holds slices the same bytes. */
  lemma RebasedSlice(e: Element, encoded: seq<Byte>, local: LocalSpan)
    requires SpanHolds(e, encoded) && local.byteStart < local.byteEnd <= |Encode(e.text)|
    requires Encode(e.text)[local.byteStart..local.byteEnd] == Encode(local.text)
    ensures var start, end := e.byteStart + local.byteStart, e.byteStart + local.byteEnd;
            && e.byteStart <= start < end <= e.byteEnd
            && encoded[start..end] == Encode(local.text)
  {
    assert |Encode(e.text)| == e.byteEnd - e.byteStart;
    SliceOfSlice(encoded, e.byteStart, e.byteEnd, local.byteStart, local.byteEnd);
  }

  lemma EarlierEndBefore(elements: seq<Element>, i: nat)
    requires i < |elements|
    ensures forall k :: 0 <= k < i ==> Rebased(elements)[k].byteEnd <= Rebased(elements)[i].byteStart
  {
    forall k | 0 <= k < i ensures Rebased(elements)[k].byteEnd <= Rebased(elements)[i].byteStart {
      SpansAreSeparated(elements, k, i);
    }
  }

  /** A local span of element i finds its text and its owner again from its global position alone. */
  lemma LocalSpanRoundTrips(t: Tree, i: nat, local: LocalSpan)
    requires i < |t.elements| && UniqueIds(t.elements) && SpanHolds(t.elements[i], Encode(t.text))
    requires forall k :: 0 <= k < i ==> t.elements[k].byteEnd <= t.elements[i].byteStart
    requires local.elementId == t.elements[i].id && local.byteStart < local.byteEnd <= |Encode(t.elements[i].text)|
    requires Encode(t.elements[i].text)[local.byteStart..local.byteEnd] == Encode(local.text)
    ensures var g := GlobalSpan(t, local);
            && g.Some?
            && 0 <= g.value.0 < g.value.1 <= |Encode(t.text)|
            && Encode(t.text)[g.value.0..g.value.1] == Encode(local.text)
            && Owner(t.elements, g.value.0) == Some(t.elements[i])
  {
    GetFinds(t.elements, i);
    RebasedSlice(t.elements[i], Encode(t.text), local);
    OwnerFinds(t.elements, i, t.elements[i].byteStart + local.byteStart);
  }

  /** A range accepted in an element slices the same text out of the built buffer, and the element
      found there by byte position is the one the span came from. */
  lemma AcceptedSpanRoundTrips(t: Tree, elements: seq<Element>, i: nat, c: Candidate)
    requires t == Tree(t.sourceId, Joined(elements), Rebased(elements)) && ValidTree(t)
    requires i < |t.elements| && NormalizeSpan(t.elements[i], c).Ok?
    ensures var g := GlobalSpan(t, NormalizeSpan(t.elements[i], c).value);
            && g.Some?
            && 0 <= g.value.0 < g.value.1 <= |Encode(t.text)|
            && Encode(t.text)[g.value.0..g.value.1] == Encode(c.text)
            && Owner(t.elements, g.value.0) == Some(t.elements[i])
  {
    EarlierEndBefore(elements, i);
    LocalSpanRoundTrips(t, i, NormalizeSpan(t.elements[i], c).value);
  }

  lemma SliceOfSlice<T>(s: seq<T>, a: nat, b: nat, x: nat, y: nat)
    requires a <= b <= |s| && x <= y <= b - a
    ensures s[a..b][x..y] == s[a + x..a + y]
  {
    var m := s[a..b];
    forall k | 0 <= k < y - x ensures m[x..y][k] == s[a + x..a + y][k] {
      assert m[x..y][k] == m[x + k];
    }
    assert m[x..y] == s[a + x..a + y];
  }

  // ----- Quotes -----

  datatype QuoteError = EmptyQuote | WrongPosition | Absent | Repeated | NotRecoverable

  /** The least occurrence at or after a position, as str.find gives. */
  function Find(text: string, quote: string, from: nat): (r: Option<nat>)
    ensures r.Some? ==> from <= r.value && Verbatim(text, r.value, quote)
    ensures r.Some? ==> forall k :: from <= k < r.value ==> !Verbatim(text, k, quote)
    ensures r.None? ==> forall k :: from <= k ==> !Verbatim(text, k, quote)
    decreases |text| + 1 - from
  {
    if from > |text| then None
    else if Verbatim(text, from, quote) then Some(from)
    else Find(text, quote, from + 1)
  }

  ghost predicate OccursOnce(text: string, quote: string) {
    exists k :: Verbatim(text, k, quote) && forall j :: Verbatim(text, j, quote) ==> j == k
  }

  /** A verbatim quote's bytes stand where its prefix's bytes end, and decode to it. */
  lemma QuoteHeld(text: string, quote: string, start: nat)
    requires Verbatim(text, start, quote)
    ensures var begin := |Encode(text[..start])|;
            Holds(Encode(text), begin, begin + |Encode(quote)|, quote) && Decode(Encode(quote)) == Some(quote)
  {
    hide Encode, Decode;
    SliceByPrefixes(text, start, start + |quote|);
    DecodeEncode(quote);
  }

  function SpanAt(text: string, quote: string, start: nat): (r: Result<(nat, nat), QuoteError>)
    requires Verbatim(text, start, quote)
    ensures r.Ok? && r.value.0 == |Encode(text[..start])| && Holds(Encode(text), r.value.0, r.value.1, quote)
  {
    QuoteHeld(text, quote, start);
    var begin: nat := |Encode(text[..start])|;
    var end: nat := begin + |Encode(quote)|;
    if Decode(Encode(text)[begin..end]) != Some(quote) then Err(NotRecoverable) else Ok((begin, end))
  }

  /** A quote resolves exactly when it stands at the hint, or without a hint occurs exactly once;
      the bytes found are always the quote's own. */
  function ResolveSpan(text: string, quote: string, hint: Option<int>): (r: Result<(nat, nat), QuoteError>)
    ensures hint.Some? ==> (r.Ok? <==> quote != "" && Verbatim(text, hint.value, quote))
    ensures hint.None? ==> (r.Ok? <==> quote != "" && OccursOnce(text, quote))
    ensures r == Err(EmptyQuote) <==> quote == ""
    ensures quote != "" && hint.None? ==> (r == Err(Absent) <==> forall k :: !Verbatim(text, k, quote))
    ensures r.Err? ==> if hint.Some? then r.error == EmptyQuote || r.error == WrongPosition
                       else r.error == EmptyQuote || r.error == Absent || r.error == Repeated
    ensures r.Ok? ==> r.value.0 < r.value.1 && Holds(Encode(text), r.value.0, r.value.1, quote)
    ensures r.Ok? ==> exists start: nat :: Verbatim(text, start, quote) && r.value.0 == |Encode(text[..start])|
                        && (hint.Some? ==> start == hint.value)
  {
    if quote == "" then Err(EmptyQuote)
    else
      DecodeEncode(quote);
      assert Encode(quote) == EncodeChar(quote[0]) + Encode(quote[1..]);
      if hint.Some? then
        if !Verbatim(text, hint.value, quote) then Err(WrongPosition) else SpanAt(text, quote, hint.value)
      else
        var start := Find(text, quote, 0);
        if start.None? then Err(Absent)
        else if Find(text, quote, start.value + 1).Some? then
          var again := Find(text, quote, start.value + 1).value;
          assert Verbatim(text, start.value, quote) && Verbatim(text, again, quote);
          Err(Repeated)
        else
          assert Verbatim(text, start.value, quote);
          SpanAt(text, quote, start.value)
  }
}
