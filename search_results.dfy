/** What the results panel (components/SearchResults.tsx) shows of a
    `QueryResponse`: the processing-time line, the heading count, and the
    entry list with the top match first. Layout, icons and number formatting
    are not modelled. */
module SearchResults {
  import opened Types

  // ---------------------------------------------------------------------------
  // The entry list

  /** `entry.word !== result.top_match?.word`: with no top match the right
      side is `undefined`, which no word equals. */
  predicate Differs(entry: DictionaryEntry, top: Field<DictionaryEntry>)
  {
    !top.Given? || entry.word != top.value.word
  }

  /** `result.retrieved_entries.filter(...)`: the retrieved entries whose word
      differs from the top match's. */
  function Remaining(entries: seq<DictionaryEntry>, top: Field<DictionaryEntry>): (r: seq<DictionaryEntry>)
    ensures |r| <= |entries|
    ensures forall i :: 0 <= i < |r| ==> Differs(r[i], top)
  {
    if entries == [] then []
    else
      var init := Remaining(entries[..|entries| - 1], top);
      var last := entries[|entries| - 1];
      if Differs(last, top) then init + [last] else init
  }

  /** The filter keeps relative order: it distributes over concatenation. */
  lemma {:induction false} RemainingAppend(a: seq<DictionaryEntry>, b: seq<DictionaryEntry>, top: Field<DictionaryEntry>)
    ensures Remaining(a + b, top) == Remaining(a, top) + Remaining(b, top)
  {
    if b != [] {
      assert (a + b)[..|a + b| - 1] == a + b[..|b| - 1];
      assert (a + b)[|a + b| - 1] == b[|b| - 1];
      RemainingAppend(a, b[..|b| - 1], top);
    } else {
      assert a + b == a;
    }
  }

  /** An entry is listed exactly when it was retrieved and its word differs
      from the top match's: every duplicate of the top word is dropped. */
  lemma {:induction false} RemainingMembers(entries: seq<DictionaryEntry>, top: Field<DictionaryEntry>, x: DictionaryEntry)
    ensures x in Remaining(entries, top) <==> x in entries && Differs(x, top)
  {
    if entries != [] {
      var init := entries[..|entries| - 1];
      RemainingMembers(init, top, x);
      assert entries == init + [entries[|entries| - 1]];
    }
  }

  /** Without a top match nothing is filtered out. */
  lemma {:induction false} NoTopMatchKeepsAll(entries: seq<DictionaryEntry>, top: Field<DictionaryEntry>)
    requires !top.Given?
    ensures Remaining(entries, top) == entries
  {
    if entries != [] {
      NoTopMatchKeepsAll(entries[..|entries| - 1], top);
      assert entries == entries[..|entries| - 1] + [entries[|entries| - 1]];
    }
  }

  /** The number of retrieved entries carrying `word`. */
  function CountWord(entries: seq<DictionaryEntry>, word: string): nat
  {
    if entries == [] then 0
    else CountWord(entries[..|entries| - 1], word) + (if entries[|entries| - 1].word == word then 1 else 0)
  }

  /** With a top match, exactly the entries carrying its word are dropped. */
  lemma {:induction false} RemainingLength(entries: seq<DictionaryEntry>, t: DictionaryEntry)
    ensures |Remaining(entries, Given(t))| == |entries| - CountWord(entries, t.word)
  {
    if entries != [] {
      RemainingLength(entries[..|entries| - 1], t);
    }
  }

  /** The entry cards in display order: the top match, when there is one,
      then the remaining retrieved entries. */
  function DisplayedEntries(r: QueryResponse): seq<DictionaryEntry>
  {
    (if r.topMatch.Given? then [r.topMatch.value] else []) + Remaining(r.retrievedEntries, r.topMatch)
  }

  /** `Retrieved Entries ({result.retrieved_entries.length})`: the count of
      the unfiltered list. */
  function HeadingCount(r: QueryResponse): nat
  {
    |r.retrievedEntries|
  }

  /** The top match comes first and the rest are the filtered entries; the
      heading counts the unfiltered list, so it matches the cards shown when
      there is no top match, and otherwise differs by the dropped duplicates
      less the top card. */
  lemma {:induction false} DisplayedShape(r: QueryResponse)
    ensures r.topMatch.Given? ==>
      && DisplayedEntries(r)[0] == r.topMatch.value
      && DisplayedEntries(r)[1..] == Remaining(r.retrievedEntries, r.topMatch)
      && |DisplayedEntries(r)| == HeadingCount(r) - CountWord(r.retrievedEntries, r.topMatch.value.word) + 1
    ensures !r.topMatch.Given? ==> DisplayedEntries(r) == r.retrievedEntries && |DisplayedEntries(r)| == HeadingCount(r)
  {
    if r.topMatch.Given? {
      RemainingLength(r.retrievedEntries, r.topMatch.value);
    } else {
      NoTopMatchKeepsAll(r.retrievedEntries, r.topMatch);
    }
  }

  // ---------------------------------------------------------------------------
  // The processing-time line

  /** What the `{result.processing_time_ms && (...)}` slot renders: nothing,
      a bare text node, or the "Processed in" line. */
  datatype TimeSlot = Nothing | StrayText(text: string) | TimeLine(ms: real)

  /** The slot as written. `x && element` yields `x` itself when `x` is
      falsy; React renders nothing for `undefined` and `null` but renders the
      number 0 as the text "0". */
  function TimeSlotAsWritten(f: Field<real>): TimeSlot
  {
    match f
    case Undefined => Nothing
    case Null => Nothing
    case Given(ms) => if ms == 0.0 then StrayText("0") else TimeLine(ms)
  }

  /** A response that took 0 ms puts a stray "0" into the header row. */
  lemma {:induction false} ZeroTimeShowsStrayZero()
    ensures TimeSlotAsWritten(Given(0.0)) == StrayText("0")
  {
  }

  /** The slot as intended: the line is shown exactly when the time is
      present and non-zero, and nothing else is ever rendered there. */
  function TimeSlotIntended(f: Field<real>): (s: TimeSlot)
    ensures s.TimeLine? <==> f.Given? && f.value != 0.0
    ensures s.TimeLine? ==> s.ms == f.value
    ensures !s.StrayText?
  {
    if f.Given? && f.value != 0.0 then TimeLine(f.value) else Nothing
  }

  /** The two agree on every input but a zero time. */
  lemma {:induction false} TimeSlotsAgreeOffZero(f: Field<real>)
    ensures f != Given(0.0) <==> TimeSlotAsWritten(f) == TimeSlotIntended(f)
  {
  }

  // ---------------------------------------------------------------------------
  // The whole panel

  /** What the panel shows, in the order it shows it. */
  datatype Panel = Panel(
    query: Field<string>,
    language: Field<string>,
    time: TimeSlot,
    response: Field<string>,
    count: nat,
    cards: seq<DictionaryEntry>)

  /** The panel for a result, as the component builds it: the query,
      language and answer are passed through, the time slot is the one
      written (so a zero time shows a stray "0"), the heading counts every
      retrieved entry, the top match leads and the other cards are exactly
      the retrieved entries whose word differs from it, in their order. */
  function Render(r: QueryResponse): (p: Panel)
    ensures p.query == r.query && p.language == r.language && p.response == r.response
    ensures p.time == TimeSlotAsWritten(r.processingTimeMs)
    ensures p.time.TimeLine? <==> r.processingTimeMs.Given? && r.processingTimeMs.value != 0.0
    ensures p.time.StrayText? <==> r.processingTimeMs == Given(0.0)
    ensures p.count == |r.retrievedEntries|
    ensures p.cards == DisplayedEntries(r)
    ensures r.topMatch.Given? ==> |p.cards| >= 1 && p.cards[0] == r.topMatch.value
    ensures p.cards[(if r.topMatch.Given? then 1 else 0)..] == Remaining(r.retrievedEntries, r.topMatch)
    ensures forall x :: x in p.cards[(if r.topMatch.Given? then 1 else 0)..] <==>
                        x in r.retrievedEntries && Differs(x, r.topMatch)
  {
    var p := Panel(r.query, r.language, TimeSlotAsWritten(r.processingTimeMs), r.response,
                   HeadingCount(r), DisplayedEntries(r));
    DisplayedShape(r);
    forall x ensures x in p.cards[(if r.topMatch.Given? then 1 else 0)..] <==>
                     x in r.retrievedEntries && Differs(x, r.topMatch) {
      RemainingMembers(r.retrievedEntries, r.topMatch, x);
    }
    p
  }

  /** The panel with the intended time slot: the same panel, except that a
      zero time shows nothing. */
  function RenderIntended(r: QueryResponse): (p: Panel)
    ensures !p.time.StrayText?
    ensures p.time.TimeLine? <==> r.processingTimeMs.Given? && r.processingTimeMs.value != 0.0
    ensures p.cards == DisplayedEntries(r) && p.count == |r.retrievedEntries|
  {
    Render(r).(time := TimeSlotIntended(r.processingTimeMs))
  }

  /** The correction changes the panel of exactly the responses that took
      0 ms, and there only the time slot. */
  lemma {:induction false} RenderIntendedDiffersOnZeroOnly(r: QueryResponse)
    ensures Render(r) == RenderIntended(r) <==> r.processingTimeMs != Given(0.0)
    ensures RenderIntended(r).(time := Render(r).time) == Render(r)
  {
    TimeSlotsAgreeOffZero(r.processingTimeMs);
  }
}
