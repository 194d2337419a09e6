/** The home page (app/page.tsx): converting the final payload into a
    `QueryResponse`, merging step events into the ordered step list, routing the
    `complete` and `error` events, and the search handler that resets the page,
    streams, reports failures and clears the loading flag. `Date.now()` is the
    parameter `now` (for one event) or `clock` (the time at the i-th delivered
    event). */
module Page {
  import opened Types
  import opened Api

  const UnexpectedError := "An unexpected error occurred"

  // ---------------------------------------------------------------------------
  // The final answer

  /** `convertToQueryResponse(data)`: `retrieved_entries` falls back to `[]`,
      `below_threshold` and `blocked` to `false`; every other field is copied
      as it is, `undefined` and `null` included. */
  function ConvertToQueryResponse(data: Payload): QueryResponse
  {
    QueryResponse(
      data.query,
      data.language,
      data.response,
      Coalesce(data.retrievedEntries, []),
      data.topMatch,
      data.processingTimeMs,
      Coalesce(data.belowThreshold, false),
      Coalesce(data.blocked, false))
  }

  lemma {:induction false} ConvertFillsDefaults(data: Payload)
    ensures var r := ConvertToQueryResponse(data);
      && (data.retrievedEntries.Given? ==> r.retrievedEntries == data.retrievedEntries.value)
      && (!data.retrievedEntries.Given? ==> r.retrievedEntries == [])
      && (r.belowThreshold <==> data.belowThreshold == Given(true))
      && (r.blocked <==> data.blocked == Given(true))
      && r.query == data.query && r.language == data.language && r.response == data.response
      && r.topMatch == data.topMatch && r.processingTimeMs == data.processingTimeMs
  {
  }

  /** The payload of a `complete` event that reports the answer `q` with
      every field present. */
  function PayloadOf(q: QueryResponse, message: Field<string>, others: map<string, Json>): Payload
  {
    Payload(message, q.query, q.language, q.response, Given(q.retrievedEntries), q.topMatch,
            q.processingTimeMs, Given(q.belowThreshold), Given(q.blocked), others)
  }

  /** Converting a payload that carries every field gives back the answer it
      was made from. */
  lemma {:induction false} ConvertRoundTrip(q: QueryResponse, message: Field<string>, others: map<string, Json>)
    ensures ConvertToQueryResponse(PayloadOf(q, message, others)) == q
  {
  }

  // ---------------------------------------------------------------------------
  // The step list

  function Ids(steps: seq<PipelineStep>): (ids: seq<string>)
    ensures |ids| == |steps| && forall i :: 0 <= i < |steps| ==> ids[i] == steps[i].step
  {
    if steps == [] then [] else Ids(steps[..|steps| - 1]) + [steps[|steps| - 1].step]
  }

  predicate UniqueIds(steps: seq<PipelineStep>)
  {
    forall i, j :: 0 <= i < j < |steps| ==> steps[i].step != steps[j].step
  }

  /** `steps.findIndex(s => s.step === id)`, with -1 as `None`. */
  function FindIndex(steps: seq<PipelineStep>, id: string): (r: Option<nat>)
    ensures r.Some? ==> r.value < |steps| && steps[r.value].step == id
    ensures r.Some? ==> forall j :: 0 <= j < r.value ==> steps[j].step != id
    ensures r.None? <==> forall j :: 0 <= j < |steps| ==> steps[j].step != id
  {
    if steps == [] then None
    else if steps[0].step == id then Some(0)
    else match FindIndex(steps[1..], id)
      case Some(k) => Some(k + 1)
      case None => None
  }

  /** The entry rewritten by a later event for its id: it keeps its id and its
      start time, takes the new status and data, and is stamped complete only
      when the new status is `done`. */
  function Revised(entry: PipelineStep, ev: StreamEvent, now: int): PipelineStep
  {
    entry.(status := ev.status, data := ev.data, completedAt := if ev.status == Done then Some(now) else None)
  }

  /** The entry for an id seen for the first time. */
  function Appeared(ev: StreamEvent, now: int): PipelineStep
  {
    PipelineStep(ev.step, ev.status, ev.data, now, None)
  }

  /** The updater passed to `setSteps`: a keyed upsert on the ordered list. */
  function Upsert(prev: seq<PipelineStep>, ev: StreamEvent, now: int): seq<PipelineStep>
  {
    match FindIndex(prev, ev.step)
    case Some(k) => prev[k := Revised(prev[k], ev, now)]
    case None => prev + [Appeared(ev, now)]
  }

  /** The updater as the source runs it: copy the list, overwrite the first
      entry with the event's id in the copy, or append a new entry. */
  method StepsUpdater(prev: seq<PipelineStep>, ev: StreamEvent, now: int) returns (next: seq<PipelineStep>)
    ensures next == Upsert(prev, ev, now)
  {
    var idx := FindIndex(prev, ev.step);
    if idx.Some? {
      var updated := new PipelineStep[|prev|](i requires 0 <= i < |prev| => prev[i]);
      var k := idx.value;
      updated[k] := updated[k].(status := ev.status, data := ev.data,
                                completedAt := if ev.status == Done then Some(now) else None);
      next := updated[..];
      assert next == prev[k := Revised(prev[k], ev, now)];
    } else {
      next := prev + [PipelineStep(ev.step, ev.status, ev.data, now, None)];
    }
  }

  /** An id that is not in the list adds exactly one entry, at the end, with
      the event's id, status and data, started now and not completed, even when
      the status is already `done`; every earlier entry is unchanged. */
  lemma {:induction false} UpsertAppendsNew(prev: seq<PipelineStep>, ev: StreamEvent, now: int)
    requires forall j :: 0 <= j < |prev| ==> prev[j].step != ev.step
    ensures var r := Upsert(prev, ev, now);
      && |r| == |prev| + 1
      && r[..|prev|] == prev
      && r[|prev|] == PipelineStep(ev.step, ev.status, ev.data, now, None)
  {
    var r := Upsert(prev, ev, now);
    assert r == prev + [Appeared(ev, now)];
    assert r[..|prev|] == prev;
  }

  /** An id that is already present leaves the length alone and rewrites only
      its first entry, which keeps its id and start time, takes the new
      status and data, and is complete exactly when the status is `done`. */
  lemma {:induction false} UpsertRevisesFirst(prev: seq<PipelineStep>, ev: StreamEvent, now: int, k: nat)
    requires k < |prev| && prev[k].step == ev.step
    requires forall j :: 0 <= j < k ==> prev[j].step != ev.step
    ensures var r := Upsert(prev, ev, now);
      && |r| == |prev|
      && r[k].step == prev[k].step && r[k].startedAt == prev[k].startedAt
      && r[k].status == ev.status && r[k].data == ev.data
      && (r[k].completedAt == Some(now) <==> ev.status == Done)
      && (ev.status != Done ==> r[k].completedAt == None)
      && forall j :: 0 <= j < |prev| && j != k ==> r[j] == prev[j]
  {
    var idx := FindIndex(prev, ev.step);
    assert idx.Some?;
    assert idx.value == k;
  }

  /** The ids after an upsert: unchanged when the id was present, otherwise
      the new id is added at the end. */
  lemma {:induction false} UpsertIds(prev: seq<PipelineStep>, ev: StreamEvent, now: int)
    ensures Ids(Upsert(prev, ev, now)) == if ev.step in Ids(prev) then Ids(prev) else Ids(prev) + [ev.step]
  {
    var r := Upsert(prev, ev, now);
    var idx := FindIndex(prev, ev.step);
    if idx.Some? {
      assert ev.step in Ids(prev) by { assert Ids(prev)[idx.value] == ev.step; }
      assert Ids(r) == Ids(prev);
    } else {
      assert ev.step !in Ids(prev) by {
        forall i | 0 <= i < |Ids(prev)| ensures Ids(prev)[i] != ev.step { assert Ids(prev)[i] == prev[i].step; }
      }
      assert Ids(r) == Ids(prev) + [ev.step];
    }
  }

  /** Ids stay unique under every upsert. */
  lemma {:induction false} UpsertKeepsUnique(prev: seq<PipelineStep>, ev: StreamEvent, now: int)
    requires UniqueIds(prev)
    ensures UniqueIds(Upsert(prev, ev, now))
  {
    var r := Upsert(prev, ev, now);
    UpsertIds(prev, ev, now);
    forall i, j | 0 <= i < j < |r| ensures r[i].step != r[j].step {
      assert Ids(r)[i] == r[i].step && Ids(r)[j] == r[j].step;
      if j < |prev| {
        assert Ids(prev)[i] == prev[i].step && Ids(prev)[j] == prev[j].step;
      } else {
        assert ev.step !in Ids(prev);
        assert Ids(prev)[i] == prev[i].step;
      }
    }
  }

  /** Two events for the same id: the second never grows the list and
      overwrites the first's status and data at the same position. */
  lemma {:induction false} SecondEventOverwrites(prev: seq<PipelineStep>, e1: StreamEvent, t1: int, e2: StreamEvent, t2: int)
    requires e1.step == e2.step
    ensures var s1 := Upsert(prev, e1, t1);
            var s2 := Upsert(s1, e2, t2);
            var k := FindIndex(s1, e2.step);
      && k.Some? && |s2| == |s1|
      && s2[k.value].status == e2.status && s2[k.value].data == e2.data
      && s2[k.value].startedAt == s1[k.value].startedAt
  {
    var s1 := Upsert(prev, e1, t1);
    UpsertIds(prev, e1, t1);
    assert e1.step in Ids(s1);
    var i :| 0 <= i < |Ids(s1)| && Ids(s1)[i] == e1.step;
    assert s1[i].step == e2.step;
    var k := FindIndex(s1, e2.step);
    UpsertRevisesFirst(s1, e2, t2, k.value);
  }

  /** The ids met in `xs`, each once, in order of first appearance, after
      those already in `acc`. */
  function AddNew(acc: seq<string>, xs: seq<string>): seq<string>
  {
    if xs == [] then acc
    else
      var a := AddNew(acc, xs[..|xs| - 1]);
      if xs[|xs| - 1] in a then a else a + [xs[|xs| - 1]]
  }

  predicate Distinct(xs: seq<string>)
  {
    forall i, j :: 0 <= i < j < |xs| ==> xs[i] != xs[j]
  }

  /** First-seen deduplication keeps every id once and nothing else. */
  lemma {:induction false} AddNewSpec(acc: seq<string>, xs: seq<string>)
    requires Distinct(acc)
    ensures Distinct(AddNew(acc, xs))
    ensures forall x :: x in AddNew(acc, xs) <==> x in acc || x in xs
    ensures |AddNew(acc, xs)| >= |acc| && AddNew(acc, xs)[..|acc|] == acc
  {
    if xs != [] {
      var init := xs[..|xs| - 1];
      AddNewSpec(acc, init);
      assert xs == init + [xs[|xs| - 1]];
      var a := AddNew(acc, init);
      assert (a + [xs[|xs| - 1]])[..|acc|] == a[..|acc|];
    }
  }

  // ---------------------------------------------------------------------------
  // Event dispatch

  /** The page state the handler touches. */
  datatype PageState = PageState(
    result: Option<QueryResponse>,
    error: Option<string>,
    steps: seq<PipelineStep>,
    isLoading: bool)

  predicate IsSentinel(step: string)
  {
    step == "complete" || step == "error"
  }

  /** The `onEvent` callback. */
  function Dispatch(s: PageState, ev: StreamEvent, now: int): PageState
  {
    if ev.step == "complete" then s.(result := Some(ConvertToQueryResponse(ev.data)))
    else if ev.step == "error" then s.(error := Some(Coalesce(ev.data.message, UnexpectedError)))
    else s.(steps := Upsert(s.steps, ev, now))
  }

  /** `complete` sets the result and `error` the error; neither touches the
      step list, and `error` shows the message as sent, even an empty one,
      falling back only when it is `undefined` or `null`. Every other event is
      an upsert and touches nothing else. */
  lemma {:induction false} DispatchRoutes(s: PageState, ev: StreamEvent, now: int)
    ensures var r := Dispatch(s, ev, now);
      && r.isLoading == s.isLoading
      && (IsSentinel(ev.step) ==> r.steps == s.steps)
      && (ev.step == "complete" ==> r.result == Some(ConvertToQueryResponse(ev.data)) && r.error == s.error)
      && (ev.step == "error" && ev.data.message.Given? ==> r.error == Some(ev.data.message.value) && r.result == s.result)
      && (ev.step == "error" && !ev.data.message.Given? ==> r.error == Some(UnexpectedError) && r.result == s.result)
      && (!IsSentinel(ev.step) ==> r == s.(steps := Upsert(s.steps, ev, now)))
  {
  }

  /** The events of a stream applied in order; the i-th gets `clock(i)`. */
  function DispatchAll(s: PageState, evs: seq<StreamEvent>, clock: nat -> int): PageState
  {
    if evs == [] then s
    else Dispatch(DispatchAll(s, evs[..|evs| - 1], clock), evs[|evs| - 1], clock(|evs| - 1))
  }

  /** The ids of the events that name a pipeline stage (not a sentinel). */
  function StageIds(evs: seq<StreamEvent>): seq<string>
  {
    if evs == [] then []
    else
      var init := StageIds(evs[..|evs| - 1]);
      if IsSentinel(evs[|evs| - 1].step) then init else init + [evs[|evs| - 1].step]
  }

  /** After a stream of events the list has one entry per distinct stage id,
      in first-seen order after the ids already there, and its ids stay
      unique; the loading flag is untouched. */
  lemma {:induction false} DispatchAllSteps(s: PageState, evs: seq<StreamEvent>, clock: nat -> int)
    requires UniqueIds(s.steps)
    ensures Ids(DispatchAll(s, evs, clock).steps) == AddNew(Ids(s.steps), StageIds(evs))
    ensures UniqueIds(DispatchAll(s, evs, clock).steps)
    ensures DispatchAll(s, evs, clock).isLoading == s.isLoading
  {
    if evs != [] {
      var init := evs[..|evs| - 1];
      var ev := evs[|evs| - 1];
      var now := clock(|evs| - 1);
      var mid := DispatchAll(s, init, clock);
      var r := DispatchAll(s, evs, clock);
      assert r == Dispatch(mid, ev, now);
      DispatchAllSteps(s, init, clock);
      if IsSentinel(ev.step) {
        assert StageIds(evs) == StageIds(init);
        assert r.steps == mid.steps;
      } else {
        var xs := StageIds(evs);
        assert xs == StageIds(init) + [ev.step];
        assert xs[..|xs| - 1] == StageIds(init);
        assert r.steps == Upsert(mid.steps, ev, now);
        UpsertIds(mid.steps, ev, now);
        UpsertKeepsUnique(mid.steps, ev, now);
      }
    }
  }

  /** Without a `complete` event the result stays what it was. */
  lemma {:induction false} DispatchAllKeepsResult(s: PageState, evs: seq<StreamEvent>, clock: nat -> int)
    requires forall i :: 0 <= i < |evs| ==> evs[i].step != "complete"
    ensures DispatchAll(s, evs, clock).result == s.result
  {
    if evs != [] {
      var init := evs[..|evs| - 1];
      assert forall i :: 0 <= i < |init| ==> init[i].step != "complete" by {
        forall i | 0 <= i < |init| ensures init[i].step != "complete" { assert init[i] == evs[i]; }
      }
      DispatchAllKeepsResult(s, init, clock);
    }
  }

  /** The result after a stream is the conversion of the data of its last
      `complete` event: later events of other kinds do not disturb it. */
  lemma {:induction false} DispatchAllLastResult(s: PageState, evs: seq<StreamEvent>, clock: nat -> int, k: nat)
    requires k < |evs| && evs[k].step == "complete"
    requires forall j :: k < j < |evs| ==> evs[j].step != "complete"
    ensures DispatchAll(s, evs, clock).result == Some(ConvertToQueryResponse(evs[k].data))
  {
    var init := evs[..|evs| - 1];
    if k < |evs| - 1 {
      assert init[k] == evs[k];
      assert forall j :: k < j < |init| ==> init[j].step != "complete" by {
        forall j | k < j < |init| ensures init[j].step != "complete" { assert init[j] == evs[j]; }
      }
      DispatchAllLastResult(s, init, clock, k);
    }
  }

  // ---------------------------------------------------------------------------
  // What a stream leaves in each entry

  /** An upsert keeps the id at every old position and can only add entries
      carrying the event's id. */
  lemma {:induction false} UpsertShape(prev: seq<PipelineStep>, ev: StreamEvent, now: int)
    ensures var r := Upsert(prev, ev, now);
      && |r| >= |prev|
      && (forall j :: 0 <= j < |prev| ==> r[j].step == prev[j].step)
      && (forall j :: |prev| <= j < |r| ==> r[j].step == ev.step)
  {
    match FindIndex(prev, ev.step)
    case Some(k) =>
      assert Upsert(prev, ev, now) == prev[k := Revised(prev[k], ev, now)];
    case None =>
      assert Upsert(prev, ev, now) == prev + [Appeared(ev, now)];
  }

  /** An upsert for another id leaves an entry exactly as it was. */
  lemma {:induction false} UpsertOtherId(prev: seq<PipelineStep>, ev: StreamEvent, now: int, k: nat)
    requires k < |prev| && prev[k].step != ev.step
    ensures var r := Upsert(prev, ev, now);
      && |r| >= |prev| && r[k] == prev[k]
      && forall j :: 0 <= j < |prev| ==> r[j].step == prev[j].step
  {
    UpsertShape(prev, ev, now);
    match FindIndex(prev, ev.step)
    case Some(i) =>
      assert i != k;
      assert Upsert(prev, ev, now)[k] == prev[k];
    case None =>
      assert Upsert(prev, ev, now) == prev + [Appeared(ev, now)];
  }

  /** The first entry for an id stays the one `findIndex` finds when it and
      the ids before it stay in place. */
  lemma {:induction false} FindIndexSame(a: seq<PipelineStep>, b: seq<PipelineStep>, x: string, k: nat)
    requires FindIndex(a, x) == Some(k) && k < |b| && b[k].step == x
    requires forall j :: 0 <= j < k ==> b[j].step == a[j].step
    ensures FindIndex(b, x) == Some(k)
  {
    assert forall j :: 0 <= j < k ==> b[j].step != x by {
      forall j | 0 <= j < k ensures b[j].step != x { assert b[j].step == a[j].step; }
    }
  }

  /** An entry appended to a list without its id is the one `findIndex` finds. */
  lemma {:induction false} FindIndexAppended(prev: seq<PipelineStep>, e: PipelineStep, x: string)
    requires forall j :: 0 <= j < |prev| ==> prev[j].step != x
    requires e.step == x
    ensures FindIndex(prev + [e], x) == Some(|prev|)
  {
    var b := prev + [e];
    assert b[|prev|].step == x;
    assert forall j :: 0 <= j < |prev| ==> b[j].step != x by {
      forall j | 0 <= j < |prev| ensures b[j].step != x { assert b[j] == prev[j]; }
    }
  }

  /** An id that no event of the stream names never gets an entry. */
  lemma {:induction false} DispatchAllNoEntry(s: PageState, evs: seq<StreamEvent>, clock: nat -> int, x: string)
    requires forall j :: 0 <= j < |s.steps| ==> s.steps[j].step != x
    requires forall j :: 0 <= j < |evs| ==> evs[j].step != x
    ensures forall j :: 0 <= j < |DispatchAll(s, evs, clock).steps| ==> DispatchAll(s, evs, clock).steps[j].step != x
  {
    if evs != [] {
      var init := evs[..|evs| - 1];
      var ev := evs[|evs| - 1];
      var now := clock(|evs| - 1);
      var mid := DispatchAll(s, init, clock);
      assert forall j :: 0 <= j < |init| ==> init[j].step != x by {
        forall j | 0 <= j < |init| ensures init[j].step != x { assert init[j] == evs[j]; }
      }
      DispatchAllNoEntry(s, init, clock, x);
      var r := DispatchAll(s, evs, clock);
      assert r == Dispatch(mid, ev, now);
      assert ev.step != x;
      if IsSentinel(ev.step) {
        assert r.steps == mid.steps;
      } else {
        assert r.steps == Upsert(mid.steps, ev, now);
        UpsertShape(mid.steps, ev, now);
      }
    }
  }

  /** The entry for a stage id is started at the time of the first event
      naming it, and later events never move or restart it. */
  lemma {:induction false} DispatchAllStepStart(s: PageState, evs: seq<StreamEvent>, clock: nat -> int, x: string, f: nat)
    requires !IsSentinel(x)
    requires forall j :: 0 <= j < |s.steps| ==> s.steps[j].step != x
    requires f < |evs| && evs[f].step == x
    requires forall j :: 0 <= j < f ==> evs[j].step != x
    ensures var steps := DispatchAll(s, evs, clock).steps;
            var k := FindIndex(steps, x);
      k.Some? && steps[k.value].startedAt == clock(f)
  {
    var n := |evs| - 1;
    var init := evs[..n];
    var ev := evs[n];
    var now := clock(n);
    var mid := DispatchAll(s, init, clock);
    var r := DispatchAll(s, evs, clock);
    assert r == Dispatch(mid, ev, now);
    if f == n {
      assert forall j :: 0 <= j < |init| ==> init[j].step != x by {
        forall j | 0 <= j < |init| ensures init[j].step != x { assert init[j] == evs[j]; }
      }
      DispatchAllNoEntry(s, init, clock, x);
      assert FindIndex(mid.steps, x) == None;
      assert r.steps == mid.steps + [Appeared(ev, now)];
      FindIndexAppended(mid.steps, Appeared(ev, now), x);
    } else {
      assert init[f] == evs[f];
      assert forall j :: 0 <= j < f ==> init[j].step != x by {
        forall j | 0 <= j < f ensures init[j].step != x { assert init[j] == evs[j]; }
      }
      DispatchAllStepStart(s, init, clock, x, f);
      var k := FindIndex(mid.steps, x).value;
      if !IsSentinel(ev.step) {
        if ev.step == x {
          assert r.steps == mid.steps[k := Revised(mid.steps[k], ev, now)];
        } else {
          UpsertOtherId(mid.steps, ev, now, k);
        }
        FindIndexSame(mid.steps, r.steps, x, k);
      }
    }
  }

  /** What a stream leaves in the entry for a stage id, given the first (`f`)
      and the last (`l`) event naming it: the status and data of the last
      event, the start time of the first, and a completion time exactly when
      the last event is a later one with status `done`, stamped with its time. */
  lemma {:induction false} DispatchAllStepEntry(s: PageState, evs: seq<StreamEvent>, clock: nat -> int, x: string, f: nat, l: nat)
    requires !IsSentinel(x)
    requires forall j :: 0 <= j < |s.steps| ==> s.steps[j].step != x
    requires f <= l < |evs| && evs[f].step == x && evs[l].step == x
    requires forall j :: 0 <= j < f ==> evs[j].step != x
    requires forall j :: l < j < |evs| ==> evs[j].step != x
    ensures var steps := DispatchAll(s, evs, clock).steps;
            var k := FindIndex(steps, x);
      && k.Some?
      && steps[k.value].status == evs[l].status
      && steps[k.value].data == evs[l].data
      && steps[k.value].startedAt == clock(f)
      && steps[k.value].completedAt == (if l != f && evs[l].status == Done then Some(clock(l)) else None)
  {
    DispatchAllStepStart(s, evs, clock, x, f);
    var n := |evs| - 1;
    var init := evs[..n];
    var ev := evs[n];
    var now := clock(n);
    var mid := DispatchAll(s, init, clock);
    var r := DispatchAll(s, evs, clock);
    assert r == Dispatch(mid, ev, now);
    if l == n && f == n {
      assert forall j :: 0 <= j < |init| ==> init[j].step != x by {
        forall j | 0 <= j < |init| ensures init[j].step != x { assert init[j] == evs[j]; }
      }
      DispatchAllNoEntry(s, init, clock, x);
      assert FindIndex(mid.steps, x) == None;
      assert r.steps == mid.steps + [Appeared(ev, now)];
      FindIndexAppended(mid.steps, Appeared(ev, now), x);
    } else if l == n {
      assert init[f] == evs[f];
      assert forall j :: 0 <= j < f ==> init[j].step != x by {
        forall j | 0 <= j < f ensures init[j].step != x { assert init[j] == evs[j]; }
      }
      DispatchAllStepStart(s, init, clock, x, f);
      var k := FindIndex(mid.steps, x).value;
      UpsertRevisesFirst(mid.steps, ev, now, k);
      FindIndexSame(mid.steps, r.steps, x, k);
    } else {
      assert init[f] == evs[f] && init[l] == evs[l];
      assert forall j :: 0 <= j < f ==> init[j].step != x by {
        forall j | 0 <= j < f ensures init[j].step != x { assert init[j] == evs[j]; }
      }
      assert forall j :: l < j < |init| ==> init[j].step != x by {
        forall j | l < j < |init| ensures init[j].step != x { assert init[j] == evs[j]; }
      }
      DispatchAllStepEntry(s, init, clock, x, f, l);
      var k := FindIndex(mid.steps, x).value;
      if !IsSentinel(ev.step) {
        UpsertOtherId(mid.steps, ev, now, k);
        FindIndexSame(mid.steps, r.steps, x, k);
      }
    }
  }

  // ---------------------------------------------------------------------------
  // The search handler

  /** The state right after the resets at the top of `handleSearch`. */
  const Started := PageState(None, None, [], true)

  /** `DispatchAllStepEntry` for a search that starts from the reset state: after the
      stream, the entry for each stage id holds what its last event said,
      the time of its first event, and a completion time only when a later
      event marked it `done`. */
  lemma {:induction false} SearchStepEntry(evs: seq<StreamEvent>, clock: nat -> int, x: string, f: nat, l: nat)
    requires !IsSentinel(x)
    requires f <= l < |evs| && evs[f].step == x && evs[l].step == x
    requires forall j :: 0 <= j < f ==> evs[j].step != x
    requires forall j :: l < j < |evs| ==> evs[j].step != x
    ensures var steps := DispatchAll(Started, evs, clock).steps;
            var k := FindIndex(steps, x);
      && k.Some?
      && steps[k.value] == PipelineStep(x, evs[l].status, evs[l].data, clock(f),
                                        if l != f && evs[l].status == Done then Some(clock(l)) else None)
  {
    DispatchAllStepEntry(Started, evs, clock, x, f, l);
  }

  /** The `catch` and `finally` of `handleSearch`: an `Error` shows its
      message, any other thrown value the generic text, and loading stops
      whatever happened. */
  function Settle(s: PageState, thrown: Option<Thrown>): PageState
  {
    var caught :=
      match thrown
      case None => s
      case Some(ApiFailure(e)) => s.(error := Some(e.message))
      case Some(ErrorObject(m)) => s.(error := Some(m))
      case Some(NonError) => s.(error := Some(UnexpectedError));
    caught.(isLoading := false)
  }

  /** The state one search leaves behind: it depends only on the response,
      the frame parser and the clock, never on the previous search. */
  function SearchOutcome(fetched: Fetched, parse: string -> Option<StreamEvent>, clock: nat -> int): PageState
  {
    var run := StreamRun(fetched, parse);
    Settle(DispatchAll(Started, run.delivered, clock), run.thrown)
  }

  /** After a search, normally or by a thrown value, loading has stopped; a
      thrown value decides the error shown; the step list holds one entry per
      delivered stage id in first-seen order, with unique ids. */
  lemma {:induction false} SearchSettles(fetched: Fetched, parse: string -> Option<StreamEvent>, clock: nat -> int)
    ensures var run := StreamRun(fetched, parse);
            var r := SearchOutcome(fetched, parse, clock);
      && !r.isLoading
      && (run.thrown == None ==> r.error == DispatchAll(Started, run.delivered, clock).error)
      && (run.thrown.Some? && run.thrown.value.ApiFailure? ==> r.error == Some(run.thrown.value.err.message))
      && (run.thrown.Some? && run.thrown.value.ErrorObject? ==> r.error == Some(run.thrown.value.message))
      && (run.thrown == Some(NonError) ==> r.error == Some(UnexpectedError))
      && Ids(r.steps) == AddNew([], StageIds(run.delivered))
      && UniqueIds(r.steps)
  {
    var run := StreamRun(fetched, parse);
    DispatchAllSteps(Started, run.delivered, clock);
  }

  /** A failed request (rejected, non-OK, or without a body) leaves no steps
      and no result, and shows the error it failed with. */
  lemma {:induction false} FailedRequestShowsOnlyError(fetched: Fetched, parse: string -> Option<StreamEvent>, clock: nat -> int)
    requires fetched.Rejected? || !IsOk(fetched.response) || fetched.response.body.None?
    ensures var r := SearchOutcome(fetched, parse, clock);
      && r.steps == [] && r.result == None && r.error.Some? && !r.isLoading
  {
    NothingBeforeStreaming(fetched, parse);
  }

  // ---------------------------------------------------------------------------
  // Whole searches

  /** An OK response whose body is the single frame `data: <text>` and a
      newline, with `text` on one line. */
  function OneFrameResponse(text: string): Fetched
  {
    Fetched(Response(200, "OK", None, Some(Body(["data: " + text + "\n"], None))))
  }

  /** Such a response delivers exactly the event its payload parses to. */
  lemma {:induction false} OneFrameDelivers(text: string, parse: string -> Option<StreamEvent>, ev: StreamEvent)
    requires NoNewline(text) && JsString.Trim(text) != "" && parse(JsString.Trim(text)) == Some(ev)
    ensures StreamRun(OneFrameResponse(text), parse) == Run([ev], None)
  {
    var line := "data: " + text;
    var chunk := line + "\n";
    assert Concat([chunk]) == chunk by { assert [chunk][..0] == []; }
    assert NoNewline(line) by {
      assert forall i :: 0 <= i < |line| ==> line[i] != '\n' by {
        forall i | 0 <= i < |line| ensures line[i] != '\n' {
          if i >= 6 { assert line[i] == text[i - 6]; }
        }
      }
    }
    assert Terminated([line]) + "" == chunk by { assert [line][1..] == []; }
    FramingUnique([line], "", chunk);
    assert JsString.StartsWith(line, "data: ") && line[6..] == text;
    assert LineEvent(parse, line) == [ev];
    assert EventsOf(parse, [line]) == [ev] by { assert [line][..0] == []; }
  }

  /** A search whose stream delivers one event and ends cleanly settles on
      that event's dispatch from the starting state. */
  lemma {:induction false} OneEventDispatched(ev: StreamEvent, clock: nat -> int)
    ensures Settle(DispatchAll(Started, [ev], clock), None) == Dispatch(Started, ev, clock(0)).(isLoading := false)
  {
    assert [ev][..0] == [];
  }

  /** A stream carrying one `complete` frame for "chakula" ends with that
      answer shown, no error and loading stopped. */
  lemma {:induction false} CompleteFrameGivesResult(text: string, parse: string -> Option<StreamEvent>, data: Payload, clock: nat -> int)
    requires NoNewline(text) && JsString.Trim(text) != ""
    requires parse(JsString.Trim(text)) == Some(StreamEvent("complete", Done, data))
    requires data.query == Given("chakula")
    ensures var r := SearchOutcome(OneFrameResponse(text), parse, clock);
      && r.result.Some? && r.result.value.query == Given("chakula")
      && r.error == None && r.steps == [] && !r.isLoading
  {
    var ev := StreamEvent("complete", Done, data);
    OneFrameDelivers(text, parse, ev);
    OneEventDispatched(ev, clock);
  }

  /** A stream carrying one `error` frame with message "boom" shows exactly
      "boom" and no answer. */
  lemma {:induction false} ErrorFrameGivesMessage(text: string, parse: string -> Option<StreamEvent>, data: Payload, clock: nat -> int)
    requires NoNewline(text) && JsString.Trim(text) != ""
    requires parse(JsString.Trim(text)) == Some(StreamEvent("error", Error, data))
    requires data.message == Given("boom")
    ensures var r := SearchOutcome(OneFrameResponse(text), parse, clock);
      && r.error == Some("boom") && r.result == None && r.steps == [] && !r.isLoading
  {
    var ev := StreamEvent("error", Error, data);
    OneFrameDelivers(text, parse, ev);
    OneEventDispatched(ev, clock);
  }

  /** A 500 whose JSON body says "Internal" shows "Internal", not a status
      line, and nothing else. */
  lemma {:induction false} ServerErrorShowsItsText(statusText: string, detail: Field<string>, query: Field<string>, body: Option<Body>, parse: string -> Option<StreamEvent>, clock: nat -> int)
    ensures var r := SearchOutcome(Fetched(Response(500, statusText, Some(ErrorResponse(Given("Internal"), detail, query)), body)), parse, clock);
      && r.error == Some("Internal") && r.result == None && r.steps == [] && !r.isLoading
  {
  }

  /** The state of the `Home` component that `handleSearch` updates. */
  class Home {
    var result: Option<QueryResponse>
    var error: Option<string>
    var steps: seq<PipelineStep>
    var isLoading: bool

    function State(): PageState
      reads this
    {
      PageState(result, error, steps, isLoading)
    }

    /** The initial `useState` values. */
    constructor ()
      ensures State() == PageState(None, None, [], false)
    {
      result := None;
      error := None;
      steps := [];
      isLoading := false;
    }

    /** The four resets before streaming starts. */
    method StartSearch()
      modifies this
      ensures State() == Started
      ensures isLoading && error == None && result == None && steps == []
    {
      isLoading := true;
      error := None;
      result := None;
      steps := [];
    }

    /** The `onEvent` callback passed to `queryStream`. */
    method OnEvent(ev: StreamEvent, now: int)
      modifies this
      ensures State() == Dispatch(old(State()), ev, now)
    {
      if ev.step == "complete" {
        result := Some(ConvertToQueryResponse(ev.data));
      } else if ev.step == "error" {
        error := Some(Coalesce(ev.data.message, UnexpectedError));
      } else {
        var next := StepsUpdater(steps, ev, now);
        steps := next;
      }
    }

    /** `handleSearch`: reset, stream and apply every delivered event in
        order, then the `catch` and the `finally`. */
    method HandleSearch(fetched: Fetched, parse: string -> Option<StreamEvent>, clock: nat -> int)
      modifies this
      ensures State() == SearchOutcome(fetched, parse, clock)
      ensures !isLoading
    {
      StartSearch();
      var delivered, thrown := QueryStream(fetched, parse);
      for i := 0 to |delivered|
        invariant State() == DispatchAll(Started, delivered[..i], clock)
      {
        OnEvent(delivered[i], clock(i));
        assert delivered[..i + 1][..i] == delivered[..i];
      }
      assert delivered[..|delivered|] == delivered;
      if thrown.Some? {
        match thrown.value
        case ApiFailure(e) => error := Some(e.message);
        case ErrorObject(m) => error := Some(m);
        case NonError => error := Some(UnexpectedError);
      }
      isLoading := false;
    }
  }
}
