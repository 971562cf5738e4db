/** main/main.c: the fetch into a fixed buffer, json_parse building the list of
    departures, the walk that logs them, json_free, and get_data_task tying the
    steps together. Network, logging and task plumbing are not part of this
    model; the HTTP client's outcome and cJSON_Parse are inputs. */
module Main {
  import opened CStrings
  import opened CJson
  import opened Departures

  const MAX_HTTP_OUTPUT_BUFFER: nat := 2048

  /** The item json_parse iterates: stops[0].signs[0].departures, each step
      answering NULL when the one before did. */
  function DeparturesItem(root: Json): Option<Json>
  {
    var stops := ObjectItem(Some(root), "stops");
    var data := ArrayItem(stops, 0);
    var signs := ObjectItem(data, "signs");
    var sign := ArrayItem(signs, 0);
    ObjectItem(sign, "departures")
  }

  /** The entries json_parse visits for a parse outcome: none when the document
      did not parse. */
  function Items(doc: Option<Json>): seq<Json>
  {
    if doc.None? then [] else ForEach(DeparturesItem(doc.value))
  }

  predicate AllUsable(items: seq<Json>)
  {
    forall i :: 0 <= i < |items| ==> EntryUsable(items[i])
  }

  /** What json_parse demands of the parsed document. */
  predicate Usable(doc: Option<Json>)
  {
    AllUsable(Items(doc))
  }

  /** The records the first k entries call for, in document order. */
  function Expected(items: seq<Json>, k: nat): (rs: seq<Record>)
    requires AllUsable(items) && k <= |items|
    ensures |rs| == k
  {
    if k == 0 then [] else Expected(items, k - 1) + [Extract(EntryOf(items[k - 1]))]
  }

  /** The tail insertion of json_parse's loop: the new record ends the list,
      and it becomes the head when the list was empty. */
  method AppendDeparture(head: Departure?, current: Departure?, ghost nodes: seq<Departure>, d: Departure)
    returns (newHead: Departure?)
    requires IsList(head, nodes) && d !in nodes
    requires current == if nodes == [] then null else nodes[|nodes| - 1]
    modifies d, current
    ensures IsList(newHead, nodes + [d])
  {
    d.next := null;
    newHead := head;
    if head == null {
      newHead := d;
    } else {
      forall i | 0 <= i < |nodes| - 1
        ensures nodes[i] != current
      {
        NoRepeat(head, nodes, i, |nodes| - 1);
      }
      current.next := d;
    }
  }

  /** Live records built from the first entries hold, in order, the
      contents those entries call for. */
  lemma {:induction false} Contents(nodes: seq<Departure>, items: seq<Json>, heap: Allocator)
    requires AllUsable(items) && BuiltFrom(nodes, items)
    requires heap.Valid() && Elems(nodes) <= heap.live
    ensures Values(nodes) == Expected(items, |nodes|)
    decreases |nodes|
  {
    if nodes != [] {
      var n := |nodes| - 1;
      var front, last := nodes[..n], nodes[n];
      assert Elems(front) <= Elems(nodes);
      Contents(front, items, heap);
      assert last in heap.live && last.Valid();
      assert Values(nodes) == Values(front) + [RecordOf(last.line, last.destination, last.time)];
    }
  }

  /** One step of json_parse's loop: a record for `item`, appended at the
      tail; when calloc fails nothing changes. */
  method AppendEntry(item: Json, head: Departure?, current: Departure?, ghost nodes: seq<Departure>, heap: Allocator)
    returns (newHead: Departure?, d: Departure?)
    requires EntryUsable(item) && heap.Valid() && IsList(head, nodes)
    requires current == if nodes == [] then null else nodes[|nodes| - 1]
    modifies heap, current
    ensures heap.Valid() && heap.freed == old(heap.freed)
    ensures old(heap.remaining) == 0 ==>
      d == null && heap.remaining == 0 && heap.live == old(heap.live) && newHead == head && IsList(newHead, nodes)
    ensures old(heap.remaining) > 0 ==>
      && d != null && fresh(d) && d.source == item
      && heap.remaining == old(heap.remaining) - 1 && heap.live == old(heap.live) + {d}
      && IsList(newHead, nodes + [d])
  {
    newHead := head;
    d := heap.Calloc(item);
    if d != null {
      newHead := AppendDeparture(head, current, nodes, d);
    }
  }

  /** The loop of json_parse over the departures array: one record per entry,
      appended at the tail so the list keeps document order. When calloc
      fails the result is NULL; `built` is the list the loop had linked so
      far, which json_parse drops. */
  method BuildList(entries: seq<Json>, heap: Allocator) returns (head: Departure?, built: Departure?, ghost nodes: seq<Departure>)
    requires AllUsable(entries) && heap.Valid()
    modifies heap
    ensures forall i :: 0 <= i < |nodes| ==> fresh(nodes[i])
    ensures heap.Valid() && heap.live == old(heap.live) + Elems(nodes) && heap.freed == old(heap.freed)
    ensures IsList(built, nodes)
    ensures BuiltFrom(nodes, entries)
    ensures |entries| <= old(heap.remaining) ==>
      && head == built && |nodes| == |entries|
      && heap.remaining == old(heap.remaining) - |entries|
    ensures |entries| > old(heap.remaining) ==>
      head == null && |nodes| == old(heap.remaining) && heap.remaining == 0
  {
    nodes := [];
    head := null;
    var current: Departure? := null;
    var k := 0;
    while k < |entries|
      invariant k <= |entries| && k <= old(heap.remaining) && |nodes| == k
      invariant heap.remaining == old(heap.remaining) - k
      invariant heap.Valid() && heap.live == old(heap.live) + Elems(nodes) && heap.freed == old(heap.freed)
      invariant forall i :: 0 <= i < |nodes| ==> fresh(nodes[i])
      invariant IsList(head, nodes)
      invariant BuiltFrom(nodes, entries)
      invariant current == if nodes == [] then null else nodes[|nodes| - 1]
    {
      var d;
      head, d := AppendEntry(entries[k], head, current, nodes, heap);
      if d == null {
        return null, head, nodes;
      }
      current := d;
      assert Elems(nodes + [d]) == Elems(nodes) + {d};
      assert (nodes + [d])[..k] == nodes;
      nodes := nodes + [d];
      k := k + 1;
    }
    built := head;
  }

  /** json_parse: the records for stops[0].signs[0].departures, in document
      order. A document that did not parse, or has no entries there, gives
      NULL and allocates nothing. */
  method JsonParse(doc: Option<Json>, heap: Allocator) returns (head: Departure?, ghost nodes: seq<Departure>)
    requires Usable(doc) && heap.Valid()
    modifies heap
    ensures forall i :: 0 <= i < |nodes| ==> fresh(nodes[i])
    ensures heap.Valid() && heap.live == old(heap.live) + Elems(nodes) && heap.freed == old(heap.freed)
    ensures IsList(if nodes == [] then null else nodes[0], nodes)
    ensures |nodes| <= |Items(doc)| && Values(nodes) == Expected(Items(doc), |nodes|)
    ensures |Items(doc)| <= old(heap.remaining) ==>
      && head == (if nodes == [] then null else nodes[0]) && |nodes| == |Items(doc)|
      && heap.remaining == old(heap.remaining) - |Items(doc)|
    ensures |Items(doc)| > old(heap.remaining) ==>
      head == null && |nodes| == old(heap.remaining) && heap.remaining == 0
  {
    if doc.None? {
      return null, [];
    }
    var root := doc.value;
    var stops := ObjectItem(Some(root), "stops");
    var data := ArrayItem(stops, 0);
    var signs := ObjectItem(data, "signs");
    var sign := ArrayItem(signs, 0);
    var departures := ObjectItem(sign, "departures");
    var entries := ForEach(departures);
    assert entries == Items(doc);
    var built;
    head, built, nodes := BuildList(entries, heap);
    Contents(nodes, entries, heap);
  }

  /** json_parse as it is evidently meant to behave when calloc fails: the
      records built so far are freed before NULL is returned, so a failed
      parse leaves the heap as it found it. The path walk is `Items`. */
  method JsonParseReleasing(doc: Option<Json>, heap: Allocator) returns (head: Departure?, ghost nodes: seq<Departure>)
    requires Usable(doc) && heap.Valid()
    modifies heap
    ensures heap.Valid()
    ensures |Items(doc)| <= old(heap.remaining) ==>
      && head == (if nodes == [] then null else nodes[0]) && IsList(head, nodes)
      && (forall i :: 0 <= i < |nodes| ==> fresh(nodes[i]))
      && Values(nodes) == Expected(Items(doc), |Items(doc)|)
      && heap.live == old(heap.live) + Elems(nodes) && heap.freed == old(heap.freed)
      && heap.remaining == old(heap.remaining) - |Items(doc)|
    ensures |Items(doc)| > old(heap.remaining) ==>
      head == null && nodes == [] && heap.live == old(heap.live) && heap.remaining == old(heap.remaining)
  {
    var entries := Items(doc);
    var built;
    head, built, nodes := BuildList(entries, heap);
    Contents(nodes, entries, heap);
    if head == null {
      assert forall d :: d in Elems(nodes) ==> d !in old(heap.live);
      JsonFree(built, nodes, heap);
      nodes := [];
    }
  }

  /** The loop of get_data_task that logs each record: one line per record,
      in list order. */
  method ReportDepartures(head: Departure?, ghost nodes: seq<Departure>) returns (log: seq<Record>)
    requires IsList(head, nodes)
    ensures log == Values(nodes)
  {
    log := [];
    var current := head;
    ghost var i := 0;
    while current != null
      invariant 0 <= i <= |nodes|
      invariant current == if i < |nodes| then nodes[i] else null
      invariant log == Values(nodes[..i])
      decreases |nodes| - i
    {
      assert nodes[..i + 1][..i] == nodes[..i];
      log := log + [RecordOf(current.line, current.destination, current.time)];
      current := current.next;
      i := i + 1;
    }
    assert nodes[..i] == nodes;
  }

  /** json_free: walks the list and frees every record once, in list order;
      afterwards none of them is live. An empty list frees nothing. */
  method JsonFree(head: Departure?, ghost nodes: seq<Departure>, heap: Allocator)
    requires IsList(head, nodes) && Elems(nodes) <= heap.live && heap.Valid()
    modifies heap
    ensures heap.Valid() && heap.live == old(heap.live) - Elems(nodes)
    ensures heap.freed == old(heap.freed) + nodes && heap.remaining == old(heap.remaining) + |nodes|
  {
    ListDistinct(head, nodes);
    var current := head;
    var next: Departure? := null;
    ghost var i := 0;
    while current != null
      invariant 0 <= i <= |nodes|
      invariant current == if i < |nodes| then nodes[i] else null
      invariant heap.Valid() && heap.live == old(heap.live) - Elems(nodes[..i])
      invariant heap.freed == old(heap.freed) + nodes[..i] && heap.remaining == old(heap.remaining) + i
      decreases |nodes| - i
    {
      next := current.next;
      assert current !in Elems(nodes[..i]);
      heap.Free(current);
      current := next;
      i := i + 1;
      assert nodes[..i] == nodes[..i - 1] + [nodes[i - 1]];
    }
    assert nodes[..i] == nodes;
  }

  /** What the HTTP client reports: the connection or the header fetch failed,
      the read failed (a negative count), or `body` arrived. */
  datatype Response = OpenFailed | HeadersFailed | ReadFailed | Received(body: seq<char>)

  /** https_native_request: the client reads the body into the buffer, at most
      MAX_HTTP_OUTPUT_BUFFER bytes, and the program writes a NUL right after it,
      inside the MAX_HTTP_OUTPUT_BUFFER + 1 bytes of the buffer. On any failure
      the buffer is left as it was. */
  method HttpsNativeRequest(outputBuffer: array<char>, response: Response)
    requires outputBuffer.Length == MAX_HTTP_OUTPUT_BUFFER + 1
    requires response.Received? ==> |response.body| <= MAX_HTTP_OUTPUT_BUFFER
    modifies outputBuffer
    ensures response.Received? ==>
      outputBuffer[..] == response.body + ['\0'] + old(outputBuffer[|response.body| + 1..])
    ensures !response.Received? ==> outputBuffer[..] == old(outputBuffer[..])
  {
    if response.Received? {
      var dataRead := |response.body|;
      forall i | 0 <= i < dataRead {
        outputBuffer[i] := response.body[i];
      }
      outputBuffer[dataRead] := '\0';
    }
  }

  /** How get_data_task ends: no data was received, parsing gave no list, or
      these lines were logged. */
  datatype Outcome = NoData | ParsingFailed | Reported(log: seq<Record>)

  /** get_data_task after network bring-up: fetch into a zeroed buffer, stop
      when it holds the empty string, parse it (`parse` stands for
      cJSON_Parse), stop on a NULL list, else log every record and free the
      list. The parse is the corrected one, so nothing stays allocated on any
      path. */
  method GetDataTask(response: Response, parse: string -> Option<Json>, heap: Allocator) returns (outcome: Outcome)
    requires response.Received? ==> |response.body| <= MAX_HTTP_OUTPUT_BUFFER
    requires response.Received? && CStr(response.body) != [] ==> Usable(parse(CStr(response.body)))
    requires heap.Valid()
    modifies heap
    ensures heap.Valid() && heap.live == old(heap.live) && heap.remaining == old(heap.remaining)
    ensures !response.Received? || CStr(response.body) == [] ==> outcome == NoData
    ensures response.Received? && CStr(response.body) != [] ==>
      var items := Items(parse(CStr(response.body)));
      && (items == [] || |items| > old(heap.remaining) ==> outcome == ParsingFailed)
      && (items != [] && |items| <= old(heap.remaining) ==>
            outcome == Reported(Expected(items, |items|)))
  {
    var outputBuffer := new char[MAX_HTTP_OUTPUT_BUFFER + 1](_ => '\0');
    ghost var before := outputBuffer[..];
    HttpsNativeRequest(outputBuffer, response);
    if response.Received? {
      CStrOfTerminated(response.body, before[|response.body| + 1..]);
    } else {
      assert outputBuffer[0] == '\0';
    }
    if CStrLen(outputBuffer[..]) == 0 {
      return NoData;
    }
    var head, nodes := JsonParseReleasing(parse(CStr(outputBuffer[..])), heap);
    if head == null {
      return ParsingFailed;
    }
    var log := ReportDepartures(head, nodes);
    JsonFree(head, nodes, heap);
    outcome := Reported(log);
  }

  /** get_data_task run twice on the same response leaves the heap as it
      found it and logs the same lines both times. */
  method GetDataTaskTwice(response: Response, parse: string -> Option<Json>, heap: Allocator)
    returns (first: Outcome, second: Outcome)
    requires response.Received? ==> |response.body| <= MAX_HTTP_OUTPUT_BUFFER
    requires response.Received? && CStr(response.body) != [] ==> Usable(parse(CStr(response.body)))
    requires heap.Valid()
    modifies heap
    ensures first == second
    ensures heap.Valid() && heap.live == old(heap.live) && heap.remaining == old(heap.remaining)
  {
    first := GetDataTask(response, parse, heap);
    second := GetDataTask(response, parse, heap);
  }
}
