/** The departure record of main/main.c (`departure_t`), the heap it is
    allocated from, the singly linked list the records form, and the value each
    record must hold for a given JSON entry. */
module Departures {
  import opened CStrings
  import opened CJson

  /** Sizes of the record's character arrays, terminator included. */
  const LINE_SIZE: nat := 3
  const DESTINATION_SIZE: nat := 50
  const TIME_SIZE: nat := 6

  /** The three string values a departure entry carries in the document. */
  datatype Entry = Entry(link: Text, destinationStop: Text, time: Text)

  /** What a record holds, read as C strings: one log line's worth. */
  datatype Record = Record(line: string, destination: string, time: string)

  /** A time whose first byte is above '9' is read from offset 3 on, so it must
      have at least three characters before its terminator. */
  predicate TimeReadable(t: Text)
  {
    t != [] && t[0] > '9' ==> |t| >= 3
  }

  /** The stored time: a leading byte above '9' marks a prefix of three
      characters that is dropped; the rest is cut to five characters. */
  function StoredTime(t: Text): (r: string)
    requires TimeReadable(t)
    ensures |r| <= TIME_SIZE - 1
  {
    if t != [] && t[0] > '9' then Truncate(t[3..], TIME_SIZE - 1) else Truncate(t, TIME_SIZE - 1)
  }

  /** The record a well-formed entry yields. */
  function Extract(e: Entry): Record
    requires TimeReadable(e.time)
  {
    Record(Truncate(e.link, LINE_SIZE - 1),
           Truncate(e.destinationStop, DESTINATION_SIZE - 1),
           StoredTime(e.time))
  }

  /** The line and the destination of an extracted record are the first
      min(len, 2) and min(len, 49) characters of their source values, and no
      field holds a NUL. */
  lemma ExtractFields(e: Entry)
    requires TimeReadable(e.time)
    ensures var r := Extract(e);
      && r.line == e.link[..if |e.link| <= 2 then |e.link| else 2]
      && r.destination == e.destinationStop[..if |e.destinationStop| <= 49 then |e.destinationStop| else 49]
      && '\0' !in r.line && '\0' !in r.destination && '\0' !in r.time
  {
  }

  /** The time rule, both ways: a marker byte above '9' strips three
      characters, anything else (a digit-led clock time, or an empty string)
      is kept from its first character. */
  lemma StoredTimeRule(t: Text)
    requires TimeReadable(t)
    ensures t != [] && t[0] > '9' ==>
      StoredTime(t) <= t[3..] && (|StoredTime(t)| == 5 || StoredTime(t) == t[3..])
    ensures !(t != [] && t[0] > '9') ==>
      StoredTime(t) <= t && (|StoredTime(t)| == 5 || StoredTime(t) == t)
  {
  }

  /** Values that already fit are stored unchanged: a line of at most two
      characters, a destination of at most 49 and a clock time of at most five. */
  lemma FittingValuesKept(e: Entry)
    requires TimeReadable(e.time)
    requires |e.link| <= 2 && |e.destinationStop| <= 49
    requires |e.time| <= 5 && (e.time == [] || e.time[0] <= '9')
    ensures Extract(e) == Record(e.link, e.destinationStop, e.time)
  {
  }

  predicate HasString(item: Json, key: string)
  {
    var v := ObjectItem(Some(item), key);
    v.Some? && v.value.String?
  }

  /** An entry json_parse reads without dereferencing NULL or reading past a
      terminator: `link`, `destinationStop` and `time` are strings, and a time
      that loses its first three characters has them. */
  predicate EntryUsable(item: Json)
  {
    && HasString(item, "link") && HasString(item, "destinationStop") && HasString(item, "time")
    && TimeReadable(ObjectItem(Some(item), "time").value.text)
  }

  /** The three cJSON_GetObjectItemCaseSensitive lookups of an entry. */
  function EntryOf(item: Json): (e: Entry)
    requires EntryUsable(item)
    ensures TimeReadable(e.time)
  {
    Entry(ObjectItem(Some(item), "link").value.text,
          ObjectItem(Some(item), "destinationStop").value.text,
          ObjectItem(Some(item), "time").value.text)
  }

  /** The character arrays of `departure_t`, with the sizes it declares. Each
      ends in a NUL in every record the program builds, so every field is a
      C string inside its array. */
  type LineChars = s: seq<char> | |s| == LINE_SIZE && s[LINE_SIZE - 1] == '\0' witness Nuls(LINE_SIZE)
  type DestinationChars = s: seq<char> | |s| == DESTINATION_SIZE && s[DESTINATION_SIZE - 1] == '\0'
    witness Nuls(DESTINATION_SIZE)
  type TimeChars = s: seq<char> | |s| == TIME_SIZE && s[TIME_SIZE - 1] == '\0' witness Nuls(TIME_SIZE)

  /** The three fields as the `%s` conversions of the log line read them. */
  function RecordOf(line: LineChars, destination: DestinationChars, time: TimeChars): Record
  {
    Record(CStr(line), CStr(destination), CStr(time))
  }

  /** One `departure_t`: three fixed-size character arrays held inside the
      record, and the link to the next record. The arrays are written only
      while the record is being built, so they are fixed once it exists.
      `source` is the JSON entry the record was built from. */
  class Departure {
    const line: LineChars
    const destination: DestinationChars
    const time: TimeChars
    var next: Departure?
    ghost const source: Json

    /** The record holds, read as C strings, what its entry calls for. */
    ghost predicate Valid()
    {
      EntryUsable(source) && RecordOf(line, destination, time) == Extract(EntryOf(source))
    }

    /** The three lookups of an entry, calloc(1, sizeof(departure_t)) and the
        three strncpy calls that fill the zeroed record: `link` and
        `destinationStop` into arrays of 3 and 50 bytes, and `time` into one
        of 6 bytes, from offset 3 when its first byte is above '9'; each copy
        is bounded by its array's size minus one. */
    constructor (item: Json)
      requires EntryUsable(item)
      ensures source == item && Valid()
      ensures next == null
    {
      var e := EntryOf(item);
      line := StrNCpyString(Nuls(LINE_SIZE), e.link, LINE_SIZE - 1);
      destination := StrNCpyString(Nuls(DESTINATION_SIZE), e.destinationStop, DESTINATION_SIZE - 1);
      var timeString := e.time + ['\0'];
      if timeString[0] > '9' {
        time := StrNCpyString(Nuls(TIME_SIZE), e.time[3..], TIME_SIZE - 1);
      } else {
        time := StrNCpyString(Nuls(TIME_SIZE), e.time, TIME_SIZE - 1);
      }
      next := null;
      source := item;
    }
  }

  /** The C heap as far as the records go: calloc succeeds `remaining` more
      times; `live` holds the records allocated and not yet freed, and `freed`
      logs every free in order. */
  class Allocator {
    var remaining: nat
    ghost var live: set<Departure>
    ghost var freed: seq<Departure>

    /** Every live record holds what its entry calls for. */
    ghost predicate Valid()
      reads this
    {
      forall d {:trigger d.Valid()} :: d in live ==> d.Valid()
    }

    constructor (capacity: nat)
      ensures Valid()
      ensures remaining == capacity && live == {} && freed == []
    {
      remaining := capacity;
      live := {};
      freed := [];
    }

    /** The lookups of the entry `item`, calloc(1, sizeof(departure_t)) and
        the strncpy calls that fill the record: NULL once memory is exhausted,
        else a fresh live record built from `item`. */
    method Calloc(item: Json) returns (d: Departure?)
      requires EntryUsable(item) && Valid()
      modifies this
      ensures Valid() && freed == old(freed)
      ensures old(remaining) == 0 ==> d == null && remaining == 0 && live == old(live)
      ensures old(remaining) > 0 ==>
        && d != null && fresh(d) && d.next == null && d.source == item
        && remaining == old(remaining) - 1 && live == old(live) + {d}
    {
      if remaining == 0 {
        d := null;
      } else {
        d := new Departure(item);
        remaining := remaining - 1;
        live := live + {d};
      }
    }

    /** free(d): only a live record may be freed, which rules out a double free. */
    method Free(d: Departure)
      requires d in live && Valid()
      modifies this
      ensures Valid()
      ensures live == old(live) - {d} && freed == old(freed) + [d]
      ensures remaining == old(remaining) + 1
    {
      live := live - {d};
      freed := freed + [d];
      remaining := remaining + 1;
    }
  }

  ghost function Elems(nodes: seq<Departure>): set<Departure>
  {
    set n | n in nodes
  }

  /** `head` starts a NULL-terminated singly linked list whose records are
      `nodes`, in order: following `next` from `head` visits exactly them. */
  ghost predicate IsList(head: Departure?, nodes: seq<Departure>)
    reads nodes
  {
    && head == (if nodes == [] then null else nodes[0])
    && (forall i :: 0 <= i < |nodes| - 1 ==> nodes[i].next == nodes[i + 1])
    && (nodes != [] ==> nodes[|nodes| - 1].next == null)
  }

  /** Two positions of a NULL-terminated list hold the same record only if
      they are the same position: stepping both forward would otherwise reach
      the end at one of them and a further record at the other. */
  lemma {:induction false} NoRepeat(head: Departure?, nodes: seq<Departure>, i: nat, j: nat)
    requires IsList(head, nodes) && i < j < |nodes|
    ensures nodes[i] != nodes[j]
    decreases |nodes| - j
  {
    if nodes[i] == nodes[j] {
      if j + 1 == |nodes| {
        assert false;
      } else {
        assert nodes[i + 1] == nodes[i].next == nodes[j].next == nodes[j + 1];
        NoRepeat(head, nodes, i + 1, j + 1);
      }
    }
  }

  /** The records of a list are pairwise distinct. */
  lemma ListDistinct(head: Departure?, nodes: seq<Departure>)
    requires IsList(head, nodes)
    ensures forall i, j :: 0 <= i < j < |nodes| ==> nodes[i] != nodes[j]
  {
    forall i, j | 0 <= i < j < |nodes| {
      NoRepeat(head, nodes, i, j);
    }
  }

  /** The records' contents, in list order. */
  function Values(nodes: seq<Departure>): (vs: seq<Record>)
    ensures |vs| == |nodes|
  {
    if nodes == [] then [] else Values(nodes[..|nodes| - 1]) + [RecordOf(nodes[|nodes| - 1].line, nodes[|nodes| - 1].destination, nodes[|nodes| - 1].time)]
  }

  /** Record i was built from entry i, for every record: `items` starts
      with the entries the records were built from. */
  ghost predicate BuiltFrom(nodes: seq<Departure>, items: seq<Json>)
  {
    |nodes| <= |items| &&
    (nodes != [] ==> BuiltFrom(nodes[..|nodes| - 1], items) && nodes[|nodes| - 1].source == items[|nodes| - 1])
  }

  /** Entry i of the contents is what record i holds. */
  lemma {:induction false} ValuesAt(nodes: seq<Departure>, i: nat)
    requires i < |nodes|
    ensures Values(nodes)[i] == RecordOf(nodes[i].line, nodes[i].destination, nodes[i].time)
    decreases |nodes|
  {
    if i < |nodes| - 1 {
      var front := nodes[..|nodes| - 1];
      ValuesAt(front, i);
      assert front[i] == nodes[i];
    }
  }
}
