# esp_salina departure extraction, in Dafny

This project models the part of `main/main.c` that turns a public-transport departure board into log lines:

- the HTTP fetch writes its body into a fixed buffer of `MAX_HTTP_OUTPUT_BUFFER + 1` bytes and terminates it with a NUL;
- `json_parse` walks the parsed document along `stops[0].signs[0].departures[]`;
  - for every entry it callocs one `departure_t` record;
  - it fills the record's three character arrays with `strncpy`, and the time loses a three-character marker when its first byte is above `'9'`;
  - it appends the record at the tail of a singly linked list;
- `get_data_task` logs every record in list order;
- `json_free` frees the list.

The model is imperative where the program is.

- **Records.** A record is a class `Departures.Departure` with a mutable `next` link. Its three character arrays have the declared sizes 3, 50 and 6. They are filled once while the record is built: zeroed as calloc leaves them, then written by `strncpy` (modelled per section 7.24.2.4 of ISO/IEC 9899:2011).
- **Heap.** `Departures.Allocator` has a count of callocs that still succeed, the set of live records and a log of frees.
- **Loops.** The list-building, logging and freeing loops are methods with loop invariants. Their postconditions relate the list to pure functions of the document:
  - `Main.Expected` gives the records the entries call for;
  - `Departures.Extract` gives the record for one entry;
  - `Departures.Values` gives the contents of a list.
- **Parsed document.** It is an abstract JSON tree (`CJson.Json`). The three cJSON accessors the program uses are functions that return NULL (`None`) on NULL input, as cJSON's do. A missing path therefore gives an empty list, not a crash.

## Model

| member | source | states |
|---|---|---|
| CStrings.StrNCpyBytes | main/main.c:110-117 | strncpy byte by byte: below n, the source byte up to the first NUL and NUL padding after it; from n on, the buffer is untouched |
| CStrings.StrNCpyTruncates | main/main.c:103-117 | strncpy of at most n bytes into a buffer whose byte n is zero (calloc) leaves byte n NUL, and the buffer reads as the source string cut to n characters |
| CStrings.StrNCpyString | main/main.c:110-117 | copying a stored string bounded by size-1 into a zeroed array of that size keeps the last byte NUL and yields the string truncated to size-1 characters |
| CStrings.CStrOfTerminated | main/main.c:54-56 | after the NUL written at `output_buffer[data_read]`, the buffer reads as the string in the received bytes, of length at most `data_read` |
| CJson.FindKeyFirst | main/main.c:88-101 | the member cJSON_GetObjectItemCaseSensitive picks has no earlier member with the same key |
| CJson.ObjectItemFound | main/main.c:88-101 | an object's item for a key is found exactly when some member has that key; it is then the value of the first such member |
| Departures.StoredTimeRule | main/main.c:113-117 | a time led by a byte above '9' is stored from offset 3, otherwise from offset 0; either way it is a prefix of that window, cut to 5 characters only when longer |
| Departures.ExtractFields | main/main.c:72-77 | the stored line is a prefix of `link` of length min(len, 2), the destination a prefix of `destinationStop` of length min(len, 49), and no field holds a NUL |
| Departures.FittingValuesKept | main/main.c:110-117 | values that already fit their arrays (and a digit-led time) are stored unchanged |
| Departures.Departure.constructor | main/main.c:103-118 | a zeroed record filled by the three strncpy calls reads, field by field, as the record `Extract` assigns to its entry, and its `next` is NULL |
| Departures.Allocator.Calloc | main/main.c:103-108 | calloc gives NULL and changes nothing once memory is exhausted; otherwise it gives a fresh live record built from the entry |
| Departures.Allocator.Free | main/main.c:137 | free removes a live record from the live set and logs it; only a live record can be freed |
| Departures.NoRepeat | main/main.c:131-140 | in a NULL-terminated list, two positions never hold the same record |
| Departures.ListDistinct | main/main.c:131-140 | all records of a list are pairwise distinct, so the walk frees each once |
| Departures.ValuesAt | main/main.c:173-177 | entry i of a list's contents is what record i holds |
| Main.AppendDeparture | main/main.c:118-125 | tail insertion: the new record ends the list and becomes the head of an empty one |
| Main.AppendEntry | main/main.c:99-125 | one loop step: on calloc failure nothing changes; otherwise a fresh record built from the entry is appended at the tail |
| Main.BuildList | main/main.c:96-126 | the loop gives one record per entry in document order (record i built from entry i); when calloc fails the result is NULL and the records built so far stay live |
| Main.Contents | main/main.c:98-126 | live records built from the first entries hold, in order, exactly the records those entries call for |
| Main.JsonParse | main/main.c:80-129 | an unparsed document or an empty departures array gives NULL; with enough memory the list has exactly n records whose contents are the extracted entries in order; otherwise NULL, with the records built so far leaked |
| Main.JsonParseReleasing | main/main.c:103-108 | as json_parse, except that on calloc failure the partial list is freed, so a failed parse leaves the heap as it found it |
| Main.ReportDepartures | main/main.c:173-177 | the logging walk visits every record once in list order and logs their contents |
| Main.JsonFree | main/main.c:131-140 | json_free frees every record of the list exactly once, in list order; none stays live; an empty list frees nothing |
| Main.HttpsNativeRequest | main/main.c:54-56 | the terminator write lands inside the MAX+1-byte buffer right after the body; on any failure the buffer is unchanged |
| Main.GetDataTask | main/main.c:161-178 | no data or an empty string stops with NoData; an empty or unallocatable list reports a parse failure; otherwise the logged lines are the extracted entries in document order; on every path the live records and the calloc budget end as they started |
| Main.GetDataTaskTwice | main/main.c:161-178 | running the fetch, the corrected parse, the report and the free twice on the same response gives the same outcome both times and leaves the heap as it found it |
| Example.TwoDepartures | main/main.c:80-129 | on a two-entry document a clock time "12:45" is kept and "min3" is stored as "3", in document order |
| Example.PartialListLeaks | main/main.c:103-108 | with memory for one record, json_parse returns NULL for the two-entry document and one record stays allocated |
| Example.PartialListReleased | main/main.c:103-108 | with the same memory, the corrected parse returns NULL and nothing stays allocated |

## Left out

- Network I/O is not modelled: the HTTP client's open, header fetch, read, close and cleanup, TLS configuration and the status logging. The client's outcome is the input `Main.Response`. A successful read is assumed to return at most `MAX_HTTP_OUTPUT_BUFFER` bytes, the length the program passes to it. A negative `content_length` is the header-fetch failure, `Main.Response.HeadersFailed`; otherwise it only feeds the incomplete-read warning, which is not modelled.
- cJSON_Parse and cJSON internals are not modelled. The parse outcome is an input (`Option<Json>`, or the `parse` function of `Main.GetDataTask`), and `cJSON_Delete` releases nothing the model tracks.
- Platform set-up is not modelled: NVS, netif, the event loop, the network connection, FreeRTOS task creation and deletion, and `app_main`. `vTaskDelete(NULL)` ends the task, which the model states as the returned outcome.
- ESP_LOG output is modelled only for the departure lines: `Main.ReportDepartures` returns the sequence of records it would log.
- Main.JsonParse requires each entry's `link`, `destinationStop` and `time` to be strings. It also requires a time led by a byte above '9' to have at least three characters. The code dereferences these lookups unchecked and reads from offset 3 unchecked, so other input is undefined behaviour and is not modelled. The requirement covers every entry, even those after an allocation failure that the loop never reaches.
- Departures.Departure.constructor: the character arrays are immutable sequences fixed when the record is built. The calloc, the lookups and the three strncpy calls happen in one step, which is unobservable because the lookups are pure.
- Characters stand for bytes and are compared as unsigned values. Signed `char` platforms are not modelled. Dafny's `char` is any Unicode scalar value: a text holding non-ASCII characters is to be given as its UTF-8 bytes, one `char` per byte, since the `'9'` comparison and the 2, 49 and 5 character limits count bytes.
- Number values in the JSON tree are integers. Floating point plays no part in the code modelled.
- Example.TwoDepartures covers one hand-written document; it exists to show the rules on concrete values.
- Main.GetDataTask calls the corrected parse (see Findings), so its heap guarantee holds on the parse-failure path too. The code as written leaks there.
- Main.GetDataTaskTwice: its heap clause rests on the corrected parse; with json_parse as written, a run whose calloc fails leaves records allocated, so a second run has less memory and can end differently. Its same-outcome clause also rests on the model's calloc budget, which free gives back in full; a real allocator's fragmentation is not modelled.

## Findings

| source | as written | input that shows it | evidently intended | confidence | as-written member | corrected member |
|---|---|---|---|---|---|---|
| main/main.c:103-108 | when calloc fails, json_parse returns NULL without freeing the records already linked into its local list | a document with two departures and memory for one record: the first record stays allocated and unreachable | free the partial list before returning NULL | high; follows from the code's control flow (not executed) | Example.PartialListLeaks | Main.JsonParseReleasing |
