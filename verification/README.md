# target-gcs-bq: the batching and flush state machine

target-gcs-bq is a Singer target. It reads a stream of SCHEMA, RECORD and
STATE messages. It flattens each record and buffers the flattened rows per
stream. A buffer is written to a CSV file and uploaded to a Cloud Storage
bucket when it reaches its stream's row threshold, or when a STATE names that
stream. Optionally, a BigQuery load job follows each upload. In daily mode, a
stream has yesterday's partition deleted once per process, the first time a
schema for it with a date column arrives. At the end, the last
checkpoint is returned.

This project models three functions of `target_gcs_bq.py`:

- `flatten`. `values.dfy` and `flatten.dfy` model it as a pure function over
  JSON-like values. `dict(items)` is modelled as an insertion-ordered
  association list, so a repeated key keeps its first position and its last
  value.
- `persist_messages`. `persist.dfy` models it as the class `Persist.Target`.
  Its fields are the registries of the source: `schemas`, `key_properties`,
  `headers`, `data`, the process-wide `truncated` set, and `state`. One more
  field, `effects`, is a log of the external calls made, in order: each
  truncation query, each upload and each load job.
- `flush_to_file`. This is `Persist.Target.Flush`.

`policy.dfy` holds the constants and the string formats:

- the thresholds;
- the date column;
- the DELETE query;
- the file name and blob path;
- the table id and the `gs://` URI;
- the load-job settings.

`messages.dfy` defines what a message sequence determines on its own:

- which streams are registered;
- each stream's header and rows;
- the final checkpoint;
- the streams that daily mode truncates;
- the first message that raises.

`replay.dfy` holds the lemmas showing that each handled message keeps the
class's fields in agreement with those functions. `Persist.Target.Run`
collects the result:

- the run fails exactly at the first message that raises;
- otherwise it returns the final checkpoint;
- every header is the flattened keys of the stream's first record;
- every row of every stream is either uploaded, in order, or still buffered.

As in the source, buffers still holding rows when the input ends are not
flushed.

The errors that the message-handling code itself raises become values of
`Messages.Failure`, and the run stops at the first one:

- the `Exception` for a record before its schema;
- the `KeyError`, `TypeError` or `AttributeError` for a schema without a
  `properties` mapping;
- the `TypeError` for a property schema that the date-column filter cannot
  test;
- the `KeyError` or `TypeError` for a state value without a `stream` key;
- the `TypeError` for a stream name that is a list or a mapping.

## Model

| member | source | states |
|---|---|---|
| Flattening.Put | target_gcs_bq.py:40 | Storing a pair in a dict keeps an existing key in place. A new key is appended at the end. |
| Flattening.PutLookup | target_gcs_bq.py:40 | After `d[k] = v`, `d[k]` is `v` and every other key reads as before. |
| Flattening.DictOf | target_gcs_bq.py:40 | The keys of `dict(items)` are the keys of `items` without repeats, in order of first appearance. |
| Flattening.DictOfLookup | target_gcs_bq.py:40 | Looking up a key in `dict(items)` gives the value bound to it last in `items`. |
| Flattening.DictOfPairs | target_gcs_bq.py:40 | `dict(items)` holds no pair that is not in `items`. |
| Flattening.DictOfDistinct | target_gcs_bq.py:40 | Pairs with distinct keys pass through `dict` unchanged, in the same order. |
| Flattening.JoinKey | target_gcs_bq.py:35 | A top-level key is the field's own key. Under a parent, the key is the parent, then the separator, then the field's key. |
| Flattening.Items | target_gcs_bq.py:33-39 | Every scalar field from the given index on contributes its joined key and its stored leaf to the collected pairs. |
| Flattening.Flatten | target_gcs_bq.py:32-40 | The flattened keys are distinct, and every scalar field of the mapping appears under its joined key. |
| Flattening.ItemsIncludeNested | target_gcs_bq.py:36-37 | Every key of a nested field's flattening, made under that field's joined key, is among the keys that the loop collects from any earlier index. |
| Flattening.NestedKeyReaches | target_gcs_bq.py:32-40 | Every key of a nested mapping's flattening, made under its field's joined key, is a key of the outer flattening: the nested pairs are extended into the result and kept by `dict`. |
| Flattening.ItemsPairs | target_gcs_bq.py:33-39 | A pair is collected by the loop from a given index on exactly when it comes from one of those fields: a pair of a nested mapping's flattening under the field's joined key, or the field's joined key with its stored leaf. Nothing is lost and nothing else is added. |
| Flattening.FlattenPairs | target_gcs_bq.py:32-40 | Every pair of the flattened record comes from one of its fields, at any depth, and every pair a field gives has its key in the result. With `DictOfLookup`, this fixes the value each key reads. |
| Flattening.Leaf | target_gcs_bq.py:39 | A stored leaf is never a list. A value that is not a list is stored as it is. |
| Flattening.FlattenIsFlat | target_gcs_bq.py:32-40 | The result of `flatten` has distinct keys and only scalar values. Under a non-empty parent, every key starts with the parent followed by the separator. |
| Flattening.ItemsAreFlat | target_gcs_bq.py:33-39 | Every pair that the loop collects is scalar, and its key extends the parent key. |
| Flattening.FlattenOfFlat | target_gcs_bq.py:32-40 | A record with distinct keys and no nested mapping or list flattens to itself. |
| Flattening.ItemsOfFlat | target_gcs_bq.py:33-39 | On a record of scalars, the loop collects the record's own pairs, in order. |
| Flattening.NestedExample | target_gcs_bq.py:35-37 | `{"a": {"b": 1}}` flattens to `{"a__b": 1}`. |
| Flattening.CollidingKeysExample | target_gcs_bq.py:35-40 | `{"a__b": 1, "a": {"b": 2}}` flattens to `{"a__b": 2}`: the first position and the last value. |
| Flattening.NestedListExample | target_gcs_bq.py:35-39 | `{"a": {"b": [1]}}` flattens to `{"a__b": str([1])}`: a list leaf inside a nested mapping is replaced by its string form too. |
| Flattening.ListExample | target_gcs_bq.py:39 | A list leaf is replaced by its string form. |
| Policy.Enabled | target_gcs_bq.py:101 | A flag is on only when it is a string, as `config.get(...) == 'true'` here and on lines 133 and 146 tests it. A JSON `true`, `false` or a missing flag never turns it on. |
| Policy.Threshold | target_gcs_bq.py:79-80 | The flush threshold is 250000 for `AD_PERFORMANCE_REPORT`, 50000 for `proposal` and 1000000 for any other stream. |
| Policy.DateColumn | target_gcs_bq.py:100 | `calls_report` always deletes by `DATE(start_time_utc)`. Any other stream deletes by the name of a property with a date format, or fails on a property that cannot be tested, or has no date column when every property tests false. |
| Policy.DeleteQuery | target_gcs_bq.py:108 | The query is ``DELETE FROM `dataset`.stream WHERE column = '`` followed by yesterday's date and a closing quote. |
| Policy.FileName | target_gcs_bq.py:123 | The file name is the stream, a dash, the timestamp, then `.csv`. |
| Policy.BlobPath | target_gcs_bq.py:136-140 | The blob path starts with `google_folder/`, and in daily mode with `google_folder/yesterday/`. It ends with the file name and has nothing else between. |
| Policy.DateTest | target_gcs_bq.py:100 | The filter test is true exactly for a mapping whose `format` is `"date"`. It never raises on a mapping. |
| Policy.FirstDateProperty | target_gcs_bq.py:100 | The result is the first property with a date format, and every property before it tests false. Or it is the first property whose test raises, and every property before it tests false. Or it is none, and every property tests false. |
| Policy.FlushEffects | target_gcs_bq.py:121-158 | A flush makes one upload of the header and rows to `bucket_name`. The blob path is `BlobPath`. A load job follows exactly when `upload_to_bq` is `"true"`. The load job has the `gs://` URI of the blob, the table id `bucket.dataset.stream`, the configured autodetect, one header row skipped and 30 bad records allowed. |
| Policy.DistinctTimestampsDistinctBlobs | target_gcs_bq.py:122-140 | Two flushes of one stream, on the same day and at different timestamps, upload to different blobs. |
| EffectLog.UploadedAppend | target_gcs_bq.py:127-142 | The rows uploaded by two runs of log entries are those of the first, then those of the second. |
| EffectLog.FlushUploads | target_gcs_bq.py:127-142 | A flush uploads exactly its rows for its own stream and nothing for any other. |
| EffectLog.AppendNoTruncation | target_gcs_bq.py:120-160 | Uploads and load jobs leave the set of truncated streams, and the once-only property, as they were. |
| EffectLog.AppendTruncation | target_gcs_bq.py:103-113 | Logging the first truncation of a stream adds exactly that stream, and each stream is still truncated at most once. |
| EffectLog.InTruncatedTables | target_gcs_bq.py:110-113 | Every truncation query in the log names a stream of the truncated set. |
| EffectLog.TruncatesAtMostOnce | target_gcs_bq.py:103-113 | No two truncation queries in the log name the same stream. |
| Messages.StateStream | target_gcs_bq.py:89 | `value["stream"] in data` succeeds exactly when the value is a mapping whose `stream` is present and is not a list or a mapping. It names a stream exactly when that is a string. |
| Messages.SchemaProperties | target_gcs_bq.py:99 | `schema["properties"].items()` succeeds exactly when the schema is a mapping whose `properties` is a mapping, and then it gives that mapping's pairs. |
| Messages.MessageFailure | target_gcs_bq.py:61-100 | A RECORD fails exactly when its stream has had no SCHEMA. A SCHEMA succeeds exactly when it has a `properties` mapping and the date-column search does not raise. A STATE succeeds exactly when its value names a hashable stream. Other types never fail. |
| Messages.FlatRecord | target_gcs_bq.py:70 | A buffered row is `flatten(o['record'])` with the default `__`. Its keys are distinct, its values are scalars, and every top-level field that is not a mapping appears under its own key. |
| Messages.RegisteredIffSchema | target_gcs_bq.py:63-65 | A stream is registered exactly when an earlier message is a SCHEMA for it. |
| Messages.RowsOfAppend | target_gcs_bq.py:78 | The rows of a concatenated message sequence are the rows of its first part, followed by those of its second. |
| Messages.RowsOfCount | target_gcs_bq.py:78 | A stream gets exactly one row per RECORD of that stream. |
| Messages.CheckpointIsLastState | target_gcs_bq.py:85-92 | The final checkpoint is `v` exactly when there is a STATE with value `v` that no RECORD and no later STATE follows. |
| Messages.CheckpointWitness | target_gcs_bq.py:85-92 | A checkpoint comes from a STATE that no RECORD and no later STATE follows. |
| Messages.LastStateIsCheckpoint | target_gcs_bq.py:85-92 | A STATE that no RECORD and no later STATE follows is the final checkpoint. |
| Replay.UploadedSince | target_gcs_bq.py:127-142 | The rows uploaded since a point in the log grow by what the appended entries upload. |
| Replay.StillBelow | target_gcs_bq.py:79-83 | An empty buffer, or one still short of its threshold, keeps every buffer below its threshold. |
| Replay.AccountStep | target_gcs_bq.py:78-91 | If a message's appended log entries and the new buffers hold the old buffers plus the message's own row, then every row is still uploaded or buffered, in order. |
| Replay.SchemasStep | target_gcs_bq.py:93-95 | Storing a SCHEMA's stream, and leaving the schemas alone on any other message, keeps the stored streams equal to the registered streams of the extended sequence. |
| Replay.TruncatedStep | target_gcs_bq.py:99-113 | Adding a SCHEMA's stream to the truncated set when the gate opens, and leaving the set alone otherwise, keeps it equal to the initial set plus the streams the extended sequence truncates. |
| Replay.HeaderStep | target_gcs_bq.py:72-73 | Setting a RECORD's header only when its stream has none, and leaving the headers alone on any other message, keeps every header equal to the flattened keys of its stream's first record in the extended sequence. |
| Replay.BufferDelta | target_gcs_bq.py:75-83 | Buffering a row, plus the flush it may trigger, moves rows between the buffer and the uploads without losing or reordering any. |
| Replay.FlushDelta | target_gcs_bq.py:89-91 | A flush moves a buffer's rows to the uploads and changes no other buffer. |
| Persist.Target.constructor | target_gcs_bq.py:43-51 | The process starts with empty registries, nothing truncated (the global `truncated` of line 23), no checkpoint and no calls made. Its flattener is `flatten` with the `__` separator. |
| Persist.Target.Flush | target_gcs_bq.py:120-160 | The log grows by exactly the upload and optional load job of the stream's header and rows. That stream's buffer becomes empty, and nothing else changes. |
| Persist.Target.Buffer | target_gcs_bq.py:72-78 | The header is set only for a stream that has none. The row is appended to that stream's buffer, which is created if missing. |
| Persist.Target.Accept | target_gcs_bq.py:70-85 | The header is taken from the first record. The row is appended, and a buffer that reaches its threshold is flushed and emptied. The checkpoint is cleared, and every buffer stays below its threshold. |
| Persist.Target.FlushIfFull | target_gcs_bq.py:79-83 | The buffer is flushed exactly when its length reaches the stream's threshold: 250000 for `AD_PERFORMANCE_REPORT`, 50000 for `proposal`, 1000000 otherwise. |
| Persist.Target.HandleRecord | target_gcs_bq.py:62-85 | A RECORD for a stream with no schema fails and changes nothing. Otherwise the record is accepted as in `Accept`, and the checkpoint becomes none. |
| Persist.Target.HandleState | target_gcs_bq.py:86-92 | A STATE whose value names no stream fails and changes nothing. Otherwise the named stream's buffer is flushed first if it is non-empty, and then the value becomes the checkpoint. |
| Persist.Target.HandleSchema | target_gcs_bq.py:93-113 | The schema and key properties are stored. Then a missing `properties` or an untestable property schema fails. Otherwise, in daily mode, a stream with a date column that has not been truncated gets exactly one DELETE of yesterday's partition, and the stream is recorded as truncated. |
| Persist.Target.RecordStep | target_gcs_bq.py:62-85 | A RECORD fails exactly when `MessageFailure` says so. Otherwise the fields agree with the message sequence extended by it. |
| Persist.Target.StateStep | target_gcs_bq.py:86-92 | A STATE fails exactly when `MessageFailure` says so. Otherwise the fields agree with the message sequence extended by it. |
| Persist.Target.SchemaStep | target_gcs_bq.py:93-113 | A SCHEMA fails exactly when `MessageFailure` says so. Otherwise the fields agree with the message sequence extended by it. |
| Persist.Target.Handle | target_gcs_bq.py:61-116 | The dispatch by message type. It fails exactly when `MessageFailure` says so, and otherwise the fields agree with the extended sequence. A message of any other type succeeds and changes nothing. |
| Persist.Target.Process | target_gcs_bq.py:55-118 | The loop stops exactly at the first message that raises, with that failure. Otherwise it returns the checkpoint, and the fields replay the whole sequence. The log only grows. |
| Persist.Target.Run | target_gcs_bq.py:42-118 | On success, `persist_messages` returns the final checkpoint. Every header is the flattened keys of its stream's first record. Every stream's rows are uploaded in order or still buffered. The truncated set grows by the streams whose schemas ask for truncation. |

## Left out

- Parsing the input. `singer.parse_message` and JSON decoding are not part of this model: messages arrive typed. In the source, a line that fails to decode is logged, and the previous message is handled again (or a `NameError` is raised on the first line). That behaviour is not modelled.
- Record validation. `Draft4Validator` is built from each schema and never used. Only the schema and key properties are stored.
- I/O. CSV quoting, file names under `destination_path`, `os.path.expanduser`, writing and removing the local file, and the Cloud Storage and BigQuery clients are not modelled. An upload, a load job and a truncation query appear only as entries of the effect log. The result of the delete job is not modelled.
- Failures of external calls. Opening the local file (line 127), `get_bucket` (134), `upload_from_filename` (142), `os.remove` (144) and `delete_job.result()` (111) are assumed to succeed. If one of them raises, the source aborts the run, for example leaving a full buffer and the old checkpoint after a failed upload. In the model, `Flush` always succeeds and empties the buffer, and a truncation always completes.
- Clocks. `datetime.now()` and `datetime.today()` are read by the source at the moment of use. They are given as one formatted `Clock` per message.
- The lock and the usage-statistics thread. The lock serializes a single-threaded path. The thread does not touch the registries.
- `emit_state`, `main` and configuration loading. The model starts from a `Config` value. A missing string key reads as `""`, and a missing flag as `false`.
- Dead code. The `now` of line 49, the file name of lines 67-68, the unused `delimiter`, `quotechar` and `google_folder` parameters, and the `bq_client` rebinding of line 106, which builds a client for the same project.
- Numbers. JSON numbers are integers here. Floating point is left out.
- `str` on a list. Python's text form of a list is the parameter `show`. The model fixes no format for it.
- `collections.MutableMapping`. It no longer exists in Python 3.10 and later. The model follows the behaviour on the older Pythons where the name exists.
- Record shape. A record that is not a mapping is not modelled, because the message type carries a mapping. So is a JSON object with a repeated key: decoding keeps the last binding, and the model's `Lookup` sees the first.
- Other message types. ACTIVATE_VERSION and any other parsed type become `OtherMessage`. They are logged and change nothing.
- The row layout. Each row keeps its own record's key order and length, as in the source. Rows are not realigned to the header.
