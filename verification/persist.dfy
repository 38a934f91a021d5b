/**
 * `persist_messages` and `flush_to_file`: the per-stream registries, the
 * dispatch on message type, the row threshold, the one-time truncation
 * gate and the checkpoint, as a class whose fields the messages update.
 */
module Persist {
  import opened Values
  import opened Flattening
  import opened Policy
  import opened EffectLog
  import opened Messages
  import opened Replay

  /**
   * One run of the sink over its input. The `truncated` set and the effect
   * log live as long as the process; the other registries are reset by `Run`.
   */
  class Target {
    const config: Config
    /** The record flattener; the constructor makes it `FlatRecord`. */
    const flatten: Flattener

    var schemas: map<string, Value>
    var keyProperties: map<string, seq<string>>
    var headers: map<string, seq<string>>
    var data: map<string, seq<Row>>
    var truncated: set<string>
    var state: Option<Value>
    var effects: seq<Effect>

    /**
     * Every stream with rows has a header and every header a schema, no
     * buffer has reached its threshold, and each stream was truncated at most
     * once, exactly the streams recorded in `truncated`.
     */
    ghost predicate Valid()
      reads this
    {
      && (forall s :: s in data <==> s in headers)
      && (forall s :: s in headers ==> s in schemas)
      && BelowThresholds(data)
      && truncated == TruncatedTables(effects)
      && TruncatesOnce(effects)
    }

    /** `show` is Python's `str` on a list, which the flattener applies to list leaves. */
    constructor (config: Config, show: seq<Value> -> string)
      ensures Valid()
      ensures this.config == config
      ensures forall record :: this.flatten(record) == FlatRecord(record, show)
      ensures schemas == map[] && keyProperties == map[] && headers == map[] && data == map[]
      ensures truncated == {} && state == None && effects == []
    {
      this.config := config;
      this.flatten := record => FlatRecord(record, show);
      schemas, keyProperties, headers, data := map[], map[], map[], map[];
      truncated, state, effects := {}, None, [];
    }

    /**
     * `flush_to_file`: write the header and the buffered rows to a CSV file,
     * upload it, submit a load job when `upload_to_bq` is on, then empty the
     * stream's buffer. Nothing else changes.
     */
    method Flush(stream: string, clock: Clock)
      requires stream in data && stream in headers
      modifies this
      ensures data == old(data)[stream := []]
      ensures effects == old(effects) + FlushEffects(config, stream, old(headers)[stream], old(data)[stream], clock)
      ensures schemas == old(schemas) && keyProperties == old(keyProperties) && headers == old(headers)
      ensures truncated == old(truncated) && state == old(state)
      ensures TruncatesOnce(old(effects)) ==>
        TruncatesOnce(effects) && TruncatedTables(effects) == TruncatedTables(old(effects))
    {
      var added := FlushEffects(config, stream, headers[stream], data[stream], clock);
      AppendNoTruncation(effects, added);
      effects := effects + added;
      data := data[stream := []];
    }

    /**
     * Append one row to the buffer of `stream`, creating the buffer, and the
     * header from `header`, when the stream has none yet.
     */
    method Buffer(stream: string, header: seq<string>, row: Row)
      modifies this
      ensures headers == if stream in old(headers) then old(headers) else old(headers)[stream := header]
      ensures data == old(data)[stream := Buffered(old(data), stream) + [row]]
      ensures schemas == old(schemas) && keyProperties == old(keyProperties)
      ensures truncated == old(truncated) && state == old(state) && effects == old(effects)
    {
      if stream !in headers {
        headers := headers[stream := header];
      }
      data := data[stream := Buffered(data, stream) + [row]];
    }

    /**
     * A RECORD of a stream with a schema, already flattened: the header is
     * taken from the first record, the record's values are appended, a buffer
     * that reaches its threshold is flushed, and the checkpoint is cleared.
     */
    method Accept(stream: string, flat: seq<(string, Value)>, clock: Clock)
      requires Valid() && stream in schemas
      modifies this
      ensures Valid()
      ensures state == None
      ensures headers == if stream in old(headers) then old(headers) else old(headers)[stream := Keys(flat)]
      ensures var rows := Buffered(old(data), stream) + [ValuesOf(flat)];
        if |rows| >= Threshold(stream) then
          data == old(data)[stream := []]
          && effects == old(effects) + FlushEffects(config, stream, headers[stream], rows, clock)
        else
          data == old(data)[stream := rows] && effects == old(effects)
      ensures schemas == old(schemas) && keyProperties == old(keyProperties) && truncated == old(truncated)
    {
      state := None;
      ghost var rows := Buffered(data, stream) + [ValuesOf(flat)];
      UpdateTwice(data, stream, rows, []);
      Buffer(stream, Keys(flat), ValuesOf(flat));
      assert data[stream] == rows;
      FlushIfFull(stream, clock);
    }

    /** Flush the buffer of `stream` when it has reached the stream's threshold. */
    method FlushIfFull(stream: string, clock: Clock)
      requires stream in data && stream in headers
      requires BelowThresholds(data[stream := []])
      modifies this
      ensures BelowThresholds(data)
      ensures if |old(data)[stream]| >= Threshold(stream) then
          data == old(data)[stream := []]
          && effects == old(effects) + FlushEffects(config, stream, old(headers)[stream], old(data)[stream], clock)
        else
          data == old(data) && effects == old(effects)
      ensures schemas == old(schemas) && keyProperties == old(keyProperties) && headers == old(headers)
      ensures truncated == old(truncated) && state == old(state)
      ensures TruncatesOnce(old(effects)) ==>
        TruncatesOnce(effects) && TruncatedTables(effects) == TruncatedTables(old(effects))
    {
      if |data[stream]| >= Threshold(stream) {
        Flush(stream, clock);
      } else {
        assert data == data[stream := []][stream := data[stream]];
        StillBelow(data[stream := []], stream, data[stream]);
      }
    }

    /** A RECORD: refused when its stream has no schema, accepted otherwise. */
    method HandleRecord(stream: string, record: seq<(string, Value)>, clock: Clock) returns (failure: Option<Failure>)
      requires Valid()
      modifies this
      ensures Valid()
      ensures stream !in old(schemas) ==> failure == Some(RecordBeforeSchema(stream)) && unchanged(this)
      ensures stream in old(schemas) ==> failure.None? && state == None
      ensures stream in old(schemas) ==>
        headers == if stream in old(headers) then old(headers)
                   else old(headers)[stream := Keys(flatten(record))]
      ensures stream in old(schemas) ==>
        var rows := Buffered(old(data), stream) + [ValuesOf(flatten(record))];
        if |rows| >= Threshold(stream) then
          data == old(data)[stream := []]
          && effects == old(effects) + FlushEffects(config, stream, headers[stream], rows, clock)
        else
          data == old(data)[stream := rows] && effects == old(effects)
      ensures schemas == old(schemas) && keyProperties == old(keyProperties) && truncated == old(truncated)
    {
      if stream !in schemas {
        return Some(RecordBeforeSchema(stream));
      }
      Accept(stream, flatten(record), clock);
      failure := None;
    }

    /**
     * A STATE: refused when its value names no stream; otherwise the named
     * stream's buffer, if non-empty, is flushed first, and then the value
     * becomes the checkpoint.
     */
    method HandleState(value: Value, clock: Clock) returns (failure: Option<Failure>)
      requires Valid()
      modifies this
      ensures Valid()
      ensures StateStream(value).Err? ==> failure == Some(StateStream(value).error) && unchanged(this)
      ensures StateStream(value).Ok? ==> failure.None? && state == Some(value)
      ensures StateStream(value).Ok? ==>
        var named := StateStream(value).value;
        if named.Some? && named.value in old(data) && |old(data)[named.value]| > 0 then
          data == old(data)[named.value := []]
          && effects == old(effects) + FlushEffects(config, named.value, headers[named.value], old(data)[named.value], clock)
        else
          data == old(data) && effects == old(effects)
      ensures schemas == old(schemas) && keyProperties == old(keyProperties)
      ensures headers == old(headers) && truncated == old(truncated)
    {
      var named := StateStream(value);
      if named.Err? {
        return Some(named.error);
      }
      if named.value.Some? && named.value.value in data && |data[named.value.value]| > 0 {
        Flush(named.value.value, clock);
      }
      state := Some(value);
      failure := None;
    }

    /**
     * A SCHEMA: registered (again) with its key properties; then, in daily
     * mode, a stream with a date column that was not truncated yet gets
     * yesterday's partition deleted, once.
     */
    method HandleSchema(stream: string, schema: Value, keyProps: seq<string>, clock: Clock)
      returns (failure: Option<Failure>)
      requires Valid()
      modifies this
      ensures Valid()
      ensures schemas == old(schemas)[stream := schema]
      ensures keyProperties == old(keyProperties)[stream := keyProps]
      ensures headers == old(headers) && data == old(data) && state == old(state)
      ensures SchemaProperties(schema).None? ==>
        failure == Some(SchemaWithoutProperties(stream)) && truncated == old(truncated) && effects == old(effects)
      ensures SchemaProperties(schema).Some? ==>
        var column := DateColumn(stream, SchemaProperties(schema).value);
        if column.Err? then
          failure == Some(UntestableProperty(stream, column.error))
          && truncated == old(truncated) && effects == old(effects)
        else if Enabled(config.daily) && column.value.Some? && stream !in old(truncated) then
          failure.None? && truncated == old(truncated) + {stream}
          && effects == old(effects)
               + [Truncate(config.bucketName, stream, DeleteQuery(config.bqDataset, stream, column.value.value, clock.yesterday))]
        else
          failure.None? && truncated == old(truncated) && effects == old(effects)
    {
      schemas := schemas[stream := schema];
      keyProperties := keyProperties[stream := keyProps];
      var props := SchemaProperties(schema);
      if props.None? {
        return Some(SchemaWithoutProperties(stream));
      }
      var column := DateColumn(stream, props.value);
      if column.Err? {
        return Some(UntestableProperty(stream, column.error));
      }
      var daily := Enabled(config.daily);
      if daily && column.value.Some? && stream !in truncated {
        var deleteQuery := DeleteQuery(config.bqDataset, stream, column.value.value, clock.yesterday);
        var entry := Truncate(config.bucketName, stream, deleteQuery);
        AppendTruncation(effects, entry);
        effects := effects + [entry];
        truncated := truncated + {stream};
      }
      failure := None;
    }

    /**
     * The registries agree with what the messages `msgs` alone determine:
     * the registered streams, the checkpoint, the headers, the rows (uploaded
     * since effect `start`, then still buffered) and the truncated streams.
     */
    ghost predicate Replays(msgs: seq<Message>, start: nat, truncated0: set<string>)
      reads this
    {
      && start <= |effects|
      && SchemasOf(msgs, schemas)
      && state == Checkpoint(msgs)
      && HeadersOf(msgs, flatten, headers)
      && Accounts(msgs, flatten, start, effects, data)
      && truncated == truncated0 + TruncatedBy(config, msgs)
    }

    /** A RECORD, as the next message after `before`. */
    method RecordStep(stream: string, record: seq<(string, Value)>, clock: Clock,
                      ghost before: seq<Message>, ghost start: nat, ghost truncated0: set<string>)
      returns (failure: Option<Failure>)
      requires Valid() && Replays(before, start, truncated0)
      modifies this
      ensures Valid()
      ensures failure == MessageFailure(before, RecordMessage(stream, record))
      ensures failure.None? ==> Replays(before + [RecordMessage(stream, record)], start, truncated0)
      ensures |old(effects)| <= |effects| && effects[..|old(effects)|] == old(effects)
    {
      ghost var m := RecordMessage(stream, record);
      Snoc(before, m);
      ghost var h0, s0, t0 := headers, schemas, truncated;
      ghost var e0, d0 := effects, data;
      failure := HandleRecord(stream, record, clock);
      if failure.None? {
        ghost var row := ValuesOf(flatten(record));
        ghost var rows := Buffered(d0, stream) + [row];
        ghost var extra := if |rows| >= Threshold(stream) then FlushEffects(config, stream, headers[stream], rows, clock) else [];
        BufferDelta(config, stream, headers[stream], clock, row, d0, extra, data);
        AccountStep(before, m, flatten, start, e0, d0, extra, data);
        HeaderStep(before, m, flatten, h0, headers);
        SchemasStep(before, m, s0, schemas);
        TruncatedStep(config, before, m, truncated0, t0, truncated);
        assert effects == e0 + extra;
      }
    }

    /** A STATE, as the next message after `before`. */
    method StateStep(value: Value, clock: Clock,
                     ghost before: seq<Message>, ghost start: nat, ghost truncated0: set<string>)
      returns (failure: Option<Failure>)
      requires Valid() && Replays(before, start, truncated0)
      modifies this
      ensures Valid()
      ensures failure == MessageFailure(before, StateMessage(value))
      ensures failure.None? ==> Replays(before + [StateMessage(value)], start, truncated0)
      ensures |old(effects)| <= |effects| && effects[..|old(effects)|] == old(effects)
    {
      ghost var m := StateMessage(value);
      Snoc(before, m);
      ghost var h0, s0, t0 := headers, schemas, truncated;
      ghost var e0, d0 := effects, data;
      failure := HandleState(value, clock);
      if failure.None? {
        ghost var extra := effects[|e0|..];
        assert effects == e0 + extra;
        ghost var named := StateStream(value).value;
        if named.Some? && named.value in d0 && |d0[named.value]| > 0 {
          FlushDelta(config, named.value, headers[named.value], clock, d0, extra, data);
          assert forall s :: Added(m, s, flatten) == [];
        } else {
          assert extra == [];
        }
        AccountStep(before, m, flatten, start, e0, d0, extra, data);
        HeaderStep(before, m, flatten, h0, headers);
        SchemasStep(before, m, s0, schemas);
        TruncatedStep(config, before, m, truncated0, t0, truncated);
      }
    }

    /** A SCHEMA, as the next message after `before`. */
    method SchemaStep(stream: string, schema: Value, keyProps: seq<string>, clock: Clock,
                      ghost before: seq<Message>, ghost start: nat, ghost truncated0: set<string>)
      returns (failure: Option<Failure>)
      requires Valid() && Replays(before, start, truncated0)
      modifies this
      ensures Valid()
      ensures failure == MessageFailure(before, SchemaMessage(stream, schema, keyProps))
      ensures failure.None? ==> Replays(before + [SchemaMessage(stream, schema, keyProps)], start, truncated0)
      ensures |old(effects)| <= |effects| && effects[..|old(effects)|] == old(effects)
    {
      ghost var m := SchemaMessage(stream, schema, keyProps);
      Snoc(before, m);
      ghost var h0, s0, t0 := headers, schemas, truncated;
      ghost var e0 := effects;
      failure := HandleSchema(stream, schema, keyProps, clock);
      if failure.None? {
        ghost var extra := effects[|e0|..];
        assert effects == e0 + extra;
        forall s ensures Uploaded(extra, s) + Buffered(data, s) == Buffered(data, s) + Added(m, s, flatten) {
          if extra != [] {
            assert extra[..0] == [];
          }
        }
        AccountStep(before, m, flatten, start, e0, data, extra, data);
        HeaderStep(before, m, flatten, h0, headers);
        SchemasStep(before, m, s0, schemas);
        TruncatedStep(config, before, m, truncated0, t0, truncated);
      }
    }

    /** One iteration of the dispatch loop: the message's handler, by its type. */
    method Handle(m: Message, clock: Clock, ghost before: seq<Message>, ghost start: nat, ghost truncated0: set<string>)
      returns (failure: Option<Failure>)
      requires Valid() && Replays(before, start, truncated0)
      modifies this
      ensures Valid()
      ensures failure == MessageFailure(before, m)
      ensures failure.None? ==> Replays(before + [m], start, truncated0)
      ensures |old(effects)| <= |effects| && effects[..|old(effects)|] == old(effects)
      ensures m.OtherMessage? ==> failure.None? && unchanged(this)
    {
      match m {
        case RecordMessage(stream, record) =>
          failure := RecordStep(stream, record, clock, before, start, truncated0);
        case StateMessage(value) =>
          failure := StateStep(value, clock, before, start, truncated0);
        case SchemaMessage(stream, schema, keyProps) =>
          failure := SchemaStep(stream, schema, keyProps, clock, before, start, truncated0);
        case OtherMessage(_) =>
          Snoc(before, m);
          failure := None;
      }
    }

    /**
     * The dispatch loop: handle the messages in order and stop at the first
     * one that fails; when none fails, the registries replay all of them.
     */
    method Process(msgs: seq<Message>, clocks: seq<Clock>) returns (result: Result<Option<Value>, Failure>)
      requires Valid() && |clocks| == |msgs| && Replays([], |effects|, truncated)
      modifies this
      ensures Valid()
      ensures |old(effects)| <= |effects| && effects[..|old(effects)|] == old(effects)
      ensures result.Ok? <==> forall i :: 0 <= i < |msgs| ==> MessageFailure(msgs[..i], msgs[i]).None?
      ensures result.Err? ==>
        exists i :: 0 <= i < |msgs| && MessageFailure(msgs[..i], msgs[i]) == Some(result.error)
          && forall j :: 0 <= j < i ==> MessageFailure(msgs[..j], msgs[j]).None?
      ensures result.Ok? ==> result.value == state && Replays(msgs, |old(effects)|, old(truncated))
    {
      ghost var start := |effects|;
      var i := 0;
      while i < |msgs|
        invariant 0 <= i <= |msgs|
        invariant Valid() && Replays(msgs[..i], start, old(truncated))
        invariant start <= |effects| && effects[..start] == old(effects)
        invariant forall j :: 0 <= j < i ==> MessageFailure(msgs[..j], msgs[j]).None?
      {
        ghost var effectsBefore := effects;
        assert msgs[..i + 1] == msgs[..i] + [msgs[i]];
        var failure := Handle(msgs[i], clocks[i], msgs[..i], start, old(truncated));
        PrefixOfPrefix(effectsBefore, effects, start);
        if failure.Some? {
          return Err(failure.value);
        }
        i := i + 1;
      }
      assert msgs[..i] == msgs;
      result := Ok(state);
    }

    /**
     * `persist_messages`: start with empty registries, handle the messages in
     * order, stop at the first one that fails, and otherwise return the last
     * checkpoint.
     */
    method Run(msgs: seq<Message>, clocks: seq<Clock>) returns (result: Result<Option<Value>, Failure>)
      requires Valid() && |clocks| == |msgs|
      modifies this
      ensures Valid()
      ensures |old(effects)| <= |effects| && effects[..|old(effects)|] == old(effects)
      ensures result.Ok? <==> forall i :: 0 <= i < |msgs| ==> MessageFailure(msgs[..i], msgs[i]).None?
      ensures result.Err? ==>
        exists i :: 0 <= i < |msgs| && MessageFailure(msgs[..i], msgs[i]) == Some(result.error)
          && forall j :: 0 <= j < i ==> MessageFailure(msgs[..j], msgs[j]).None?
      ensures result.Ok? ==> result.value == Checkpoint(msgs)
      ensures result.Ok? ==> forall s :: FirstHeader(msgs, s, flatten) == if s in headers then Some(headers[s]) else None
      ensures result.Ok? ==>
        forall s :: Uploaded(effects[|old(effects)|..], s) + Buffered(data, s) == RowsOf(msgs, s, flatten)
      ensures result.Ok? ==> truncated == old(truncated) + TruncatedBy(config, msgs)
    {
      schemas, keyProperties, headers, data, state := map[], map[], map[], map[], None;
      result := Process(msgs, clocks);
    }
  }
}
