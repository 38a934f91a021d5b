/**
 * The typed messages the sink consumes, the ways a message can abort the
 * run, and what a sequence of messages determines on its own: which streams
 * have a schema, each stream's header and rows, the final checkpoint and the
 * streams that daily mode truncates.
 */
module Messages {
  import opened Values
  import opened Flattening
  import opened Policy

  datatype Message =
    | SchemaMessage(stream: string, schema: Value, keyProperties: seq<string>)
    | RecordMessage(stream: string, record: seq<(string, Value)>)
    | StateMessage(value: Value)
    | OtherMessage(kind: string)

  /** The exceptions that abort the run. */
  datatype Failure =
      /** A record arrived for a stream that has no schema yet. */
    | RecordBeforeSchema(stream: string)
      /** The schema is not a mapping whose "properties" is a mapping. */
    | SchemaWithoutProperties(stream: string)
      /** A property schema that the date-column search cannot test (see `DateTest`). */
    | UntestableProperty(stream: string, property: string)
      /** The state value is not a mapping with a "stream" key. */
    | StateWithoutStream(value: Value)
      /** The state's "stream" is a list or a mapping, which cannot be looked up in a dict. */
    | UnhashableStream(value: Value)

  /** `schema["properties"].items()`, when the schema has that shape. */
  function SchemaProperties(schema: Value): (r: Option<seq<(string, Value)>>)
    ensures r.Some? <==>
      schema.Obj? && Lookup(schema.fields, "properties").Some? && Lookup(schema.fields, "properties").value.Obj?
    ensures r.Some? ==> Lookup(schema.fields, "properties") == Some(Obj(r.value))
  {
    if !schema.Obj? then None
    else
      var p: Option<Value> := Lookup(schema.fields, "properties");
      match p
      case Some(Obj(props)) => Some(props)
      case _ => None
  }

  /**
   * The stream a state value names, for the lookup `value["stream"] in data`:
   * a string names a stream, any other scalar names none.
   */
  function StateStream(value: Value): (r: Result<Option<string>, Failure>)
    ensures r.Ok? <==>
      (value.Obj? && Lookup(value.fields, "stream").Some?
        && !Lookup(value.fields, "stream").value.List? && !Lookup(value.fields, "stream").value.Obj?)
    ensures r.Ok? ==> (r.value.Some? <==> Lookup(value.fields, "stream").value.Str?)
    ensures r.Ok? && r.value.Some? ==> Lookup(value.fields, "stream") == Some(Str(r.value.value))
  {
    if !value.Obj? then Err(StateWithoutStream(value))
    else
      var p: Option<Value> := Lookup(value.fields, "stream");
      match p
      case None => Err(StateWithoutStream(value))
      case Some(Str(s)) => Ok(Some(s))
      case Some(v) => if v.List? || v.Obj? then Err(UnhashableStream(value)) else Ok(None)
  }

  /** A record flattener: `FlatRecord` below, or any function given in its place. */
  type Flattener = seq<(string, Value)> -> seq<(string, Value)>

  /** `flatten(record)` with the default separator, as a record is buffered. */
  function FlatRecord(record: seq<(string, Value)>, show: seq<Value> -> string): (r: seq<(string, Value)>)
    ensures Distinct(Keys(r))
    ensures forall p :: p in r ==> IsScalar(p.1)
    ensures forall j :: 0 <= j < |record| && !record[j].1.Obj? ==> record[j].0 in Keys(r)
  {
    FlattenIsFlat(Obj(record), "", DefaultSep, show);
    Flatten(Obj(record), "", DefaultSep, show)
  }

  function Init<T>(s: seq<T>): seq<T>
    requires s != []
  {
    s[..|s| - 1]
  }

  function Last<T>(s: seq<T>): T
    requires s != []
  {
    s[|s| - 1]
  }

  /** The streams that have had a schema. */
  function Registered(msgs: seq<Message>): set<string>
  {
    if msgs == [] then {}
    else Registered(Init(msgs)) + (if Last(msgs).SchemaMessage? then {Last(msgs).stream} else {})
  }

  /** Why message `m` aborts the run after `before` went through, if it does. */
  function MessageFailure(before: seq<Message>, m: Message): (r: Option<Failure>)
    ensures m.RecordMessage? ==> (r.Some? <==> m.stream !in Registered(before))
    ensures m.SchemaMessage? ==>
      (r.None? <==> SchemaProperties(m.schema).Some? && DateColumn(m.stream, SchemaProperties(m.schema).value).Ok?)
    ensures m.StateMessage? ==> (r.None? <==> StateStream(m.value).Ok?)
    ensures m.OtherMessage? ==> r.None?
  {
    match m
    case RecordMessage(s, _) => if s in Registered(before) then None else Some(RecordBeforeSchema(s))
    case SchemaMessage(s, schema, _) =>
      if SchemaProperties(schema).None? then Some(SchemaWithoutProperties(s))
      else if DateColumn(s, SchemaProperties(schema).value).Err? then
        Some(UntestableProperty(s, DateColumn(s, SchemaProperties(schema).value).error))
      else None
    case StateMessage(v) => if StateStream(v).Err? then Some(StateStream(v).error) else None
    case OtherMessage(_) => None
  }

  /** The checkpoint after `msgs`: set by each state, cleared by each record. */
  function Checkpoint(msgs: seq<Message>): Option<Value>
  {
    if msgs == [] then None
    else
      match Last(msgs)
      case StateMessage(v) => Some(v)
      case RecordMessage(_, _) => None
      case _ => Checkpoint(Init(msgs))
  }

  /** The header of `stream`: the flattened keys of its first record. */
  function FirstHeader(msgs: seq<Message>, stream: string, flatten: Flattener): Option<seq<string>>
  {
    if msgs == [] then None
    else
      var h := FirstHeader(Init(msgs), stream, flatten);
      if h.Some? then h
      else if Last(msgs).RecordMessage? && Last(msgs).stream == stream then
        Some(Keys(flatten(Last(msgs).record)))
      else None
  }

  /** The row message `m` adds to `stream`: a record of that stream adds its flattened values. */
  function Added(m: Message, stream: string, flatten: Flattener): seq<Row>
  {
    if m.RecordMessage? && m.stream == stream then [ValuesOf(flatten(m.record))] else []
  }

  /** The rows the records of `stream` contribute, in arrival order. */
  function RowsOf(msgs: seq<Message>, stream: string, flatten: Flattener): seq<Row>
  {
    if msgs == [] then []
    else RowsOf(Init(msgs), stream, flatten) + Added(Last(msgs), stream, flatten)
  }

  /** Whether the schema of `stream` resolves a date column and daily mode is on. */
  predicate TruncationWanted(c: Config, stream: string, schema: Value)
  {
    Enabled(c.daily) && SchemaProperties(schema).Some?
      && DateColumn(stream, SchemaProperties(schema).value).Ok?
      && DateColumn(stream, SchemaProperties(schema).value).value.Some?
  }

  /** The streams whose schemas ask for daily truncation. */
  function TruncatedBy(c: Config, msgs: seq<Message>): set<string>
  {
    if msgs == [] then {}
    else
      TruncatedBy(c, Init(msgs))
        + (if Last(msgs).SchemaMessage? && TruncationWanted(c, Last(msgs).stream, Last(msgs).schema)
           then {Last(msgs).stream} else {})
  }

  /** Each reference function above steps by the last message. */
  lemma Snoc(msgs: seq<Message>, m: Message)
    ensures Init(msgs + [m]) == msgs && Last(msgs + [m]) == m
  {
  }

  /** Each message adds to the rows of its own stream only. */
  lemma RowsOfSnoc(msgs: seq<Message>, m: Message, stream: string, flatten: Flattener)
    ensures RowsOf(msgs + [m], stream, flatten) == RowsOf(msgs, stream, flatten) + Added(m, stream, flatten)
  {
    Snoc(msgs, m);
  }

  /** A stream is registered exactly when some message is a schema for it. */
  lemma {:induction false} RegisteredIffSchema(msgs: seq<Message>, s: string)
    ensures s in Registered(msgs) <==> exists i :: 0 <= i < |msgs| && msgs[i].SchemaMessage? && msgs[i].stream == s
  {
    if msgs != [] {
      var init := Init(msgs);
      RegisteredIffSchema(init, s);
      if s in Registered(init) {
        var i :| 0 <= i < |init| && init[i].SchemaMessage? && init[i].stream == s;
        assert msgs[i] == init[i];
      }
      if exists i :: 0 <= i < |msgs| && msgs[i].SchemaMessage? && msgs[i].stream == s {
        var i :| 0 <= i < |msgs| && msgs[i].SchemaMessage? && msgs[i].stream == s;
        if i < |init| {
          assert init[i] == msgs[i];
        }
      }
    }
  }

  /** The rows of a concatenation are the rows of its first part, then those of its second. */
  lemma {:induction false} RowsOfAppend(a: seq<Message>, b: seq<Message>, stream: string, flatten: Flattener)
    ensures RowsOf(a + b, stream, flatten) == RowsOf(a, stream, flatten) + RowsOf(b, stream, flatten)
    decreases |b|
  {
    if b == [] {
      assert a + b == a;
    } else {
      var init, last := Init(b), Last(b);
      assert Init(a + b) == a + init && Last(a + b) == last;
      RowsOfAppend(a, init, stream, flatten);
      var x, y, z := RowsOf(a, stream, flatten), RowsOf(init, stream, flatten), Added(last, stream, flatten);
      assert x + y + z == x + (y + z);
    }
  }

  /** The number of records of `stream`, counted from the front. */
  function RecordCount(msgs: seq<Message>, stream: string): nat
  {
    if msgs == [] then 0
    else (if msgs[0].RecordMessage? && msgs[0].stream == stream then 1 else 0) + RecordCount(msgs[1..], stream)
  }

  /** A stream has exactly one row per record of that stream. */
  lemma {:induction false} RowsOfCount(msgs: seq<Message>, stream: string, flatten: Flattener)
    ensures |RowsOf(msgs, stream, flatten)| == RecordCount(msgs, stream)
  {
    if msgs != [] {
      var first := [msgs[0]];
      assert msgs == first + msgs[1..];
      RowsOfAppend(first, msgs[1..], stream, flatten);
      assert Init(first) == [] && Last(first) == msgs[0];
      RowsOfCount(msgs[1..], stream, flatten);
    }
  }

  /** Message `i` is a state message and no record and no other state message follows it. */
  ghost predicate LastState(msgs: seq<Message>, i: int)
  {
    0 <= i < |msgs| && msgs[i].StateMessage?
      && forall j :: i < j < |msgs| ==> !msgs[j].RecordMessage? && !msgs[j].StateMessage?
  }

  /**
   * The final checkpoint is the value of a state message that no record and
   * no other state message follows; there is none when a record comes after
   * every state message.
   */
  lemma CheckpointIsLastState(msgs: seq<Message>, v: Value)
    ensures Checkpoint(msgs) == Some(v) <==> exists i :: LastState(msgs, i) && msgs[i] == StateMessage(v)
  {
    if Checkpoint(msgs) == Some(v) {
      var i := CheckpointWitness(msgs);
      assert LastState(msgs, i) && msgs[i] == StateMessage(v);
    }
    if exists i :: LastState(msgs, i) && msgs[i] == StateMessage(v) {
      var i :| LastState(msgs, i) && msgs[i] == StateMessage(v);
      LastStateIsCheckpoint(msgs, i);
    }
  }

  /** A checkpoint comes from a last state message. */
  lemma {:induction false} CheckpointWitness(msgs: seq<Message>) returns (i: int)
    requires Checkpoint(msgs).Some?
    ensures LastState(msgs, i) && msgs[i] == StateMessage(Checkpoint(msgs).value)
  {
    var init, last := Init(msgs), Last(msgs);
    if last.StateMessage? {
      i := |msgs| - 1;
    } else {
      i := CheckpointWitness(init);
      assert msgs[i] == init[i];
      forall j | i < j < |msgs| ensures !msgs[j].RecordMessage? && !msgs[j].StateMessage? {
        if j < |init| {
          assert msgs[j] == init[j];
        }
      }
    }
  }

  /** A last state message sets the checkpoint. */
  lemma {:induction false} LastStateIsCheckpoint(msgs: seq<Message>, i: int)
    requires LastState(msgs, i)
    ensures Checkpoint(msgs) == Some(msgs[i].value)
    decreases |msgs|
  {
    if i < |msgs| - 1 {
      var init := Init(msgs);
      assert !Last(msgs).RecordMessage? && !Last(msgs).StateMessage?;
      assert init[i] == msgs[i];
      forall j | i < j < |init| ensures !init[j].RecordMessage? && !init[j].StateMessage? {
        assert init[j] == msgs[j];
      }
      LastStateIsCheckpoint(init, i);
    }
  }
}
