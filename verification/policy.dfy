/**
 * The fixed policies of the sink: its configuration, the row limit per
 * stream, the date column that daily truncation deletes by, the names it
 * gives to uploaded files and tables, and the external calls it makes,
 * recorded as entries of an effect log.
 */
module Policy {
  import opened Values

  /** One buffered CSV row: a record's flattened values, in that record's own key order. */
  type Row = seq<Value>

  /**
   * The configuration keys the core reads. A string key that is absent reads
   * as "", a flag that is absent as `Bool(false)`.
   */
  datatype Config = Config(
    googleFolder: string,
    bucketName: string,
    bqDataset: string,
    daily: Value,
    uploadToBq: Value,
    autodetectSchema: Value)

  /** A flag is on only when it is the string "true" (a JSON `true` does not count). */
  predicate Enabled(flag: Value): (r: bool)
    ensures r ==> flag.Str?
    ensures flag.Bool? || flag.Null? ==> !r
  {
    flag == Str("true")
  }

  /**
   * Wall-clock readings, already formatted: `now` as `%Y%m%dT%H%M%S`,
   * `yesterday` as `%Y-%m-%d`.
   */
  datatype Clock = Clock(now: string, yesterday: string)

  /** What the sink does outside itself, in the order it does it. */
  datatype Effect =
      /** A delete query run on the warehouse and awaited. */
    | Truncate(project: string, stream: string, sql: string)
      /** A CSV file (header line, then rows) written locally, uploaded to `blobPath`, then removed. */
    | Upload(bucket: string, blobPath: string, stream: string, header: seq<string>, rows: seq<Row>)
      /** A load job submitted and not awaited. */
    | Load(project: string, uri: string, tableId: string, autodetect: Value,
           skipLeadingRows: nat, maxBadRecords: nat)

  /** The buffer length at which a stream is flushed. */
  function Threshold(stream: string): (r: nat)
    ensures stream == "AD_PERFORMANCE_REPORT" ==> r == 250000
    ensures stream == "proposal" ==> r == 50000
    ensures stream != "AD_PERFORMANCE_REPORT" && stream != "proposal" ==> r == 1000000
  {
    var maxRows := if stream == "AD_PERFORMANCE_REPORT" then 250000 else 1000000;
    if stream == "proposal" then 50000 else maxRows
  }

  /** A property schema whose `format` is `"date"`. */
  predicate IsDateProperty(p: Value)
  {
    p.Obj? && Lookup(p.fields, "format") == Some(Str("date"))
  }

  /** Whether `t` occurs in `s` as a contiguous piece. */
  predicate Contains(s: string, t: string)
  {
    |t| <= |s| && (s[..|t|] == t || Contains(s[1..], t))
  }

  /**
   * The filter test `'format' in p and p['format'] == 'date'` on one property
   * schema, or None where it raises: a string containing "format" and a list
   * holding "format" cannot be indexed by a string, and a number, a boolean or
   * null cannot be searched at all.
   */
  function DateTest(p: Value): (r: Option<bool>)
    ensures r == Some(true) <==> IsDateProperty(p)
    ensures p.Obj? ==> r.Some?
  {
    match p
    case Obj(fields) => Some(Lookup(fields, "format") == Some(Str("date")))
    case Str(s) => if Contains(s, "format") then None else Some(false)
    case List(items) => if Str("format") in items then None else Some(false)
    case _ => None
  }

  /**
   * The name of the first property whose schema has format `"date"`, or the
   * name of the first property whose test raises before one is found.
   */
  function FirstDateProperty(props: seq<(string, Value)>): (r: Result<Option<string>, string>)
    ensures r == Ok(None) <==> forall i :: 0 <= i < |props| ==> DateTest(props[i].1) == Some(false)
    ensures r.Ok? && r.value.Some? ==>
      exists i :: 0 <= i < |props| && props[i].0 == r.value.value && IsDateProperty(props[i].1)
        && forall j :: 0 <= j < i ==> DateTest(props[j].1) == Some(false)
    ensures r.Err? ==>
      exists i :: 0 <= i < |props| && props[i].0 == r.error && DateTest(props[i].1).None?
        && forall j :: 0 <= j < i ==> DateTest(props[j].1) == Some(false)
  {
    if props == [] then Ok(None)
    else
      var t := DateTest(props[0].1);
      if t.None? then Err(props[0].0)
      else if t.value then Ok(Some(props[0].0))
      else
        var r := FirstDateProperty(props[1..]);
        if r.Ok? && r.value.Some? then
          var i :| 0 <= i < |props[1..]| && props[1..][i].0 == r.value.value && IsDateProperty(props[1..][i].1)
            && forall j :: 0 <= j < i ==> DateTest(props[1..][j].1) == Some(false);
          assert props[i + 1] == props[1..][i];
          r
        else if r.Err? then
          var i :| 0 <= i < |props[1..]| && props[1..][i].0 == r.error && DateTest(props[1..][i].1).None?
            && forall j :: 0 <= j < i ==> DateTest(props[1..][j].1) == Some(false);
          assert props[i + 1] == props[1..][i];
          r
        else
          assert forall i :: 1 <= i < |props| ==> props[i] == props[1..][i - 1];
          r
  }

  /**
   * The column that daily truncation deletes by, if the stream has one, or
   * the property whose test raises while it is looked for.
   */
  function DateColumn(stream: string, props: seq<(string, Value)>): (r: Result<Option<string>, string>)
    ensures stream == "calls_report" ==> r == Ok(Some("DATE(start_time_utc)"))
    ensures stream != "calls_report" ==>
      (r == Ok(None) <==> forall i :: 0 <= i < |props| ==> DateTest(props[i].1) == Some(false))
    ensures stream != "calls_report" && r.Ok? && r.value.Some? ==>
      exists i :: 0 <= i < |props| && props[i].0 == r.value.value && IsDateProperty(props[i].1)
    ensures stream != "calls_report" && r.Err? ==>
      exists i :: 0 <= i < |props| && props[i].0 == r.error && DateTest(props[i].1).None?
  {
    if stream == "calls_report" then Ok(Some("DATE(start_time_utc)")) else FirstDateProperty(props)
  }

  /** The delete that empties yesterday's partition of a stream's table. */
  function DeleteQuery(dataset: string, stream: string, column: string, yesterday: string): (r: string)
    ensures "DELETE FROM `" + dataset + "`." + stream + " WHERE " + column + " = '" <= r
    ensures |r| == |dataset| + |stream| + |column| + |yesterday| + 27
    ensures r[|r| - |yesterday| - 1..] == yesterday + "'"
  {
    "DELETE FROM `" + dataset + "`." + stream + " WHERE " + column + " = '" + yesterday + "'"
  }

  /** The local CSV file name of one flush. */
  function FileName(stream: string, now: string): (r: string)
    ensures |r| == |stream| + |now| + 5
    ensures r[..|stream| + 1] == stream + "-"
    ensures r[|stream| + 1..|r| - 4] == now
    ensures r[|r| - 4..] == ".csv"
  {
    stream + "-" + now + ".csv"
  }

  /** The object path of one flush: the folder, in daily mode a per-day sub-folder, then the file name. */
  function BlobPath(c: Config, stream: string, clock: Clock): (r: string)
    ensures c.googleFolder + "/" <= r
    ensures Enabled(c.daily) ==> c.googleFolder + "/" + clock.yesterday + "/" <= r
    ensures |r| == |c.googleFolder| + (if Enabled(c.daily) then |clock.yesterday| + 1 else 0) + 1
                   + |FileName(stream, clock.now)|
    ensures r[|r| - |FileName(stream, clock.now)|..] == FileName(stream, clock.now)
  {
    var folder := if Enabled(c.daily) then c.googleFolder + "/" + clock.yesterday else c.googleFolder;
    folder + "/" + FileName(stream, clock.now)
  }

  /** The external calls of one flush of `rows` under `header`. */
  function FlushEffects(c: Config, stream: string, header: seq<string>, rows: seq<Row>, clock: Clock): (es: seq<Effect>)
    ensures |es| == if Enabled(c.uploadToBq) then 2 else 1
    ensures es[0].Upload? && es[0].stream == stream && es[0].header == header && es[0].rows == rows
    ensures es[0].bucket == c.bucketName
    ensures es[0].blobPath == BlobPath(c, stream, clock)
    ensures |es| == 2 ==>
      && es[1].Load?
      && es[1].project == c.bucketName
      && es[1].uri == "gs://" + es[0].bucket + "/" + es[0].blobPath
      && es[1].tableId == c.bucketName + "." + c.bqDataset + "." + stream
      && es[1].autodetect == c.autodetectSchema
      && es[1].skipLeadingRows == 1 && es[1].maxBadRecords == 30
  {
    var blobPath := BlobPath(c, stream, clock);
    var upload := Upload(c.bucketName, blobPath, stream, header, rows);
    if Enabled(c.uploadToBq) then
      [upload, Load(c.bucketName, "gs://" + c.bucketName + "/" + blobPath,
                    c.bucketName + "." + c.bqDataset + "." + stream, c.autodetectSchema, 1, 30)]
    else [upload]
  }

  /** Two flushes of one stream on the same day at different timestamps upload to different objects. */
  lemma DistinctTimestampsDistinctBlobs(c: Config, stream: string, a: Clock, b: Clock)
    requires a.yesterday == b.yesterday && a.now != b.now
    ensures BlobPath(c, stream, a) != BlobPath(c, stream, b)
  {
    var folder := if Enabled(c.daily) then c.googleFolder + "/" + a.yesterday else c.googleFolder;
    var pre := folder + "/" + stream + "-";
    BlobPathParts(c, stream, a);
    BlobPathParts(c, stream, b);
    MiddleDiffers(pre, a.now, b.now, ".csv");
  }

  /** A blob path is a prefix fixed by the folder, the day and the stream, then the timestamp and `.csv`. */
  lemma BlobPathParts(c: Config, stream: string, clock: Clock)
    ensures var folder := if Enabled(c.daily) then c.googleFolder + "/" + clock.yesterday else c.googleFolder;
      BlobPath(c, stream, clock) == (folder + "/" + stream + "-") + clock.now + ".csv"
  {
    var folder := if Enabled(c.daily) then c.googleFolder + "/" + clock.yesterday else c.googleFolder;
    var name := stream + "-" + clock.now + ".csv";
    assert FileName(stream, clock.now) == name;
    assert BlobPath(c, stream, clock) == folder + "/" + name;
    Regroup(folder, stream, clock.now);
  }

  lemma Regroup(folder: string, stream: string, now: string)
    ensures folder + "/" + (stream + "-" + now + ".csv") == (folder + "/" + stream + "-") + now + ".csv"
  {
  }

  /** Two strings with the same prefix and suffix differ when their middles do. */
  lemma MiddleDiffers(pre: string, x: string, y: string, post: string)
    requires x != y
    ensures pre + x + post != pre + y + post
  {
    var s, t := pre + x + post, pre + y + post;
    assert s[|pre|..|s| - |post|] == x;
    assert t[|pre|..|t| - |post|] == y;
  }
}

/**
 * Reading the effect log: which streams were truncated, and which rows were
 * uploaded for a stream, in upload order.
 */
module EffectLog {
  import opened Values
  import opened Policy

  /** The streams that have a truncation entry in the log. */
  function TruncatedTables(e: seq<Effect>): set<string>
  {
    if e == [] then {}
    else
      var init, last := e[..|e| - 1], e[|e| - 1];
      TruncatedTables(init) + (if last.Truncate? then {last.stream} else {})
  }

  /** Each truncation entry names a stream that no earlier entry truncated. */
  ghost predicate TruncatesOnce(e: seq<Effect>)
  {
    e == [] ||
    var init, last := e[..|e| - 1], e[|e| - 1];
    TruncatesOnce(init) && (last.Truncate? ==> last.stream !in TruncatedTables(init))
  }

  /** The rows uploaded for `stream`, upload after upload. */
  function Uploaded(e: seq<Effect>, stream: string): seq<Row>
  {
    if e == [] then []
    else
      var init, last := e[..|e| - 1], e[|e| - 1];
      Uploaded(init, stream) + (if last.Upload? && last.stream == stream then last.rows else [])
  }

  lemma {:induction false} UploadedAppend(a: seq<Effect>, b: seq<Effect>, stream: string)
    ensures Uploaded(a + b, stream) == Uploaded(a, stream) + Uploaded(b, stream)
    decreases |b|
  {
    if b == [] {
      assert a + b == a;
    } else {
      var init, last := b[..|b| - 1], b[|b| - 1];
      assert b == init + [last];
      assert (a + b)[..|a + b| - 1] == a + init;
      assert (a + b)[|a + b| - 1] == last;
      UploadedAppend(a, init, stream);
    }
  }

  /** A flush uploads exactly its rows for its stream and nothing for any other. */
  lemma FlushUploads(c: Config, stream: string, header: seq<string>, rows: seq<Row>, clock: Clock, other: string)
    ensures Uploaded(FlushEffects(c, stream, header, rows, clock), other) == if other == stream then rows else []
  {
    var es := FlushEffects(c, stream, header, rows, clock);
    assert Uploaded(es[..1], other) == if other == stream then rows else [] by {
      assert es[..1][..0] == [];
    }
    if |es| == 2 {
      assert es[..|es| - 1] == es[..1];
    } else {
      assert es == es[..1];
    }
  }

  /** Appending entries that are not truncations leaves the truncation record as it was. */
  lemma {:induction false} AppendNoTruncation(e: seq<Effect>, extra: seq<Effect>)
    requires forall i :: 0 <= i < |extra| ==> !extra[i].Truncate?
    ensures TruncatedTables(e + extra) == TruncatedTables(e)
    ensures TruncatesOnce(e + extra) == TruncatesOnce(e)
    decreases |extra|
  {
    var r := e + extra;
    if extra == [] {
      assert r == e;
    } else {
      var init := extra[..|extra| - 1];
      assert r[..|r| - 1] == e + init;
      AppendNoTruncation(e, init);
    }
  }

  /** Logging the first truncation of a stream keeps every stream truncated at most once. */
  lemma AppendTruncation(e: seq<Effect>, x: Effect)
    requires x.Truncate? && x.stream !in TruncatedTables(e)
    requires TruncatesOnce(e)
    ensures TruncatedTables(e + [x]) == TruncatedTables(e) + {x.stream}
    ensures TruncatesOnce(e + [x])
  {
    var r := e + [x];
    assert r[..|r| - 1] == e && r[|r| - 1] == x;
  }

  /** A truncation entry in the log names a stream of `TruncatedTables`. */
  lemma {:induction false} InTruncatedTables(e: seq<Effect>, i: nat)
    requires i < |e| && e[i].Truncate?
    ensures e[i].stream in TruncatedTables(e)
    decreases |e|
  {
    if i < |e| - 1 {
      var init := e[..|e| - 1];
      assert init[i] == e[i];
      InTruncatedTables(init, i);
    }
  }

  /** In a log kept by `TruncatesOnce`, no two truncation entries name the same stream. */
  lemma {:induction false} TruncatesAtMostOnce(e: seq<Effect>)
    requires TruncatesOnce(e)
    ensures forall i, j :: 0 <= i < j < |e| && e[i].Truncate? && e[j].Truncate? ==> e[i].stream != e[j].stream
    decreases |e|
  {
    if e != [] {
      var init := e[..|e| - 1];
      TruncatesAtMostOnce(init);
      forall i, j | 0 <= i < j < |e| && e[i].Truncate? && e[j].Truncate? ensures e[i].stream != e[j].stream {
        assert e[i] == init[i];
        if j < |e| - 1 {
          assert e[j] == init[j];
        } else {
          InTruncatedTables(init, i);
        }
      }
    }
  }
}
