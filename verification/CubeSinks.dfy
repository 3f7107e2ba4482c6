/** The enabled cube sinks (infra/cube-server/stac_higher_cube_server/sinks.py). */
module CubeSinks {
  import opened Basics
  import opened Json

  const INVALID_CONFIG := "InvalidSinkConfig"

  // One database row; `prefixes` is empty for a null column.
  datatype Row = Row(id: string, cid: string, config: Json, prefixes: seq<string>)

  datatype Sink =
    | SinkRow(id: string, cid: string, appendDim: string, variables: seq<string>, prefixes: seq<string>)
    | BadSink(id: string, cid: string, error: string)

  datatype ConfigError = NotAnObject | NoAppendDim | NoVariables | BlankVariable

  predicate Blank(j: Json) {
    !j.Str? || Strip(j.s) == ""
  }

  // The stripped names, each at its first occurrence; `None` at a blank or non-text entry.
  function Names(items: seq<Json>): Option<seq<string>> {
    if items == [] then Some([])
    else
      var front, last := Names(items[..|items| - 1]), items[|items| - 1];
      if front.None? || Blank(last) then None
      else if Strip(last.s) in front.value then front
      else Some(front.value + [Strip(last.s)])
  }

  function ParsedConfig(config: Json): Result<(string, seq<string>), ConfigError> {
    if !config.Obj? then Err(NotAnObject)
    else if Blank(Get(config.fields, "append_dim")) then Err(NoAppendDim)
    else if ItemsOrNone(Get(config.fields, "variables")) == [] then Err(NoVariables)
    else
      match Names(ItemsOrNone(Get(config.fields, "variables")))
      case None => Err(BlankVariable)
      case Some(names) => Ok((Strip(Get(config.fields, "append_dim").s), names))
  }

  method ParseSinkConfig(config: Json) returns (r: Result<(string, seq<string>), ConfigError>)
    ensures r == ParsedConfig(config)
  {
    if !config.Obj? {
      return Err(NotAnObject);
    }
    var appendDim := Get(config.fields, "append_dim");
    if Blank(appendDim) {
      return Err(NoAppendDim);
    }
    var raw := ItemsOrNone(Get(config.fields, "variables"));
    if raw == [] {
      return Err(NoVariables);
    }
    var names: seq<string> := [];
    for n := 0 to |raw|
      invariant Names(raw[..n]) == Some(names)
    {
      assert raw[..n + 1][..n] == raw[..n];
      if Blank(raw[n]) {
        BlankSpoils(raw, n + 1);
        return Err(BlankVariable);
      }
      if Strip(raw[n].s) !in names {
        names := names + [Strip(raw[n].s)];
      }
    }
    assert raw[..|raw|] == raw;
    r := Ok((Strip(appendDim.s), names));
  }

  lemma {:induction false} BlankSpoils(items: seq<Json>, n: nat)
    requires n <= |items| && Names(items[..n]).None?
    ensures Names(items).None?
  {
    if n == |items| {
      assert items[..n] == items;
    } else {
      assert items[..|items| - 1][..n] == items[..n];
      BlankSpoils(items[..|items| - 1], n);
    }
  }

  lemma {:induction false} NamesNeedEveryEntry(items: seq<Json>)
    ensures Names(items).Some? <==> forall j :: j in items ==> !Blank(j)
  {
    if items != [] {
      var n := |items| - 1;
      NamesNeedEveryEntry(items[..n]);
      assert items == items[..n] + [items[n]];
      assert items[n] in items;
    }
  }

  lemma {:induction false} NamesHold(items: seq<Json>, v: string)
    requires Names(items).Some?
    ensures v in Names(items).value <==> exists j :: j in items && !Blank(j) && Strip(j.s) == v
  {
    if items != [] {
      var n := |items| - 1;
      NamesHold(items[..n], v);
      assert items == items[..n] + [items[n]];
    }
  }

  lemma {:induction false} NamesDistinct(items: seq<Json>)
    requires Names(items).Some?
    ensures Distinct(Names(items).value) && (items != [] ==> Names(items).value != [])
  {
    if items != [] {
      NamesDistinct(items[..|items| - 1]);
    }
  }

  /** The names are the stripped entries, none blank, each once; one bad entry refuses
      the list. */
  lemma {:induction false} NamesAreTheEntries(items: seq<Json>)
    ensures Names(items).Some? <==> forall j :: j in items ==> !Blank(j)
    ensures Names(items).Some? ==>
              && Distinct(Names(items).value)
              && (items != [] ==> Names(items).value != [])
              && forall v :: v in Names(items).value <==> exists j :: j in items && !Blank(j) && Strip(j.s) == v
  {
    NamesNeedEveryEntry(items);
    if Names(items).Some? {
      NamesDistinct(items);
      forall v
        ensures v in Names(items).value <==> exists j :: j in items && !Blank(j) && Strip(j.s) == v
      {
        NamesHold(items, v);
      }
    }
  }

  // The config is an object with this append dimension and these variable entries, no
  // entry blank, all without the blanks around them.
  ghost predicate ConfigSays(config: Json, appendDim: string, entries: seq<string>) {
    exists fields, text, items ::
      && config == Obj(fields) && "append_dim" in fields.at && fields.at["append_dim"] == Str(text)
      && "variables" in fields.at && fields.at["variables"] == Arr(items)
      && appendDim == Strip(text) != "" && items != [] && EntriesAre(items, entries)
  }

  ghost predicate EntriesAre(items: seq<Json>, entries: seq<string>) {
    |entries| == |items| && forall i :: 0 <= i < |items| ==> items[i].Str? && Strip(items[i].s) == entries[i] != ""
  }

  // `names` are the entries, each at its first place.
  ghost predicate OnceEach(names: seq<string>, entries: seq<string>) {
    if entries == [] then names == []
    else
      var n := |entries| - 1;
      if entries[n] in entries[..n] then OnceEach(names, entries[..n])
      else names != [] && names[|names| - 1] == entries[n] && OnceEach(names[..|names| - 1], entries[..n])
  }

  lemma {:induction false} OnceEachHolds(names: seq<string>, entries: seq<string>)
    requires OnceEach(names, entries)
    ensures forall v :: v in names <==> v in entries
  {
    if entries != [] {
      var n := |entries| - 1;
      assert entries == entries[..n] + [entries[n]];
      if entries[n] in entries[..n] {
        OnceEachHolds(names, entries[..n]);
      } else {
        OnceEachHolds(names[..|names| - 1], entries[..n]);
        assert names == names[..|names| - 1] + [entries[n]];
      }
    }
  }

  lemma {:induction false} NamesAreOnceEach(items: seq<Json>, entries: seq<string>, names: seq<string>)
    requires EntriesAre(items, entries)
    ensures Names(items) == Some(names) <==> OnceEach(names, entries)
    ensures Names(items).Some?
  {
    if items != [] {
      var n := |items| - 1;
      assert EntriesAre(items[..n], entries[..n]);
      NamesAreOnceEach(items[..n], entries[..n], []);
      var front := Names(items[..n]).value;
      NamesAreOnceEach(items[..n], entries[..n], front);
      OnceEachHolds(front, entries[..n]);
      if entries[n] in entries[..n] {
        NamesAreOnceEach(items[..n], entries[..n], names);
      } else if names != [] {
        NamesAreOnceEach(items[..n], entries[..n], names[..|names| - 1]);
        assert names[|names| - 1] == entries[n] ==> names == names[..|names| - 1] + [entries[n]];
      }
    }
  }

  lemma {:induction false} EntriesOf(items: seq<Json>) returns (entries: seq<string>)
    requires forall j :: j in items ==> !Blank(j)
    ensures EntriesAre(items, entries)
  {
    assert forall i :: 0 <= i < |items| ==> items[i] in items;
    entries := seq(|items|, i requires 0 <= i < |items| => Strip(items[i].s));
  }

  /** A config is accepted exactly when it says an append dimension and variables, and it is
      read as those, each variable once, in order. */
  lemma {:induction false} ConfigReadExactly(config: Json, appendDim: string, names: seq<string>)
    ensures ParsedConfig(config) == Ok((appendDim, names))
            <==> exists entries :: ConfigSays(config, appendDim, entries) && OnceEach(names, entries)
  {
    if ParsedConfig(config) == Ok((appendDim, names)) {
      var items := Get(config.fields, "variables").items;
      NamesNeedEveryEntry(items);
      var entries := EntriesOf(items);
      NamesAreOnceEach(items, entries, names);
      assert ConfigSays(config, appendDim, entries);
    }
    if exists entries :: ConfigSays(config, appendDim, entries) && OnceEach(names, entries) {
      var entries :| ConfigSays(config, appendDim, entries) && OnceEach(names, entries);
      NamesAreOnceEach(config.fields.at["variables"].items, entries, names);
      assert entries != [];
    }
  }

  function ToSink(row: Row): Sink {
    match ParsedConfig(row.config)
    case Err(_) => BadSink(row.id, row.cid, INVALID_CONFIG)
    case Ok((appendDim, variables)) => SinkRow(row.id, row.cid, appendDim, variables, row.prefixes)
  }

  method RowsToSinks(rows: seq<Row>) returns (sinks: seq<Sink>)
    ensures sinks == Map(rows, ToSink)
  {
    sinks := [];
    for n := 0 to |rows|
      invariant sinks == Map(rows[..n], ToSink)
    {
      var parsed := ParseSinkConfig(rows[n].config);
      assert rows[..n + 1] == rows[..n] + [rows[n]];
      if parsed.Err? {
        sinks := sinks + [BadSink(rows[n].id, rows[n].cid, INVALID_CONFIG)];
      } else {
        sinks := sinks + [SinkRow(rows[n].id, rows[n].cid, parsed.value.0, parsed.value.1, rows[n].prefixes)];
      }
    }
    assert rows[..|rows|] == rows;
  }

  /** A row is the sink its config says, and a bad sink under its own ids otherwise. */
  lemma {:induction false} RowBecomes(row: Row)
    ensures forall appendDim, names, entries :: ConfigSays(row.config, appendDim, entries) && OnceEach(names, entries) ==>
              ToSink(row) == SinkRow(row.id, row.cid, appendDim, names, row.prefixes)
    ensures (forall appendDim, entries :: !ConfigSays(row.config, appendDim, entries)) ==>
              ToSink(row) == BadSink(row.id, row.cid, "InvalidSinkConfig")
  {
    forall appendDim, names, entries | ConfigSays(row.config, appendDim, entries) && OnceEach(names, entries)
      ensures ToSink(row) == SinkRow(row.id, row.cid, appendDim, names, row.prefixes)
    {
      ConfigReadExactly(row.config, appendDim, names);
    }
    match ParsedConfig(row.config) {
      case Ok((appendDim, names)) => ConfigReadExactly(row.config, appendDim, names);
      case Err(_) =>
    }
  }

  function Cids(sinks: seq<Sink>): seq<string> {
    Map(sinks, (s: Sink) => s.cid)
  }

  /** Every row becomes a sink under its own collection id: a refused config still counts
      as wanted. */
  lemma {:induction false} EveryRowIsWanted(rows: seq<Row>)
    ensures Cids(Map(rows, ToSink)) == Map(rows, (r: Row) => r.cid)
  {
  }
}
