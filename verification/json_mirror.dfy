/**
 * `convert_to_json_and_save` (helpers/json_helpers.py): the human-readable
 * mirror written beside every snapshot, one `{"Channel": ..., "Entries": [...]}`
 * record per work unit.
 */
module JsonMirror {
  import opened Values
  import opened Files

  /** One element of the argument list: something that unpacks into two, or not. */
  datatype Item = Pair(channel: Dict, entries: seq<Dict>) | NotAPair

  /** The argument: a Python list, or any other object. */
  datatype Arg = ItemList(items: seq<Item>) | NotAList

  /** Which I/O step raises, if any: opening the file, or writing into it once opened. */
  datatype JsonFault = NoFault | OpenFails | WriteFails

  function Objects(ds: seq<Dict>): seq<Value>
  {
    MapSeq((d: Dict) => Obj(d), ds)
  }

  /** `{"Channel": channel, "Entries": entries}` */
  function Record(channel: Dict, entries: seq<Dict>): Value
  {
    Obj(map["Channel" := Obj(channel), "Entries" := List(Objects(entries))])
  }

  function Dicts(vs: seq<Value>): Option<seq<Dict>>
  {
    if vs == [] then Some([])
    else if !vs[0].Obj? then None
    else
      match Dicts(vs[1..])
      case Some(rest) => Some([vs[0].fields] + rest)
      case None => None
  }

  /** Reads a record back into its pair. */
  function Unrecord(v: Value): Option<Pod>
  {
    if !v.Obj? || "Channel" !in v.fields || "Entries" !in v.fields then None
    else
      var c := v.fields["Channel"];
      var es := v.fields["Entries"];
      if !c.Obj? || !es.List? then None
      else
        match Dicts(es.items)
        case Some(ds) => Some(Pod(c.fields, ds))
        case None => None
  }

  lemma {:induction false} DictsObjects(ds: seq<Dict>)
    ensures Dicts(Objects(ds)) == Some(ds)
    decreases |ds|
  {
    if ds != [] {
      var vs := Objects(ds);
      assert vs[1..] == Objects(ds[1..]);
      DictsObjects(ds[1..]);
      assert vs[0] == Obj(ds[0]);
      assert [ds[0]] + ds[1..] == ds;
    }
  }

  /** The flattening loses nothing: every record reads back as its pair. */
  lemma RecordRoundTrip(channel: Dict, entries: seq<Dict>)
    ensures Unrecord(Record(channel, entries)) == Some(Pod(channel, entries))
  {
    DictsObjects(entries);
  }

  /** The list comprehension; an element that does not unpack raises, and the handler returns False. */
  function Flatten(items: seq<Item>): (r: Option<seq<Value>>)
    ensures r.Some? <==> forall i :: 0 <= i < |items| ==> items[i].Pair?
    ensures r.Some? ==> |r.value| == |items|
    ensures r.Some? ==> forall i :: 0 <= i < |items| ==> Unrecord(r.value[i]) == Some(Pod(items[i].channel, items[i].entries))
  {
    if items == [] then Some([])
    else
      match items[0]
      case NotAPair => None
      case Pair(c, es) =>
        RecordRoundTrip(c, es);
        match Flatten(items[1..])
        case None => None
        case Some(rest) => Some([Record(c, es)] + rest)
  }

  /** The conditions under which the function returns True. */
  predicate Writes(fs: FileMap, arg: Arg, name: string, overwrite: bool, fault: JsonFault)
  {
    && arg.ItemList?
    && Flatten(arg.items).Some?
    && (name !in fs || overwrite)
    && fault == NoFault
  }

  /**
   * `convert_to_json_and_save`: the type check, the flattening, the overwrite
   * guard, then the write. Opening with 'w' truncates, so a write that raises
   * after the open leaves a partial file behind.
   */
  function ConvertToJsonAndSave(fs: FileMap, arg: Arg, name: string, overwrite: bool, fault: JsonFault): (r: (bool, FileMap))
    ensures r.0 <==> Writes(fs, arg, name, overwrite, fault)
    ensures r.0 ==> r.1 == fs[name := JsonText(List(Flatten(arg.items).value))]
    ensures !r.0 && fault != WriteFails ==> r.1 == fs
    ensures !r.0 ==> SameExcept(fs, r.1, {name})
    ensures arg.NotAList? ==> r == (false, fs)
    ensures name in fs && !overwrite ==> r == (false, fs)
  {
    if arg.NotAList? then (false, fs)
    else
      match Flatten(arg.items)
      case None => (false, fs)
      case Some(records) =>
        if name in fs && !overwrite then (false, fs)
        else if fault == OpenFails then (false, fs)
        else if fault == WriteFails then (false, fs[name := Partial])
        else (true, fs[name := JsonText(List(records))])
  }

  /** The items of a list of work units. */
  function Items(pods: seq<Pod>): seq<Item>
  {
    MapSeq((p: Pod) => Pair(p.channel, p.entries), pods)
  }

  /** What the stages pass: a list of work units always flattens, one record per unit, in order. */
  lemma MirrorOfPods(pods: seq<Pod>)
    ensures Flatten(Items(pods)).Some?
    ensures forall i :: 0 <= i < |pods| ==> Unrecord(Flatten(Items(pods)).value[i]) == Some(pods[i])
  {
  }
}
