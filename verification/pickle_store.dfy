/**
 * `save_to_pickle` / `load_from_pickle` (helpers/pickle_helpers.py): the
 * durable snapshot every stage reads and writes. A save writes
 * `filename + ".tmp"` and only then replaces the target, so a crash at any
 * point before the replace leaves the previous snapshot untouched.
 */
module PickleStore {
  import opened Values
  import opened Files

  /** Which primitive of the save raises (OSError, PicklingError), if any. */
  datatype SaveFault = NoFault | OpenFails | DumpFails | ReplaceFails

  function TempName(name: string): (t: string)
    ensures t != name
  {
    assert |name + ".tmp"| == |name| + 4;
    name + ".tmp"
  }

  /**
   * The file map after each primitive step of a save: the start, the started
   * (truncated) temporary, the written temporary, the replaced target. The
   * trace ends at the step that raised.
   */
  function SaveTrace(fs: FileMap, name: string, data: seq<Pod>, overwrite: bool, fault: SaveFault): (tr: seq<FileMap>)
    ensures 1 <= |tr| <= 4 && tr[0] == fs
  {
    var tmp := TempName(name);
    if name in fs && !overwrite then [fs]
    else if fault == OpenFails then [fs]
    else
      var started := fs[tmp := Partial];
      if fault == DumpFails then [fs, started]
      else
        var written := fs[tmp := Pickled(data)];
        if fault == ReplaceFails then [fs, started, written]
        else [fs, started, written, (written - {tmp})[name := Pickled(data)]]
  }

  /** The save succeeded: no overwrite refusal and no step raised. */
  predicate SaveSucceeds(fs: FileMap, name: string, overwrite: bool, fault: SaveFault)
  {
    (name !in fs || overwrite) && fault == NoFault
  }

  /** `save_to_pickle`: whether it returned True, and the file map it leaves. */
  function SaveToPickle(fs: FileMap, name: string, data: seq<Pod>, overwrite: bool, fault: SaveFault): (r: (bool, FileMap))
    ensures r.0 <==> SaveSucceeds(fs, name, overwrite, fault)
    ensures r.0 ==> At(r.1, name) == Some(Pickled(data)) && TempName(name) !in r.1
    ensures r.0 ==> SameExcept(fs, r.1, {name, TempName(name)})
    ensures !r.0 ==> At(r.1, name) == At(fs, name) && SameExcept(fs, r.1, {TempName(name)})
    ensures name in fs && !overwrite ==> r.1 == fs
  {
    var tr := SaveTrace(fs, name, data, overwrite, fault);
    (SaveSucceeds(fs, name, overwrite, fault), tr[|tr| - 1])
  }

  /** `load_from_pickle`: a missing or unreadable file gives None. */
  function LoadFromPickle(fs: FileMap, name: string): (r: Option<seq<Pod>>)
    ensures name !in fs ==> r.None?
    ensures r.Some? <==> At(fs, name).Some? && At(fs, name).value.Pickled?
  {
    if name !in fs then None
    else
      match fs[name]
      case Pickled(d) => Some(d)
      case _ => None
  }

  /**
   * Crash safety: in every state the save passes through before the replace,
   * the target holds what it held before, and loads the same snapshot.
   */
  lemma CrashBeforeReplaceKeepsTarget(fs: FileMap, name: string, data: seq<Pod>, overwrite: bool, fault: SaveFault, i: nat)
    requires i < |SaveTrace(fs, name, data, overwrite, fault)|
    requires i < 3
    ensures At(SaveTrace(fs, name, data, overwrite, fault)[i], name) == At(fs, name)
    ensures LoadFromPickle(SaveTrace(fs, name, data, overwrite, fault)[i], name) == LoadFromPickle(fs, name)
  {
  }

  /** Round trip: after a successful save, loading gives back the saved data. */
  lemma SaveLoadRoundTrip(fs: FileMap, name: string, data: seq<Pod>, overwrite: bool)
    requires name !in fs || overwrite
    ensures LoadFromPickle(SaveToPickle(fs, name, data, overwrite, NoFault).1, name) == Some(data)
  {
  }

  /** Saving the same data twice leaves the same file map as saving it once. */
  lemma SaveIdempotent(fs: FileMap, name: string, data: seq<Pod>)
    ensures
      var once := SaveToPickle(fs, name, data, true, NoFault).1;
      SaveToPickle(once, name, data, true, NoFault).1 == once
  {
    var tmp := TempName(name);
    var once := SaveToPickle(fs, name, data, true, NoFault).1;
    var twice := SaveToPickle(once, name, data, true, NoFault).1;
    assert forall p :: p in twice <==> p in once;
  }
}
