/**
 * The local filesystem as the snapshot helpers see it: a map from path to
 * content. Serialisation is abstract: a complete pickle or JSON document is
 * kept as the value it encodes, which makes decoding exact by construction.
 */
module Files {
  import opened Values

  /** What a file holds. */
  datatype Content =
    | Pickled(pods: seq<Pod>)
    | JsonText(doc: Value)
    | Partial

  type FileMap = map<string, Content>

  /** What is at `path`, if anything. */
  function At(fs: FileMap, path: string): Option<Content>
  {
    if path in fs then Some(fs[path]) else None
  }

  /** Two file maps agree everywhere except, possibly, on the paths in `touched`. */
  ghost predicate SameExcept(fs: FileMap, fs': FileMap, touched: set<string>)
  {
    forall p :: p !in touched ==> At(fs, p) == At(fs', p)
  }
}
