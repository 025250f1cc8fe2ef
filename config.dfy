/** Configuration handling of `arg.py` (and the identical `merge_config` of
    both analyzers): a JSON object of defaults overridden by the JSON object
    read from the configuration file. */
module Config {

  /** A JSON value as `json.load` produces it. */
  datatype Json =
    | JNull
    | JBool(b: bool)
    | JInt(i: int)
    | JFloat(f: real)
    | JString(s: string)
    | JArray(items: seq<Json>)
    | JObject(fields: map<string, Json>)

  type ConfigMap = map<string, Json>

  /** The defaults every `main` starts from. */
  const DefaultConfig: ConfigMap :=
    map["REPORT_SIZE" := JInt(1000), "REPORT_DIR" := JString("./reports"), "LOG_DIR" := JString("./log")]

  /** `merged = default.copy(); merged.update(file)`: the file's entries win,
      every other default is kept. The defaults are a value here, so the
      copy that protects the caller's dictionary is implicit. */
  function MergeConfigs(default: ConfigMap, file: ConfigMap): (merged: ConfigMap)
    ensures merged.Keys == default.Keys + file.Keys
    ensures forall k :: k in file ==> merged[k] == file[k]
    ensures forall k :: k in default && k !in file ==> merged[k] == default[k]
  {
    default + file
  }

  /** An empty configuration file leaves the defaults as they are. */
  lemma MergeEmptyFile(default: ConfigMap)
    ensures MergeConfigs(default, map[]) == default
  {
  }

  /** Merging the same file twice is merging it once. */
  lemma MergeIdempotent(default: ConfigMap, file: ConfigMap)
    ensures MergeConfigs(MergeConfigs(default, file), file) == MergeConfigs(default, file)
  {
  }

  /** Merging two files one after the other is merging their own merge. */
  lemma MergeAssociative(default: ConfigMap, f1: ConfigMap, f2: ConfigMap)
    ensures MergeConfigs(MergeConfigs(default, f1), f2) == MergeConfigs(default, MergeConfigs(f1, f2))
  {
  }

  /** What a run sees for each setting the file does not override. */
  lemma DefaultSettings(file: ConfigMap)
    ensures var c := MergeConfigs(DefaultConfig, file);
      && ("REPORT_SIZE" !in file ==> c["REPORT_SIZE"] == JInt(1000))
      && ("REPORT_DIR" !in file ==> c["REPORT_DIR"] == JString("./reports"))
      && ("LOG_DIR" !in file ==> c["LOG_DIR"] == JString("./log"))
      && "REPORT_SIZE" in c && "REPORT_DIR" in c && "LOG_DIR" in c
  {
  }
}
