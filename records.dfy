/** The canonical record every report reads back from the dump: a datatype,
    the metadata saying where the resource lives, and the resource's own
    fields. The reports receive the records already parsed; each report
    has its own variant type for the fields, whose variant stands for the
    record's `datatype` string. */
module Records {

  datatype Metadata = Metadata(profile: string, region: string, resourceid: string)

  /** The `--profile` and `--region` filters: an empty filter accepts every
      record; a non-empty one accepts exactly the listed names. */
  predicate Selected(meta: Metadata, profiles: seq<string>, regions: seq<string>)
  {
    && (profiles == [] || meta.profile in profiles)
    && (regions == [] || meta.region in regions)
  }

  /** The loops in every `load_data` skip a record with `continue` when
      its profile, or else its region, fails the filter. */
  function Skipped(meta: Metadata, profiles: seq<string>, regions: seq<string>): (skip: bool)
    ensures skip <==> !Selected(meta, profiles, regions)
    ensures profiles == [] && regions == [] ==> !skip
  {
    if profiles != [] && meta.profile !in profiles then true
    else if regions != [] && meta.region !in regions then true
    else false
  }
}
