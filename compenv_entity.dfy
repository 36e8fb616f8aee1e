/** The DataJoint entities of `compenv` (compenv/adapters/entity.py): a computation record is a
    primary key with a set of distribution entities, stored as rows of the part table
    `Distribution`. */
module CompenvEntity {
  import opened Wrappers
  import opened DataJoint

  const NameField := "distribution_name"
  const VersionField := "distribution_version"
  const DistributionFields: set<string> := {NameField, VersionField}

  /** The only part of a computation record: its table's name and the record's attribute. */
  const DistributionPart := "Distribution"
  const DistributionsAttr := "distributions"

  /** A distribution entity: an immutable value of its name and version. */
  datatype DJDistribution = DJDistribution(distributionName: string, distributionVersion: string)

  /** The computation record entity: an immutable value of its key and its distributions. */
  datatype DJComputationRecord = DJComputationRecord(primary: Row, distributions: set<DJDistribution>)

  /** `dataclasses.asdict(d)`. */
  function AsDict(d: DJDistribution): (r: Row)
    ensures r.Keys == DistributionFields
    ensures r[NameField] == d.distributionName && r[VersionField] == d.distributionVersion
  {
    map[NameField := d.distributionName, VersionField := d.distributionVersion]
  }

  /** `Distribution.from_mapping(mapping)`: the name, then the version, read from the mapping; a
      KeyError for the first of the two that is missing. */
  function FromMapping(mapping: Row): (r: Result<DJDistribution>)
    ensures NameField !in mapping ==> r == Err(KeyError(NameField))
    ensures NameField in mapping && VersionField !in mapping ==> r == Err(KeyError(VersionField))
    ensures r.Ok? <==> DistributionFields <= mapping.Keys
  {
    if NameField !in mapping then Err(KeyError(NameField))
    else if VersionField !in mapping then Err(KeyError(VersionField))
    else Ok(DJDistribution(mapping[NameField], mapping[VersionField]))
  }

  /** `from_mapping` reads the two attributes and nothing else: mappings that agree on them give
      the same entity, and the mapping of an entity gives that entity back. */
  lemma FromMappingReadsTwoFields(m: Row, n: Row, d: DJDistribution)
    requires DistributionFields <= m.Keys && DistributionFields <= n.Keys
    ensures m[NameField] == n[NameField] && m[VersionField] == n[VersionField] ==> FromMapping(m) == FromMapping(n)
    ensures FromMapping(AsDict(d)) == Ok(d)
    ensures FromMapping(m).Ok? && FromMapping(m).value.distributionName == m[NameField]
    ensures FromMapping(m).value.distributionVersion == m[VersionField]
  {
  }
}
