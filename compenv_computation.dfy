/** The association of an executed computation with its environment record
    (compenv/model/computation.py). */
module CompenvComputation {
  import opened Wrappers
  import opened Text
  import opened CompenvRecord

  /** The identifier of a computation: an opaque string. */
  type Identifier = string

  /** An immutable value: its fields cannot be reassigned, and two computation records are equal
      exactly when their identifiers and records are. */
  datatype ComputationRecord = ComputationRecord(identifier: Identifier, record: Record)

  const Header := "Computation Record:"

  /** `str(c)`: the header line, then the identifier line and `str(c.record)`, indented by four
      spaces together. */
  ghost function ComputationRecordStr(c: ComputationRecord): (r: Result<string>)
    ensures r.Err? <==> c.record.installedDistributions == {}
  {
    var record :- RecordStr(c.record);
    Ok(Header + "\n" + Indent("Identifier: " + c.identifier + "\n" + record, Spaces(4)))
  }

  /** The lines of `str(c)`. */
  ghost function ComputationRecordLines(c: ComputationRecord): (r: seq<string>)
    requires c.record.installedDistributions != {}
  {
    [Header] + Prefixed(["Identifier: " + c.identifier] + RecordLines(c.record), Spaces(4))
  }

  lemma IdentifierLineIsPlain(identifier: Identifier)
    requires NoLineBreak(identifier)
    ensures IsPlainLine("Identifier: " + identifier)
  {
    var line := "Identifier: " + identifier;
    assert line[0] == 'I';
    forall i | 0 <= i < |line| ensures !IsLineBreak(line[i]) {
      if i >= 12 {
        assert line[i] == identifier[i - 12];
      }
    }
  }

  /** With no line break in the identifier or in any name or version, `str(c)` is the header
      followed by the identifier line and the lines of `str(c.record)`, each indented by four
      spaces. */
  lemma ComputationRecordStrLines(c: ComputationRecord)
    requires c.record.installedDistributions != {}
    requires NoLineBreak(c.identifier)
    requires forall d :: d in c.record.installedDistributions ==> NoLineBreak(d.name) && NoLineBreak(d.version)
    ensures ComputationRecordStr(c).value == Join(ComputationRecordLines(c), "\n")
  {
    var recordLines := RecordLines(c.record);
    var idLine := "Identifier: " + c.identifier;
    RecordStrLines(c.record);
    RecordLinesArePlain(c.record);
    IdentifierLineIsPlain(c.identifier);
    HeadedIndentBlock(Header, idLine, recordLines, Spaces(4));
  }
}
