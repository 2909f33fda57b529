/** The record types that flow through the pipeline. Times are integers, text is a string. */
module Models {
  import opened Sequences

  datatype IndicatorType =
    | Ipv4 | Ipv6 | Domain | Url | Sha256 | Sha1 | Md5 | Email
    | FileName | Mutex | RegistryKey | YaraRule

  datatype Tlp = Clear | Green | Amber | AmberStrict | Red

  datatype Severity = Info | Low | Medium | High | Critical

  /** UUIDv5 (RFC 4122, section 4.3) taken as injective in the hashed name. */
  datatype Uuid = Uuid5(name: string)

  type Record = map<string, string>

  datatype RawPayload = RawPayload(body: string, contentType: string)

  datatype RunContext = RunContext(runId: string, sourceId: string)

  datatype Indicator = Indicator(
    id: Uuid,
    kind: IndicatorType,
    value: string,
    pattern: Option<string>,
    confidence: int,
    severity: Severity,
    tlp: Tlp,
    tags: seq<string>,
    firstSeen: int,
    lastSeen: int,
    validFrom: Option<int>,
    validUntil: Option<int>,
    schemaVersion: string)

  datatype Observation = Observation(
    indicatorId: Uuid,
    sourceId: string,
    feedRunId: string,
    tlp: Tlp,
    confidence: int,
    raw: Record)

  /** An indicator with the record it came from, as it travels up to the persist stage. */
  type Candidate = (Indicator, Record)

  /** An indicator with its sighting, as it is stored and published. */
  type Sighting = (Indicator, Observation)

  function TlpRank(t: Tlp): nat {
    match t
    case Clear => 0
    case Green => 1
    case Amber => 2
    case AmberStrict => 3
    case Red => 4
  }
}
