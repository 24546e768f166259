/** Signed payloads (models/payload.go), already parsed from JSON. */
module Payloads {
  import opened Text

  type ID = string

  datatype Kind =
    | Decision
    | DeltaDecision
    | Revocation
    | Connection
    | ConnectionRevocation
    | UnknownKind(name: string)

  datatype Level =
    | Allowed
    | Vetted
    | Rejected
    | UnknownLevel(name: string)

  datatype Payload = Payload(
    kind: Kind,
    signer: ID,
    ecosystem: string,
    packageID: string,
    level: Level,
    reason: string,
    targetID: ID,
    version: string,
    fromVersion: string,
    toVersion: string,
    otherID: ID,
    public: bool,
    trust: bool,
    trustExtends: int)

  /** A payload of the given kind and signer with every other field left at its zero value. */
  function Blank(kind: Kind, signer: ID): Payload {
    Payload(kind, signer, "", "", UnknownLevel(""), "", "", "", "", "", "", false, false, 0)
  }

  /** The stored text of a payload, with what parsing it yields. */
  datatype Body =
    | Malformed(text: string)
    | Parsed(text: string, payload: Payload)

  predicate IsKind(body: Body, kind: Kind) {
    body.Parsed? && body.payload.kind == kind
  }

  /** Every field a payload of its kind needs is there. */
  predicate HasFields(p: Payload) {
    var decides := p.kind.Decision? || p.kind.DeltaDecision?;
    var revokes := p.kind.Revocation? || p.kind.ConnectionRevocation?;
    && p.signer != "" && !p.kind.UnknownKind?
    && (decides ==> p.ecosystem != "" && p.packageID != "" && !p.level.UnknownLevel?)
    && (p.kind.Decision? ==> p.version != "")
    && (p.kind.DeltaDecision? ==> p.fromVersion != "" && p.toVersion != "" && p.fromVersion != p.toVersion)
    && (revokes ==> p.targetID != "")
    && (p.kind.Connection? ==> p.otherID != "")
  }

  /** `Payload.Validate`: the field that is missing or wrong, if any. */
  function Validate(p: Payload): (problem: Option<string>)
    ensures problem.None? <==> HasFields(p)
  {
    if p.signer == "" then Some("signer")
    else
      match p.kind
      case Decision =>
        if p.ecosystem == "" then Some("ecosystem")
        else if p.packageID == "" then Some("package_id")
        else if p.version == "" then Some("version")
        else if p.level.UnknownLevel? then Some("level")
        else None
      case DeltaDecision =>
        if p.ecosystem == "" then Some("ecosystem")
        else if p.packageID == "" then Some("package_id")
        else if p.fromVersion == "" then Some("from_version")
        else if p.toVersion == "" then Some("to_version")
        else if p.fromVersion == p.toVersion then Some("from_version equals to_version")
        else if p.level.UnknownLevel? then Some("level")
        else None
      case Revocation => if p.targetID == "" then Some("target_id") else None
      case Connection => if p.otherID == "" then Some("other_id") else None
      case ConnectionRevocation => if p.targetID == "" then Some("target_id") else None
      case UnknownKind(_) => Some("type")
  }
}
