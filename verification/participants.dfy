/**
 * The participant record shared by the dashboard and the sheet-backed API:
 * seven text fields, addressed by name when the form changes one of them.
 */
module Participants {
  import opened Wrappers

  datatype Participant = Participant(
    serialNumber: string,
    name: string,
    programEvents: string,
    issueDate: string,
    position: string,
    programPhotoLink: string,
    certificateUrl: string)

  /** The `name` attribute of each of the seven form inputs. */
  datatype Field =
    | SerialNumber
    | Name
    | ProgramEvents
    | IssueDate
    | Position
    | ProgramPhotoLink
    | CertificateUrl

  /** The JSON body of a PUT: the form's fields plus the password, if one was given. */
  datatype Body = Body(fields: Participant, password: Option<string>)

  /** The record the form starts from and is reset to. */
  const Blank := Participant("", "", "", "", "", "", "")

  function FieldValue(p: Participant, f: Field): string
  {
    match f
    case SerialNumber => p.serialNumber
    case Name => p.name
    case ProgramEvents => p.programEvents
    case IssueDate => p.issueDate
    case Position => p.position
    case ProgramPhotoLink => p.programPhotoLink
    case CertificateUrl => p.certificateUrl
  }

  /** `{ ...p, [f]: v }`: exactly the named field takes the new value, the other six keep theirs. */
  function WithField(p: Participant, f: Field, v: string): (q: Participant)
    ensures FieldValue(q, f) == v
    ensures forall g :: g != f ==> FieldValue(q, g) == FieldValue(p, g)
  {
    match f
    case SerialNumber => p.(serialNumber := v)
    case Name => p.(name := v)
    case ProgramEvents => p.(programEvents := v)
    case IssueDate => p.(issueDate := v)
    case Position => p.(position := v)
    case ProgramPhotoLink => p.(programPhotoLink := v)
    case CertificateUrl => p.(certificateUrl := v)
  }

  /** A record is determined by its seven fields. */
  lemma FieldsDetermineRecord(p: Participant, q: Participant)
    requires forall f :: FieldValue(p, f) == FieldValue(q, f)
    ensures p == q
  {
    assert FieldValue(p, SerialNumber) == FieldValue(q, SerialNumber);
    assert FieldValue(p, Name) == FieldValue(q, Name);
    assert FieldValue(p, ProgramEvents) == FieldValue(q, ProgramEvents);
    assert FieldValue(p, IssueDate) == FieldValue(q, IssueDate);
    assert FieldValue(p, Position) == FieldValue(q, Position);
    assert FieldValue(p, ProgramPhotoLink) == FieldValue(q, ProgramPhotoLink);
    assert FieldValue(p, CertificateUrl) == FieldValue(q, CertificateUrl);
  }
}
