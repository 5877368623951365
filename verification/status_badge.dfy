/** The internship status badge (components/ui/StatusBadge.tsx): a palette per
    status and the status name with underscores shown as spaces. */
module StatusBadge {
  import opened InternshipContext

  /** Which theme colours (background, text) and icon the badge uses. */
  datatype Palette = ErrorPalette | WarningPalette | SuccessPalette

  function PaletteFor(status: InternshipStatus): (p: Palette)
    ensures p == ErrorPalette <==> status == NotRegistered
    ensures p == WarningPalette <==> status == RegisteredPendingAssignment
    ensures p == SuccessPalette <==> status == Assigned
  {
    match status
    case NotRegistered => ErrorPalette
    case RegisteredPendingAssignment => WarningPalette
    case Assigned => SuccessPalette
  }

  /** The status as the string the server sends. */
  function StatusName(status: InternshipStatus): string {
    match status
    case NotRegistered => "NOT_REGISTERED"
    case RegisteredPendingAssignment => "REGISTERED_PENDING_ASSIGNMENT"
    case Assigned => "ASSIGNED"
  }

  /** `s.replace(/from/g, to)` for single characters: every occurrence is
      replaced in place, so none is left, and every other character is kept. */
  function ReplaceAll(s: string, from: char, to: char): (r: string)
    ensures |r| == |s|
    ensures from != to ==> from !in r
    ensures forall i :: 0 <= i < |s| && s[i] == from ==> r[i] == to
    ensures forall i :: 0 <= i < |s| && s[i] != from ==> r[i] == s[i]
  {
    seq(|s|, i requires 0 <= i < |s| => if s[i] == from then to else s[i])
  }

  /** When `to` does not occur in `s`, replacing it back undoes the
      replacement. */
  lemma ReplaceAllRoundTrip(s: string, from: char, to: char)
    requires to !in s
    ensures ReplaceAll(ReplaceAll(s, from, to), to, from) == s
  {
    var r := ReplaceAll(s, from, to);
    assert forall i :: 0 <= i < |s| ==> s[i] != to;
    assert forall i :: 0 <= i < |s| ==> ReplaceAll(r, to, from)[i] == s[i];
  }

  function Label(status: InternshipStatus): (r: string)
    ensures |r| == |StatusName(status)|
    ensures '_' !in r
  {
    ReplaceAll(StatusName(status), '_', ' ')
  }

  /** Status names contain no spaces, so restoring the underscores in a label
      gives back the name: no information is lost. */
  lemma LabelRestoresName(status: InternshipStatus)
    ensures ReplaceAll(Label(status), ' ', '_') == StatusName(status)
  {
    ReplaceAllRoundTrip(StatusName(status), '_', ' ');
  }

  /** Different statuses get different labels. */
  lemma LabelsDistinct(a: InternshipStatus, b: InternshipStatus)
    requires a != b
    ensures Label(a) != Label(b)
  {
    LabelRestoresName(a);
    LabelRestoresName(b);
  }
}
