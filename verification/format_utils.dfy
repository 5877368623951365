/** `formatPhoneE164` (utils/format.utils.ts). */
module FormatUtils {
  import opened Strings

  /** Prefix a "+" unless the number already starts with one. */
  function FormatPhoneE164(phone: string): (r: string)
    ensures StartsWith(r, "+")
    ensures StartsWith(phone, "+") ==> r == phone
    ensures !StartsWith(phone, "+") ==> r == "+" + phone && |r| == |phone| + 1 && r[1..] == phone
  {
    if !StartsWith(phone, "+") then "+" + phone else phone
  }

  /** Formatting a formatted number changes nothing. */
  lemma FormatIdempotent(phone: string)
    ensures FormatPhoneE164(FormatPhoneE164(phone)) == FormatPhoneE164(phone)
  {
  }
}
