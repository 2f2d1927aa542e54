/** The redemption status shared by the handlers, the validators and the client. */
module Domain {
  import opened Wrappers

  /** `CHUA_CHUOC` is "not redeemed", `DA_CHUOC` is "redeemed". */
  datatype Status = CHUA_CHUOC | DA_CHUOC

  function StatusName(s: Status): string {
    match s
    case CHUA_CHUOC => "CHUA_CHUOC"
    case DA_CHUOC => "DA_CHUOC"
  }

  /** The status spelled exactly `s`, if any (`z.enum(["DA_CHUOC", "CHUA_CHUOC"])`). */
  function StatusFromName(s: string): (r: Option<Status>)
    ensures r.Some? <==> (s == "CHUA_CHUOC" || s == "DA_CHUOC")
    ensures r.Some? ==> StatusName(r.value) == s
  {
    if s == "CHUA_CHUOC" then Some(CHUA_CHUOC)
    else if s == "DA_CHUOC" then Some(DA_CHUOC)
    else None
  }

  /** Reading back the name of a status gives the status. */
  lemma StatusNameRoundTrip(s: Status)
    ensures StatusFromName(StatusName(s)) == Some(s)
  {
  }

  /** The other status: what a toggle switches to. */
  function Flip(s: Status): (r: Status)
    ensures r != s
  {
    if s == CHUA_CHUOC then DA_CHUOC else CHUA_CHUOC
  }
}
