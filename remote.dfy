/** What the REST service and its HTTP client give back, and the small pieces of
    request text shared by every endpoint. */
module Remote {

  /** A failed call as the HTTP client reports it: `remoteMessage` is the
      `error.message` the service put in its response body ("" when the body has
      none, or when no response arrived at all), `transportMessage` is the client
      library's own message. */
  datatype Fault = Fault(remoteMessage: string, transportMessage: string)

  /** The answer to one call: the parsed response data, or a fault. */
  datatype Response<T> = Ok(data: T) | Failed(fault: Fault)

  /** The text reported for a fault: the service's own message when it sent one,
      otherwise the transport's message (`remote || transport`). */
  function ErrorMessage(f: Fault): (m: string)
    ensures m == f.remoteMessage || m == f.transportMessage
    ensures f.remoteMessage != "" ==> m == f.remoteMessage
    ensures m == "" <==> f.remoteMessage == "" && f.transportMessage == ""
  {
    if f.remoteMessage != "" then f.remoteMessage else f.transportMessage
  }

  /** The path of a repository below the API's base URL. */
  function RepositoryPath(workspace: string, repo: string): string {
    "/repositories/" + workspace + "/" + repo
  }

  predicate IsDigit(c: char) {
    '0' <= c <= '9'
  }

  predicate IsDecimal(s: string) {
    forall i :: 0 <= i < |s| ==> IsDigit(s[i])
  }

  function DigitChar(d: nat): (c: char)
    requires d < 10
  {
    (48 + d) as char
  }

  /** The numeric value of a string of decimal digits. */
  function DecimalValue(s: string): nat
    requires IsDecimal(s)
  {
    if s == [] then 0
    else DecimalValue(s[..|s| - 1]) * 10 + (s[|s| - 1] as int - 48)
  }

  /** How a template literal renders a non-negative integer id: its decimal digits,
      without leading zeros, reading back as the same number. */
  function NatToString(n: nat): (s: string)
    ensures s != [] && IsDecimal(s)
    ensures s[0] == '0' <==> n == 0
    ensures DecimalValue(s) == n
  {
    if n < 10 then [DigitChar(n)]
    else
      var prefix := NatToString(n / 10);
      var s := prefix + [DigitChar(n % 10)];
      assert s[..|s| - 1] == prefix;
      s
  }
}
