/**
 * The two PIN guards of the web app. `requirePIN` protects the range
 * leaderboard and refuses everything while no PIN is configured;
 * `requireAdminPIN` protects the other admin routes and lets everything
 * through while no PIN is configured.
 *
 * The configured PIN is the value of `ADMIN_PIN`, with "" standing for both
 * an unset and an empty variable (both guards read it through `|| ""`).
 */
module Pins {
  import opened JsValues

  /** The outcome of a guard: it returns normally, or throws an error carrying `status`. */
  datatype Guard = Accept | Reject(status: int, message: string)

  /** The `pin` value of a parsed JSON request body. */
  datatype BodyPin = Missing | Text(s: string) | Integer(i: int) | Flag(b: bool)

  /** JavaScript truthiness of a body value. */
  predicate BodyTruthy(p: BodyPin) {
    match p
    case Missing => false
    case Text(s) => s != ""
    case Integer(i) => i != 0
    case Flag(b) => b
  }

  /** `String(v)` of a body value (only reached for truthy values). */
  function BodyString(p: BodyPin): string {
    match p
    case Missing => "undefined"
    case Text(s) => s
    case Integer(i) => IntToDecimal(i)
    case Flag(b) => if b then "true" else "false"
  }

  /** `url.searchParams.get("pin") || ""` and the `give !== expected` check of `requirePIN`. */
  function RequirePin(adminPin: string, pinParam: Option<string>): (g: Guard)
    ensures g.Accept? <==> adminPin != "" && pinParam == Some(adminPin)
    ensures g.Reject? ==> g.status == 401 && g.message == "Unauthorized"
  {
    var given := if pinParam.Some? then pinParam.value else "";
    if adminPin == "" || given != adminPin then Reject(401, "Unauthorized") else Accept
  }

  /** The candidate of `requireAdminPIN`: the first truthy of the header, the body pin and the search pin, else "". */
  function AdminCandidate(header: Option<string>, body: BodyPin, search: Option<string>): string {
    if header.Some? && header.value != "" then header.value
    else if BodyTruthy(body) then BodyString(body)
    else if search.Some? && search.value != "" then search.value
    else ""
  }

  /** `requireAdminPIN(headers, body, search)` */
  function RequireAdminPin(adminPin: string, header: Option<string>, body: BodyPin, search: Option<string>): (g: Guard)
    ensures adminPin == "" ==> g.Accept?
    ensures adminPin != "" ==> (g.Accept? <==> AdminCandidate(header, body, search) == adminPin)
    ensures g.Reject? ==> g.status == 401 && g.message == "bad pin"
  {
    if adminPin == "" then Accept
    else
      var got := AdminCandidate(header, body, search);
      if got != adminPin then Reject(401, "bad pin") else Accept
  }

  /** With no PIN configured the two guards disagree on every request: one refuses, the other lets it through. */
  lemma UnsetPinPolicies(pinParam: Option<string>, header: Option<string>, body: BodyPin, search: Option<string>)
    ensures RequirePin("", pinParam) == Reject(401, "Unauthorized")
    ensures RequireAdminPin("", header, body, search) == Accept
  {
  }

  /** A configured PIN is accepted by `requirePIN` only from the query, and a missing query value counts as "". */
  lemma {:induction false} RequirePinMissingParam(adminPin: string)
    ensures RequirePin(adminPin, None) == RequirePin(adminPin, Some(""))
    ensures adminPin != "" ==> RequirePin(adminPin, Some(adminPin)) == Accept && RequirePin(adminPin, None).Reject?
  {
  }

  /** A numeric body pin matches the PIN written as its decimal digits: `String(1234) === "1234"`. */
  lemma {:induction false} NumericBodyPin(i: int)
    requires i != 0
    ensures RequireAdminPin(IntToDecimal(i), None, Integer(i), None) == Accept
    ensures StringToNumber(IntToDecimal(i)) == Finite(i as real)
  {
    IntDecimalRoundTrip(i);
  }

  /** The header wins whenever it is non-empty, whatever the body and the query say. */
  lemma {:induction false} HeaderTakesPrecedence(adminPin: string, h: string, body: BodyPin, search: Option<string>)
    requires adminPin != "" && h != ""
    ensures RequireAdminPin(adminPin, Some(h), body, search).Accept? <==> h == adminPin
  {
  }

  /** Falsy body values (0, false, "") fall through to the query pin. */
  lemma {:induction false} FalsyBodyFallsThrough(adminPin: string, search: string)
    requires adminPin != ""
    ensures RequireAdminPin(adminPin, None, Integer(0), Some(search)) == RequireAdminPin(adminPin, None, Missing, Some(search))
    ensures RequireAdminPin(adminPin, Some(""), Flag(false), Some(search)).Accept? <==> search == adminPin
    ensures RequireAdminPin(adminPin, None, Text(""), None).Reject?
  {
  }
}
